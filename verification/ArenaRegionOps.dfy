/** Every action on the frontier, the metadata region, the managers and the reclaim flag keeps the invariant. */
module ArenaRegionOps {
  import opened Wrappers
  import opened ArenaState
  import opened ArenaOps
  import opened ArenaInvariant
  import opened ArenaChain
  import opened ArenaFrames
  import opened ArenaRecordOps

  // ----- the frontier -----

  ghost predicate CarvedBy(a: Arena, t: ThreadId, b: Address, kept: bool) {
    b in a.chain && b in a.holders && a.holders[b] == Carved(t, kept)
  }

  lemma CarveKeeps(c: Config, a: Arena, t: ThreadId, size: nat, garbage: Header)
    requires Inv(c, a) && 0 < size && IsClassSize(c, size) && a.frontier + size < c.metadataStart
    ensures a.frontier !in a.chain
    ensures Inv(c, Carve(a, t, size, garbage))
  {
    var a' := Carve(a, t, size, garbage);
    ExtendChain(c, a.chain, a.frontier, a.predecessor, size);
    forall b | b in a'.chain ensures HolderOk(a', b) {
      if b != a.frontier {
        assert HolderOk(a, b);
      }
    }
    forall r | r in a'.records ensures RecordOk(c, a', r) {
      assert RecordOk(c, a, r);
    }
    forall b | b in a.live ensures b in a.chain && b in a.holders {
      assert LiveBlockOk(a, b);
    }
    CarveKeepsLists(c, a, a');
    BoundaryAfter(c, a, a');
  }

  /** The lists and the client's blocks survive any change that adds an address to the chain. */
  lemma CarveKeepsLists(c: Config, a: Arena, a': Arena)
    requires ListsOk(c, a) && LiveOk(a)
    requires a'.records == a.records && a'.owners == a.owners && a'.bins == a.bins && a'.pendingList == a.pendingList
    requires a'.live == a.live
    requires forall b {:trigger b in a'.chain} :: b in a.live ==>
      b in a'.chain && b in a'.holders && b in a.chain && b in a.holders && a'.chain[b] == a.chain[b] && a'.holders[b] == a.holders[b]
    ensures ListsOk(c, a') && LiveOk(a')
  {
    forall e | e in a'.bins ensures EntryOk(c, a', e) {
      assert EntryOk(c, a, e);
    }
    forall r | r in a'.owners ensures Shelved(c, a', r) {
      assert Shelved(c, a, r);
    }
    forall b | b in a'.live ensures LiveBlockOk(a', b) {
      assert LiveBlockOk(a, b);
      assert b in a'.chain;
    }
    forall r | r in a'.owners ensures ClientHas(a', r) {
      assert ClientHas(a, r);
    }
  }

  /** The re-check passed: the block stays. */
  lemma KeepBlockKeeps(c: Config, a: Arena, t: ThreadId, b: Address)
    requires Inv(c, a) && CarvedBy(a, t, b, false) && !OverlapsMetadata(c, a, End(a.chain, b))
    ensures Inv(c, SetHolder(a, b, Carved(t, true)))
  {
    var a' := SetHolder(a, b, Carved(t, true));
    forall b' | b' in a'.chain ensures HolderOk(a', b') {
      assert HolderOk(a, b');
    }
    forall r | r in a'.records ensures RecordOk(c, a', r) {
      assert RecordOk(c, a, r);
    }
    forall b | b in a.live ensures b in a.chain && b in a.holders && a'.holders[b] == a.holders[b] {
      assert LiveBlockOk(a, b);
    }
    CarveKeepsLists(c, a, a');
    forall b', r ensures Clear(c, a', b', r) {
      assert Clear(c, a, b', r);
    }
  }

  /** The frontier CAS of an undo: the block goes and nothing ever referred to it. */
  lemma UndoCarveKeeps(c: Config, a: Arena, t: ThreadId, b: Address, kept: bool)
    requires Inv(c, a) && CarvedBy(a, t, b, kept) && a.predecessor == Some(b)
    ensures Inv(c, DropBlock(a, b, a.chain[b].previous))
  {
    var a' := DropBlock(a, b, a.chain[b].previous);
    ShortenChain(c, a.chain, a.frontier, b);
    forall b' | b' in a'.chain ensures HolderOk(a', b') {
      assert HolderOk(a, b');
    }
    forall r | r in a'.records ensures RecordOk(c, a', r) {
      assert RecordOk(c, a, r);
    }
    forall b' | b' in a.live ensures b' != b && b' in a.chain && b' in a.holders {
      assert LiveBlockOk(a, b');
    }
    CarveKeepsLists(c, a, a');
    BoundaryAfter(c, a, a');
  }

  /** Writing the header of a block that is not bound yet. */
  lemma SetHeaderKeeps(c: Config, a: Arena, t: ThreadId, b: Address, h: Header)
    requires Inv(c, a) && CarvedBy(a, t, b, true)
    ensures Inv(c, SetHeader(a, b, h))
  {
    var a' := SetHeader(a, b, h);
    forall b' | b' in a'.chain ensures HolderOk(a', b') {
      assert HolderOk(a, b');
    }
    forall r | r in a'.records ensures RecordOk(c, a', r) {
      assert RecordOk(c, a, r);
    }
    forall b | b in a.live ensures b in a.chain && b in a.holders {
      assert LiveBlockOk(a, b);
    }
    CarveKeepsLists(c, a, a');
    BoundaryAfter(c, a, a');
  }

  // ----- rolling the frontier back under the flag -----

  ghost predicate ClaimedBy(a: Arena, t: ThreadId, r: RecordIndex) {
    a.flag == Up(t, Claimed(r)) && r in a.records && r in a.owners
  }

  lemma SetFlagKeeps(c: Config, a: Arena, flag: Flag)
    requires Inv(c, a) && (a.flag.Down? || a.flag.claim.NoClaim?) && (flag.Down? || flag.claim.NoClaim?)
    ensures Inv(c, a.(flag := flag))
  {
    var a' := a.(flag := flag);
    forall b | b in a'.chain ensures HolderOk(a', b) {
      assert HolderOk(a, b);
    }
    forall r | r in a'.records ensures RecordOk(c, a', r) {
      assert RecordOk(c, a, r);
    }
    forall b | b in a.live ensures b in a.chain && b in a.holders {
      assert LiveBlockOk(a, b);
    }
    CarveKeepsLists(c, a, a');
    BoundaryAfter(c, a, a');
  }

  /** A walk claims an AVAILABLE record where it lies: in a bin, or in the hands of a thread at a bin. */
  lemma WalkClaimKeeps(c: Config, a: Arena, t: ThreadId, r: RecordIndex)
    requires Inv(c, a) && a.flag == Up(t, NoClaim)
    requires r in a.records && a.records[r].word.state.Available? && a.records[r].word.block.Some?
    ensures Inv(c, SetStateUnderFlag(a, r, FrontierReclaimInProgress, Up(t, Claimed(r))))
  {
    assert RecordOk(c, a, r);
    UnderFlagKeeps(c, a, r, FrontierReclaimInProgress, Up(t, Claimed(r)), a.owners[r]);
  }

  /** The frontier word moved meanwhile: the walk gives the record back. */
  lemma WalkRestoreKeeps(c: Config, a: Arena, t: ThreadId, r: RecordIndex)
    requires Inv(c, a) && ClaimedBy(a, t, r) && !(a.owners[r].Held? && a.owners[r].phase.Rolling?)
    ensures Inv(c, SetStateUnderFlag(a, r, Available, Up(t, NoClaim)))
  {
    assert RecordOk(c, a, r);
    UnderFlagKeeps(c, a, r, Available, Up(t, NoClaim), a.owners[r]);
  }

  /** A batch claims one of the DEALLOCATED_PENDING records it holds. */
  lemma BatchClaimKeeps(c: Config, a: Arena, t: ThreadId, r: RecordIndex)
    requires Inv(c, a) && a.flag == Up(t, NoClaim) && HeldAs(a, t, r, Queued)
    ensures Inv(c, SetOwner(SetStateUnderFlag(a, r, FrontierReclaimInProgress, Up(t, Claimed(r))), r, Held(t, Rolling)))
  {
    assert RecordOk(c, a, r);
    UnderFlagKeeps(c, a, r, FrontierReclaimInProgress, Up(t, Claimed(r)), Held(t, Rolling));
  }

  lemma BatchRestoreKeeps(c: Config, a: Arena, t: ThreadId, r: RecordIndex)
    requires Inv(c, a) && ClaimedBy(a, t, r) && HeldAs(a, t, r, Rolling)
    ensures Inv(c, SetOwner(SetStateUnderFlag(a, r, DeallocatedPending, Up(t, NoClaim)), r, Held(t, Queued)))
  {
    assert RecordOk(c, a, r);
    UnderFlagKeeps(c, a, r, DeallocatedPending, Up(t, NoClaim), Held(t, Queued));
  }

  /** A claim is made or given back: the record binds its block before and after. */
  lemma UnderFlagKeeps(c: Config, a: Arena, r: RecordIndex, state: BlockState, flag: Flag, owner: Owner)
    requires Inv(c, a) && r in a.records
    requires a.flag.Up? && flag.Up? && flag.thread == a.flag.thread
    requires a.flag.claim.NoClaim? || a.flag.claim == Claimed(r)
    requires flag.claim == if state.FrontierReclaimInProgress? then Claimed(r) else NoClaim
    requires r in a.owners && Answers(a, r) && !Unused(owner) && Binds(flag, r, state)
    requires Reclaimable(state) ==> Reclaimable(a.records[r].word.state) || a.records[r].word.state.DeallocatedPending?
    requires OwnerAllows(owner, state)
    requires owner == a.owners[r]
      || (a.owners[r].Held? && owner.Held? && !a.owners[r].phase.Growing? && !a.owners[r].phase.Filling?
          && (owner.phase.Rolling? ==> owner.thread == flag.thread))
    ensures Inv(c, SetOwner(SetStateUnderFlag(a, r, state, flag), r, owner))
    ensures owner == a.owners[r] ==> SetOwner(SetStateUnderFlag(a, r, state, flag), r, owner) == SetStateUnderFlag(a, r, state, flag)
  {
    var a' := SetOwner(SetStateUnderFlag(a, r, state, flag), r, owner);
    assert owner == a.owners[r] ==> a'.owners == a.owners;
    assert RecordOk(c, a, r);
    assert LinkOk(c, a.chain, a.frontier, a.records[r].word.block.value);
    UnderFlagKeepsRecords(c, a, a', r);
    UnderFlagKeepsLists(c, a, a', r);
    ManagersAfterSame(c, a, a', r);
    BoundaryAfter(c, a, a');
  }

  /** Record r and the flag changed; every other record keeps its meaning, for it is not the claimed one. */
  ghost predicate OnlyClaim(a: Arena, a': Arena, r: RecordIndex) {
    && r in a.records && r in a.owners && r in a'.records && r in a'.owners
    && a'.records == a.records[r := a'.records[r]]
    && a'.owners == a.owners[r := a'.owners[r]]
    && a'.count == a.count && a'.live == a.live && a'.bins == a.bins && a'.pendingList == a.pendingList
    && a.flag.Up? && a'.flag.Up? && a'.flag.thread == a.flag.thread
    && (a.flag.claim.NoClaim? || a.flag.claim.record == r)
    && (a'.flag.claim.NoClaim? || a'.flag.claim.record == r)
    && a'.records[r].totalSize == a.records[r].totalSize
    && a'.records[r].word.block == a.records[r].word.block
  }

  lemma UnderFlagKeepsRecords(c: Config, a: Arena, a': Arena, r: RecordIndex)
    requires Inv(c, a) && OnlyClaim(a, a', r) && a'.chain == a.chain && a'.holders == a.holders && a'.headers == a.headers
    requires Answers(a, r) && Answers(a', r)
    requires RecordOk(c, a', r)
    requires a'.flag.claim.NoClaim? || a'.records[r].word.state.FrontierReclaimInProgress?
    ensures HoldersOk(a') && RecordsOk(c, a') && FlagOk(a')
  {
    forall b | b in a'.chain ensures HolderOk(a', b) {
      assert HolderOk(a, b);
    }
    forall r' | r' in a'.records ensures RecordOk(c, a', r') {
      assert RecordOk(c, a, r');
    }
  }

  lemma UnderFlagKeepsLists(c: Config, a: Arena, a': Arena, r: RecordIndex)
    requires ListsOk(c, a) && LiveOk(a) && OnlyClaim(a, a', r)
    requires a'.chain == a.chain && a'.holders == a.holders
    requires a'.owners[r] == a.owners[r] || (a.owners[r].Held? && a'.owners[r].Held?)
    ensures ListsOk(c, a') && LiveOk(a')
  {
    forall e | e in a'.bins ensures EntryOk(c, a', e) {
      assert EntryOk(c, a, e);
    }
    forall r' | r' in a'.owners ensures Shelved(c, a', r') {
      assert Shelved(c, a, r');
    }
    forall b | b in a'.live ensures LiveBlockOk(a', b) {
      assert LiveBlockOk(a, b);
    }
    forall r' | r' in a'.owners ensures ClientHas(a', r') {
      assert ClientHas(a, r');
    }
  }

  lemma ManagersAfterSame(c: Config, a: Arena, a': Arena, r: RecordIndex)
    requires ManagersOk(c, a.managers, a.owners, a.count) && a'.managers == a.managers && a'.count == a.count
    requires r in a.owners && r in a'.owners && a'.owners == a.owners[r := a'.owners[r]]
    requires a'.owners[r] == a.owners[r] || (a.owners[r].Held? && a'.owners[r].Held?)
    ensures ManagersOk(c, a'.managers, a'.owners, a'.count)
  {
    if a'.owners[r] == a.owners[r] {
      assert a'.owners == a.owners;
    } else {
      ManagersAfterOwner(c, a.managers, a.owners, a.count, r, a'.owners[r]);
    }
  }

  /** The frontier CAS of a reclaim takes the claimed record's block, which is the last one. */
  lemma RollBackKeeps(c: Config, a: Arena, t: ThreadId, r: RecordIndex, b: Address)
    requires Inv(c, a) && ClaimedBy(a, t, r) && a.records[r].word.block == Some(b) && a.predecessor == Some(b)
    ensures b in a.chain && b in a.headers && a.headers[b].previous == a.chain[b].previous
    ensures Inv(c, DropBlock(a, b, HeaderAt(a, b).previous).(flag := Up(t, RolledBack(r))))
  {
    assert RecordOk(c, a, r) && HolderOk(a, b);
    var a' := DropBlock(a, b, HeaderAt(a, b).previous).(flag := Up(t, RolledBack(r)));
    ShortenChain(c, a.chain, a.frontier, b);
    forall b' | b' in a'.chain ensures HolderOk(a', b') {
      assert HolderOk(a, b');
    }
    forall r' | r' in a'.records ensures RecordOk(c, a', r') {
      assert RecordOk(c, a, r');
    }
    forall b' | b' in a.live ensures b' != b && b' in a.chain && b' in a.holders {
      assert LiveBlockOk(a, b') && HolderOk(a, b');
    }
    CarveKeepsLists(c, a, a');
    BoundaryAfter(c, a, a');
  }

  /** The walk is done with the record: FRONTIER_RECLAIMED, to be recycled by whoever pops it. */
  lemma WalkFinishKeeps(c: Config, a: Arena, t: ThreadId, r: RecordIndex)
    requires Inv(c, a) && a.flag == Up(t, RolledBack(r)) && r in a.owners
    requires !(a.owners[r].Held? && a.owners[r].phase.Rolling?)
    ensures Inv(c, SetStateUnderFlag(a, r, FrontierReclaimed, Up(t, NoClaim)))
  {
    var a' := SetStateUnderFlag(a, r, FrontierReclaimed, Up(t, NoClaim));
    assert RecordOk(c, a, r);
    AfterRollBack(c, a, a', r);
  }

  /** The batch recycles the record whose block it has just taken back. */
  lemma BatchRecycleKeeps(c: Config, a: Arena, t: ThreadId, r: RecordIndex)
    requires Inv(c, a) && a.flag == Up(t, RolledBack(r)) && HeldAs(a, t, r, Rolling)
    ensures Inv(c, SetWord(a, r, Word(None, MetadataAvailable, RecordAt(a, r).word.version), Held(t, Recycling)).(flag := Up(t, NoClaim)))
  {
    var a' := SetWord(a, r, Word(None, MetadataAvailable, RecordAt(a, r).word.version), Held(t, Recycling)).(flag := Up(t, NoClaim));
    assert RecordOk(c, a, r);
    AfterRollBack(c, a, a', r);
  }

  lemma AfterRollBack(c: Config, a: Arena, a': Arena, r: RecordIndex)
    requires Inv(c, a) && a.flag.Up? && a.flag.claim == RolledBack(r) && r in a.owners && r in a'.records && r in a'.owners
    requires a' == a.(records := a.records[r := a'.records[r]], owners := a.owners[r := a'.owners[r]], flag := Up(a.flag.thread, NoClaim))
    requires RecordOk(c, a', r) && !Answers(a', r)
    requires a'.records[r].totalSize == a.records[r].totalSize
    requires a'.owners[r] == a.owners[r] || (a.owners[r].Held? && a'.owners[r].Held? && Decided(a.owners[r]))
    ensures Inv(c, a')
  {
    assert RecordOk(c, a, r);
    forall b | b in a'.chain ensures HolderOk(a', b) {
      assert HolderOk(a, b);
    }
    forall r' | r' in a'.records ensures RecordOk(c, a', r') {
      assert RecordOk(c, a, r');
    }
    AfterRollBackLists(c, a, a', r);
    ManagersAfterSame(c, a, a', r);
    BoundaryAfter(c, a, a');
  }

  lemma AfterRollBackLists(c: Config, a: Arena, a': Arena, r: RecordIndex)
    requires ListsOk(c, a) && LiveOk(a) && r in a.records && r in a.owners && r in a'.records && r in a'.owners
    requires a' == a.(records := a.records[r := a'.records[r]], owners := a.owners[r := a'.owners[r]], flag := a'.flag)
    requires a'.records[r].totalSize == a.records[r].totalSize && !a.owners[r].WithClient?
    requires a'.owners[r] == a.owners[r] || (a.owners[r].Held? && a'.owners[r].Held?)
    ensures ListsOk(c, a') && LiveOk(a')
  {
    forall e | e in a'.bins ensures EntryOk(c, a', e) {
      assert EntryOk(c, a, e);
    }
    forall r' | r' in a'.owners ensures Shelved(c, a', r') {
      assert Shelved(c, a, r');
    }
    forall b | b in a'.live ensures LiveBlockOk(a', b) {
      assert LiveBlockOk(a, b);
    }
    forall r' | r' in a'.owners ensures ClientHas(a', r') {
      assert ClientHas(a, r');
    }
  }
}
