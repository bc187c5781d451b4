/** Every action on a record's state word, on the lists and on the client's blocks keeps the invariant. */
module ArenaRecordOps {
  import opened Wrappers
  import opened ArenaState
  import opened ArenaOps
  import opened ArenaInvariant
  import opened ArenaFrames

  ghost predicate HeldAs(a: Arena, t: ThreadId, r: RecordIndex, phase: Phase) {
    r in a.records && r in a.owners && a.owners[r] == Held(t, phase)
  }

  /** LOCKED to DEALLOCATED_PENDING, before the record joins the pending list. */
  lemma StorePendingKeeps(c: Config, a: Arena, t: ThreadId, r: RecordIndex)
    requires Inv(c, a) && HeldAs(a, t, r, Owned)
    ensures Inv(c, SetWord(a, r, RecordAt(a, r).word.WithState(DeallocatedPending), Held(t, Queued)))
  {
    var a' := SetWord(a, r, RecordAt(a, r).word.WithState(DeallocatedPending), Held(t, Queued));
    assert RecordOk(c, a, r);
    RecordMoves(c, a, a', r);
  }

  /** DEALLOCATED_PENDING to AVAILABLE, before the record joins its bin. */
  lemma PublishKeeps(c: Config, a: Arena, t: ThreadId, r: RecordIndex)
    requires Inv(c, a) && HeldAs(a, t, r, Queued)
    ensures Inv(c, SetWord(a, r, RecordAt(a, r).word.WithState(Available), Held(t, Loose)))
  {
    var a' := SetWord(a, r, RecordAt(a, r).word.WithState(Available), Held(t, Loose));
    assert RecordOk(c, a, r);
    assert LinkOk(c, a.chain, a.frontier, a.records[r].word.block.value);
    RecordMoves(c, a, a', r);
  }

  /** AVAILABLE to LOCKED by the thread that popped the record. */
  lemma LockKeeps(c: Config, a: Arena, t: ThreadId, r: RecordIndex)
    requires Inv(c, a) && HeldAs(a, t, r, Loose) && a.records[r].word.state.Available?
    ensures Inv(c, SetWord(a, r, RecordAt(a, r).word.WithState(Locked), Held(t, Owned)))
  {
    var a' := SetWord(a, r, RecordAt(a, r).word.WithState(Locked), Held(t, Owned));
    assert RecordOk(c, a, r);
    RecordMoves(c, a, a', r);
  }

  /** The popped record is seen to be FRONTIER_RECLAIMED: from here on only this thread touches it. */
  lemma RetireKeeps(c: Config, a: Arena, t: ThreadId, r: RecordIndex)
    requires Inv(c, a) && HeldAs(a, t, r, Loose) && a.records[r].word.state.FrontierReclaimed?
    ensures Inv(c, SetOwner(a, r, Held(t, Retiring)))
  {
    var a' := SetOwner(a, r, Held(t, Retiring));
    assert RecordOk(c, a, r);
    RecordMoves(c, a, a', r);
  }

  /** recycle_metadata stores METADATA_AVAILABLE with no block. */
  lemma RecycleKeeps(c: Config, a: Arena, t: ThreadId, r: RecordIndex)
    requires Inv(c, a) && (HeldAs(a, t, r, Reserved) || HeldAs(a, t, r, Retiring))
    ensures Inv(c, SetWord(a, r, Word(None, MetadataAvailable, RecordAt(a, r).word.version), Held(t, Recycling)))
  {
    var a' := SetWord(a, r, Word(None, MetadataAvailable, RecordAt(a, r).word.version), Held(t, Recycling));
    assert RecordOk(c, a, r);
    RecordMoves(c, a, a', r);
  }

  /** Clearing total_size_ of a reserved record that is about to be given back. */
  lemma ClearReservedKeeps(c: Config, a: Arena, t: ThreadId, r: RecordIndex)
    requires Inv(c, a) && HeldAs(a, t, r, Reserved)
    ensures Inv(c, SetTotalSize(a, r, 0, Held(t, Reserved)))
  {
    var a' := SetTotalSize(a, r, 0, Held(t, Reserved));
    assert RecordOk(c, a, r);
    RecordMoves(c, a, a', r);
  }

  /** total_size_ takes the size the block's header holds. */
  lemma FillKeeps(c: Config, a: Arena, t: ThreadId, r: RecordIndex, b: Address)
    requires Inv(c, a) && HeldAs(a, t, r, Filling) && a.records[r].word.block == Some(b)
    ensures Inv(c, SetTotalSize(a, r, HeaderAt(a, b).size, Held(t, Filled)))
  {
    var a' := SetTotalSize(a, r, HeaderAt(a, b).size, Held(t, Filled));
    assert RecordOk(c, a, r);
    assert HolderOk(a, b);
    RecordMoves(c, a, a', r);
  }

  /** A record already bound to its block by a claim from the bins becomes IN_USE again. */
  lemma RebindKeeps(c: Config, a: Arena, t: ThreadId, r: RecordIndex, b: Address)
    requires Inv(c, a) && HeldAs(a, t, r, Owned) && a.records[r].word.block == Some(b)
    ensures Inv(c, BindRecord(a, t, r, b))
  {
    assert RecordOk(c, a, r);
    var a' := BindRecord(a, t, r, b);
    assert a'.holders == a.holders;
    RecordMoves(c, a, a', r);
  }

  ghost predicate ReadyToBind(a: Arena, t: ThreadId, r: RecordIndex, b: Address) {
    && HeldAs(a, t, r, Reserved)
    && b in a.chain && b in a.holders && b in a.headers && a.holders[b] == Carved(t, true)
    && a.headers[b] == Header(r, a.chain[b].size, a.chain[b].previous)
  }

  /** A reserved record takes a kept frontier block whose header is complete. */
  lemma BindKeeps(c: Config, a: Arena, t: ThreadId, r: RecordIndex, b: Address)
    requires Inv(c, a) && ReadyToBind(a, t, r, b)
    ensures Inv(c, BindRecord(a, t, r, b))
  {
    BindKeepsHolders(c, a, t, r, b);
    BindKeepsRecords(c, a, t, r, b);
    BindKeepsLists(c, a, t, r, b);
    BindKeepsLive(c, a, t, r, b);
    ManagersAfterOwner(c, a.managers, a.owners, a.count, r, Held(t, Filling));
    BoundaryAfter(c, a, BindRecord(a, t, r, b));
  }

  lemma BindKeepsHolders(c: Config, a: Arena, t: ThreadId, r: RecordIndex, b: Address)
    requires HoldersOk(a) && RecordsOk(c, a) && ReadyToBind(a, t, r, b)
    ensures HoldersOk(BindRecord(a, t, r, b))
  {
    var a' := BindRecord(a, t, r, b);
    assert RecordOk(c, a, r);
    forall b' | b' in a'.chain ensures HolderOk(a', b') {
      assert HolderOk(a, b');
    }
  }

  lemma BindKeepsRecords(c: Config, a: Arena, t: ThreadId, r: RecordIndex, b: Address)
    requires RecordsOk(c, a) && FlagOk(a) && ReadyToBind(a, t, r, b)
    ensures RecordsOk(c, BindRecord(a, t, r, b)) && FlagOk(BindRecord(a, t, r, b))
  {
    var a' := BindRecord(a, t, r, b);
    assert RecordOk(c, a, r);
    forall r' | r' in a'.records ensures RecordOk(c, a', r') {
      assert RecordOk(c, a, r');
    }
  }

  lemma BindKeepsLists(c: Config, a: Arena, t: ThreadId, r: RecordIndex, b: Address)
    requires ListsOk(c, a) && ReadyToBind(a, t, r, b)
    ensures ListsOk(c, BindRecord(a, t, r, b))
  {
    var a' := BindRecord(a, t, r, b);
    forall e | e in a'.bins ensures EntryOk(c, a', e) {
      assert EntryOk(c, a, e);
    }
    forall r' | r' in a'.owners ensures Shelved(c, a', r') {
      assert Shelved(c, a, r');
    }
  }

  lemma BindKeepsLive(c: Config, a: Arena, t: ThreadId, r: RecordIndex, b: Address)
    requires LiveOk(a) && ReadyToBind(a, t, r, b)
    ensures LiveOk(BindRecord(a, t, r, b))
  {
    var a' := BindRecord(a, t, r, b);
    forall b' | b' in a'.live ensures LiveBlockOk(a', b') {
      assert LiveBlockOk(a, b');
    }
    forall r' | r' in a'.owners ensures ClientHas(a', r') {
      assert ClientHas(a, r');
    }
  }

  /** do_allocate returns: the block is the client's. */
  lemma ReturnKeeps(c: Config, a: Arena, t: ThreadId, r: RecordIndex, b: Address, bytes: nat)
    requires Inv(c, a) && HeldAs(a, t, r, Filled) && a.records[r].word.block == Some(b)
    requires b in a.chain && bytes + 64 <= 64 * a.chain[b].size
    ensures Inv(c, ReturnBlock(a, r, b, bytes))
  {
    var a' := ReturnBlock(a, r, b, bytes);
    assert RecordOk(c, a, r);
    HoldersAfterRecord(c, a, a', r);
    RecordsAfterRecord(c, a, a', r);
    ListsAfterRecord(c, a, a', r);
    forall b' | b' in a'.live ensures LiveBlockOk(a', b') {
      if b' != b {
        assert LiveBlockOk(a, b');
      }
    }
    forall r' | r' in a'.owners ensures ClientHas(a', r') {
      assert ClientHas(a, r');
    }
    ManagersAfterOwner(c, a.managers, a.owners, a.count, r, a'.owners[r]);
    BoundaryAfter(c, a, a');
  }

  /** do_try_deallocate accepts: IN_USE to LOCKED with the next version, and the block leaves the client. */
  lemma AcceptKeeps(c: Config, a: Arena, t: ThreadId, r: RecordIndex, b: Address)
    requires Inv(c, a) && r in a.records && a.records[r].word.block == Some(b) && a.records[r].word.state.InUse?
    requires b in a.live
    ensures Inv(c, AcceptFree(a, t, r, b))
  {
    var a' := AcceptFree(a, t, r, b);
    assert RecordOk(c, a, r);
    assert LiveBlockOk(a, b);
    HoldersAfterRecord(c, a, a', r);
    RecordsAfterRecord(c, a, a', r);
    ListsAfterRecord(c, a, a', r);
    forall b' | b' in a'.live ensures LiveBlockOk(a', b') {
      assert LiveBlockOk(a, b');
      assert HolderOk(a, b') && HolderOk(a, b);
    }
    forall r' | r' in a'.owners ensures ClientHas(a', r') {
      assert ClientHas(a, r') && RecordOk(c, a, r');
    }
    ManagersAfterOwner(c, a.managers, a.owners, a.count, r, a'.owners[r]);
    BoundaryAfter(c, a, a');
  }

  lemma PushPendingKeeps(c: Config, a: Arena, t: ThreadId, r: RecordIndex)
    requires Inv(c, a) && HeldAs(a, t, r, Queued)
    ensures Inv(c, PushPending(a, r))
  {
    var a' := PushPending(a, r);
    assert RecordOk(c, a, r);
    HoldersAfterRecord(c, a, a', r);
    RecordsAfterRecord(c, a, a', r);
    forall e | e in a'.bins ensures EntryOk(c, a', e) {
      assert EntryOk(c, a, e);
    }
    forall r' | r' in a'.owners ensures Shelved(c, a', r') {
      assert Shelved(c, a, r');
    }
    LiveAfterRecord(a, a', r);
    ManagersAfterOwner(c, a.managers, a.owners, a.count, r, a'.owners[r]);
    BoundaryAfter(c, a, a');
  }

  /** A record enters the bin of its size; a frontier walk may have reclaimed its block already. */
  lemma PushBinKeeps(c: Config, a: Arena, t: ThreadId, r: RecordIndex)
    requires Inv(c, a) && HeldAs(a, t, r, Loose)
    ensures Inv(c, PushBin(a, BinIndex(c, a.records[r].totalSize), r))
  {
    var k := BinIndex(c, a.records[r].totalSize);
    var a' := PushBin(a, k, r);
    assert RecordOk(c, a, r);
    HoldersAfterRecord(c, a, a', r);
    RecordsAfterRecord(c, a, a', r);
    forall e | e in a'.bins ensures EntryOk(c, a', e) {
      if e != BinEntry(k, r) {
        assert EntryOk(c, a, e);
      }
    }
    forall r' | r' in a'.owners ensures Shelved(c, a', r') {
      assert Shelved(c, a, r');
    }
    LiveAfterRecord(a, a', r);
    ManagersAfterOwner(c, a.managers, a.owners, a.count, r, a'.owners[r]);
    BoundaryAfter(c, a, a');
  }

  /** Two entries of one record are one entry. */
  lemma OneEntry(c: Config, a: Arena, e1: BinEntry, e2: BinEntry)
    requires ValidConfig(c) && ListsOk(c, a) && e1 in a.bins && e2 in a.bins && e1.record == e2.record
    ensures e1 == e2
  {
    assert EntryOk(c, a, e1) && EntryOk(c, a, e2);
  }

  lemma PopBinKeeps(c: Config, a: Arena, t: ThreadId, k: nat, r: RecordIndex)
    requires ValidConfig(c) && Inv(c, a) && BinEntry(k, r) in a.bins
    ensures Inv(c, PopBin(a, t, k, r))
  {
    var a' := PopBin(a, t, k, r);
    assert EntryOk(c, a, BinEntry(k, r));
    assert RecordOk(c, a, r);
    HoldersAfterRecord(c, a, a', r);
    RecordsAfterRecord(c, a, a', r);
    forall e | e in a'.bins ensures EntryOk(c, a', e) {
      assert EntryOk(c, a, e);
      if e.record == r {
        OneEntry(c, a, e, BinEntry(k, r));
      }
    }
    forall r' | r' in a'.owners ensures Shelved(c, a', r') {
      assert Shelved(c, a, r');
    }
    LiveAfterRecord(a, a', r);
    ManagersAfterOwner(c, a.managers, a.owners, a.count, r, a'.owners[r]);
    BoundaryAfter(c, a, a');
  }

  /** steal_all: the whole pending list passes to one thread. */
  lemma StealPendingKeeps(c: Config, a: Arena, t: ThreadId, shard: set<RecordIndex>)
    requires Inv(c, a) && shard <= a.pendingList
    ensures Inv(c, StealPending(a, t, shard))
  {
    var a' := StealPending(a, t, shard);
    StealKeepsRecords(c, a, t, shard);
    StealKeepsLists(c, a, t, shard);
    forall k | 0 <= k < |a'.managers| ensures ManagerOk(a'.owners, a'.count, k, a'.managers[k]) {
      assert ManagerOk(a.owners, a.count, k, a.managers[k]);
      assert ActiveRecords(a'.owners, k) == ActiveRecords(a.owners, k);
    }
    BoundaryAfter(c, a, a');
  }

  lemma StealKeepsRecords(c: Config, a: Arena, t: ThreadId, shard: set<RecordIndex>)
    requires HoldersOk(a) && RecordsOk(c, a) && ListsOk(c, a) && shard <= a.pendingList
    ensures HoldersOk(StealPending(a, t, shard)) && RecordsOk(c, StealPending(a, t, shard))
  {
    var a' := StealPending(a, t, shard);
    assert a'.owners.Keys == a.owners.Keys;
    forall b | b in a'.chain ensures HolderOk(a', b) {
      assert HolderOk(a, b);
    }
    forall r | r in a'.records ensures RecordOk(c, a', r) {
      assert RecordOk(c, a, r);
    }
  }

  lemma StealKeepsLists(c: Config, a: Arena, t: ThreadId, shard: set<RecordIndex>)
    requires RecordsOk(c, a) && ListsOk(c, a) && LiveOk(a) && shard <= a.pendingList
    ensures ListsOk(c, StealPending(a, t, shard)) && LiveOk(StealPending(a, t, shard))
  {
    var a' := StealPending(a, t, shard);
    assert a'.owners.Keys == a.owners.Keys;
    forall e | e in a'.bins ensures EntryOk(c, a', e) {
      assert EntryOk(c, a, e);
    }
    forall r | r in a'.owners ensures Shelved(c, a', r) {
      assert Shelved(c, a, r);
    }
    forall b | b in a'.live ensures LiveBlockOk(a', b) {
      assert LiveBlockOk(a, b);
    }
    forall r | r in a'.owners ensures ClientHas(a', r) {
      assert ClientHas(a, r);
    }
  }
}
