/** The parts of the invariant that an action leaves alone. */
module ArenaFrames {
  import opened Wrappers
  import opened ArenaState
  import opened ArenaInvariant

  /** Nothing but record r and its owner changed, and the record binds the same block, or none, as before. */
  ghost predicate OnlyRecord(a: Arena, a': Arena, r: RecordIndex) {
    && r in a.records && r in a.owners && r in a'.records && r in a'.owners
    && a'.records == a.records[r := a'.records[r]]
    && a'.owners == a.owners[r := a'.owners[r]]
    && a'.count == a.count
    && a'.chain == a.chain && a'.holders == a.holders && a'.headers == a.headers
    && a'.flag == a.flag
  }

  ghost predicate SameBinding(a: Arena, a': Arena, r: RecordIndex)
    requires r in a.records && r in a.owners && r in a'.records && r in a'.owners
  {
    && Answers(a, r) == Answers(a', r)
    && (Answers(a, r) ==> a'.records[r].word.block == a.records[r].word.block)
  }

  lemma HoldersAfterRecord(c: Config, a: Arena, a': Arena, r: RecordIndex)
    requires HoldersOk(a) && OnlyRecord(a, a', r) && SameBinding(a, a', r)
    ensures HoldersOk(a')
  {
    forall b | b in a'.chain ensures HolderOk(a', b) {
      assert HolderOk(a, b);
    }
  }

  lemma RecordsAfterRecord(c: Config, a: Arena, a': Arena, r: RecordIndex)
    requires RecordsOk(c, a) && OnlyRecord(a, a', r) && RecordOk(c, a', r)
    ensures RecordsOk(c, a')
  {
    forall r' | r' in a'.records ensures RecordOk(c, a', r') {
      if r' != r {
        assert RecordOk(c, a, r');
      }
    }
  }

  /** A thread has claimed the record for a roll-back. */
  predicate UnderClaim(flag: Flag, r: RecordIndex) {
    flag.Up? && !flag.claim.NoClaim? && flag.claim.record == r
  }

  lemma FlagAfterRecord(a: Arena, a': Arena, r: RecordIndex)
    requires FlagOk(a) && OnlyRecord(a, a', r)
    requires UnderClaim(a.flag, r) ==> !Unused(a'.owners[r]) && a'.records[r].word.state.FrontierReclaimInProgress?
    ensures FlagOk(a')
  {}

  /** Record r is in no list before and after, so the lists are as they were. */
  lemma ListsAfterRecord(c: Config, a: Arena, a': Arena, r: RecordIndex)
    requires ListsOk(c, a) && OnlyRecord(a, a', r)
    requires a'.pendingList == a.pendingList && a'.bins == a.bins
    requires !a.owners[r].OnPendingList? && !a.owners[r].InBin?
    requires !a'.owners[r].OnPendingList? && !a'.owners[r].InBin?
    ensures ListsOk(c, a')
  {
    forall e | e in a'.bins ensures EntryOk(c, a', e) {
      assert EntryOk(c, a, e);
    }
    forall r' | r' in a'.owners ensures Shelved(c, a', r') {
      assert Shelved(c, a, r');
    }
  }

  lemma LiveAfterRecord(a: Arena, a': Arena, r: RecordIndex)
    requires LiveOk(a) && OnlyRecord(a, a', r) && a'.live == a.live
    requires !a.owners[r].WithClient? && !a'.owners[r].WithClient?
    ensures LiveOk(a')
  {
    forall b | b in a'.live ensures LiveBlockOk(a', b) {
      assert LiveBlockOk(a, b);
    }
    forall r' | r' in a'.owners ensures ClientHas(a', r') {
      assert ClientHas(a, r');
    }
  }

  lemma ManagersAfterOwner(c: Config, managers: seq<Manager>, owners: map<RecordIndex, Owner>, count: nat, r: RecordIndex, o: Owner)
    requires ManagersOk(c, managers, owners, count)
    requires r in owners && !owners[r].OnFreeList? && !o.OnFreeList?
    ensures ManagersOk(c, managers, owners[r := o], count)
  {
    var owners' := owners[r := o];
    forall k | 0 <= k < |managers| ensures ManagerOk(owners', count, k, managers[k]) {
      assert ManagerOk(owners, count, k, managers[k]);
      assert ActiveRecords(owners', k) == ActiveRecords(owners, k);
    }
  }

  /** The boundary survives when no block, no keeping and no decided record is new. */
  lemma BoundaryAfter(c: Config, a: Arena, a': Arena)
    requires BoundaryOk(c, a)
    requires forall b {:trigger b in a'.chain} :: b in a'.chain && b in a'.holders && Kept(a'.holders[b]) ==>
      b in a.chain && b in a.holders && Kept(a.holders[b]) && a'.chain[b] == a.chain[b]
    requires forall r {:trigger r in a'.owners} :: r in a'.owners && Decided(a'.owners[r]) ==> r in a.owners && Decided(a.owners[r])
    ensures BoundaryOk(c, a')
  {
    forall b, r ensures Clear(c, a', b, r) {
      assert Clear(c, a, b, r);
    }
  }

  /** A record that stays off every list changes state without changing what it binds. */
  lemma RecordMoves(c: Config, a: Arena, a': Arena, r: RecordIndex)
    requires Inv(c, a) && OnlyRecord(a, a', r) && SameBinding(a, a', r) && RecordOk(c, a', r)
    requires a' == a.(records := a'.records, owners := a'.owners)
    requires a.owners[r].Held? && a'.owners[r].Held?
    requires Decided(a.owners[r]) || !Decided(a'.owners[r])
    requires UnderClaim(a.flag, r) ==> !Unused(a'.owners[r]) && a'.records[r].word.state.FrontierReclaimInProgress?
    ensures Inv(c, a')
  {
    HoldersAfterRecord(c, a, a', r);
    RecordsAfterRecord(c, a, a', r);
    FlagAfterRecord(a, a', r);
    ListsAfterRecord(c, a, a', r);
    LiveAfterRecord(a, a', r);
    ManagersAfterOwner(c, a.managers, a.owners, a.count, r, a'.owners[r]);
    BoundaryAfter(c, a, a');
  }
}
