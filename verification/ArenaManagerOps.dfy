/** Every action on the metadata region and on the managers' counts keeps the invariant. */
module ArenaManagerOps {
  import opened Wrappers
  import opened ArenaState
  import opened ArenaOps
  import opened ArenaInvariant
  import opened ArenaFrames
  import opened ArenaRecordOps

  /** Thread t holds a bare slot on manager k. */
  ghost predicate HasSlot(a: Arena, t: ThreadId, k: nat) {
    k < |a.managers| && t in a.managers[k].slots
  }

  lemma SlotMeansActive(c: Config, a: Arena, t: ThreadId, k: nat)
    requires Inv(c, a) && HasSlot(a, t, k)
    ensures a.managers[k].trimmer.NotTrimming? && a.managers[k].activeCount > 0
  {
    assert ManagerOk(a.owners, a.count, k, a.managers[k]);
    assert |a.managers[k].slots| > 0;
  }

  /** Only manager k changed, and nothing else did. */
  lemma ManagerChanges(c: Config, a: Arena, k: nat, m: Manager)
    requires Inv(c, a) && k < |a.managers| && ManagerOk(a.owners, a.count, k, m)
    ensures Inv(c, SetManager(a, k, m))
  {
    var a' := SetManager(a, k, m);
    forall k' | 0 <= k' < |a'.managers| ensures ManagerOk(a'.owners, a'.count, k', a'.managers[k']) {
      assert ManagerOk(a.owners, a.count, k', a.managers[k']);
    }
    SameButManagers(c, a, a');
  }

  lemma SameButManagers(c: Config, a: Arena, a': Arena)
    requires HoldersOk(a) && RecordsOk(c, a) && ListsOk(c, a) && LiveOk(a) && BoundaryOk(c, a)
    requires a' == a.(managers := a'.managers)
    ensures HoldersOk(a') && RecordsOk(c, a') && ListsOk(c, a') && LiveOk(a') && BoundaryOk(c, a')
  {
    forall b | b in a'.chain ensures HolderOk(a', b) {
      assert HolderOk(a, b);
    }
    forall r | r in a'.records ensures RecordOk(c, a', r) {
      assert RecordOk(c, a, r);
    }
    forall e | e in a'.bins ensures EntryOk(c, a', e) {
      assert EntryOk(c, a, e);
    }
    forall r | r in a'.owners ensures Shelved(c, a', r) && ClientHas(a', r) {
      assert Shelved(c, a, r) && ClientHas(a, r);
    }
    forall b | b in a'.live ensures LiveBlockOk(a', b) {
      assert LiveBlockOk(a, b);
    }
    BoundaryAfter(c, a, a');
  }

  lemma ReserveSlotKeeps(c: Config, a: Arena, t: ThreadId, k: nat)
    requires Inv(c, a) && k < |a.managers| && a.managers[k].trimmer.NotTrimming? && t !in a.managers[k].slots
    ensures Inv(c, ReserveSlot(a, t, k))
  {
    assert ManagerOk(a.owners, a.count, k, a.managers[k]);
    ManagerChanges(c, a, k, ReserveSlot(a, t, k).managers[k]);
  }

  lemma ReleaseSlotKeeps(c: Config, a: Arena, t: ThreadId, k: nat)
    requires Inv(c, a) && HasSlot(a, t, k)
    ensures Inv(c, ReleaseSlot(a, t, k))
  {
    SlotMeansActive(c, a, t, k);
    assert ManagerOk(a.owners, a.count, k, a.managers[k]);
    assert a.managers[k].slots == a.managers[k].slots - {t} + {t};
    ManagerChanges(c, a, k, ReleaseSlot(a, t, k).managers[k]);
  }

  /** A free record passes to a thread that holds a slot, or back: the slot and the record trade places. */
  lemma FreeListChanges(c: Config, a: Arena, a': Arena, k: nat, r: RecordIndex)
    requires Inv(c, a) && k < |a.managers| && r in a.owners && r in a'.owners && ManagerOf(r) == k
    requires a' == a.(managers := a'.managers, owners := a'.owners)
    requires |a'.managers| == |a.managers| && a'.managers == a.managers[k := a'.managers[k]]
    requires a'.owners == a.owners[r := a'.owners[r]]
    requires ManagerOk(a'.owners, a'.count, k, a'.managers[k])
    requires a.owners[r].OnFreeList? || a.owners[r].Held?
    requires a'.owners[r].OnFreeList? || a'.owners[r].Held?
    requires r in a.records && a.records[r].word.state.MetadataAvailable?
    requires Decided(a.owners[r]) && RecordOk(c, a', r)
    ensures Inv(c, a')
  {
    var middle := a.(owners := a'.owners);
    FreeRecordMoves(c, a, middle, r);
    SameButManagers(c, middle, a');
    forall k' | 0 <= k' < |a'.managers| ensures ManagerOk(a'.owners, a'.count, k', a'.managers[k']) {
      if k' != k {
        assert ManagerOk(a.owners, a.count, k', a.managers[k']);
        assert ActiveRecords(a'.owners, k') == ActiveRecords(a.owners, k');
      }
    }
  }

  lemma FreeRecordMoves(c: Config, a: Arena, a': Arena, r: RecordIndex)
    requires Inv(c, a) && r in a.records && r in a.owners && r in a'.owners
    requires a' == a.(owners := a.owners[r := a'.owners[r]])
    requires a.owners[r].OnFreeList? || a.owners[r].Held?
    requires a'.owners[r].OnFreeList? || a'.owners[r].Held?
    requires r in a.records && a.records[r].word.state.MetadataAvailable?
    requires Decided(a.owners[r]) && RecordOk(c, a', r)
    ensures HoldersOk(a') && RecordsOk(c, a') && FlagOk(a') && ListsOk(c, a') && LiveOk(a') && BoundaryOk(c, a')
  {
    assert a'.records == a.records[r := a'.records[r]];
    HoldersAfterRecord(c, a, a', r);
    RecordsAfterRecord(c, a, a', r);
    ListsAfterRecord(c, a, a', r);
    LiveAfterRecord(a, a', r);
    BoundaryAfter(c, a, a');
  }

  lemma PopFreeRecordKeeps(c: Config, a: Arena, t: ThreadId, k: nat, r: RecordIndex)
    requires Inv(c, a) && HasSlot(a, t, k) && r in a.managers[k].freeList
    ensures r in a.records && ManagerOf(r) == k && a.owners[r].OnFreeList?
    ensures Inv(c, PopFreeRecord(a, t, k, r))
  {
    SlotMeansActive(c, a, t, k);
    assert ManagerOk(a.owners, a.count, k, a.managers[k]);
    assert RecordOk(c, a, r);
    var a' := PopFreeRecord(a, t, k, r);
    assert ActiveRecords(a'.owners, k) == ActiveRecords(a.owners, k) + {r};
    assert a.managers[k].slots == a.managers[k].slots - {t} + {t};
    FreeListChanges(c, a, a', k, r);
  }

  lemma PushFreeRecordKeeps(c: Config, a: Arena, t: ThreadId, r: RecordIndex)
    requires Inv(c, a) && HeldAs(a, t, r, Recycling)
    requires ManagerOf(r) < |a.managers| ==> t !in a.managers[ManagerOf(r)].slots
    ensures ManagerOf(r) < |a.managers|
    ensures Inv(c, PushFreeRecord(a, t, r))
  {
    var k := ManagerOf(r);
    assert RecordOk(c, a, r);
    HeldMeansActive(c, a, r);
    assert ManagerOk(a.owners, a.count, k, a.managers[k]);
    var a' := PushFreeRecord(a, t, r);
    assert ActiveRecords(a.owners, k) == ActiveRecords(a'.owners, k) + {r};
    FreeListChanges(c, a, a', k, r);
  }

  /** A record that is not on its free list keeps its manager from being trimmed. */
  lemma HeldMeansActive(c: Config, a: Arena, r: RecordIndex)
    requires Inv(c, a) && r in a.records && r in a.owners && !a.owners[r].OnFreeList?
    ensures ManagerOf(r) < |a.managers|
    ensures a.managers[ManagerOf(r)].trimmer.NotTrimming? && a.managers[ManagerOf(r)].activeCount > 0
  {
    var k := ManagerOf(r);
    assert r < a.count;
    assert k < |a.managers|;
    assert ManagerOk(a.owners, a.count, k, a.managers[k]);
    assert r in ActiveRecords(a.owners, k);
  }

  // ----- growing -----

  lemma GrowKeeps(c: Config, a: Arena, t: ThreadId, word: Word, totalSize: nat)
    requires Inv(c, a) && HasSlot(a, t, ManagerOf(a.count)) && NamesNoBlock(word)
    ensures a.count !in a.owners
    ensures Inv(c, Grow(a, t, word, totalSize))
  {
    var a' := Grow(a, t, word, totalSize);
    var r := a.count;
    SlotMeansActive(c, a, t, ManagerOf(r));
    forall b | b in a'.chain ensures HolderOk(a', b) {
      assert HolderOk(a, b);
    }
    forall r' | r' in a'.records ensures RecordOk(c, a', r') {
      if r' != r {
        assert RecordOk(c, a, r');
      }
    }
    RegionKeepsLists(c, a, a');
    GrowKeepsManagers(c, a, t, word, totalSize);
    BoundaryAfter(c, a, a');
  }

  /** The lists and the client's blocks survive when only records outside them come or go. */
  lemma RegionKeepsLists(c: Config, a: Arena, a': Arena)
    requires ListsOk(c, a) && LiveOk(a)
    requires a'.bins == a.bins && a'.pendingList == a.pendingList && a'.live == a.live
    requires a'.chain == a.chain && a'.holders == a.holders
    requires forall r {:trigger r in a'.owners} :: r in a.owners && (a.owners[r].InBin? || a.owners[r].WithClient? || a.owners[r].OnPendingList?) ==>
      r in a'.owners && a'.owners[r] == a.owners[r] && r in a.records ==> r in a'.records && a'.records[r] == a.records[r]
    requires forall r {:trigger r in a'.owners} :: r in a.owners && (a.owners[r].InBin? || a.owners[r].WithClient? || a.owners[r].OnPendingList?) ==>
      r in a'.owners && a'.owners[r] == a.owners[r]
    requires forall r {:trigger r in a'.owners} :: r in a'.owners && (a'.owners[r].InBin? || a'.owners[r].WithClient? || a'.owners[r].OnPendingList?) ==>
      r in a.owners && a.owners[r] == a'.owners[r]
    ensures ListsOk(c, a') && LiveOk(a')
  {
    forall r ensures r in a'.pendingList <==> r in a'.owners && a'.owners[r].OnPendingList? {
      assert r in a.pendingList <==> r in a.owners && a.owners[r].OnPendingList?;
    }
    forall e | e in a'.bins ensures EntryOk(c, a', e) {
      assert EntryOk(c, a, e);
      assert e.record in a'.owners;
    }
    forall r | r in a'.owners ensures Shelved(c, a', r) && ClientHas(a', r) {
      if r in a.owners {
        assert Shelved(c, a, r) && ClientHas(a, r);
      }
    }
    forall b | b in a'.live ensures LiveBlockOk(a', b) {
      assert LiveBlockOk(a, b);
      assert a.holders[b].record in a'.owners;
    }
  }

  lemma GrowKeepsManagers(c: Config, a: Arena, t: ThreadId, word: Word, totalSize: nat)
    requires ManagersOk(c, a.managers, a.owners, a.count) && a.count !in a.owners && HasSlot(a, t, ManagerOf(a.count))
    requires a.managers[ManagerOf(a.count)].trimmer.NotTrimming?
    ensures var a' := Grow(a, t, word, totalSize); ManagersOk(c, a'.managers, a'.owners, a'.count)
  {
    var a' := Grow(a, t, word, totalSize);
    var k0 := ManagerOf(a.count);
    RoomInManager(a.count, |a.managers|);
    forall k | 0 <= k < |a'.managers| ensures ManagerOk(a'.owners, a'.count, k, a'.managers[k]) {
      assert ManagerOk(a.owners, a.count, k, a.managers[k]);
      if k == k0 {
        RecordArrives(a.owners, a.count, k, a.managers[k], t, Held(t, Growing));
      } else {
        assert ActiveRecords(a'.owners, k) == ActiveRecords(a.owners, k);
        if a.managers[k].trimmer.Shrunk? {
          RoomBelowManager(a.count, k);
        }
      }
    }
  }

  lemma RoomInManager(r: RecordIndex, capacity: nat)
    requires ManagerOf(r) < capacity
    ensures r + 1 <= capacity * RECORDS_PER_BLOCK
  {}

  lemma RoomBelowManager(r: RecordIndex, k: nat)
    requires r <= k * RECORDS_PER_BLOCK && ManagerOf(r) != k
    ensures r + 1 <= k * RECORDS_PER_BLOCK
  {}

  /** A record that comes into being with a holder takes over the holder's slot. */
  lemma RecordArrives(owners: map<RecordIndex, Owner>, count: nat, k: nat, m: Manager, t: ThreadId, o: Owner)
    requires ManagerOk(owners, count, k, m) && m.trimmer.NotTrimming? && t in m.slots
    requires count !in owners && ManagerOf(count) == k && !o.OnFreeList?
    ensures ManagerOk(owners[count := o], count + 1, k, m.(slots := m.slots - {t}))
  {
    assert ActiveRecords(owners[count := o], k) == ActiveRecords(owners, k) + {count};
    assert m.slots == m.slots - {t} + {t};
  }

  /** The inverse: the holder gets its slot back. */
  lemma RecordLeaves(owners: map<RecordIndex, Owner>, count: nat, k: nat, m: Manager, t: ThreadId, r: RecordIndex)
    requires ManagerOk(owners, count, k, m) && m.trimmer.NotTrimming? && t !in m.slots
    requires r in owners && ManagerOf(r) == k && !owners[r].OnFreeList?
    ensures ManagerOk(owners - {r}, r, k, m.(slots := m.slots + {t}))
  {
    assert ActiveRecords(owners, k) == ActiveRecords(owners - {r}, k) + {r};
  }

  /** The re-check passed: record r lies above the frontier, hence above every kept block. */
  lemma KeepGrownKeeps(c: Config, a: Arena, t: ThreadId, r: RecordIndex)
    requires Inv(c, a) && HeldAs(a, t, r, Growing) && a.frontier < c.metadataStart - (r + 1)
    ensures Inv(c, SetOwner(a, r, Held(t, Reserved)))
  {
    var a' := SetOwner(a, r, Held(t, Reserved));
    assert RecordOk(c, a, r);
    HoldersAfterRecord(c, a, a', r);
    RecordsAfterRecord(c, a, a', r);
    ListsAfterRecord(c, a, a', r);
    LiveAfterRecord(a, a', r);
    ManagersAfterOwner(c, a.managers, a.owners, a.count, r, a'.owners[r]);
    forall b, r' ensures Clear(c, a', b, r') {
      assert Clear(c, a, b, r');
      if b in a.chain {
        assert LinkOk(c, a.chain, a.frontier, b);
      }
    }
  }

  lemma UndoGrowKeeps(c: Config, a: Arena, t: ThreadId, r: RecordIndex)
    requires Inv(c, a) && HeldAs(a, t, r, Growing) && a.count == r + 1
    requires ManagerOf(r) < |a.managers| ==> t !in a.managers[ManagerOf(r)].slots
    ensures Inv(c, UndoGrow(a, t, r))
  {
    var a' := UndoGrow(a, t, r);
    assert RecordOk(c, a, r);
    HeldMeansActive(c, a, r);
    forall b | b in a'.chain ensures HolderOk(a', b) {
      assert HolderOk(a, b);
    }
    forall r' | r' in a'.records ensures RecordOk(c, a', r') {
      assert RecordOk(c, a, r');
    }
    RegionKeepsLists(c, a, a');
    UndoGrowKeepsManagers(c, a, t, r);
    BoundaryAfter(c, a, a');
  }

  lemma UndoGrowKeepsManagers(c: Config, a: Arena, t: ThreadId, r: RecordIndex)
    requires ManagersOk(c, a.managers, a.owners, a.count) && HeldAs(a, t, r, Growing) && a.count == r + 1
    requires ManagerOf(r) < |a.managers| && t !in a.managers[ManagerOf(r)].slots
    requires a.managers[ManagerOf(r)].trimmer.NotTrimming?
    ensures var a' := UndoGrow(a, t, r); ManagersOk(c, a'.managers, a'.owners, a'.count)
  {
    var a' := UndoGrow(a, t, r);
    forall k | 0 <= k < |a'.managers| ensures ManagerOk(a'.owners, a'.count, k, a'.managers[k]) {
      assert ManagerOk(a.owners, a.count, k, a.managers[k]);
      if k == ManagerOf(r) {
        RecordLeaves(a.owners, a.count, k, a.managers[k], t, r);
      } else {
        assert ActiveRecords(a'.owners, k) == ActiveRecords(a.owners, k);
      }
    }
  }

  // ----- trimming -----

  lemma TrimClaimKeeps(c: Config, a: Arena, t: ThreadId, k: nat)
    requires Inv(c, a) && k < |a.managers| && a.managers[k].trimmer.NotTrimming? && a.managers[k].activeCount == 0
    ensures Inv(c, SetTrimmer(a, k, Trimming(t)))
  {
    assert ManagerOk(a.owners, a.count, k, a.managers[k]);
    ManagerChanges(c, a, k, SetTrimmer(a, k, Trimming(t)).managers[k]);
  }

  lemma TrimOpenKeeps(c: Config, a: Arena, t: ThreadId, k: nat)
    requires Inv(c, a) && k < |a.managers| && a.managers[k].trimmer == Trimming(t)
    ensures Inv(c, SetTrimmer(a, k, NotTrimming))
  {
    assert ManagerOk(a.owners, a.count, k, a.managers[k]);
    ManagerChanges(c, a, k, SetTrimmer(a, k, NotTrimming).managers[k]);
  }

  /** While a manager is claimed for trimming all its records are on its free list. */
  lemma TrimmedAreFree(c: Config, a: Arena, k: nat, r: RecordIndex)
    requires Inv(c, a) && k < |a.managers| && !a.managers[k].trimmer.NotTrimming?
    requires r in a.records && ManagerOf(r) == k
    ensures r in a.owners && a.owners[r].OnFreeList?
  {
    if !a.owners[r].OnFreeList? {
      HeldMeansActive(c, a, r);
      assert false;
    }
  }

  /** The count CAS of a trim discards only records on the free list of the claimed manager. */
  lemma ShrinkKeeps(c: Config, a: Arena, t: ThreadId, k: nat)
    requires Inv(c, a) && k < |a.managers| && a.managers[k].trimmer == Trimming(t)
    requires k * RECORDS_PER_BLOCK < a.count <= (k + 1) * RECORDS_PER_BLOCK
    ensures Inv(c, Shrink(a, t, k, k * RECORDS_PER_BLOCK))
  {
    var newCount := k * RECORDS_PER_BLOCK;
    var a' := Shrink(a, t, k, newCount);
    forall r | r in a.records && r >= newCount ensures r in a.owners && a.owners[r].OnFreeList? {
      TrimmedAreFree(c, a, k, r);
    }
    ShrinkKeepsRecords(c, a, t, k);
    RegionKeepsLists(c, a, a');
    ShrinkKeepsManagers(c, a, t, k);
    BoundaryAfter(c, a, a');
  }

  lemma ShrinkKeepsRecords(c: Config, a: Arena, t: ThreadId, k: nat)
    requires HoldersOk(a) && RecordsOk(c, a) && FlagOk(a) && k < |a.managers|
    requires k * RECORDS_PER_BLOCK < a.count
    requires forall r :: r in a.records && r >= k * RECORDS_PER_BLOCK ==> r in a.owners && a.owners[r].OnFreeList?
    ensures var a' := Shrink(a, t, k, k * RECORDS_PER_BLOCK); HoldersOk(a') && RecordsOk(c, a') && FlagOk(a')
  {
    var a' := Shrink(a, t, k, k * RECORDS_PER_BLOCK);
    forall b | b in a'.chain ensures HolderOk(a', b) {
      assert HolderOk(a, b);
      if a.holders[b].Bound? {
        assert RecordOk(c, a, a.holders[b].record);
      }
    }
    forall r | r in a'.records ensures RecordOk(c, a', r) {
      assert RecordOk(c, a, r);
    }
    if a.flag.Up? && !a.flag.claim.NoClaim? {
      assert RecordOk(c, a, a.flag.claim.record);
    }
  }

  lemma ShrinkKeepsManagers(c: Config, a: Arena, t: ThreadId, k: nat)
    requires ManagersOk(c, a.managers, a.owners, a.count) && RecordsOk(c, a)
    requires k < |a.managers| && a.managers[k].trimmer == Trimming(t)
    requires k * RECORDS_PER_BLOCK < a.count <= (k + 1) * RECORDS_PER_BLOCK
    requires forall r :: r in a.records && r >= k * RECORDS_PER_BLOCK ==> r in a.owners && a.owners[r].OnFreeList?
    ensures var a' := Shrink(a, t, k, k * RECORDS_PER_BLOCK); ManagersOk(c, a'.managers, a'.owners, a'.count)
  {
    var newCount := k * RECORDS_PER_BLOCK;
    var a' := Shrink(a, t, k, newCount);
    forall k' | 0 <= k' < |a'.managers| ensures ManagerOk(a'.owners, a'.count, k', a'.managers[k']) {
      assert ManagerOk(a.owners, a.count, k', a.managers[k']);
      assert ActiveRecords(a'.owners, k') == ActiveRecords(a.owners, k');
    }
  }

  lemma ClearFreeListKeeps(c: Config, a: Arena, t: ThreadId, k: nat)
    requires Inv(c, a) && k < |a.managers| && a.managers[k].trimmer == Shrunk(t)
    ensures Inv(c, ClearFreeList(a, t, k))
  {
    assert ManagerOk(a.owners, a.count, k, a.managers[k]);
    ManagerChanges(c, a, k, ClearFreeList(a, t, k).managers[k]);
  }
}
