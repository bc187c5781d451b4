/** Starting calls, searching the bins and recycling records: each step keeps the system coupled. */
module ArenaSearchSteps {
  import opened Wrappers
  import opened ArenaState
  import opened ArenaOps
  import opened ArenaInvariant
  import opened ArenaRecordOps
  import opened ArenaRegionOps
  import opened ArenaManagerOps
  import opened ArenaThreads
  import opened ArenaCoupling
  import opened ArenaInterference
  import opened ArenaStepFrame

  lemma ReadyOk(c: Config, a: Arena, a': Arena, t: ThreadId, th: Thread, th': Thread)
    requires Coherent(c, a, t, th) && ReadyStep(c, a, th, a', th')
    ensures StepOk(c, a, a', t, th')
  {
    LocalStep(c, a, t, th, th');
  }

  lemma PopNextOk(c: Config, a: Arena, a': Arena, t: ThreadId, th: Thread, th': Thread)
    requires Coherent(c, a, t, th) && PopNextStep(c, a, th, a', th', t)
    ensures StepOk(c, a, a', t, th')
  {
    if th'.pc.Search? {
      var m := th'.pc.search.m;
      PopBinKeeps(c, a, t, th.job.bin, m);
      assert EntryOk(c, a, BinEntry(th.job.bin, m));
      assert RecordMatches(a, t, th, m);
      TouchRecord(c, a, a', t, th, th', m);
    } else {
      LocalStep(c, a, t, th, th');
    }
  }

  /** The popped record is AVAILABLE, being reclaimed, or reclaimed: the DISCARD branch is never taken. */
  lemma PoppedIsReclaimable(c: Config, a: Arena, t: ThreadId, th: Thread)
    requires Coherent(c, a, t, th) && th.pc.Search? && th.pc.search.Popped?
    ensures HeldAs(a, t, th.pc.search.m, Loose) && Reclaimable(RecordAt(a, th.pc.search.m).word.state)
  {
    assert RecordMatches(a, t, th, th.pc.search.m);
    assert RecordOk(c, a, th.pc.search.m);
  }

  lemma PoppedOk(c: Config, a: Arena, a': Arena, t: ThreadId, th: Thread, th': Thread)
    requires Coherent(c, a, t, th) && PoppedStep(c, a, th, a', th', t)
    ensures StepOk(c, a, a', t, th')
  {
    PoppedIsReclaimable(c, a, t, th);
    if RecordAt(a, th.pc.search.m).word.state.FrontierReclaimed? {
      RetireOk(c, a, a', t, th, th');
    } else {
      LocalStep(c, a, t, th, th');
    }
  }

  lemma RetireOk(c: Config, a: Arena, a': Arena, t: ThreadId, th: Thread, th': Thread)
    requires Coherent(c, a, t, th) && PoppedStep(c, a, th, a', th', t)
    requires HeldAs(a, t, th.pc.search.m, Loose) && RecordAt(a, th.pc.search.m).word.state.FrontierReclaimed?
    ensures StepOk(c, a, a', t, th')
  {
    var m := th.pc.search.m;
    RetireKeeps(c, a, t, m);
    TouchRecord(c, a, a', t, th, th', m);
  }

  lemma ClaimPoppedOk(c: Config, a: Arena, a': Arena, t: ThreadId, th: Thread, th': Thread)
    requires Coherent(c, a, t, th) && ClaimPoppedStep(c, a, th, a', th', t)
    ensures StepOk(c, a, a', t, th')
  {
    var m := th.pc.search.m;
    assert RecordMatches(a, t, th, m);
    if RecordAt(a, m).word == th.pc.search.w && th.pc.search.w.block.Some? {
      LockKeeps(c, a, t, m);
      TouchRecord(c, a, a', t, th, th', m);
    } else {
      LocalStep(c, a, t, th, th');
    }
  }

  lemma RepushOk(c: Config, a: Arena, a': Arena, t: ThreadId, th: Thread, th': Thread)
    requires Coherent(c, a, t, th) && RepushStep(c, a, th, a', th')
    ensures StepOk(c, a, a', t, th')
  {
    var m := th.pc.search.m;
    assert RecordMatches(a, t, th, m);
    SizeOfClass(c, th.job.bin);
    PushBinKeeps(c, a, t, m);
    TouchRecord(c, a, a', t, th, th', m);
  }

  lemma SizeOfClass(c: Config, k: nat)
    requires ValidConfig(c) && k < |c.classSizes|
    ensures BinIndex(c, c.classSizes[k]) == k && IsClassSize(c, c.classSizes[k])
  {}

  // ----- recycle_metadata -----

  lemma ClearFieldsOk(c: Config, a: Arena, a': Arena, t: ThreadId, th: Thread, th': Thread)
    requires Coherent(c, a, t, th) && ClearFieldsStep(c, a, th, a', th', t)
    ensures StepOk(c, a, a', t, th')
  {
    var m := th.pc.m;
    assert RecordMatches(a, t, th, m) && RecordOk(c, a, m);
    ClearReservedKeeps(c, a, t, m);
    TouchRecord(c, a, a', t, th, th', m);
  }

  lemma StoreFreeOk(c: Config, a: Arena, a': Arena, t: ThreadId, th: Thread, th': Thread)
    requires Coherent(c, a, t, th) && StoreFreeStep(c, a, th, a', th', t)
    ensures StepOk(c, a, a', t, th')
  {
    StoreFreeKeeps(c, a, a', t, th, th');
    StoreFreeFlag(c, a, a', t, th, th');
    assert RecordMatches(a, t, th, th.pc.m);
    TouchRecord(c, a, a', t, th, th', th.pc.m);
  }

  lemma StoreFreeKeeps(c: Config, a: Arena, a': Arena, t: ThreadId, th: Thread, th': Thread)
    requires Coherent(c, a, t, th) && StoreFreeStep(c, a, th, a', th', t)
    ensures Inv(c, a')
  {
    assert RecordMatches(a, t, th, th.pc.m);
    if th.pc.recycle.phase.Rolling? {
      BatchRecycleKeeps(c, a, t, th.pc.m);
    } else {
      RecycleKeeps(c, a, t, th.pc.m);
    }
  }

  lemma StoreFreeFlag(c: Config, a: Arena, a': Arena, t: ThreadId, th: Thread, th': Thread)
    requires Coherent(c, a, t, th) && StoreFreeStep(c, a, th, a', th', t)
    ensures FlagMatches(a', t, th') && FlagKept(a, a', t)
  {
    assert RecordMatches(a, t, th, th.pc.m) && RecordOk(c, a, th.pc.m);
  }

  lemma PushFreeOk(c: Config, a: Arena, a': Arena, t: ThreadId, th: Thread, th': Thread)
    requires Coherent(c, a, t, th) && PushFreeStep(c, a, th, a', th', t)
    ensures StepOk(c, a, a', t, th')
  {
    var m := th.pc.m;
    assert RecordMatches(a, t, th, m) && SlotMatches(a, t, th, ManagerOf(m));
    PushFreeRecordKeeps(c, a, t, m);
    PushFreeMatches(c, a, t, th);
    TouchRecordAndManager(c, a, a', t, th, th', m, ManagerOf(m));
  }

  lemma PushFreeMatches(c: Config, a: Arena, t: ThreadId, th: Thread)
    requires Coupled(c, a, t, th) && th.pc.Recycle? && th.pc.recycle.PushFree? && ManagerOf(th.pc.m) < |a.managers|
    ensures var (a', th') := (PushFreeRecord(a, t, th.pc.m), At(th, Recycle(th.pc.m, th.pc.next, ReleaseManager)));
      && RecordMatches(a', t, th', th.pc.m) && OwnerKept(a, a', t, th.pc.m)
      && SlotMatches(a', t, th', ManagerOf(th.pc.m)) && TrimMatches(a', t, th', ManagerOf(th.pc.m))
      && ManagerKept(a.managers[ManagerOf(th.pc.m)], a'.managers[ManagerOf(th.pc.m)], t)
  {
    assert RecordMatches(a, t, th, th.pc.m) && SlotMatches(a, t, th, ManagerOf(th.pc.m)) && TrimMatches(a, t, th, ManagerOf(th.pc.m));
  }

  lemma ReleaseManagerOk(c: Config, a: Arena, a': Arena, t: ThreadId, th: Thread, th': Thread)
    requires Coherent(c, a, t, th) && ReleaseManagerStep(c, a, th, a', th', t)
    ensures StepOk(c, a, a', t, th')
  {
    var k := ManagerOf(th.pc.m);
    assert SlotMatches(a, t, th, k) && TrimMatches(a, t, th, k);
    ReleaseSlotKeeps(c, a, t, k);
    TouchManager(c, a, a', t, th, th', k);
  }
}
