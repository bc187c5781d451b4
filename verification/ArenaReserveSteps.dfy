/** Finding a metadata record, growing the region and trimming it: each step keeps the system coupled. */
module ArenaReserveSteps {
  import opened Wrappers
  import opened ArenaState
  import opened ArenaOps
  import opened ArenaInvariant
  import opened ArenaRecordOps
  import opened ArenaManagerOps
  import opened ArenaThreads
  import opened ArenaCoupling
  import opened ArenaInterference
  import opened ArenaStepFrame

  lemma LoadCountOk(c: Config, a: Arena, a': Arena, t: ThreadId, th: Thread, th': Thread)
    requires Coherent(c, a, t, th) && (LoadCountStep(c, a, th, a', th') || ReloadCountStep(c, a, th, a', th') || CheckFrontierStep(c, a, th, a', th'))
    ensures StepOk(c, a, a', t, th')
  {
    LocalStep(c, a, t, th, th');
  }

  lemma ScanManagerOk(c: Config, a: Arena, a': Arena, t: ThreadId, th: Thread, th': Thread)
    requires Coherent(c, a, t, th) && ScanManagerStep(c, a, th, a', th', t)
    ensures StepOk(c, a, a', t, th')
  {
    if th'.pc.reserve.PopFree? {
      ReserveOk(c, a, t, th, th', th.pc.reserve.k);
    } else {
      LocalStep(c, a, t, th, th');
    }
  }

  /** reserve_active_slot succeeds. */
  lemma ReserveOk(c: Config, a: Arena, t: ThreadId, th: Thread, th': Thread, k: nat)
    requires Coherent(c, a, t, th) && SlotFree(a, k) && th.pc.Reserve? && th'.pc.Reserve? && th' == At(th, th'.pc)
    requires SlotInReserve(th.pc.reserve).None? && SlotInReserve(th'.pc.reserve) == Some(k)
    requires !th.pc.reserve.GrowRecheck? && !th.pc.reserve.GrowUndo?
    ensures StepOk(c, a, ReserveSlot(a, t, k), t, th')
  {
    assert SlotMatches(a, t, th, k) && TrimMatches(a, t, th, k);
    ReserveSlotKeeps(c, a, t, k);
    TouchManager(c, a, ReserveSlot(a, t, k), t, th, th', k);
  }

  /** release_active_slot */
  lemma ReleaseOk(c: Config, a: Arena, t: ThreadId, th: Thread, th': Thread, k: nat)
    requires Coherent(c, a, t, th) && th.pc.Reserve? && SlotInReserve(th.pc.reserve) == Some(k) && SlotAt(th'.pc).None?
    requires th' == Idle || (th'.pc.Reserve? && th' == At(th, th'.pc) && !th'.pc.reserve.GrowRecheck? && !th'.pc.reserve.GrowUndo?)
    ensures StepOk(c, a, ReleaseSlot(a, t, k), t, th')
  {
    assert SlotMatches(a, t, th, k) && TrimMatches(a, t, th, k);
    ReleaseSlotKeeps(c, a, t, k);
    TouchManager(c, a, ReleaseSlot(a, t, k), t, th, th', k);
  }

  lemma PopFreeOk(c: Config, a: Arena, a': Arena, t: ThreadId, th: Thread, th': Thread)
    requires Coherent(c, a, t, th) && PopFreeStep(c, a, th, a', th', t)
    ensures StepOk(c, a, a', t, th')
  {
    var k := th.pc.reserve.k;
    assert SlotMatches(a, t, th, k);
    if ManagerAt(a, k).freeList == {} {
      LocalStep(c, a, t, th, th');
    } else {
      var m := th'.job.reservation.m;
      assert RecordMatches(a, t, th, m) && TrimMatches(a, t, th, k);
      PopFreeRecordKeeps(c, a, t, k, m);
      TouchRecordAndManager(c, a, a', t, th, th', m, k);
    }
  }

  lemma DropSlotOk(c: Config, a: Arena, a': Arena, t: ThreadId, th: Thread, th': Thread)
    requires Coherent(c, a, t, th)
    requires DropSlotStep(c, a, th, a', th', t) || GrowRetryStep(c, a, th, a', th', t) || GrowGiveUpStep(c, a, th, a', th', t)
    ensures StepOk(c, a, a', t, th')
  {
    ReleaseOk(c, a, t, th, th', th.pc.reserve.k);
  }

  lemma GrowFromOk(c: Config, a: Arena, a': Arena, t: ThreadId, th: Thread, th': Thread)
    requires Coherent(c, a, t, th) && GrowFromStep(c, a, th, a', th', t)
    ensures StepOk(c, a, a', t, th')
  {
    if th'.pc.Reserve? && th'.pc.reserve.CheckFrontier? {
      ReserveOk(c, a, t, th, th', ManagerOf(th.pc.reserve.count));
    } else {
      LocalStep(c, a, t, th, th');
    }
  }

  lemma GrowCasOk(c: Config, a: Arena, a': Arena, t: ThreadId, th: Thread, th': Thread)
    requires Coherent(c, a, t, th) && GrowCasStep(c, a, th, a', th', t)
    ensures StepOk(c, a, a', t, th')
  {
    if a.count == th.pc.reserve.count {
      var word: Word, totalSize: nat :| word.version < VERSION_LIMIT && NamesNoBlock(word) && a' == Grow(a, t, word, totalSize);
      GrowOk(c, a, t, th, word, totalSize);
    } else {
      LocalStep(c, a, t, th, th');
    }
  }

  lemma GrowOk(c: Config, a: Arena, t: ThreadId, th: Thread, word: Word, totalSize: nat)
    requires Coherent(c, a, t, th) && th.pc == Reserve(GrowCas(a.count)) && NamesNoBlock(word)
    ensures StepOk(c, a, Grow(a, t, word, totalSize), t, At(th, Reserve(GrowRecheck(a.count))))
  {
    assert SlotMatches(a, t, th, ManagerOf(a.count));
    GrowKeeps(c, a, t, word, totalSize);
    GrowMatches(c, a, t, th, word, totalSize);
    TouchRecordAndManager(c, a, Grow(a, t, word, totalSize), t, th, At(th, Reserve(GrowRecheck(a.count))), a.count, ManagerOf(a.count));
  }

  lemma GrowMatches(c: Config, a: Arena, t: ThreadId, th: Thread, word: Word, totalSize: nat)
    requires Coupled(c, a, t, th) && th.pc == Reserve(GrowCas(a.count)) && a.count !in a.owners && FlagOk(a) && a.count !in a.records
    ensures var (a', th', k) := (Grow(a, t, word, totalSize), At(th, Reserve(GrowRecheck(a.count))), ManagerOf(a.count));
      && RecordMatches(a', t, th', a.count) && OwnerKept(a, a', t, a.count) && FlagKept(a, a', t)
      && k < |a.managers| && SlotMatches(a', t, th', k) && TrimMatches(a', t, th', k)
      && ManagerKept(a.managers[k], a'.managers[k], t)
      && ReservedApart(th')
  {
    var k := ManagerOf(a.count);
    assert RecordMatches(a, t, th, a.count) && SlotMatches(a, t, th, k) && TrimMatches(a, t, th, k);
  }

  lemma GrowRecheckOk(c: Config, a: Arena, a': Arena, t: ThreadId, th: Thread, th': Thread)
    requires Coherent(c, a, t, th) && GrowRecheckStep(c, a, th, a', th', t)
    ensures StepOk(c, a, a', t, th')
  {
    var count := th.pc.reserve.count;
    assert RecordMatches(a, t, th, count);
    if c.metadataStart - (count + 1) > a.frontier {
      KeepGrownKeeps(c, a, t, count);
      TouchRecord(c, a, a', t, th, th', count);
    } else {
      LocalStep(c, a, t, th, th');
    }
  }

  lemma GrowUndoOk(c: Config, a: Arena, a': Arena, t: ThreadId, th: Thread, th': Thread)
    requires Coherent(c, a, t, th) && GrowUndoStep(c, a, th, a', th', t)
    ensures StepOk(c, a, a', t, th')
  {
    var count := th.pc.reserve.count;
    if a.count == count + 1 {
      assert RecordMatches(a, t, th, count) && SlotMatches(a, t, th, ManagerOf(count));
      HeldMeansActive(c, a, count);
      UndoGrowKeeps(c, a, t, count);
      UndoGrowMatches(c, a, t, th);
      TouchRecordAndManager(c, a, a', t, th, th', count, ManagerOf(count));
    } else {
      LocalStep(c, a, t, th, th');
    }
  }

  lemma UndoGrowMatches(c: Config, a: Arena, t: ThreadId, th: Thread)
    requires Coherent(c, a, t, th) && th.pc.Reserve? && th.pc.reserve.GrowUndo? && ManagerOf(th.pc.reserve.count) < |a.managers|
    ensures var count := th.pc.reserve.count; var k := ManagerOf(count);
      var (a', th') := (UndoGrow(a, t, count), At(th, Reserve(GrowGiveUp(k))));
      && RecordMatches(a', t, th', count) && OwnerKept(a, a', t, count) && FlagKept(a, a', t)
      && SlotMatches(a', t, th', k) && TrimMatches(a', t, th', k) && ManagerKept(a.managers[k], a'.managers[k], t)
  {
    var count := th.pc.reserve.count;
    var k := ManagerOf(count);
    assert RecordMatches(a, t, th, count) && SlotMatches(a, t, th, k) && TrimMatches(a, t, th, k);
    assert RecordOk(c, a, count);
  }

  lemma ReserveStepOk(c: Config, a: Arena, a': Arena, t: ThreadId, th: Thread, th': Thread)
    requires Coherent(c, a, t, th) && ReserveStep(c, a, th, a', th', t)
    ensures StepOk(c, a, a', t, th')
  {
    match th.pc.reserve
    case ScanManager(_, _) => ScanManagerOk(c, a, a', t, th, th');
    case PopFree(_, _) => PopFreeOk(c, a, a', t, th, th');
    case GrowFrom(_) => GrowFromOk(c, a, a', t, th, th');
    case GrowCas(_) => GrowCasOk(c, a, a', t, th, th');
    case GrowRecheck(_) => GrowRecheckOk(c, a, a', t, th, th');
    case GrowUndo(_) => GrowUndoOk(c, a, a', t, th, th');
    case LoadCount => LoadCountOk(c, a, a', t, th, th');
    case ReloadCount => LoadCountOk(c, a, a', t, th, th');
    case CheckFrontier(_) => LoadCountOk(c, a, a', t, th, th');
    case _ => DropSlotOk(c, a, a', t, th, th');
  }

  // ----- trim_metadata_records -----

  lemma LoadForTrimOk(c: Config, a: Arena, a': Arena, t: ThreadId, th: Thread, th': Thread)
    requires Coherent(c, a, t, th) && (LoadForTrimStep(c, a, th, a', th') || CheckTrimStep(c, a, th, a', th'))
    ensures StepOk(c, a, a', t, th')
  {
    LocalStep(c, a, t, th, th');
  }

  lemma ClaimManagerOk(c: Config, a: Arena, a': Arena, t: ThreadId, th: Thread, th': Thread)
    requires Coherent(c, a, t, th) && ClaimManagerStep(c, a, th, a', th', t)
    ensures StepOk(c, a, a', t, th')
  {
    var k := th.pc.trim.k;
    assert SlotMatches(a, t, th, k) && TrimMatches(a, t, th, k);
    if ManagerAt(a, k).activeCount == 0 && ManagerAt(a, k).trimmer.NotTrimming? {
      TrimClaimKeeps(c, a, t, k);
      TouchManager(c, a, a', t, th, th', k);
    } else {
      LocalStep(c, a, t, th, th');
    }
  }

  /** A trim discards only records on the free list of the manager it has claimed. */
  lemma ShrinkDiscardsFree(c: Config, a: Arena, t: ThreadId, th: Thread, r: RecordIndex)
    requires Coherent(c, a, t, th) && th.pc.Trim? && th.pc.trim.ShrinkCas? && a.count == th.pc.trim.count
    requires r in a.records && r >= th.pc.trim.k * RECORDS_PER_BLOCK
    ensures th.pc.trim.k < |a.managers| && r in a.managers[th.pc.trim.k].freeList && r in a.owners && a.owners[r].OnFreeList?
  {
    var k := th.pc.trim.k;
    assert TrimMatches(a, t, th, k);
    assert r < a.count;
    TrimmedAreFree(c, a, k, r);
    assert ManagerOk(a.owners, a.count, k, a.managers[k]);
  }

  lemma ShrinkCasOk(c: Config, a: Arena, a': Arena, t: ThreadId, th: Thread, th': Thread)
    requires Coherent(c, a, t, th) && ShrinkCasStep(c, a, th, a', th', t)
    ensures StepOk(c, a, a', t, th')
  {
    var (count, k) := (th.pc.trim.count, th.pc.trim.k);
    if a.count == count {
      assert TrimMatches(a, t, th, k);
      ShrinkKeeps(c, a, t, k);
      forall r | r in a.records && r >= k * RECORDS_PER_BLOCK ensures r in a.owners && a.owners[r].OnFreeList? {
        ShrinkDiscardsFree(c, a, t, th, r);
      }
      ShrinkKeepsOthers(c, a, t, th);
      ShrinkKeepsMine(c, a, t, th);
    } else {
      LocalStep(c, a, t, th, th');
    }
  }

  lemma ShrinkKeepsOthers(c: Config, a: Arena, t: ThreadId, th: Thread)
    requires Coherent(c, a, t, th) && th.pc.Trim? && th.pc.trim.ShrinkCas?
    requires forall r :: r in a.records && r >= th.pc.trim.k * RECORDS_PER_BLOCK ==> r in a.owners && a.owners[r].OnFreeList?
    ensures OthersKept(a, Shrink(a, t, th.pc.trim.k, th.pc.trim.k * RECORDS_PER_BLOCK), t)
  {
    var k := th.pc.trim.k;
    var a' := Shrink(a, t, k, k * RECORDS_PER_BLOCK);
    assert TrimMatches(a, t, th, k);
    forall r ensures OwnerKept(a, a', t, r) {}
    if a.flag.Up? && !a.flag.claim.NoClaim? {
      assert RecordOk(c, a, a.flag.claim.record);
    }
  }

  lemma ShrinkKeepsMine(c: Config, a: Arena, t: ThreadId, th: Thread)
    requires Coherent(c, a, t, th) && th.pc.Trim? && th.pc.trim.ShrinkCas?
    requires forall r :: r in a.records && r >= th.pc.trim.k * RECORDS_PER_BLOCK ==> r in a.owners && a.owners[r].OnFreeList?
    ensures Coupled(c, Shrink(a, t, th.pc.trim.k, th.pc.trim.k * RECORDS_PER_BLOCK), t, At(th, Trim(ClearList(th.pc.trim.k))))
  {
    var k := th.pc.trim.k;
    var a' := Shrink(a, t, k, k * RECORDS_PER_BLOCK);
    var th' := At(th, Trim(ClearList(k)));
    forall r ensures RecordMatches(a', t, th', r) {
      assert RecordMatches(a, t, th, r);
    }
    forall b ensures BlockMatches(a', t, th', b) {
      assert BlockMatches(a, t, th, b);
    }
    forall k': nat ensures SlotMatches(a', t, th', k') && TrimMatches(a', t, th', k') {
      assert SlotMatches(a, t, th, k') && TrimMatches(a, t, th, k');
    }
  }

  lemma ClearListOk(c: Config, a: Arena, a': Arena, t: ThreadId, th: Thread, th': Thread)
    requires Coherent(c, a, t, th) && ClearListStep(c, a, th, a', th', t)
    ensures StepOk(c, a, a', t, th')
  {
    var k := th.pc.trim.k;
    assert SlotMatches(a, t, th, k) && TrimMatches(a, t, th, k);
    ClearFreeListKeeps(c, a, t, k);
    TouchManager(c, a, a', t, th, th', k);
  }

  lemma OpenManagerOk(c: Config, a: Arena, a': Arena, t: ThreadId, th: Thread, th': Thread)
    requires Coherent(c, a, t, th) && OpenManagerStep(c, a, th, a', th')
    ensures StepOk(c, a, a', t, th')
  {
    var k := th.pc.trim.k;
    assert SlotMatches(a, t, th, k) && TrimMatches(a, t, th, k);
    TrimOpenKeeps(c, a, t, k);
    TouchManager(c, a, a', t, th, th', k);
  }

  lemma TrimStepOk(c: Config, a: Arena, a': Arena, t: ThreadId, th: Thread, th': Thread)
    requires Coherent(c, a, t, th) && TrimStep(c, a, th, a', th', t)
    ensures StepOk(c, a, a', t, th')
  {
    match th.pc.trim
    case ClaimManager(_, _) => ClaimManagerOk(c, a, a', t, th, th');
    case ShrinkCas(_, _) => ShrinkCasOk(c, a, a', t, th, th');
    case ClearList(_) => ClearListOk(c, a, a', t, th, th');
    case OpenManager(_) => OpenManagerOk(c, a, a', t, th, th');
    case _ => LoadForTrimOk(c, a, a', t, th, th');
  }
}
