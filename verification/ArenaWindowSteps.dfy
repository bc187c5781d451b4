/** Maintenance windows and frontier walks: each step keeps the system coupled. */
module ArenaWindowSteps {
  import opened Wrappers
  import opened ArenaState
  import opened ArenaOps
  import opened ArenaInvariant
  import opened ArenaChain
  import opened ArenaRecordOps
  import opened ArenaRegionOps
  import opened ArenaThreads
  import opened ArenaCoupling
  import opened ArenaInterference
  import opened ArenaStepFrame
  import opened ArenaAllocateSteps

  // ----- the pending list -----

  lemma StealOk(c: Config, a: Arena, a': Arena, t: ThreadId, th: Thread, th': Thread)
    requires Coherent(c, a, t, th) && StealStep(c, a, th, a', th', t)
    ensures StepOk(c, a, a', t, th')
  {
    if th'.pc.Window? {
      StealPendingKeeps(c, a, t, th'.pc.todo);
      forall r ensures OwnerKept(a, a', t, r) {}
      StealKeepsMine(c, a, t, th, th'.pc.todo);
    } else {
      LocalStep(c, a, t, th, th');
    }
  }

  lemma StealKeepsMine(c: Config, a: Arena, t: ThreadId, th: Thread, shard: set<RecordIndex>)
    requires Coherent(c, a, t, th) && th.pc.Steal? && shard <= a.pendingList
    ensures Coupled(c, StealPending(a, t, shard), t, At(th, Window(shard, {}, Collect)))
  {
    var a' := StealPending(a, t, shard);
    var th' := At(th, Window(shard, {}, Collect));
    forall r ensures RecordMatches(a', t, th', r) {
      assert RecordMatches(a, t, th, r);
      assert r in a.pendingList <==> r in a.owners && a.owners[r].OnPendingList?;
    }
    forall b ensures BlockMatches(a', t, th', b) {
      assert BlockMatches(a, t, th, b);
    }
    forall k: nat ensures SlotMatches(a', t, th', k) && TrimMatches(a', t, th', k) {
      assert SlotMatches(a, t, th, k) && TrimMatches(a, t, th, k);
    }
    if th.job.Alloc? && th.job.reservation.WithRecord? {
      assert RecordMatches(a, t, th, th.job.reservation.m);
    }
  }

  lemma LocalWindowOk(c: Config, a: Arena, a': Arena, t: ThreadId, th: Thread, th': Thread)
    requires Coherent(c, a, t, th)
    requires CollectStep(c, a, th, a', th') || ScanBatchStep(c, a, th, a', th') || PickCandidateStep(c, a, th, a', th')
    ensures StepOk(c, a, a', t, th')
  {
    LocalStep(c, a, t, th, th');
  }

  /** Raising or lowering the flag with nothing claimed. */
  lemma FlagOnly(c: Config, a: Arena, t: ThreadId, th: Thread, th': Thread, flag: Flag)
    requires Coherent(c, a, t, th)
    requires a.flag.Down? || a.flag == Up(t, NoClaim)
    requires flag.Down? || flag == Up(t, NoClaim)
    requires forall r {:trigger HeldBy(th, r)} {:trigger HeldBy(th', r)} :: HeldBy(th', r) == HeldBy(th, r)
    requires CarvedAt(th'.pc) == CarvedAt(th.pc) && SlotAt(th'.pc) == SlotAt(th.pc) && TrimAt(th'.pc) == TrimAt(th.pc)
    requires FlagMatches(a.(flag := flag), t, th') && ReservedApart(th') && Facts(c, a.(flag := flag), th')
    ensures StepOk(c, a, a.(flag := flag), t, th')
  {
    SetFlagKeeps(c, a, flag);
    assert RecordMatches(a, t, th, a.count);
    TouchRecord(c, a, a.(flag := flag), t, th, th', a.count);
  }

  lemma RaiseForBatchOk(c: Config, a: Arena, a': Arena, t: ThreadId, th: Thread, th': Thread)
    requires Coherent(c, a, t, th) && RaiseForBatchStep(c, a, th, a', th', t)
    ensures StepOk(c, a, a', t, th')
  {
    if a.flag.Down? {
      FlagOnly(c, a, t, th, th', Up(t, NoClaim));
    } else {
      LocalStep(c, a, t, th, th');
    }
  }

  lemma LowerAfterBatchOk(c: Config, a: Arena, a': Arena, t: ThreadId, th: Thread, th': Thread)
    requires Coherent(c, a, t, th) && LowerAfterBatchStep(c, a, th, a', th')
    ensures StepOk(c, a, a', t, th')
  {
    FlagOnly(c, a, t, th, th', Down);
  }

  lemma BatchClaimInv(c: Config, a: Arena, a': Arena, t: ThreadId, th: Thread, th': Thread, m: RecordIndex)
    requires Coherent(c, a, t, th) && ClaimCandidateStep(c, a, th, a', th', t) && m == th.pc.window.m
    ensures RecordAt(a, m).word.state.DeallocatedPending?
    ensures Inv(c, a') && RecordsElsewhere(a, a', m) && OwnerKept(a, a', t, m) && FlagKept(a, a', t)
  {
    assert RecordMatches(a, t, th, m);
    assert RecordOk(c, a, m);
    BatchClaimKeeps(c, a, t, m);
  }

  lemma BatchClaimFacts(c: Config, a: Arena, a': Arena, t: ThreadId, th: Thread, th': Thread, m: RecordIndex)
    requires Coherent(c, a, t, th) && ClaimCandidateStep(c, a, th, a', th', t) && m == th.pc.window.m
    requires RecordAt(a, m).word.state.DeallocatedPending?
    ensures RecordMatches(a', t, th', m) && FlagMatches(a', t, th') && ReservedApart(th') && Facts(c, a', th')
  {
    assert RecordMatches(a, t, th, m);
    assert RecordOk(c, a, m);
  }

  lemma ClaimCandidateOk(c: Config, a: Arena, a': Arena, t: ThreadId, th: Thread, th': Thread)
    requires Coherent(c, a, t, th) && ClaimCandidateStep(c, a, th, a', th', t)
    ensures StepOk(c, a, a', t, th')
  {
    var m := th.pc.window.m;
    BatchClaimInv(c, a, a', t, th, th', m);
    BatchClaimFacts(c, a, a', t, th, th', m);
    TouchRecord(c, a, a', t, th, th', m);
  }

  /** Moving the frontier word back over the claimed block. */
  lemma RollBackStepOk(c: Config, a: Arena, t: ThreadId, th: Thread, th': Thread, m: RecordIndex, b: Address)
    requires Coherent(c, a, t, th) && a.flag == Up(t, Claimed(m)) && m in a.records && m in a.owners
    requires a.records[m].word.block == Some(b) && a.predecessor == Some(b)
    requires forall r {:trigger HeldBy(th, r)} {:trigger HeldBy(th', r)} :: HeldBy(th', r) == HeldBy(th, r)
    requires CarvedAt(th.pc).None? && CarvedAt(th'.pc).None? && SlotAt(th'.pc) == SlotAt(th.pc) && TrimAt(th'.pc) == TrimAt(th.pc)
    requires var a' := DropBlock(a, b, HeaderAt(a, b).previous).(flag := Up(t, RolledBack(m)));
      FlagMatches(a', t, th') && ReservedApart(th') && Facts(c, a', th')
    ensures StepOk(c, a, DropBlock(a, b, HeaderAt(a, b).previous).(flag := Up(t, RolledBack(m))), t, th')
  {
    var a' := DropBlock(a, b, HeaderAt(a, b).previous).(flag := Up(t, RolledBack(m)));
    RollBackKeeps(c, a, t, m, b);
    assert RecordOk(c, a, m);
    UnboundNotFilling(c, a, t, b);
    assert RecordMatches(a, t, th, a.count) && BlockMatches(a, t, th, b) && SlotMatches(a, t, th, 0) && TrimMatches(a, t, th, 0);
    Touch(c, a, a', t, th, th', a.count, b, 0);
  }

  /** The claimed block ends at the loaded frontier; if the word is unchanged it is the word's predecessor. */
  lemma CandidateIsLast(c: Config, a: Arena, t: ThreadId, th: Thread)
    requires Coherent(c, a, t, th) && th.pc.Window? && th.pc.window.RollBatch? && WordOf(a) == th.pc.window.word
    ensures th.pc.window.m in a.records && a.flag == Up(t, Claimed(th.pc.window.m))
    ensures a.records[th.pc.window.m].word.block.Some? && a.predecessor == a.records[th.pc.window.m].word.block
  {
    var m := th.pc.window.m;
    assert RecordMatches(a, t, th, m) && RecordOk(c, a, m);
    LastBlock(c, a.chain, a.frontier, a.predecessor, a.records[m].word.block.value);
  }

  lemma RollBatchOk(c: Config, a: Arena, a': Arena, t: ThreadId, th: Thread, th': Thread)
    requires Coherent(c, a, t, th) && RollBatchStep(c, a, th, a', th', t)
    ensures StepOk(c, a, a', t, th')
  {
    if WordOf(a) == th.pc.window.word {
      CandidateIsLast(c, a, t, th);
      RollBackStepOk(c, a, t, th, th', th.pc.window.m, a.records[th.pc.window.m].word.block.value);
    } else {
      LocalStep(c, a, t, th, th');
    }
  }

  lemma RestoreBatchOk(c: Config, a: Arena, a': Arena, t: ThreadId, th: Thread, th': Thread)
    requires Coherent(c, a, t, th) && RestoreBatchStep(c, a, th, a', th', t)
    ensures StepOk(c, a, a', t, th')
  {
    var m := th.pc.window.m;
    StillRolling(c, a, t, th);
    BatchRestoreKeeps(c, a, t, m);
    TouchRecord(c, a, a', t, th, th', m);
  }

  lemma StillRolling(c: Config, a: Arena, t: ThreadId, th: Thread)
    requires Coherent(c, a, t, th) && th.pc.Window? && th.pc.window.RestoreBatch?
    ensures HeldAs(a, t, th.pc.window.m, Rolling) && RecordAt(a, th.pc.window.m).word.state.FrontierReclaimInProgress?
    ensures a.flag == Up(t, Claimed(th.pc.window.m))
  {
    assert RecordMatches(a, t, th, th.pc.window.m) && RecordOk(c, a, th.pc.window.m);
  }

  /** Every batch entry is still DEALLOCATED_PENDING when it is published: none is skipped. */
  lemma BatchIsPending(c: Config, a: Arena, t: ThreadId, th: Thread, m: RecordIndex)
    requires Coherent(c, a, t, th) && th.pc.Window? && m in th.pc.batch
    ensures HeldAs(a, t, m, Queued) && RecordAt(a, m).word.state.DeallocatedPending?
  {
    assert RecordMatches(a, t, th, m) && RecordOk(c, a, m);
  }

  lemma PublishNextOk(c: Config, a: Arena, a': Arena, t: ThreadId, th: Thread, th': Thread)
    requires Coherent(c, a, t, th) && PublishNextStep(c, a, th, a', th', t)
    ensures StepOk(c, a, a', t, th')
  {
    if th.pc.batch == {} {
      LocalStep(c, a, t, th, th');
    } else {
      var m :| m in th.pc.batch && PublishOne(a, th, a', th', t, m);
      PublishOneOk(c, a, a', t, th, th', m);
    }
  }

  lemma PublishOneOk(c: Config, a: Arena, a': Arena, t: ThreadId, th: Thread, th': Thread, m: RecordIndex)
    requires Coherent(c, a, t, th) && th.pc.Window? && th.pc.window.PublishNext?
    requires m in th.pc.batch && PublishOne(a, th, a', th', t, m)
    ensures StepOk(c, a, a', t, th')
  {
    BatchIsPending(c, a, t, th, m);
    PublishKeeps(c, a, t, m);
    assert RecordMatches(a', t, th', m) by {
      assert RecordMatches(a, t, th, m);
    }
    TouchRecord(c, a, a', t, th, th', m);
  }

  lemma PushPublishedOk(c: Config, a: Arena, a': Arena, t: ThreadId, th: Thread, th': Thread)
    requires Coherent(c, a, t, th) && PushPublishedStep(c, a, th, a', th')
    ensures StepOk(c, a, a', t, th')
  {
    var m := th.pc.window.m;
    PublishedInv(c, a, a', t, th, th', m);
    TouchRecord(c, a, a', t, th, th', m);
  }

  lemma PublishedInv(c: Config, a: Arena, a': Arena, t: ThreadId, th: Thread, th': Thread, m: RecordIndex)
    requires Coherent(c, a, t, th) && PushPublishedStep(c, a, th, a', th') && m == th.pc.window.m
    ensures Inv(c, a') && RecordsElsewhere(a, a', m) && OwnerKept(a, a', t, m) && RecordMatches(a', t, th', m)
  {
    assert RecordMatches(a, t, th, m);
    PushBinKeeps(c, a, t, m);
  }

  lemma WindowStepOk(c: Config, a: Arena, a': Arena, t: ThreadId, th: Thread, th': Thread)
    requires Coherent(c, a, t, th) && WindowStep(c, a, th, a', th', t)
    ensures StepOk(c, a, a', t, th')
  {
    if th.pc.Steal? {
      StealOk(c, a, a', t, th, th');
    } else {
      match th.pc.window
      case RaiseForBatch => RaiseForBatchOk(c, a, a', t, th, th');
      case ClaimCandidate(_, _) => ClaimCandidateOk(c, a, a', t, th, th');
      case RollBatch(_, _) => RollBatchOk(c, a, a', t, th, th');
      case RestoreBatch(_) => RestoreBatchOk(c, a, a', t, th, th');
      case LowerAfterBatch => LowerAfterBatchOk(c, a, a', t, th, th');
      case PublishNext => PublishNextOk(c, a, a', t, th, th');
      case PushPublished(_) => PushPublishedOk(c, a, a', t, th, th');
      case _ => LocalWindowOk(c, a, a', t, th, th');
    }
  }

  // ----- the frontier walk -----

  lemma ReadForWalkOk(c: Config, a: Arena, a': Arena, t: ThreadId, th: Thread, th': Thread)
    requires Coherent(c, a, t, th)
    requires LoadForWalkStep(c, a, th, a', th') || ReadWalkIndexStep(c, a, th, a', th')
      || CheckWalkIndexStep(c, a, th, a', th') || ReadWalkWordStep(c, a, th, a', th')
    ensures StepOk(c, a, a', t, th')
  {
    LocalStep(c, a, t, th, th');
  }

  lemma RaiseForWalkOk(c: Config, a: Arena, a': Arena, t: ThreadId, th: Thread, th': Thread)
    requires Coherent(c, a, t, th) && RaiseForWalkStep(c, a, th, a', th', t)
    ensures StepOk(c, a, a', t, th')
  {
    if a.flag.Down? {
      FlagOnly(c, a, t, th, th', Up(t, NoClaim));
    } else {
      LocalStep(c, a, t, th, th');
    }
  }

  lemma LowerAfterWalkOk(c: Config, a: Arena, a': Arena, t: ThreadId, th: Thread, th': Thread)
    requires Coherent(c, a, t, th) && LowerAfterWalkStep(c, a, th, a', th')
    ensures StepOk(c, a, a', t, th')
  {
    FlagOnly(c, a, t, th, th', Down);
  }

  lemma WalkClaimOk(c: Config, a: Arena, a': Arena, t: ThreadId, th: Thread, th': Thread, m: RecordIndex)
    requires Coherent(c, a, t, th) && WalkCasStep(c, a, th, a', th', t) && m == th.pc.walk.m && RecordAt(a, m).word == th.pc.walk.w
    ensures StepOk(c, a, a', t, th')
  {
    assert RecordMatches(a, t, th, m) && RecordOk(c, a, m);
    WalkClaimKeeps(c, a, t, m);
    TouchRecord(c, a, a', t, th, th', m);
  }

  lemma WalkCasOk(c: Config, a: Arena, a': Arena, t: ThreadId, th: Thread, th': Thread)
    requires Coherent(c, a, t, th) && WalkCasStep(c, a, th, a', th', t)
    ensures StepOk(c, a, a', t, th')
  {
    if RecordAt(a, th.pc.walk.m).word == th.pc.walk.w {
      WalkClaimOk(c, a, a', t, th, th', th.pc.walk.m);
    } else {
      LocalStep(c, a, t, th, th');
    }
  }

  /** The record a walk has claimed is FRONTIER_RECLAIM_IN_PROGRESS and no other thread rolls it back. */
  lemma WalkClaimHolds(c: Config, a: Arena, t: ThreadId, th: Thread, m: RecordIndex)
    requires Coherent(c, a, t, th) && th.pc.Walk?
    requires FlagInWalk(th.pc.walk) == Some(Claimed(m)) || FlagInWalk(th.pc.walk) == Some(RolledBack(m))
    ensures m in a.records && m in a.owners && a.records[m].word.state.FrontierReclaimInProgress?
    ensures a.flag == Up(t, FlagInWalk(th.pc.walk).value)
    ensures !(a.owners[m].Held? && a.owners[m].phase.Rolling?)
  {
    assert FlagMatches(a, t, th);
    assert RecordOk(c, a, m) && RecordMatches(a, t, th, m);
  }

  lemma RollWalkOk(c: Config, a: Arena, a': Arena, t: ThreadId, th: Thread, th': Thread)
    requires Coherent(c, a, t, th) && RollWalkStep(c, a, th, a', th', t)
    ensures StepOk(c, a, a', t, th')
  {
    if WordOf(a) == th.pc.walk.word {
      WalkClaimHolds(c, a, t, th, th.pc.walk.m);
      RollBackStepOk(c, a, t, th, th', th.pc.walk.m, th.pc.walk.word.predecessor.value);
    } else {
      LocalStep(c, a, t, th, th');
    }
  }

  lemma RestoreWalkOk(c: Config, a: Arena, a': Arena, t: ThreadId, th: Thread, th': Thread)
    requires Coherent(c, a, t, th) && RestoreWalkStep(c, a, th, a', th', t)
    ensures StepOk(c, a, a', t, th')
  {
    var m := th.pc.walk.m;
    WalkClaimHolds(c, a, t, th, m);
    WalkRestoreKeeps(c, a, t, m);
    assert RecordMatches(a, t, th, m);
    TouchRecord(c, a, a', t, th, th', m);
  }

  lemma FinishWalkOk(c: Config, a: Arena, a': Arena, t: ThreadId, th: Thread, th': Thread)
    requires Coherent(c, a, t, th) && FinishWalkStep(c, a, th, a', th', t)
    ensures StepOk(c, a, a', t, th')
  {
    var m := th.pc.walk.m;
    WalkClaimHolds(c, a, t, th, m);
    WalkFinishKeeps(c, a, t, m);
    assert RecordMatches(a, t, th, m);
    TouchRecord(c, a, a', t, th, th', m);
  }

  lemma WalkStepOk(c: Config, a: Arena, a': Arena, t: ThreadId, th: Thread, th': Thread)
    requires Coherent(c, a, t, th) && WalkStep(c, a, th, a', th', t)
    ensures StepOk(c, a, a', t, th')
  {
    match th.pc.walk
    case RaiseForWalk => RaiseForWalkOk(c, a, a', t, th, th');
    case WalkCas(_, _, _) => WalkCasOk(c, a, a', t, th, th');
    case RollWalk(_, _) => RollWalkOk(c, a, a', t, th, th');
    case RestoreWalk(_) => RestoreWalkOk(c, a, a', t, th, th');
    case FinishWalk(_) => FinishWalkOk(c, a, a', t, th, th');
    case LowerAfterWalk => LowerAfterWalkOk(c, a, a', t, th, th');
    case _ => ReadForWalkOk(c, a, a', t, th, th');
  }
}
