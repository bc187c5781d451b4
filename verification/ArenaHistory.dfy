/** What single steps do to the client's blocks and to memory not yet decided on, and what that makes of whole runs. */
module ArenaHistory {
  import opened Wrappers
  import opened ArenaState
  import opened ArenaOps
  import opened ArenaInvariant
  import opened ArenaThreads
  import opened ArenaCoupling
  import opened ArenaInterference
  import opened ArenaStepFrame
  import opened ArenaAllocateSteps
  import opened ArenaSafety

  // ----- returning and accepting -----

  /** Thread t's step from s to s' returns the block at b from do_allocate. */
  predicate Returns(s: System, t: ThreadId, b: Address) {
    ThreadAt(s, t).pc.Bind? && ThreadAt(s, t).pc.bind.Return? && ThreadAt(s, t).pc.b == b
  }

  /** Thread t's step from s to s' accepts the block at b for freeing. */
  predicate Accepts(s: System, s': System, t: ThreadId, b: Address) {
    && ThreadAt(s, t).pc.Free? && ThreadAt(s, t).pc.free.AcceptCas? && ThreadAt(s, t).pc.free.b == b
    && ThreadAt(s', t).pc.Free? && ThreadAt(s', t).pc.free.StorePending?
  }

  lemma SearchKeepsLive(c: Config, a: Arena, a': Arena, th: Thread, th': Thread, t: ThreadId)
    requires SearchStep(c, a, th, a', th', t)
    ensures a'.live == a.live
  {}

  lemma RecycleKeepsLive(c: Config, a: Arena, a': Arena, th: Thread, th': Thread, t: ThreadId)
    requires RecycleStep(c, a, th, a', th', t)
    ensures a'.live == a.live
  {}

  lemma ReserveKeepsLive(c: Config, a: Arena, a': Arena, th: Thread, th': Thread, t: ThreadId)
    requires ReserveStep(c, a, th, a', th', t)
    ensures a'.live == a.live
  {
    if PopFreeStep(c, a, th, a', th', t) {
    } else if ScanManagerStep(c, a, th, a', th', t) || DropSlotStep(c, a, th, a', th', t) {
      SlotKeepsLive(c, a, a', th, th', t);
    } else if LoadCountStep(c, a, th, a', th') || ReloadCountStep(c, a, th, a', th') || CheckFrontierStep(c, a, th, a', th') {
      assert a' == a;
    } else if GrowFromStep(c, a, th, a', th', t) || GrowCasStep(c, a, th, a', th', t) || GrowRetryStep(c, a, th, a', th', t) {
      GrowKeepsLive(c, a, a', th, th', t);
    } else {
      GrowEndKeepsLive(c, a, a', th, th', t);
    }
  }

  lemma SlotKeepsLive(c: Config, a: Arena, a': Arena, th: Thread, th': Thread, t: ThreadId)
    requires ScanManagerStep(c, a, th, a', th', t) || DropSlotStep(c, a, th, a', th', t)
    ensures a'.live == a.live
  {}

  lemma GrowKeepsLive(c: Config, a: Arena, a': Arena, th: Thread, th': Thread, t: ThreadId)
    requires GrowFromStep(c, a, th, a', th', t) || GrowCasStep(c, a, th, a', th', t) || GrowRetryStep(c, a, th, a', th', t)
    ensures a'.live == a.live
  {}

  lemma GrowEndKeepsLive(c: Config, a: Arena, a': Arena, th: Thread, th': Thread, t: ThreadId)
    requires GrowRecheckStep(c, a, th, a', th', t) || GrowUndoStep(c, a, th, a', th', t) || GrowGiveUpStep(c, a, th, a', th', t)
    ensures a'.live == a.live
  {}

  lemma CutKeepsLive(c: Config, a: Arena, a': Arena, th: Thread, th': Thread, t: ThreadId)
    requires CutStep(c, a, th, a', th', t)
    ensures a'.live == a.live
  {}

  lemma BindChangesLive(c: Config, a: Arena, a': Arena, th: Thread, th': Thread, t: ThreadId)
    requires BindStep(c, a, th, a', th', t)
    ensures if th.pc.bind.Return? then th.job.Alloc? && a'.live == a.live[th.pc.b := th.job.bytes] else a'.live == a.live
  {}

  lemma FreeChangesLive(c: Config, a: Arena, a': Arena, th: Thread, th': Thread, t: ThreadId)
    requires FreeStep(c, a, th, a', th', t)
    ensures if th.pc.free.AcceptCas? && th'.pc.Free? && th'.pc.free.StorePending? then a'.live == a.live - {th.pc.free.b} else a'.live == a.live
  {}

  lemma WindowKeepsLive(c: Config, a: Arena, a': Arena, th: Thread, th': Thread, t: ThreadId)
    requires WindowStep(c, a, th, a', th', t)
    ensures a'.live == a.live
  {
    if StealStep(c, a, th, a', th', t) || RaiseForBatchStep(c, a, th, a', th', t) || LowerAfterBatchStep(c, a, th, a', th')
      || PublishNextStep(c, a, th, a', th', t) || PushPublishedStep(c, a, th, a', th') {
      ListsKeepLive(c, a, a', th, th', t);
    } else if CollectStep(c, a, th, a', th') || ScanBatchStep(c, a, th, a', th') || PickCandidateStep(c, a, th, a', th') {
      assert a' == a;
    } else {
      BatchKeepsLive(c, a, a', th, th', t);
    }
  }

  lemma ListsKeepLive(c: Config, a: Arena, a': Arena, th: Thread, th': Thread, t: ThreadId)
    requires StealStep(c, a, th, a', th', t) || RaiseForBatchStep(c, a, th, a', th', t) || LowerAfterBatchStep(c, a, th, a', th')
      || PublishNextStep(c, a, th, a', th', t) || PushPublishedStep(c, a, th, a', th')
    ensures a'.live == a.live
  {}

  lemma BatchKeepsLive(c: Config, a: Arena, a': Arena, th: Thread, th': Thread, t: ThreadId)
    requires ClaimCandidateStep(c, a, th, a', th', t) || RollBatchStep(c, a, th, a', th', t) || RestoreBatchStep(c, a, th, a', th', t)
    ensures a'.live == a.live
  {}

  lemma WalkKeepsLive(c: Config, a: Arena, a': Arena, th: Thread, th': Thread, t: ThreadId)
    requires WalkStep(c, a, th, a', th', t)
    ensures a'.live == a.live
  {
    if WalkCasStep(c, a, th, a', th', t) || RollWalkStep(c, a, th, a', th', t) || RestoreWalkStep(c, a, th, a', th', t) {
    } else if FinishWalkStep(c, a, th, a', th', t) {
    } else {
      WalkReadsKeepLive(c, a, a', th, th', t);
    }
  }

  lemma WalkReadsKeepLive(c: Config, a: Arena, a': Arena, th: Thread, th': Thread, t: ThreadId)
    requires RaiseForWalkStep(c, a, th, a', th', t) || LoadForWalkStep(c, a, th, a', th') || ReadWalkIndexStep(c, a, th, a', th')
      || CheckWalkIndexStep(c, a, th, a', th') || ReadWalkWordStep(c, a, th, a', th') || LowerAfterWalkStep(c, a, th, a', th')
    ensures a'.live == a.live
  {}

  lemma TrimKeepsLive(c: Config, a: Arena, a': Arena, th: Thread, th': Thread, t: ThreadId)
    requires TrimStep(c, a, th, a', th', t)
    ensures a'.live == a.live
  {
    if ShrinkCasStep(c, a, th, a', th', t) || ClearListStep(c, a, th, a', th', t) {
      TrimEndKeepsLive(c, a, a', th, th', t);
    }
  }

  lemma TrimEndKeepsLive(c: Config, a: Arena, a': Arena, th: Thread, th': Thread, t: ThreadId)
    requires ShrinkCasStep(c, a, th, a', th', t) || ClearListStep(c, a, th, a', th', t)
    ensures a'.live == a.live
  {}

  /** The client's blocks change in two steps only: one returns a block, the other accepts it back. */
  lemma LiveChanges(c: Config, s: System, s': System, t: ThreadId)
    requires StepBy(c, s, s', t)
    ensures forall b :: b in s'.arena.live <==> Returns(s, t, b) || (b in s.arena.live && !Accepts(s, s', t, b))
    ensures forall b :: b in s'.arena.live ==>
      if Returns(s, t, b) then ThreadAt(s, t).job.Alloc? && s'.arena.live[b] == ThreadAt(s, t).job.bytes
      else s'.arena.live[b] == s.arena.live[b]
  {
    var (a, a') := (s.arena, s'.arena);
    var (th, th') := (ThreadAt(s, t), ThreadAt(s', t));
    if SearchStep(c, a, th, a', th', t) { SearchKeepsLive(c, a, a', th, th', t); }
    else if RecycleStep(c, a, th, a', th', t) { RecycleKeepsLive(c, a, a', th, th', t); }
    else if ReserveStep(c, a, th, a', th', t) { ReserveKeepsLive(c, a, a', th, th', t); }
    else if CutStep(c, a, th, a', th', t) { CutKeepsLive(c, a, a', th, th', t); }
    else if BindStep(c, a, th, a', th', t) { BindChangesLive(c, a, a', th, th', t); }
    else if FreeStep(c, a, th, a', th', t) { FreeChangesLive(c, a, a', th, th', t); }
    else if WindowStep(c, a, th, a', th', t) { WindowKeepsLive(c, a, a', th, th', t); }
    else if WalkStep(c, a, th, a', th', t) { WalkKeepsLive(c, a, a', th, th', t); }
    else { TrimKeepsLive(c, a, a', th, th', t); }
  }

  /**
    A free that is accepted takes back a block the client had exactly when no allocation of its address is
    in flight.  This holds of any step, orderly or not.
   */
  lemma AcceptsOnlyLive(c: Config, s: System, s': System, t: ThreadId, b: Address)
    requires ValidConfig(c) && OrderlyReachable(c, s) && StepBy(c, s, s', t) && Accepts(s, s', t, b)
    ensures b in s.arena.live <==> !InFlight(s, b)
    ensures b in s.arena.live <==> !FreesInFlight(s, t)
    ensures b !in s'.arena.live
  {
    ReachableHolds(c, s);
    var (a, th) := (s.arena, ThreadAt(s, t));
    assert Coupled(c, a, t, th);
    FreeSteps(c, a, s'.arena, th, ThreadAt(s', t), t);
    AcceptedIsLive(c, a, th.pc.free.m, b);
    PrematureIsInFlight(c, s, t);
    LiveChanges(c, s, s', t);
  }

  lemma FreeSteps(c: Config, a: Arena, a': Arena, th: Thread, th': Thread, t: ThreadId)
    requires ThreadStep(c, a, th, a', th', t) && th.pc.Free? && th.pc.free.AcceptCas?
    ensures AcceptCasStep(c, a, th, a', th', t)
  {
    if SearchStep(c, a, th, a', th', t) { assert false; }
    else if RecycleStep(c, a, th, a', th', t) { assert false; }
    else if ReserveStep(c, a, th, a', th', t) { assert false; }
    else if CutStep(c, a, th, a', th', t) { assert false; }
    else if BindStep(c, a, th, a', th', t) { assert false; }
    else if WindowStep(c, a, th, a', th', t) { assert false; }
    else if WalkStep(c, a, th, a', th', t) { assert false; }
    else if TrimStep(c, a, th, a', th', t) { assert false; }
  }

  // ----- whole runs -----

  /** A finite run with the thread that took each step. */
  ghost predicate IsTrace(c: Config, run: seq<System>, actors: seq<ThreadId>) {
    && |run| == |actors| + 1 && Init(c, run[0])
    && (forall i {:trigger TracedAt(c, run, actors, i)} :: 0 <= i < |actors| ==> TracedAt(c, run, actors, i))
  }

  ghost predicate TracedAt(c: Config, run: seq<System>, actors: seq<ThreadId>, i: nat)
    requires i < |actors| < |run|
  {
    StepBy(c, run[i], run[i + 1], actors[i])
  }

  /** No step of the trace accepts a free of an address whose allocation is in flight. */
  ghost predicate OrderlyTrace(run: seq<System>, actors: seq<ThreadId>)
    requires |run| == |actors| + 1
  {
    forall i {:trigger FreesInFlight(run[i], actors[i])} :: 0 <= i < |actors| ==> !FreesInFlight(run[i], actors[i])
  }

  lemma {:induction false} TraceReaches(c: Config, run: seq<System>, actors: seq<ThreadId>, i: nat)
    requires IsTrace(c, run, actors) && OrderlyTrace(run, actors) && i < |run|
    ensures OrderlyReachable(c, run[i])
  {
    var prefix := run[..i + 1];
    forall j: nat | j + 1 < |prefix| ensures NextAt(c, prefix, j) && OrderlyAt(c, prefix, j) {
      assert TracedAt(c, run, actors, j) && !FreesInFlight(run[j], actors[j]);
    }
    assert IsRun(c, prefix) && Orderly(c, prefix) && prefix[|prefix| - 1] == run[i];
  }

  ghost function ReturnsOf(run: seq<System>, actors: seq<ThreadId>, b: Address, n: nat): nat
    requires n <= |actors| < |run|
  {
    if n == 0 then 0 else ReturnsOf(run, actors, b, n - 1) + if Returns(run[n - 1], actors[n - 1], b) then 1 else 0
  }

  ghost function AcceptsOf(run: seq<System>, actors: seq<ThreadId>, b: Address, n: nat): nat
    requires n <= |actors| < |run|
  {
    if n == 0 then 0 else AcceptsOf(run, actors, b, n - 1) + if Accepts(run[n - 1], run[n], actors[n - 1], b) then 1 else 0
  }

  /**
    Over any orderly run, a block has been returned exactly as often as it has been accepted for freeing, plus
    once more if the client has it now: it is accepted at most once per allocation.
   */
  lemma {:induction false} AcceptedOncePerAllocation(c: Config, run: seq<System>, actors: seq<ThreadId>, b: Address, n: nat)
    requires ValidConfig(c) && IsTrace(c, run, actors) && OrderlyTrace(run, actors) && n <= |actors|
    ensures ReturnsOf(run, actors, b, n) == AcceptsOf(run, actors, b, n) + if b in run[n].arena.live then 1 else 0
  {
    if n == 0 {
    } else {
      AcceptedOncePerAllocation(c, run, actors, b, n - 1);
      var (s, s', t) := (run[n - 1], run[n], actors[n - 1]);
      TraceReaches(c, run, actors, n - 1);
      assert TracedAt(c, run, actors, n - 1);
      StepBalances(c, s, s', t, b);
    }
  }

  lemma StepBalances(c: Config, s: System, s': System, t: ThreadId, b: Address)
    requires ValidConfig(c) && OrderlyReachable(c, s) && StepBy(c, s, s', t) && !FreesInFlight(s, t)
    ensures (if b in s.arena.live then 1 else 0) + (if Returns(s, t, b) then 1 else 0)
         == (if b in s'.arena.live then 1 else 0) + (if Accepts(s, s', t, b) then 1 else 0)
  {
    LiveChanges(c, s, s', t);
    if Returns(s, t, b) {
      ReturnedBlockIsNew(c, s, t);
    } else if Accepts(s, s', t, b) {
      AcceptsOnlyLive(c, s, s', t, b);
    }
  }

  // ----- memory not yet decided on -----

  /**
    Neither side of the boundary writes before it has decided: while a cut block may still be given back
    its header keeps what memory held, and while a grown record may still be given back so do its fields.
   */
  lemma UndecidedMemoryUntouched(c: Config, s: System, s': System, t: ThreadId)
    requires ValidConfig(c) && OrderlyReachable(c, s) && StepBy(c, s, s', t)
    ensures forall b :: BlockUndecided(s, b) && BlockUndecided(s', b) ==> HeaderAt(s'.arena, b) == HeaderAt(s.arena, b)
    ensures forall r :: RecordUndecided(s, r) && RecordUndecided(s', r) ==> RecordAt(s'.arena, r) == RecordAt(s.arena, r)
  {
    ReachableHolds(c, s);
    if FreesInFlight(s, t) {
      UntouchedByFree(c, s, s', t);
    } else {
      UntouchedInOrder(c, s, s', t);
    }
  }

  lemma UntouchedInOrder(c: Config, s: System, s': System, t: ThreadId)
    requires ValidConfig(c) && SystemInv(c, s) && StepBy(c, s, s', t) && !FreesInFlight(s, t)
    ensures forall b :: BlockUndecided(s, b) && BlockUndecided(s', b) ==> HeaderAt(s'.arena, b) == HeaderAt(s.arena, b)
    ensures forall r :: RecordUndecided(s, r) && RecordUndecided(s', r) ==> RecordAt(s'.arena, r) == RecordAt(s.arena, r)
  {
    PrematureIsInFlight(c, s, t);
    assert Coupled(c, s.arena, t, ThreadAt(s, t));
    ThreadStepOk(c, s.arena, s'.arena, t, ThreadAt(s, t), ThreadAt(s', t));
    StepHolds(c, s, s', t);
    forall b | BlockUndecided(s, b) && BlockUndecided(s', b) ensures HeaderAt(s'.arena, b) == HeaderAt(s.arena, b) {
      UndecidedBlockUntouched(c, s, s', t, b);
    }
    forall r | RecordUndecided(s, r) && RecordUndecided(s', r) ensures RecordAt(s'.arena, r) == RecordAt(s.arena, r) {
      UndecidedRecordUntouched(c, s, s', t, r);
    }
  }

  /** A free, in flight or not, changes one record, and that one is IN_USE. */
  lemma UntouchedByFree(c: Config, s: System, s': System, t: ThreadId)
    requires ValidConfig(c) && SystemInv(c, s) && StepBy(c, s, s', t) && FreesInFlight(s, t)
    ensures s'.arena.headers == s.arena.headers
    ensures forall r :: RecordUndecided(s, r) ==> RecordAt(s'.arena, r) == RecordAt(s.arena, r)
  {
    var (a, th) := (s.arena, ThreadAt(s, t));
    FreeSteps(c, a, s'.arena, th, ThreadAt(s', t), t);
    PrematureIsInFlight(c, s, t);
    forall r | RecordUndecided(s, r) ensures RecordAt(s'.arena, r) == RecordAt(a, r) {
      var u := GrowingIsUndecided(c, s, r);
    }
  }

  lemma UndecidedBlockUntouched(c: Config, s: System, s': System, t: ThreadId, b: Address)
    requires ValidConfig(c) && SystemInv(c, s) && SystemInv(c, s') && StepBy(c, s, s', t) && OthersKept(s.arena, s'.arena, t)
    requires BlockUndecided(s, b) && BlockUndecided(s', b)
    ensures HeaderAt(s'.arena, b) == HeaderAt(s.arena, b)
  {
    var u :| CarvedAt(ThreadAt(s, u).pc) == Some((b, false));
    assert BlockMatches(s.arena, u, ThreadAt(s, u), b);
    if u != t {
      assert HolderKept(s.arena, s'.arena, t, b);
    } else {
      UndecidedStep(c, s.arena, s'.arena, ThreadAt(s, t), ThreadAt(s', t), t);
      UndecidedHasHeader(c, s', b);
    }
  }

  lemma UndecidedHasHeader(c: Config, s: System, b: Address)
    requires SystemInv(c, s) && BlockUndecided(s, b)
    ensures b in s.arena.headers
  {
    var u :| CarvedAt(ThreadAt(s, u).pc) == Some((b, false));
    assert BlockMatches(s.arena, u, ThreadAt(s, u), b);
  }

  /** The steps of a thread that has not decided: it keeps the block, gives it back or looks again. */
  lemma UndecidedStep(c: Config, a: Arena, a': Arena, th: Thread, th': Thread, t: ThreadId)
    requires ThreadStep(c, a, th, a', th', t) && th.pc.Cut? && (th.pc.cut.CarveRecheck? || th.pc.cut.CarveUndo?)
    ensures a'.headers == a.headers || a'.headers == a.headers - {th.pc.cut.word.frontier}
  {
    if SearchStep(c, a, th, a', th', t) { assert false; }
    else if RecycleStep(c, a, th, a', th', t) { assert false; }
    else if ReserveStep(c, a, th, a', th', t) { assert false; }
    else if BindStep(c, a, th, a', th', t) { assert false; }
    else if FreeStep(c, a, th, a', th', t) { assert false; }
    else if WindowStep(c, a, th, a', th', t) { assert false; }
    else if WalkStep(c, a, th, a', th', t) { assert false; }
    else if TrimStep(c, a, th, a', th', t) { assert false; }
  }

  lemma UndecidedRecordUntouched(c: Config, s: System, s': System, t: ThreadId, r: RecordIndex)
    requires ValidConfig(c) && SystemInv(c, s) && SystemInv(c, s') && StepBy(c, s, s', t) && OthersKept(s.arena, s'.arena, t)
    requires RecordUndecided(s, r) && RecordUndecided(s', r)
    ensures RecordAt(s'.arena, r) == RecordAt(s.arena, r)
  {
    var u := GrowingIsUndecided(c, s, r);
    var v := GrowingIsUndecided(c, s', r);
    if u == t {
      GrowingUntouched(c, s.arena, s'.arena, ThreadAt(s, t), ThreadAt(s', t), t, r);
    } else {
      OthersGrowingUntouched(s.arena, s'.arena, t, u, r);
    }
  }

  lemma OthersGrowingUntouched(a: Arena, a': Arena, t: ThreadId, u: ThreadId, r: RecordIndex)
    requires OthersKept(a, a', t) && u != t && r in a.owners && a.owners[r] == Held(u, Growing)
    requires r in a.records && r in a'.records
    ensures RecordAt(a', r) == RecordAt(a, r)
  {
    assert OwnerKept(a, a', t, r);
  }

  lemma GrowingUntouched(c: Config, a: Arena, a': Arena, th: Thread, th': Thread, t: ThreadId, r: RecordIndex)
    requires ThreadStep(c, a, th, a', th', t) && r in a.records && r in a'.records
    requires HeldBy(th, r) == Some(Growing) && !(th.job.Alloc? && th.job.reservation.WithRecord?)
    requires th.pc.Recycle? && th.pc.recycle.StoreFree? ==> !th.pc.recycle.phase.Growing?
    ensures RecordAt(a', r) == RecordAt(a, r)
  {
    GrowingAtPc(th, r);
    GrowingStep(c, a, a', th, th', t, r);
  }

  lemma GrowingAtPc(th: Thread, r: RecordIndex)
    requires HeldBy(th, r) == Some(Growing) && !(th.job.Alloc? && th.job.reservation.WithRecord?)
    requires th.pc.Recycle? && th.pc.recycle.StoreFree? ==> !th.pc.recycle.phase.Growing?
    ensures th.pc.Reserve? && (th.pc.reserve.GrowRecheck? || th.pc.reserve.GrowUndo?) && th.pc.reserve.count == r
  {}

  lemma GrowingIsUndecided(c: Config, s: System, r: RecordIndex) returns (u: ThreadId)
    requires SystemInv(c, s) && RecordUndecided(s, r)
    ensures HeldBy(ThreadAt(s, u), r) == Some(Growing) && !(ThreadAt(s, u).job.Alloc? && ThreadAt(s, u).job.reservation.WithRecord?)
    ensures ThreadAt(s, u).pc.Recycle? && ThreadAt(s, u).pc.recycle.StoreFree? ==> !ThreadAt(s, u).pc.recycle.phase.Growing?
    ensures r in s.arena.owners && s.arena.owners[r] == Held(u, Growing)
    ensures r in s.arena.records
  {
    u :| HeldBy(ThreadAt(s, u), r) == Some(Growing);
    assert RecordMatches(s.arena, u, ThreadAt(s, u), r);
    assert RecordOk(c, s.arena, r);
  }

  lemma GrowingStep(c: Config, a: Arena, a': Arena, th: Thread, th': Thread, t: ThreadId, r: RecordIndex)
    requires ThreadStep(c, a, th, a', th', t)
    requires th.pc.Reserve? && (th.pc.reserve.GrowRecheck? || th.pc.reserve.GrowUndo?) && th.pc.reserve.count == r
    ensures a'.records == a.records || a'.records == a.records - {r}
  {
    if SearchStep(c, a, th, a', th', t) { assert false; }
    else if RecycleStep(c, a, th, a', th', t) { assert false; }
    else if CutStep(c, a, th, a', th', t) { assert false; }
    else if BindStep(c, a, th, a', th', t) { assert false; }
    else if FreeStep(c, a, th, a', th', t) { assert false; }
    else if WindowStep(c, a, th, a', th', t) { assert false; }
    else if WalkStep(c, a, th, a', th', t) { assert false; }
    else if TrimStep(c, a, th, a', th', t) { assert false; }
    else if th.pc.reserve.GrowRecheck? { assert GrowRecheckStep(c, a, th, a', th', t); }
  }
}
