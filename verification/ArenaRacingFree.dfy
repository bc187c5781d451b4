/**
  Why the runs must be orderly.  The client frees a block twice, and the second free meets the allocation
  that reuses the block between its store of IN_USE and its return: the code accepts that free, and then
  returns a block that is on its way to the next allocation.
 */
module ArenaRacingFree {
  import opened Wrappers
  import opened ArenaState
  import opened ArenaOps
  import opened ArenaThreads
  import opened ArenaCoupling
  import opened ArenaSearchSteps
  import opened ArenaSafety
  import opened ArenaHistory
  import opened ArenaProgress
  import opened ArenaReclamation

  /** Record 0 says that the block at 0 is in use, and the block's header leads to it. */
  predicate InUseAtZero(a: Arena) {
    && a.count > 0 && 0 in a.records && 0 in a.headers && a.headers[0].metadataIndex == 0
    && a.records[0].word.state.InUse? && a.records[0].word.block == Some(0)
  }

  /** There is room for a block for `bytes` and three records, but not for a block for `more` bytes behind it. */
  predicate Tight(c: Config, bytes: nat, more: nat) {
    && ValidRequest(c, bytes) && ValidRequest(c, more) && c.managerCapacity > 0
    && var (size, next) := (SizeFor(c, bytes), SizeFor(c, more));
    && size + 3 < c.metadataStart <= size + next + 3
  }

  ghost predicate NobodyBinds(s: System) {
    forall u {:trigger ThreadAt(s, u)} :: !ThreadAt(s, u).pc.Bind?
  }

  lemma Advance(c: Config, s: System, t: ThreadId, a': Arena, th': Thread) returns (s': System)
    requires OrderlyReachable(c, s) && ThreadStep(c, s.arena, ThreadAt(s, t), a', th', t) && !FreesInFlight(s, t)
    ensures OrderlyReachable(c, s') && s'.arena == a' && ThreadAt(s', t) == th' && OnlyMoves(s, s', t)
  {
    AllAreClosed(c, t);
    s' := ArenaProgress.Advance(c, AllStates(c), s, t, a', th');
  }

  // ----- an allocation that fails at the frontier, and so opens maintenance windows -----

  /** The region has n records, all of them in use, and room for one more. */
  predicate RecordsInUse(c: Config, a: Arena, n: nat) {
    && a.count == n && 0 < n < 3 && a.frontier < c.metadataStart - (n + 1)
    && c.managerCapacity > 0 && |a.managers| > 0 && a.managers[0].trimmer.NotTrimming?
    && a.managers[0].activeCount == n && a.managers[0].freeList == {}
  }

  /** a' is a but for record n, which is new and in the hands of thread t. */
  predicate OnlyGrows(a: Arena, a': Arena, t: ThreadId, n: nat) {
    && a' == a.(count := n + 1, records := a'.records, owners := a.owners[n := Held(t, Reserved)], managers := a'.managers)
    && n in a'.records && a'.records == a.records[n := a'.records[n]]
    && |a'.managers| == |a.managers| > 0 && a'.managers[0].trimmer.NotTrimming?
    && a'.managers[0].activeCount == n + 1 && a'.managers[0].freeList == {}
  }

  lemma GrownOnlyGrows(c: Config, a: Arena, t: ThreadId, n: nat)
    requires RecordsInUse(c, a, n)
    ensures CanGrow(c, a) && OnlyGrows(a, Grown(a, t), t, n)
    ensures forall k: nat :: k * RECORDS_PER_BLOCK < n ==> !HasFreeRecord(a, k)
  {}

  /** do_allocate finds no block and no room at the frontier: it is about to open a maintenance window. */
  lemma FailsAtFrontier(c: Config, s: System, t: ThreadId, bytes: nat, n: nat) returns (s': System)
    requires ValidConfig(c) && OrderlyReachable(c, s) && ThreadAt(s, t) == Idle && RecordsInUse(c, s.arena, n) && ValidRequest(c, bytes)
    requires s.arena.frontier + c.classSizes[BinIndex(c, UnitsFor(bytes))] + n + 2 >= c.metadataStart
    ensures OrderlyReachable(c, s') && OnlyGrows(s.arena, s'.arena, t, n) && OnlyMoves(s, s', t)
    ensures ThreadAt(s', t) == Thread(Request(c, bytes, WithRecord(n, 0)), Ready)
  {
    AllAreClosed(c, t);
    GrownOnlyGrows(c, s.arena, t, n);
    s' := SeeksRecord(c, AllStates(c), s, t, bytes);
    s' := ReachesGrowth(c, AllStates(c), s', t, Request(c, bytes, NoRecord));
    s' := GrowsRegion(c, AllStates(c), s', t, bytes);
    var (a, th, job) := (s'.arena, ThreadAt(s', t), Request(c, bytes, WithRecord(n, 0)));
    var th1 := Thread(job, Cut(CheckCount(WordOf(a))));
    assert LoadFrontierStep(c, a, th, a, th1);
    s' := Advance(c, s', t, a, th1);
    var th2 := Thread(job, Ready);
    assert CheckCountStep(c, a, th1, a, th2);
    s' := Advance(c, s', t, a, th2);
  }

  /** With nothing pending it searches once more, flushes everything, and its walk holds the flag. */
  lemma RaisesFlag(c: Config, s: System, t: ThreadId, bytes: nat, m: RecordIndex) returns (s': System)
    requires OrderlyReachable(c, s) && s.arena.flag.Down? && s.arena.pendingList == {} && s.arena.bins == {}
    requires ThreadAt(s, t) == Thread(Request(c, bytes, WithRecord(m, 0)), Ready)
    ensures OrderlyReachable(c, s') && s'.arena == s.arena.(flag := Up(t, NoClaim)) && OnlyMoves(s, s', t)
    ensures !ThreadAt(s', t).pc.Bind?
  {
    var (a, th) := (s.arena, ThreadAt(s, t));
    var th1 := Thread(Request(c, bytes, WithRecord(m, 0)), Search(PopNext));
    assert ReadyStep(c, a, th, a, th1);
    s' := Advance(c, s, t, a, th1);
    var job := Request(c, bytes, WithRecord(m, 1));
    var th2 := Thread(job, Ready);
    assert PopNextStep(c, a, th1, a, th2, t);
    s' := Advance(c, s', t, a, th2);
    var th3 := Thread(job, Steal);
    assert ReadyStep(c, a, th2, a, th3);
    s' := Advance(c, s', t, a, th3);
    var th4 := Thread(job, Walk(RaiseForWalk));
    assert StealStep(c, a, th3, a, th4, t);
    s' := Advance(c, s', t, a, th4);
    var (a5, th5) := (a.(flag := Up(t, NoClaim)), Thread(job, Walk(LoadForWalk)));
    assert RaiseForWalkStep(c, a, th4, a5, th5, t);
    s' := Advance(c, s', t, a5, th5);
  }

  // ----- a window that finds the flag raised -----

  function Published(c: Config, a: Arena, t: ThreadId): Arena {
    var a1 := StealPending(a, t, {0});
    var a2 := SetWord(a1, 0, RecordAt(a1, 0).word.WithState(Available), Held(t, Loose));
    PushBin(a2, BinIndex(c, RecordAt(a2, 0).totalSize), 0)
  }

  /** A window that finds the flag raised publishes the block to its bin. */
  lemma Publishes(c: Config, s: System, t: ThreadId, job: Job) returns (s': System)
    requires OrderlyReachable(c, s) && job.Alloc? && ThreadAt(s, t) == Thread(job, Ready)
    requires s.arena.pendingList == {0} && s.arena.flag.Up? && RecordAt(s.arena, 0).word.state.DeallocatedPending?
    ensures OrderlyReachable(c, s') && s'.arena == Published(c, s.arena, t) && OnlyMoves(s, s', t)
  {
    var (a, th) := (s.arena, ThreadAt(s, t));
    var th1 := Thread(job, Steal);
    assert ReadyStep(c, a, th, a, th1);
    s' := Advance(c, s, t, a, th1);
    var (a2, th2) := (StealPending(a, t, {0}), Thread(job, Window({0}, {}, Collect)));
    assert StealStep(c, a, th1, a2, th2, t);
    s' := Advance(c, s', t, a2, th2);
    var th3 := Thread(job, Window({}, {0}, RaiseForBatch));
    assert {0} - {0} == {};
    assert CollectStep(c, a2, th2, a2, th3);
    s' := Advance(c, s', t, a2, th3);
    var th4 := Thread(job, Window({}, {0}, PublishNext));
    assert RaiseForBatchStep(c, a2, th3, a2, th4, t);
    s' := Advance(c, s', t, a2, th4);
    var a5 := SetWord(a2, 0, RecordAt(a2, 0).word.WithState(Available), Held(t, Loose));
    var th5 := Thread(job, Window({}, {}, PushPublished(0)));
    assert PublishOne(a2, th4, a5, th5, t, 0);
    assert PublishNextStep(c, a2, th4, a5, th5, t);
    s' := Advance(c, s', t, a5, th5);
    var (a6, th6) := (PushBin(a5, BinIndex(c, RecordAt(a5, 0).totalSize), 0), Thread(job, Window({}, {}, PublishNext)));
    assert PushPublishedStep(c, a5, th5, a6, th6);
    s' := Advance(c, s', t, a6, th6);
  }

  /** Thread 0 has been given the block. */
  lemma AllocatedOnce(c: Config, bytes: nat, more: nat) returns (s: System)
    requires ValidConfig(c) && Tight(c, bytes, more)
    ensures OrderlyReachable(c, s) && AllIdle(s)
    ensures InUseAtZero(s.arena) && s.arena.records[0].totalSize == s.arena.frontier == SizeFor(c, bytes)
    ensures RecordsInUse(c, s.arena, 1) && s.arena.flag.Down? && s.arena.pendingList == {} && s.arena.bins == {}
  {
    s := AloneAllocates(c, bytes);
  }

  /** The block at 0 is of the right class, and all records are in use. */
  predicate Setting(c: Config, a: Arena, bytes: nat, n: nat) {
    && ValidRequest(c, bytes) && RecordsInUse(c, a, n) && 0 in a.records && 0 in a.headers && a.headers[0].metadataIndex == 0
    && a.records[0].totalSize == a.frontier == c.classSizes[BinIndex(c, UnitsFor(bytes))] && a.records[0].word.block == Some(0)
  }

  /** Thread 2 fails to allocate, and holds the flag. */
  lemma FlagIsUp(c: Config, bytes: nat, more: nat) returns (s: System)
    requires ValidConfig(c) && Tight(c, bytes, more)
    ensures OrderlyReachable(c, s) && NobodyBinds(s) && (forall u :: u != 2 ==> ThreadAt(s, u) == Idle)
    ensures InUseAtZero(s.arena) && Setting(c, s.arena, bytes, 2) && s.arena.flag.Up? && s.arena.pendingList == {}
  {
    s := AllocatedOnce(c, bytes, more);
    s := FailsAtFrontier(c, s, 2, more, 1);
    s := RaisesFlag(c, s, 2, more, 1);
  }

  /** Thread 0 has freed the block. */
  lemma FreedOnce(c: Config, bytes: nat, more: nat) returns (s: System)
    requires ValidConfig(c) && Tight(c, bytes, more)
    ensures OrderlyReachable(c, s) && (forall u :: u != 2 ==> ThreadAt(s, u) == Idle)
    ensures Setting(c, s.arena, bytes, 2) && s.arena.flag.Up? && s.arena.pendingList == {0}
    ensures s.arena.records[0].word.state.DeallocatedPending?
  {
    s := FlagIsUp(c, bytes, more);
    AllAreClosed(c, 0);
    s := ReadsForFree(c, AllStates(c), s, 0, 0, 0);
    s := Frees(c, AllStates(c), s, 0, 0, 0);
  }

  /** Thread 4 fails to allocate, and its window publishes the block to its bin. */
  lemma Recycled(c: Config, bytes: nat, more: nat, k: nat) returns (s: System)
    requires ValidConfig(c) && Tight(c, bytes, more) && k == BinIndex(c, UnitsFor(bytes))
    ensures OrderlyReachable(c, s) && ThreadAt(s, 1) == Idle && ThreadAt(s, 3) == Idle && s.arena.count > 0
    ensures 0 in s.arena.records && s.arena.records[0].word.state.Available? && s.arena.records[0].word.block == Some(0)
    ensures 0 in s.arena.headers && s.arena.headers[0].metadataIndex == 0 && BinEntry(k, 0) in s.arena.bins
  {
    s := FreedOnce(c, bytes, more);
    s := FailsAtFrontier(c, s, 4, more, 2);
    SizeOfClass(c, k);
    s := Publishes(c, s, 4, Request(c, more, WithRecord(2, 0)));
  }

  /** The block is being allocated again, by thread 1, when thread 3 frees it again. */
  lemma SecondFree(c: Config, bytes: nat, more: nat) returns (s: System)
    requires ValidConfig(c) && Tight(c, bytes, more)
    ensures OrderlyReachable(c, s) && InUseAtZero(s.arena)
    ensures ThreadAt(s, 1) == Thread(Alloc(bytes, BinIndex(c, UnitsFor(bytes)), NoRecord), Bind(0, 0, StoreSize))
    ensures ThreadAt(s, 3) == Thread(NoJob, Free(AcceptCas(0, 0, s.arena.records[0].word)))
  {
    var k := BinIndex(c, UnitsFor(bytes));
    s := Recycled(c, bytes, more, k);
    AllAreClosed(c, 1);
    AllAreClosed(c, 3);
    s := ClaimsBlock(c, AllStates(c), s, 1, bytes, 0, 0);
    s := StoresInUse(c, AllStates(c), s, 1, Alloc(bytes, k, NoRecord), 0, 0, false);
    s := ReadsForFree(c, AllStates(c), s, 3, 0, 0);
  }

  /**
    In any arena that has room for a block but not for some other request behind it, an orderly run leads
    to a state in which the next step accepts a free of a block that the client does not have.
   */
  lemma RacingFreeIsAccepted(c: Config, bytes: nat, more: nat) returns (s: System, s': System)
    requires ValidConfig(c) && Tight(c, bytes, more)
    ensures OrderlyReachable(c, s) && StepBy(c, s, s', 3) && FreesInFlight(s, 3)
    ensures Accepts(s, s', 3, 0) && 0 !in s.arena.live
  {
    s := SecondFree(c, bytes, more);
    assert AllocatesAt(ThreadAt(s, 1).pc, 0);
    var (a', th') := (AcceptFree(s.arena, 3, 0, 0), Thread(NoJob, Free(StorePending(0))));
    assert AcceptCasStep(c, s.arena, ThreadAt(s, 3), a', th', 3);
    s' := System(a', s.threads[3 := th']);
    AcceptsOnlyLive(c, s, s', 3, 0);
  }

  // ----- and after that -----

  lemma Continue(c: Config, s: System, t: ThreadId, a': Arena, th': Thread) returns (s': System)
    requires Reachable(c, s) && ThreadStep(c, s.arena, ThreadAt(s, t), a', th', t)
    ensures Reachable(c, s') && s'.arena == a' && ThreadAt(s', t) == th' && OnlyMoves(s, s', t)
  {
    s' := System(a', s.threads[t := th']);
    var run, k :| IsRun(c, run) && 0 <= k < |run| && run[k] == s;
    var run' := run[..k + 1] + [s'];
    assert StepBy(c, s, s', t);
    forall i: nat | i + 1 < |run'| ensures NextAt(c, run', i) {
      if i < k {
        assert NextAt(c, run, i);
      }
    }
    assert IsRun(c, run') && run'[k + 1] == s';
  }

  /** Thread 3 puts the block on the pending list. */
  lemma GoesPending(c: Config, s: System) returns (s': System)
    requires Reachable(c, s) && InUseAtZero(s.arena)
    requires ThreadAt(s, 3) == Thread(NoJob, Free(AcceptCas(0, 0, s.arena.records[0].word)))
    ensures Reachable(c, s') && s'.arena == FreedBlock(s.arena, 3, 0, 0) && OnlyMoves(s, s', 3)
  {
    var (a, th) := (s.arena, ThreadAt(s, 3));
    var (a1, th1) := (AcceptFree(a, 3, 0, 0), Thread(NoJob, Free(StorePending(0))));
    assert AcceptCasStep(c, a, th, a1, th1, 3);
    s' := Continue(c, s, 3, a1, th1);
    var a2 := SetWord(a1, 0, RecordAt(a1, 0).word.WithState(DeallocatedPending), Held(3, Queued));
    var th2 := Thread(NoJob, Free(PushPendingList(0)));
    assert StorePendingStep(c, a1, th1, a2, th2, 3);
    s' := Continue(c, s', 3, a2, th2);
    var a3 := PushPending(a2, 0);
    assert PushPendingStep(c, a2, th2, a3, Idle);
    s' := Continue(c, s', 3, a3, Idle);
  }

  /** Thread 1 returns the block regardless. */
  lemma IsReturned(c: Config, s: System, job: Job) returns (s': System)
    requires Reachable(c, s) && ThreadAt(s, 1) == Thread(job, Bind(0, 0, StoreSize)) && job.Alloc?
    ensures Reachable(c, s') && s'.arena.pendingList == s.arena.pendingList && s'.arena.live == s.arena.live[0 := job.bytes]
    ensures RecordAt(s'.arena, 0).word == RecordAt(s.arena, 0).word
  {
    var (a, th) := (s.arena, ThreadAt(s, 1));
    var (a1, th1) := (SetTotalSize(a, 0, HeaderAt(a, 0).size, Held(1, Filled)), Thread(job, Bind(0, 0, Return)));
    assert StoreSizeStep(c, a, th, a1, th1, 1);
    s' := Continue(c, s, 1, a1, th1);
    var a2 := ReturnBlock(a1, 0, 0, job.bytes);
    assert ReturnStep(c, a1, th1, a2, Idle);
    s' := Continue(c, s', 1, a2, Idle);
  }

  /**
    So without the client's discipline the safety of live blocks is lost: a run leads to a state in which
    the client has a block that is DEALLOCATED_PENDING, on the list of blocks to be handed out again.
   */
  lemma LiveBlockIsPending(c: Config, bytes: nat, more: nat) returns (s: System)
    requires ValidConfig(c) && Tight(c, bytes, more)
    ensures Reachable(c, s) && 0 in s.arena.live
    ensures 0 in s.arena.pendingList && RecordAt(s.arena, 0).word.state.DeallocatedPending? && RecordAt(s.arena, 0).word.block == Some(0)
  {
    s := SecondFree(c, bytes, more);
    s := GoesPending(c, s);
    s := IsReturned(c, s, Alloc(bytes, BinIndex(c, UnitsFor(bytes)), NoRecord));
  }
}
