/**
  The machine does reclaim.  A thread on its own frees any block that the client has; and from any state
  between calls of an orderly run, one thread that runs a maintenance window rolls the frontier back to the
  client's last block, through the steps of the concurrent program.
 */
module ArenaReclamation {
  import opened Wrappers
  import opened ArenaState
  import opened ArenaOps
  import opened ArenaInvariant
  import opened ArenaChain
  import opened ArenaRecordOps
  import opened ArenaRegionOps
  import opened ArenaManagerOps
  import opened ArenaThreads
  import opened ArenaCoupling
  import opened ArenaSafety
  import opened ArenaProgress
  import opened ArenaMaintenance

  // ----- freeing -----

  function FreedBlock(a: Arena, t: ThreadId, b: Address, m: RecordIndex): Arena {
    var a1 := AcceptFree(a, t, m, b);
    PushPending(SetWord(a1, m, RecordAt(a1, m).word.WithState(DeallocatedPending), Held(t, Queued)), m)
  }

  /** do_try_deallocate(b), up to the CAS. */
  lemma ReadsForFree(c: Config, states: iset<System>, s: System, t: ThreadId, b: Address, m: RecordIndex) returns (s': System)
    requires Closed(c, states, t) && s in states && ThreadAt(s, t) == Idle && b in s.arena.headers && m == s.arena.headers[b].metadataIndex
    requires m < s.arena.count && RecordAt(s.arena, m).word.state.InUse? && RecordAt(s.arena, m).word.block == Some(b)
    ensures s' in states && s'.arena == s.arena && OnlyMoves(s, s', t)
    ensures ThreadAt(s', t) == Thread(NoJob, Free(AcceptCas(b, m, RecordAt(s.arena, m).word)))
  {
    var a := s.arena;
    var th1 := Thread(NoJob, Free(ReadIndex(b)));
    assert ReadyStep(c, a, Idle, a, th1);
    s' := Advance(c, states, s, t, a, th1);
    var th2 := Thread(NoJob, Free(CheckIndex(b, m)));
    assert ReadIndexStep(c, a, th1, a, th2);
    s' := Advance(c, states, s', t, a, th2);
    var th3 := Thread(NoJob, Free(ReadWord(b, m)));
    assert CheckIndexStep(c, a, th2, a, th3);
    s' := Advance(c, states, s', t, a, th3);
    var th4 := Thread(NoJob, Free(AcceptCas(b, m, RecordAt(a, m).word)));
    assert ReadWordStep(c, a, th3, a, th4);
    s' := Advance(c, states, s', t, a, th4);
  }

  /** The rest of do_try_deallocate(b), in order. */
  lemma Frees(c: Config, states: iset<System>, s: System, t: ThreadId, b: Address, m: RecordIndex) returns (s': System)
    requires Closed(c, states, t) && s in states && !InFlight(s, b)
    requires ThreadAt(s, t) == Thread(NoJob, Free(AcceptCas(b, m, RecordAt(s.arena, m).word)))
    ensures s' in states && s'.arena == FreedBlock(s.arena, t, b, m) && OnlyMoves(s, s', t) && ThreadAt(s', t) == Idle
  {
    var (a, th) := (s.arena, ThreadAt(s, t));
    var (a1, th1) := (AcceptFree(a, t, m, b), Thread(NoJob, Free(StorePending(m))));
    assert AcceptCasStep(c, a, th, a1, th1, t);
    s' := Advance(c, states, s, t, a1, th1);
    var a2 := SetWord(a1, m, RecordAt(a1, m).word.WithState(DeallocatedPending), Held(t, Queued));
    var th2 := Thread(NoJob, Free(PushPendingList(m)));
    assert StorePendingStep(c, a1, th1, a2, th2, t);
    s' := Advance(c, states, s', t, a2, th2);
    var a3 := PushPending(a2, m);
    assert PushPendingStep(c, a2, th2, a3, Idle);
    s' := Advance(c, states, s', t, a3, Idle);
  }

  lemma LiveIsNotInFlight(c: Config, s: System, b: Address)
    requires ValidConfig(c) && OrderlyReachable(c, s) && b in s.arena.live
    ensures !InFlight(s, b)
  {
    ReachableHolds(c, s);
    assert LiveBlockOk(s.arena, b);
    forall u ensures !AllocatesAt(ThreadAt(s, u).pc, b) {
      if AllocatesAt(ThreadAt(s, u).pc, b) {
        var m := ThreadAt(s, u).pc.m;
        assert m in s.arena.records ==> RecordOk(c, s.arena, m);
        AllocatingRecord(c, s, u, b);
        assert false;
      }
    }
  }

  /** What the free of the block at b leaves: the client no longer has it, and its record m waits on the pending list. */
  predicate Freed(a: Arena, a': Arena, b: Address, m: RecordIndex) {
    && a'.live == a.live - {b} && a'.pendingList == a.pendingList + {m} && a'.chain == a.chain && a'.frontier == a.frontier
    && RecordAt(a', m).word.state.DeallocatedPending? && RecordAt(a', m).word.block == Some(b)
  }

  lemma FreesLive(c: Config, states: iset<System>, s: System, t: ThreadId, b: Address) returns (s': System, m: RecordIndex)
    requires ValidConfig(c) && Closed(c, states, t) && s in states && ThreadAt(s, t) == Idle && b in s.arena.live
    ensures s' in states && ThreadAt(s', t) == Idle && OnlyMoves(s, s', t) && Freed(s.arena, s'.arena, b, m)
  {
    LiveBlockCanBeFreed(c, s, b);
    LiveIsNotInFlight(c, s, b);
    m := s.arena.headers[b].metadataIndex;
    s' := ReadsForFree(c, states, s, t, b, m);
    assert !InFlight(s', b) by {
      forall u ensures !AllocatesAt(ThreadAt(s', u).pc, b) {}
    }
    s' := Frees(c, states, s', t, b, m);
  }

  /** A thread on its own frees any block that the client has: the call accepts it and queues its record. */
  lemma FreesBlock(c: Config, s: System, t: ThreadId, b: Address) returns (s': System, m: RecordIndex)
    requires ValidConfig(c) && OrderlyReachable(c, s) && ThreadAt(s, t) == Idle && b in s.arena.live
    ensures OrderlyReachable(c, s') && Leads(c, s, s', t) && ThreadAt(s', t) == Idle && OnlyMoves(s, s', t)
    ensures Freed(s.arena, s'.arena, b, m)
  {
    ReachedIsClosed(c, s, t);
    s', m := FreesLive(c, Reached(c, s, t), s, t, b);
  }

  // ----- the blocks a window leaves alone -----

  /** Blocks are taken off the top only: below the new frontier the chain is as it was. */
  ghost predicate KeepsBelow(a: Arena, a': Arena) {
    && a'.frontier <= a.frontier
    && forall b {:trigger b in a'.chain} {:trigger a'.chain[b]} :: b in a.chain && b < a'.frontier ==> b in a'.chain && a'.chain[b] == a.chain[b]
  }

  lemma KeepsThrough(a: Arena, a1: Arena, a2: Arena)
    requires KeepsBelow(a, a1) && KeepsBelow(a1, a2)
    ensures KeepsBelow(a, a2)
  {
    forall b | b in a.chain && b < a2.frontier ensures b in a2.chain && a2.chain[b] == a.chain[b] {
      assert b in a1.chain;
    }
  }

  // ----- the batch of a window -----

  function InBatch(batch: set<RecordIndex>, pc: WindowPc): Thread {
    Thread(NoJob, Window({}, batch, pc))
  }

  /** The entry's claim and the roll-back over its block. */
  lemma RollsOver(c: Config, states: iset<System>, s: System, batch: set<RecordIndex>, m: RecordIndex) returns (s': System)
    requires Closed(c, states, ME) && s in states && ThreadAt(s, ME) == InBatch(batch, ScanBatch) && m in batch && EndsAt(s.arena, m, s.arena.frontier)
    ensures s' in states && OnlyMoves(s, s', ME)
    ensures s'.arena == RollOver(ClaimForBatch(s.arena, m), m, RecordAt(s.arena, m).word.block.GetOr(0))
    ensures ThreadAt(s', ME) == Thread(NoJob, Recycle(m, ThenScan({}, batch - {m}), StoreFree(Rolling)))
  {
    var (a, word) := (s.arena, WordOf(s.arena));
    var th1 := InBatch(batch, PickCandidate(word));
    assert ScanBatchStep(c, a, ThreadAt(s, ME), a, th1);
    s' := Advance(c, states, s, ME, a, th1);
    var th2 := InBatch(batch, ClaimCandidate(word, m));
    assert PickCandidateStep(c, a, th1, a, th2);
    s' := Advance(c, states, s', ME, a, th2);
    var (a3, th3) := (ClaimForBatch(a, m), InBatch(batch - {m}, RollBatch(word, m)));
    assert ClaimCandidateStep(c, a, th2, a3, th3, ME);
    s' := Advance(c, states, s', ME, a3, th3);
    var a4 := RollOver(a3, m, RecordAt(a, m).word.block.GetOr(0));
    var th4 := Thread(NoJob, Recycle(m, ThenScan({}, batch - {m}), StoreFree(Rolling)));
    assert RollBatchStep(c, a3, th3, a4, th4, ME);
    s' := Advance(c, states, s', ME, a4, th4);
  }

  lemma Recycles(c: Config, states: iset<System>, s: System, batch: set<RecordIndex>, m: RecordIndex) returns (s': System)
    requires Closed(c, states, ME) && s in states && ThreadAt(s, ME) == Thread(NoJob, Recycle(m, ThenScan({}, batch), StoreFree(Rolling)))
    ensures s' in states && OnlyMoves(s, s', ME) && ThreadAt(s', ME) == InBatch(batch, ScanBatch)
    ensures s'.arena == ReleaseSlot(PushFreeRecord(StoreFreeState(s.arena, m), ME, m), ME, ManagerOf(m))
  {
    var (a, next) := (s.arena, ThenScan({}, batch));
    var (a1, th1) := (StoreFreeState(a, m), Thread(NoJob, Recycle(m, next, PushFree)));
    assert StoreFreeStep(c, a, ThreadAt(s, ME), a1, th1, ME);
    s' := Advance(c, states, s, ME, a1, th1);
    var (a2, th2) := (PushFreeRecord(a1, ME, m), Thread(NoJob, Recycle(m, next, ReleaseManager)));
    assert PushFreeStep(c, a1, th1, a2, th2, ME);
    s' := Advance(c, states, s', ME, a2, th2);
    var (a3, th3) := (ReleaseSlot(a2, ME, ManagerOf(m)), InBatch(batch, ScanBatch));
    assert ReleaseManagerStep(c, a2, th2, a3, th3, ME);
    s' := Advance(c, states, s', ME, a3, th3);
  }

  lemma EndsRollBack(c: Config, states: iset<System>, s: System, batch: set<RecordIndex>) returns (s': System)
    requires Closed(c, states, ME) && s in states && ThreadAt(s, ME) == InBatch(batch, ScanBatch)
    requires forall m :: m in batch ==> !EndsAt(s.arena, m, s.arena.frontier)
    ensures s' in states && OnlyMoves(s, s', ME) && ThreadAt(s', ME) == InBatch(batch, PublishNext)
    ensures s'.arena == s.arena.(flag := Down)
  {
    var a := s.arena;
    var th1 := InBatch(batch, PickCandidate(WordOf(a)));
    assert ScanBatchStep(c, a, ThreadAt(s, ME), a, th1);
    s' := Advance(c, states, s, ME, a, th1);
    var th2 := InBatch(batch, LowerAfterBatch);
    assert PickCandidateStep(c, a, th1, a, th2);
    s' := Advance(c, states, s', ME, a, th2);
    var (a3, th3) := (a.(flag := Down), InBatch(batch, PublishNext));
    assert LowerAfterBatchStep(c, a, th2, a3, th3);
    s' := Advance(c, states, s', ME, a3, th3);
  }

  /** One entry that ends at the frontier: rolled back over, and its record on the free list. */
  lemma RollsEntry(c: Config, states: iset<System>, s: System, batch: set<RecordIndex>, m: RecordIndex) returns (s': System)
    requires Closed(c, states, ME) && s in states && ThreadAt(s, ME) == InBatch(batch, ScanBatch) && Working(c, s.arena, batch) && s.arena.flag.Up?
    requires m in batch && EndsAt(s.arena, m, s.arena.frontier)
    ensures s' in states && OnlyMoves(s, s', ME) && ThreadAt(s', ME) == InBatch(batch - {m}, ScanBatch)
    ensures Working(c, s'.arena, batch - {m}) && SameForClient(s.arena, s'.arena)
    ensures s'.arena.frontier < s.arena.frontier && KeepsBelow(s.arena, s'.arena)
  {
    RollsBackToEntry(c, s.arena, batch, m);
    s' := RollsOver(c, states, s, batch, m);
    s' := Recycles(c, states, s', batch - {m}, m);
    EntryKeepsBelow(s.arena, m);
  }

  lemma EntryKeepsBelow(a: Arena, m: RecordIndex)
    requires EndsAt(a, m, a.frontier)
    ensures KeepsBelow(a, RollBatchEntry(a, m))
  {}

  lemma WalkKeepsBelow(a: Arena, m: RecordIndex, b: Address)
    requires b <= a.frontier
    ensures KeepsBelow(a, WalkOver(a, m, b))
  {}

  /** reclaim_pending_frontier_batch */
  lemma {:induction false} RollsBack(c: Config, states: iset<System>, s: System, batch: set<RecordIndex>) returns (s': System, left: set<RecordIndex>)
    requires Closed(c, states, ME) && s in states && ThreadAt(s, ME) == InBatch(batch, ScanBatch)
    requires Working(c, s.arena, batch) && s.arena.flag.Up?
    ensures s' in states && OnlyMoves(s, s', ME) && ThreadAt(s', ME) == InBatch(left, PublishNext)
    ensures Working(c, s'.arena, left) && s'.arena.flag.Down?
    ensures s'.arena.live == s.arena.live && s'.arena.pendingList == s.arena.pendingList && KeepsBelow(s.arena, s'.arena)
    decreases s.arena.frontier
  {
    if m :| m in batch && EndsAt(s.arena, m, s.arena.frontier) {
      s' := RollsEntry(c, states, s, batch, m);
      var a1 := s'.arena;
      s', left := RollsBack(c, states, s', batch - {m});
      KeepsThrough(s.arena, a1, s'.arena);
    } else {
      s' := EndsRollBack(c, states, s, batch);
      left := batch;
      SetFlagKeeps(c, s.arena, Down);
    }
  }

  lemma PublishesEntry(c: Config, states: iset<System>, s: System, batch: set<RecordIndex>, m: RecordIndex) returns (s': System)
    requires Closed(c, states, ME) && s in states && ThreadAt(s, ME) == InBatch(batch, PublishNext)
    requires m in batch && RecordAt(s.arena, m).word.state.DeallocatedPending?
    ensures s' in states && OnlyMoves(s, s', ME) && ThreadAt(s', ME) == InBatch(batch - {m}, PublishNext)
    ensures s'.arena == Publish(c, s.arena, m)
  {
    var a := s.arena;
    var a1 := SetWord(a, m, RecordAt(a, m).word.WithState(Available), Held(ME, Loose));
    var th1 := InBatch(batch - {m}, PushPublished(m));
    assert PublishOne(a, ThreadAt(s, ME), a1, th1, ME, m);
    assert PublishNextStep(c, a, ThreadAt(s, ME), a1, th1, ME);
    s' := Advance(c, states, s, ME, a1, th1);
    var (a2, th2) := (Publish(c, a, m), InBatch(batch - {m}, PublishNext));
    assert PushPublishedStep(c, a1, th1, a2, th2);
    s' := Advance(c, states, s', ME, a2, th2);
  }

  lemma {:induction false} PublishesAll(c: Config, states: iset<System>, s: System, batch: set<RecordIndex>) returns (s': System)
    requires Closed(c, states, ME) && s in states && ThreadAt(s, ME) == InBatch(batch, PublishNext) && Working(c, s.arena, batch)
    ensures s' in states && OnlyMoves(s, s', ME) && ThreadAt(s', ME) == InBatch({}, PublishNext)
    ensures Working(c, s'.arena, {}) && SameForClient(s.arena, s'.arena) && KeepsBelow(s.arena, s'.arena)
    decreases |batch|
  {
    if m :| m in batch {
      StolenBinds(c, s.arena, batch, m);
      ArenaMaintenance.Publishes(c, s.arena, batch, m);
      s' := PublishesEntry(c, states, s, batch, m);
      var a1 := s'.arena;
      s' := PublishesAll(c, states, s', batch - {m});
      KeepsThrough(s.arena, a1, s'.arena);
    } else {
      assert batch == {};
      s' := s;
    }
  }

  // ----- a window's pending list -----

  lemma StealsPending(c: Config, states: iset<System>, s: System) returns (s': System)
    requires Closed(c, states, ME) && s in states && ThreadAt(s, ME) == Thread(NoJob, Steal) && s.arena.pendingList != {} && s.arena.flag.Down?
    ensures s' in states && OnlyMoves(s, s', ME) && ThreadAt(s', ME) == InBatch(s.arena.pendingList, ScanBatch)
    ensures s'.arena == StealPending(s.arena, ME, s.arena.pendingList).(flag := Up(ME, NoClaim))
  {
    var (a, todo) := (s.arena, s.arena.pendingList);
    var (a1, th1) := (StealPending(a, ME, todo), Thread(NoJob, Window(todo, {}, Collect)));
    assert StealStep(c, a, ThreadAt(s, ME), a1, th1, ME);
    s' := Advance(c, states, s, ME, a1, th1);
    var th2 := InBatch(todo, RaiseForBatch);
    assert todo - todo == {};
    assert CollectStep(c, a1, th1, a1, th2);
    s' := Advance(c, states, s', ME, a1, th2);
    var (a3, th3) := (a1.(flag := Up(ME, NoClaim)), InBatch(todo, ScanBatch));
    assert RaiseForBatchStep(c, a1, th2, a3, th3, ME);
    s' := Advance(c, states, s', ME, a3, th3);
  }

  lemma EndsBatches(c: Config, states: iset<System>, s: System) returns (s': System)
    requires Closed(c, states, ME) && s in states && ThreadAt(s, ME) == InBatch({}, PublishNext)
    ensures s' in states && OnlyMoves(s, s', ME) && ThreadAt(s', ME) == Thread(NoJob, Steal) && s'.arena == s.arena
  {
    var (a, th1) := (s.arena, InBatch({}, Collect));
    assert PublishNextStep(c, a, ThreadAt(s, ME), a, th1, ME);
    s' := Advance(c, states, s, ME, a, th1);
    var th2 := Thread(NoJob, Steal);
    assert CollectStep(c, a, th1, a, th2);
    s' := Advance(c, states, s', ME, a, th2);
  }

  /** A state of the window between its parts: nothing is held, and the flag is down. */
  ghost predicate Between(c: Config, states: iset<System>, s: System, pc: Pc) {
    Closed(c, states, ME) && s in states && ThreadAt(s, ME) == Thread(NoJob, pc) && Working(c, s.arena, {}) && s.arena.flag.Down?
  }

  /** The window works off the pending list. */
  lemma WorksOffPending(c: Config, states: iset<System>, s: System) returns (s': System)
    requires Between(c, states, s, Steal)
    ensures Between(c, states, s', Steal) && OnlyMoves(s, s', ME) && s'.arena.live == s.arena.live && s'.arena.pendingList == {}
    ensures KeepsBelow(s.arena, s'.arena)
  {
    s' := s;
    if s.arena.pendingList != {} {
      var (a, todo) := (s.arena, s.arena.pendingList);
      StealPendingKeeps(c, a, ME, todo);
      SetFlagKeeps(c, StealPending(a, ME, todo), Up(ME, NoClaim));
      s' := StealsPending(c, states, s);
      var left;
      s', left := RollsBack(c, states, s', todo);
      var a1 := s'.arena;
      s' := PublishesAll(c, states, s', left);
      KeepsThrough(a, a1, s'.arena);
      s' := EndsBatches(c, states, s');
    }
  }

  // ----- the walk -----

  lemma StartsWalk(c: Config, states: iset<System>, s: System) returns (s': System)
    requires Closed(c, states, ME) && s in states && ThreadAt(s, ME) == Thread(NoJob, Steal) && s.arena.flag.Down?
    ensures s' in states && OnlyMoves(s, s', ME) && ThreadAt(s', ME) == Thread(NoJob, Walk(LoadForWalk))
    ensures s'.arena == s.arena.(flag := Up(ME, NoClaim))
  {
    var (a, th1) := (s.arena, Thread(NoJob, Walk(RaiseForWalk)));
    assert StealStep(c, a, ThreadAt(s, ME), a, th1, ME);
    s' := Advance(c, states, s, ME, a, th1);
    var (a2, th2) := (a.(flag := Up(ME, NoClaim)), Thread(NoJob, Walk(LoadForWalk)));
    assert RaiseForWalkStep(c, a, th1, a2, th2, ME);
    s' := Advance(c, states, s', ME, a2, th2);
  }

  /** From the frontier word to the record that the last block's header names. */
  lemma ReadsLast(c: Config, states: iset<System>, s: System, b: Address, m: RecordIndex) returns (s': System)
    requires Closed(c, states, ME) && s in states && ThreadAt(s, ME) == Thread(NoJob, Walk(LoadForWalk))
    requires s.arena.predecessor == Some(b) && b in s.arena.headers && m == s.arena.headers[b].metadataIndex < s.arena.count
    ensures s' in states && OnlyMoves(s, s', ME) && s'.arena == s.arena
    ensures ThreadAt(s', ME) == Thread(NoJob, Walk(ReadWalkWord(WordOf(s.arena), m)))
  {
    var (a, word) := (s.arena, WordOf(s.arena));
    var th1 := Thread(NoJob, Walk(ReadWalkIndex(word)));
    assert LoadForWalkStep(c, a, ThreadAt(s, ME), a, th1);
    s' := Advance(c, states, s, ME, a, th1);
    var th2 := Thread(NoJob, Walk(CheckWalkIndex(word, m)));
    assert ReadWalkIndexStep(c, a, th1, a, th2);
    s' := Advance(c, states, s', ME, a, th2);
    var th3 := Thread(NoJob, Walk(ReadWalkWord(word, m)));
    assert CheckWalkIndexStep(c, a, th2, a, th3);
    s' := Advance(c, states, s', ME, a, th3);
  }

  lemma TakesLast(c: Config, states: iset<System>, s: System, b: Address, m: RecordIndex) returns (s': System)
    requires Closed(c, states, ME) && s in states && ThreadAt(s, ME) == Thread(NoJob, Walk(ReadWalkWord(WordOf(s.arena), m)))
    requires s.arena.predecessor == Some(b)
    requires RecordAt(s.arena, m).word.state.Available? && RecordAt(s.arena, m).word.block == Some(b)
    ensures s' in states && OnlyMoves(s, s', ME) && s'.arena == WalkOver(s.arena, m, b)
    ensures ThreadAt(s', ME) == Thread(NoJob, Walk(LoadForWalk))
  {
    var (a, word) := (s.arena, WordOf(s.arena));
    var th1 := Thread(NoJob, Walk(WalkCas(word, m, RecordAt(a, m).word)));
    assert ReadWalkWordStep(c, a, ThreadAt(s, ME), a, th1);
    s' := Advance(c, states, s, ME, a, th1);
    var a2 := SetStateUnderFlag(a, m, FrontierReclaimInProgress, Up(ME, Claimed(m)));
    var th2 := Thread(NoJob, Walk(RollWalk(word, m)));
    assert WalkCasStep(c, a, th1, a2, th2, ME);
    s' := Advance(c, states, s', ME, a2, th2);
    var (a3, th3) := (RollOver(a2, m, b), Thread(NoJob, Walk(FinishWalk(m))));
    assert RollWalkStep(c, a2, th2, a3, th3, ME);
    s' := Advance(c, states, s', ME, a3, th3);
    var (a4, th4) := (WalkOver(a, m, b), Thread(NoJob, Walk(LoadForWalk)));
    assert FinishWalkStep(c, a3, th3, a4, th4, ME);
    s' := Advance(c, states, s', ME, a4, th4);
  }

  lemma LowersFlag(c: Config, states: iset<System>, s: System) returns (s': System)
    requires Closed(c, states, ME) && s in states && ThreadAt(s, ME) == Thread(NoJob, Walk(LowerAfterWalk))
    ensures s' in states && OnlyMoves(s, s', ME) && s'.arena == s.arena.(flag := Down)
    ensures ThreadAt(s', ME) == Thread(NoJob, Trim(LoadForTrim))
  {
    var (a', th') := (s.arena.(flag := Down), Thread(NoJob, Trim(LoadForTrim)));
    assert LowerAfterWalkStep(c, s.arena, ThreadAt(s, ME), a', th');
    s' := Advance(c, states, s, ME, a', th');
  }

  /** The walk ends at the base, or at a block that is not free. */
  lemma EndsWalk(c: Config, states: iset<System>, s: System) returns (s': System)
    requires Closed(c, states, ME) && s in states && ThreadAt(s, ME) == Thread(NoJob, Walk(LoadForWalk)) && Working(c, s.arena, {}) && WalkedDown(s.arena)
    ensures s' in states && OnlyMoves(s, s', ME) && s'.arena == s.arena.(flag := Down)
    ensures ThreadAt(s', ME) == Thread(NoJob, Trim(LoadForTrim))
  {
    var (a, th1) := (s.arena, Thread(NoJob, Walk(LowerAfterWalk)));
    if a.predecessor.None? {
      assert LoadForWalkStep(c, a, ThreadAt(s, ME), a, th1);
      s' := Advance(c, states, s, ME, a, th1);
    } else {
      LastIsBound(c, a);
      var b := a.predecessor.value;
      s' := ReadsLast(c, states, s, b, a.headers[b].metadataIndex);
      assert ReadWalkWordStep(c, a, ThreadAt(s', ME), a, th1);
      s' := Advance(c, states, s', ME, a, th1);
    }
    s' := LowersFlag(c, states, s');
  }

  /** One AVAILABLE block below the frontier: rolled back over, and its record left in its bin as reclaimed. */
  lemma WalksOverLast(c: Config, states: iset<System>, s: System) returns (s': System)
    requires Closed(c, states, ME) && s in states && ThreadAt(s, ME) == Thread(NoJob, Walk(LoadForWalk))
    requires Working(c, s.arena, {}) && s.arena.flag.Up? && !WalkedDown(s.arena)
    ensures s' in states && OnlyMoves(s, s', ME) && ThreadAt(s', ME) == Thread(NoJob, Walk(LoadForWalk))
    ensures Working(c, s'.arena, {}) && SameForClient(s.arena, s'.arena)
    ensures s'.arena.frontier < s.arena.frontier && KeepsBelow(s.arena, s'.arena)
  {
    LastIsBound(c, s.arena);
    var b := s.arena.predecessor.value;
    var m := s.arena.headers[b].metadataIndex;
    WalksOver(c, s.arena, b, m);
    assert b <= s.arena.frontier by {
      assert LinkOk(c, s.arena.chain, s.arena.frontier, b);
    }
    WalkKeepsBelow(s.arena, m, b);
    s' := ReadsLast(c, states, s, b, m);
    s' := TakesLast(c, states, s', b, m);
  }

  /** try_reclaim_frontier_blocks */
  lemma {:induction false} Walks(c: Config, states: iset<System>, s: System) returns (s': System)
    requires Closed(c, states, ME) && s in states && ThreadAt(s, ME) == Thread(NoJob, Walk(LoadForWalk))
    requires Working(c, s.arena, {}) && s.arena.flag.Up?
    ensures Between(c, states, s', Trim(LoadForTrim)) && OnlyMoves(s, s', ME) && WalkedDown(s'.arena)
    ensures s'.arena.live == s.arena.live && s'.arena.pendingList == s.arena.pendingList && KeepsBelow(s.arena, s'.arena)
    decreases s.arena.frontier
  {
    if WalkedDown(s.arena) {
      s' := EndsWalk(c, states, s);
      SetFlagKeeps(c, s.arena, Down);
    } else {
      s' := WalksOverLast(c, states, s);
      var a1 := s'.arena;
      s' := Walks(c, states, s');
      KeepsThrough(s.arena, a1, s'.arena);
    }
  }

  // ----- the trim -----

  lemma TrimsTail(c: Config, states: iset<System>, s: System, count: nat, k: nat) returns (s': System)
    requires Closed(c, states, ME) && s in states && ThreadAt(s, ME) == Thread(NoJob, Trim(LoadForTrim))
    requires count == s.arena.count > 0 && k == ManagerOf(count - 1) < c.managerCapacity
    requires ManagerAt(s.arena, k).activeCount == 0 && ManagerAt(s.arena, k).trimmer.NotTrimming?
    ensures s' in states && OnlyMoves(s, s', ME) && s'.arena == TrimTail(s.arena, k)
    ensures ThreadAt(s', ME) == Thread(NoJob, Trim(LoadForTrim))
  {
    var (a, th1) := (s.arena, Thread(NoJob, Trim(ClaimManager(count, k))));
    assert LoadForTrimStep(c, a, ThreadAt(s, ME), a, th1);
    s' := Advance(c, states, s, ME, a, th1);
    var (a2, th2) := (SetTrimmer(a, k, Trimming(ME)), Thread(NoJob, Trim(CheckTrim(count, k))));
    assert ClaimManagerStep(c, a, th1, a2, th2, ME);
    s' := Advance(c, states, s', ME, a2, th2);
    var th3 := Thread(NoJob, Trim(ShrinkCas(count, k)));
    assert CheckTrimStep(c, a2, th2, a2, th3);
    s' := Advance(c, states, s', ME, a2, th3);
    s' := ShrinksTail(c, states, s', count, k);
  }

  lemma ShrinksTail(c: Config, states: iset<System>, s: System, count: nat, k: nat) returns (s': System)
    requires Closed(c, states, ME) && s in states && ThreadAt(s, ME) == Thread(NoJob, Trim(ShrinkCas(count, k))) && count == s.arena.count
    ensures s' in states && OnlyMoves(s, s', ME) && ThreadAt(s', ME) == Thread(NoJob, Trim(LoadForTrim))
    ensures s'.arena == SetTrimmer(ClearFreeList(Shrink(s.arena, ME, k, k * RECORDS_PER_BLOCK), ME, k), k, NotTrimming)
  {
    var (a1, th1) := (Shrink(s.arena, ME, k, k * RECORDS_PER_BLOCK), Thread(NoJob, Trim(ClearList(k))));
    assert ShrinkCasStep(c, s.arena, ThreadAt(s, ME), a1, th1, ME);
    s' := Advance(c, states, s, ME, a1, th1);
    var (a2, th2) := (ClearFreeList(a1, ME, k), Thread(NoJob, Trim(OpenManager(k))));
    assert ClearListStep(c, a1, th1, a2, th2, ME);
    s' := Advance(c, states, s', ME, a2, th2);
    var (a3, th3) := (SetTrimmer(a2, k, NotTrimming), Thread(NoJob, Trim(LoadForTrim)));
    assert OpenManagerStep(c, a2, th2, a3, th3);
    s' := Advance(c, states, s', ME, a3, th3);
  }

  lemma EndsTrim(c: Config, states: iset<System>, s: System) returns (s': System)
    requires Between(c, states, s, Trim(LoadForTrim)) && TrimmedDown(s.arena)
    ensures s' in states && OnlyMoves(s, s', ME) && s'.arena == s.arena && ThreadAt(s', ME) == Idle
  {
    var a := s.arena;
    if a.count == 0 {
      assert LoadForTrimStep(c, a, ThreadAt(s, ME), a, Idle);
      s' := Advance(c, states, s, ME, a, Idle);
    } else {
      var th1 := Thread(NoJob, Trim(ClaimManager(a.count, ManagerOf(a.count - 1))));
      assert LoadForTrimStep(c, a, ThreadAt(s, ME), a, th1);
      s' := Advance(c, states, s, ME, a, th1);
      assert ClaimManagerStep(c, a, th1, a, Idle, ME);
      s' := Advance(c, states, s', ME, a, Idle);
    }
  }

  /** trim_metadata_records */
  lemma {:induction false} TrimsAll(c: Config, states: iset<System>, s: System) returns (s': System)
    requires Between(c, states, s, Trim(LoadForTrim)) && WalkedDown(s.arena)
    ensures s' in states && OnlyMoves(s, s', ME) && ThreadAt(s', ME) == Idle
    ensures Working(c, s'.arena, {}) && SameForClient(s.arena, s'.arena) && WalkedDown(s'.arena) && TrimmedDown(s'.arena)
    ensures KeepsBelow(s.arena, s'.arena)
    decreases s.arena.count
  {
    if TrimmedDown(s.arena) {
      s' := EndsTrim(c, states, s);
    } else {
      var k := ManagerOf(s.arena.count - 1);
      CountFitsManagers(c, s.arena);
      TailManager(s.arena.count);
      Trims(c, s.arena, k);
      s' := TrimsTail(c, states, s, s.arena.count, k);
      var a1 := s'.arena;
      s' := TrimsAll(c, states, s');
      KeepsThrough(s.arena, a1, s'.arena);
    }
  }

  // ----- a whole window -----

  lemma StartsWindow(c: Config, states: iset<System>, s: System) returns (s': System)
    requires ValidConfig(c) && Closed(c, states, ME) && s in states && AllIdle(s)
    ensures Between(c, states, s', Steal) && s'.arena == s.arena && OnlyMoves(s, s', ME)
  {
    QuietIsAlone(c, s);
    var th1 := Thread(NoJob, Steal);
    assert ReadyStep(c, s.arena, ThreadAt(s, ME), s.arena, th1);
    s' := Advance(c, states, s, ME, s.arena, th1);
  }

  lemma RunsWindow(c: Config, states: iset<System>, s: System) returns (s': System)
    requires ValidConfig(c) && Closed(c, states, ME) && s in states && AllIdle(s)
    ensures s' in states && OnlyMoves(s, s', ME) && ThreadAt(s', ME) == Idle
    ensures Working(c, s'.arena, {}) && s'.arena.flag.Down? && WalkedDown(s'.arena) && TrimmedDown(s'.arena)
    ensures s'.arena.live == s.arena.live && s'.arena.pendingList == {} && KeepsBelow(s.arena, s'.arena)
  {
    s' := StartsWindow(c, states, s);
    s' := WorksOffPending(c, states, s');
    var a1 := s'.arena;
    SetFlagKeeps(c, a1, Up(ME, NoClaim));
    s' := StartsWalk(c, states, s');
    s' := Walks(c, states, s');
    KeepsThrough(s.arena, a1, s'.arena);
    var a2 := s'.arena;
    s' := TrimsAll(c, states, s');
    KeepsThrough(s.arena, a2, s'.arena);
  }

  /**
    A maintenance window's outcome: the same live blocks, nothing pending, the frontier at the end of a live
    block or back at the base, the chain below it as it was, and no metadata block at the end of the region
    that is all free.
   */
  ghost predicate Reclaimed(a: Arena, a': Arena) {
    && a'.live == a.live && a'.pendingList == {} && KeepsBelow(a, a') && TrimmedDown(a')
    && (a'.frontier == 0 || exists b :: b in a'.live && b in a'.chain && End(a'.chain, b) == a'.frontier)
  }

  lemma WindowServes(c: Config, states: iset<System>, s: System) returns (s': System)
    requires ValidConfig(c) && Closed(c, states, ME) && s in states && AllIdle(s)
    ensures s' in states && AllIdle(s') && Reclaimed(s.arena, s'.arena)
  {
    s' := RunsWindow(c, states, s);
    RolledAllTheWay(c, s'.arena);
    StayIdle(s, s', ME);
  }

  /** From any state between calls, one thread runs a maintenance window to its end. */
  lemma WindowReclaims(c: Config, s: System) returns (s': System)
    requires ValidConfig(c) && OrderlyReachable(c, s) && AllIdle(s)
    ensures OrderlyReachable(c, s') && Leads(c, s, s', ME) && AllIdle(s') && Reclaimed(s.arena, s'.arena)
    ensures s.arena.live == map[] ==> s'.arena.frontier == 0
  {
    ReachedIsClosed(c, s, ME);
    s' := WindowServes(c, Reached(c, s, ME), s);
  }

  /** So when the client has given everything back, the whole space in front of the metadata can be had again. */
  lemma SpaceComesBack(c: Config, s: System, bytes: nat) returns (emptied: System, s': System)
    requires ValidConfig(c) && OrderlyReachable(c, s) && AllIdle(s) && s.arena.live == map[] && ValidRequest(c, bytes)
    ensures Leads(c, s, emptied, ME) && AllIdle(emptied) && emptied.arena.frontier == 0 && emptied.arena.live == map[]
    ensures RecordLeft(c, emptied.arena) && SizeFor(c, bytes) + emptied.arena.count + 2 < c.metadataStart ==>
      Leads(c, emptied, s', ME) && AllIdle(s') && s'.arena.live == map[0 := bytes]
  {
    emptied := WindowReclaims(c, s);
    s' := emptied;
    if RecordLeft(c, emptied.arena) && SizeFor(c, bytes) + emptied.arena.count + 2 < c.metadataStart {
      s' := IdleAllocates(c, emptied, ME, bytes);
    }
  }

  // ----- a freed block serves again -----

  /** Between calls, a block that is neither live nor pending is AVAILABLE in the bin of its size. */
  lemma IdleBlockIsBinned(c: Config, s: System, b: Address, k: nat) returns (m: RecordIndex)
    requires ValidConfig(c) && OrderlyReachable(c, s) && AllIdle(s) && s.arena.pendingList == {}
    requires b in s.arena.chain && b !in s.arena.live && k < |c.classSizes| && s.arena.chain[b].size == c.classSizes[k]
    ensures BinEntry(k, m) in s.arena.bins && RecordAt(s.arena, m).word.state.Available? && RecordAt(s.arena, m).word.block == Some(b)
  {
    ReachableHolds(c, s);
    QuietBlocks(c, s, b);
    var a := s.arena;
    m := a.holders[b].record;
    assert HolderOk(a, b) && RecordOk(c, a, m);
    var e :| e in a.bins && e.record == m;
    assert EntryOk(c, a, e);
    assert e == BinEntry(e.sizeClass, m);
  }

  lemma StaysBelow(c: Config, s: System, s': System, b: Address, above: Address)
    requires ValidConfig(c) && OrderlyReachable(c, s) && OrderlyReachable(c, s') && KeepsBelow(s.arena, s'.arena)
    requires b in s.arena.chain && b < above && above in s'.arena.live
    ensures b in s'.arena.chain && s'.arena.chain[b] == s.arena.chain[b]
  {
    ReachableHolds(c, s');
    assert LiveBlockOk(s'.arena, above);
    assert LinkOk(c, s'.arena.chain, s'.arena.frontier, above);
  }

  /**
    A block below another live one, freed and passed through a maintenance window, is the answer to the next
    request of its class: memory that the frontier cannot give back is not lost either.
   */
  lemma FreedBlockServesAgain(c: Config, s: System, b: Address, above: Address, bytes: nat)
    returns (freed: System, reclaimed: System, s': System)
    requires ValidConfig(c) && OrderlyReachable(c, s) && AllIdle(s) && b in s.arena.live && above in s.arena.live && b < above
    requires ValidRequest(c, bytes) && b in s.arena.chain && s.arena.chain[b].size == SizeFor(c, bytes)
    ensures Leads(c, s, freed, ME) && AllIdle(freed) && freed.arena.live == s.arena.live - {b}
    ensures Leads(c, freed, reclaimed, ME) && AllIdle(reclaimed) && reclaimed.arena.live == freed.arena.live
    ensures Leads(c, reclaimed, s', ME) && AllIdle(s') && s'.arena.live == freed.arena.live[b := bytes]
  {
    var m0, m, b';
    freed, m0 := FreesBlock(c, s, ME, b);
    StayIdle(s, freed, ME);
    reclaimed := WindowReclaims(c, freed);
    StaysBelow(c, freed, reclaimed, b, above);
    m := IdleBlockIsBinned(c, reclaimed, b, BinIndex(c, UnitsFor(bytes)));
    s', b' := AllocatesFromBin(c, reclaimed, ME, bytes, m);
    StayIdle(reclaimed, s', ME);
  }
}
