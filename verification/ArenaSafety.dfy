/** The invariant holds in every state of every orderly run, for any number of threads; what follows from it. */
module ArenaSafety {
  import opened Wrappers
  import opened ArenaState
  import opened ArenaOps
  import opened ArenaInvariant
  import opened ArenaChain
  import opened ArenaThreads
  import opened ArenaCoupling
  import opened ArenaInterference
  import opened ArenaStepFrame
  import opened ArenaSearchSteps
  import opened ArenaReserveSteps
  import opened ArenaAllocateSteps
  import opened ArenaWindowSteps

  // ----- the invariant over runs -----

  lemma EmptyArenaHolds(c: Config, a: Arena)
    requires ValidConfig(c)
    requires a.frontier == 0 && a.predecessor == None && a.count == 0 && |a.managers| == c.managerCapacity
    requires forall k :: 0 <= k < |a.managers| ==> a.managers[k] == Manager(0, NotTrimming, {}, {})
    requires a.records == map[] && a.headers == map[] && a.pendingList == {} && a.bins == {} && a.flag == Down
    requires a.chain == map[] && a.holders == map[] && a.owners == map[] && a.live == map[]
    ensures Inv(c, a)
  {
    assert a.holders.Keys == a.chain.Keys && a.headers.Keys == a.chain.Keys && a.owners.Keys == a.records.Keys;
    forall b1, b2 ensures Before(a.chain, b1, b2) {}
    forall b, r ensures Clear(c, a, b, r) {}
    forall k | 0 <= k < |a.managers| ensures ManagerOk(a.owners, a.count, k, a.managers[k]) {
      assert ActiveRecords(a.owners, k) == {};
    }
    assert ChainOk(c, a.chain, a.frontier, a.predecessor);
    assert forall r :: r !in a.records && r !in a.owners;
    assert HoldersOk(a) && FlagOk(a);
    assert RecordsOk(c, a);
    assert ListsOk(c, a) && LiveOk(a);
  }

  lemma InitHolds(c: Config, s: System)
    requires ValidConfig(c) && Init(c, s)
    ensures SystemInv(c, s)
  {
    EmptyArenaHolds(c, s.arena);
    forall t ensures Coupled(c, s.arena, t, ThreadAt(s, t)) {
      InitCoupled(c, s, t);
    }
  }

  lemma InitCoupled(c: Config, s: System, t: ThreadId)
    requires Init(c, s)
    ensures Coupled(c, s.arena, t, ThreadAt(s, t))
  {
    assert ThreadAt(s, t) == Idle;
    forall k: nat ensures SlotMatches(s.arena, t, Idle, k) && TrimMatches(s.arena, t, Idle, k) {}
  }

  lemma RecycleStepOk(c: Config, a: Arena, a': Arena, t: ThreadId, th: Thread, th': Thread)
    requires Coherent(c, a, t, th) && RecycleStep(c, a, th, a', th', t)
    ensures StepOk(c, a, a', t, th')
  {
    match th.pc.recycle
    case ClearFields => ClearFieldsOk(c, a, a', t, th, th');
    case StoreFree(_) => StoreFreeOk(c, a, a', t, th, th');
    case PushFree => PushFreeOk(c, a, a', t, th, th');
    case ReleaseManager => ReleaseManagerOk(c, a, a', t, th, th');
  }

  lemma SearchStepOk(c: Config, a: Arena, a': Arena, t: ThreadId, th: Thread, th': Thread)
    requires Coherent(c, a, t, th) && SearchStep(c, a, th, a', th', t)
    ensures StepOk(c, a, a', t, th')
  {
    if th.pc.Ready? {
      ReadyOk(c, a, a', t, th, th');
    } else {
      match th.pc.search
      case PopNext => PopNextOk(c, a, a', t, th, th');
      case Popped(_) => PoppedOk(c, a, a', t, th, th');
      case ClaimPopped(_, _) => ClaimPoppedOk(c, a, a', t, th, th');
      case Repush(_) => RepushOk(c, a, a', t, th, th');
    }
  }

  lemma ThreadStepOk(c: Config, a: Arena, a': Arena, t: ThreadId, th: Thread, th': Thread)
    requires Coherent(c, a, t, th) && ThreadStep(c, a, th, a', th', t) && !Premature(a, th)
    ensures StepOk(c, a, a', t, th')
  {
    if SearchStep(c, a, th, a', th', t) { SearchStepOk(c, a, a', t, th, th'); }
    else if RecycleStep(c, a, th, a', th', t) { RecycleStepOk(c, a, a', t, th, th'); }
    else if ReserveStep(c, a, th, a', th', t) { ReserveStepOk(c, a, a', t, th, th'); }
    else if CutStep(c, a, th, a', th', t) { CutStepOk(c, a, a', t, th, th'); }
    else if BindStep(c, a, th, a', th', t) { BindStepOk(c, a, a', t, th, th'); }
    else if FreeStep(c, a, th, a', th', t) { FreeStepOk(c, a, a', t, th, th'); }
    else if WindowStep(c, a, th, a', th', t) { WindowStepOk(c, a, a', t, th, th'); }
    else if WalkStep(c, a, th, a', th', t) { WalkStepOk(c, a, a', t, th, th'); }
    else { TrimStepOk(c, a, a', t, th, th'); }
  }

  /** A thread's free is premature exactly when some thread's program counter shows the allocation in flight. */
  lemma PrematureIsInFlight(c: Config, s: System, t: ThreadId)
    requires SystemInv(c, s)
    ensures Premature(s.arena, ThreadAt(s, t)) <==> FreesInFlight(s, t)
  {
    var (a, pc) := (s.arena, ThreadAt(s, t).pc);
    assert Coupled(c, a, t, ThreadAt(s, t));
    if pc.Free? && pc.free.AcceptCas? && RecordAt(a, pc.free.m).word == pc.free.w {
      var (b, m) := (pc.free.b, pc.free.m);
      assert RecordOk(c, a, m);
      if NotYetReturned(a, m) {
        var u := a.owners[m].thread;
        HeldByThread(c, s, m);
        assert Coupled(c, a, u, ThreadAt(s, u));
        assert AllocatesAt(ThreadAt(s, u).pc, b);
      }
      if InFlight(s, b) {
        var u :| AllocatesAt(ThreadAt(s, u).pc, b);
        AllocatingRecord(c, s, u, b);
        assert RecordOk(c, a, ThreadAt(s, u).pc.m);
      }
    }
  }

  /** The record that an allocation in flight has bound to its block. */
  lemma AllocatingRecord(c: Config, s: System, u: ThreadId, b: Address)
    requires SystemInv(c, s) && AllocatesAt(ThreadAt(s, u).pc, b)
    ensures var m := ThreadAt(s, u).pc.m; NotYetReturned(s.arena, m) && m in s.arena.records && s.arena.records[m].word.block == Some(b)
  {
    assert Coupled(c, s.arena, u, ThreadAt(s, u));
    assert RecordMatches(s.arena, u, ThreadAt(s, u), ThreadAt(s, u).pc.m);
  }

  lemma StepHolds(c: Config, s: System, s': System, t: ThreadId)
    requires ValidConfig(c) && SystemInv(c, s) && StepBy(c, s, s', t) && !FreesInFlight(s, t)
    ensures SystemInv(c, s')
  {
    PrematureIsInFlight(c, s, t);
    ThreadStepOk(c, s.arena, s'.arena, t, ThreadAt(s, t), ThreadAt(s', t));
    forall u ensures Coupled(c, s'.arena, u, ThreadAt(s', u)) {
      if u != t {
        assert Coupled(c, s.arena, u, ThreadAt(s, u));
        OthersStayCoupled(c, s.arena, s'.arena, t, u, ThreadAt(s, u));
      }
    }
  }

  ghost predicate KeepsAt(c: Config, run: seq<System>, i: nat)
    requires i + 1 < |run|
  {
    SystemInv(c, run[i]) ==> SystemInv(c, run[i + 1])
  }

  lemma {:induction false} InductionOverRun(c: Config, run: seq<System>, i: nat)
    requires i < |run| && SystemInv(c, run[0])
    requires forall j {:trigger KeepsAt(c, run, j)} :: 0 <= j < |run| - 1 ==> KeepsAt(c, run, j)
    ensures SystemInv(c, run[i])
  {
    if i > 0 {
      InductionOverRun(c, run, i - 1);
      assert KeepsAt(c, run, i - 1);
    }
  }

  /** Every state of every orderly run satisfies the invariant. */
  lemma RunHolds(c: Config, run: seq<System>, i: nat)
    requires ValidConfig(c) && IsRun(c, run) && Orderly(c, run) && i < |run|
    ensures SystemInv(c, run[i])
  {
    InitHolds(c, run[0]);
    forall j: nat | j + 1 < |run| ensures KeepsAt(c, run, j) {
      assert OrderlyAt(c, run, j);
      NextHolds(c, run, j);
    }
    InductionOverRun(c, run, i);
  }

  lemma NextHolds(c: Config, run: seq<System>, i: nat)
    requires ValidConfig(c) && i + 1 < |run| && OrderlyAt(c, run, i)
    ensures KeepsAt(c, run, i)
  {
    if SystemInv(c, run[i]) {
      var t :| StepBy(c, run[i], run[i + 1], t) && !FreesInFlight(run[i], t);
      StepHolds(c, run[i], run[i + 1], t);
    }
  }

  /** The states of all runs, whatever the client does. */
  ghost predicate Reachable(c: Config, s: System) {
    exists run, i :: IsRun(c, run) && 0 <= i < |run| && run[i] == s
  }

  /** The states of orderly runs. */
  ghost predicate OrderlyReachable(c: Config, s: System) {
    exists run, i :: IsRun(c, run) && Orderly(c, run) && 0 <= i < |run| && run[i] == s
  }

  lemma ReachableHolds(c: Config, s: System)
    requires ValidConfig(c) && OrderlyReachable(c, s)
    ensures SystemInv(c, s)
  {
    var run, i :| IsRun(c, run) && Orderly(c, run) && 0 <= i < |run| && run[i] == s;
    RunHolds(c, run, i);
  }

  /** One orderly step more. */
  lemma OneMoreStep(c: Config, s: System, s': System, t: ThreadId)
    requires OrderlyReachable(c, s) && StepBy(c, s, s', t) && !FreesInFlight(s, t)
    ensures OrderlyReachable(c, s')
  {
    var run, k :| IsRun(c, run) && Orderly(c, run) && 0 <= k < |run| && run[k] == s;
    var run' := run[..k + 1] + [s'];
    forall i: nat | i + 1 < |run'| ensures NextAt(c, run', i) && OrderlyAt(c, run', i) {
      if i < k {
        assert NextAt(c, run, i) && OrderlyAt(c, run, i);
      }
    }
    assert IsRun(c, run') && Orderly(c, run') && run'[k + 1] == s';
  }

  // ----- blocks -----

  /**
    The client's blocks are blocks of the chain, big enough for the request and the header, below the
    frontier, and no two of them overlap.
   */
  lemma LiveBlocksAreSafe(c: Config, s: System)
    requires ValidConfig(c) && OrderlyReachable(c, s)
    ensures forall b :: b in s.arena.live ==>
      b in s.arena.chain && End(s.arena.chain, b) <= s.arena.frontier && s.arena.live[b] + 64 <= 64 * s.arena.chain[b].size
    ensures forall b1, b2 :: b1 in s.arena.live && b2 in s.arena.live && b1 < b2 ==>
      b1 in s.arena.chain && End(s.arena.chain, b1) <= b2
  {
    ReachableHolds(c, s);
    var a := s.arena;
    forall b | b in a.live ensures b in a.chain && End(a.chain, b) <= a.frontier && a.live[b] + 64 <= 64 * a.chain[b].size {
      assert LiveBlockOk(a, b);
      BlockFits(c, a.chain, a.frontier, a.predecessor, b);
    }
    forall b1, b2 | b1 in a.live && b2 in a.live && b1 < b2 ensures b1 in a.chain && End(a.chain, b1) <= b2 {
      assert Before(a.chain, b1, b2);
    }
  }

  /**
    The blocks tile [0, frontier): every unit lies in exactly one, and the frontier word names the one
    that ends at the frontier.  Both halves of the word fit in 32 bits.
   */
  lemma BlocksTileTheArena(c: Config, s: System, u: nat)
    requires ValidConfig(c) && OrderlyReachable(c, s)
    ensures u < s.arena.frontier ==> exists b :: b in s.arena.chain && b <= u < End(s.arena.chain, b)
    ensures forall b1, b2 :: b1 in s.arena.chain && b2 in s.arena.chain && b1 <= u < End(s.arena.chain, b1) && b2 <= u < End(s.arena.chain, b2) ==> b1 == b2
    ensures match s.arena.predecessor
            case None => s.arena.frontier == 0
            case Some(p) => p in s.arena.chain && End(s.arena.chain, p) == s.arena.frontier
    ensures s.arena.frontier < c.metadataStart < NO_PREDECESSOR
  {
    ReachableHolds(c, s);
    var a := s.arena;
    if u < a.frontier {
      Covered(c, a.chain, a.frontier, a.predecessor, u);
    }
    forall b1, b2 | b1 in a.chain && b2 in a.chain && b1 <= u < End(a.chain, b1) && b2 <= u < End(a.chain, b2)
      ensures b1 == b2
    {
      assert Before(a.chain, b1, b2) && Before(a.chain, b2, b1);
    }
  }

  // ----- the boundary -----

  /** A block that no record binds is at the program counter of the thread that cut it. */
  lemma CarvedByThread(c: Config, s: System, b: Address)
    requires SystemInv(c, s) && b in s.arena.holders && s.arena.holders[b].Carved?
    ensures CarvedAt(ThreadAt(s, s.arena.holders[b].thread).pc) == Some((b, s.arena.holders[b].kept))
  {
    assert BlockMatches(s.arena, s.arena.holders[b].thread, ThreadAt(s, s.arena.holders[b].thread), b);
  }

  lemma HeldByThread(c: Config, s: System, r: RecordIndex)
    requires SystemInv(c, s) && r in s.arena.owners && s.arena.owners[r].Held?
    ensures HeldBy(ThreadAt(s, s.arena.owners[r].thread), r) == Some(s.arena.owners[r].phase)
  {
    assert RecordMatches(s.arena, s.arena.owners[r].thread, ThreadAt(s, s.arena.owners[r].thread), r);
  }

  lemma TrimmedByThread(c: Config, s: System, k: nat)
    requires SystemInv(c, s) && k < |s.arena.managers| && !s.arena.managers[k].trimmer.NotTrimming?
    ensures TrimAt(ThreadAt(s, s.arena.managers[k].trimmer.thread).pc).Some?
  {
    assert TrimMatches(s.arena, s.arena.managers[k].trimmer.thread, ThreadAt(s, s.arena.managers[k].trimmer.thread), k);
  }

  lemma FlagByThread(c: Config, s: System)
    requires SystemInv(c, s) && s.arena.flag.Up?
    ensures FlagAt(ThreadAt(s, s.arena.flag.thread).pc).Some?
  {
    assert FlagMatches(s.arena, s.arena.flag.thread, ThreadAt(s, s.arena.flag.thread));
  }

  /** Some thread has cut the block at b and may still give it back. */
  ghost predicate BlockUndecided(s: System, b: Address) {
    exists t :: CarvedAt(ThreadAt(s, t).pc) == Some((b, false))
  }

  /** Some thread has grown the region by record r and may still give it back. */
  ghost predicate RecordUndecided(s: System, r: RecordIndex) {
    exists t :: HeldBy(ThreadAt(s, t), r) == Some(Growing)
  }

  /**
    A block its allocator has kept and a record whose growth has returned GROWN never share memory: the
    record lies at unit metadataStart - r, at least two units above the block's end.
   */
  lemma KeptNeverOverlap(c: Config, s: System, b: Address, r: RecordIndex)
    requires ValidConfig(c) && OrderlyReachable(c, s)
    requires b in s.arena.chain && !BlockUndecided(s, b)
    requires r < s.arena.count && !RecordUndecided(s, r)
    ensures End(s.arena.chain, b) + 2 <= c.metadataStart - r
  {
    ReachableHolds(c, s);
    var a := s.arena;
    assert HolderOk(a, b);
    if a.holders[b].Carved? {
      CarvedByThread(c, s, b);
    }
    assert r in a.records;
    if a.owners[r].Held? {
      HeldByThread(c, s, r);
    }
    assert Clear(c, a, b, r);
  }

  // ----- records -----

  ghost predicate OnFree(a: Arena, r: RecordIndex) {
    ManagerOf(r) < |a.managers| && r in a.managers[ManagerOf(r)].freeList
  }

  ghost predicate Binned(a: Arena, r: RecordIndex) {
    exists e :: e in a.bins && e.record == r
  }

  ghost predicate InClientsHands(a: Arena, r: RecordIndex) {
    exists b :: b in a.live && b in a.holders && a.holders[b] == Bound(r)
  }

  ghost predicate InThreadsHands(s: System, r: RecordIndex) {
    exists t :: HeldBy(ThreadAt(s, t), r).Some?
  }

  function Ones(b1: bool, b2: bool, b3: bool, b4: bool, b5: bool): nat {
    (if b1 then 1 else 0) + (if b2 then 1 else 0) + (if b3 then 1 else 0) + (if b4 then 1 else 0) + (if b5 then 1 else 0)
  }

  lemma OwnerOnLists(c: Config, s: System, r: RecordIndex)
    requires ValidConfig(c) && SystemInv(c, s) && r < s.arena.count
    ensures r in s.arena.owners
    ensures OnFree(s.arena, r) <==> s.arena.owners[r].OnFreeList?
    ensures r in s.arena.pendingList <==> s.arena.owners[r].OnPendingList?
    ensures Binned(s.arena, r) <==> s.arena.owners[r].InBin?
  {
    var a := s.arena;
    assert r in a.records;
    var k := ManagerOf(r);
    assert k < |a.managers|;
    assert ManagerOk(a.owners, a.count, k, a.managers[k]);
    assert Shelved(c, a, r);
    if Binned(a, r) {
      var e :| e in a.bins && e.record == r;
      assert EntryOk(c, a, e);
    }
  }

  lemma OwnerInHands(c: Config, s: System, r: RecordIndex)
    requires ValidConfig(c) && SystemInv(c, s) && r < s.arena.count
    ensures r in s.arena.owners
    ensures InClientsHands(s.arena, r) <==> s.arena.owners[r].WithClient?
    ensures InThreadsHands(s, r) <==> s.arena.owners[r].Held?
    ensures forall t1, t2 :: HeldBy(ThreadAt(s, t1), r).Some? && HeldBy(ThreadAt(s, t2), r).Some? ==> t1 == t2
  {
    var a := s.arena;
    assert r in a.records;
    assert RecordOk(c, a, r) && ClientHas(a, r);
    if InClientsHands(a, r) {
      var b :| b in a.live && b in a.holders && a.holders[b] == Bound(r);
      assert LiveBlockOk(a, b);
    }
    if a.owners[r].Held? {
      HeldByThread(c, s, r);
    }
    forall t | HeldBy(ThreadAt(s, t), r).Some? ensures a.owners[r].Held? && a.owners[r].thread == t {
      assert RecordMatches(a, t, ThreadAt(s, t), r);
    }
  }

  /**
    Nothing is lost and nothing is shared: every record of the region is in exactly one place - its
    manager's free list, the pending list, a bin, a live block, or the hands of exactly one thread - and
    at most once in the bins.
   */
  lemma RecordsAreInOnePlace(c: Config, s: System, r: RecordIndex)
    requires ValidConfig(c) && OrderlyReachable(c, s) && r < s.arena.count
    ensures Ones(OnFree(s.arena, r), r in s.arena.pendingList, Binned(s.arena, r), InClientsHands(s.arena, r), InThreadsHands(s, r)) == 1
    ensures forall t1, t2 :: HeldBy(ThreadAt(s, t1), r).Some? && HeldBy(ThreadAt(s, t2), r).Some? ==> t1 == t2
    ensures forall e1, e2 :: e1 in s.arena.bins && e2 in s.arena.bins && e1.record == r && e2.record == r ==> e1 == e2
  {
    ReachableHolds(c, s);
    OwnerOnLists(c, s, r);
    OwnerInHands(c, s, r);
    forall e1, e2 | e1 in s.arena.bins && e2 in s.arena.bins && e1.record == r && e2.record == r ensures e1 == e2 {
      assert EntryOk(c, s.arena, e1) && EntryOk(c, s.arena, e2);
    }
  }

  predicate AnswersFor(a: Arena, r: RecordIndex, b: Address) {
    r in a.records && r in a.owners && Answers(a, r) && a.records[r].word.block == Some(b)
  }

  /** At most one record binds a block, and a block no record binds is in the hands of one thread. */
  lemma BlocksHaveOneHolder(c: Config, s: System, b: Address)
    requires ValidConfig(c) && OrderlyReachable(c, s) && b in s.arena.chain
    ensures forall r1, r2 :: AnswersFor(s.arena, r1, b) && AnswersFor(s.arena, r2, b) ==> r1 == r2
    ensures (exists r :: AnswersFor(s.arena, r, b)) <==> !(exists t, kept :: CarvedAt(ThreadAt(s, t).pc) == Some((b, kept)))
  {
    ReachableHolds(c, s);
    var a := s.arena;
    assert HolderOk(a, b);
    forall r | AnswersFor(a, r, b) ensures a.holders[b] == Bound(r) {
      assert RecordOk(c, a, r);
    }
    forall t, kept | CarvedAt(ThreadAt(s, t).pc) == Some((b, kept)) ensures a.holders[b] == Carved(t, kept) {
      assert BlockMatches(a, t, ThreadAt(s, t), b);
    }
    match a.holders[b]
    case Carved(_, _) => CarvedByThread(c, s, b);
    case Bound(r) => assert AnswersFor(a, r, b);
  }

  /** Between calls every block is live, waiting in the pending list, or available in a bin. */
  lemma QuietBlocks(c: Config, s: System, b: Address)
    requires ValidConfig(c) && OrderlyReachable(c, s) && b in s.arena.chain
    requires forall t :: ThreadAt(s, t) == Idle
    ensures s.arena.holders.Keys == s.arena.chain.Keys && s.arena.holders[b].Bound?
    ensures var r := s.arena.holders[b].record;
      b in s.arena.live || r in s.arena.pendingList || (Binned(s.arena, r) && RecordAt(s.arena, r).word.state.Available?)
  {
    ReachableHolds(c, s);
    var a := s.arena;
    assert HolderOk(a, b);
    if a.holders[b].Carved? {
      CarvedByThread(c, s, b);
      assert false;
    }
    var r := a.holders[b].record;
    OwnerOnLists(c, s, r);
    OwnerInHands(c, s, r);
    assert RecordOk(c, a, r) && ClientHas(a, r);
    if a.flag.Up? {
      assert FlagMatches(a, a.flag.thread, ThreadAt(s, a.flag.thread));
    }
    assert !InThreadsHands(s, r);
  }

  // ----- managers -----

  ghost function SlotHolders(s: System, k: nat): set<ThreadId> {
    set t | t in s.threads && SlotAt(s.threads[t].pc) == Some(k)
  }

  ghost function RecordsInUse(a: Arena, k: nat): set<RecordIndex> {
    set r | r in a.records && ManagerOf(r) == k && !OnFree(a, r)
  }

  /**
    A manager's active count is the number of its records below the count that are not on its free list,
    plus the number of threads between reserving a slot and binding it or between giving back and releasing.
   */
  lemma ActiveCountIsExact(c: Config, s: System, k: nat)
    requires ValidConfig(c) && OrderlyReachable(c, s) && k < |s.arena.managers|
    ensures s.arena.managers[k].activeCount == |RecordsInUse(s.arena, k)| + |SlotHolders(s, k)|
  {
    ReachableHolds(c, s);
    var a := s.arena;
    assert ManagerOk(a.owners, a.count, k, a.managers[k]);
    forall r ensures r in RecordsInUse(a, k) <==> r in ActiveRecords(a.owners, k) {
      if r in a.records {
        OwnerOnLists(c, s, r);
      }
    }
    assert RecordsInUse(a, k) == ActiveRecords(a.owners, k);
    forall t ensures t in SlotHolders(s, k) <==> t in a.managers[k].slots {
      assert SlotMatches(a, t, ThreadAt(s, t), k);
    }
    assert SlotHolders(s, k) == a.managers[k].slots;
  }

  /** A trim discards only records on a free list: none that a thread, a list or a block refers to. */
  lemma TrimDiscardsOnlyFreeRecords(c: Config, s: System, s': System, t: ThreadId, r: RecordIndex)
    requires ValidConfig(c) && OrderlyReachable(c, s) && StepBy(c, s, s', t)
    requires ThreadAt(s, t).pc.Trim?
    requires r < s.arena.count && r >= s'.arena.count
    ensures OnFree(s.arena, r) && !InThreadsHands(s, r)
  {
    ReachableHolds(c, s);
    TrimStepsOnly(c, s.arena, s'.arena, ThreadAt(s, t), ThreadAt(s', t), t);
    if !ThreadAt(s, t).pc.trim.ShrinkCas? {
      OnlyShrinkMovesCount(c, s.arena, s'.arena, ThreadAt(s, t), ThreadAt(s', t), t);
    }
    assert r in s.arena.records;
    ShrinkDiscardsFree(c, s.arena, t, ThreadAt(s, t), r);
    OwnerInHands(c, s, r);
  }

  lemma TrimStepsOnly(c: Config, a: Arena, a': Arena, th: Thread, th': Thread, t: ThreadId)
    requires ThreadStep(c, a, th, a', th', t) && th.pc.Trim?
    ensures TrimStep(c, a, th, a', th', t)
  {
    if SearchStep(c, a, th, a', th', t) { assert false; }
    else if RecycleStep(c, a, th, a', th', t) { assert false; }
    else if ReserveStep(c, a, th, a', th', t) { assert false; }
    else if CutStep(c, a, th, a', th', t) { assert false; }
    else if BindStep(c, a, th, a', th', t) { assert false; }
    else if FreeStep(c, a, th, a', th', t) { assert false; }
    else if WindowStep(c, a, th, a', th', t) { assert false; }
    else if WalkStep(c, a, th, a', th', t) { assert false; }
  }

  lemma OnlyShrinkMovesCount(c: Config, a: Arena, a': Arena, th: Thread, th': Thread, t: ThreadId)
    requires TrimStep(c, a, th, a', th', t) && !th.pc.trim.ShrinkCas?
    ensures a'.count == a.count
  {
    match th.pc.trim
    case LoadForTrim => assert LoadForTrimStep(c, a, th, a', th');
    case ClaimManager(_, _) => assert ClaimManagerStep(c, a, th, a', th', t);
    case CheckTrim(_, _) => assert CheckTrimStep(c, a, th, a', th');
    case ClearList(_) => assert ClearListStep(c, a, th, a', th', t);
    case OpenManager(_) => assert OpenManagerStep(c, a, th, a', th');
  }

  /** Every record bound to a block, or held by a thread, keeps an index below the count. */
  lemma RecordsInUseStayBelowCount(c: Config, s: System, r: RecordIndex)
    requires ValidConfig(c) && OrderlyReachable(c, s)
    requires InThreadsHands(s, r) || exists b :: b in s.arena.holders && s.arena.holders[b] == Bound(r)
    ensures r < s.arena.count
  {
    ReachableHolds(c, s);
    var a := s.arena;
    if InThreadsHands(s, r) {
      var t :| HeldBy(ThreadAt(s, t), r).Some?;
      assert RecordMatches(a, t, ThreadAt(s, t), r);
    } else {
      var b :| b in a.holders && a.holders[b] == Bound(r);
      assert HolderOk(a, b);
    }
    assert r in a.records;
  }

  // ----- branches that are never taken -----

  /** The DISCARD branch of a claim is unreachable, so no record is dropped from the bins. */
  lemma NeverDiscards(c: Config, s: System, t: ThreadId)
    requires ValidConfig(c) && OrderlyReachable(c, s)
    requires ThreadAt(s, t).pc.Search? && ThreadAt(s, t).pc.search.Popped?
    ensures var m := ThreadAt(s, t).pc.search.m; m < s.arena.count && Reclaimable(RecordAt(s.arena, m).word.state)
  {
    ReachableHolds(c, s);
    PoppedIsReclaimable(c, s.arena, t, ThreadAt(s, t));
  }

  /** No batch entry is skipped when a maintenance window publishes its batch. */
  lemma NeverSkipsBatchEntry(c: Config, s: System, t: ThreadId, m: RecordIndex)
    requires ValidConfig(c) && OrderlyReachable(c, s)
    requires ThreadAt(s, t).pc.Window? && m in ThreadAt(s, t).pc.batch
    ensures m < s.arena.count && RecordAt(s.arena, m).word.state.DeallocatedPending?
  {
    ReachableHolds(c, s);
    BatchIsPending(c, s.arena, t, ThreadAt(s, t), m);
  }

  // ----- freeing -----

  /** Whoever frees a live block finds, through its header, a record that matches: the free is accepted. */
  lemma LiveBlockCanBeFreed(c: Config, s: System, b: Address)
    requires ValidConfig(c) && OrderlyReachable(c, s) && b in s.arena.live
    ensures b in s.arena.headers && s.arena.headers[b].metadataIndex < s.arena.count
    ensures var w := RecordAt(s.arena, HeaderAt(s.arena, b).metadataIndex).word; w.state.InUse? && w.block == Some(b)
  {
    ReachableHolds(c, s);
    var a := s.arena;
    assert LiveBlockOk(a, b);
    assert HolderOk(a, b);
    assert RecordOk(c, a, a.holders[b].record);
  }

  lemma LiveHasClient(a: Arena, b: Address)
    requires LiveOk(a)
    ensures b in a.live ==> b in a.holders && a.holders[b].Bound? && a.holders[b].record in a.owners && a.owners[a.holders[b].record].WithClient?
  {
    if b in a.live {
      assert LiveBlockOk(a, b);
    }
  }

  /** do_allocate never returns a block the client already has. */
  lemma ReturnedBlockIsNew(c: Config, s: System, t: ThreadId)
    requires ValidConfig(c) && OrderlyReachable(c, s)
    requires ThreadAt(s, t).pc.Bind? && ThreadAt(s, t).pc.bind.Return?
    ensures ThreadAt(s, t).pc.b !in s.arena.live
  {
    ReachableHolds(c, s);
    var (a, th) := (s.arena, ThreadAt(s, t));
    assert RecordMatches(a, t, th, th.pc.m) && RecordOk(c, a, th.pc.m);
    LiveHasClient(a, th.pc.b);
  }
}
