/** What each live run was given out for, and that a request is met when there is something to meet it with. */
module BitBlockProgress {
  import opened BitBlock
  import opened BitBlockSafety

  // ----- runs and the requests they serve -----

  predicate HasRequest(pc: Pc) {
    !pc.Idle? && !pc.Called? && !pc.AddBack?
  }

  ghost predicate ThreadRequestOk(c: Config, s: System, t: ThreadId)
    requires ValidConfig(c)
  {
    && (PcAt(s, t).Called? ==> AskedBy(s, t) == PcAt(s, t).bytes < SIZE_LIMIT)
    && (HasRequest(PcAt(s, t)) ==> AskedBy(s, t) < SIZE_LIMIT && 0 < PcAt(s, t).n == ElementsForBytes(c, AskedBy(s, t)))
    && (HasRequest(PcAt(s, t)) && !PcAt(s, t).Search? ==> PcAt(s, t).n <= LONGEST_RUN)
  }

  ghost predicate RunRequestOk(c: Config, s: System, b: BlockId, start: nat)
    requires ValidConfig(c)
  {
    Live(s, b, start) ==>
      && (b, start) in s.given && s.given[(b, start)] < SIZE_LIMIT
      && 0 < s.blocks[b].taken[start].n == ElementsForBytes(c, s.given[(b, start)])
      && s.blocks[b].taken[start].n <= LONGEST_RUN
  }

  ghost predicate RequestsOk(c: Config, s: System)
    requires ValidConfig(c)
  {
    && (forall t {:trigger ThreadRequestOk(c, s, t)} :: ThreadRequestOk(c, s, t))
    && (forall b, start {:trigger RunRequestOk(c, s, b, start)} :: RunRequestOk(c, s, b, start))
  }

  lemma OwnRequestKept(c: Config, s: System, s': System, t: ThreadId)
    requires ValidConfig(c) && ThreadRequestOk(c, s, t) && StepBy(c, s, s', t)
    ensures ThreadRequestOk(c, s', t)
  {}

  lemma OthersRequestKept(c: Config, s: System, s': System, t: ThreadId, u: ThreadId)
    requires ValidConfig(c) && ThreadRequestOk(c, s, u) && StepBy(c, s, s', t) && u != t
    ensures ThreadRequestOk(c, s', u)
  {
    assert PcAt(s', u) == PcAt(s, u);
    assert s'.asked == s.asked || s'.asked == s.asked[t := PcAt(s', t).bytes];
  }

  lemma ThreadRequestKept(c: Config, s: System, s': System, t: ThreadId, u: ThreadId)
    requires ValidConfig(c) && RequestsOk(c, s) && StepBy(c, s, s', t)
    ensures ThreadRequestOk(c, s', u)
  {
    assert ThreadRequestOk(c, s, u);
    if u == t {
      OwnRequestKept(c, s, s', t);
    } else {
      OthersRequestKept(c, s, s', t, u);
    }
  }

  /** The run that starts there is the client's after the step, and so it was before. */
  predicate WasLive(s: System, s': System, b: BlockId, start: nat) {
    Live(s', b, start) ==>
      && Live(s, b, start) && s'.blocks[b].taken[start].n == s.blocks[b].taken[start].n
      && ((b, start) in s.given ==> (b, start) in s'.given && s'.given[(b, start)] == s.given[(b, start)])
  }

  lemma LocalLive(c: Config, s: System, s': System, t: ThreadId, b: BlockId, start: nat)
    requires ValidConfig(c) && StepBy(c, s, s', t)
    requires var pc := PcAt(s, t); !(pc.Scan? || pc.Finalize? || (pc.Idle? && !PcAt(s', t).Called?))
    ensures WasLive(s, s', b, start)
  {}

  lemma ScanLive(c: Config, s: System, s': System, t: ThreadId, b: BlockId, start: nat)
    requires ValidConfig(c) && ScanStep(c, s, PcAt(s, t), s', PcAt(s', t), t)
    ensures WasLive(s, s', b, start)
  {}

  lemma ReleaseLive(s: System, s': System, t: ThreadId, b: BlockId, start: nat)
    requires ReleaseStep(s, PcAt(s, t), s', PcAt(s', t))
    ensures WasLive(s, s', b, start)
  {}

  lemma FinalizeLive(s: System, s': System, t: ThreadId, b: BlockId, start: nat)
    requires FinalizeStep(s, PcAt(s, t), s', PcAt(s', t), t) && PcAt(s, t).n > 0
    ensures (b, start) != (PcAt(s, t).b, PcAt(s, t).start) ==> WasLive(s, s', b, start)
    ensures (b, start) == (PcAt(s, t).b, PcAt(s, t).start) && Live(s', b, start) ==>
      (b, start) in s'.given && s'.given[(b, start)] == AskedBy(s, t) && s'.blocks[b].taken[start].n == PcAt(s, t).n
  {
    var pc := PcAt(s, t);
    assert pc.start in Run(pc.start, pc.n);
  }

  lemma RunRequestKept(c: Config, s: System, s': System, t: ThreadId, b: BlockId, start: nat)
    requires ValidConfig(c) && StepBy(c, s, s', t) && RunRequestOk(c, s, b, start) && ThreadRequestOk(c, s, t)
    ensures RunRequestOk(c, s', b, start)
  {
    var (pc, pc') := (PcAt(s, t), PcAt(s', t));
    if pc.Finalize? {
      FinalizeLive(s, s', t, b, start);
    } else if pc.Scan? {
      ScanLive(c, s, s', t, b, start);
    } else if pc.Idle? && !pc'.Called? {
      ReleaseLive(s, s', t, b, start);
    } else {
      LocalLive(c, s, s', t, b, start);
    }
  }

  lemma {:induction false} RunRequests(c: Config, requested: nat, run: seq<System>, i: nat)
    requires ValidConfig(c) && IsRun(c, requested, run) && i < |run|
    ensures RequestsOk(c, run[i])
  {
    if i > 0 {
      RunRequests(c, requested, run, i - 1);
      assert NextAt(c, run, i - 1);
      var t :| StepBy(c, run[i - 1], run[i], t);
      forall u ensures ThreadRequestOk(c, run[i], u) {
        ThreadRequestKept(c, run[i - 1], run[i], t, u);
      }
      assert ThreadRequestOk(c, run[i - 1], t);
      forall b, start ensures RunRequestOk(c, run[i], b, start) {
        assert RunRequestOk(c, run[i - 1], b, start);
        RunRequestKept(c, run[i - 1], run[i], t, b, start);
      }
    }
  }

  /** In every reachable state a live run holds the bytes it was asked for and its header, with no element to spare and 16 at most. */
  lemma LiveRunsHoldTheirRequest(c: Config, s: System, b: BlockId, start: nat)
    requires ValidConfig(c) && Reachable(c, s) && Live(s, b, start)
    ensures (b, start) in s.given
    ensures var (bytes, n) := (s.given[(b, start)], s.blocks[b].taken[start].n);
      n <= LONGEST_RUN && (n - 1) * c.elementSize < bytes + HEADER_SIZE <= n * c.elementSize
  {
    var requested: nat, run :| IsRun(c, requested, run) && run[|run| - 1] == s;
    RunRequests(c, requested, run, |run| - 1);
    ReachableHolds(c, s);
    assert RunRequestOk(c, s, b, start) && BitOk(c, s, b, start);
    ElementsAreEnough(c, s.given[(b, start)]);
  }

  // ----- clear runs -----

  /** The block has n clear elements in a row: a request for n can be met. */
  ghost predicate HasRun(c: Config, block: Block, n: nat) {
    exists start: nat {:trigger Run(start, n)} :: start + n <= c.elements && Run(start, n) !! block.taken.Keys
  }

  // ----- the steps of one thread -----

  /** A set of states that no step of thread t leaves. */
  ghost predicate Closed(c: Config, states: iset<System>, t: ThreadId)
    requires ValidConfig(c)
  {
    forall s, s' {:trigger StepBy(c, s, s', t)} :: s in states && StepBy(c, s, s', t) ==> s' in states
  }

  ghost predicate SoloAt(c: Config, path: seq<System>, i: nat, t: ThreadId)
    requires ValidConfig(c) && i + 1 < |path|
  {
    StepBy(c, path[i], path[i + 1], t)
  }

  ghost predicate IsSolo(c: Config, path: seq<System>, t: ThreadId)
    requires ValidConfig(c)
  {
    |path| > 0 && forall i {:trigger SoloAt(c, path, i, t)} :: 0 <= i < |path| - 1 ==> SoloAt(c, path, i, t)
  }

  /** Thread t takes s to s' on its own. */
  ghost predicate Leads(c: Config, s: System, s': System, t: ThreadId)
    requires ValidConfig(c)
  {
    exists path {:trigger IsSolo(c, path, t)} :: IsSolo(c, path, t) && path[0] == s && path[|path| - 1] == s'
  }

  ghost function ReachableStates(c: Config): iset<System>
    requires ValidConfig(c)
  {
    iset s | Reachable(c, s)
  }

  ghost function Reached(c: Config, s: System, t: ThreadId): iset<System>
    requires ValidConfig(c)
  {
    iset s' | Reachable(c, s') && Leads(c, s, s', t)
  }

  lemma ReachableIsClosed(c: Config, t: ThreadId)
    requires ValidConfig(c)
    ensures Closed(c, ReachableStates(c), t)
  {
    forall s, s' | s in ReachableStates(c) && StepBy(c, s, s', t) ensures s' in ReachableStates(c) {
      Extend(c, s, s', t);
    }
  }

  lemma LeadsOn(c: Config, s: System, s1: System, s': System, t: ThreadId)
    requires ValidConfig(c) && Leads(c, s, s1, t) && StepBy(c, s1, s', t)
    ensures Leads(c, s, s', t)
  {
    var path :| IsSolo(c, path, t) && path[0] == s && path[|path| - 1] == s1;
    var path' := path + [s'];
    forall i: nat | i + 1 < |path'| ensures SoloAt(c, path', i, t) {
      if i + 1 < |path| {
        assert SoloAt(c, path, i, t);
      }
    }
    assert IsSolo(c, path', t);
  }

  lemma ReachedIsClosed(c: Config, s: System, t: ThreadId)
    requires ValidConfig(c) && Reachable(c, s)
    ensures Closed(c, Reached(c, s, t), t) && s in Reached(c, s, t)
  {
    assert IsSolo(c, [s], t);
    forall s1, s' | s1 in Reached(c, s, t) && StepBy(c, s1, s', t) ensures s' in Reached(c, s, t) {
      Extend(c, s1, s', t);
      LeadsOn(c, s, s1, s', t);
    }
  }

  lemma Extend(c: Config, s: System, s': System, t: ThreadId)
    requires ValidConfig(c) && Reachable(c, s) && StepBy(c, s, s', t)
    ensures Reachable(c, s')
  {
    var requested: nat, run :| IsRun(c, requested, run) && run[|run| - 1] == s;
    var run' := run + [s'];
    forall i: nat | i + 1 < |run'| ensures NextAt(c, run', i) {
      if i + 1 < |run| {
        assert NextAt(c, run, i);
      }
    }
    assert IsRun(c, requested, run');
  }

  function WithPc(s: System, t: ThreadId, pc: Pc): System {
    s.(threads := s.threads[t := pc])
  }

  /** Block b is now as given, and the other blocks are as they were. */
  predicate Only(s: System, s': System, b: BlockId, block: Block) {
    s'.blocks == s.blocks[b := block]
  }

  lemma Again(s: System, s1: System, s2: System, b: BlockId, block1: Block, block2: Block)
    requires Only(s, s1, b, block1) && Only(s1, s2, b, block2)
    ensures Only(s, s2, b, block2)
  {}

  lemma Starts(c: Config, states: iset<System>, s: System, t: ThreadId, bytes: nat) returns (s': System)
    requires ValidConfig(c) && Closed(c, states, t) && s in states && PcAt(s, t).Idle?
    requires bytes < SIZE_LIMIT && ElementsForBytes(c, bytes) > 0
    ensures s' in states && PcAt(s', t) == Search(ElementsForBytes(c, bytes)) && AskedBy(s', t) == bytes
    ensures s'.blocks == s.blocks && s'.totalBlocks == s.totalBlocks && s'.given == s.given
  {
    var s1 := WithPc(s, t, Called(bytes)).(asked := s.asked[t := bytes]);
    assert CallStep(s, PcAt(s, t), s1, Called(bytes), t);
    assert StepBy(c, s, s1, t);
    s' := WithPc(s1, t, Search(ElementsForBytes(c, bytes)));
    assert StartStep(c, s1, Called(bytes), s', PcAt(s', t));
    assert StepBy(c, s1, s', t);
  }

  lemma Picks(c: Config, states: iset<System>, s: System, t: ThreadId, b: BlockId, n: nat) returns (s': System)
    requires ValidConfig(c) && Closed(c, states, t) && s in states && PcAt(s, t) == Search(n)
    requires b in s.blocks && n <= LONGEST_RUN && n <= s.blocks[b].freeCount
    ensures s' in states && PcAt(s', t) == Scan(n, b) && SameRequests(s, s') && s'.blocks == s.blocks
  {
    s' := WithPc(s, t, Scan(n, b));
    assert SearchStep(s, Search(n), s', Scan(n, b));
    assert StepBy(c, s, s', t);
  }

  lemma Acquires(c: Config, states: iset<System>, s: System, t: ThreadId, b: BlockId, start: nat, n: nat)
    returns (s': System, block: Block)
    requires ValidConfig(c) && Closed(c, states, t) && s in states && PcAt(s, t) == Scan(n, b) && b in s.blocks
    requires start + n <= c.elements && Run(start, n) !! s.blocks[b].taken.Keys
    ensures s' in states && PcAt(s', t) == Subtract(n, b, start) && SameRequests(s, s') && Only(s, s', b, block)
    ensures block.freeCount == s.blocks[b].freeCount && block.taken == s.blocks[b].taken + Fill(Run(start, n), ByThread(t))
  {
    block := s.blocks[b].(taken := s.blocks[b].taken + Fill(Run(start, n), ByThread(t)));
    s' := WithPc(s, t, Subtract(n, b, start)).(blocks := s.blocks[b := block]);
    assert ScanStep(c, s, Scan(n, b), s', Subtract(n, b, start), t);
    assert StepBy(c, s, s', t);
  }

  lemma Subtracts(c: Config, states: iset<System>, s: System, t: ThreadId, b: BlockId, start: nat, n: nat)
    returns (s': System, block: Block)
    requires ValidConfig(c) && Closed(c, states, t) && s in states && PcAt(s, t) == Subtract(n, b, start)
    requires b in s.blocks && n <= s.blocks[b].freeCount < WORD
    ensures s' in states && PcAt(s', t) == Finalize(n, b, start) && SameRequests(s, s') && Only(s, s', b, block)
    ensures block.freeCount == s.blocks[b].freeCount - n && block.taken == s.blocks[b].taken
  {
    block := s.blocks[b].(freeCount := Wrap(s.blocks[b].freeCount - n));
    s' := WithPc(s, t, Finalize(n, b, start)).(blocks := s.blocks[b := block]);
    assert SubtractStep(s, Subtract(n, b, start), s', Finalize(n, b, start));
    assert StepBy(c, s, s', t);
  }

  lemma Finalizes(c: Config, states: iset<System>, s: System, t: ThreadId, b: BlockId, start: nat, n: nat)
    returns (s': System, block: Block)
    requires ValidConfig(c) && Closed(c, states, t) && s in states && PcAt(s, t) == Finalize(n, b, start) && b in s.blocks
    ensures s' in states && PcAt(s', t).Idle? && s'.given == s.given[(b, start) := AskedBy(s, t)] && Only(s, s', b, block)
    ensures block.freeCount == s.blocks[b].freeCount && block.taken == s.blocks[b].taken + Fill(Run(start, n), WithClient(start, n))
  {
    block := s.blocks[b].(taken := s.blocks[b].taken + Fill(Run(start, n), WithClient(start, n)));
    s' := WithPc(s, t, Idle).(blocks := s.blocks[b := block], given := s.given[(b, start) := AskedBy(s, t)]);
    assert FinalizeStep(s, Finalize(n, b, start), s', Idle, t);
    assert StepBy(c, s, s', t);
  }

  lemma GivesBack(c: Config, states: iset<System>, s: System, t: ThreadId, b: BlockId, start: nat)
    returns (s': System, block: Block)
    requires ValidConfig(c) && Closed(c, states, t) && s in states && PcAt(s, t).Idle? && Live(s, b, start)
    ensures s' in states && Only(s, s', b, block)
    ensures block.freeCount == s.blocks[b].freeCount && block.taken == s.blocks[b].taken - Run(start, s.blocks[b].taken[start].n)
  {
    var n := s.blocks[b].taken[start].n;
    block := s.blocks[b].(taken := s.blocks[b].taken - Run(start, n));
    s' := WithPc(s, t, AddBack(n, b)).(blocks := s.blocks[b := block]);
    assert ReleaseStep(s, Idle, s', AddBack(n, b));
    assert StepBy(c, s, s', t);
  }

  lemma Overwrites(taken: map<nat, Holder>, run: set<nat>, g: Holder, h: Holder)
    ensures taken + Fill(run, g) + Fill(run, h) == taken + Fill(run, h)
  {}

  /** From the choice of a block on, the allocation gets the run at start. */
  lemma TakesRun(c: Config, states: iset<System>, s: System, t: ThreadId, b: BlockId, start: nat, n: nat)
    returns (s': System, block: Block)
    requires ValidConfig(c) && Closed(c, states, t) && s in states && PcAt(s, t) == Search(n) && n <= LONGEST_RUN
    requires b in s.blocks && n <= s.blocks[b].freeCount < WORD
    requires start + n <= c.elements && Run(start, n) !! s.blocks[b].taken.Keys
    ensures s' in states && PcAt(s', t).Idle? && s'.given == s.given[(b, start) := AskedBy(s, t)] && Only(s, s', b, block)
    ensures block.freeCount == s.blocks[b].freeCount - n
    ensures block.taken == s.blocks[b].taken + Fill(Run(start, n), WithClient(start, n))
  {
    var s1 := Picks(c, states, s, t, b, n);
    var s2, block2 := Acquires(c, states, s1, t, b, start, n);
    var s3, block3 := Subtracts(c, states, s2, t, b, start, n);
    Again(s1, s2, s3, b, block2, block3);
    s', block := Finalizes(c, states, s3, t, b, start, n);
    Again(s1, s3, s', b, block3, block);
    Overwrites(s.blocks[b].taken, Run(start, n), ByThread(t), WithClient(start, n));
  }

  /** A whole allocation from a block whose count does not turn it away. */
  lemma Allocates(c: Config, states: iset<System>, s: System, t: ThreadId, b: BlockId, start: nat, bytes: nat, n: nat)
    returns (s': System, block: Block)
    requires ValidConfig(c) && Closed(c, states, t) && s in states && PcAt(s, t).Idle?
    requires bytes < SIZE_LIMIT && 0 < n == ElementsForBytes(c, bytes) <= LONGEST_RUN
    requires b in s.blocks && n <= s.blocks[b].freeCount < WORD
    requires start + n <= c.elements && Run(start, n) !! s.blocks[b].taken.Keys
    ensures s' in states && PcAt(s', t).Idle? && s'.given == s.given[(b, start) := bytes] && Only(s, s', b, block)
    ensures block.freeCount == s.blocks[b].freeCount - n
    ensures block.taken == s.blocks[b].taken + Fill(Run(start, n), WithClient(start, n))
  {
    var s1 := Starts(c, states, s, t, bytes);
    s', block := TakesRun(c, states, s1, t, b, start, n);
  }

  lemma AsksForBlock(c: Config, states: iset<System>, s: System, t: ThreadId, n: nat) returns (s': System)
    requires ValidConfig(c) && Closed(c, states, t) && s in states && PcAt(s, t) == Search(n) && n <= LONGEST_RUN
    requires s.totalBlocks < c.maxBlocks
    ensures s' in states && PcAt(s', t) == AskUpstream(n) && s'.blocks == s.blocks && SameRequests(s, s')
  {
    var s1 := WithPc(s, t, Reserve(n));
    assert SearchStep(s, Search(n), s1, Reserve(n));
    assert StepBy(c, s, s1, t);
    s' := WithPc(s1, t, AskUpstream(n)).(totalBlocks := s.totalBlocks + 1);
    assert ReserveStep(c, s1, Reserve(n), s', AskUpstream(n));
    assert StepBy(c, s1, s', t);
  }

  lemma LinksBlock(c: Config, states: iset<System>, s: System, t: ThreadId, n: nat, b: BlockId) returns (s': System)
    requires ValidConfig(c) && Closed(c, states, t) && s in states && PcAt(s, t) == AskUpstream(n) && b !in s.blocks
    ensures s' in states && PcAt(s', t) == Search(n)
    ensures Only(s, s', b, Block(c.elements, map[])) && SameRequests(s, s')
  {
    var s1 := WithPc(s, t, LinkBlock(n));
    assert AskUpstreamStep(s, AskUpstream(n), s1, LinkBlock(n));
    assert StepBy(c, s, s1, t);
    s' := WithPc(s1, t, Search(n)).(blocks := s1.blocks[b := Block(c.elements, map[])]);
    assert LinkBlockStep(c, s1, LinkBlock(n), s', Search(n));
    assert StepBy(c, s1, s', t);
  }

  /** A call that has a new block linked and takes its first elements. */
  lemma FillsNewBlock(c: Config, states: iset<System>, s: System, t: ThreadId, b: BlockId, start: nat, bytes: nat, n: nat)
    returns (s': System, block: Block)
    requires ValidConfig(c) && Closed(c, states, t) && s in states && PcAt(s, t).Idle? && s.totalBlocks < c.maxBlocks && b !in s.blocks
    requires bytes < SIZE_LIMIT && 0 < n == ElementsForBytes(c, bytes) <= LONGEST_RUN && start == 0
    ensures s' in states && PcAt(s', t).Idle? && s'.given == s.given[(b, start) := bytes] && Only(s, s', b, block)
    ensures block.taken == Fill(Run(start, n), WithClient(start, n))
  {
    var s1 := Starts(c, states, s, t, bytes);
    var s2 := AsksForBlock(c, states, s1, t, n);
    var s3 := LinksBlock(c, states, s2, t, n, b);
    s', block := TakesRun(c, states, s3, t, b, start, n);
    Again(s, s3, s', b, s3.blocks[b], block);
    assert map[] + Fill(Run(start, n), WithClient(start, n)) == Fill(Run(start, n), WithClient(start, n));
  }

  // ----- requests that can be met are met -----

  /** The thread's call for `bytes` ended with the run of block b that starts at start, and nothing else changed. */
  predicate Served(c: Config, s: System, s': System, t: ThreadId, bytes: nat, b: BlockId, start: nat)
    requires ValidConfig(c)
  {
    && PcAt(s', t).Idle? && !Live(s, b, start) && Live(s', b, start)
    && s'.blocks[b].taken[start].n == ElementsForBytes(c, bytes) && s'.given == s.given[(b, start) := bytes]
    && forall b' :: b' in s.blocks && b' != b ==> b' in s'.blocks && s'.blocks[b'] == s.blocks[b']
  }

  lemma RunIsServed(c: Config, s: System, s': System, t: ThreadId, bytes: nat, b: BlockId, block: Block, start: nat, n: nat)
    requires ValidConfig(c) && PcAt(s', t).Idle? && s'.given == s.given[(b, start) := bytes] && !Live(s, b, start)
    requires 0 < n == ElementsForBytes(c, bytes) && Only(s, s', b, block)
    requires Fill(Run(start, n), WithClient(start, n)).Items <= block.taken.Items
    ensures Served(c, s, s', t, bytes, b, start)
  {
    assert start in Run(start, n);
    assert (start, WithClient(start, n)) in Fill(Run(start, n), WithClient(start, n)).Items;
  }

  /** Any request of at most 16 elements is met from a block that has a clear run and no update pending. */
  lemma MeetsRequest(c: Config, s: System, t: ThreadId, b: BlockId, bytes: nat) returns (s': System, start: nat)
    requires ValidConfig(c) && Reachable(c, s) && PcAt(s, t).Idle? && b in s.blocks
    requires forall u :: SubOf(PcAt(s, u), b) == 0 && AddOf(PcAt(s, u), b) == 0
    requires bytes < SIZE_LIMIT && 0 < ElementsForBytes(c, bytes) <= LONGEST_RUN && HasRun(c, s.blocks[b], ElementsForBytes(c, bytes))
    ensures Reachable(c, s') && Leads(c, s, s', t) && Served(c, s, s', t, bytes, b, start)
  {
    var n := ElementsForBytes(c, bytes);
    start :| start + n <= c.elements && Run(start, n) !! s.blocks[b].taken.Keys;
    RunFitsCount(c, s, b, start, n);
    ReachedIsClosed(c, s, t);
    var block;
    s', block := Allocates(c, Reached(c, s, t), s, t, b, start, bytes, n);
    assert start in Run(start, n);
    RunIsServed(c, s, s', t, bytes, b, block, start, n);
  }

  lemma RunFitsCount(c: Config, s: System, b: BlockId, start: nat, n: nat)
    requires ValidConfig(c) && Reachable(c, s) && b in s.blocks
    requires forall u :: SubOf(PcAt(s, u), b) == 0 && AddOf(PcAt(s, u), b) == 0
    requires start + n <= c.elements && Run(start, n) !! s.blocks[b].taken.Keys
    ensures n <= s.blocks[b].freeCount < WORD
  {
    QuietCountIsClear(c, s, b);
    ReachableHolds(c, s);
    ClearRunFits(c, s, b, start, n);
  }

  /** A clear run is made of clear elements. */
  lemma ClearRunFits(c: Config, s: System, b: BlockId, start: nat, n: nat)
    requires Inv(c, s) && b in s.blocks && start + n <= c.elements && Run(start, n) !! s.blocks[b].taken.Keys
    ensures n <= Clear(c, s.blocks[b]) <= c.elements
  {
    var block := s.blocks[b];
    forall i | i in Run(start, n) + block.taken.Keys ensures i in Run(0, c.elements) {
      if i in block.taken {
        assert BitOk(c, s, b, i);
      }
    }
    RunSize(start, n);
    RunSize(0, c.elements);
    SubsetSize(Run(start, n) + block.taken.Keys, Run(0, c.elements));
    assert |Run(start, n) + block.taken.Keys| == n + |block.taken.Keys|;
    assert |block.taken| == |block.taken.Keys|;
  }

  /** Or from a new block, while fewer than the maximum are linked or reserved. */
  lemma MeetsRequestFromNewBlock(c: Config, s: System, t: ThreadId, bytes: nat, b: BlockId) returns (s': System)
    requires ValidConfig(c) && Reachable(c, s) && PcAt(s, t).Idle? && s.totalBlocks < c.maxBlocks && b !in s.blocks
    requires bytes < SIZE_LIMIT && 0 < ElementsForBytes(c, bytes) <= LONGEST_RUN
    ensures Reachable(c, s') && Leads(c, s, s', t) && Served(c, s, s', t, bytes, b, 0)
  {
    ReachedIsClosed(c, s, t);
    var block;
    s', block := FillsNewBlock(c, Reached(c, s, t), s, t, b, 0, bytes, ElementsForBytes(c, bytes));
    RunIsServed(c, s, s', t, bytes, b, block, 0, ElementsForBytes(c, bytes));
  }
}
