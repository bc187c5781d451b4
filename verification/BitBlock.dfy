/**
  The counters of the bit-block resource: free_count_ of each block and total_blocks_, while any number
  of threads allocate, free and add blocks.  The bitmap is an atomic set: one step acquires a contiguous
  clear run or releases a run.  Which blocks a thread looks at, and in which order, is left open.
 */
module BitBlock {
  import opened Sums

  const WORD: nat := 0x1_0000_0000
  const SIZE_LIMIT: nat := 0x1_0000_0000_0000_0000
  const HEADER_SIZE: nat := 16
  const LONGEST_RUN: nat := 16

  type BlockId = nat
  type ThreadId = nat

  /** The template parameters. */
  datatype Config = Config(elementSize: nat, elements: nat, maxArenas: nat, maxBlocks: nat)

  predicate ValidConfig(c: Config) {
    && 16 <= c.elementSize <= 256 && c.elementSize % 16 == 0
    && 256 <= c.elements < WORD && 1 <= c.maxArenas <= 32 && 1 <= c.maxBlocks
  }

  // ----- sizes -----

  /** elements_for_bytes, in 64-bit arithmetic; zero refuses the request. */
  function ElementsForBytes(c: Config, bytes: nat): nat
    requires ValidConfig(c)
  {
    if bytes > SIZE_LIMIT - 1 - HEADER_SIZE then 0
    else (bytes + HEADER_SIZE + c.elementSize - 1) % 0x1_0000_0000_0000_0000 / c.elementSize
  }

  /** The sum may wrap, but then the result is zero: a request is refused or gets the fewest elements that hold it. */
  lemma ElementsAreEnough(c: Config, bytes: nat)
    requires ValidConfig(c) && bytes < SIZE_LIMIT
    ensures var n := ElementsForBytes(c, bytes);
      && (n == 0 <==> bytes + HEADER_SIZE + c.elementSize - 1 >= SIZE_LIMIT)
      && (n > 0 ==> (n - 1) * c.elementSize < bytes + HEADER_SIZE <= n * c.elementSize)
  {
    var sum := bytes + HEADER_SIZE + c.elementSize - 1;
    if bytes <= SIZE_LIMIT - 1 - HEADER_SIZE {
      if sum >= SIZE_LIMIT {
        assert sum % SIZE_LIMIT == sum - SIZE_LIMIT < c.elementSize;
        SmallQuotient(sum - SIZE_LIMIT, c.elementSize);
      } else {
        assert sum % SIZE_LIMIT == sum;
        Quotient(sum, c.elementSize);
      }
    }
  }

  lemma SmallQuotient(n: nat, d: nat)
    requires n < d
    ensures n / d == 0
  {}

  lemma Quotient(n: nat, d: nat)
    requires 0 < d <= n
    ensures n / d > 0 && n / d * d <= n < (n / d + 1) * d
    ensures (n / d - 1) * d == n / d * d - d
  {
    assert n == n / d * d + n % d;
    assert n / d > 0 by {
      if n / d == 0 {
        assert false;
      }
    }
  }

  /** clamp_arena_count */
  function ClampArenaCount(c: Config, requested: nat): nat {
    if requested == 0 then 1
    else
      var limit := if c.maxArenas < c.maxBlocks then c.maxArenas else c.maxBlocks;
      if requested < limit then requested else limit
  }

  function Distance(m: nat, n: nat): nat {
    if m < n then n - m else m - n
  }

  /** The number of arenas is the one nearest to the request among those that the two limits allow. */
  lemma ClampIsNearest(c: Config, requested: nat, n: nat)
    requires ValidConfig(c) && 1 <= n <= c.maxArenas && n <= c.maxBlocks
    ensures var r := ClampArenaCount(c, requested);
      1 <= r <= c.maxArenas && r <= c.maxBlocks && Distance(r, requested) <= Distance(n, requested)
  {}

  // ----- state -----

  datatype Holder = WithClient(start: nat, n: nat) | ByThread(thread: ThreadId)

  /** taken holds the set bits of the bitmap, each with whom it was set for. */
  datatype Block = Block(freeCount: nat, taken: map<nat, Holder>)

  datatype Pc =
    | Idle
    | Called(bytes: nat)
    | Search(n: nat)
    | Scan(n: nat, b: BlockId)
    | Subtract(n: nat, b: BlockId, start: nat)
    | Finalize(n: nat, b: BlockId, start: nat)
    | Reserve(n: nat)
    | AskUpstream(n: nat)
    | Unreserve(n: nat)
    | LinkBlock(n: nat)
    | AddBack(n: nat, b: BlockId)

  /**
    blocks are those linked into some arena's list.  asked and given are auxiliary: the bytes of each thread's
    last request, and the bytes that each run was given out for, by block and first element.
   */
  datatype System = System(
    blocks: map<BlockId, Block>, totalBlocks: nat, threads: map<ThreadId, Pc>,
    asked: map<ThreadId, nat>, given: map<(BlockId, nat), nat>)

  function AskedBy(s: System, t: ThreadId): nat {
    if t in s.asked then s.asked[t] else 0
  }

  predicate SameRequests(s: System, s': System) {
    s'.asked == s.asked && s'.given == s.given
  }

  function PcAt(s: System, t: ThreadId): Pc {
    if t in s.threads then s.threads[t] else Idle
  }

  function Run(start: nat, n: nat): (run: set<nat>)
    ensures forall i {:trigger i in run} :: i in run <==> start <= i < start + n
  {
    if n == 0 then {} else Run(start, n - 1) + {start + n - 1}
  }

  lemma {:induction false} RunSize(start: nat, n: nat)
    ensures |Run(start, n)| == n
  {
    if n > 0 {
      RunSize(start, n - 1);
    }
  }

  function Fill(run: set<nat>, h: Holder): (filled: map<nat, Holder>)
    ensures filled.Keys == run && forall i {:trigger filled[i]} :: i in run ==> filled[i] == h
  {
    map i | i in run :: h
  }

  /** Arithmetic on free_count_ is modulo 2^32. */
  function Wrap(x: int): nat {
    x % 0x1_0000_0000
  }

  // ----- steps -----

  /** The client calls do_allocate. */
  ghost predicate CallStep(s: System, pc: Pc, s': System, pc': Pc, t: ThreadId) {
    && pc.Idle? && pc'.Called? && pc'.bytes < SIZE_LIMIT && s'.blocks == s.blocks && s'.totalBlocks == s.totalBlocks
    && s'.asked == s.asked[t := pc'.bytes] && s'.given == s.given
  }

  ghost predicate StartStep(c: Config, s: System, pc: Pc, s': System, pc': Pc)
    requires ValidConfig(c)
  {
    && pc.Called? && SameRequests(s, s') && s'.blocks == s.blocks && s'.totalBlocks == s.totalBlocks
    && var n := ElementsForBytes(c, pc.bytes);
       pc' == if n == 0 then Idle else Search(n)
  }

  /** Picks a linked block, a new block, or gives up; a request longer than a run is never satisfied. */
  ghost predicate SearchStep(s: System, pc: Pc, s': System, pc': Pc) {
    && pc.Search? && SameRequests(s, s') && s'.blocks == s.blocks && s'.totalBlocks == s.totalBlocks
    && (|| pc'.Idle?
        || (pc' == Reserve(pc.n) && pc.n <= LONGEST_RUN)
        || (pc'.Scan? && pc.n <= LONGEST_RUN && pc'.b in s.blocks && pc' == Scan(pc.n, pc'.b) && s.blocks[pc'.b].freeCount >= pc.n))
  }

  /** acquire_first_available_contiguous: takes some clear run, or reports none. */
  ghost predicate ScanStep(c: Config, s: System, pc: Pc, s': System, pc': Pc, t: ThreadId) {
    && pc.Scan? && SameRequests(s, s') && s'.totalBlocks == s.totalBlocks
    && if pc'.Subtract? then
         && var run := Run(pc'.start, pc.n);
         && pc' == Subtract(pc.n, pc.b, pc'.start)
         && pc'.start + pc.n <= c.elements && pc.b in s.blocks && run !! s.blocks[pc.b].taken.Keys
         && s'.blocks == s.blocks[pc.b := s.blocks[pc.b].(taken := s.blocks[pc.b].taken + Fill(run, ByThread(t)))]
       else pc' == Search(pc.n) && s'.blocks == s.blocks
  }

  ghost predicate SubtractStep(s: System, pc: Pc, s': System, pc': Pc) {
    && pc.Subtract? && SameRequests(s, s') && s'.totalBlocks == s.totalBlocks && pc' == Finalize(pc.n, pc.b, pc.start)
    && pc.b in s.blocks
    && s'.blocks == s.blocks[pc.b := s.blocks[pc.b].(freeCount := Wrap(s.blocks[pc.b].freeCount - pc.n))]
  }

  /** finalize_allocation writes the header and returns: the run is the client's. */
  ghost predicate FinalizeStep(s: System, pc: Pc, s': System, pc': Pc, t: ThreadId) {
    && pc.Finalize? && s'.totalBlocks == s.totalBlocks && pc' == Idle
    && s'.asked == s.asked && s'.given == s.given[(pc.b, pc.start) := AskedBy(s, t)]
    && pc.b in s.blocks
    && s'.blocks == s.blocks[pc.b := s.blocks[pc.b].(taken := s.blocks[pc.b].taken + Fill(Run(pc.start, pc.n), WithClient(pc.start, pc.n)))]
  }

  ghost predicate ReserveStep(c: Config, s: System, pc: Pc, s': System, pc': Pc) {
    && pc.Reserve? && SameRequests(s, s') && s'.blocks == s.blocks
    && if s.totalBlocks < c.maxBlocks then pc' == AskUpstream(pc.n) && s'.totalBlocks == s.totalBlocks + 1
       else pc' == Search(pc.n) && s'.totalBlocks == s.totalBlocks
  }

  ghost predicate AskUpstreamStep(s: System, pc: Pc, s': System, pc': Pc) {
    && pc.AskUpstream? && SameRequests(s, s') && s'.blocks == s.blocks && s'.totalBlocks == s.totalBlocks
    && (pc' == LinkBlock(pc.n) || pc' == Unreserve(pc.n))
  }

  ghost predicate UnreserveStep(s: System, pc: Pc, s': System, pc': Pc) {
    && pc.Unreserve? && SameRequests(s, s') && s'.blocks == s.blocks && pc' == Search(pc.n)
    && s'.totalBlocks == if s.totalBlocks > 0 then s.totalBlocks - 1 else 0
  }

  ghost predicate LinkBlockStep(c: Config, s: System, pc: Pc, s': System, pc': Pc) {
    && pc.LinkBlock? && SameRequests(s, s') && pc' == Search(pc.n) && s'.totalBlocks == s.totalBlocks
    && exists b: BlockId {:trigger s.blocks[b := Block(c.elements, map[])]} :: b !in s.blocks && s'.blocks == s.blocks[b := Block(c.elements, map[])]
  }

  /** do_deallocate: the header names the block and the length of the run, whose bits are released first. */
  ghost predicate ReleaseStep(s: System, pc: Pc, s': System, pc': Pc) {
    && pc.Idle? && SameRequests(s, s') && s'.totalBlocks == s.totalBlocks
    && exists b, start {:trigger Live(s, b, start)} :: Live(s, b, start)
         && var n := s.blocks[b].taken[start].n;
         && pc' == AddBack(n, b)
         && s'.blocks == s.blocks[b := s.blocks[b].(taken := s.blocks[b].taken - Run(start, n))]
  }

  ghost predicate AddBackStep(s: System, pc: Pc, s': System, pc': Pc) {
    && pc.AddBack? && SameRequests(s, s') && s'.totalBlocks == s.totalBlocks && pc' == Idle
    && pc.b in s.blocks
    && s'.blocks == s.blocks[pc.b := s.blocks[pc.b].(freeCount := Wrap(s.blocks[pc.b].freeCount + pc.n))]
  }

  /** The client has an allocation that starts at element start of block b. */
  predicate Live(s: System, b: BlockId, start: nat) {
    && b in s.blocks && start in s.blocks[b].taken
    && s.blocks[b].taken[start].WithClient? && s.blocks[b].taken[start].start == start
  }

  ghost predicate StepBy(c: Config, s: System, s': System, t: ThreadId)
    requires ValidConfig(c)
  {
    var (pc, pc') := (PcAt(s, t), PcAt(s', t));
    && s'.threads == s.threads[t := pc']
    && (|| CallStep(s, pc, s', pc', t)
        || StartStep(c, s, pc, s', pc')
        || SearchStep(s, pc, s', pc')
        || ScanStep(c, s, pc, s', pc', t)
        || SubtractStep(s, pc, s', pc')
        || FinalizeStep(s, pc, s', pc', t)
        || ReserveStep(c, s, pc, s', pc')
        || AskUpstreamStep(s, pc, s', pc')
        || UnreserveStep(s, pc, s', pc')
        || LinkBlockStep(c, s, pc, s', pc')
        || ReleaseStep(s, pc, s', pc')
        || AddBackStep(s, pc, s', pc'))
  }

  /** The constructor's outcome: one empty block for each arena that upstream had memory for. */
  ghost predicate Init(c: Config, requested: nat, s: System) {
    && s.threads == map[] && s.asked == map[] && s.given == map[] && s.totalBlocks == |s.blocks| <= ClampArenaCount(c, requested)
    && forall b :: b in s.blocks ==> s.blocks[b] == Block(c.elements, map[])
  }

  ghost predicate Next(c: Config, s: System, s': System)
    requires ValidConfig(c)
  {
    exists t :: StepBy(c, s, s', t)
  }

  ghost predicate NextAt(c: Config, run: seq<System>, i: nat)
    requires ValidConfig(c) && i + 1 < |run|
  {
    Next(c, run[i], run[i + 1])
  }

  ghost predicate IsRun(c: Config, requested: nat, run: seq<System>)
    requires ValidConfig(c)
  {
    && |run| > 0 && Init(c, requested, run[0])
    && forall i {:trigger NextAt(c, run, i)} :: 0 <= i < |run| - 1 ==> NextAt(c, run, i)
  }

  /** The constructor's loop; upstream[i] tells whether the allocation for arena i succeeded. */
  method Construct(c: Config, requested: nat, upstream: seq<bool>) returns (s: System)
    requires ValidConfig(c) && |upstream| == ClampArenaCount(c, requested)
    ensures Init(c, requested, s)
    ensures forall i: nat {:trigger i in s.blocks} :: i in s.blocks <==> i < |upstream| && upstream[i]
  {
    var blocks: map<BlockId, Block> := map[];
    var created := 0;
    var i := 0;
    while i < |upstream|
      invariant 0 <= i <= |upstream| && created == |blocks| <= i
      invariant forall j: nat {:trigger j in blocks} :: j in blocks <==> j < i && upstream[j]
      invariant forall j {:trigger blocks[j]} :: j in blocks ==> blocks[j] == Block(c.elements, map[])
    {
      if upstream[i] {
        blocks := blocks[i := Block(c.elements, map[])];
        created := created + 1;
      }
      i := i + 1;
    }
    s := System(blocks, created, map[], map[], map[]);
  }
}
