/**
  free_count_ as a bound on what a block can still hold.  A request for n elements skips a block whose
  free_count_ is below n; the comment beside the test takes the count to be at least the longest clear run.
 */
module BitBlockBound {
  import opened Sums
  import opened BitBlock
  import opened BitBlockSafety
  import opened BitBlockProgress

  // ----- the longest clear run -----

  ghost function LongestUpTo(c: Config, block: Block, n: nat): (longest: nat)
    ensures longest <= n
  {
    if n == 0 || HasRun(c, block, n) then n else LongestUpTo(c, block, n - 1)
  }

  /** The length of the longest clear run. */
  ghost function Longest(c: Config, block: Block): nat {
    LongestUpTo(c, block, c.elements)
  }

  lemma ShorterRun(c: Config, block: Block, m: nat, n: nat)
    requires m <= n && HasRun(c, block, n)
    ensures HasRun(c, block, m)
  {
    var start: nat :| start + n <= c.elements && Run(start, n) !! block.taken.Keys;
    assert Run(start, m) <= Run(start, n);
  }

  lemma {:induction false} LongestIsRun(c: Config, block: Block, n: nat)
    ensures HasRun(c, block, LongestUpTo(c, block, n))
  {
    if n == 0 {
      assert Run(0, 0) !! block.taken.Keys;
    } else if !HasRun(c, block, n) {
      LongestIsRun(c, block, n - 1);
    }
  }

  lemma {:induction false} NoneLonger(c: Config, block: Block, n: nat, m: nat)
    requires LongestUpTo(c, block, n) < m <= n
    ensures !HasRun(c, block, m)
  {
    if m < n {
      NoneLonger(c, block, n - 1, m);
    }
  }

  /** Longest is what its name says: a request can be met exactly when it is no longer. */
  lemma LongestIs(c: Config, block: Block, n: nat)
    ensures HasRun(c, block, n) <==> n <= Longest(c, block)
  {
    if n <= Longest(c, block) {
      LongestIsRun(c, block, c.elements);
      ShorterRun(c, block, n, Longest(c, block));
    } else if n <= c.elements {
      NoneLonger(c, block, c.elements, n);
    }
  }

  /** A clear run is made of clear elements. */
  lemma LongestWithinClear(c: Config, s: System, b: BlockId)
    requires Inv(c, s) && b in s.blocks
    ensures Longest(c, s.blocks[b]) <= Clear(c, s.blocks[b])
  {
    var (block, n) := (s.blocks[b], Longest(c, s.blocks[b]));
    LongestIs(c, block, n);
    var start: nat :| start + n <= c.elements && Run(start, n) !! block.taken.Keys;
    ClearRunFits(c, s, b, start, n);
  }

  // ----- elements acquired and not yet subtracted are set bits -----

  function BitsOf(taken: map<nat, Holder>, threads: set<ThreadId>): set<nat> {
    set i | i in taken && taken[i].ByThread? && taken[i].thread in threads
  }

  lemma {:induction false} SubWithinBits(taken: map<nat, Holder>, threads: map<ThreadId, Pc>, b: BlockId)
    requires forall t :: t in threads && threads[t].Subtract? && threads[t].b == b ==>
      AllHeldBy(taken, threads[t].start, threads[t].n, ByThread(t))
    ensures ToSubtract(threads, b) <= |BitsOf(taken, threads.Keys)|
  {
    if threads != map[] {
      var t :| t in threads;
      var rest := threads - {t};
      SubWithinBits(taken, rest, b);
      SumRemove(SubMap(threads, b), t);
      assert SubMap(threads, b) - {t} == SubMap(rest, b);
      OneThreadsBits(taken, threads[t], b, t);
      BitsSplit(taken, rest.Keys, t);
      assert threads.Keys == rest.Keys + {t};
    }
  }

  lemma BitsSplit(taken: map<nat, Holder>, threads: set<ThreadId>, t: ThreadId)
    requires t !in threads
    ensures |BitsOf(taken, threads + {t})| == |BitsOf(taken, threads)| + |BitsOf(taken, {t})|
  {
    assert BitsOf(taken, threads + {t}) == BitsOf(taken, threads) + BitsOf(taken, {t});
    assert BitsOf(taken, threads) !! BitsOf(taken, {t});
  }

  lemma OneThreadsBits(taken: map<nat, Holder>, pc: Pc, b: BlockId, t: ThreadId)
    requires pc.Subtract? && pc.b == b ==> AllHeldBy(taken, pc.start, pc.n, ByThread(t))
    ensures SubOf(pc, b) <= |BitsOf(taken, {t})|
  {
    if pc.Subtract? && pc.b == b {
      assert Run(pc.start, pc.n) <= BitsOf(taken, {t});
      RunSize(pc.start, pc.n);
      SubsetSize(Run(pc.start, pc.n), BitsOf(taken, {t}));
    }
  }

  /** So clear elements and those still to be subtracted are together no more than the block has. */
  lemma ClearAndPendingFit(c: Config, s: System, b: BlockId)
    requires Inv(c, s) && b in s.blocks
    ensures 0 <= Clear(c, s.blocks[b]) && Clear(c, s.blocks[b]) + ToSubtract(s.threads, b) <= c.elements
  {
    var taken := s.blocks[b].taken;
    TakenFit(c, s, b);
    forall t | t in s.threads && s.threads[t].Subtract? && s.threads[t].b == b
      ensures AllHeldBy(taken, s.threads[t].start, s.threads[t].n, ByThread(t))
    {
      assert PcOk(c, s, t);
    }
    SubWithinBits(taken, s.threads, b);
    SubsetSize(BitsOf(taken, s.threads.Keys), taken.Keys);
    assert |taken| == |taken.Keys|;
  }

  // ----- when the bound holds -----

  /** The count, from the clear elements and the pending updates; it wraps when more is still to be added than they make up for. */
  lemma CountIs(c: Config, s: System, b: BlockId)
    requires ValidConfig(c) && Reachable(c, s) && b in s.blocks
    ensures var (clear, sub, add) := (Clear(c, s.blocks[b]), ToSubtract(s.threads, b), ToAdd(s.threads, b));
      && 0 <= clear && clear + sub <= c.elements && Longest(c, s.blocks[b]) <= clear
      && s.blocks[b].freeCount == Wrap(clear + sub - add)
      && (add <= clear + sub ==> s.blocks[b].freeCount == clear + sub - add)
      && (clear + sub < add < WORD ==> s.blocks[b].freeCount == WORD + clear + sub - add > clear)
  {
    ReachableHolds(c, s);
    assert CountOk(c, s, b);
    ClearAndPendingFit(c, s, b);
    LongestWithinClear(c, s, b);
  }

  /**
    The comment's bound: free_count_ is at least the longest clear run exactly when the elements released
    and not yet added leave room for that run beside those acquired and not yet subtracted - or they are
    so many that the count has wrapped, to a value that is large enough whenever fewer than 2^32 are pending.
   */
  lemma CountBoundsLongestRun(c: Config, s: System, b: BlockId)
    requires ValidConfig(c) && Reachable(c, s) && b in s.blocks
    ensures var (clear, sub, add, longest) :=
        (Clear(c, s.blocks[b]), ToSubtract(s.threads, b), ToAdd(s.threads, b), Longest(c, s.blocks[b]));
      && (s.blocks[b].freeCount >= longest <==>
            add + longest <= clear + sub || (add > clear + sub && Wrap(clear + sub - add) >= longest))
      && (add < WORD ==> (s.blocks[b].freeCount >= longest <==> add + longest <= clear + sub || add > clear + sub))
  {
    CountIs(c, s, b);
  }

  /**
    The test on free_count_ turns away a request that the block could meet exactly when the request is no
    longer than the longest clear run and the count, less what is still to be added, falls short of it.
   */
  lemma SkipIsWrong(c: Config, s: System, b: BlockId, n: nat)
    requires ValidConfig(c) && Reachable(c, s) && b in s.blocks && 1 <= n <= LONGEST_RUN
    ensures var (clear, sub, add, longest) :=
        (Clear(c, s.blocks[b]), ToSubtract(s.threads, b), ToAdd(s.threads, b), Longest(c, s.blocks[b]));
      && (HasRun(c, s.blocks[b], n) && s.blocks[b].freeCount < n <==> n <= longest && Wrap(clear + sub - add) < n)
      && (add < WORD ==> (HasRun(c, s.blocks[b], n) && s.blocks[b].freeCount < n <==> n <= longest && add <= clear + sub < add + n))
  {
    CountIs(c, s, b);
    LongestIs(c, s.blocks[b], n);
  }

  /** The same for all clear elements of a block, in a run or not. */
  lemma CountBoundsClear(c: Config, s: System, b: BlockId)
    requires ValidConfig(c) && Reachable(c, s) && b in s.blocks
    ensures var (clear, sub, add) := (Clear(c, s.blocks[b]), ToSubtract(s.threads, b), ToAdd(s.threads, b));
      && (s.blocks[b].freeCount >= clear <==> add <= sub || (add > clear + sub && Wrap(clear + sub - add) >= clear))
      && (add < WORD ==> (s.blocks[b].freeCount >= clear <==> add <= sub || add > clear + sub))
  {
    CountIs(c, s, b);
  }

  // ----- a request turned away -----

  const SMALL: Config := Config(16, 256, 1, 1)

  /** The first `used` elements are allocated, in runs of n. */
  function Runs(used: nat, n: nat): (taken: map<nat, Holder>)
    requires n > 0
  {
    if used < n then map[] else Runs(used - n, n) + Fill(Run(used - n, n), WithClient(used - n, n))
  }

  /** Thread 0, alone with block 0, has used up the first elements in runs of n. */
  predicate FilledTo(c: Config, s: System, used: nat, n: nat)
    requires n > 0
  {
    && s.blocks.Keys == {0} && PcAt(s, 0).Idle? && used <= c.elements
    && s.blocks[0].freeCount == c.elements - used && s.blocks[0].taken == Runs(used, n)
  }

  lemma Begins(n: nat) returns (s: System)
    requires n > 0
    ensures Reachable(SMALL, s) && FilledTo(SMALL, s, 0, n)
  {
    s := System(map[0 := Block(256, map[])], 1, map[], map[], map[]);
    assert ClampArenaCount(SMALL, 1) == 1 && IsRun(SMALL, 1, [s]);
  }

  /** used is one or more times n. */
  predicate Multiple(used: nat, n: nat)
    requires n > 0
  {
    used == n || (used > n && Multiple(used - n, n))
  }

  lemma {:induction false} RunsBelow(used: nat, n: nat, i: nat)
    requires n > 0 && i in Runs(used, n)
    ensures i < used
  {
    if used >= n && i !in Run(used - n, n) {
      RunsBelow(used - n, n, i);
    }
  }

  lemma RunsNext(used: nat, n: nat)
    requires n > 0
    ensures Runs(used + n, n) == Runs(used, n) + Fill(Run(used, n), WithClient(used, n))
    ensures Run(used, n) !! Runs(used, n).Keys
  {
    forall i | i in Runs(used, n) ensures i < used {
      RunsBelow(used, n, i);
    }
  }

  lemma FillsNext(c: Config, states: iset<System>, s: System, start: nat, used: nat, bytes: nat, n: nat) returns (s': System)
    requires ValidConfig(c) && Closed(c, states, 0) && bytes < SIZE_LIMIT && 0 < n == ElementsForBytes(c, bytes) <= LONGEST_RUN
    requires start + n == used <= c.elements && s in states && FilledTo(c, s, start, n)
    ensures s' in states && FilledTo(c, s', used, n)
  {
    RunsNext(start, n);
    var block;
    s', block := Allocates(c, states, s, 0, 0, start, bytes, n);
  }

  lemma {:induction false} Fills(c: Config, states: iset<System>, empty: System, used: nat, bytes: nat, n: nat) returns (s: System)
    requires ValidConfig(c) && Closed(c, states, 0) && bytes < SIZE_LIMIT && 0 < n == ElementsForBytes(c, bytes) <= LONGEST_RUN
    requires Multiple(used, n) && used <= c.elements && empty in states && FilledTo(c, empty, 0, n)
    ensures s in states && FilledTo(c, s, used, n)
  {
    s := empty;
    if used > n {
      s := Fills(c, states, empty, used - n, bytes, n);
    }
    s := FillsNext(c, states, s, used - n, used, bytes, n);
  }

  lemma {:induction false} FirstRun(used: nat, n: nat)
    requires n > 0 && Multiple(used, n)
    ensures 0 in Runs(used, n) && Runs(used, n)[0] == WithClient(0, n)
  {
    if used > n {
      FirstRun(used - n, n);
      assert 0 !in Run(used - n, n);
    }
  }

  /**
    The bound does fail, and requests are turned away: a release clears the bits first, and until it adds
    them to the count of a full block that count is zero, beside a clear run that any request would fit.
   */
  lemma CountBelowClearRun() returns (c: Config, s: System)
    ensures ValidConfig(c) && Reachable(c, s) && 0 in s.blocks
    ensures s.blocks[0].freeCount == 0 && Longest(c, s.blocks[0]) >= LONGEST_RUN
    ensures forall n :: 1 <= n <= LONGEST_RUN ==> HasRun(c, s.blocks[0], n) && s.blocks[0].freeCount < n
  {
    c := SMALL;
    s := ReleasedFromFull(240, LONGEST_RUN);
    forall n: nat | 1 <= n <= LONGEST_RUN ensures HasRun(c, s.blocks[0], n) {
      ShorterRun(c, s.blocks[0], n, LONGEST_RUN);
    }
    LongestIs(c, s.blocks[0], LONGEST_RUN);
  }

  lemma ReleasedFromFull(bytes: nat, n: nat) returns (s: System)
    requires bytes < SIZE_LIMIT && 0 < n == ElementsForBytes(SMALL, bytes) <= LONGEST_RUN && Multiple(256, n)
    ensures Reachable(SMALL, s) && 0 in s.blocks && s.blocks[0].freeCount == 0 && HasRun(SMALL, s.blocks[0], n)
  {
    ReachableIsClosed(SMALL, 0);
    var empty := Begins(n);
    var full := Fills(SMALL, ReachableStates(SMALL), empty, 256, bytes, n);
    FirstRun(256, n);
    var block;
    s, block := GivesBack(SMALL, ReachableStates(SMALL), full, 0, 0, 0);
    assert Run(0, n) !! s.blocks[0].taken.Keys;
  }
}
