/** The counters of the bit-block resource over whole runs. */
module BitBlockSafety {
  import opened Sums
  import opened BitBlock

  // ----- pending counter updates, summed over the threads -----

  /** Elements of block b whose bits the thread has set and whose fetch_sub is still to come. */
  function SubOf(pc: Pc, b: BlockId): nat {
    if pc.Subtract? && pc.b == b then pc.n else 0
  }

  /** Elements of block b whose bits the thread has cleared and whose fetch_add is still to come. */
  function AddOf(pc: Pc, b: BlockId): nat {
    if pc.AddBack? && pc.b == b then pc.n else 0
  }

  /** A reservation that has not yet become a linked block or been released. */
  function ReservationOf(pc: Pc): nat {
    if pc.AskUpstream? || pc.Unreserve? || pc.LinkBlock? then 1 else 0
  }

  ghost function SubMap(threads: map<ThreadId, Pc>, b: BlockId): map<ThreadId, nat> {
    map t | t in threads :: SubOf(threads[t], b)
  }

  ghost function AddMap(threads: map<ThreadId, Pc>, b: BlockId): map<ThreadId, nat> {
    map t | t in threads :: AddOf(threads[t], b)
  }

  ghost function ReservationMap(threads: map<ThreadId, Pc>): map<ThreadId, nat> {
    map t | t in threads :: ReservationOf(threads[t])
  }

  ghost function ToSubtract(threads: map<ThreadId, Pc>, b: BlockId): nat {
    Sum(SubMap(threads, b))
  }

  ghost function ToAdd(threads: map<ThreadId, Pc>, b: BlockId): nat {
    Sum(AddMap(threads, b))
  }

  ghost function Reservations(threads: map<ThreadId, Pc>): nat {
    Sum(ReservationMap(threads))
  }

  lemma SubMoves(threads: map<ThreadId, Pc>, t: ThreadId, pc': Pc, b: BlockId)
    ensures SubMap(threads[t := pc'], b) == SubMap(threads, b)[t := SubOf(pc', b)]
  {}

  lemma AddMoves(threads: map<ThreadId, Pc>, t: ThreadId, pc': Pc, b: BlockId)
    ensures AddMap(threads[t := pc'], b) == AddMap(threads, b)[t := AddOf(pc', b)]
  {}

  lemma ReservationMoves(threads: map<ThreadId, Pc>, t: ThreadId, pc': Pc)
    ensures ReservationMap(threads[t := pc']) == ReservationMap(threads)[t := ReservationOf(pc')]
  {}

  lemma SumsMove(s: System, t: ThreadId, pc': Pc, b: BlockId)
    ensures ToSubtract(s.threads[t := pc'], b) + SubOf(PcAt(s, t), b) == ToSubtract(s.threads, b) + SubOf(pc', b)
    ensures ToAdd(s.threads[t := pc'], b) + AddOf(PcAt(s, t), b) == ToAdd(s.threads, b) + AddOf(pc', b)
    ensures Reservations(s.threads[t := pc']) + ReservationOf(PcAt(s, t)) == Reservations(s.threads) + ReservationOf(pc')
  {
    SubMoves(s.threads, t, pc', b);
    SumUpdate(SubMap(s.threads, b), t, SubOf(pc', b));
    AddMoves(s.threads, t, pc', b);
    SumUpdate(AddMap(s.threads, b), t, AddOf(pc', b));
    ReservationMoves(s.threads, t, pc');
    SumUpdate(ReservationMap(s.threads), t, ReservationOf(pc'));
  }

  // ----- the invariant -----

  function Clear(c: Config, block: Block): int {
    c.elements - |block.taken|
  }

  /** free_count_ is the clear bits plus those not yet subtracted minus those not yet added, modulo 2^32. */
  ghost predicate CountOk(c: Config, s: System, b: BlockId)
    requires b in s.blocks
  {
    s.blocks[b].freeCount == Wrap(Clear(c, s.blocks[b]) + ToSubtract(s.threads, b) - ToAdd(s.threads, b))
  }

  predicate Holds(pc: Pc, b: BlockId, i: nat) {
    (pc.Subtract? || pc.Finalize?) && pc.b == b && pc.start <= i < pc.start + pc.n
  }

  ghost predicate AllHeldBy(taken: map<nat, Holder>, start: nat, n: nat, h: Holder) {
    forall j: nat {:trigger j in taken} {:trigger taken[j]} :: start <= j < start + n ==> j in taken && taken[j] == h
  }

  ghost predicate BitOk(c: Config, s: System, b: BlockId, i: nat)
    requires b in s.blocks && i in s.blocks[b].taken
  {
    var taken := s.blocks[b].taken;
    && i < c.elements
    && match taken[i]
       case WithClient(start, n) =>
         start <= i < start + n <= c.elements && AllHeldBy(taken, start, n, taken[i])
       case ByThread(t) => Holds(PcAt(s, t), b, i)
  }

  ghost predicate PcOk(c: Config, s: System, t: ThreadId) {
    var pc := PcAt(s, t);
    && (!pc.Idle? && !pc.Called? ==> pc.n > 0)
    && (pc.Scan? || pc.Subtract? || pc.Finalize? || pc.AddBack? ==> pc.b in s.blocks)
    && (pc.Subtract? || pc.Finalize? ==>
          pc.start + pc.n <= c.elements && AllHeldBy(s.blocks[pc.b].taken, pc.start, pc.n, ByThread(t)))
  }

  ghost predicate Inv(c: Config, s: System) {
    && (forall b {:trigger CountOk(c, s, b)} :: b in s.blocks ==> CountOk(c, s, b))
    && (forall b, i {:trigger BitOk(c, s, b, i)} :: b in s.blocks && i in s.blocks[b].taken ==> BitOk(c, s, b, i))
    && (forall t {:trigger PcAt(s, t)} {:trigger PcOk(c, s, t)} :: PcOk(c, s, t))
    && s.totalBlocks == |s.blocks| + Reservations(s.threads) <= c.maxBlocks
  }

  // ----- steps -----

  /** Counts stay right for a block whose count, bits and pending updates change together. */
  lemma CountMoves(c: Config, s: System, s': System, t: ThreadId, b: BlockId, change: int)
    requires b in s.blocks && b in s'.blocks && CountOk(c, s, b) && s'.threads == s.threads[t := PcAt(s', t)]
    requires s'.blocks[b].freeCount == Wrap(s.blocks[b].freeCount + change)
    requires -|s'.blocks[b].taken| + SubOf(PcAt(s', t), b) - AddOf(PcAt(s', t), b)
      == -|s.blocks[b].taken| + SubOf(PcAt(s, t), b) - AddOf(PcAt(s, t), b) + change
    ensures CountOk(c, s', b)
  {
    SumsMove(s, t, PcAt(s', t), b);
    var before := Clear(c, s.blocks[b]) + ToSubtract(s.threads, b) - ToAdd(s.threads, b);
    assert Clear(c, s'.blocks[b]) + ToSubtract(s'.threads, b) - ToAdd(s'.threads, b) == before + change;
    WrapShift(before, change);
  }

  lemma WrapShift(x: int, y: int)
    ensures Wrap(Wrap(x) + y) == Wrap(x + y)
  {}

  lemma CountFits(c: Config, s: System, b: BlockId)
    requires Inv(c, s) && b in s.blocks
    ensures CountOk(c, s, b) && Wrap(s.blocks[b].freeCount + 0) == s.blocks[b].freeCount
  {
    assert CountOk(c, s, b);
  }

  /** Steps that touch no block: bits and block counts stay, only the thread and the total move. */
  lemma LocalKeeps(c: Config, s: System, s': System, t: ThreadId)
    requires Inv(c, s) && s'.threads == s.threads[t := PcAt(s', t)] && s'.blocks == s.blocks
    requires var (pc, pc') := (PcAt(s, t), PcAt(s', t));
      && !(pc.Subtract? || pc.Finalize? || pc.AddBack?) && !(pc'.Subtract? || pc'.Finalize? || pc'.AddBack?)
      && PcOk(c, s', t)
    requires s'.totalBlocks + ReservationOf(PcAt(s, t)) == s.totalBlocks + ReservationOf(PcAt(s', t)) <= c.maxBlocks + ReservationOf(PcAt(s, t))
    ensures Inv(c, s')
  {
    forall b | b in s'.blocks ensures CountOk(c, s', b) {
      CountFits(c, s, b);
      CountMoves(c, s, s', t, b, 0);
    }
    LocalBits(c, s, s', t);
    SumsMove(s, t, PcAt(s', t), 0);
  }

  lemma LocalBits(c: Config, s: System, s': System, t: ThreadId)
    requires Inv(c, s) && s'.threads == s.threads[t := PcAt(s', t)] && s'.blocks == s.blocks
    requires !(PcAt(s, t).Subtract? || PcAt(s, t).Finalize?) && PcOk(c, s', t)
    ensures forall b, i {:trigger BitOk(c, s', b, i)} :: b in s'.blocks && i in s'.blocks[b].taken ==> BitOk(c, s', b, i)
    ensures forall u {:trigger PcAt(s', u)} {:trigger PcOk(c, s', u)} :: PcOk(c, s', u)
  {
    forall b, i {:trigger BitOk(c, s', b, i)} | b in s'.blocks && i in s'.blocks[b].taken ensures BitOk(c, s', b, i) {
      assert BitOk(c, s, b, i);
    }
    forall u {:trigger PcAt(s', u)} {:trigger PcOk(c, s', u)} ensures PcOk(c, s', u) {
      assert PcOk(c, s, u);
    }
  }

  ghost predicate BitsOk(c: Config, s: System, b: BlockId)
    requires b in s.blocks
  {
    forall i {:trigger BitOk(c, s, b, i)} :: i in s.blocks[b].taken ==> BitOk(c, s, b, i)
  }

  /** Whatever bits or counter updates the thread answers for are those of block b. */
  predicate OnlyOn(pc: Pc, b: BlockId) {
    pc.Subtract? || pc.Finalize? || pc.AddBack? ==> pc.b == b
  }

  /** Bits that threads other than t have set stay theirs. */
  ghost predicate OthersHold(taken: map<nat, Holder>, taken': map<nat, Holder>, t: ThreadId) {
    forall i {:trigger i in taken} {:trigger i in taken'} :: i in taken && taken[i].ByThread? && taken[i].thread != t ==> i in taken' && taken'[i] == taken[i]
  }

  lemma RunStays(taken: map<nat, Holder>, taken': map<nat, Holder>, t: ThreadId, u: ThreadId, start: nat, n: nat)
    requires OthersHold(taken, taken', t) && u != t && AllHeldBy(taken, start, n, ByThread(u))
    ensures AllHeldBy(taken', start, n, ByThread(u))
  {
    forall j: nat | start <= j < start + n ensures j in taken' && taken'[j] == ByThread(u) {
      assert j in taken;
    }
  }

  /** A step of t on block b leaves the runs that other threads hold, and so what they rely on. */
  lemma PcsKept(c: Config, s: System, s': System, t: ThreadId, b: BlockId)
    requires Inv(c, s) && s'.threads == s.threads[t := PcAt(s', t)] && b in s.blocks && b in s'.blocks
    requires s'.blocks == s.blocks[b := s'.blocks[b]] && PcOk(c, s', t)
    requires OthersHold(s.blocks[b].taken, s'.blocks[b].taken, t)
    ensures forall u {:trigger PcOk(c, s', u)} :: PcOk(c, s', u)
  {
    forall u ensures PcOk(c, s', u) {
      assert PcOk(c, s, u);
      var pc := PcAt(s, u);
      if u != t && (pc.Subtract? || pc.Finalize?) && pc.b == b {
        RunStays(s.blocks[b].taken, s'.blocks[b].taken, t, u, pc.start, pc.n);
      }
    }
  }

  /** The bits of the other blocks are as they were. */
  lemma BitsKept(c: Config, s: System, s': System, t: ThreadId, b: BlockId)
    requires Inv(c, s) && s'.threads == s.threads[t := PcAt(s', t)] && b in s.blocks && b in s'.blocks
    requires s'.blocks == s.blocks[b := s'.blocks[b]]
    requires OnlyOn(PcAt(s, t), b)
    requires BitsOk(c, s', b)
    ensures forall b', i {:trigger BitOk(c, s', b', i)} :: b' in s'.blocks && i in s'.blocks[b'].taken ==> BitOk(c, s', b', i)
  {
    forall b', i | b' in s'.blocks && i in s'.blocks[b'].taken ensures BitOk(c, s', b', i) {
      if b' != b {
        assert BitOk(c, s, b', i);
      }
    }
  }

  /** A step that sets or clears bits leaves free_count_ for later: the pending updates make up the difference. */
  lemma SameCount(c: Config, s: System, s': System, t: ThreadId, b: BlockId)
    requires b in s.blocks && b in s'.blocks && CountOk(c, s, b) && s'.threads == s.threads[t := PcAt(s', t)]
    requires s'.blocks[b].freeCount == s.blocks[b].freeCount == Wrap(s.blocks[b].freeCount + 0)
    requires |s.blocks[b].taken| + SubOf(PcAt(s', t), b) + AddOf(PcAt(s, t), b) == |s'.blocks[b].taken| + SubOf(PcAt(s, t), b) + AddOf(PcAt(s', t), b)
    ensures CountOk(c, s', b)
  {
    CountMoves(c, s, s', t, b, 0);
  }

  lemma OtherCount(c: Config, s: System, s': System, t: ThreadId, b: BlockId, b': BlockId)
    requires Inv(c, s) && s'.threads == s.threads[t := PcAt(s', t)] && b' in s.blocks && b' in s'.blocks && b' != b
    requires s'.blocks[b'] == s.blocks[b'] && OnlyOn(PcAt(s, t), b) && OnlyOn(PcAt(s', t), b)
    ensures CountOk(c, s', b')
  {
    CountFits(c, s, b');
    CountMoves(c, s, s', t, b', 0);
  }

  /** Steps that change block b alone. */
  lemma BlockKeeps(c: Config, s: System, s': System, t: ThreadId, b: BlockId)
    requires Inv(c, s) && s'.threads == s.threads[t := PcAt(s', t)] && b in s.blocks && b in s'.blocks
    requires s'.blocks == s.blocks[b := s'.blocks[b]] && s'.totalBlocks == s.totalBlocks
    requires ReservationOf(PcAt(s, t)) == 0 && ReservationOf(PcAt(s', t)) == 0
    requires OnlyOn(PcAt(s, t), b) && OnlyOn(PcAt(s', t), b)
    requires CountOk(c, s', b)
    requires PcOk(c, s', t) && BitsOk(c, s', b) && OthersHold(s.blocks[b].taken, s'.blocks[b].taken, t)
    ensures Inv(c, s')
  {
    forall b' | b' in s'.blocks && b' != b ensures CountOk(c, s', b') {
      OtherCount(c, s, s', t, b, b');
    }
    SumsMove(s, t, PcAt(s', t), 0);
    BitsKept(c, s, s', t, b);
    PcsKept(c, s, s', t, b);
  }

  lemma MoreTaken(taken: map<nat, Holder>, run: set<nat>, h: Holder)
    requires run !! taken.Keys
    ensures |taken + Fill(run, h)| == |taken| + |run|
    ensures forall t {:trigger OthersHold(taken, taken + Fill(run, h), t)} :: OthersHold(taken, taken + Fill(run, h), t)
  {
    var taken' := taken + Fill(run, h);
    assert taken'.Keys == taken.Keys + run;
    assert |taken'| == |taken'.Keys| && |taken| == |taken.Keys|;
  }

  /** The run a scan sets was clear, so the set bits grow by its length; everyone else's bits are as they were. */
  lemma ScanBits(c: Config, s: System, s': System, t: ThreadId)
    requires Inv(c, s) && s'.threads == s.threads[t := PcAt(s', t)]
    requires ScanStep(c, s, PcAt(s, t), s', PcAt(s', t), t) && PcAt(s', t).Subtract?
    ensures PcAt(s, t).b in s'.blocks
    ensures BitsOk(c, s', PcAt(s, t).b)
  {
    var (pc, pc') := (PcAt(s, t), PcAt(s', t));
    forall i {:trigger BitOk(c, s', pc.b, i)} | i in s'.blocks[pc.b].taken ensures BitOk(c, s', pc.b, i) {
      if i !in Run(pc'.start, pc.n) {
        assert BitOk(c, s, pc.b, i);
      }
    }
  }

  lemma ScanTakes(c: Config, s: System, s': System, t: ThreadId)
    requires Inv(c, s) && s'.threads == s.threads[t := PcAt(s', t)]
    requires ScanStep(c, s, PcAt(s, t), s', PcAt(s', t), t) && PcAt(s', t).Subtract?
    ensures Inv(c, s')
  {
    var (pc, pc') := (PcAt(s, t), PcAt(s', t));
    assert PcOk(c, s, t);
    RunSize(pc'.start, pc.n);
    MoreTaken(s.blocks[pc.b].taken, Run(pc'.start, pc.n), ByThread(t));
    ScanBits(c, s, s', t);
    CountFits(c, s, pc.b);
    SameCount(c, s, s', t, pc.b);
    BlockKeeps(c, s, s', t, pc.b);
  }

  lemma ScanOk(c: Config, s: System, s': System, t: ThreadId)
    requires Inv(c, s) && s'.threads == s.threads[t := PcAt(s', t)]
    requires ScanStep(c, s, PcAt(s, t), s', PcAt(s', t), t)
    ensures Inv(c, s')
  {
    assert PcOk(c, s, t);
    if PcAt(s', t).Subtract? {
      ScanTakes(c, s, s', t);
    } else {
      LocalKeeps(c, s, s', t);
    }
  }

  lemma SubtractOk(c: Config, s: System, s': System, t: ThreadId)
    requires Inv(c, s) && s'.threads == s.threads[t := PcAt(s', t)]
    requires SubtractStep(s, PcAt(s, t), s', PcAt(s', t))
    ensures Inv(c, s')
  {
    var pc := PcAt(s, t);
    assert PcOk(c, s, t);
    forall i {:trigger BitOk(c, s', pc.b, i)} | i in s'.blocks[pc.b].taken ensures BitOk(c, s', pc.b, i) {
      assert BitOk(c, s, pc.b, i);
    }
    CountFits(c, s, pc.b);
    CountMoves(c, s, s', t, pc.b, 0 - pc.n);
    BlockKeeps(c, s, s', t, pc.b);
  }

  lemma FinalizeBits(c: Config, s: System, s': System, t: ThreadId)
    requires Inv(c, s) && s'.threads == s.threads[t := PcAt(s', t)]
    requires FinalizeStep(s, PcAt(s, t), s', PcAt(s', t), t)
    ensures PcAt(s, t).b in s'.blocks
    ensures BitsOk(c, s', PcAt(s, t).b)
  {
    var pc := PcAt(s, t);
    var (taken, taken') := (s.blocks[pc.b].taken, s'.blocks[pc.b].taken);
    assert PcOk(c, s, t);
    forall i | i in taken' ensures BitOk(c, s', pc.b, i) {
      assert BitOk(c, s, pc.b, i);
      if i !in Run(pc.start, pc.n) && taken[i].WithClient? {
        forall j: nat | taken[i].start <= j < taken[i].start + taken[i].n ensures j in taken' && taken'[j] == taken[i] {
          assert j in taken;
        }
      }
    }
  }

  lemma FinalizeOk(c: Config, s: System, s': System, t: ThreadId)
    requires Inv(c, s) && s'.threads == s.threads[t := PcAt(s', t)]
    requires FinalizeStep(s, PcAt(s, t), s', PcAt(s', t), t)
    ensures Inv(c, s')
  {
    var pc := PcAt(s, t);
    assert PcOk(c, s, t);
    assert s'.blocks[pc.b].taken.Keys == s.blocks[pc.b].taken.Keys;
    assert |s'.blocks[pc.b].taken| == |s'.blocks[pc.b].taken.Keys|;
    FinalizeBits(c, s, s', t);
    CountFits(c, s, pc.b);
    SameCount(c, s, s', t, pc.b);
    BlockKeeps(c, s, s', t, pc.b);
  }

  lemma FewerTaken(taken: map<nat, Holder>, start: nat, n: nat, h: Holder)
    requires h.WithClient? && AllHeldBy(taken, start, n, h)
    ensures |taken - Run(start, n)| == |taken| - n
    ensures forall t {:trigger OthersHold(taken, taken - Run(start, n), t)} :: OthersHold(taken, taken - Run(start, n), t)
  {
    var run := Run(start, n);
    RunSize(start, n);
    forall i | i in run ensures i in taken {}
    assert (taken - run).Keys == taken.Keys - run;
    assert |taken - run| == |(taken - run).Keys| && |taken| == |taken.Keys|;
  }

  lemma RunsApart(taken: map<nat, Holder>, g: Holder, h: Holder, j: nat)
    requires g.WithClient? && h.WithClient? && g != h
    requires AllHeldBy(taken, g.start, g.n, g) && AllHeldBy(taken, h.start, h.n, h) && g.start <= j < g.start + g.n
    ensures j in taken && taken[j] == g && !(h.start <= j < h.start + h.n)
  {
    assert j in taken && taken[j] == g;
  }

  /** Exactly the released run leaves the bitmap. */
  lemma ReleaseBits(c: Config, s: System, s': System, t: ThreadId, b: BlockId, h: Holder)
    requires Inv(c, s) && s'.threads == s.threads[t := PcAt(s', t)] && PcAt(s, t).Idle? && b in s.blocks && b in s'.blocks
    requires h.WithClient? && AllHeldBy(s.blocks[b].taken, h.start, h.n, h)
    requires s'.blocks[b].taken == s.blocks[b].taken - Run(h.start, h.n)
    ensures BitsOk(c, s', b)
  {
    var (taken, taken') := (s.blocks[b].taken, s'.blocks[b].taken);
    forall i | i in taken' ensures BitOk(c, s', b, i) {
      assert BitOk(c, s, b, i);
      if taken[i].WithClient? {
        forall j: nat | taken[i].start <= j < taken[i].start + taken[i].n ensures j in taken' && taken'[j] == taken[i] {
          RunsApart(taken, taken[i], h, j);
        }
      }
    }
  }

  lemma Releases(c: Config, s: System, s': System, t: ThreadId, b: BlockId, h: Holder)
    requires Inv(c, s) && s'.threads == s.threads[t := PcAt(s', t)] && s'.totalBlocks == s.totalBlocks && PcAt(s, t).Idle?
    requires b in s.blocks && h.WithClient? && AllHeldBy(s.blocks[b].taken, h.start, h.n, h) && h.n > 0
    requires PcAt(s', t) == AddBack(h.n, b)
    requires s'.blocks == s.blocks[b := s.blocks[b].(taken := s.blocks[b].taken - Run(h.start, h.n))]
    ensures Inv(c, s')
  {
    FewerTaken(s.blocks[b].taken, h.start, h.n, h);
    ReleaseBits(c, s, s', t, b, h);
    CountFits(c, s, b);
    SameCount(c, s, s', t, b);
    BlockKeeps(c, s, s', t, b);
  }

  lemma ReleaseOk(c: Config, s: System, s': System, t: ThreadId)
    requires Inv(c, s) && s'.threads == s.threads[t := PcAt(s', t)]
    requires ReleaseStep(s, PcAt(s, t), s', PcAt(s', t))
    ensures Inv(c, s')
  {
    var b, start :| Live(s, b, start) && PcAt(s', t) == AddBack(s.blocks[b].taken[start].n, b)
      && s'.blocks == s.blocks[b := s.blocks[b].(taken := s.blocks[b].taken - Run(start, s.blocks[b].taken[start].n))];
    assert BitOk(c, s, b, start);
    Releases(c, s, s', t, b, s.blocks[b].taken[start]);
  }

  lemma AddBackOk(c: Config, s: System, s': System, t: ThreadId)
    requires Inv(c, s) && s'.threads == s.threads[t := PcAt(s', t)]
    requires AddBackStep(s, PcAt(s, t), s', PcAt(s', t))
    ensures Inv(c, s')
  {
    var pc := PcAt(s, t);
    assert PcOk(c, s, t);
    AddBackBits(c, s, s', t);
    CountFits(c, s, pc.b);
    CountMoves(c, s, s', t, pc.b, pc.n);
    BlockKeeps(c, s, s', t, pc.b);
  }

  lemma AddBackBits(c: Config, s: System, s': System, t: ThreadId)
    requires Inv(c, s) && s'.threads == s.threads[t := PcAt(s', t)] && AddBackStep(s, PcAt(s, t), s', PcAt(s', t))
    ensures PcAt(s, t).b in s'.blocks && BitsOk(c, s', PcAt(s, t).b)
  {
    var pc := PcAt(s, t);
    forall i {:trigger BitOk(c, s', pc.b, i)} | i in s'.blocks[pc.b].taken ensures BitOk(c, s', pc.b, i) {
      assert BitOk(c, s, pc.b, i);
    }
  }

  /** A reserved block is linked: the reservation becomes a block. */
  lemma LinkBlockOk(c: Config, s: System, s': System, t: ThreadId)
    requires ValidConfig(c) && Inv(c, s) && s'.threads == s.threads[t := PcAt(s', t)]
    requires LinkBlockStep(c, s, PcAt(s, t), s', PcAt(s', t))
    ensures Inv(c, s')
  {
    var added: BlockId :| added !in s.blocks && s'.blocks == s.blocks[added := Block(c.elements, map[])];
    assert PcOk(c, s, t);
    forall b | b in s'.blocks ensures CountOk(c, s', b) {
      LinkCounts(c, s, s', t, added, b);
    }
    LinkKeeps(c, s, s', t, added);
    SumsMove(s, t, PcAt(s', t), 0);
  }

  lemma LinkCounts(c: Config, s: System, s': System, t: ThreadId, added: BlockId, b: BlockId)
    requires ValidConfig(c) && Inv(c, s) && s'.threads == s.threads[t := PcAt(s', t)]
    requires added !in s.blocks && s'.blocks == s.blocks[added := Block(c.elements, map[])] && b in s'.blocks
    requires PcAt(s, t).LinkBlock? && PcAt(s', t).Search?
    ensures CountOk(c, s', b)
  {
    if b == added {
      NothingPending(c, s, s', t, b);
    } else {
      CountFits(c, s, b);
      CountMoves(c, s, s', t, b, 0);
    }
  }

  /** Bits and what the other threads know stay. */
  lemma LinkKeeps(c: Config, s: System, s': System, t: ThreadId, added: BlockId)
    requires Inv(c, s) && s'.threads == s.threads[t := PcAt(s', t)]
    requires added !in s.blocks && s'.blocks == s.blocks[added := Block(c.elements, map[])]
    requires PcAt(s, t).LinkBlock? && PcAt(s', t) == Search(PcAt(s, t).n)
    ensures forall b, i {:trigger BitOk(c, s', b, i)} :: b in s'.blocks && i in s'.blocks[b].taken ==> BitOk(c, s', b, i)
    ensures forall u {:trigger PcAt(s', u)} {:trigger PcOk(c, s', u)} :: PcOk(c, s', u)
  {
    forall b, i {:trigger BitOk(c, s', b, i)} | b in s'.blocks && i in s'.blocks[b].taken ensures BitOk(c, s', b, i) {
      assert BitOk(c, s, b, i);
    }
    forall u {:trigger PcAt(s', u)} {:trigger PcOk(c, s', u)} ensures PcOk(c, s', u) {
      assert PcOk(c, s, u);
      assert PcOk(c, s, t);
    }
  }

  lemma NoUpdates(c: Config, s: System, s': System, t: ThreadId, b: BlockId)
    requires Inv(c, s) && b !in s.blocks
    requires s'.threads == s.threads[t := PcAt(s', t)] && SubOf(PcAt(s', t), b) == 0 && AddOf(PcAt(s', t), b) == 0
    ensures forall u :: u in s'.threads ==> SubOf(s'.threads[u], b) == 0 && AddOf(s'.threads[u], b) == 0
  {
    forall u | u in s'.threads ensures SubOf(s'.threads[u], b) == 0 && AddOf(s'.threads[u], b) == 0 {
      assert PcOk(c, s, u);
    }
  }

  /** Nobody has pending updates for a block that was not linked. */
  lemma NothingPending(c: Config, s: System, s': System, t: ThreadId, b: BlockId)
    requires ValidConfig(c) && Inv(c, s) && b !in s.blocks && b in s'.blocks && s'.blocks[b] == Block(c.elements, map[])
    requires s'.threads == s.threads[t := PcAt(s', t)] && SubOf(PcAt(s', t), b) == 0 && AddOf(PcAt(s', t), b) == 0
    ensures CountOk(c, s', b)
  {
    NoUpdates(c, s, s', t, b);
    SumZero(SubMap(s'.threads, b));
    SumZero(AddMap(s'.threads, b));
  }

  lemma StepHolds(c: Config, s: System, s': System, t: ThreadId)
    requires ValidConfig(c) && Inv(c, s) && StepBy(c, s, s', t)
    ensures Inv(c, s')
  {
    var (pc, pc') := (PcAt(s, t), PcAt(s', t));
    assert PcOk(c, s, t);
    if ScanStep(c, s, pc, s', pc', t) { ScanOk(c, s, s', t); }
    else if SubtractStep(s, pc, s', pc') { SubtractOk(c, s, s', t); }
    else if FinalizeStep(s, pc, s', pc', t) { FinalizeOk(c, s, s', t); }
    else if LinkBlockStep(c, s, pc, s', pc') { LinkBlockOk(c, s, s', t); }
    else if ReleaseStep(s, pc, s', pc') { ReleaseOk(c, s, s', t); }
    else if AddBackStep(s, pc, s', pc') { AddBackOk(c, s, s', t); }
    else {
      SumsMove(s, t, pc', 0);
      LocalKeeps(c, s, s', t);
    }
  }

  // ----- runs -----

  lemma InitHolds(c: Config, requested: nat, s: System)
    requires ValidConfig(c) && Init(c, requested, s)
    ensures Inv(c, s)
  {
    SumZero(ReservationMap(s.threads));
    forall b | b in s.blocks ensures CountOk(c, s, b) {
      SumZero(SubMap(s.threads, b));
      SumZero(AddMap(s.threads, b));
    }
    forall t ensures PcOk(c, s, t) {
      assert PcAt(s, t) == Idle;
    }
  }

  lemma {:induction false} RunHolds(c: Config, requested: nat, run: seq<System>, i: nat)
    requires ValidConfig(c) && IsRun(c, requested, run) && i < |run|
    ensures Inv(c, run[i])
  {
    if i == 0 {
      InitHolds(c, requested, run[0]);
    } else {
      RunHolds(c, requested, run, i - 1);
      assert NextAt(c, run, i - 1);
      var t :| StepBy(c, run[i - 1], run[i], t);
      StepHolds(c, run[i - 1], run[i], t);
    }
  }

  ghost predicate Reachable(c: Config, s: System)
    requires ValidConfig(c)
  {
    exists requested: nat, run {:trigger IsRun(c, requested, run)} :: IsRun(c, requested, run) && run[|run| - 1] == s
  }

  lemma ReachableHolds(c: Config, s: System)
    requires ValidConfig(c) && Reachable(c, s)
    ensures Inv(c, s)
  {
    var requested: nat, run :| IsRun(c, requested, run) && run[|run| - 1] == s;
    RunHolds(c, requested, run, |run| - 1);
  }

  // ----- what follows -----

  /**
    In every interleaving free_count_ is the number of clear bits, plus the elements acquired and not yet
    subtracted, minus those released and not yet added, modulo 2^32.
   */
  lemma FreeCountIsExact(c: Config, s: System, b: BlockId)
    requires ValidConfig(c) && Reachable(c, s) && b in s.blocks
    ensures s.blocks[b].freeCount < WORD
    ensures (s.blocks[b].freeCount + |s.blocks[b].taken| + ToAdd(s.threads, b)) % WORD == (c.elements + ToSubtract(s.threads, b)) % WORD
  {
    ReachableHolds(c, s);
    assert CountOk(c, s, b);
    ModBalance(c.elements, |s.blocks[b].taken|, ToSubtract(s.threads, b), ToAdd(s.threads, b), s.blocks[b].freeCount);
  }

  lemma ModBalance(elements: int, taken: int, sub: int, add: int, count: int)
    requires count == Wrap(elements - taken + sub - add)
    ensures (count + taken + add) % WORD == (elements + sub) % WORD
  {
    WrapShift(elements - taken + sub - add, taken + add);
    assert WORD == 0x1_0000_0000;
  }

  /** With no update of the block pending, it is exactly the number of clear bits. */
  lemma QuietCountIsClear(c: Config, s: System, b: BlockId)
    requires ValidConfig(c) && Reachable(c, s) && b in s.blocks
    requires forall t :: SubOf(PcAt(s, t), b) == 0 && AddOf(PcAt(s, t), b) == 0
    ensures s.blocks[b].freeCount == Clear(c, s.blocks[b]) >= 0
  {
    ReachableHolds(c, s);
    assert CountOk(c, s, b);
    forall t | t in s.threads ensures SubOf(s.threads[t], b) == 0 && AddOf(s.threads[t], b) == 0 {
      assert PcAt(s, t) == s.threads[t];
    }
    SumZero(SubMap(s.threads, b));
    SumZero(AddMap(s.threads, b));
    TakenFit(c, s, b);
  }

  lemma TakenFit(c: Config, s: System, b: BlockId)
    requires Inv(c, s) && b in s.blocks
    ensures 0 <= Clear(c, s.blocks[b]) <= c.elements
  {
    forall i | i in s.blocks[b].taken.Keys ensures i in Run(0, c.elements) {
      assert BitOk(c, s, b, i);
    }
    RunSize(0, c.elements);
    SubsetSize(s.blocks[b].taken.Keys, Run(0, c.elements));
    assert |s.blocks[b].taken| == |s.blocks[b].taken.Keys|;
  }

  lemma {:induction false} SubsetSize(a: set<nat>, b: set<nat>)
    requires a <= b
    ensures |a| <= |b|
  {
    if a != {} {
      var x :| x in a;
      SubsetSize(a - {x}, b - {x});
    }
  }

  /** total_blocks_ counts linked blocks and outstanding reservations, and never passes the cap. */
  lemma BlockCapHolds(c: Config, s: System)
    requires ValidConfig(c) && Reachable(c, s)
    ensures s.totalBlocks == |s.blocks| + Reservations(s.threads) && |s.blocks| <= s.totalBlocks <= c.maxBlocks
  {
    ReachableHolds(c, s);
  }

  /** Allocations the client has are runs inside their block, and no two of them share an element. */
  lemma LiveRunsApart(c: Config, s: System, b: BlockId, start1: nat, start2: nat)
    requires ValidConfig(c) && Reachable(c, s) && Live(s, b, start1) && Live(s, b, start2) && start1 < start2
    ensures start1 + s.blocks[b].taken[start1].n <= start2 < start2 + s.blocks[b].taken[start2].n <= c.elements
  {
    ReachableHolds(c, s);
    assert BitOk(c, s, b, start1) && BitOk(c, s, b, start2);
    var taken := s.blocks[b].taken;
    RunsApart(taken, taken[start2], taken[start1], start2);
  }
}
