/** Conservation in the static arena: in every interleaving no byte is lost and none is handed out twice. */
module StaticArenaSafety {
  import opened Wrappers
  import opened StaticArenaSizes
  import opened StaticArenaState
  import opened StaticArenaThreads

  // ----- what a thread holds, and what it knows about it -----

  predicate Holds(pc: Pc, b: Offset) {
    match pc
    case PushRest(_, best, rest) => best == Some(b) || b in rest
    case Divide(_, b') => b == b'
    case FreePieces(_, b', p, left, _) => b == b' || (b == p && left > 0)
    case Return(_, b') => b == b'
    case PushFreed(b', _) => b == b'
    case _ => false
  }

  ghost predicate Large(a: Arena, b: Offset) {
    b in a.pieces && Fits(NUM_BINS - 1, a.pieces[b]) && HeaderAt(a, b) == a.pieces[b]
  }

  ghost predicate Facts(a: Arena, pc: Pc) {
    match pc
    case BumpCas(_, expected) => Aligned(expected)
    case PopBin(bytes, bin) => BinFor(BlockSizeFor(bytes)) <= bin
    case PushRest(bytes, best, rest) =>
      && (forall b {:trigger b in rest} :: b in rest ==> Large(a, b) && best != Some(b))
      && (forall i: nat, j: nat :: i < j < |rest| ==> rest[i] != rest[j])
      && (best.Some? ==> Large(a, best.value) && BlockSizeFor(bytes) <= a.pieces[best.value])
    case Divide(bytes, b) => BlockSizeFor(bytes) <= PieceAt(a, b)
    case FreePieces(bytes, b, p, left, classSize) =>
      && PieceAt(a, b) == BlockSizeFor(bytes)
      && (left > 0 ==> p != b && PieceAt(a, p) == left && Aligned(left))
      && PieceLoopOk(left, classSize)
    case Return(bytes, b) => PieceAt(a, b) == BlockSizeFor(bytes)
    case PushFreed(b, size) => PieceAt(a, b) == size && IsBlockSize(size)
    case _ => true
  }

  /** What is left to free is below twice the class size about to be tried, unless it goes whole to bin 7. */
  ghost predicate PieceLoopOk(left: nat, classSize: nat) {
    || left == 0
    || (left > LARGEST_CLASS && classSize == LARGEST_CLASS)
    || (left < 2 * classSize && exists bin: nat :: bin < NUM_BINS - 1 && classSize == ClassSize(bin))
  }

  ghost predicate Coupled(a: Arena, t: ThreadId, pc: Pc) {
    && (forall b {:trigger Holds(pc, b)} :: Holds(pc, b) <==> HeldBy(a, t, b))
    && Facts(a, pc)
  }

  ghost predicate SystemInv(capacity: nat, s: System) {
    && Aligned(capacity) && Inv(capacity, s.arena)
    && (forall t {:trigger PcAt(s, t)} :: Coupled(s.arena, t, PcAt(s, t)))
  }

  // ----- a step of one thread leaves the blocks of the others alone -----

  ghost predicate Kept(a: Arena, a': Arena, t: ThreadId, b: Offset) {
    forall u {:trigger HeldBy(a, u, b)} {:trigger HeldBy(a', u, b)} :: u != t && (HeldBy(a, u, b) || HeldBy(a', u, b)) ==>
      && HeldBy(a, u, b) && HeldBy(a', u, b) && a'.pieces[b] == a.pieces[b] && HeaderAt(a', b) == HeaderAt(a, b)
  }

  ghost predicate OthersKept(a: Arena, a': Arena, t: ThreadId) {
    forall b {:trigger Kept(a, a', t, b)} :: Kept(a, a', t, b)
  }

  lemma OthersStayCoupled(a: Arena, a': Arena, t: ThreadId, u: ThreadId, pc: Pc)
    requires OthersKept(a, a', t) && u != t && Coupled(a, u, pc)
    ensures Coupled(a', u, pc)
  {
    forall b ensures Holds(pc, b) <==> HeldBy(a', u, b) {
      assert Kept(a, a', t, b);
    }
    forall b | Holds(pc, b) ensures PieceAt(a', b) == PieceAt(a, b) && HeaderAt(a', b) == HeaderAt(a, b) && b in a'.pieces {
      assert Kept(a, a', t, b);
    }
    match pc
    case PushRest(bytes, best, rest) =>
      forall b | b in rest ensures Large(a', b) {
        assert Holds(pc, b);
      }
      if best.Some? {
        assert Holds(pc, best.value);
      }
    case Divide(_, b) => assert Holds(pc, b);
    case FreePieces(_, b, p, left, _) =>
      assert Holds(pc, b);
      if left > 0 {
        assert Holds(pc, p);
      }
    case Return(_, b) => assert Holds(pc, b);
    case PushFreed(b, _) => assert Holds(pc, b);
    case _ =>
  }

  // ----- each step -----

  ghost predicate Coherent(capacity: nat, a: Arena, t: ThreadId, pc: Pc) {
    Aligned(capacity) && Inv(capacity, a) && Coupled(a, t, pc)
  }

  ghost predicate StepOk(capacity: nat, a: Arena, a': Arena, t: ThreadId, pc': Pc) {
    Inv(capacity, a') && OthersKept(a, a', t) && Coupled(a', t, pc')
  }

  lemma LocalOk(capacity: nat, a: Arena, t: ThreadId, pc: Pc, pc': Pc)
    requires Coherent(capacity, a, t, pc)
    requires forall b {:trigger Holds(pc', b)} {:trigger Holds(pc, b)} :: Holds(pc', b) == Holds(pc, b)
    requires Facts(a, pc')
    ensures StepOk(capacity, a, a, t, pc')
  {
    forall b ensures Kept(a, a, t, b) {}
  }

  lemma BumpOk(capacity: nat, a: Arena, a': Arena, t: ThreadId, pc: Pc, pc': Pc)
    requires Coherent(capacity, a, t, pc) && BumpCasStep(capacity, a, pc, a', pc', t)
    ensures StepOk(capacity, a, a', t, pc')
  {
    var size := BlockSizeFor(pc.bytes);
    BlockSizeIsLeast(pc.bytes);
    assert RoundUp(pc.expected) == pc.expected;
    if pc'.Return? {
      assert a.(current := RoundUp(pc.expected)) == a;
      BumpKeeps(capacity, a, t, size);
      forall b ensures Kept(a, a', t, b) {}
      forall b ensures Holds(pc', b) <==> HeldBy(a', t, b) {
        assert Holds(pc, b) <==> HeldBy(a, t, b);
      }
    } else {
      LocalOk(capacity, a, t, pc, pc');
    }
  }

  lemma PopBinOk(capacity: nat, a: Arena, a': Arena, t: ThreadId, pc: Pc, pc': Pc)
    requires Coherent(capacity, a, t, pc) && PopBinStep(a, pc, a', pc', t)
    ensures StepOk(capacity, a, a', t, pc')
  {
    if pc'.Divide? {
      PopKeeps(capacity, a, t, pc.bin);
      BlockSizeIsLeast(pc.bytes);
      if BinFor(BlockSizeFor(pc.bytes)) < pc.bin {
        ClassSizesGrow(BinFor(BlockSizeFor(pc.bytes)), pc.bin);
      }
      forall b ensures Kept(a, a', t, b) {}
      forall b ensures Holds(pc', b) <==> HeldBy(a', t, b) {
        assert Holds(pc, b) <==> HeldBy(a, t, b);
      }
    } else {
      LocalOk(capacity, a, t, pc, pc');
    }
  }

  lemma {:induction false} WithoutBest(list: seq<Offset>, best: Option<Offset>)
    requires forall i: nat, j: nat :: i < j < |list| ==> list[i] != list[j]
    ensures var rest := Without(list, best);
      && (forall b :: b in rest <==> b in list && best != Some(b))
      && (forall i: nat, j: nat :: i < j < |rest| ==> rest[i] != rest[j])
  {
    if list != [] {
      forall b ensures b in list <==> b == list[0] || b in list[1..] {
        if b in list {
          var i: nat :| i < |list| && list[i] == b;
          assert i > 0 ==> list[1..][i - 1] == b;
        }
      }
      if best != Some(list[0]) {
        WithoutBest(list[1..], best);
      }
    }
  }

  lemma StealLargeOk(capacity: nat, a: Arena, a': Arena, t: ThreadId, pc: Pc, pc': Pc)
    requires Coherent(capacity, a, t, pc) && StealLargeStep(a, pc, a', pc', t)
    ensures StepOk(capacity, a, a', t, pc')
  {
    var list := a.bins[NUM_BINS - 1];
    StealAllKeeps(capacity, a, t, NUM_BINS - 1);
    WithoutBest(list, pc'.best);
    forall b ensures Kept(a, a', t, b) {}
    forall b ensures Holds(pc', b) <==> HeldBy(a', t, b) {
      assert Holds(pc, b) <==> HeldBy(a, t, b);
    }
  }

  lemma PushRestOk(capacity: nat, a: Arena, a': Arena, t: ThreadId, pc: Pc, pc': Pc)
    requires Coherent(capacity, a, t, pc) && PushRestStep(a, pc, a', pc')
    ensures StepOk(capacity, a, a', t, pc')
  {
    if pc.rest != [] {
      var b0 := pc.rest[0];
      assert Holds(pc, b0) && Large(a, b0);
      PushBackKeeps(capacity, a, t, NUM_BINS - 1, b0);
      forall b ensures Kept(a, a', t, b) {}
      forall b ensures b in pc.rest <==> b == b0 || b in pc.rest[1..] {
        if b in pc.rest {
          var i: nat :| i < |pc.rest| && pc.rest[i] == b;
          assert i > 0 ==> pc.rest[1..][i - 1] == b;
        }
      }
      forall b ensures Holds(pc', b) <==> HeldBy(a', t, b) {
        assert Holds(pc, b) <==> HeldBy(a, t, b);
      }
    } else {
      LocalOk(capacity, a, t, pc, pc');
    }
  }

  lemma LoopStarts(left: nat)
    ensures PieceLoopOk(left, LARGEST_CLASS)
  {
    LargestClass();
  }

  lemma SplitOk(capacity: nat, a: Arena, t: ThreadId, b: Offset, size: nat)
    requires Inv(capacity, a) && HeldBy(a, t, b) && 0 < size < a.pieces[b] && Aligned(size)
    ensures var a' := Split(a, t, b, size);
      && Inv(capacity, a') && OthersKept(a, a', t) && a'.pieces[b] == size && b + size in a'.pieces && a'.pieces[b + size] == a.pieces[b] - size
      && Aligned(a.pieces[b] - size)
      && (forall x {:trigger HeldBy(a', t, x)} :: HeldBy(a', t, x) <==> x == b + size || HeldBy(a, t, x))
      && (forall x {:trigger PieceAt(a', x)} :: x != b && x != b + size ==> PieceAt(a', x) == PieceAt(a, x))
  {
    assert PieceOk(a, b);
    SplitKeeps(capacity, a, t, b, size);
    forall x ensures Kept(a, Split(a, t, b, size), t, x) {}
  }

  lemma PushFreeOk(capacity: nat, a: Arena, t: ThreadId, b: Offset, size: nat)
    requires Inv(capacity, a) && HeldBy(a, t, b) && a.pieces[b] == size && IsBlockSize(size)
    ensures var a' := PushFree(a, b, size);
      && Inv(capacity, a') && OthersKept(a, a', t) && a'.pieces == a.pieces
      && (forall x {:trigger HeldBy(a', t, x)} :: HeldBy(a', t, x) <==> x != b && HeldBy(a, t, x))
  {
    PushFreeKeeps(capacity, a, t, b);
    forall x ensures Kept(a, PushFree(a, b, size), t, x) {}
  }

  lemma DivideOk(capacity: nat, a: Arena, a': Arena, t: ThreadId, pc: Pc, pc': Pc)
    requires Coherent(capacity, a, t, pc) && DivideStep(a, pc, a', pc', t)
    ensures StepOk(capacity, a, a', t, pc')
  {
    assert Holds(pc, pc.b);
    var size := BlockSizeFor(pc.bytes);
    BlockSizeIsLeast(pc.bytes);
    if a.pieces[pc.b] > size {
      SplitOk(capacity, a, t, pc.b, size);
      LoopStarts(a.pieces[pc.b] - size);
      forall b ensures Holds(pc', b) <==> HeldBy(a', t, b) {
        assert Holds(pc, b) <==> HeldBy(a, t, b);
      }
    } else {
      LocalOk(capacity, a, t, pc, pc');
    }
  }

  // ----- free_pieces -----

  lemma HalfClass(classSize: nat)
    requires exists bin: nat :: bin < NUM_BINS - 1 && classSize == ClassSize(bin)
    ensures classSize == MIN_ALIGNMENT || exists bin: nat :: bin < NUM_BINS - 1 && classSize / 2 == ClassSize(bin)
    ensures classSize % 2 == 0 && Aligned(classSize) && classSize >= MIN_ALIGNMENT && IsBlockSize(classSize)
  {
    var bin: nat :| bin < NUM_BINS - 1 && classSize == ClassSize(bin);
    if bin > 0 {
      assert classSize == 2 * ClassSize(bin - 1);
    }
  }

  /** The loop keeps what is left below twice the next class, and stops with nothing left. */
  lemma LoopGoesOn(left: nat, classSize: nat)
    requires PieceLoopOk(left, classSize) && 0 < left <= LARGEST_CLASS && Aligned(left)
    ensures classSize >= MIN_ALIGNMENT && Aligned(classSize) && IsBlockSize(classSize)
    ensures left < classSize ==> PieceLoopOk(left, classSize / 2)
    ensures left >= classSize ==> Aligned(left - classSize) && PieceLoopOk(left - classSize, classSize / 2)
  {
    HalfClass(classSize);
    if left >= classSize {
      AlignedDifference(left, classSize);
    }
  }

  lemma AlignedDifference(m: nat, n: nat)
    requires Aligned(m) && Aligned(n) && n <= m
    ensures Aligned(m - n)
  {}

  lemma FreePiecesOk(capacity: nat, a: Arena, a': Arena, t: ThreadId, pc: Pc, pc': Pc)
    requires Coherent(capacity, a, t, pc) && FreePiecesStep(a, pc, a', pc', t)
    ensures StepOk(capacity, a, a', t, pc')
  {
    if pc.left == 0 {
      LocalOk(capacity, a, t, pc, pc');
    } else {
      assert Holds(pc, pc.p) && Holds(pc, pc.b);
      if pc.left > LARGEST_CLASS {
        PushWholeOk(capacity, a, a', t, pc, pc');
      } else {
        LoopGoesOn(pc.left, pc.classSize);
        if pc.left < pc.classSize {
          LocalOk(capacity, a, t, pc, pc');
        } else {
          PushPieceOk(capacity, a, a', t, pc, pc');
        }
      }
    }
  }

  lemma PushWholeOk(capacity: nat, a: Arena, a': Arena, t: ThreadId, pc: Pc, pc': Pc)
    requires Coherent(capacity, a, t, pc) && FreePiecesStep(a, pc, a', pc', t) && pc.left > LARGEST_CLASS
    requires HeldBy(a, t, pc.p)
    ensures StepOk(capacity, a, a', t, pc')
  {
    PushFreeOk(capacity, a, t, pc.p, pc.left);
    forall b ensures Holds(pc', b) <==> HeldBy(a', t, b) {
      assert Holds(pc, b) <==> HeldBy(a, t, b);
    }
  }

  /** Cutting size bytes off the front of b and pushing them: b + size stays with the thread. */
  lemma SplitAndPushOk(capacity: nat, a: Arena, t: ThreadId, b: Offset, size: nat)
    requires Inv(capacity, a) && HeldBy(a, t, b) && 0 < size < a.pieces[b] && Aligned(size) && IsBlockSize(size)
    ensures var a' := PushFree(Split(a, t, b, size), b, size);
      && Inv(capacity, a') && OthersKept(a, a', t) && !HeldBy(a, t, b + size)
      && b + size in a'.pieces && a'.pieces[b + size] == a.pieces[b] - size && Aligned(a.pieces[b] - size)
      && (forall x {:trigger HeldBy(a', t, x)} :: HeldBy(a', t, x) <==> x == b + size || (x != b && HeldBy(a, t, x)))
      && (forall x {:trigger PieceAt(a', x)} :: x != b && x != b + size ==> PieceAt(a', x) == PieceAt(a, x))
  {
    SplitOk(capacity, a, t, b, size);
    SplitKeeps(capacity, a, t, b, size);
    var a1 := Split(a, t, b, size);
    var a' := PushFree(a1, b, size);
    PushFreeOk(capacity, a1, t, b, size);
    forall x ensures Kept(a, a', t, x) {
      assert Kept(a, a1, t, x) && Kept(a1, a', t, x);
    }
  }

  lemma PushPieceOk(capacity: nat, a: Arena, a': Arena, t: ThreadId, pc: Pc, pc': Pc)
    requires Coherent(capacity, a, t, pc) && FreePiecesStep(a, pc, a', pc', t) && pc.classSize <= pc.left <= LARGEST_CLASS
    requires HeldBy(a, t, pc.p) && HeldBy(a, t, pc.b) && pc.classSize >= MIN_ALIGNMENT && Aligned(pc.classSize) && IsBlockSize(pc.classSize)
    requires PieceLoopOk(pc.left - pc.classSize, pc.classSize / 2)
    ensures StepOk(capacity, a, a', t, pc')
  {
    if pc.left > pc.classSize {
      PushFirstPieceOk(capacity, a, a', t, pc, pc');
    } else {
      PushFreeOk(capacity, a, t, pc.p, pc.classSize);
      forall b ensures Holds(pc', b) <==> HeldBy(a', t, b) {
        assert Holds(pc, b) <==> HeldBy(a, t, b);
      }
    }
  }

  lemma PushFirstPieceOk(capacity: nat, a: Arena, a': Arena, t: ThreadId, pc: Pc, pc': Pc)
    requires Coherent(capacity, a, t, pc) && FreePiecesStep(a, pc, a', pc', t) && pc.classSize < pc.left <= LARGEST_CLASS
    requires HeldBy(a, t, pc.p) && HeldBy(a, t, pc.b) && pc.classSize >= MIN_ALIGNMENT && Aligned(pc.classSize) && IsBlockSize(pc.classSize)
    requires PieceLoopOk(pc.left - pc.classSize, pc.classSize / 2)
    ensures StepOk(capacity, a, a', t, pc')
  {
    SplitAndPushOk(capacity, a, t, pc.p, pc.classSize);
    FirstPieceCoupled(a, a', t, pc, pc');
  }

  lemma FirstPieceCoupled(a: Arena, a': Arena, t: ThreadId, pc: Pc, pc': Pc)
    requires Coupled(a, t, pc) && pc.FreePieces? && 0 < pc.classSize < pc.left
    requires pc' == pc.(p := pc.p + pc.classSize, left := pc.left - pc.classSize, classSize := pc.classSize / 2)
    requires var rest := pc.p + pc.classSize;
      && !HeldBy(a, t, rest) && rest in a'.pieces && a'.pieces[rest] == pc.left - pc.classSize && Aligned(pc.left - pc.classSize)
      && (forall x {:trigger HeldBy(a', t, x)} :: HeldBy(a', t, x) <==> x == rest || (x != pc.p && HeldBy(a, t, x)))
      && (forall x {:trigger PieceAt(a', x)} :: x != pc.p && x != rest ==> PieceAt(a', x) == PieceAt(a, x))
    requires PieceLoopOk(pc.left - pc.classSize, pc.classSize / 2) && Holds(pc, pc.b)
    ensures Coupled(a', t, pc')
  {
    assert HeldBy(a, t, pc.b);
    forall b ensures Holds(pc', b) <==> HeldBy(a', t, b) {
      assert Holds(pc, b) <==> HeldBy(a, t, b);
    }
  }

  // ----- returning and freeing -----

  lemma HandOverOk(capacity: nat, a: Arena, a': Arena, t: ThreadId, pc: Pc, pc': Pc)
    requires Coherent(capacity, a, t, pc) && (ReturnStep(a, pc, a', pc') || StartFree(a, pc, a', pc', t))
    ensures StepOk(capacity, a, a', t, pc')
  {
    if pc.Return? {
      assert Holds(pc, pc.b);
      SetHolderKeeps(capacity, a, pc.b, WithClient(pc.bytes));
    } else {
      assert PieceOk(a, pc'.b);
      SetHolderKeeps(capacity, a, pc'.b, ByThread(t));
      BlockSizeIsLeast(a.holders[pc'.b].bytes);
    }
    forall b ensures Kept(a, a', t, b) {}
    forall b ensures Holds(pc', b) <==> HeldBy(a', t, b) {
      assert Holds(pc, b) <==> HeldBy(a, t, b);
    }
  }

  lemma PushFreedOk(capacity: nat, a: Arena, a': Arena, t: ThreadId, pc: Pc, pc': Pc)
    requires Coherent(capacity, a, t, pc) && PushFreedStep(a, pc, a', pc')
    ensures StepOk(capacity, a, a', t, pc')
  {
    assert Holds(pc, pc.b);
    PushFreeOk(capacity, a, t, pc.b, pc.size);
    forall b ensures Holds(pc', b) <==> HeldBy(a', t, b) {
      assert Holds(pc, b) <==> HeldBy(a, t, b);
    }
  }

  lemma ThreadStepOk(capacity: nat, a: Arena, a': Arena, t: ThreadId, pc: Pc, pc': Pc)
    requires Coherent(capacity, a, t, pc) && ThreadStep(capacity, a, pc, a', pc', t)
    ensures StepOk(capacity, a, a', t, pc')
  {
    if BumpCasStep(capacity, a, pc, a', pc', t) { BumpOk(capacity, a, a', t, pc, pc'); }
    else if PopBinStep(a, pc, a', pc', t) { PopBinOk(capacity, a, a', t, pc, pc'); }
    else if StealLargeStep(a, pc, a', pc', t) { StealLargeOk(capacity, a, a', t, pc, pc'); }
    else if PushRestStep(a, pc, a', pc') { PushRestOk(capacity, a, a', t, pc, pc'); }
    else if DivideStep(a, pc, a', pc', t) { DivideOk(capacity, a, a', t, pc, pc'); }
    else if FreePiecesStep(a, pc, a', pc', t) { FreePiecesOk(capacity, a, a', t, pc, pc'); }
    else if PushFreedStep(a, pc, a', pc') { PushFreedOk(capacity, a, a', t, pc, pc'); }
    else if ReturnStep(a, pc, a', pc') || StartFree(a, pc, a', pc', t) { HandOverOk(capacity, a, a', t, pc, pc'); }
    else { LocalOk(capacity, a, t, pc, pc'); }
  }

  // ----- runs -----

  lemma InitHolds(capacity: nat, s: System)
    requires Init(capacity, s)
    ensures SystemInv(capacity, s)
  {
    assert s.arena.holders.Keys == s.arena.pieces.Keys;
    forall t ensures Coupled(s.arena, t, PcAt(s, t)) {
      forall b ensures Holds(Idle, b) <==> HeldBy(s.arena, t, b) {}
    }
  }

  lemma StepHolds(capacity: nat, s: System, s': System, t: ThreadId)
    requires SystemInv(capacity, s) && StepBy(capacity, s, s', t)
    ensures SystemInv(capacity, s')
  {
    assert Coupled(s.arena, t, PcAt(s, t));
    ThreadStepOk(capacity, s.arena, s'.arena, t, PcAt(s, t), PcAt(s', t));
    forall u ensures Coupled(s'.arena, u, PcAt(s', u)) {
      if u != t {
        assert Coupled(s.arena, u, PcAt(s, u));
        OthersStayCoupled(s.arena, s'.arena, t, u, PcAt(s, u));
      }
    }
  }

  lemma {:induction false} RunHolds(capacity: nat, run: seq<System>, i: nat)
    requires IsRun(capacity, run) && i < |run|
    ensures SystemInv(capacity, run[i])
  {
    if i == 0 {
      InitHolds(capacity, run[0]);
    } else {
      RunHolds(capacity, run, i - 1);
      assert Next(capacity, run[i - 1], run[i - 1 + 1]);
      var t :| StepBy(capacity, run[i - 1], run[i], t);
      StepHolds(capacity, run[i - 1], run[i], t);
    }
  }

  ghost predicate Reachable(capacity: nat, s: System) {
    exists run :: IsRun(capacity, run) && run[|run| - 1] == s
  }

  lemma ReachableHolds(capacity: nat, s: System)
    requires Reachable(capacity, s)
    ensures SystemInv(capacity, s)
  {
    var run :| IsRun(capacity, run) && run[|run| - 1] == s;
    RunHolds(capacity, run, |run| - 1);
  }

  // ----- what follows -----

  /** The client has the piece at b, from a request for `bytes`. */
  predicate Live(a: Arena, b: Offset, bytes: nat) {
    b in a.holders && a.holders[b] == WithClient(bytes)
  }

  predicate Binned(a: Arena, b: Offset, bin: nat) {
    b in BinAt(a, bin)
  }

  ghost predicate InHand(s: System, b: Offset) {
    exists t :: Holds(PcAt(s, t), b)
  }

  /** In every interleaving the pieces partition [0, current): every byte lies in exactly one. */
  lemma PiecesPartition(capacity: nat, s: System, u: nat)
    requires Reachable(capacity, s)
    ensures u < s.arena.current ==> exists b :: b in s.arena.pieces && b <= u < b + s.arena.pieces[b]
    ensures forall b1, b2 ::
      (b1 in s.arena.pieces && b2 in s.arena.pieces && b1 <= u < b1 + s.arena.pieces[b1] && b2 <= u < b2 + s.arena.pieces[b2])
      ==> b1 == b2
    ensures u >= s.arena.current ==> forall b :: b in s.arena.pieces ==> !(b <= u < b + s.arena.pieces[b])
    ensures s.arena.current <= capacity
  {
    ReachableHolds(capacity, s);
    var a := s.arena;
    if u < a.current {
      Covered(a.pieces, a.current, u);
    } else {
      forall b | b in a.pieces ensures !(b <= u < b + a.pieces[b]) {
        BelowCurrent(a.pieces, a.current, b);
      }
    }
    forall b1, b2 | b1 in a.pieces && b2 in a.pieces && b1 <= u < b1 + a.pieces[b1] && b2 <= u < b2 + a.pieces[b2] ensures b1 == b2 {
      assert Before(a.pieces, b1, b2) && Before(a.pieces, b2, b1);
    }
  }

  function Ones(live: bool, binned: bool, inHand: bool): nat {
    (if live then 1 else 0) + (if binned then 1 else 0) + (if inHand then 1 else 0)
  }

  /**
    Conservation: each piece is exactly one of a live allocation, a block in one bin, or a block in the
    hands of one running thread; and nothing else is any of these.
   */
  lemma PiecesAreInOnePlace(capacity: nat, s: System, b: Offset)
    requires Reachable(capacity, s)
    ensures var live := exists bytes {:trigger Live(s.arena, b, bytes)} :: Live(s.arena, b, bytes);
      var binned := exists bin {:trigger Binned(s.arena, b, bin)} :: Binned(s.arena, b, bin);
      Ones(live, binned, InHand(s, b)) == if b in s.arena.pieces then 1 else 0
    ensures forall bin1, bin2 :: Binned(s.arena, b, bin1) && Binned(s.arena, b, bin2) ==> bin1 == bin2
    ensures forall t1, t2 :: Holds(PcAt(s, t1), b) && Holds(PcAt(s, t2), b) ==> t1 == t2
  {
    ReachableHolds(capacity, s);
    var a := s.arena;
    forall t | Holds(PcAt(s, t), b) ensures b in a.pieces && b in a.holders && a.holders[b] == ByThread(t) {
      assert Coupled(a, t, PcAt(s, t));
    }
    forall bin | Binned(a, b, bin) ensures b in a.pieces && b in a.holders && a.holders[b] == InBin(bin) {
      BinnedHolder(capacity, a, b, bin);
    }
    if b in a.pieces {
      HasHolder(capacity, s, b);
    }
  }

  lemma BinnedHolder(capacity: nat, a: Arena, b: Offset, bin: nat)
    requires Inv(capacity, a) && Binned(a, b, bin)
    ensures b in a.pieces && b in a.holders && a.holders[b] == InBin(bin)
  {
    var i: nat :| i < |a.bins[bin]| && a.bins[bin][i] == b;
    assert EntryOk(a, bin, i);
  }

  lemma HasHolder(capacity: nat, s: System, b: Offset)
    requires SystemInv(capacity, s) && b in s.arena.pieces
    ensures (exists bytes :: Live(s.arena, b, bytes)) || (exists bin :: Binned(s.arena, b, bin)) || InHand(s, b)
  {
    assert PieceOk(s.arena, b);
    match s.arena.holders[b]
    case InBin(bin) => assert Binned(s.arena, b, bin);
    case WithClient(bytes) => assert Live(s.arena, b, bytes);
    case ByThread(t) =>
      assert Coupled(s.arena, t, PcAt(s, t));
      assert Holds(PcAt(s, t), b);
  }

  /** What the client holds and what the bins hold have exactly the sizes they are taken to have. */
  lemma ExactSizes(capacity: nat, s: System, b: Offset)
    requires Reachable(capacity, s) && b in s.arena.pieces
    ensures Aligned(b)
    ensures forall bytes: nat :: Live(s.arena, b, bytes) ==> s.arena.pieces[b] == BlockSizeFor(bytes) >= bytes
    ensures forall bin: nat :: Binned(s.arena, b, bin) && bin < NUM_BINS - 1 ==> s.arena.pieces[b] == ClassSize(bin)
    ensures Binned(s.arena, b, NUM_BINS - 1) ==> HeaderAt(s.arena, b) == s.arena.pieces[b] > LARGEST_CLASS
  {
    ReachableHolds(capacity, s);
    var a := s.arena;
    assert PieceOk(a, b);
    forall bytes: nat | Live(a, b, bytes) ensures BlockSizeFor(bytes) >= bytes {
      BlockSizeIsLeast(bytes);
    }
    forall bin: nat | Binned(a, b, bin) ensures a.holders[b] == InBin(bin) {
      BinnedHolder(capacity, a, b, bin);
    }
  }
}
