/**
  The static arena does serve: from any reachable state, wherever the other threads stand, a thread on its
  own is given a new block while the tail has room, and after that a block from the class bins.
 */
module StaticArenaProgress {
  import opened Wrappers
  import opened StaticArenaSizes
  import opened StaticArenaState
  import opened StaticArenaThreads
  import opened StaticArenaSafety

  ghost predicate OnlyMoves(s: System, s': System, t: ThreadId) {
    forall u {:trigger PcAt(s', u)} :: u != t ==> PcAt(s', u) == PcAt(s, u)
  }

  ghost predicate SoloAt(capacity: nat, path: seq<System>, i: nat, t: ThreadId)
    requires i + 1 < |path|
  {
    StepBy(capacity, path[i], path[i + 1], t)
  }

  ghost predicate IsSolo(capacity: nat, path: seq<System>, t: ThreadId) {
    |path| > 0 && forall i {:trigger SoloAt(capacity, path, i, t)} :: 0 <= i < |path| - 1 ==> SoloAt(capacity, path, i, t)
  }

  /** Thread t takes s to s' on its own. */
  ghost predicate Leads(capacity: nat, s: System, s': System, t: ThreadId) {
    exists path {:trigger IsSolo(capacity, path, t)} :: IsSolo(capacity, path, t) && path[0] == s && path[|path| - 1] == s'
  }

  /** Reachable, and by thread t alone from state o. */
  ghost predicate From(capacity: nat, o: System, s: System, t: ThreadId) {
    Reachable(capacity, s) && Leads(capacity, o, s, t)
  }

  lemma Here(capacity: nat, s: System, t: ThreadId)
    requires Reachable(capacity, s)
    ensures From(capacity, s, s, t)
  {
    assert IsSolo(capacity, [s], t);
  }

  /** One step of thread t. */
  lemma Advance(capacity: nat, o: System, s: System, t: ThreadId, a': Arena, pc': Pc) returns (s': System)
    requires From(capacity, o, s, t) && ThreadStep(capacity, s.arena, PcAt(s, t), a', pc', t)
    ensures From(capacity, o, s', t) && s'.arena == a' && PcAt(s', t) == pc' && OnlyMoves(s, s', t)
  {
    s' := System(a', s.threads[t := pc']);
    Extend(capacity, s, s', t);
    var path :| IsSolo(capacity, path, t) && path[0] == o && path[|path| - 1] == s;
    var path' := path + [s'];
    forall i: nat | i + 1 < |path'| ensures SoloAt(capacity, path', i, t) {
      if i + 1 < |path| {
        assert SoloAt(capacity, path, i, t);
      }
    }
    assert IsSolo(capacity, path', t);
  }

  lemma Extend(capacity: nat, s: System, s': System, t: ThreadId)
    requires Reachable(capacity, s) && StepBy(capacity, s, s', t)
    ensures Reachable(capacity, s')
  {
    var run :| IsRun(capacity, run) && run[|run| - 1] == s;
    var run' := run + [s'];
    forall i: nat | i + 1 < |run'| ensures Next(capacity, run'[i], run'[i + 1]) {
      if i + 1 < |run| {
        assert Next(capacity, run[i], run[i + 1]);
      }
    }
    assert IsRun(capacity, run');
  }

  // ----- the tail -----

  predicate TailHolds(capacity: nat, a: Arena, size: nat) {
    RoundUp(a.current) + size <= capacity
  }

  lemma StartsCall(capacity: nat, o: System, s: System, t: ThreadId, bytes: nat) returns (s': System)
    requires From(capacity, o, s, t) && PcAt(s, t).Idle? && bytes <= capacity
    ensures From(capacity, o, s', t) && OnlyMoves(s, s', t) && s'.arena == s.arena && PcAt(s', t) == BumpCas(bytes, s.arena.current)
  {
    var a := s.arena;
    assert StartAllocate(capacity, a, PcAt(s, t), a, LoadCurrent(bytes));
    s' := Advance(capacity, o, s, t, a, LoadCurrent(bytes));
    assert LoadCurrentStep(a, LoadCurrent(bytes), a, BumpCas(bytes, a.current));
    s' := Advance(capacity, o, s', t, a, BumpCas(bytes, a.current));
  }

  lemma Returns(capacity: nat, o: System, s: System, t: ThreadId, bytes: nat, b: Offset) returns (s': System)
    requires From(capacity, o, s, t) && PcAt(s, t) == Return(bytes, b)
    ensures From(capacity, o, s', t) && OnlyMoves(s, s', t) && PcAt(s', t).Idle? && s'.arena == SetHolder(s.arena, b, WithClient(bytes))
  {
    var a' := SetHolder(s.arena, b, WithClient(bytes));
    assert ReturnStep(s.arena, PcAt(s, t), a', Idle);
    s' := Advance(capacity, o, s, t, a', Idle);
  }

  lemma CurrentIsNew(capacity: nat, s: System)
    requires Reachable(capacity, s)
    ensures RoundUp(s.arena.current) == s.arena.current && s.arena.current !in s.arena.pieces
  {
    ReachableHolds(capacity, s);
    assert s.arena.current in s.arena.pieces ==> PieceFits(s.arena.pieces, s.arena.current, s.arena.current);
  }

  /** While the tail can hold the block, the call is given a new piece of exactly its size. */
  lemma ServesFromTail(capacity: nat, o: System, s: System, t: ThreadId, bytes: nat) returns (s': System)
    requires From(capacity, o, s, t) && PcAt(s, t).Idle? && TailHolds(capacity, s.arena, BlockSizeFor(bytes)) && bytes <= capacity
    ensures From(capacity, o, s', t) && OnlyMoves(s, s', t) && PcAt(s', t).Idle?
    ensures var b := s.arena.current;
      && b !in s.arena.pieces && Live(s'.arena, b, bytes) && s'.arena.current == b + BlockSizeFor(bytes)
      && s'.arena.pieces == s.arena.pieces[b := BlockSizeFor(bytes)] && s'.arena.bins == s.arena.bins
  {
    CurrentIsNew(capacity, s);
    s' := StartsCall(capacity, o, s, t, bytes);
    var (a, b) := (s.arena, s.arena.current);
    var a1 := Bump(a, t, BlockSizeFor(bytes));
    assert a.(current := b) == a;
    assert BumpCasStep(capacity, a, BumpCas(bytes, b), a1, Return(bytes, b), t);
    s' := Advance(capacity, o, s', t, a1, Return(bytes, b));
    s' := Returns(capacity, o, s', t, bytes, b);
  }

  // ----- the class bins -----

  lemma {:induction false} ScansBins(capacity: nat, o: System, s: System, t: ThreadId, bytes: nat, from: nat, k: nat) returns (s': System)
    requires From(capacity, o, s, t) && PcAt(s, t) == PopBin(bytes, from) && from <= k < NUM_BINS - 1
    requires forall i: nat :: from <= i < k ==> BinAt(s.arena, i) == []
    ensures From(capacity, o, s', t) && OnlyMoves(s, s', t) && s'.arena == s.arena && PcAt(s', t) == PopBin(bytes, k)
    decreases k - from
  {
    s' := s;
    if from < k {
      assert PopBinStep(s.arena, PopBin(bytes, from), s.arena, PopBin(bytes, from + 1), t);
      s' := Advance(capacity, o, s, t, s.arena, PopBin(bytes, from + 1));
      s' := ScansBins(capacity, o, s', t, bytes, from + 1, k);
    }
  }

  /** One turn of free_pieces is always possible, and leaves less to free or a smaller class to try. */
  lemma FreesOne(capacity: nat, o: System, s: System, t: ThreadId) returns (s': System)
    requires From(capacity, o, s, t) && PcAt(s, t).FreePieces? && PcAt(s, t).left > 0
    ensures From(capacity, o, s', t) && OnlyMoves(s, s', t)
    ensures var (pc, pc') := (PcAt(s, t), PcAt(s', t));
      pc' == Return(pc.bytes, pc.b)
      || (pc'.FreePieces? && pc'.bytes == pc.bytes && pc'.b == pc.b
          && (pc'.left < pc.left || (pc'.left == pc.left && pc'.classSize < pc.classSize)))
  {
    ReachableHolds(capacity, s);
    assert Coupled(s.arena, t, PcAt(s, t));
    var (a, pc) := (s.arena, PcAt(s, t));
    var (a', pc') := (a, pc);
    if pc.left > LARGEST_CLASS {
      a', pc' := PushFree(a, pc.p, pc.left), Return(pc.bytes, pc.b);
    } else if pc.left < pc.classSize {
      pc' := pc.(classSize := pc.classSize / 2);
    } else {
      a' := PushFree(if pc.left > pc.classSize then Split(a, t, pc.p, pc.classSize) else a, pc.p, pc.classSize);
      pc' := pc.(p := pc.p + pc.classSize, left := pc.left - pc.classSize, classSize := pc.classSize / 2);
    }
    assert FreePiecesStep(a, pc, a', pc', t);
    s' := Advance(capacity, o, s, t, a', pc');
  }

  lemma {:induction false} FreesPieces(capacity: nat, o: System, s: System, t: ThreadId) returns (s': System)
    requires From(capacity, o, s, t) && PcAt(s, t).FreePieces?
    ensures From(capacity, o, s', t) && OnlyMoves(s, s', t) && PcAt(s', t) == Return(PcAt(s, t).bytes, PcAt(s, t).b)
    decreases PcAt(s, t).left, PcAt(s, t).classSize
  {
    var pc := PcAt(s, t);
    if pc.left == 0 {
      assert FreePiecesStep(s.arena, pc, s.arena, Return(pc.bytes, pc.b), t);
      s' := Advance(capacity, o, s, t, s.arena, Return(pc.bytes, pc.b));
    } else {
      s' := FreesOne(capacity, o, s, t);
      if PcAt(s', t).FreePieces? {
        s' := FreesPieces(capacity, o, s', t);
      }
    }
  }

  /** The block in hand is returned, whole or without its tail. */
  lemma Divides(capacity: nat, o: System, s: System, t: ThreadId, bytes: nat, b: Offset) returns (s': System)
    requires From(capacity, o, s, t) && PcAt(s, t) == Divide(bytes, b)
    ensures From(capacity, o, s', t) && OnlyMoves(s, s', t) && PcAt(s', t) == Return(bytes, b)
  {
    var (a, size) := (s.arena, BlockSizeFor(bytes));
    if PieceAt(a, b) > size {
      var pc' := FreePieces(bytes, b, b + size, PieceAt(a, b) - size, LARGEST_CLASS);
      assert DivideStep(a, Divide(bytes, b), Split(a, t, b, size), pc', t);
      s' := Advance(capacity, o, s, t, Split(a, t, b, size), pc');
      s' := FreesPieces(capacity, o, s', t);
    } else {
      assert DivideStep(a, Divide(bytes, b), a, Return(bytes, b), t);
      s' := Advance(capacity, o, s, t, a, Return(bytes, b));
    }
  }

  /** Once the tail is used up, the call takes the top of the first class bin, from its own class up, that has a block. */
  lemma ServesFromBin(capacity: nat, o: System, s: System, t: ThreadId, bytes: nat, k: nat) returns (s': System)
    requires From(capacity, o, s, t) && PcAt(s, t).Idle? && bytes <= capacity && !TailHolds(capacity, s.arena, BlockSizeFor(bytes))
    requires BinFor(BlockSizeFor(bytes)) <= k < NUM_BINS - 1 && BinAt(s.arena, k) != []
    requires forall i: nat :: BinFor(BlockSizeFor(bytes)) <= i < k ==> BinAt(s.arena, i) == []
    ensures From(capacity, o, s', t) && OnlyMoves(s, s', t) && PcAt(s', t).Idle? && Live(s'.arena, BinAt(s.arena, k)[0], bytes)
  {
    var (a, first, b) := (s.arena, BinFor(BlockSizeFor(bytes)), BinAt(s.arena, k)[0]);
    s' := StartsCall(capacity, o, s, t, bytes);
    assert BumpCasStep(capacity, a, BumpCas(bytes, a.current), a, PopBin(bytes, first), t);
    s' := Advance(capacity, o, s', t, a, PopBin(bytes, first));
    s' := ScansBins(capacity, o, s', t, bytes, first, k);
    assert PopBinStep(a, PopBin(bytes, k), Pop(a, t, k), Divide(bytes, b), t);
    s' := Advance(capacity, o, s', t, Pop(a, t, k), Divide(bytes, b));
    s' := Divides(capacity, o, s', t, bytes, b);
    s' := Returns(capacity, o, s', t, bytes, b);
  }

  // ----- a freed block serves again -----

  lemma Frees(capacity: nat, o: System, s: System, t: ThreadId, b: Offset, bytes: nat) returns (s': System)
    requires From(capacity, o, s, t) && PcAt(s, t).Idle? && Live(s.arena, b, bytes)
    ensures From(capacity, o, s', t) && OnlyMoves(s, s', t) && PcAt(s', t).Idle?
    ensures s'.arena == PushFree(SetHolder(s.arena, b, ByThread(t)), b, BlockSizeFor(bytes))
  {
    var a1 := SetHolder(s.arena, b, ByThread(t));
    var pc1 := PushFreed(b, BlockSizeFor(bytes));
    assert StartFree(s.arena, PcAt(s, t), a1, pc1, t);
    s' := Advance(capacity, o, s, t, a1, pc1);
    var a2 := PushFree(a1, b, BlockSizeFor(bytes));
    assert PushFreedStep(a1, pc1, a2, Idle);
    s' := Advance(capacity, o, s', t, a2, Idle);
  }

  /** With the tail used up, a block of a class bin that is freed is what the next request of its size is given. */
  lemma FreedBlockServesAgain(capacity: nat, s: System, t: ThreadId, b: Offset, bytes: nat) returns (freed: System, s': System)
    requires Reachable(capacity, s) && PcAt(s, t).Idle? && Live(s.arena, b, bytes) && bytes <= capacity
    requires BlockSizeFor(bytes) <= LARGEST_CLASS && !TailHolds(capacity, s.arena, BlockSizeFor(bytes))
    ensures From(capacity, s, freed, t) && PcAt(freed, t).Idle? && OnlyMoves(s, freed, t) && !Live(freed.arena, b, bytes)
    ensures From(capacity, freed, s', t) && PcAt(s', t).Idle? && OnlyMoves(freed, s', t) && Live(s'.arena, b, bytes)
  {
    Here(capacity, s, t);
    freed := Frees(capacity, s, s, t, b, bytes);
    ReachableHolds(capacity, s);
    var k := BinFor(BlockSizeFor(bytes));
    assert BinAt(freed.arena, k)[0] == b;
    Here(capacity, freed, t);
    s' := ServesFromBin(capacity, freed, freed, t, bytes, k);
  }
}
