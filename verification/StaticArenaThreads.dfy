/**
  Threads that allocate from and free to the static arena, one atomic action per step.  Each action on a
  bin is one step of the lock-free stack; what a thread does to blocks it holds alone is merged with the
  action that follows.
 */
module StaticArenaThreads {
  import opened Wrappers
  import opened StaticArenaSizes
  import opened StaticArenaState

  datatype Pc =
    | Idle
    | LoadCurrent(bytes: nat)
    | BumpCas(bytes: nat, expected: Offset)
    | PopBin(bytes: nat, bin: nat)
    | StealLarge(bytes: nat)
    | PushRest(bytes: nat, best: Option<Offset>, rest: seq<Offset>)
    | Divide(bytes: nat, b: Offset)
    | FreePieces(bytes: nat, b: Offset, p: Offset, left: nat, classSize: nat)
    | Return(bytes: nat, b: Offset)
    | PushFreed(b: Offset, size: nat)

  // ----- do_allocate -----

  /** A request that asks for more than 64-byte alignment, or for more than the arena, is refused at once. */
  ghost predicate StartAllocate(capacity: nat, a: Arena, pc: Pc, a': Arena, pc': Pc) {
    pc.Idle? && a' == a && (pc'.Idle? || (pc'.LoadCurrent? && pc'.bytes <= capacity))
  }

  ghost predicate LoadCurrentStep(a: Arena, pc: Pc, a': Arena, pc': Pc) {
    pc.LoadCurrent? && a' == a && pc' == BumpCas(pc.bytes, a.current)
  }

  ghost predicate BumpCasStep(capacity: nat, a: Arena, pc: Pc, a': Arena, pc': Pc, t: ThreadId) {
    && pc.BumpCas?
    && var size := BlockSizeFor(pc.bytes);
    && var aligned := RoundUp(pc.expected);
    if aligned > capacity || size > capacity - aligned then a' == a && pc' == PopBin(pc.bytes, BinFor(size))
    else if pc'.Return? then
      a.current == pc.expected && a' == Bump(a.(current := aligned), t, size) && pc' == Return(pc.bytes, aligned)
    else a' == a && pc' == BumpCas(pc.bytes, a.current)
  }

  ghost predicate PopBinStep(a: Arena, pc: Pc, a': Arena, pc': Pc, t: ThreadId) {
    && pc.PopBin?
    && if pc.bin >= NUM_BINS - 1 then a' == a && pc' == StealLarge(pc.bytes)
       else if BinAt(a, pc.bin) == [] then a' == a && pc' == PopBin(pc.bytes, pc.bin + 1)
       else a' == Pop(a, t, pc.bin) && pc' == Divide(pc.bytes, BinAt(a, pc.bin)[0])
  }

  /** The first block in the list of the smallest adequate size. */
  ghost predicate BestFit(a: Arena, list: seq<Offset>, size: nat, best: Option<Offset>) {
    match best
    case None => forall b :: b in list ==> HeaderAt(a, b) < size
    case Some(b) => exists k: nat {:trigger list[k]} :: k < |list| && list[k] == b && FirstSmallest(a, list, size, |list|, k)
  }

  function Without(list: seq<Offset>, best: Option<Offset>): seq<Offset> {
    if list == [] then [] else if best == Some(list[0]) then list[1..] else [list[0]] + Without(list[1..], best)
  }

  /** Steals bin 7 and picks the best fit; the size headers it reads are those of blocks it now holds. */
  ghost predicate StealLargeStep(a: Arena, pc: Pc, a': Arena, pc': Pc, t: ThreadId) {
    && pc.StealLarge? && pc'.PushRest?
    && var list := BinAt(a, NUM_BINS - 1);
    && BestFit(a, list, BlockSizeFor(pc.bytes), pc'.best)
    && a' == StealAll(a, t, NUM_BINS - 1) && pc' == PushRest(pc.bytes, pc'.best, Without(list, pc'.best))
  }

  ghost predicate PushRestStep(a: Arena, pc: Pc, a': Arena, pc': Pc) {
    && pc.PushRest?
    && if pc.rest != [] then a' == PushBack(a, NUM_BINS - 1, pc.rest[0]) && pc' == pc.(rest := pc.rest[1..])
       else a' == a && pc' == if pc.best.None? then Idle else Divide(pc.bytes, pc.best.value)
  }

  /** A block larger than the request gives up its tail. */
  ghost predicate DivideStep(a: Arena, pc: Pc, a': Arena, pc': Pc, t: ThreadId) {
    && pc.Divide?
    && var size := BlockSizeFor(pc.bytes);
    if PieceAt(a, pc.b) > size then
      a' == Split(a, t, pc.b, size) && pc' == FreePieces(pc.bytes, pc.b, pc.b + size, PieceAt(a, pc.b) - size, LARGEST_CLASS)
    else a' == a && pc' == Return(pc.bytes, pc.b)
  }

  /** free_pieces: one push or one halving of the class size. */
  ghost predicate FreePiecesStep(a: Arena, pc: Pc, a': Arena, pc': Pc, t: ThreadId) {
    && pc.FreePieces?
    && if pc.left == 0 then a' == a && pc' == Return(pc.bytes, pc.b)
       else if pc.left > LARGEST_CLASS then a' == PushFree(a, pc.p, pc.left) && pc' == Return(pc.bytes, pc.b)
       else if pc.left < pc.classSize then a' == a && pc' == pc.(classSize := pc.classSize / 2)
       else
         && a' == PushFree(if pc.left > pc.classSize then Split(a, t, pc.p, pc.classSize) else a, pc.p, pc.classSize)
         && pc' == pc.(p := pc.p + pc.classSize, left := pc.left - pc.classSize, classSize := pc.classSize / 2)
  }

  ghost predicate ReturnStep(a: Arena, pc: Pc, a': Arena, pc': Pc) {
    pc.Return? && a' == SetHolder(a, pc.b, WithClient(pc.bytes)) && pc' == Idle
  }

  // ----- do_deallocate -----

  /** The client gives back a block it has, with the size it asked for. */
  ghost predicate StartFree(a: Arena, pc: Pc, a': Arena, pc': Pc, t: ThreadId) {
    && pc.Idle? && pc'.PushFreed?
    && pc'.b in a.holders && a.holders[pc'.b].WithClient?
    && a' == SetHolder(a, pc'.b, ByThread(t)) && pc' == PushFreed(pc'.b, BlockSizeFor(a.holders[pc'.b].bytes))
  }

  ghost predicate PushFreedStep(a: Arena, pc: Pc, a': Arena, pc': Pc) {
    pc.PushFreed? && a' == PushFree(a, pc.b, pc.size) && pc' == Idle
  }

  // ----- runs -----

  ghost predicate ThreadStep(capacity: nat, a: Arena, pc: Pc, a': Arena, pc': Pc, t: ThreadId) {
    || StartAllocate(capacity, a, pc, a', pc')
    || LoadCurrentStep(a, pc, a', pc')
    || BumpCasStep(capacity, a, pc, a', pc', t)
    || PopBinStep(a, pc, a', pc', t)
    || StealLargeStep(a, pc, a', pc', t)
    || PushRestStep(a, pc, a', pc')
    || DivideStep(a, pc, a', pc', t)
    || FreePiecesStep(a, pc, a', pc', t)
    || ReturnStep(a, pc, a', pc')
    || StartFree(a, pc, a', pc', t)
    || PushFreedStep(a, pc, a', pc')
  }

  /** Any number of threads: those the map does not mention are between calls. */
  datatype System = System(arena: Arena, threads: map<ThreadId, Pc>)

  function PcAt(s: System, t: ThreadId): Pc {
    if t in s.threads then s.threads[t] else Idle
  }

  const EMPTY_BINS: seq<seq<Offset>> := [[], [], [], [], [], [], [], []]

  ghost predicate Init(capacity: nat, s: System) {
    s.threads == map[] && s.arena == Arena(0, EMPTY_BINS, map[], map[], map[]) && Aligned(capacity)
  }

  ghost predicate StepBy(capacity: nat, s: System, s': System, t: ThreadId) {
    && ThreadStep(capacity, s.arena, PcAt(s, t), s'.arena, PcAt(s', t), t)
    && (forall u {:trigger PcAt(s', u)} :: u != t ==> PcAt(s', u) == PcAt(s, u))
  }

  ghost predicate Next(capacity: nat, s: System, s': System) {
    exists t :: StepBy(capacity, s, s', t)
  }

  ghost predicate IsRun(capacity: nat, run: seq<System>) {
    && |run| > 0 && Init(capacity, run[0])
    && (forall i :: 0 <= i < |run| - 1 ==> Next(capacity, run[i], run[i + 1]))
  }
}
