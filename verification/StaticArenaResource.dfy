/**
  The static arena as one thread uses it, with the loops of the source: when an allocation fails, which
  block it takes when it does not, and how the rest of that block is freed.
 */
module StaticArenaResource {
  import opened Wrappers
  import opened StaticArenaSizes
  import opened StaticArenaState
  import S = StaticArenaSafety

  const ME: ThreadId := 0

  /** The blocks taken and not yet given out or freed are exactly `held`. */
  ghost predicate Alone(a: Arena, held: set<Offset>) {
    && held <= a.holders.Keys
    && forall b {:trigger a.holders[b]} :: b in a.holders ==> if b in held then a.holders[b] == ByThread(ME) else !a.holders[b].ByThread?
  }

  ghost predicate Working(capacity: nat, a: Arena, held: set<Offset>) {
    Aligned(capacity) && Inv(capacity, a) && Alone(a, held)
  }

  predicate IsFree(a: Arena, b: Offset) {
    b in a.pieces && b in a.holders && a.holders[b].InBin?
  }

  /** Nothing outside [from, to) changed, and every piece that starts after `from` inside it is free. */
  ghost predicate OnlyWithin(a: Arena, a': Arena, from: Offset, to: Offset) {
    && a'.current == a.current
    && (forall x {:trigger x in a'.pieces} {:trigger x in a.pieces} :: x in a.pieces && x != from ==>
          x in a'.pieces && x in a.holders && x in a'.holders && a'.pieces[x] == a.pieces[x] && a'.holders[x] == a.holders[x])
    && (forall x {:trigger x in a'.pieces} :: x in a'.pieces && x !in a.pieces ==> from < x < to && IsFree(a', x))
  }

  /** From a, the block at b was taken and its first block_size_for(bytes) bytes given to the client. */
  ghost predicate GivenFrom(a: Arena, a': Arena, b: Offset, bytes: nat) {
    && b in a.pieces && b in a'.pieces && b in a'.holders
    && a'.pieces[b] == BlockSizeFor(bytes) <= a.pieces[b] && a'.holders[b] == WithClient(bytes)
    && OnlyWithin(a, a', b, b + a.pieces[b])
  }

  ghost predicate Adequate(a: Arena, b: Offset, size: nat) {
    IsFree(a, b) && a.pieces[b] >= size
  }

  /** No free block that is large enough is smaller than b. */
  ghost predicate Smallest(a: Arena, b: Offset, size: nat) {
    Adequate(a, b, size) && forall x {:trigger Adequate(a, x, size)} :: Adequate(a, x, size) ==> a.pieces[b] <= a.pieces[x]
  }

  // ----- facts about the bins -----

  /** A free block of at least size bytes lies in the bin of size or a later one. */
  lemma AdequateBin(capacity: nat, a: Arena, b: Offset, size: nat)
    requires Inv(capacity, a) && Adequate(a, b, size) && IsBlockSize(size)
    ensures BinFor(size) <= a.holders[b].bin < NUM_BINS && b in a.bins[a.holders[b].bin]
    ensures Fits(a.holders[b].bin, a.pieces[b])
  {
    assert PieceOk(a, b);
    BinOfBlockSize(size);
    LargestClass();
    var bin := a.holders[b].bin;
    if bin < BinFor(size) && BinFor(size) < NUM_BINS - 1 {
      ClassSizesGrow(bin, BinFor(size));
    } else if bin < BinFor(size) && bin < 6 {
      ClassSizesGrow(bin, 6);
    }
  }

  lemma LaterBinIsLarger(bin1: nat, size1: nat, bin2: nat, size2: nat)
    requires Fits(bin1, size1) && Fits(bin2, size2) && bin1 < bin2
    ensures size1 < size2
  {
    LargestClass();
    if bin2 < NUM_BINS - 1 {
      ClassSizesGrow(bin1, bin2);
    } else if bin1 < 6 {
      ClassSizesGrow(bin1, 6);
    }
  }

  /** With the earlier bins empty, any block of this class bin is a smallest adequate one. */
  lemma FirstBinIsSmallest(capacity: nat, a: Arena, bin: nat, b: Offset, size: nat)
    requires Inv(capacity, a) && IsBlockSize(size) && BinFor(size) <= bin < NUM_BINS - 1
    requires b in a.pieces && b in a.holders && a.holders[b] == InBin(bin)
    requires forall j: nat :: BinFor(size) <= j < bin ==> a.bins[j] == []
    ensures Smallest(a, b, size)
  {
    assert PieceOk(a, b);
    BinOfBlockSize(size);
    if BinFor(size) < bin {
      LaterBinIsLarger(BinFor(size), size, bin, a.pieces[b]);
    }
    forall x {:trigger Adequate(a, x, size)} | Adequate(a, x, size) ensures a.pieces[b] <= a.pieces[x] {
      AdequateBin(capacity, a, x, size);
      if bin < a.holders[x].bin {
        LaterBinIsLarger(bin, a.pieces[b], a.holders[x].bin, a.pieces[x]);
      }
    }
  }

  // ----- freeing one piece of a block -----

  /** The first size bytes of the block at p go to their bin; what is left of it stays with this thread. */
  function FreedPiece(a: Arena, p: Offset, size: nat): Arena {
    PushFree(if size < PieceAt(a, p) then Split(a, ME, p, size) else a, p, size)
  }

  lemma HeldPiece(capacity: nat, a: Arena, held: set<Offset>, p: Offset)
    requires Working(capacity, a, held) && p in held
    ensures HeldBy(a, ME, p) && Aligned(PieceAt(a, p)) && PieceAt(a, p) > 0
    ensures PieceAt(a, p) > LARGEST_CLASS ==> IsBlockSize(PieceAt(a, p))
  {
    assert PieceOk(a, p);
    BelowCurrent(a.pieces, a.current, p);
  }

  lemma PieceIsFreed(capacity: nat, a: Arena, held: set<Offset>, p: Offset, size: nat)
    requires Working(capacity, a, held) && p in held && 0 < size <= PieceAt(a, p) && Aligned(size) && IsBlockSize(size)
    ensures var (a', rest) := (FreedPiece(a, p, size), PieceAt(a, p) - size);
      && Working(capacity, a', if rest > 0 then held - {p} + {p + size} else held - {p})
      && (rest > 0 ==> PieceAt(a', p + size) == rest && p + size !in a.pieces)
      && OnlyThese(a, a', p, if rest > 0 then {p + size} else {}) && IsFree(a', p)
  {
    HeldPiece(capacity, a, held, p);
    if size < PieceAt(a, p) {
      SplitKeeps(capacity, a, ME, p, size);
      PushFreeKeeps(capacity, Split(a, ME, p, size), ME, p);
    } else {
      PushFreeKeeps(capacity, a, ME, p);
    }
  }

  /** Apart from p, the old pieces are as they were; the new ones are `fresh`. */
  ghost predicate OnlyThese(a: Arena, a': Arena, p: Offset, added: set<Offset>) {
    && a'.current == a.current
    && (forall x {:trigger x in a'.pieces} {:trigger x in a.pieces} :: x in a'.pieces <==> x in a.pieces || x in added)
    && (forall x {:trigger x in a.pieces} {:trigger a'.pieces[x]} {:trigger a'.holders[x]} :: x in a.pieces && x != p ==>
          x in a.holders && x in a'.holders && a'.pieces[x] == a.pieces[x] && a'.holders[x] == a.holders[x])
  }

  /** Midway through freeing the block [p, to): `left` bytes from `at` on are still held as one piece. */
  ghost predicate FreeingFrom(a: Arena, a': Arena, p: Offset, to: Offset, at: Offset, left: nat) {
    && a'.current == a.current && p <= at && at + left == to
    && (left > 0 ==> PieceAt(a', at) == left)
    && (forall x {:trigger x in a.pieces} {:trigger a'.pieces[x]} {:trigger a'.holders[x]} :: x in a.pieces && x != p ==>
          x in a'.pieces && x in a.holders && x in a'.holders && a'.pieces[x] == a.pieces[x] && a'.holders[x] == a.holders[x])
    && (forall x {:trigger x in a'.pieces} :: x in a'.pieces && x !in a.pieces ==>
          p < x < to && ((left > 0 && x == at) || IsFree(a', x)))
    && ((left > 0 && at == p) || IsFree(a', p))
  }

  lemma FreeingGoesOn(a: Arena, a1: Arena, a2: Arena, p: Offset, to: Offset, at: Offset, left: nat, size: nat)
    requires FreeingFrom(a, a1, p, to, at, left) && 0 < size <= left && p in a.pieces && (at == p || at !in a.pieces)
    requires at in a1.pieces && OnlyThese(a1, a2, at, if left > size then {at + size} else {}) && IsFree(a2, at)
    requires left > size ==> PieceAt(a2, at + size) == left - size
    ensures FreeingFrom(a, a2, p, to, at + size, left - size)
  {
    forall x | x in a1.pieces && x != at && IsFree(a1, x) ensures IsFree(a2, x) {
      assert a2.holders[x] == a1.holders[x];
    }
  }

  /** The loop's invariant, and what one push makes of it. */
  ghost predicate Freeing(capacity: nat, a: Arena, a': Arena, held: set<Offset>, p: Offset, to: Offset, at: Offset, left: nat) {
    && p in a.pieces && p in held && Aligned(left)
    && FreeingFrom(a, a', p, to, at, left)
    && Working(capacity, a', if left > 0 then held - {p} + {at} else held - {p})
    && (left > 0 && at != p ==> at !in a.pieces && at !in held)
  }

  lemma AlignedMinus(n: nat, k: nat)
    requires Aligned(n) && Aligned(k) && k <= n
    ensures Aligned(n - k)
  {}

  lemma PushContinues(capacity: nat, a: Arena, a': Arena, held: set<Offset>, p: Offset, to: Offset, at: Offset, left: nat, size: nat)
    requires Freeing(capacity, a, a', held, p, to, at, left) && 0 < size <= left && Aligned(size) && IsBlockSize(size)
    requires held <= a.pieces.Keys
    ensures Freeing(capacity, a, FreedPiece(a', at, size), held, p, to, at + size, left - size)
  {
    var held' := held - {p} + {at};
    PieceIsFreed(capacity, a', held', at, size);
    AlignedMinus(left, size);
    FreeingGoesOn(a, a', FreedPiece(a', at, size), p, to, at, left, size);
    assert held' - {at} == held - {p};
  }

  lemma FreeingStarts(capacity: nat, a: Arena, held: set<Offset>, p: Offset)
    requires Working(capacity, a, held) && p in held
    ensures Freeing(capacity, a, a, held, p, p + PieceAt(a, p), p, PieceAt(a, p)) && held <= a.pieces.Keys
    ensures PieceAt(a, p) > LARGEST_CLASS ==> IsBlockSize(PieceAt(a, p))
  {
    HeldPiece(capacity, a, held, p);
    assert held - {p} + {p} == held;
  }

  lemma FreeingEnds(capacity: nat, a: Arena, a': Arena, held: set<Offset>, p: Offset, to: Offset)
    requires Freeing(capacity, a, a', held, p, to, to, 0)
    ensures Working(capacity, a', held - {p}) && OnlyWithin(a, a', p, to) && IsFree(a', p)
  {}

  // ----- giving a block out -----

  lemma TailComesOff(capacity: nat, a: Arena, b: Offset, bytes: nat)
    requires Working(capacity, a, {b}) && BlockSizeFor(bytes) < PieceAt(a, b)
    ensures var (size, a') := (BlockSizeFor(bytes), Split(a, ME, b, BlockSizeFor(bytes)));
      && Working(capacity, a', {b, b + size}) && PieceAt(a', b + size) == PieceAt(a, b) - size
      && b in a.pieces && b in a.holders && 0 < size && b + size !in a.pieces
  {
    BlockSizeIsLeast(bytes);
    SplitKeeps(capacity, a, ME, b, BlockSizeFor(bytes));
  }

  lemma TailIsFreed(a: Arena, a': Arena, b: Offset, size: nat)
    requires b in a.pieces && b in a.holders && 0 < size < a.pieces[b] && b + size !in a.pieces
    requires OnlyWithin(Split(a, ME, b, size), a', b + size, b + a.pieces[b]) && IsFree(a', b + size)
    ensures OnlyWithin(a, a', b, b + a.pieces[b]) && PieceAt(a', b) == size
  {
    var a1 := Split(a, ME, b, size);
    assert b in a1.pieces;
    forall x | x in a.pieces && x != b
      ensures x in a'.pieces && x in a.holders && x in a'.holders && a'.pieces[x] == a.pieces[x] && a'.holders[x] == a.holders[x]
    {
      assert x in a1.pieces;
    }
  }

  lemma HandedOver(capacity: nat, a: Arena, a1: Arena, b: Offset, bytes: nat)
    requires Working(capacity, a1, {b}) && PieceAt(a1, b) == BlockSizeFor(bytes) <= PieceAt(a, b)
    requires b in a.pieces && OnlyWithin(a, a1, b, b + a.pieces[b])
    ensures var a' := SetHolder(a1, b, WithClient(bytes)); Working(capacity, a', {}) && GivenFrom(a, a', b, bytes)
  {
    SetHolderKeeps(capacity, a1, b, WithClient(bytes));
  }

  /** Taking a block out of its bin changes nothing but its holder. */
  lemma TakenThenGiven(a: Arena, a1: Arena, a': Arena, b: Offset, bytes: nat)
    requires GivenFrom(a1, a', b, bytes) && a1.current == a.current && a1.pieces == a.pieces
    requires a1.holders.Keys == a.holders.Keys
    requires forall x {:trigger a1.holders[x]} :: x in a.holders && x != b ==> a1.holders[x] == a.holders[x]
    ensures GivenFrom(a, a', b, bytes)
  {
    forall x | x in a.pieces && x != b
      ensures x in a'.pieces && x in a.holders && x in a'.holders && a'.pieces[x] == a.pieces[x] && a'.holders[x] == a.holders[x]
    {
      assert x in a1.pieces && x in a1.holders;
    }
  }

  /** The bump pointer advances over a piece that goes straight to the client. */
  lemma TailGiven(capacity: nat, a: Arena, bytes: nat)
    requires Working(capacity, a, {}) && a.current + BlockSizeFor(bytes) <= capacity
    ensures var size := BlockSizeFor(bytes);
      Working(capacity, a.(current := a.current + size, pieces := a.pieces[a.current := size], holders := a.holders[a.current := WithClient(bytes)]), {})
  {
    var size := BlockSizeFor(bytes);
    BlockSizeIsLeast(bytes);
    BumpKeeps(capacity, a, ME, size);
    SetHolderKeeps(capacity, Bump(a, ME, size), a.current, WithClient(bytes));
    assert SetHolder(Bump(a, ME, size), a.current, WithClient(bytes)).holders == a.holders[a.current := WithClient(bytes)];
  }

  // ----- bin 7: steal the list, take the best fit, push the rest back -----

  const LARGE_BIN: nat := 7

  /** Blocks of `held` have left their bins; nothing else has changed but the order in the bins. */
  ghost predicate TakenOut(a: Arena, a': Arena, held: set<Offset>) {
    && a'.current == a.current && a'.pieces == a.pieces && a'.headers == a.headers && a'.holders.Keys == a.holders.Keys
    && forall x {:trigger a'.holders[x]} :: x in a.holders && x !in held ==> a'.holders[x] == a.holders[x]
  }

  function Members(list: seq<Offset>): set<Offset> {
    set b | b in list
  }

  ghost predicate Distinct(list: seq<Offset>) {
    forall i: nat, j: nat :: i < j < |list| ==> list[i] != list[j]
  }

  lemma StolenList(capacity: nat, a: Arena)
    requires Working(capacity, a, {})
    ensures var (list, a') := (a.bins[LARGE_BIN], StealAll(a, ME, LARGE_BIN));
      Working(capacity, a', Members(list)) && TakenOut(a, a', Members(list)) && Distinct(list)
    ensures forall b {:trigger b in a.bins[LARGE_BIN]} :: b in a.bins[LARGE_BIN] ==> LargeFree(a, b)
  {
    StealAllKeeps(capacity, a, ME, LARGE_BIN);
  }

  ghost predicate LargeFree(a: Arena, b: Offset) {
    IsFree(a, b) && a.holders[b] == InBin(LARGE_BIN) && Fits(LARGE_BIN, a.pieces[b]) && HeaderAt(a, b) == a.pieces[b]
  }

  lemma GoesBack(capacity: nat, a: Arena, a': Arena, held: set<Offset>, b: Offset)
    requires Working(capacity, a', held) && TakenOut(a, a', held) && b in held && LargeFree(a, b)
    ensures var a2 := PushBack(a', LARGE_BIN, b); Working(capacity, a2, held - {b}) && TakenOut(a, a2, held - {b})
  {
    PushBackKeeps(capacity, a', ME, LARGE_BIN, b);
  }

  /** best is the first smallest adequate block among the first n of the list; None if there is none. */
  ghost predicate BestOf(a: Arena, list: seq<Offset>, size: nat, n: nat, best: Option<nat>) {
    && n <= |list|
    && match best
       case None => forall j: nat :: j < n ==> HeaderAt(a, list[j]) < size
       case Some(k) => FirstSmallest(a, list, size, n, k)
  }

  /** With the class bins exhausted, what the scan of bin 7 found is the answer for all free blocks. */
  lemma BestOfAll(capacity: nat, a: Arena, size: nat, best: Option<nat>)
    requires Working(capacity, a, {}) && IsBlockSize(size)
    requires forall j: nat :: BinFor(size) <= j < LARGE_BIN ==> a.bins[j] == []
    requires BestOf(a, a.bins[LARGE_BIN], size, |a.bins[LARGE_BIN]|, best)
    ensures match best
            case None => forall x {:trigger Adequate(a, x, size)} :: !Adequate(a, x, size)
            case Some(k) => Smallest(a, a.bins[LARGE_BIN][k], size)
  {
    var list := a.bins[LARGE_BIN];
    StolenList(capacity, a);
    forall x {:trigger Adequate(a, x, size)} | Adequate(a, x, size)
      ensures best.Some? && a.pieces[list[best.value]] <= a.pieces[x]
    {
      AdequateBin(capacity, a, x, size);
      var j: nat :| j < |list| && list[j] == x;
      assert LargeFree(a, x);
      if best.Some? {
        assert list[best.value] in list;
      }
    }
    if best.Some? {
      assert list[best.value] in list;
    }
  }

  lemma RestOfList(list: seq<Offset>, k: nat)
    requires Distinct(list) && k < |list|
    ensures var rest := list[..k] + list[k + 1..];
      Members(rest) + {list[k]} == Members(list) && list[k] !in Members(rest) && Distinct(rest)
  {
    var rest := list[..k] + list[k + 1..];
    forall b ensures b in Members(list) <==> b in Members(rest) || b == list[k] {
      if b in list {
        var j: nat :| j < |list| && list[j] == b;
        assert j < k ==> rest[j] == b;
        assert j > k ==> rest[j - 1] == b;
      }
    }
    forall i: nat, j: nat | i < j < |rest| ensures rest[i] != rest[j] {
      assert rest[i] == list[if i < k then i else i + 1] && rest[j] == list[if j < k then j else j + 1];
    }
  }

  class Resource {
    const capacity: nat
    var current: Offset
    var bins: array<seq<Offset>>
    var headers: map<Offset, nat>
    ghost var pieces: map<Offset, nat>
    ghost var holders: map<Offset, Holder>

    ghost function State(): Arena
      reads this, bins
    {
      Arena(current, bins[..], headers, pieces, holders)
    }

    ghost predicate Valid()
      reads this, bins
    {
      Working(capacity, State(), {})
    }

    constructor (capacity: nat)
      requires Aligned(capacity)
      ensures Valid() && fresh(bins) && this.capacity == capacity && current == 0 && pieces == map[]
    {
      this.capacity := capacity;
      this.current := 0;
      this.bins := new seq<Offset>[NUM_BINS](_ => []);
      this.headers := map[];
      this.pieces := map[];
      this.holders := map[];
      new;
      assert State().holders.Keys == State().pieces.Keys;
    }

    method PushFree(b: Offset, size: nat)
      requires bins.Length == NUM_BINS && IsBlockSize(size)
      modifies this`headers, this`holders, bins
      ensures bins == old(bins) && State() == StaticArenaState.PushFree(old(State()), b, size)
    {
      headers := headers[b := size];
      var bin := GetBin(size);
      bins[bin] := [b] + bins[bin];
      holders := holders[b := InBin(bin)];
    }

    /** One push of free_pieces. */
    method PushPiece(p: Offset, size: nat)
      requires bins.Length == NUM_BINS && IsBlockSize(size)
      modifies this`headers, this`pieces, this`holders, bins
      ensures bins == old(bins) && State() == FreedPiece(old(State()), p, size)
    {
      ghost var whole := PieceAt(State(), p);
      if size < whole {
        pieces := pieces[p := size][p + size := whole - size];
        holders := holders[p + size := ByThread(ME)];
      }
      PushFree(p, size);
    }

    /** free_pieces: the block at p, which this thread holds, goes to the bins as pieces that tile it exactly. */
    method FreePieces(p: Offset, bytes: nat, ghost held: set<Offset>)
      requires p in held && Working(capacity, State(), held) && bytes == PieceAt(State(), p)
      modifies this`headers, this`pieces, this`holders, bins
      ensures bins == old(bins) && Working(capacity, State(), held - {p})
      ensures OnlyWithin(old(State()), State(), p, p + bytes) && IsFree(State(), p)
    {
      ghost var a := State();
      FreeingStarts(capacity, a, held, p);
      if bytes > LARGEST_CLASS {
        PushNext(p, p + bytes, p, bytes, bytes, a, held);
        FreeingEnds(capacity, a, State(), held, p, p + bytes);
      } else {
        FreeSmallPieces(p, bytes, a, held);
        FreeingEnds(capacity, a, State(), held, p, p + bytes);
      }
    }

    method PushNext(p: Offset, to: Offset, at: Offset, left: nat, size: nat, ghost a: Arena, ghost held: set<Offset>)
      requires Freeing(capacity, a, State(), held, p, to, at, left) && held <= a.pieces.Keys
      requires 0 < size <= left && Aligned(size) && IsBlockSize(size)
      modifies this`headers, this`pieces, this`holders, bins
      ensures bins == old(bins) && Freeing(capacity, a, State(), held, p, to, at + size, left - size)
    {
      PushContinues(capacity, a, State(), held, p, to, at, left, size);
      PushPiece(at, size);
    }

    /** The loop of free_pieces, over the class sizes downwards. */
    method FreeSmallPieces(p: Offset, bytes: nat, ghost a: Arena, ghost held: set<Offset>)
      requires State() == a && Freeing(capacity, a, a, held, p, p + bytes, p, bytes) && held <= a.pieces.Keys
      requires bytes <= LARGEST_CLASS
      modifies this`headers, this`pieces, this`holders, bins
      ensures bins == old(bins) && Freeing(capacity, a, State(), held, p, p + bytes, p + bytes, 0)
    {
      var at, left, classSize := p, bytes, LARGEST_CLASS;
      S.LoopStarts(left);
      while left > 0
        invariant 0 <= at && 0 <= left <= LARGEST_CLASS && S.PieceLoopOk(left, classSize) && bins == old(bins)
        invariant at + left == p + bytes && Freeing(capacity, a, State(), held, p, p + bytes, at, left)
        decreases left + classSize
      {
        S.LoopGoesOn(left, classSize);
        if left >= classSize {
          PushNext(p, p + bytes, at, left, classSize, a, held);
          at, left := at + classSize, left - classSize;
        }
        classSize := classSize / 2;
      }
    }

    // ----- do_allocate -----

    /** Frees the tail of the block at b, which is in hand. */
    method FreeTail(b: Offset, have: nat, bytes: nat, size: nat)
      requires Working(capacity, State(), {b}) && have == PieceAt(State(), b) && size == BlockSizeFor(bytes) < have
      modifies this`headers, this`pieces, this`holders, bins
      ensures bins == old(bins) && Working(capacity, State(), {b}) && PieceAt(State(), b) == size
      ensures b in old(pieces) && OnlyWithin(old(State()), State(), b, b + have)
    {
      ghost var a := State();
      TailComesOff(capacity, a, b, bytes);
      pieces := pieces[b := size][b + size := have - size];
      holders := holders[b + size := ByThread(ME)];
      assert State() == Split(a, ME, b, size);
      FreePieces(b + size, have - size, {b, b + size});
      TailIsFreed(a, State(), b, size);
      assert {b, b + size} - {b + size} == {b};
    }

    /** The block at b is in hand: gives the client its first block_size_for(bytes) bytes and frees the rest. */
    method Give(b: Offset, have: nat, bytes: nat, size: nat)
      requires Working(capacity, State(), {b}) && have == PieceAt(State(), b) && size == BlockSizeFor(bytes) <= have
      requires b in pieces
      modifies this`headers, this`pieces, this`holders, bins
      ensures bins == old(bins) && Valid() && GivenFrom(old(State()), State(), b, bytes)
    {
      ghost var a := State();
      if have > size {
        FreeTail(b, have, bytes, size);
      }
      HandedOver(capacity, a, State(), b, bytes);
      holders := holders[b := WithClient(bytes)];
    }

    /** Takes the top block of a class bin. */
    method TakeFromClass(bytes: nat, size: nat, bin: nat) returns (b: Offset)
      requires Valid() && size == BlockSizeFor(bytes) && BinFor(size) <= bin < NUM_BINS - 1 && bins[bin] != []
      requires forall j: nat :: BinFor(size) <= j < bin ==> bins[j] == []
      modifies this`headers, this`pieces, this`holders, bins
      ensures bins == old(bins) && Valid()
      ensures Smallest(old(State()), b, size) && GivenFrom(old(State()), State(), b, bytes)
    {
      ghost var a := State();
      BlockSizeIsLeast(bytes);
      PopKeeps(capacity, a, ME, bin);
      b := bins[bin][0];
      FirstBinIsSmallest(capacity, a, bin, b, size);
      bins[bin] := bins[bin][1..];
      holders := holders[b := ByThread(ME)];
      assert State() == Pop(a, ME, bin);
      Give(b, ClassSize(bin), bytes, size);
      TakenThenGiven(a, Pop(a, ME, bin), State(), b, bytes);
    }

    method FindBest(list: seq<Offset>, size: nat) returns (best: Option<nat>)
      requires forall b :: b in list ==> b in headers
      ensures BestOf(State(), list, size, |list|, best)
    {
      best := None;
      var i := 0;
      while i < |list|
        invariant 0 <= i <= |list| && BestOf(State(), list, size, i, best)
      {
        if headers[list[i]] >= size && (best.None? || headers[list[i]] < headers[list[best.value]]) {
          best := Some(i);
        }
        i := i + 1;
      }
    }

    /** Pushes a stolen list back, one block at a time. */
    method ReturnList(list: seq<Offset>, ghost a: Arena, ghost kept: set<Offset>)
      requires Working(capacity, State(), Members(list) + kept) && TakenOut(a, State(), Members(list) + kept)
      requires Distinct(list) && Members(list) !! kept && forall b :: b in list ==> LargeFree(a, b)
      modifies this`holders, bins
      ensures bins == old(bins) && Working(capacity, State(), kept) && TakenOut(a, State(), kept)
    {
      var i := 0;
      assert list[0..] == list;
      while i < |list|
        invariant 0 <= i <= |list| && bins == old(bins)
        invariant Working(capacity, State(), Members(list[i..]) + kept) && TakenOut(a, State(), Members(list[i..]) + kept)
      {
        ghost var held := Members(list[i..]) + kept;
        assert held - {list[i]} == Members(list[i + 1..]) + kept;
        ghost var pushed := PushBack(State(), LARGE_BIN, list[i]);
        GoesBack(capacity, a, State(), held, list[i]);
        bins[LARGE_BIN] := [list[i]] + bins[LARGE_BIN];
        holders := holders[list[i] := InBin(LARGE_BIN)];
        assert State() == pushed;
        i := i + 1;
      }
      assert Members(list[i..]) + kept == kept;
    }

    /** The search of bin 7; every class bin from the request's own on is empty. */
    method TakeLarge(bytes: nat, size: nat) returns (r: Option<Offset>)
      requires Valid() && size == BlockSizeFor(bytes)
      requires forall j: nat :: BinFor(size) <= j < LARGE_BIN ==> bins[j] == []
      modifies this`headers, this`pieces, this`holders, bins
      ensures bins == old(bins) && Valid()
      ensures match r
              case None => TakenOut(old(State()), State(), {}) && forall x {:trigger Adequate(old(State()), x, size)} :: !Adequate(old(State()), x, size)
              case Some(b) => Smallest(old(State()), b, size) && GivenFrom(old(State()), State(), b, bytes)
    {
      ghost var a := State();
      var list := bins[LARGE_BIN];
      StolenList(capacity, a);
      BlockSizeIsLeast(bytes);
      var best := FindBest(list, size);
      BestOfAll(capacity, a, size, best);
      bins[LARGE_BIN] := [];
      holders := holders + map b | b in list :: ByThread(ME);
      assert State() == StealAll(a, ME, LARGE_BIN);
      if best.None? {
        assert Members(list) + {} == Members(list);
        ReturnList(list, a, {});
        return None;
      }
      TakeChosen(list, best.value, bytes, size, a);
      r := Some(list[best.value]);
    }

    /** Pushes back a stolen list but for entry k, which the client gets. */
    method TakeChosen(list: seq<Offset>, k: nat, bytes: nat, size: nat, ghost a: Arena)
      requires Working(capacity, State(), Members(list)) && TakenOut(a, State(), Members(list)) && Distinct(list)
      requires k < |list| && (forall b :: b in list ==> LargeFree(a, b)) && size == BlockSizeFor(bytes) <= HeaderAt(a, list[k])
      modifies this`headers, this`pieces, this`holders, bins
      ensures bins == old(bins) && Valid() && GivenFrom(a, State(), list[k], bytes)
    {
      var b := list[k];
      assert b in list && LargeFree(a, b);
      RestOfList(list, k);
      ReturnList(list[..k] + list[k + 1..], a, {b});
      ghost var a1 := State();
      Give(b, headers[b], bytes, size);
      TakenThenGiven(a, a1, State(), b, bytes);
    }

    /** The state after a new piece was cut at the bump pointer and given to the client. */
    ghost predicate Bumped(a: Arena, b: Offset, bytes: nat)
      reads this, bins
    {
      && b == a.current && current == a.current + BlockSizeFor(bytes) <= capacity
      && pieces == a.pieces[b := BlockSizeFor(bytes)] && holders == a.holders[b := WithClient(bytes)]
      && bins[..] == a.bins && headers == a.headers
    }

    method TryBump(bytes: nat, size: nat) returns (r: Option<Offset>)
      requires Valid() && size == BlockSizeFor(bytes)
      modifies this`current, this`pieces, this`holders
      ensures Valid() && (r.None? <==> capacity - old(current) < size)
      ensures match r
              case None => State() == old(State())
              case Some(b) => Bumped(old(State()), b, bytes)
    {
      var aligned := RoundUp(current);
      assert aligned == current;
      if aligned > capacity || size > capacity - aligned {
        return None;
      }
      TailGiven(capacity, State(), bytes);
      current := aligned + size;
      pieces := pieces[aligned := size];
      holders := holders[aligned := WithClient(bytes)];
      r := Some(aligned);
    }

    /**
      do_allocate.  A request within capacity and alignment fails exactly when the bump tail and every free
      block are smaller than block_size_for(bytes); otherwise it gets the tail's first bytes, or else a
      smallest adequate free block, whose remainder is cut into free pieces.
     */
    method Allocate(bytes: nat, alignment: nat) returns (r: Option<Offset>)
      requires Valid()
      modifies this`current, this`headers, this`pieces, this`holders, bins
      ensures bins == old(bins) && Valid()
      ensures alignment > MIN_ALIGNMENT || bytes > capacity ==> r.None? && State() == old(State())
      ensures alignment <= MIN_ALIGNMENT && bytes <= capacity ==>
        (r.None? <==>
          && capacity - old(current) < BlockSizeFor(bytes)
          && forall x {:trigger Adequate(old(State()), x, BlockSizeFor(bytes))} :: !Adequate(old(State()), x, BlockSizeFor(bytes)))
      ensures match r
              case None => TakenOut(old(State()), State(), {})
              case Some(b) =>
                if capacity - old(current) >= BlockSizeFor(bytes) then Bumped(old(State()), b, bytes)
                else Smallest(old(State()), b, BlockSizeFor(bytes)) && GivenFrom(old(State()), State(), b, bytes)
    {
      if alignment > MIN_ALIGNMENT || bytes > capacity {
        return None;
      }
      var size := RoundToBlockSize(bytes);
      r := TryBump(bytes, size);
      if r.Some? {
        return;
      }
      BlockSizeIsLeast(bytes);
      var bin := GetBin(size);
      while bin < NUM_BINS - 1
        invariant BinFor(size) <= bin < NUM_BINS && Valid() && State() == old(State()) && bins == old(bins)
        invariant forall j: nat :: BinFor(size) <= j < bin ==> bins[j] == []
      {
        if bins[bin] != [] {
          var b := TakeFromClass(bytes, size, bin);
          return Some(b);
        }
        bin := bin + 1;
      }
      r := TakeLarge(bytes, size);
    }

    /** do_deallocate, for nothing or for a block the client has, with the size it was allocated with. */
    method Deallocate(p: Option<Offset>, bytes: nat)
      requires Valid()
      requires p.Some? ==> p.value in holders && holders[p.value].WithClient? && BlockSizeFor(holders[p.value].bytes) == BlockSizeFor(bytes)
      modifies this`headers, this`holders, bins
      ensures bins == old(bins) && Valid() && current == old(current) && pieces == old(pieces)
      ensures p.None? ==> State() == old(State())
      ensures p.Some? ==>
        && holders == old(holders)[p.value := InBin(BinFor(BlockSizeFor(bytes)))]
        && bins[BinFor(BlockSizeFor(bytes))] == [p.value] + old(bins[BinFor(BlockSizeFor(bytes))])
    {
      if p.None? {
        return;
      }
      ghost var a := State();
      assert PieceOk(a, p.value);
      BlockSizeIsLeast(bytes);
      SetHolderKeeps(capacity, a, p.value, ByThread(ME));
      PushFreeKeeps(capacity, SetHolder(a, p.value, ByThread(ME)), ME, p.value);
      var size := RoundToBlockSize(bytes);
      PushFree(p.value, size);
      assert State() == StaticArenaState.PushFree(SetHolder(a, p.value, ByThread(ME)), p.value, size);
    }
  }
}
