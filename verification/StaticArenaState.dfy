/**
  The shared memory of the static arena and the effect of each action on it.  Addresses are byte offsets
  from arena_start_.  pieces and holders are auxiliary: how [0, current) is cut up, and who answers for
  each piece.
 */
module StaticArenaState {
  import opened StaticArenaSizes

  type Offset = nat
  type ThreadId = nat

  datatype Holder =
    | InBin(bin: nat)
    | WithClient(bytes: nat)
    | ByThread(thread: ThreadId)

  /** Each bin is a stack, most recent block first; headers holds the size field of blocks that were freed. */
  datatype Arena = Arena(
    current: Offset,
    bins: seq<seq<Offset>>,
    headers: map<Offset, nat>,
    pieces: map<Offset, nat>,
    holders: map<Offset, Holder>)

  // ----- the invariant -----

  ghost predicate PieceFits(pieces: map<Offset, nat>, current: nat, b: Offset)
    requires b in pieces
  {
    && 0 < pieces[b] && b + pieces[b] <= current
    && (b + pieces[b] == current || b + pieces[b] in pieces)
  }

  ghost predicate Before(pieces: map<Offset, nat>, b1: Offset, b2: Offset) {
    b1 in pieces && b2 in pieces && b1 < b2 ==> b1 + pieces[b1] <= b2
  }

  /** The pieces lie end to end from 0 to current. */
  ghost predicate Tiles(pieces: map<Offset, nat>, current: nat) {
    && (forall b {:trigger PieceFits(pieces, current, b)} :: b in pieces ==> PieceFits(pieces, current, b))
    && (forall b1, b2 {:trigger Before(pieces, b1, b2)} :: Before(pieces, b1, b2))
    && (current > 0 ==> 0 in pieces)
  }

  ghost predicate PieceOk(a: Arena, b: Offset)
    requires b in a.pieces && b in a.holders
  {
    && Aligned(b) && Aligned(a.pieces[b])
    && match a.holders[b]
       case InBin(bin) =>
         && bin < NUM_BINS == |a.bins| && Fits(bin, a.pieces[b]) && b in a.bins[bin]
         && b in a.headers && a.headers[b] == a.pieces[b]
       case WithClient(bytes) => a.pieces[b] == BlockSizeFor(bytes)
       case ByThread(_) => true
  }

  ghost predicate EntryOk(a: Arena, bin: nat, i: nat)
    requires bin < |a.bins| && i < |a.bins[bin]|
  {
    && a.bins[bin][i] in a.holders && a.holders[a.bins[bin][i]] == InBin(bin)
    && forall j: nat :: j < i ==> a.bins[bin][j] != a.bins[bin][i]
  }

  ghost predicate Inv(capacity: nat, a: Arena) {
    && Aligned(a.current) && a.current <= capacity && |a.bins| == NUM_BINS
    && Tiles(a.pieces, a.current)
    && a.holders.Keys == a.pieces.Keys
    && (forall b {:trigger PieceOk(a, b)} :: b in a.pieces ==> PieceOk(a, b))
    && (forall bin: nat, i: nat {:trigger EntryOk(a, bin, i)} :: bin < |a.bins| && i < |a.bins[bin]| ==> EntryOk(a, bin, i))
  }

  ghost predicate HeldBy(a: Arena, t: ThreadId, b: Offset) {
    b in a.pieces && b in a.holders && a.holders[b] == ByThread(t)
  }

  // ----- actions -----

  function PieceAt(a: Arena, b: Offset): nat {
    if b in a.pieces then a.pieces[b] else 0
  }

  function HeaderAt(a: Arena, b: Offset): nat {
    if b in a.headers then a.headers[b] else 0
  }

  /** Among the first n of the list, index k is the first with the smallest size that is large enough. */
  ghost predicate FirstSmallest(a: Arena, list: seq<Offset>, size: nat, n: nat, k: nat) {
    && k < n <= |list| && size <= HeaderAt(a, list[k])
    && (forall j: nat :: j < n && size <= HeaderAt(a, list[j]) ==> HeaderAt(a, list[k]) <= HeaderAt(a, list[j]))
    && (forall j: nat :: j < k && size <= HeaderAt(a, list[j]) ==> HeaderAt(a, list[k]) < HeaderAt(a, list[j]))
  }

  function BinAt(a: Arena, bin: nat): seq<Offset> {
    if bin < |a.bins| then a.bins[bin] else []
  }

  function SetBin(a: Arena, bin: nat, stack: seq<Offset>): Arena {
    if bin < |a.bins| then a.(bins := a.bins[bin := stack]) else a
  }

  /** The CAS that advances the bump pointer over a new piece. */
  function Bump(a: Arena, t: ThreadId, size: nat): Arena {
    a.(current := a.current + size, pieces := a.pieces[a.current := size], holders := a.holders[a.current := ByThread(t)])
  }

  function Pop(a: Arena, t: ThreadId, bin: nat): Arena {
    if BinAt(a, bin) == [] then a
    else SetBin(a, bin, BinAt(a, bin)[1..]).(holders := a.holders[BinAt(a, bin)[0] := ByThread(t)])
  }

  function StealAll(a: Arena, t: ThreadId, bin: nat): Arena {
    SetBin(a, bin, []).(holders := a.holders + map b | b in BinAt(a, bin) :: ByThread(t))
  }

  /** stack_type::push onto a bin, the size header left as it is. */
  function PushBack(a: Arena, bin: nat, b: Offset): Arena {
    SetBin(a, bin, [b] + BinAt(a, bin)).(holders := a.holders[b := InBin(bin)])
  }

  /** push_free */
  function PushFree(a: Arena, b: Offset, size: nat): Arena {
    PushBack(a.(headers := a.headers[b := size]), BinFor(size), b)
  }

  /** The piece at b becomes two: its first size bytes and the rest. */
  function Split(a: Arena, t: ThreadId, b: Offset, size: nat): Arena {
    a.(pieces := a.pieces[b := size][b + size := if PieceAt(a, b) > size then PieceAt(a, b) - size else 0],
       holders := a.holders[b + size := ByThread(t)])
  }

  function SetHolder(a: Arena, b: Offset, holder: Holder): Arena {
    a.(holders := a.holders[b := holder])
  }

  // ----- each action keeps the invariant -----

  lemma BelowCurrent(pieces: map<Offset, nat>, current: nat, b: Offset)
    requires Tiles(pieces, current) && b in pieces
    ensures b < b + pieces[b] <= current
  {
    assert PieceFits(pieces, current, b);
  }

  lemma NextPiece(pieces: map<Offset, nat>, current: nat, b1: Offset, b2: Offset)
    requires Tiles(pieces, current) && b1 in pieces && b2 in pieces && b1 < b2
    ensures b1 + pieces[b1] <= b2
  {
    assert Before(pieces, b1, b2);
  }

  lemma BumpTiles(pieces: map<Offset, nat>, current: nat, size: nat)
    requires Tiles(pieces, current) && 0 < size
    ensures current !in pieces && Tiles(pieces[current := size], current + size)
  {
    var pieces' := pieces[current := size];
    if current in pieces {
      BelowCurrent(pieces, current, current);
      assert false;
    }
    forall b {:trigger PieceFits(pieces', current + size, b)} | b in pieces' ensures PieceFits(pieces', current + size, b) {
      if b != current {
        assert PieceFits(pieces, current, b);
      }
    }
    forall b1, b2 ensures Before(pieces', b1, b2) {
      assert Before(pieces, b1, b2);
      if b1 in pieces {
        BelowCurrent(pieces, current, b1);
      }
      if b2 in pieces {
        BelowCurrent(pieces, current, b2);
      }
    }
  }

  lemma BumpKeeps(capacity: nat, a: Arena, t: ThreadId, size: nat)
    requires Inv(capacity, a) && 0 < size && Aligned(size) && a.current + size <= capacity
    ensures Inv(capacity, Bump(a, t, size)) && a.current !in a.pieces && HeldBy(Bump(a, t, size), t, a.current)
  {
    var a' := Bump(a, t, size);
    BumpTiles(a.pieces, a.current, size);
    forall b {:trigger PieceOk(a', b)} | b in a'.pieces ensures PieceOk(a', b) {
      if b != a.current {
        assert PieceOk(a, b);
      }
    }
    EntriesKept(a, a', a.current);
  }

  /** The bins are as they were, and so are the holders of everything in them. */
  lemma EntriesKept(a: Arena, a': Arena, b: Offset)
    requires a'.bins == a.bins
    requires forall bin: nat, i: nat {:trigger EntryOk(a, bin, i)} :: bin < |a.bins| && i < |a.bins[bin]| ==> EntryOk(a, bin, i)
    requires forall x {:trigger a'.holders[x]} {:trigger x in a'.holders} :: x in a.holders && x != b ==> x in a'.holders && a'.holders[x] == a.holders[x]
    requires b in a.holders ==> !a.holders[b].InBin?
    ensures forall bin: nat, i: nat {:trigger EntryOk(a', bin, i)} :: bin < |a'.bins| && i < |a'.bins[bin]| ==> EntryOk(a', bin, i)
  {
    forall bin: nat, i: nat | bin < |a'.bins| && i < |a'.bins[bin]| ensures EntryOk(a', bin, i) {
      assert EntryOk(a, bin, i);
      var x := a.bins[bin][i];
      assert x in a'.holders && a'.holders[x] == a.holders[x];
    }
  }

  lemma PopKeeps(capacity: nat, a: Arena, t: ThreadId, bin: nat)
    requires Inv(capacity, a) && bin < NUM_BINS && a.bins[bin] != []
    ensures var b := a.bins[bin][0];
      && b in a.holders && a.holders[b] == InBin(bin) && Fits(bin, PieceAt(a, b)) && HeldBy(Pop(a, t, bin), t, b)
      && Inv(capacity, Pop(a, t, bin))
  {
    var a' := Pop(a, t, bin);
    assert EntryOk(a, bin, 0);
    var b := a.bins[bin][0];
    assert PieceOk(a, b);
    forall x | x in a'.pieces ensures PieceOk(a', x) {
      assert PieceOk(a, x);
    }
    forall k: nat, i: nat | k < |a'.bins| && i < |a'.bins[k]| ensures EntryOk(a', k, i) {
      assert EntryOk(a, k, if k == bin then i + 1 else i);
      if k == bin {
        assert a'.bins[k][i] == a.bins[k][i + 1];
        forall j: nat | j < i ensures a'.bins[k][j] != a'.bins[k][i] {
          assert a'.bins[k][j] == a.bins[k][j + 1];
        }
      }
    }
  }

  lemma StealAllKeeps(capacity: nat, a: Arena, t: ThreadId, bin: nat)
    requires Inv(capacity, a) && bin < NUM_BINS
    ensures Inv(capacity, StealAll(a, t, bin))
    ensures forall b {:trigger b in a.bins[bin]} :: b in a.bins[bin] ==>
      && HeldBy(StealAll(a, t, bin), t, b) && a.holders[b] == InBin(bin)
      && Fits(bin, a.pieces[b]) && b in a.headers && a.headers[b] == a.pieces[b]
    ensures forall i: nat, j: nat :: i < j < |a.bins[bin]| ==> a.bins[bin][i] != a.bins[bin][j]
  {
    var a' := StealAll(a, t, bin);
    forall b | b in a.bins[bin] ensures b in a.holders && a.holders[b] == InBin(bin) && PieceOk(a, b) {
      var i: nat :| i < |a.bins[bin]| && a.bins[bin][i] == b;
      assert EntryOk(a, bin, i);
    }
    assert a'.holders.Keys == a'.pieces.Keys;
    forall x | x in a'.pieces ensures PieceOk(a', x) {
      assert PieceOk(a, x);
    }
    forall k: nat, i: nat | k < |a'.bins| && i < |a'.bins[k]| ensures EntryOk(a', k, i) {
      assert EntryOk(a, k, i);
    }
    forall i: nat, j: nat | i < j < |a.bins[bin]| ensures a.bins[bin][i] != a.bins[bin][j] {
      assert EntryOk(a, bin, j);
    }
  }

  lemma PushBackKeeps(capacity: nat, a: Arena, t: ThreadId, bin: nat, b: Offset)
    requires Inv(capacity, a) && HeldBy(a, t, b) && Fits(bin, a.pieces[b]) && HeaderAt(a, b) == a.pieces[b]
    ensures Inv(capacity, PushBack(a, bin, b))
  {
    var a' := PushBack(a, bin, b);
    assert PieceOk(a, b) && PieceFits(a.pieces, a.current, b);
    forall x | x in a'.pieces ensures PieceOk(a', x) {
      assert PieceOk(a, x);
    }
    forall k: nat, i: nat | k < |a'.bins| && i < |a'.bins[k]| ensures EntryOk(a', k, i) {
      if k == bin && i > 0 {
        assert EntryOk(a, k, i - 1);
        forall j: nat | j < i ensures a'.bins[k][j] != a'.bins[k][i] {
          assert a'.bins[k][i] == a.bins[k][i - 1];
          assert j > 0 ==> a'.bins[k][j] == a.bins[k][j - 1];
        }
      } else if k != bin {
        assert EntryOk(a, k, i);
      }
    }
  }

  lemma PushFreeKeeps(capacity: nat, a: Arena, t: ThreadId, b: Offset)
    requires Inv(capacity, a) && HeldBy(a, t, b) && IsBlockSize(a.pieces[b])
    ensures Inv(capacity, PushFree(a, b, a.pieces[b]))
  {
    var size := a.pieces[b];
    var a1 := a.(headers := a.headers[b := size]);
    BinOfBlockSize(size);
    forall x | x in a1.pieces ensures PieceOk(a1, x) {
      assert PieceOk(a, x);
    }
    EntriesKept(a, a1, b);
    PushBackKeeps(capacity, a1, t, BinFor(size), b);
  }

  lemma SplitTiles(pieces: map<Offset, nat>, current: nat, b: Offset, size: nat)
    requires Tiles(pieces, current) && b in pieces && 0 < size < pieces[b]
    ensures b + size !in pieces
    ensures Tiles(pieces[b := size][b + size := pieces[b] - size], current)
  {
    var pieces' := pieces[b := size][b + size := pieces[b] - size];
    assert PieceFits(pieces, current, b);
    if b + size in pieces {
      NextPiece(pieces, current, b, b + size);
      assert false;
    }
    forall x {:trigger PieceFits(pieces', current, x)} | x in pieces' ensures PieceFits(pieces', current, x) {
      if x in pieces {
        assert PieceFits(pieces, current, x);
      }
    }
    forall b1, b2 ensures Before(pieces', b1, b2) {
      assert Before(pieces, b1, b2) && Before(pieces, b, b2) && Before(pieces, b1, b) && Before(pieces, b, b1);
    }
  }

  lemma SplitKeeps(capacity: nat, a: Arena, t: ThreadId, b: Offset, size: nat)
    requires Inv(capacity, a) && HeldBy(a, t, b) && 0 < size < a.pieces[b] && Aligned(size)
    ensures Inv(capacity, Split(a, t, b, size)) && b + size !in a.pieces
    ensures HeldBy(Split(a, t, b, size), t, b) && HeldBy(Split(a, t, b, size), t, b + size)
  {
    var a' := Split(a, t, b, size);
    assert PieceOk(a, b);
    SplitTiles(a.pieces, a.current, b, size);
    forall x | x in a'.pieces ensures PieceOk(a', x) {
      if x in a.pieces {
        assert PieceOk(a, x);
      }
    }
    EntriesKept(a, a', b + size);
  }

  lemma SetHolderKeeps(capacity: nat, a: Arena, b: Offset, holder: Holder)
    requires Inv(capacity, a) && b in a.pieces && b in a.holders
    requires !a.holders[b].InBin? && !holder.InBin?
    requires holder.WithClient? ==> a.pieces[b] == BlockSizeFor(holder.bytes)
    ensures Inv(capacity, SetHolder(a, b, holder))
  {
    var a' := SetHolder(a, b, holder);
    forall x | x in a'.pieces ensures PieceOk(a', x) {
      assert PieceOk(a, x);
    }
    EntriesKept(a, a', b);
  }

  /** Every byte below current lies in a piece: with Before, in exactly one. */
  lemma {:induction false} Covered(pieces: map<Offset, nat>, current: nat, u: nat)
    requires Tiles(pieces, current) && u < current
    ensures exists b :: b in pieces && b <= u < b + pieces[b]
  {
    if u == 0 {
      assert PieceFits(pieces, current, 0);
    } else {
      Covered(pieces, current, u - 1);
      var b :| b in pieces && b <= u - 1 < b + pieces[b];
      assert PieceFits(pieces, current, b);
      if u == b + pieces[b] {
        assert PieceFits(pieces, current, u);
      }
    }
  }
}
