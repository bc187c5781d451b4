/**
  uniform_int_distribution: a uniform value in [0, range] from an engine whose outputs, less its minimum,
  are the numbers 0 to engineRange.  Engine outputs are a finite sequence; a draw that needs more than
  there are gives None, otherwise the value and the index of the first output it did not use.
 */
module UniformInt {
  import opened Wrappers
  import Division

  const LIMIT: nat := 0x1_0000_0000_0000_0000

  datatype Drawn = Drawn(value: nat, next: nat)

  /** Two or more outputs, each at most 64 bits wide. */
  predicate ValidEngine(engineRange: nat) {
    0 < engineRange < LIMIT
  }

  predicate InRange(engineRange: nat, s: seq<nat>) {
    forall i :: 0 <= i < |s| ==> s[i] <= engineRange
  }

  // ----- the specification -----

  /** Raw outputs below this are rejected, which leaves a whole number of copies of each result. */
  function Threshold(engineRange: nat, range: nat): nat
    requires range <= engineRange
  {
    Division.Remainder(engineRange - range, range + 1)
  }

  function High(engineRange: nat, range: nat): nat {
    Division.Quotient(range, engineRange + 1)
  }

  /** high * (engineRange + 1) + low, as a repeated sum. */
  function Join(engineRange: nat, high: nat, low: nat): nat {
    if high == 0 then low else Join(engineRange, high - 1, low) + engineRange + 1
  }

  lemma {:induction false} JoinIs(engineRange: nat, high: nat, low: nat)
    ensures Join(engineRange, high, low) == high * (engineRange + 1) + low
  {
    if high > 0 {
      JoinIs(engineRange, high - 1, low);
      Division.MulPlusOne(high - 1, engineRange + 1);
    }
  }

  lemma {:induction false} JoinGrows(engineRange: nat, high: nat, high': nat, low: nat, low': nat)
    requires high <= high' && low <= low'
    ensures Join(engineRange, high, low) <= Join(engineRange, high', low')
    decreases high'
  {
    if high == high' && high > 0 {
      JoinGrows(engineRange, high - 1, high' - 1, low, low');
    } else if high < high' {
      JoinGrows(engineRange, high, high' - 1, low, low');
    }
  }

  function Low(engineRange: nat, value: nat): nat {
    Division.Remainder(value, engineRange + 1)
  }

  lemma HighIsLess(engineRange: nat, range: nat)
    requires 0 < engineRange < range
    ensures High(engineRange, range) < range && Join(engineRange, High(engineRange, range), 0) <= range
  {
    Division.Shrinks(range, engineRange + 1);
    Split(engineRange, range);
    JoinGrows(engineRange, High(engineRange, range), High(engineRange, range), 0, Low(engineRange, range));
  }

  lemma HighOf(engineRange: nat, range: nat, w: nat)
    requires w <= range
    ensures High(engineRange, w) <= High(engineRange, range) && Low(engineRange, w) <= engineRange
    ensures Join(engineRange, High(engineRange, w), Low(engineRange, w)) == w
  {
    Split(engineRange, w);
    Split(engineRange, range);
    if High(engineRange, w) > High(engineRange, range) {
      JoinGrows(engineRange, High(engineRange, range), High(engineRange, w) - 1, 0, 0);
      JoinGrows(engineRange, High(engineRange, w), High(engineRange, w), 0, Low(engineRange, w));
      JoinAdds(engineRange, High(engineRange, range), Low(engineRange, range));
      assert false;
    }
  }

  lemma Split(engineRange: nat, w: nat)
    ensures Low(engineRange, w) <= engineRange
    ensures Join(engineRange, High(engineRange, w), Low(engineRange, w)) == w
  {
    Division.Recompose(w, engineRange + 1);
    JoinIs(engineRange, High(engineRange, w), Low(engineRange, w));
  }

  lemma {:induction false} JoinAdds(engineRange: nat, high: nat, low: nat)
    ensures Join(engineRange, high, low) == Join(engineRange, high, 0) + low
  {
    if high > 0 {
      JoinAdds(engineRange, high - 1, low);
    }
  }

  /**
    The draw from output i on.  A narrow range takes one output per attempt; a wide one takes a draw for the
    high part and one output.
   */
  function Draw(engineRange: nat, range: nat, s: seq<nat>, i: nat): (d: Option<Drawn>)
    requires ValidEngine(engineRange) && i <= |s|
    ensures d.Some? ==> i < d.value.next <= |s|
    decreases range, |s| - i
  {
    if range <= engineRange then
      if i == |s| then None
      else if s[i] < Threshold(engineRange, range) then Draw(engineRange, range, s, i + 1)
      else Some(Drawn(Division.Remainder(s[i], range + 1), i + 1))
    else
      HighIsLess(engineRange, range);
      match Draw(engineRange, High(engineRange, range), s, i)
      case None => None
      case Some(Drawn(h, n)) =>
        if n == |s| then None
        else if Join(engineRange, h, s[n]) > range then Draw(engineRange, range, s, n + 1)
        else Some(Drawn(Join(engineRange, h, s[n]), n + 1))
  }

  /** The value lies in [0, range]. */
  lemma {:induction false} DrawInRange(engineRange: nat, range: nat, s: seq<nat>, i: nat)
    requires ValidEngine(engineRange) && i <= |s|
    ensures var d := Draw(engineRange, range, s, i); d.Some? ==> d.value.value <= range
    decreases range, |s| - i
  {
    if range <= engineRange {
      if i < |s| && s[i] < Threshold(engineRange, range) {
        DrawInRange(engineRange, range, s, i + 1);
      }
    } else {
      HighIsLess(engineRange, range);
      var inner := Draw(engineRange, High(engineRange, range), s, i);
      if inner.Some? && inner.value.next < |s| && Join(engineRange, inner.value.value, s[inner.value.next]) > range {
        DrawInRange(engineRange, range, s, inner.value.next + 1);
      }
    }
  }

  /** s and t have the same outputs from i to n. */
  ghost predicate Agree(s: seq<nat>, t: seq<nat>, i: nat, n: nat) {
    i <= n <= |s| && n <= |t| && forall k {:trigger s[k]} {:trigger t[k]} :: i <= k < n ==> s[k] == t[k]
  }

  /** Outputs not used do not matter. */
  lemma {:induction false} DrawReadsOnly(engineRange: nat, range: nat, s: seq<nat>, t: seq<nat>, i: nat)
    requires ValidEngine(engineRange) && i <= |s|
    requires Draw(engineRange, range, s, i).Some? && Agree(s, t, i, Draw(engineRange, range, s, i).value.next)
    ensures Draw(engineRange, range, t, i) == Draw(engineRange, range, s, i)
    decreases range, |s| - i
  {
    if range <= engineRange {
      if s[i] < Threshold(engineRange, range) {
        DrawReadsOnly(engineRange, range, s, t, i + 1);
      }
    } else {
      HighIsLess(engineRange, range);
      DrawReadsOnly(engineRange, High(engineRange, range), s, t, i);
      var Drawn(h, n) := Draw(engineRange, High(engineRange, range), s, i).value;
      if Join(engineRange, h, s[n]) > range {
        DrawReadsOnly(engineRange, range, s, t, n + 1);
      }
    }
  }

  // ----- uniformity: a bijection between the outputs that give v and those that give w -----

  /** The accepted output in the same copy of [0, range] as raw that gives w. */
  function Shift(engineRange: nat, range: nat, raw: nat, w: nat): nat
    requires range <= engineRange && Threshold(engineRange, range) <= raw && w <= range
  {
    var (t, n) := (Threshold(engineRange, range), range + 1);
    raw - Division.Remainder(raw - t, n) + Division.Remainder(w + n - t, n)
  }

  /** Counting round from t in copies of length n, the j-th number gives w when j is w - t, or w - t + n. */
  lemma Offset(t: nat, n: nat, j: nat, w: nat)
    requires t < n && w < n && j < n
    ensures Division.Remainder(t + j, n) == w <==> Division.Remainder(w + n - t, n) == j
  {
    Wrapped(t + j, n);
    Wrapped(w + n - t, n);
  }

  lemma Wrapped(m: nat, n: nat)
    requires m < 2 * n
    ensures Division.Remainder(m, n) == if m < n then m else m - n
  {}

  /** raw lies j places into a whole copy that starts a multiple of n above t. */
  lemma CopyOf(engineRange: nat, range: nat, raw: nat) returns (q: nat, j: nat)
    requires range <= engineRange && Threshold(engineRange, range) <= raw <= engineRange
    ensures var (t, n) := (Threshold(engineRange, range), range + 1);
      t < n && j == Division.Remainder(raw - t, n) && raw == t + q * n + j && t + q * n + n <= engineRange + 1
  {
    var (t, n) := (Threshold(engineRange, range), range + 1);
    q, j := Division.Quotient(raw - t, n), Division.Remainder(raw - t, n);
    Division.Recompose(raw - t, n);
    Division.Recompose(engineRange - range, n);
    var copies := Division.Quotient(engineRange - range, n);
    Division.MulPlusOne(copies, n);
    Division.MulPlusOne(q, n);
    if q > copies {
      Division.MulMonotone(1 + copies, q, n);
      assert false;
    }
    Division.MulMonotone(q, copies, n);
  }

  /** Any j' < n names a place in raw's copy. */
  lemma PlaceOf(t: nat, n: nat, q: nat, j: nat)
    requires t < n && j < n
    ensures Division.Remainder(t + q * n + j, n) == Division.Remainder(t + j, n)
    ensures Division.Remainder(t + q * n + j - t, n) == j
  {
    Division.AddMultiple(t + j, n, q);
    Division.Unique(q * n + j, n, q, j);
  }

  lemma ShiftGives(engineRange: nat, range: nat, raw: nat, w: nat)
    requires range <= engineRange && Threshold(engineRange, range) <= raw <= engineRange && w <= range
    ensures var raw' := Shift(engineRange, range, raw, w);
      Threshold(engineRange, range) <= raw' <= engineRange && Division.Remainder(raw', range + 1) == w
  {
    var (t, n) := (Threshold(engineRange, range), range + 1);
    var q, j := CopyOf(engineRange, range, raw);
    var j' := Division.Remainder(w + n - t, n);
    PlaceOf(t, n, q, j');
    Offset(t, n, j', w);
    Division.MulMonotone(0, q, n);
  }

  lemma ShiftBack(engineRange: nat, range: nat, raw: nat, w: nat)
    requires range <= engineRange && Threshold(engineRange, range) <= raw <= engineRange && w <= range
    ensures Threshold(engineRange, range) <= Shift(engineRange, range, raw, w)
    ensures Shift(engineRange, range, Shift(engineRange, range, raw, w), Division.Remainder(raw, range + 1)) == raw
  {
    var (t, n) := (Threshold(engineRange, range), range + 1);
    ShiftGives(engineRange, range, raw, w);
    var q, j := CopyOf(engineRange, range, raw);
    var j' := Division.Remainder(w + n - t, n);
    PlaceOf(t, n, q, j);
    PlaceOf(t, n, q, j');
    Offset(t, n, j, Division.Remainder(raw, n));
  }

  lemma PartsOf(engineRange: nat, h: nat, low: nat)
    requires low <= engineRange
    ensures High(engineRange, Join(engineRange, h, low)) == h && Low(engineRange, Join(engineRange, h, low)) == low
  {
    JoinIs(engineRange, h, low);
    Division.Unique(Join(engineRange, h, low), engineRange + 1, h, low);
  }

  /** Changes the last attempt of the draw from i so that it gives w. */
  function Swap(engineRange: nat, range: nat, s: seq<nat>, i: nat, w: nat): (s': seq<nat>)
    requires ValidEngine(engineRange) && w <= range && i <= |s| && Draw(engineRange, range, s, i).Some?
    ensures |s'| == |s|
    decreases range, |s| - i
  {
    if range <= engineRange then
      if s[i] < Threshold(engineRange, range) then Swap(engineRange, range, s, i + 1, w)
      else s[i := Shift(engineRange, range, s[i], w)]
    else
      HighIsLess(engineRange, range);
      var Drawn(h, n) := Draw(engineRange, High(engineRange, range), s, i).value;
      if Join(engineRange, h, s[n]) > range then Swap(engineRange, range, s, n + 1, w)
      else
        HighOf(engineRange, range, w);
        Swap(engineRange, High(engineRange, range), s, i, High(engineRange, w))[n := Low(engineRange, w)]
  }

  /** Only outputs that the draw uses change. */
  lemma {:induction false} SwapKeepsOthers(engineRange: nat, range: nat, s: seq<nat>, i: nat, w: nat, k: nat)
    requires ValidEngine(engineRange) && w <= range && i <= |s| && Draw(engineRange, range, s, i).Some?
    requires k < |s| && !(i <= k < Draw(engineRange, range, s, i).value.next)
    ensures Swap(engineRange, range, s, i, w)[k] == s[k]
    decreases range, |s| - i
  {
    if range <= engineRange {
      if s[i] < Threshold(engineRange, range) {
        SwapKeepsOthers(engineRange, range, s, i + 1, w, k);
      }
    } else {
      HighIsLess(engineRange, range);
      var Drawn(h, n) := Draw(engineRange, High(engineRange, range), s, i).value;
      if Join(engineRange, h, s[n]) > range {
        SwapKeepsOthers(engineRange, range, s, n + 1, w, k);
      } else {
        HighOf(engineRange, range, w);
        SwapKeepsOthers(engineRange, High(engineRange, range), s, i, High(engineRange, w), k);
      }
    }
  }

  /** So the outputs of failed attempts stay. */
  lemma SwapKeepsBefore(engineRange: nat, range: nat, s: seq<nat>, i: nat, w: nat, from: nat)
    requires ValidEngine(engineRange) && w <= range && from <= i <= |s| && Draw(engineRange, range, s, i).Some?
    ensures Agree(s, Swap(engineRange, range, s, i, w), from, i)
  {
    forall k: nat | from <= k < i ensures Swap(engineRange, range, s, i, w)[k] == s[k] {
      SwapKeepsOthers(engineRange, range, s, i, w, k);
    }
  }

  /** The swapped outputs are the engine's, and the draw from them gives w and ends where it did. */
  lemma {:induction false} SwapGives(engineRange: nat, range: nat, s: seq<nat>, i: nat, w: nat)
    requires ValidEngine(engineRange) && InRange(engineRange, s) && w <= range && i <= |s| && Draw(engineRange, range, s, i).Some?
    ensures InRange(engineRange, Swap(engineRange, range, s, i, w))
    ensures Draw(engineRange, range, Swap(engineRange, range, s, i, w), i) == Some(Drawn(w, Draw(engineRange, range, s, i).value.next))
    decreases range, |s| - i
  {
    if range <= engineRange {
      if s[i] < Threshold(engineRange, range) {
        SwapGives(engineRange, range, s, i + 1, w);
        SwapKeepsBefore(engineRange, range, s, i + 1, w, i);
      } else {
        ShiftGives(engineRange, range, s[i], w);
      }
    } else {
      HighIsLess(engineRange, range);
      var Drawn(h, n) := Draw(engineRange, High(engineRange, range), s, i).value;
      if Join(engineRange, h, s[n]) > range {
        SwapGives(engineRange, range, s, n + 1, w);
        AfterFailure(engineRange, range, s, i, w, h, n);
      } else {
        SwapGivesLast(engineRange, range, s, i, w, h, n);
      }
    }
  }

  /** When the first attempt fails, the swap is in a later one, and the first attempt fails as before. */
  lemma AfterFailure(engineRange: nat, range: nat, s: seq<nat>, i: nat, w: nat, h: nat, n: nat)
    requires ValidEngine(engineRange) && engineRange < range && w <= range && i <= |s| && Draw(engineRange, range, s, i).Some?
    requires High(engineRange, range) < range && Draw(engineRange, High(engineRange, range), s, i) == Some(Drawn(h, n))
    requires n < |s| && Join(engineRange, h, s[n]) > range
    ensures Draw(engineRange, range, s, i) == Draw(engineRange, range, s, n + 1)
    ensures var s' := Swap(engineRange, range, s, n + 1, w);
      && Swap(engineRange, range, s, i, w) == s' && s'[n] == s[n]
      && Draw(engineRange, High(engineRange, range), s', i) == Some(Drawn(h, n))
      && Draw(engineRange, range, s', i) == Draw(engineRange, range, s', n + 1)
  {
    var s' := Swap(engineRange, range, s, n + 1, w);
    SwapKeepsBefore(engineRange, range, s, n + 1, w, i);
    DrawReadsOnly(engineRange, High(engineRange, range), s, s', i);
    assert s'[n] == s[n];
  }

  /** The attempt that succeeds gets the high part of w and an output for its low part. */
  lemma {:induction false} SwapGivesLast(engineRange: nat, range: nat, s: seq<nat>, i: nat, w: nat, h: nat, n: nat)
    requires ValidEngine(engineRange) && InRange(engineRange, s) && engineRange < range && w <= range && i <= |s|
    requires High(engineRange, range) < range && Draw(engineRange, High(engineRange, range), s, i) == Some(Drawn(h, n))
    requires n < |s| && Join(engineRange, h, s[n]) <= range
    ensures InRange(engineRange, Swap(engineRange, range, s, i, w))
    ensures Draw(engineRange, range, Swap(engineRange, range, s, i, w), i) == Some(Drawn(w, n + 1))
    decreases range, |s| - i, 0
  {
    var high := High(engineRange, range);
    HighOf(engineRange, range, w);
    SwapGives(engineRange, high, s, i, High(engineRange, w));
    var inner := Swap(engineRange, high, s, i, High(engineRange, w));
    var s' := inner[n := Low(engineRange, w)];
    assert Swap(engineRange, range, s, i, w) == s';
    DrawReadsOnly(engineRange, high, inner, s', i);
  }

  /** Changing an output that the draw does not reach commutes with the swap. */
  lemma {:induction false} SwapBeside(engineRange: nat, range: nat, s: seq<nat>, i: nat, w: nat, k: nat, x: nat)
    requires ValidEngine(engineRange) && w <= range && i <= |s| && Draw(engineRange, range, s, i).Some?
    requires Draw(engineRange, range, s, i).value.next <= k < |s|
    ensures Draw(engineRange, range, s[k := x], i) == Draw(engineRange, range, s, i)
    ensures Swap(engineRange, range, s[k := x], i, w) == Swap(engineRange, range, s, i, w)[k := x]
    decreases range, |s| - i
  {
    DrawReadsOnly(engineRange, range, s, s[k := x], i);
    if range <= engineRange {
      if s[i] < Threshold(engineRange, range) {
        SwapBeside(engineRange, range, s, i + 1, w, k, x);
      }
    } else {
      HighIsLess(engineRange, range);
      var Drawn(h, n) := Draw(engineRange, High(engineRange, range), s, i).value;
      if Join(engineRange, h, s[n]) > range {
        SwapBeside(engineRange, range, s, n + 1, w, k, x);
        DrawReadsOnly(engineRange, High(engineRange, range), s, s[k := x], i);
        SwapAfterFailure(engineRange, range, s, i, w, h, n);
        SwapAfterFailure(engineRange, range, s[k := x], i, w, h, n);
      } else {
        SwapBesideLast(engineRange, range, s, i, w, k, x, h, n);
      }
    }
  }

  lemma {:induction false} SwapBesideLast(engineRange: nat, range: nat, s: seq<nat>, i: nat, w: nat, k: nat, x: nat, h: nat, n: nat)
    requires ValidEngine(engineRange) && engineRange < range && w <= range && i <= |s| && n < k < |s|
    requires High(engineRange, range) < range && Draw(engineRange, High(engineRange, range), s, i) == Some(Drawn(h, n))
    requires Join(engineRange, h, s[n]) <= range
    ensures Draw(engineRange, range, s[k := x], i).Some?
    ensures Swap(engineRange, range, s[k := x], i, w) == Swap(engineRange, range, s, i, w)[k := x]
    decreases range, |s| - i, 0
  {
    var high := High(engineRange, range);
    HighOf(engineRange, range, w);
    SwapBeside(engineRange, high, s, i, High(engineRange, w), k, x);
    var inner := Swap(engineRange, high, s, i, High(engineRange, w));
    var low := Low(engineRange, w);
    var (one, other) := (inner[n := low], inner[k := x]);
    assert one[k := x] == other[n := low];
  }

  /** Swapping back to the value s gives restores s. */
  lemma {:induction false} SwapBack(engineRange: nat, range: nat, s: seq<nat>, i: nat, w: nat)
    requires ValidEngine(engineRange) && InRange(engineRange, s) && w <= range && i <= |s| && Draw(engineRange, range, s, i).Some?
    ensures Draw(engineRange, range, Swap(engineRange, range, s, i, w), i).Some?
    ensures Draw(engineRange, range, s, i).value.value <= range
    ensures Swap(engineRange, range, Swap(engineRange, range, s, i, w), i, Draw(engineRange, range, s, i).value.value) == s
    decreases range, |s| - i
  {
    SwapGives(engineRange, range, s, i, w);
    DrawInRange(engineRange, range, s, i);
    if range <= engineRange {
      if s[i] < Threshold(engineRange, range) {
        SwapBack(engineRange, range, s, i + 1, w);
        SwapKeepsBefore(engineRange, range, s, i + 1, w, i);
      } else {
        ShiftBack(engineRange, range, s[i], w);
      }
    } else {
      HighIsLess(engineRange, range);
      var Drawn(h, n) := Draw(engineRange, High(engineRange, range), s, i).value;
      if Join(engineRange, h, s[n]) > range {
        SwapBack(engineRange, range, s, n + 1, w);
        AfterFailure(engineRange, range, s, i, w, h, n);
        SwapAfterFailure(engineRange, range, Swap(engineRange, range, s, n + 1, w), i, Draw(engineRange, range, s, i).value.value, h, n);
      } else {
        SwapBackLast(engineRange, range, s, i, w, h, n);
      }
    }
  }

  lemma SwapAfterFailure(engineRange: nat, range: nat, s: seq<nat>, i: nat, w: nat, h: nat, n: nat)
    requires ValidEngine(engineRange) && engineRange < range && w <= range && i <= |s| && Draw(engineRange, range, s, i).Some?
    requires High(engineRange, range) < range && Draw(engineRange, High(engineRange, range), s, i) == Some(Drawn(h, n))
    requires n < |s| && Join(engineRange, h, s[n]) > range
    ensures Draw(engineRange, range, s, n + 1).Some? && Swap(engineRange, range, s, i, w) == Swap(engineRange, range, s, n + 1, w)
  {}

  lemma {:induction false} SwapBackLast(engineRange: nat, range: nat, s: seq<nat>, i: nat, w: nat, h: nat, n: nat)
    requires ValidEngine(engineRange) && InRange(engineRange, s) && w <= range && i <= |s| && engineRange < range
    requires High(engineRange, range) < range && Draw(engineRange, High(engineRange, range), s, i) == Some(Drawn(h, n))
    requires n < |s| && Join(engineRange, h, s[n]) <= range
    requires Draw(engineRange, range, Swap(engineRange, range, s, i, w), i).Some?
    ensures Swap(engineRange, range, Swap(engineRange, range, s, i, w), i, Join(engineRange, h, s[n])) == s
    decreases range, |s| - i, 0
  {
    var high := High(engineRange, range);
    HighOf(engineRange, range, w);
    var inner := Swap(engineRange, high, s, i, High(engineRange, w));
    SwapGives(engineRange, high, s, i, High(engineRange, w));
    SwapBack(engineRange, high, s, i, High(engineRange, w));
    SwapBeside(engineRange, high, inner, i, h, n, Low(engineRange, w));
    HighOf(engineRange, range, Join(engineRange, h, s[n]));
    PartsOf(engineRange, h, s[n]);
  }

  // ----- counting -----

  /** Every sequence of n engine outputs. */
  ghost function Outputs(engineRange: nat, n: nat): set<seq<nat>> {
    if n == 0 then {[]}
    else set x: nat, rest: seq<nat> | x <= engineRange && rest in Outputs(engineRange, n - 1) :: [x] + rest
  }

  lemma {:induction false} OutputsAre(engineRange: nat, n: nat, s: seq<nat>)
    ensures s in Outputs(engineRange, n) <==> |s| == n && InRange(engineRange, s)
  {
    if n > 0 {
      if |s| == n && InRange(engineRange, s) {
        OutputsAre(engineRange, n - 1, s[1..]);
        assert s == [s[0]] + s[1..];
      }
      if s in Outputs(engineRange, n) {
        var x: nat, rest: seq<nat> :| x <= engineRange && rest in Outputs(engineRange, n - 1) && s == [x] + rest;
        OutputsAre(engineRange, n - 1, rest);
      }
    }
  }

  /** The sequences of n outputs on which a draw ends at the n-th with value v. */
  ghost function Accepted(engineRange: nat, range: nat, n: nat, v: nat): set<seq<nat>>
    requires ValidEngine(engineRange)
  {
    set s | s in Outputs(engineRange, n) && Draw(engineRange, range, s, 0) == Some(Drawn(v, n))
  }

  lemma {:induction false} InjectionSize(a: set<seq<nat>>, b: set<seq<nat>>, f: map<seq<nat>, seq<nat>>)
    requires a <= f.Keys && (forall s :: s in a ==> f[s] in b)
    requires forall s, t :: s in a && t in a && f[s] == f[t] ==> s == t
    ensures |a| <= |b|
  {
    if a != {} {
      var s :| s in a;
      InjectionSize(a - {s}, b - {f[s]}, f);
    }
  }

  lemma NoMoreThan(engineRange: nat, range: nat, n: nat, v: nat, w: nat)
    requires ValidEngine(engineRange) && v <= range && w <= range
    ensures |Accepted(engineRange, range, n, v)| <= |Accepted(engineRange, range, n, w)|
  {
    var (a, b) := (Accepted(engineRange, range, n, v), Accepted(engineRange, range, n, w));
    forall s | s in a ensures |s| == n && InRange(engineRange, s) {
      OutputsAre(engineRange, n, s);
    }
    var f := map s | s in a :: Swap(engineRange, range, s, 0, w);
    forall s | s in a ensures f[s] in b && |f[s]| == n && Swap(engineRange, range, f[s], 0, v) == s {
      OutputsAre(engineRange, n, s);
      SwapGives(engineRange, range, s, 0, w);
      SwapBack(engineRange, range, s, 0, w);
      OutputsAre(engineRange, n, f[s]);
    }
    InjectionSize(a, b, f);
  }

  /**
    Uniformity: for every range and every n, each value in [0, range] is the result of equally many of the
    sequences of n engine outputs that a draw uses up - rejected attempts, at every depth, included.
   */
  lemma DrawIsUniform(engineRange: nat, range: nat, n: nat, v: nat, w: nat)
    requires ValidEngine(engineRange) && v <= range && w <= range
    ensures |Accepted(engineRange, range, n, v)| == |Accepted(engineRange, range, n, w)|
  {
    NoMoreThan(engineRange, range, n, v, w);
    NoMoreThan(engineRange, range, n, w, v);
  }

  /** And no value is left out: some outputs give v. */
  lemma EveryValueOccurs(engineRange: nat, range: nat, v: nat) returns (s: seq<nat>)
    requires ValidEngine(engineRange) && v <= range
    ensures s in Accepted(engineRange, range, |s|, v)
  {
    s := OutputsFor(engineRange, range, v);
    OutputsAre(engineRange, |s|, s);
  }

  lemma {:induction false} OutputsFor(engineRange: nat, range: nat, v: nat) returns (s: seq<nat>)
    requires ValidEngine(engineRange) && v <= range
    ensures InRange(engineRange, s) && Draw(engineRange, range, s, 0) == Some(Drawn(v, |s|))
    decreases range
  {
    if range <= engineRange {
      ThresholdIsLow(engineRange, range);
      ShiftGives(engineRange, range, engineRange, v);
      s := [Shift(engineRange, range, engineRange, v)];
    } else {
      HighIsLess(engineRange, range);
      HighOf(engineRange, range, v);
      var inner := OutputsFor(engineRange, High(engineRange, range), High(engineRange, v));
      s := inner + [Low(engineRange, v)];
      DrawReadsOnly(engineRange, High(engineRange, range), inner, s, 0);
    }
  }

  lemma ThresholdIsLow(engineRange: nat, range: nat)
    requires range <= engineRange
    ensures Threshold(engineRange, range) <= engineRange
  {
    Division.Recompose(engineRange - range, range + 1);
    Division.MulMonotone(0, Division.Quotient(engineRange - range, range + 1), range + 1);
  }

  // ----- the loops of the source, in 64-bit arithmetic -----

  datatype Engine = Engine(min: nat, range: nat)

  ghost predicate FromEngine(g: Engine, outputs: seq<nat>) {
    && ValidEngine(g.range) && g.min + g.range < LIMIT
    && forall i {:trigger outputs[i]} :: 0 <= i < |outputs| ==> g.min <= outputs[i] <= g.min + g.range
  }

  ghost function Raws(g: Engine, outputs: seq<nat>): (raws: seq<nat>)
    requires FromEngine(g, outputs)
    ensures |raws| == |outputs| && InRange(g.range, raws)
  {
    seq(|outputs|, i requires 0 <= i < |outputs| => outputs[i] - g.min)
  }

  /** What a draw from start gives: its value, and where it stops. */
  ghost predicate DrawsFrom(g: Engine, range: nat, outputs: seq<nat>, start: nat, value: Option<nat>, next: nat)
    requires FromEngine(g, outputs) && start <= |outputs|
  {
    var d := Draw(g.range, range, Raws(g, outputs), start);
    if value.Some? then d == Some(Drawn(value.value, next)) else d.None?
  }

  /** The attempts from start to next fail: the draw from start is the one from next. */
  ghost predicate FailsTo(g: Engine, range: nat, outputs: seq<nat>, start: nat, next: nat)
    requires FromEngine(g, outputs) && start <= next <= |outputs|
  {
    Draw(g.range, range, Raws(g, outputs), start) == Draw(g.range, range, Raws(g, outputs), next)
  }

  /** The rejection loop over single outputs. */
  method DrawNarrow(g: Engine, range: nat, outputs: seq<nat>, start: nat) returns (value: Option<nat>, next: nat)
    requires FromEngine(g, outputs) && start <= |outputs| && range < g.range
    ensures DrawsFrom(g, range, outputs, start, value, next)
  {
    var rangePlusOne := range + 1;
    var threshold := (g.range - range) % rangePlusOne;
    Division.IsDivision(g.range - range, rangePlusOne);
    var i := start;
    while i < |outputs|
      invariant start <= i <= |outputs| && FailsTo(g, range, outputs, start, i)
    {
      var raw := outputs[i] - g.min;
      if raw >= threshold {
        Division.IsDivision(raw, rangePlusOne);
        return Some(raw % rangePlusOne), i + 1;
      }
      i := i + 1;
    }
    return None, i;
  }

  /** high + raw modulo 2^64: above range or below high exactly when the true sum is above range. */
  lemma WrapIsDetected(high: nat, raw: nat, range: nat)
    requires high <= range < LIMIT && raw < LIMIT
    ensures var value := (high + raw) % 0x1_0000_0000_0000_0000; value > range || value < high <==> high + raw > range
    ensures high + raw <= range ==> (high + raw) % 0x1_0000_0000_0000_0000 == high + raw
  {}

  /** draw */
  method DrawValue(g: Engine, range: nat, outputs: seq<nat>, start: nat) returns (value: Option<nat>, next: nat)
    requires FromEngine(g, outputs) && start <= |outputs| && range < LIMIT
    ensures DrawsFrom(g, range, outputs, start, value, next)
    decreases range, 2
  {
    if range == g.range {
      if start == |outputs| {
        return None, start;
      }
      EveryOutputAccepted(range, Raws(g, outputs)[start]);
      return Some(outputs[start] - g.min), start + 1;
    }
    if range < g.range {
      value, next := DrawNarrow(g, range, outputs, start);
      return;
    }
    value, next := DrawWide(g, range, outputs, start);
  }

  lemma EveryOutputAccepted(range: nat, raw: nat)
    requires raw <= range
    ensures Threshold(range, range) == 0 && Division.Remainder(raw, range + 1) == raw
  {}

  function Combined(engineRange: nat, h: nat, raw: nat, range: nat): Option<nat> {
    var value := Join(engineRange, h, raw);
    if value > range then None else Some(value)
  }

  /** high and raw combined in 64 bits, or None when the sum is above range. */
  method Combine(engineRange: nat, h: nat, raw: nat, range: nat) returns (value: Option<nat>)
    requires Join(engineRange, h, 0) <= range < LIMIT && raw < LIMIT
    ensures value == Combined(engineRange, h, raw, range)
  {
    var high := HighPart(engineRange, h);
    JoinAdds(engineRange, h, raw);
    WrapIsDetected(high, raw, range);
    var sum := (high + raw) % 0x1_0000_0000_0000_0000;
    value := if sum > range || sum < high then None else Some(sum);
  }

  method HighPart(engineRange: nat, h: nat) returns (high: nat)
    ensures high == Join(engineRange, h, 0)
  {
    JoinIs(engineRange, h, 0);
    var engineValues := engineRange + 1;
    high := h * engineValues;
  }

  /** One attempt of the loop below: gives None and `next` past the attempt when it fails. */
  method Attempt(g: Engine, range: nat, outputs: seq<nat>, i: nat) returns (exhausted: bool, value: Option<nat>, next: nat)
    requires FromEngine(g, outputs) && i <= |outputs| && g.range < range < LIMIT
    ensures exhausted || value.Some? ==> DrawsFrom(g, range, outputs, i, value, next)
    ensures !exhausted ==> i < next <= |outputs|
    ensures !exhausted && value.None? ==> FailsTo(g, range, outputs, i, next)
    decreases range, 0
  {
    HighIsLess(g.range, range);
    var h, j := DrawValue(g, High(g.range, range), outputs, i);
    if h.None? || j == |outputs| {
      return true, None, i;
    }
    HighFits(g.range, range, Raws(g, outputs), i);
    exhausted, next := false, j + 1;
    value := Combine(g.range, h.value, outputs[j] - g.min, range);
  }

  /** The loop that combines a draw for the high part with one output. */
  method DrawWide(g: Engine, range: nat, outputs: seq<nat>, start: nat) returns (value: Option<nat>, next: nat)
    requires FromEngine(g, outputs) && start <= |outputs| && g.range < range < LIMIT
    ensures DrawsFrom(g, range, outputs, start, value, next)
    decreases range, 1
  {
    var i := start;
    while true
      invariant start <= i <= |outputs| && FailsTo(g, range, outputs, start, i)
      decreases |outputs| - i
    {
      var exhausted;
      exhausted, value, next := Attempt(g, range, outputs, i);
      if exhausted || value.Some? {
        return;
      }
      i := next;
    }
  }

  lemma HighFits(engineRange: nat, range: nat, s: seq<nat>, i: nat)
    requires ValidEngine(engineRange) && engineRange < range && i <= |s|
    requires Draw(engineRange, High(engineRange, range), s, i).Some?
    ensures Join(engineRange, Draw(engineRange, High(engineRange, range), s, i).value.value, 0) <= range
  {
    HighIsLess(engineRange, range);
    DrawInRange(engineRange, High(engineRange, range), s, i);
    JoinGrows(engineRange, Draw(engineRange, High(engineRange, range), s, i).value.value, High(engineRange, range), 0, 0);
  }

  // ----- generate -----

  /** The integer type of `modulus` values from `lowest` up: two's complement if lowest is negative. */
  datatype IntType = IntType(lowest: int, modulus: nat)

  predicate ValidType(t: IntType) {
    && (t.modulus == 0x100 || t.modulus == 0x1_0000 || t.modulus == 0x1_0000_0000 || t.modulus == 0x1_0000_0000_0000_0000)
    && (t.lowest == 0 || 2 * t.lowest + t.modulus == 0)
  }

  predicate Fits(t: IntType, n: int) {
    t.lowest <= n < t.lowest + t.modulus
  }

  /** static_cast to the unsigned type, and back. */
  function ToUnsigned(t: IntType, n: int): nat
    requires ValidType(t) && Fits(t, n)
  {
    if n < 0 then n + t.modulus else n
  }

  function FromUnsigned(t: IntType, n: nat): int
    requires ValidType(t) && n < t.modulus
  {
    if n >= t.lowest + t.modulus then n - t.modulus else n
  }

  function WrapTo(t: IntType, n: int): nat
    requires ValidType(t) && 0 <= n + t.modulus && n < 2 * t.modulus
  {
    if n < 0 then n + t.modulus else if n >= t.modulus then n - t.modulus else n
  }

  /** Subtracting in the unsigned type gives b - a, however wide the interval. */
  lemma RangeIsExact(t: IntType, a: int, b: int)
    requires ValidType(t) && Fits(t, a) && Fits(t, b) && a <= b
    ensures var d: int := ToUnsigned(t, b) as int - ToUnsigned(t, a);
      0 <= d + t.modulus && d < 2 * t.modulus && WrapTo(t, d) == b - a
  {}

  /** Adding a in the unsigned type and casting back gives a + v. */
  lemma CastBack(t: IntType, a: int, b: int, v: nat)
    requires ValidType(t) && Fits(t, a) && Fits(t, b) && a <= b && v <= b - a
    ensures var u: int := v + ToUnsigned(t, a);
      u < 2 * t.modulus && WrapTo(t, u) < t.modulus && FromUnsigned(t, WrapTo(t, u)) == a + v
  {}

  lemma DrawnInRange(g: Engine, range: nat, outputs: seq<nat>, value: nat, next: nat)
    requires FromEngine(g, outputs) && DrawsFrom(g, range, outputs, 0, Some(value), next)
    ensures value <= range
  {
    DrawInRange(g.range, range, Raws(g, outputs), 0);
  }

  /** The result lies in [a, b] and is a plus a draw over [0, b - a]; a one-point interval uses no output. */
  method Generate(t: IntType, a: int, b: int, g: Engine, outputs: seq<nat>) returns (result: Option<int>, next: nat)
    requires ValidType(t) && Fits(t, a) && Fits(t, b) && a <= b && FromEngine(g, outputs)
    ensures result.Some? ==> a <= result.value <= b
    ensures a == b ==> result == Some(a) && next == 0
    ensures a < b ==> DrawsFrom(g, b - a, outputs, 0, if result.None? then None else Some(result.value - a), next)
  {
    var range := RangeOf(t, a, b);
    if range == 0 {
      return Some(a), 0;
    }
    var drawn;
    drawn, next := DrawValue(g, range, outputs, 0);
    if drawn.None? {
      return None, next;
    }
    DrawnInRange(g, range, outputs, drawn.value, next);
    var sum := AddTo(t, a, b, drawn.value);
    result := Some(sum);
  }

  /** b - a, by way of the unsigned type. */
  method RangeOf(t: IntType, a: int, b: int) returns (range: nat)
    requires ValidType(t) && Fits(t, a) && Fits(t, b) && a <= b
    ensures range == b - a && range < LIMIT
  {
    var ua: int := ToUnsigned(t, a);
    var ub: int := ToUnsigned(t, b);
    RangeIsExact(t, a, b);
    range := WrapTo(t, ub - ua);
  }

  /** a + v, by way of the unsigned type. */
  method AddTo(t: IntType, a: int, b: int, v: nat) returns (sum: int)
    requires ValidType(t) && Fits(t, a) && Fits(t, b) && a <= b && v <= b - a
    ensures sum == a + v
  {
    CastBack(t, a, b, v);
    sum := FromUnsigned(t, WrapTo(t, v + ToUnsigned(t, a)));
  }
}
