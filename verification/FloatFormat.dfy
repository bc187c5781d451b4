/**
  Formatting doubles below 2^64: the emitted units and decimals are the value rounded half to even.
  Values are exact: a non-negative finite double stands for Quanta() times 2^-1074.
 */
module FloatFormat {
  import opened Wrappers
  import opened FormatOptions
  import opened TextBuffer
  import opened Numbers
  import opened NumberFormat
  import Division

  lemma {:induction false} Pow2Grows(j: nat, k: nat)
    requires j <= k
    ensures Power(2, j) <= Power(2, k)
    ensures j < k ==> 2 * Power(2, j) <= Power(2, k)
  {
    if j < k {
      Pow2Grows(j, k - 1);
    }
  }

  lemma Pow10Fits(k: nat)
    requires k <= 19
    ensures Power(10, k) <= 10_000_000_000_000_000_000
  {
    Pow10Grows(k, 19);
    assert Power(10, 4) == 10_000 && Power(10, 8) == 100_000_000 && Power(10, 12) == 1_000_000_000_000;
    assert Power(10, 16) == 10_000_000_000_000_000 && Power(10, 19) == 10_000_000_000_000_000_000;
  }

  lemma {:induction false} Pow10Grows(j: nat, k: nat)
    requires j <= k
    ensures Power(10, j) <= Power(10, k)
  {
    if j < k {
      Pow10Grows(j, k - 1);
    }
  }

  const TWO_52: nat := 0x10_0000_0000_0000

  lemma Pow2Of52()
    ensures Power(2, 52) == 0x10_0000_0000_0000 && Power(2, 53) == 0x20_0000_0000_0000 && Power(2, 64) == 0x1_0000_0000_0000_0000
    ensures Power(2, 117) == 0x20_0000_0000_0000 * 0x1_0000_0000_0000_0000
  {
    assert Power(2, 13) == 0x2000;
    PowerAdds(2, 13, 13);
    PowerAdds(2, 26, 26);
    PowerAdds(2, 32, 32);
    assert Power(2, 32) == 64 * Power(2, 26);
    PowerAdds(2, 53, 64);
  }

  // ----- doubles -----

  /** The fields of a non-negative finite double: biased exponent and the 52 stored bits. */
  datatype Double = Double(biased: nat, stored: nat) {
    predicate Valid() {
      biased < 2047 && stored < TWO_52
    }

    /** The significand, with the implicit bit of a normal number. */
    function Significand(): nat {
      if biased == 0 then stored else stored + TWO_52
    }

    function Exponent(): nat {
      if biased == 0 then 0 else biased - 1
    }

    /** The value, in units of 2^-1074. */
    function Quanta(): nat {
      Significand() * Power(2, Exponent())
    }
  }

  /** The double whose value is m * 2^k units. */
  function Normalize(m: nat, k: nat): (d: Double)
    requires m < 2 * TWO_52 && k <= 1085
    ensures d.Valid()
    decreases k
  {
    if m >= TWO_52 then Double(k + 1, m - TWO_52)
    else if k == 0 then Double(0, m)
    else Normalize(2 * m, k - 1)
  }

  lemma {:induction false} NormalizeKeeps(m: nat, k: nat)
    requires m < 2 * TWO_52 && k <= 1085
    ensures Normalize(m, k).Quanta() == m * Power(2, k)
    decreases k
  {
    if m < TWO_52 && k > 0 {
      NormalizeKeeps(2 * m, k - 1);
      assert 2 * m * Power(2, k - 1) == m * (2 * Power(2, k - 1));
    }
  }

  /** A double's value determines its fields, so an exact result has only one representation. */
  lemma QuantaAreInjective(d1: Double, d2: Double)
    requires d1.Valid() && d2.Valid() && d1.Quanta() == d2.Quanta()
    ensures d1 == d2
  {
    if d1.Exponent() < d2.Exponent() {
      LargerExponent(d1, d2);
    } else if d2.Exponent() < d1.Exponent() {
      LargerExponent(d2, d1);
    } else {
      SameFactor(d1.Significand(), d2.Significand(), Power(2, d1.Exponent()));
    }
  }

  lemma SameFactor(a: nat, b: nat, p: nat)
    requires p > 0 && a * p == b * p
    ensures a == b
  {
    if a < b {
      Division.MulLarger(b, a, p);
    } else if b < a {
      Division.MulLarger(a, b, p);
    }
  }

  lemma LargerExponent(d1: Double, d2: Double)
    requires d1.Valid() && d2.Valid() && d1.Exponent() < d2.Exponent()
    ensures d1.Quanta() < d2.Quanta()
  {
    var (j, k) := (d1.Exponent(), d2.Exponent());
    Pow2Grows(j, k);
    Division.MulLarger(2 * TWO_52, d1.Significand(), Power(2, j));
    assert 2 * TWO_52 * Power(2, j) == TWO_52 * (2 * Power(2, j));
    MulMonotoneRight(TWO_52, 2 * Power(2, j), Power(2, k));
    Division.MulMonotone(TWO_52, d2.Significand(), Power(2, k));
  }

  lemma MulMonotoneRight(n: nat, a: nat, b: nat)
    requires a <= b
    ensures n * a <= n * b
  {}

  // ----- integer part and fraction -----

  /** The unit value 1.0 in quanta. */
  const ONE: nat := 1074

  /** (uint64_t)magnitude */
  function Whole(d: Double): nat {
    if d.Exponent() >= ONE then d.Significand() * Power(2, d.Exponent() - ONE)
    else Division.Quotient(d.Significand(), Power(2, ONE - d.Exponent()))
  }

  /** magnitude - (double)units */
  function Fraction(d: Double): (f: Double)
    requires d.Valid()
    ensures f.Valid()
  {
    if d.Exponent() >= ONE then Double(0, 0)
    else
      RemainderNoMore(d.Significand(), Power(2, ONE - d.Exponent()));
      Normalize(Division.Remainder(d.Significand(), Power(2, ONE - d.Exponent())), d.Exponent())
  }

  lemma RemainderNoMore(n: nat, d: nat)
    requires d > 0
    ensures Division.Remainder(n, d) <= n
  {
    Division.Recompose(n, d);
  }

  /** The subtraction is exact: whole and fraction add up to the value, and the fraction is below one. */
  lemma SplitIsExact(d: Double)
    requires d.Valid()
    ensures Whole(d) * Power(2, ONE) + Fraction(d).Quanta() == d.Quanta() && Fraction(d).Quanta() < Power(2, ONE)
  {
    var (s, k) := (d.Significand(), d.Exponent());
    if k >= ONE {
      PowerAdds(2, k - ONE, ONE);
      Associate(s, Power(2, k - ONE), Power(2, ONE));
    } else {
      SplitBelowOne(s, k);
    }
  }

  lemma Associate(a: nat, b: nat, c: nat)
    ensures a * (b * c) == a * b * c
  {}

  lemma SplitBelowOne(s: nat, k: nat)
    requires s < 2 * TWO_52 && k < ONE
    ensures var (q, r) := (Division.Quotient(s, Power(2, ONE - k)), Division.Remainder(s, Power(2, ONE - k)));
      r < 2 * TWO_52 && q * Power(2, ONE) + Normalize(r, k).Quanta() == s * Power(2, k) && Normalize(r, k).Quanta() < Power(2, ONE)
  {
    var p := Power(2, ONE - k);
    var (q, r) := (Division.Quotient(s, p), Division.Remainder(s, p));
    RemainderNoMore(s, p);
    Division.Recompose(s, p);
    NormalizeKeeps(r, k);
    PowerAdds(2, ONE - k, k);
    Distribute(q, p, r, Power(2, k));
    Division.MulLarger(p, r, Power(2, k));
  }

  lemma Distribute(q: nat, p: nat, r: nat, t: nat)
    ensures (q * p + r) * t == q * (p * t) + r * t
  {}

  /** Converting the integer part back to a double is exact too. */
  lemma WholeIsADouble(d: Double) returns (w: Double)
    requires d.Valid() && d.Exponent() <= 1085
    ensures w.Valid() && w.Quanta() == Whole(d) * Power(2, ONE)
  {
    SplitIsExact(d);
    if d.Exponent() >= ONE {
      w := d;
    } else {
      var q := Division.Quotient(d.Significand(), Power(2, ONE - d.Exponent()));
      Division.Recompose(d.Significand(), Power(2, ONE - d.Exponent()));
      QuotientNoMore(d.Significand(), Power(2, ONE - d.Exponent()));
      NormalizeKeeps(q, ONE);
      w := Normalize(q, ONE);
    }
  }

  lemma QuotientNoMore(n: nat, d: nat)
    requires d > 0
    ensures Division.Quotient(n, d) <= n
  {
    Division.Recompose(n, d);
    MulMonotoneRight(Division.Quotient(n, d), 1, d);
  }

  // ----- rounding -----

  /** num / den to the nearest integer, ties to even: roundTiesToEven of section 4.3.1 of IEEE 754-2008. */
  function RoundHalfEven(num: nat, den: nat): nat
    requires den > 0
  {
    var (q, r) := (Division.Quotient(num, den), Division.Remainder(num, den));
    if 2 * r > den || (2 * r == den && q % 2 == 1) then q + 1 else q
  }

  /** Within half of the quotient, and even when exactly half away. */
  lemma RoundsToNearest(num: nat, den: nat)
    requires den > 0
    ensures var n := RoundHalfEven(num, den);
      && 2 * num <= 2 * (n * den) + den && 2 * (n * den) <= 2 * num + den
      && (2 * num == 2 * (n * den) + den || 2 * (n * den) == 2 * num + den ==> n % 2 == 0)
  {
    var (q, r) := (Division.Quotient(num, den), Division.Remainder(num, den));
    Division.Recompose(num, den);
    assert (q + 1) * den == q * den + den;
  }

  /** The value with k decimals, as an integer count of 10^-k. */
  function Rounded(d: Double, k: nat): nat {
    RoundHalfEven(d.Quanta() * Power(10, k), Power(2, ONE))
  }

  /** The fraction as m / 2^e, the way the source takes it from the bits. */
  function FractionExponent(f: Double): nat
    requires f.Exponent() <= ONE
  {
    ONE - f.Exponent()
  }

  /** A fraction below one has m below 2^53 and 2^e, with e above 52. */
  lemma FractionFits(f: Double)
    requires f.Valid() && f.Quanta() < Power(2, ONE)
    ensures f.Exponent() <= 1021 && FractionExponent(f) > 52
    ensures f.Significand() < Power(2, 53) && f.Significand() < Power(2, FractionExponent(f))
    ensures Power(2, FractionExponent(f)) * Power(2, f.Exponent()) == Power(2, ONE)
  {
    Pow2Of52();
    var k := f.Exponent();
    if k > 1021 {
      Division.MulMonotone(TWO_52, f.Significand(), Power(2, k));
      PowerAdds(2, 52, k);
      Pow2Grows(ONE, 52 + k);
      assert false;
    }
    var e := ONE - k;
    PowerAdds(2, e, k);
    if f.Significand() >= Power(2, e) {
      Division.MulMonotone(Power(2, e), f.Significand(), Power(2, k));
      assert false;
    }
  }

  /** With decimals a and remainder b of m * 10^k by 2^e, the rounded value follows from units, a and b. */
  lemma RoundingByParts(units: nat, m: nat, e: nat, k: nat, t: nat, quanta: nat)
    requires Power(2, e) * t == Power(2, ONE) && t > 0 && m < Power(2, e)
    requires quanta == units * Power(2, ONE) + m * t
    ensures var (a, b) := (Division.Quotient(m * Power(10, k), Power(2, e)), Division.Remainder(m * Power(10, k), Power(2, e)));
      var last := if k > 0 then a else units;
      a < Power(10, k) && RoundHalfEven(quanta * Power(10, k), Power(2, ONE)) ==
        units * Power(10, k) + a + if 2 * b > Power(2, e) || (2 * b == Power(2, e) && last % 2 == 1) then 1 else 0
  {
    RoundingCore(units, m, Power(2, e), Power(10, k), t, Power(2, ONE), quanta);
    Parity(units, Division.Quotient(m * Power(10, k), Power(2, e)), k);
  }

  lemma RoundingCore(units: nat, m: nat, p: nat, c: nat, t: nat, one: nat, quanta: nat)
    requires p * t == one > 0 && t > 0 && m < p && c > 0 && quanta == units * one + m * t
    ensures var (a, b) := (Division.Quotient(m * c, p), Division.Remainder(m * c, p));
      a < c && RoundHalfEven(quanta * c, one) ==
        units * c + a + if 2 * b > p || (2 * b == p && (units * c + a) % 2 == 1) then 1 else 0
  {
    var (a, b) := (Division.Quotient(m * c, p), Division.Remainder(m * c, p));
    Division.Recompose(m * c, p);
    DecimalsFit(m, c, p, a, b);
    Regroup(units, m, c, a, b, p, t);
    RoundsTo(quanta * c, units * c + a, b, p, t);
  }

  /** A number with quotient q and remainder b * t by p * t rounds as q and b do by p. */
  lemma RoundsTo(num: nat, q: nat, b: nat, p: nat, t: nat)
    requires num == q * (p * t) + b * t && b < p && t > 0 && p * t > 0
    ensures RoundHalfEven(num, p * t) == q + if 2 * b > p || (2 * b == p && q % 2 == 1) then 1 else 0
  {
    Division.MulLarger(p, b, t);
    Division.Unique(num, p * t, q, b * t);
    Scale(b, p, t);
  }

  lemma DecimalsFit(m: nat, c: nat, p: nat, a: nat, b: nat)
    requires m < p && c > 0 && m * c == a * p + b
    ensures a < c
  {
    Division.MulLarger(p, m, c);
    Commute(c, p);
    if a >= c {
      Division.MulMonotone(c, a, p);
      assert false;
    }
  }

  lemma Commute(a: nat, b: nat)
    ensures a * b == b * a
  {}

  lemma Regroup(units: nat, m: nat, c: nat, a: nat, b: nat, p: nat, t: nat)
    requires m * c == a * p + b
    ensures (units * (p * t) + m * t) * c == (units * c + a) * (p * t) + b * t
  {
    assert (units * (p * t) + m * t) * c == units * (p * t) * c + m * c * t;
    assert m * c * t == a * p * t + b * t;
    assert units * (p * t) * c == units * c * (p * t);
    assert (units * c + a) * (p * t) == units * c * (p * t) + a * (p * t);
    assert a * (p * t) == a * p * t;
  }

  /** Comparing with a half is the same before and after scaling. */
  lemma Scale(b: nat, p: nat, t: nat)
    requires t > 0
    ensures 2 * (b * t) > p * t <==> 2 * b > p
    ensures 2 * (b * t) == p * t <==> 2 * b == p
  {
    if 2 * b > p {
      Division.MulLarger(2 * b, p, t);
    } else if 2 * b < p {
      Division.MulLarger(p, 2 * b, t);
    }
  }

  /** The last digit's parity is that of the decimals, or of the units when there are none. */
  lemma Parity(units: nat, a: nat, k: nat)
    requires a < Power(10, k)
    ensures (units * Power(10, k) + a) % 2 == (if k > 0 then a else units) % 2
  {
    if k > 0 {
      EvenMultiple(units, Power(10, k - 1), a);
    }
  }

  lemma EvenMultiple(u: nat, x: nat, a: nat)
    ensures (u * (10 * x) + a) % 2 == a % 2
  {
    assert u * (10 * x) == 2 * (5 * (u * x));
  }

  // ----- the computation of the source -----

  lemma ProductFits(m: nat, k: nat)
    requires m < Power(2, 53) && k <= 19
    ensures m * Power(10, k) < Power(2, 117)
  {
    Pow10Fits(k);
    Pow2Of52();
    BoundedProduct(m, Power(10, k), Power(2, 53), Power(2, 64));
  }

  lemma BoundedProduct(m: nat, c: nat, p: nat, q: nat)
    requires m < p && c < q
    ensures m * c < p * q
  {
    Division.MulMonotone(m, p, c);
    Division.MulLarger(q, c, p);
    Commute(p, c);
    Commute(p, q);
  }

  /** e >= 128: the scaled fraction is far below one half, so it leaves no decimals and does not round up. */
  lemma TinyFraction(product: nat, e: nat)
    requires product < Power(2, 117) && e >= 128
    ensures Division.Quotient(product, Power(2, e)) == 0 && 2 * Division.Remainder(product, Power(2, e)) < Power(2, e)
  {
    Pow2Grows(117, e);
    Division.Unique(product, Power(2, e), 0, product);
  }

  /** Whether the remainder b of a division by one rounds the quotient up; last is the digit the tie looks at. */
  predicate RoundsUp(b: nat, one: nat, last: nat) {
    2 * b > one || (2 * b == one && last % 2 == 1)
  }

  /** The fraction's significand scaled by 10^k: m * 10^k of the source. */
  function Product(d: Double, k: nat): nat
    requires d.Valid()
  {
    Fraction(d).Significand() * Power(10, k)
  }

  /** The rounded value, from the integer part and the fraction's bits. */
  lemma RoundedByParts(d: Double, k: nat)
    requires d.Valid() && k <= 19
    ensures Fraction(d).Exponent() <= 1021 && FractionExponent(Fraction(d)) > 52
    ensures Product(d, k) < Power(2, 117)
    ensures var one := Power(2, FractionExponent(Fraction(d)));
      var (a, b) := (Division.Quotient(Product(d, k), one), Division.Remainder(Product(d, k), one));
      && a < Power(10, k)
      && Rounded(d, k) == Whole(d) * Power(10, k) + a + if RoundsUp(b, one, if k > 0 then a else Whole(d)) then 1 else 0
  {
    SplitIsExact(d);
    var f := Fraction(d);
    FractionFits(f);
    ProductFits(f.Significand(), k);
    RoundingByParts(Whole(d), f.Significand(), FractionExponent(f), k, Power(2, f.Exponent()), d.Quanta());
  }

  /** Below 2^64 the integer part fits in 64 bits, and a value with a fraction is far below 2^64. */
  lemma WholeFits(d: Double)
    requires d.Valid() && d.Quanta() < Power(2, ONE + 64)
    ensures Whole(d) < 0x1_0000_0000_0000_0000
    ensures Fraction(d).Quanta() != 0 ==> Whole(d) < Power(2, 53) < 0x1_0000_0000_0000_0000
  {
    SplitIsExact(d);
    PowerAdds(2, ONE, 64);
    Pow2Of52();
    if Whole(d) >= Power(2, 64) {
      Division.MulMonotone(Power(2, 64), Whole(d), Power(2, ONE));
      Commute(Power(2, 64), Power(2, ONE));
      assert false;
    }
    if d.Exponent() < ONE {
      QuotientNoMore(d.Significand(), Power(2, ONE - d.Exponent()));
    }
  }

  /** units and decimals, rounded; every product and sum stays inside its integer type. */
  method ComputeDecimals(d: Double, precision: nat) returns (units: nat, decimals: nat, computed: nat)
    requires d.Valid() && d.Quanta() < Power(2, ONE + 64)
    ensures computed == if precision < 19 then precision else 19
    ensures decimals < Power(10, computed) < 0x1_0000_0000_0000_0000 && units < 0x1_0000_0000_0000_0000
    ensures units * Power(10, computed) + decimals == Rounded(d, computed)
  {
    computed := if precision < 19 then precision else 19;
    Pow10Fits(computed);
    WholeFits(d);
    RoundedByParts(d, computed);
    units := Whole(d);
    var fraction := Fraction(d);
    decimals := 0;
    var roundUp := false;
    if fraction.Quanta() != 0 {
      decimals, roundUp := ScaleFraction(Product(d, computed), FractionExponent(fraction), units, computed);
    } else {
      ZeroFraction(d, computed);
    }
    units, decimals := Carry(units, decimals, roundUp, computed);
  }

  /** Rounding up may carry into the units. */
  method Carry(units: nat, decimals: nat, roundUp: bool, k: nat) returns (units': nat, decimals': nat)
    requires decimals < Power(10, k)
    ensures decimals' < Power(10, k) && units' * Power(10, k) + decimals' == units * Power(10, k) + decimals + if roundUp then 1 else 0
    ensures units <= units' <= units + if roundUp then 1 else 0
  {
    units', decimals' := units, decimals;
    if roundUp {
      decimals' := decimals' + 1;
      if decimals' == Power(10, k) {
        decimals' := 0;
        units' := units' + 1;
      }
    }
  }

  lemma ZeroFraction(d: Double, k: nat)
    requires d.Valid() && Fraction(d).Quanta() == 0 && Fraction(d).Exponent() <= ONE
    ensures var one := Power(2, FractionExponent(Fraction(d)));
      Division.Quotient(Product(d, k), one) == 0 && Division.Remainder(Product(d, k), one) == 0
  {
    var f := Fraction(d);
    SameFactor(f.Significand(), 0, Power(2, f.Exponent()));
    Division.Unique(0, Power(2, FractionExponent(f)), 0, 0);
  }

  lemma PowerIsEven(e: nat)
    requires e > 0
    ensures Power(2, e) == 2 * (Power(2, e) / 2)
  {
    var p := Power(2, e - 1);
    Halves(Power(2, e), p);
  }

  lemma Halves(n: nat, p: nat)
    requires n == 2 * p
    ensures n / 2 == p
  {}

  lemma HalfDecides(remainder: nat, one: nat, half: nat, last: nat)
    requires one == 2 * half
    ensures RoundsUp(remainder, one, last) <==> remainder > half || (remainder == half && last % 2 != 0)
  {}

  /** The scaled fraction product / 2^e in 128-bit integers, and whether it rounds up. */
  method ScaleFraction(product: nat, e: nat, units: nat, k: nat) returns (decimals: nat, roundUp: bool)
    requires product < Power(2, 117) && e > 52
    ensures decimals == Division.Quotient(product, Power(2, e))
    ensures roundUp <==> RoundsUp(Division.Remainder(product, Power(2, e)), Power(2, e), if k > 0 then decimals else units)
  {
    if e < 128 {
      var one := Power(2, e);
      var remainder := Division.Remainder(product, one);
      var half := one / 2;
      PowerIsEven(e);
      decimals := Division.Quotient(product, one);
      var lastDigit := if k > 0 then decimals else units;
      HalfDecides(remainder, one, half, lastDigit);
      roundUp := remainder > half || (remainder == half && lastDigit % 2 != 0);
    } else {
      TinyFraction(product, e);
      decimals, roundUp := 0, false;
    }
  }

  // ----- text -----

  /** The k lowest decimal digits of n, leading zeros included. */
  function Padded(n: nat, k: nat): (digits: seq<nat>)
    ensures |digits| == k && forall i :: 0 <= i < k ==> digits[i] < 10
  {
    if k == 0 then [] else Padded(n / 10, k - 1) + [n % 10]
  }

  lemma {:induction false} PaddedReadsBack(n: nat, k: nat)
    requires n < Power(10, k)
    ensures ReadBack(Padded(n, k), 10) == n
  {
    if k > 0 {
      PaddedReadsBack(n / 10, k - 1);
      assert Padded(n, k)[..k - 1] == Padded(n / 10, k - 1);
    }
  }

  /** The source's loop takes digit j as (n / 10^(k-1-j)) % 10. */
  lemma {:induction false} PaddedDigit(n: nat, k: nat, j: nat)
    requires j < k
    ensures Padded(n, k)[j] == Division.Quotient(n, Power(10, k - 1 - j)) % 10
  {
    if j < k - 1 {
      PaddedDigit(n / 10, k - 1, j);
      DivideTwice(n, Power(10, k - 2 - j));
    } else {
      Division.Unique(n, 1, n, 0);
    }
  }

  lemma DivideTwice(n: nat, p: nat)
    requires p > 0
    ensures Division.Quotient(n / 10, p) == Division.Quotient(n, 10 * p)
  {
    var (q, r) := (Division.Quotient(n / 10, p), Division.Remainder(n / 10, p));
    Division.Recompose(n / 10, p);
    assert n == q * (10 * p) + (10 * r + n % 10);
    Division.Unique(n, 10 * p, q, 10 * r + n % 10);
  }

  datatype Magnitude = NaN | Infinite | Finite(d: Double)

  function DecimalText(n: nat, k: nat): string {
    DigitText(Padded(n, k), LOWER_CASE_DIGITS)
  }

  /** The rounded value n, a count of 10^-k, with precision decimals of which k are computed and the rest zeros. */
  function FloatNumber(isNegative: bool, n: nat, k: nat, precision: nat, o: Options): Number
    requires k <= precision
  {
    var whole := Rendered(Division.Quotient(n, Power(10, k)), 10, LOWER_CASE_DIGITS);
    if precision == 0 then Number(SignText(isNegative, o), "", whole, 0, 0, 0, true)
    else
      Number(SignText(isNegative, o), "", whole + "." + DecimalText(Division.Remainder(n, Power(10, k)), k),
             |whole|, 0, precision - k, true)
  }

  function NotFinite(text: string, isNegative: bool, o: Options): Number {
    Number(SignText(isNegative, o), "", text, 0, 0, 0, false)
  }

  function FloatLayout(isNegative: bool, magnitude: Magnitude, o: Options): string
    requires magnitude.Finite? ==> magnitude.d.Valid()
  {
    match magnitude
    case NaN => Layout(NotFinite("nan", isNegative, o), o)
    case Infinite => Layout(NotFinite("inf", isNegative, o), o)
    case Finite(d) =>
      var precision := o.precision.GetOr(0);
      var k := if precision < 19 then precision else 19;
      Layout(FloatNumber(isNegative, Rounded(d, k), k, precision, o), o)
  }

  /**
    A text of digits; with a precision, a point after the first `point` characters and that many digits behind it.
    Its integer part w and the number f in the first k decimals make n, a count of 10^-k, and the rest are zeros.
   */
  predicate ReadsAs(text: string, point: nat, n: nat, k: nat, precision: nat)
    requires k <= precision
  {
    && 0 < point && |text| == (if precision > 0 then point + 1 + precision else point)
    && AllDigits(text[..point], 10) && (text[0] == '0' ==> point == 1)
    && if precision == 0 then ReadText(text, 10) == n
       else
         && text[point] == '.' && AllDigits(text[point + 1..], 10)
         && ReadText(text[..point], 10) * Power(10, k) + ReadText(text[point + 1..point + 1 + k], 10) == n
         && forall i :: point + 1 + k <= i < |text| ==> text[i] == '0'
  }

  lemma WholeOnlyReads(isNegative: bool, n: nat, o: Options)
    ensures var text := Body(FloatNumber(isNegative, n, 0, 0, o)); ReadsAs(text, |text|, n, 0, 0)
  {
    Division.Unique(n, 1, n, 0);
    RenderedReads(n, 10, LOWER_CASE_DIGITS);
    var (text, whole) := (Body(FloatNumber(isNegative, n, 0, 0, o)), Rendered(n, 10, LOWER_CASE_DIGITS));
    assert text == whole && text[..|text|] == text;
  }

  lemma TextParts(whole: string, decimals: string, zeros: nat, text: string)
    requires text == whole + "." + decimals + Repeat('0', zeros)
    ensures |text| == |whole| + 1 + |decimals| + zeros && text[..|whole|] == whole && text[|whole|] == '.'
    ensures text[|whole| + 1..|whole| + 1 + |decimals|] == decimals && text[|whole| + 1..] == decimals + Repeat('0', zeros)
    ensures forall i :: |whole| + 1 + |decimals| <= i < |text| ==> text[i] == '0'
  {}

  lemma PartsRead(whole: string, decimals: string, text: string, n: nat, k: nat, precision: nat)
    requires |decimals| == k <= precision && precision > 0 && text == whole + "." + decimals + Repeat('0', precision - k)
    requires whole != [] && AllDigits(whole, 10) && (whole[0] == '0' ==> whole == "0") && AllDigits(decimals, 10)
    requires ReadText(whole, 10) * Power(10, k) + ReadText(decimals, 10) == n
    ensures ReadsAs(text, |whole|, n, k, precision)
  {
    TextParts(whole, decimals, precision - k, text);
    assert AllDigits(text[|whole| + 1..], 10);
    assert text[0] == whole[0];
  }

  lemma DecimalsRead(isNegative: bool, n: nat, k: nat, precision: nat, o: Options)
    requires k <= precision && precision > 0
    ensures var text := Body(FloatNumber(isNegative, n, k, precision, o));
      ReadsAs(text, |Rendered(Division.Quotient(n, Power(10, k)), 10, LOWER_CASE_DIGITS)|, n, k, precision)
  {
    var (units, decimals) := (Division.Quotient(n, Power(10, k)), Division.Remainder(n, Power(10, k)));
    var (whole, fraction) := (Rendered(units, 10, LOWER_CASE_DIGITS), DecimalText(decimals, k));
    RenderedReads(units, 10, LOWER_CASE_DIGITS);
    DigitsAsText(Padded(decimals, k), 10, LOWER_CASE_DIGITS);
    PaddedReadsBack(decimals, k);
    Division.Recompose(n, Power(10, k));
    var number := FloatNumber(isNegative, n, k, precision, o);
    BodyParts(number, whole, fraction);
    PartsRead(whole, fraction, Body(number), n, k, precision);
  }

  lemma BodyParts(number: Number, whole: string, fraction: string)
    requires number.digits == whole + "." + fraction && number.fractionStart == |whole| > 0 && number.integerZeros == 0
    ensures Body(number) == whole + "." + fraction + Repeat('0', number.trailingZeros)
  {
    assert number.digits[..|whole|] == whole && number.digits[|whole|..] == "." + fraction;
  }

  lemma NumberReads(d: Double, isNegative: bool, precision: nat, o: Options) returns (point: nat)
    requires d.Valid()
    ensures var k := if precision < 19 then precision else 19;
      ReadsAs(Body(FloatNumber(isNegative, Rounded(d, k), k, precision, o)), point, Rounded(d, k), k, precision)
  {
    var k := if precision < 19 then precision else 19;
    if precision == 0 {
      WholeOnlyReads(isNegative, Rounded(d, 0), o);
      point := |Body(FloatNumber(isNegative, Rounded(d, 0), 0, 0, o))|;
    } else {
      DecimalsRead(isNegative, Rounded(d, k), k, precision, o);
      point := |Rendered(Division.Quotient(Rounded(d, k), Power(10, k)), 10, LOWER_CASE_DIGITS)|;
    }
  }

  /**
    What is laid out for a finite value reads as the value rounded half to even at min(precision, 19) decimals,
    in digits, point and zeros; the precision is zero when none is asked for.
   */
  lemma FloatReadsBack(d: Double, isNegative: bool, o: Options) returns (number: Number, point: nat)
    requires d.Valid()
    ensures FractionStart(number) <= |number.digits| && FloatLayout(isNegative, Finite(d), o) == Layout(number, o)
    ensures number.finite && Natural(number) == SignText(isNegative, o) + Body(number)
    ensures var precision := if o.precision.Some? then o.precision.value else 0;
      var k := if precision < 19 then precision else 19;
      ReadsAs(Body(number), point, Rounded(d, k), k, precision)
  {
    var precision := o.precision.GetOr(0);
    var k := if precision < 19 then precision else 19;
    number := FloatNumber(isNegative, Rounded(d, k), k, precision, o);
    point := NumberReads(d, isNegative, precision, o);
    assert number.sign + number.prefix == number.sign;
  }

  /** The text behind as many spaces as the width still asks for. */
  function Spaced(text: string, width: Option<nat>): string {
    if width.Some? && width.value > |text| then Repeat(' ', width.value - |text|) + text else text
  }

  /** Infinities and NaNs are three letters behind the sign; where a number would have zeros in front, they have spaces. */
  lemma NotFiniteReads(isNegative: bool, o: Options)
    requires o.width.None? || o.IsZeroFill()
    ensures FloatLayout(isNegative, NaN, o) == Spaced(SignText(isNegative, o) + "nan", o.width)
    ensures FloatLayout(isNegative, Infinite, o) == Spaced(SignText(isNegative, o) + "inf", o.width)
  {
    NamedReads("nan", isNegative, o);
    NamedReads("inf", isNegative, o);
  }

  lemma NamedReads(name: string, isNegative: bool, o: Options)
    requires o.width.None? || o.IsZeroFill()
    ensures Layout(NotFinite(name, isNegative, o), o) == Spaced(SignText(isNegative, o) + name, o.width)
  {
    var (number, text) := (NotFinite(name, isNegative, o), SignText(isNegative, o) + name);
    assert Natural(number) == text;
    if FillCount(number, o) == 0 {
      assert Layout(number, o) == text;
    }
  }

  /** FloatToString, for finite magnitudes below 2^64. */
  method FloatToString(buffer: Buffer, isNegative: bool, magnitude: Magnitude, o: Options)
    requires buffer.Valid() && (magnitude.Finite? ==> magnitude.d.Valid() && magnitude.d.Quanta() < Power(2, ONE + 64))
    modifies buffer
    ensures buffer.Valid() && buffer.written == old(buffer.written) + FloatLayout(isNegative, magnitude, o)
  {
    match magnitude
    case NaN => EmitNumber(buffer, NotFinite("nan", isNegative, o), o);
    case Infinite => EmitNumber(buffer, NotFinite("inf", isNegative, o), o);
    case Finite(d) =>
      var precision := o.precision.GetOr(0);
      var units, decimals, k := ComputeDecimals(d, precision);
      Division.Unique(Rounded(d, k), Power(10, k), units, decimals);
      var digits, fractionStart := RenderFloat(units, decimals, k, precision);
      EmitNumber(buffer, Number(SignText(isNegative, o), "", digits, fractionStart, 0, if precision > 0 then precision - k else 0, true), o);
  }

  lemma TwentyDigits(n: nat)
    requires n < 0x1_0000_0000_0000_0000
    ensures |Digits(n, 10)| <= 20
  {
    Pow10Fits(19);
    assert Power(10, 4) == 10_000 && Power(10, 8) == 100_000_000 && Power(10, 12) == 1_000_000_000_000;
    assert Power(10, 16) == 10_000_000_000_000_000 && Power(10, 20) == 100_000_000_000_000_000_000;
    DigitCount(n, 10, 20);
  }

  /** Units, point and decimals into the digits array, which never fills up. */
  method RenderFloat(units: nat, decimals: nat, k: nat, precision: nat) returns (digits: string, fractionStart: nat)
    requires units < 0x1_0000_0000_0000_0000 && k <= 19 && k <= precision
    ensures var whole := Rendered(units, 10, LOWER_CASE_DIGITS);
      if precision == 0 then digits == whole && fractionStart == 0
      else digits == whole + "." + DecimalText(decimals, k) && fractionStart == |whole|
  {
    ghost var whole := Rendered(units, 10, LOWER_CASE_DIGITS);
    TwentyDigits(units);
    var number := new DigitBuffer();
    number.AppendDigits(units, 10, LOWER_CASE_DIGITS);
    assert number.Text() == whole;
    fractionStart := 0;
    if precision > 0 {
      fractionStart := number.length;
      number.PushBack('.');
      assert number.Text() == whole + ".";
      RenderDecimals(number, decimals, k);
    }
    digits := number.digits[..number.length];
  }

  /** The loop over the k decimal places. */
  method RenderDecimals(number: DigitBuffer, decimals: nat, k: nat)
    requires number.Valid() && number.length + k <= number.digits.Length
    modifies number, number.digits
    ensures number.Valid()
    ensures number.Text() == old(number.Text()) + DecimalText(decimals, k)
  {
    ghost var (before, text) := (number.Text(), DecimalText(decimals, k));
    var i := k;
    while i > 0
      invariant 0 <= i <= k && number.Valid()
      invariant number.Text() == before + text[..k - i]
    {
      PaddedDigit(decimals, k, k - i);
      number.PushBack(LOWER_CASE_DIGITS[Division.Quotient(decimals, Power(10, i - 1)) % 10]);
      assert text[..k - i] + [text[k - i]] == text[..k - i + 1];
      i := i - 1;
    }
    assert text[..k] == text;
  }
}
