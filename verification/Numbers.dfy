/** Positional digits: rendering most significant first, and reading back. */
module Numbers {
  import Division

  /** The 36 conversion digits: 0 to 9, then 26 letters from firstLetter on. */
  function DigitTable(firstLetter: char): (table: string)
    requires firstLetter == 'a' || firstLetter == 'A'
    ensures |table| == 36
  {
    seq(36, i requires 0 <= i < 36 => if i < 10 then (i + 48) as char else (i - 10 + firstLetter as int) as char)
  }

  const LOWER_CASE_DIGITS: string := DigitTable('a')
  const UPPER_CASE_DIGITS: string := DigitTable('A')

  /** A table of 36 different characters, one per digit. */
  ghost predicate IsTable(table: string) {
    |table| == 36 && forall i, j :: 0 <= i < j < 36 ==> table[i] != table[j]
  }

  lemma TablesAreTables()
    ensures IsTable(LOWER_CASE_DIGITS) && IsTable(UPPER_CASE_DIGITS)
  {}

  /** The digits of n, most significant first; zero has one digit. */
  function Digits(n: nat, base: nat): (digits: seq<nat>)
    requires base >= 2
    ensures digits != [] && forall i :: 0 <= i < |digits| ==> digits[i] < base
    decreases n
  {
    if n < base then [n]
    else
      Division.Shrinks(n, base);
      Digits(Division.Quotient(n, base), base) + [Division.Remainder(n, base)]
  }

  function ReadBack(digits: seq<nat>, base: nat): nat {
    if digits == [] then 0 else ReadBack(digits[..|digits| - 1], base) * base + digits[|digits| - 1]
  }

  lemma {:induction false} DigitsReadBack(n: nat, base: nat)
    requires base >= 2
    ensures ReadBack(Digits(n, base), base) == n
    decreases n
  {
    if n >= base {
      Division.Shrinks(n, base);
      DigitsReadBack(Division.Quotient(n, base), base);
      assert Digits(n, base)[..|Digits(n, base)| - 1] == Digits(Division.Quotient(n, base), base);
      Division.Recompose(n, base);
    } else {
      assert ReadBack([n], base) == ReadBack([], base) * base + n;
    }
  }

  function Power(base: nat, k: nat): (p: nat)
    requires base > 0
    ensures p > 0
  {
    if k == 0 then 1 else base * Power(base, k - 1)
  }

  /** A number below base^k has at most k digits. */
  lemma {:induction false} DigitCount(n: nat, base: nat, k: nat)
    requires base >= 2 && k > 0 && n < Power(base, k)
    ensures |Digits(n, base)| <= k
    decreases k
  {
    if n >= base {
      Division.Shrinks(n, base);
      if k > 1 {
        BelowAfterDivision(n, base, Power(base, k - 1));
        DigitCount(Division.Quotient(n, base), base, k - 1);
      }
    }
  }

  lemma BelowAfterDivision(n: nat, base: nat, p: nat)
    requires base > 0 && n < base * p
    ensures Division.Quotient(n, base) < p
  {
    Division.Recompose(n, base);
    if Division.Quotient(n, base) >= p {
      Division.MulMonotone(p, Division.Quotient(n, base), base);
      assert false;
    }
  }

  lemma {:induction false} PowerGrows(low: nat, high: nat, k: nat)
    requires 0 < low <= high
    ensures Power(low, k) <= Power(high, k)
  {
    if k > 0 {
      PowerGrows(low, high, k - 1);
      Division.MulMonotone(Power(low, k - 1), Power(high, k - 1), low);
      Division.MulMonotone(low, high, Power(high, k - 1));
    }
  }

  lemma TwoToThe64()
    ensures Power(2, 64) == 0x1_0000_0000_0000_0000
  {
    assert Power(2, 8) == 0x100;
    PowerAdds(2, 8, 8);
    PowerAdds(2, 16, 16);
    PowerAdds(2, 32, 32);
  }

  lemma {:induction false} PowerAdds(base: nat, j: nat, k: nat)
    requires base > 0
    ensures Power(base, j + k) == Power(base, j) * Power(base, k)
  {
    if j > 0 {
      PowerAdds(base, j - 1, k);
      assert Power(base, j + k) == base * Power(base, j - 1 + k);
      assert base * (Power(base, j - 1) * Power(base, k)) == base * Power(base, j - 1) * Power(base, k);
    } else {
      assert Power(base, 0) == 1;
    }
  }

  /** 64-bit magnitudes have at most 64 digits in any base. */
  lemma At64Digits(n: nat, base: nat)
    requires base >= 2 && n < 0x1_0000_0000_0000_0000
    ensures |Digits(n, base)| <= 64
  {
    TwoToThe64();
    PowerGrows(2, base, 64);
    DigitCount(n, base, 64);
  }

  // ----- as text -----

  function DigitText(digits: seq<nat>, table: string): (text: string)
    requires |table| == 36 && forall i :: 0 <= i < |digits| ==> digits[i] < 36
    ensures |text| == |digits| && forall i :: 0 <= i < |digits| ==> text[i] == table[digits[i]]
  {
    seq(|digits|, i requires 0 <= i < |digits| => table[digits[i]])
  }

  function Rendered(n: nat, base: nat, table: string): string
    requires 2 <= base <= 36 && |table| == 36
  {
    DigitText(Digits(n, base), table)
  }

  // ----- reading text -----

  /** What a character stands for as a digit; 36 when it is none. */
  function CharValue(c: char): (v: nat)
    ensures v <= 36
  {
    if '0' <= c <= '9' then c as int - '0' as int
    else if 'a' <= c <= 'z' then c as int - 'a' as int + 10
    else if 'A' <= c <= 'Z' then c as int - 'A' as int + 10
    else 36
  }

  predicate AllDigits(text: string, base: nat) {
    forall i :: 0 <= i < |text| ==> CharValue(text[i]) < base
  }

  /** The value of a text of digits. */
  function ReadText(text: string, base: nat): nat {
    if text == [] then 0 else ReadText(text[..|text| - 1], base) * base + CharValue(text[|text| - 1])
  }

  predicate IsConversionTable(table: string) {
    table == LOWER_CASE_DIGITS || table == UPPER_CASE_DIGITS
  }

  lemma TableCharacter(table: string, i: nat)
    requires IsConversionTable(table) && i < 36
    ensures CharValue(table[i]) == i && (table[i] == '0' <==> i == 0)
    ensures if i < 10 then '0' <= table[i] <= '9'
      else if table == LOWER_CASE_DIGITS then 'a' <= table[i] <= 'z' else 'A' <= table[i] <= 'Z'
  {}

  lemma {:induction false} DigitsAsText(digits: seq<nat>, base: nat, table: string)
    requires base <= 36 && IsConversionTable(table) && forall i :: 0 <= i < |digits| ==> digits[i] < base
    ensures AllDigits(DigitText(digits, table), base) && ReadText(DigitText(digits, table), base) == ReadBack(digits, base)
  {
    var text := DigitText(digits, table);
    forall i | 0 <= i < |text| ensures CharValue(text[i]) < base {
      TableCharacter(table, digits[i]);
    }
    if digits != [] {
      var last := |digits| - 1;
      DigitsAsText(digits[..last], base, table);
      assert text[..last] == DigitText(digits[..last], table);
      TableCharacter(table, digits[last]);
    }
  }

  /** A rendered number reads as that number, and starts with a zero only when it is zero. */
  lemma RenderedReads(n: nat, base: nat, table: string)
    requires 2 <= base <= 36 && IsConversionTable(table)
    ensures var text := Rendered(n, base, table);
      text != [] && AllDigits(text, base) && ReadText(text, base) == n && (text[0] == '0' ==> text == "0")
  {
    DigitsAsText(Digits(n, base), base, table);
    DigitsReadBack(n, base);
    NoLeadingZero(n, base);
    TableCharacter(table, Digits(n, base)[0]);
    if n == 0 {
      assert Rendered(n, base, table) == [table[0]] == "0";
    }
  }

  lemma {:induction false} NoLeadingZero(n: nat, base: nat)
    requires base >= 2
    ensures Digits(n, base)[0] == 0 <==> n == 0
    decreases n
  {
    if n >= base {
      Division.Shrinks(n, base);
      NoLeadingZero(Division.Quotient(n, base), base);
      Division.Recompose(n, base);
    }
  }

  /** A rendering determines the number: the table's characters stand for different digits. */
  lemma RenderedIsInjective(m: nat, n: nat, base: nat, table: string)
    requires 2 <= base <= 36 && IsTable(table) && Rendered(m, base, table) == Rendered(n, base, table)
    ensures m == n
  {
    var (a, b) := (Digits(m, base), Digits(n, base));
    assert |a| == |Rendered(m, base, table)| == |b|;
    forall i | 0 <= i < |a| ensures a[i] == b[i] {
      assert table[a[i]] == Rendered(m, base, table)[i] == table[b[i]];
    }
    assert a == b;
    DigitsReadBack(m, base);
    DigitsReadBack(n, base);
  }
}
