/**
  Numbers as text: digits are rendered into a small array, most significant first, and then emitted with
  sign, prefix, fill and counted runs of zeros into a bounded buffer.
 */
module NumberFormat {
  import opened Wrappers
  import opened FormatOptions
  import opened TextBuffer
  import opened Numbers
  import Division

  const CAPACITY: nat := 80

  /** The source's numeric_text once rendered; digits from fractionStart on follow the integer zeros. */
  datatype Number = Number(
    sign: string,
    prefix: string,
    digits: string,
    fractionStart: nat,
    integerZeros: nat,
    trailingZeros: nat,
    finite: bool)

  // ----- the layout of a number -----

  function FractionStart(number: Number): nat {
    if number.fractionStart > 0 then number.fractionStart else |number.digits|
  }

  /** Digits, the zeros the integer part ends with, the fraction and its zeros. */
  function Body(number: Number): string
    requires FractionStart(number) <= |number.digits|
  {
    number.digits[..FractionStart(number)] + Repeat('0', number.integerZeros)
    + number.digits[FractionStart(number)..] + Repeat('0', number.trailingZeros)
  }

  /** The number without fill. */
  function Natural(number: Number): string
    requires FractionStart(number) <= |number.digits|
  {
    number.sign + number.prefix + Body(number)
  }

  function FillCount(number: Number, o: Options): nat
    requires FractionStart(number) <= |number.digits|
  {
    if o.width.Some? && o.width.value > |Natural(number)| then o.width.value - |Natural(number)| else 0
  }

  function FillChar(o: Options): char {
    if o.fill.Some? && !o.IsZeroFill() then o.fill.value else ' '
  }

  /** Zeros go between sign and digits; other fill goes in front for right, on both sides for center, else after. */
  function Layout(number: Number, o: Options): string
    requires FractionStart(number) <= |number.digits|
  {
    var count := FillCount(number, o);
    if o.IsZeroFill() && number.finite then number.sign + number.prefix + Repeat('0', count) + Body(number)
    else if o.IsZeroFill() || o.alignment == Some(Right) then Repeat(FillChar(o), count) + Natural(number)
    else if o.alignment == Some(Center) then Repeat(FillChar(o), count / 2) + Natural(number) + Repeat(FillChar(o), count - count / 2)
    else Natural(number) + Repeat(FillChar(o), count)
  }

  /** The field is as wide as the number or the width asked for, whichever is more. */
  lemma LayoutLength(number: Number, o: Options)
    requires FractionStart(number) <= |number.digits|
    ensures |Layout(number, o)| == if o.width.Some? && o.width.value > |Natural(number)| then o.width.value else |Natural(number)|
  {}

  /** Fill never splits the number, unless it is zeros between sign and digits; a center's odd one goes after. */
  lemma LayoutShape(number: Number, o: Options)
    requires FractionStart(number) <= |number.digits|
    ensures !(o.IsZeroFill() && number.finite) ==>
      var count := FillCount(number, o);
      var before := if o.IsZeroFill() || o.alignment == Some(Right) then count else if o.alignment == Some(Center) then count / 2 else 0;
      Layout(number, o)[before..before + |Natural(number)|] == Natural(number)
      && forall i :: 0 <= i < |Layout(number, o)| && !(before <= i < before + |Natural(number)|) ==>
           Layout(number, o)[i] == if o.fill.None? || o.IsZeroFill() then ' ' else o.fill.value
    ensures o.IsZeroFill() && number.finite ==>
      var start := |number.sign| + |number.prefix|;
      && Layout(number, o)[..start] == number.sign + number.prefix
      && Layout(number, o)[start + FillCount(number, o)..] == Body(number)
      && forall i :: start <= i < start + FillCount(number, o) ==> Layout(number, o)[i] == '0'
  {}

  // ----- emitting -----

  /** EmitNumber: a buffer that fills up holds exactly the prefix of the whole field. */
  method EmitNumber(buffer: Buffer, number: Number, o: Options)
    requires buffer.Valid() && FractionStart(number) <= |number.digits|
    modifies buffer
    ensures buffer.Valid() && buffer.written == old(buffer.written) + Layout(number, o)
  {
    var numberLength := |number.sign| + |number.prefix| + |number.digits| + number.integerZeros + number.trailingZeros;
    assert numberLength == |Natural(number)|;
    var fillBefore, zeroFill, fillAfter := 0, 0, 0;
    if o.width.Some? && o.width.value > numberLength {
      var fillCount := o.width.value - numberLength;
      if o.IsZeroFill() && number.finite {
        zeroFill := fillCount;
      } else if o.IsZeroFill() || o.alignment == Some(Right) {
        fillBefore := fillCount;
      } else if o.alignment == Some(Center) {
        fillBefore := fillCount / 2;
        fillAfter := fillCount - fillBefore;
      } else {
        fillAfter := fillCount;
      }
    }
    var fill := if o.fill.Some? && !o.IsZeroFill() then o.fill.value else ' ';
    EmitParts(buffer, number, fill, fillBefore, zeroFill, fillAfter);
    LayoutIsParts(number, o, fillBefore, zeroFill, fillAfter);
  }

  /** digits[from..to), one character at a time. */
  method EmitDigits(buffer: Buffer, digits: string, from: nat, to: nat)
    requires buffer.Valid() && from <= to <= |digits|
    modifies buffer
    ensures buffer.Valid() && buffer.written == old(buffer.written) + digits[from..to]
  {
    var i := from;
    while i < to
      invariant from <= i <= to && buffer.Valid() && buffer.written == old(buffer.written) + digits[from..i]
    {
      buffer.PushBack(digits[i]);
      assert old(buffer.written) + digits[from..i] + [digits[i]] == old(buffer.written) + digits[from..i + 1];
      i := i + 1;
    }
  }

  method EmitBody(buffer: Buffer, number: Number)
    requires buffer.Valid() && FractionStart(number) <= |number.digits|
    modifies buffer
    ensures buffer.Valid() && buffer.written == old(buffer.written) + Body(number)
  {
    var fractionStart := if number.fractionStart > 0 then number.fractionStart else |number.digits|;
    EmitDigits(buffer, number.digits, 0, fractionStart);
    buffer.AppendRepeated('0', number.integerZeros);
    EmitDigits(buffer, number.digits, fractionStart, |number.digits|);
    buffer.AppendRepeated('0', number.trailingZeros);
  }

  method EmitParts(buffer: Buffer, number: Number, fill: char, fillBefore: nat, zeroFill: nat, fillAfter: nat)
    requires buffer.Valid() && FractionStart(number) <= |number.digits|
    modifies buffer
    ensures buffer.Valid() && buffer.written == old(buffer.written) + Parts(number, fill, fillBefore, zeroFill, fillAfter)
  {
    buffer.AppendRepeated(fill, fillBefore);
    buffer.Append(number.sign);
    buffer.Append(number.prefix);
    buffer.AppendRepeated('0', zeroFill);
    EmitBody(buffer, number);
    buffer.AppendRepeated(fill, fillAfter);
  }

  function Parts(number: Number, fill: char, fillBefore: nat, zeroFill: nat, fillAfter: nat): string
    requires FractionStart(number) <= |number.digits|
  {
    Repeat(fill, fillBefore) + number.sign + number.prefix + Repeat('0', zeroFill) + Body(number) + Repeat(fill, fillAfter)
  }

  lemma LayoutIsParts(number: Number, o: Options, fillBefore: nat, zeroFill: nat, fillAfter: nat)
    requires FractionStart(number) <= |number.digits|
    requires var count := FillCount(number, o);
      (fillBefore, zeroFill, fillAfter) ==
        if o.IsZeroFill() && number.finite then (0, count, 0)
        else if o.IsZeroFill() || o.alignment == Some(Right) then (count, 0, 0)
        else if o.alignment == Some(Center) then (count / 2, 0, count - count / 2)
        else (0, 0, count)
    ensures Parts(number, FillChar(o), fillBefore, zeroFill, fillAfter) == Layout(number, o)
  {}

  // ----- rendering digits -----

  /** The digits array of numeric_text. */
  class DigitBuffer {
    const digits: array<char>
    var length: nat

    ghost predicate Valid()
      reads this
    {
      digits.Length == CAPACITY && length <= CAPACITY
    }

    ghost function Text(): string
      reads this, digits
      requires Valid()
    {
      digits[..length]
    }

    constructor ()
      ensures Valid() && fresh(digits) && length == 0
    {
      digits := new char[CAPACITY](_ => ' ');
      length := 0;
    }

    method PushBack(c: char)
      requires Valid()
      modifies this, digits
      ensures Valid() && Text() == if old(length) < CAPACITY then old(Text()) + [c] else old(Text())
    {
      if length < CAPACITY {
        digits[length] := c;
        length := length + 1;
      }
    }

    /** AppendDigits: rendered least significant first, then appended in reverse; neither array is overrun. */
    method AppendDigits(value: nat, base: nat, table: string)
      requires Valid() && 2 <= base <= 36 && |table| == 36 && value < 0x1_0000_0000_0000_0000
      requires length + |Digits(value, base)| <= CAPACITY
      modifies this, digits
      ensures Valid() && Text() == old(Text()) + Rendered(value, base, table)
    {
      var reversed, count := RenderReversed(value, base, table);
      ghost var text := Rendered(value, base, table);
      while count > 0
        invariant 0 <= count <= |text| && Valid()
        invariant Text() == old(Text()) + text[..|text| - count]
        invariant length == old(length) + |text| - count
        invariant forall i :: 0 <= i < |text| ==> reversed[i] == text[|text| - 1 - i]
      {
        count := count - 1;
        PushBack(reversed[count]);
        assert text[..|text| - count] == text[..|text| - count - 1] + [text[|text| - count - 1]];
      }
      assert text[..|text|] == text;
    }
  }

  /** The do-while loop of AppendDigits: the digits of value, least significant first. */
  method RenderReversed(value: nat, base: nat, table: string) returns (reversed: array<char>, count: nat)
    requires 2 <= base <= 36 && |table| == 36 && value < 0x1_0000_0000_0000_0000
    ensures fresh(reversed) && reversed.Length == 64 && count == |Rendered(value, base, table)| <= 64
    ensures forall i :: 0 <= i < count ==> reversed[i] == Rendered(value, base, table)[count - 1 - i]
  {
    ghost var text := Rendered(value, base, table);
    At64Digits(value, base);
    LastDigit(value, base, table);
    reversed := new char[64](_ => ' ');
    reversed[0] := table[Division.Remainder(value, base)];
    count := 1;
    var rest: nat := Division.Quotient(value, base);
    while rest != 0
      invariant 1 <= count <= |text| <= 64
      invariant if rest == 0 then count == |text| else count < |text| && Rendered(rest, base, table) == text[..|text| - count]
      invariant forall i :: 0 <= i < count ==> reversed[i] == text[|text| - 1 - i]
      decreases rest
    {
      LastDigit(rest, base, table);
      assert text[..|text| - count][..|text| - count - 1] == text[..|text| - count - 1];
      reversed[count] := table[Division.Remainder(rest, base)];
      count := count + 1;
      rest := Division.Quotient(rest, base);
    }
  }

  lemma LastDigit(n: nat, base: nat, table: string)
    requires 2 <= base <= 36 && |table| == 36
    ensures var text := Rendered(n, base, table);
      && text[|text| - 1] == table[Division.Remainder(n, base)]
      && (Division.Quotient(n, base) == 0 ==> |text| == 1)
      && (Division.Quotient(n, base) != 0 ==>
            |text| > 1 && Rendered(Division.Quotient(n, base), base, table) == text[..|text| - 1] && Division.Quotient(n, base) < n)
  {
    if n >= base {
      Division.Shrinks(n, base);
    } else {
      Division.Unique(n, base, 0, n);
    }
  }

  // ----- integers -----

  /** DetermineSign */
  function SignText(isNegative: bool, o: Options): string {
    if isNegative then "-"
    else if o.sign == Some(AlwaysPlus) then "+"
    else if o.sign == Some(Space) then " "
    else ""
  }

  function IntegerPrefix(o: Options, isZero: bool): string {
    if o.IsAlt() && o.typeSpecifier.Some? then
      match o.typeSpecifier.value
      case 'b' => "0b"
      case 'B' => "0B"
      case 'o' => if isZero then "" else "0"
      case 'x' => "0x"
      case 'X' => "0X"
      case _ => ""
    else ""
  }

  function TableFor(o: Options): (table: string)
    ensures |table| == 36
  {
    if o.typeSpecifier == Some('X') || o.typeSpecifier == Some('B') then UPPER_CASE_DIGITS else LOWER_CASE_DIGITS
  }

  predicate LegalBase(o: Options) {
    o.integerBase.Some? && 2 <= o.integerBase.value <= 36
  }

  function IntegerNumber(magnitude: nat, isNegative: bool, o: Options): Number
    requires LegalBase(o)
  {
    Number(SignText(isNegative, o), IntegerPrefix(o, magnitude == 0), Rendered(magnitude, o.integerBase.value, TableFor(o)), 0, 0, 0, true)
  }

  method UnsignedMagnitudeToString(buffer: Buffer, magnitude: nat, isNegative: bool, o: Options)
    requires buffer.Valid() && magnitude < 0x1_0000_0000_0000_0000
    modifies buffer
    ensures buffer.Valid()
    ensures buffer.written == old(buffer.written) + if LegalBase(o) then Layout(IntegerNumber(magnitude, isNegative, o), o) else "{Invalid base}"
  {
    if o.integerBase.None? || o.integerBase.value < 2 || o.integerBase.value > 36 {
      buffer.Append("{Invalid base}");
      return;
    }
    At64Digits(magnitude, o.integerBase.value);
    var digits := RenderInteger(magnitude, o.integerBase.value, TableFor(o));
    EmitNumber(buffer, Number(SignText(isNegative, o), IntegerPrefix(o, magnitude == 0), digits, 0, 0, 0, true), o);
  }

  method RenderInteger(magnitude: nat, base: nat, table: string) returns (digits: string)
    requires 2 <= base <= 36 && |table| == 36 && magnitude < 0x1_0000_0000_0000_0000
    ensures digits == Rendered(magnitude, base, table)
  {
    At64Digits(magnitude, base);
    var number := new DigitBuffer();
    number.AppendDigits(magnitude, base, table);
    assert number.Text() == [] + Rendered(magnitude, base, table);
    digits := number.digits[..number.length];
  }

  /** SignedIntToString for a type of `modulus` values; the most negative value has no positive counterpart in it. */
  method SignedIntToString(buffer: Buffer, value: int, modulus: nat, o: Options)
    requires buffer.Valid() && modulus in {0x100, 0x1_0000, 0x1_0000_0000, 0x1_0000_0000_0000_0000}
    requires 0 <= 2 * value + modulus && 2 * value < modulus
    modifies buffer
    ensures buffer.Valid()
    ensures buffer.written == old(buffer.written)
      + if LegalBase(o) then Layout(IntegerNumber(if value < 0 then 0 - value else value, value < 0, o), o) else "{Invalid base}"
  {
    if value < 0 {
      var unsigned := value + modulus;
      var negated := if unsigned == 0 then 0 else modulus - unsigned;
      UnsignedMagnitudeToString(buffer, negated, true, o);
    } else {
      UnsignedMagnitudeToString(buffer, value, false, o);
    }
  }

  /** The text of an integer determines it: sign, prefix and digits read back as one value only. */
  lemma IntegerTextIsInjective(m1: nat, negative1: bool, m2: nat, negative2: bool, o: Options)
    requires LegalBase(o) && (negative1 ==> m1 > 0) && (negative2 ==> m2 > 0)
    requires Natural(IntegerNumber(m1, negative1, o)) == Natural(IntegerNumber(m2, negative2, o))
    ensures m1 == m2 && negative1 == negative2
  {
    var (n1, n2) := (IntegerNumber(m1, negative1, o), IntegerNumber(m2, negative2, o));
    var (t1, t2) := (n1.prefix + n1.digits, n2.prefix + n2.digits);
    SignThenRest(m1, negative1, o);
    SignThenRest(m2, negative2, o);
    assert n1.sign == n2.sign;
    assert Natural(n1)[|n1.sign|..] == t1 && Natural(n2)[|n2.sign|..] == t2;
    PrefixedIsInjective(m1, m2, o);
  }

  lemma SignThenRest(m: nat, isNegative: bool, o: Options)
    requires LegalBase(o)
    ensures var n := IntegerNumber(m, isNegative, o);
      && Natural(n) == n.sign + (n.prefix + n.digits) && Natural(n) != []
      && (Natural(n)[0] == '-' <==> isNegative)
  {
    FirstDigit(m, o);
    var n := IntegerNumber(m, isNegative, o);
    assert Body(n) == n.digits;
    assert Natural(n) == n.sign + (n.prefix + n.digits);
  }

  lemma PrefixedIsInjective(m1: nat, m2: nat, o: Options)
    requires LegalBase(o)
    requires IntegerPrefix(o, m1 == 0) + Rendered(m1, o.integerBase.value, TableFor(o))
          == IntegerPrefix(o, m2 == 0) + Rendered(m2, o.integerBase.value, TableFor(o))
    ensures m1 == m2
  {
    var (p1, p2) := (IntegerPrefix(o, m1 == 0), IntegerPrefix(o, m2 == 0));
    var (d1, d2) := (Rendered(m1, o.integerBase.value, TableFor(o)), Rendered(m2, o.integerBase.value, TableFor(o)));
    TablesAreTables();
    // octal, and one of them zero: one character against at least two
    assert |Rendered(0, o.integerBase.value, TableFor(o))| == 1 && |p1 + d1| == |p2 + d2|;
    if p1 == p2 {
      assert (p1 + d1)[|p1|..] == d1 && (p2 + d2)[|p2|..] == d2;
      RenderedIsInjective(m1, m2, o.integerBase.value, TableFor(o));
    }
  }

  lemma FirstDigit(m: nat, o: Options)
    requires LegalBase(o)
    ensures var text := Rendered(m, o.integerBase.value, TableFor(o));
      |text| > 0 && text[0] != '-' && text[0] != '+' && text[0] != ' '
  {
    var digits := Digits(m, o.integerBase.value);
    assert Rendered(m, o.integerBase.value, TableFor(o))[0] == TableFor(o)[digits[0]];
  }
}
