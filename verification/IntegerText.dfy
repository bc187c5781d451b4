/** What the text of an integer says, character by character, from the specification to the value read back. */
module IntegerText {
  import opened Wrappers
  import opened FormatOptions
  import opened Numbers
  import opened NumberFormat
  import opened FormatSpec

  predicate IsUpperCase(o: Options) {
    o.typeSpecifier == Some('X') || o.typeSpecifier == Some('B')
  }

  /** The text opens with the character that the sign option and the sign of the value ask for, and with a digit otherwise. */
  predicate SignShown(text: string, isNegative: bool, sign: Option<Sign>) {
    && text != []
    && (text[0] == '-' <==> isNegative)
    && (text[0] == '+' <==> !isNegative && sign == Some(AlwaysPlus))
    && (text[0] == ' ' <==> !isNegative && sign == Some(Space))
    && (text[0] !in {'-', '+', ' '} ==> CharValue(text[0]) < 36)
  }

  function SignLength(isNegative: bool, sign: Option<Sign>): nat {
    if isNegative || sign == Some(AlwaysPlus) || sign == Some(Space) then 1 else 0
  }

  /** Letters are of one case: the type's. */
  predicate CaseShown(text: string, upperCase: bool) {
    forall i :: 0 <= i < |text| ==> if upperCase then !('a' <= text[i] <= 'z') else !('A' <= text[i] <= 'Z')
  }

  /** An integer literal of C++: its base is in its first characters. */
  function ReadLiteral(text: string): nat {
    if |text| > 2 && text[0] == '0' && text[1] in {'x', 'X'} then ReadText(text[2..], 16)
    else if |text| > 2 && text[0] == '0' && text[1] in {'b', 'B'} then ReadText(text[2..], 2)
    else if |text| > 1 && text[0] == '0' then ReadText(text[1..], 8)
    else ReadText(text, 10)
  }

  lemma {:induction false} RenderedCase(digits: seq<nat>, o: Options)
    requires forall i :: 0 <= i < |digits| ==> digits[i] < 36
    ensures CaseShown(DigitText(digits, TableFor(o)), IsUpperCase(o))
  {
    forall i | 0 <= i < |digits|
      ensures var c := TableFor(o)[digits[i]]; if IsUpperCase(o) then !('a' <= c <= 'z') else !('A' <= c <= 'Z')
    {
      TableCharacter(TableFor(o), digits[i]);
    }
  }

  lemma NaturalParts(m: nat, isNegative: bool, o: Options)
    requires LegalBase(o)
    ensures var n := IntegerNumber(m, isNegative, o); Natural(n) == n.sign + (n.prefix + n.digits)
  {
    SignThenRest(m, isNegative, o);
  }

  lemma SignIsShown(m: nat, isNegative: bool, o: Options)
    requires LegalBase(o)
    ensures SignShown(Natural(IntegerNumber(m, isNegative, o)), isNegative, o.sign)
  {
    var number := IntegerNumber(m, isNegative, o);
    NaturalParts(m, isNegative, o);
    RenderedReads(m, o.integerBase.value, TableFor(o));
    assert number.prefix + number.digits != [] && CharValue((number.prefix + number.digits)[0]) < 36 by {
      if number.prefix != [] {
        assert (number.prefix + number.digits)[0] == '0';
      } else {
        assert number.prefix + number.digits == number.digits;
      }
    }
    FirstOfSigned(number.sign, number.prefix + number.digits);
  }

  lemma FirstOfSigned(sign: string, rest: string)
    requires rest != []
    ensures (sign + rest)[0] == if sign == [] then rest[0] else sign[0]
  {}

  lemma CaseIsShown(m: nat, isNegative: bool, o: Options)
    requires LegalBase(o)
    ensures CaseShown(Natural(IntegerNumber(m, isNegative, o)), IsUpperCase(o))
  {
    var number := IntegerNumber(m, isNegative, o);
    NaturalParts(m, isNegative, o);
    RenderedCase(Digits(m, o.integerBase.value), o);
    CaseOfPrefix(o, m == 0);
    CaseAppends(number.prefix, number.digits, IsUpperCase(o));
    CaseAppends(number.sign, number.prefix + number.digits, IsUpperCase(o));
  }

  lemma DropsTwo(a: string, b: string, c: string)
    ensures (a + (b + c))[|a| + |b|..] == c && (a + (b + c))[|a|..] == b + c
  {}

  /** Digits from start on, with no zero in front, that read as m. */
  predicate DigitsShown(text: string, start: nat, m: nat, base: nat) {
    start < |text| && AllDigits(text[start..], base) && ReadText(text[start..], base) == m && (text[start] == '0' ==> |text| == start + 1)
  }

  lemma DigitsAreShown(front: string, digits: string, m: nat, base: nat)
    requires digits != [] && AllDigits(digits, base) && ReadText(digits, base) == m && (digits[0] == '0' ==> digits == "0")
    ensures DigitsShown(front + digits, |front|, m, base)
  {
    assert (front + digits)[|front|..] == digits;
  }

  /** In any base, with any options: sign, case, and digits behind sign and prefix that read as the magnitude. */
  lemma IntegerReads(m: nat, isNegative: bool, o: Options) returns (start: nat)
    requires LegalBase(o)
    ensures var text := Natural(IntegerNumber(m, isNegative, o));
      && SignShown(text, isNegative, o.sign) && CaseShown(text, IsUpperCase(o))
      && DigitsShown(text, start, m, o.integerBase.value) && (!o.IsAlt() ==> start == SignLength(isNegative, o.sign))
  {
    var number := IntegerNumber(m, isNegative, o);
    SignIsShown(m, isNegative, o);
    CaseIsShown(m, isNegative, o);
    NaturalParts(m, isNegative, o);
    RenderedReads(m, o.integerBase.value, TableFor(o));
    start := |number.sign + number.prefix|;
    DigitsAreShown(number.sign + number.prefix, number.digits, m, o.integerBase.value);
    assert Natural(number) == number.sign + number.prefix + number.digits;
  }

  lemma CaseOfPrefix(o: Options, isZero: bool)
    ensures CaseShown(IntegerPrefix(o, isZero), IsUpperCase(o))
  {}

  lemma CaseAppends(a: string, b: string, upperCase: bool)
    requires CaseShown(a, upperCase) && CaseShown(b, upperCase)
    ensures CaseShown(a + b, upperCase)
  {}

  lemma LiteralReads(m: nat, o: Options, digits: string)
    requires o.IsAlt() && digits != [] && (digits[0] == '0' ==> digits == "0") && (m == 0 <==> digits == "0")
    requires match o.typeSpecifier
      case Some('x') => ReadText(digits, 16) == m
      case Some('X') => ReadText(digits, 16) == m
      case Some('b') => ReadText(digits, 2) == m
      case Some('B') => ReadText(digits, 2) == m
      case Some('o') => ReadText(digits, 8) == m && AllDigits(digits, 8)
      case Some('d') => ReadText(digits, 10) == m
      case _ => false
    ensures ReadLiteral(IntegerPrefix(o, m == 0) + digits) == m
  {
    var (prefix, text) := (IntegerPrefix(o, m == 0), IntegerPrefix(o, m == 0) + digits);
    assert text[|prefix|..] == digits;
    if o.typeSpecifier == Some('o') && m == 0 {
      assert text == "0";
    }
  }

  lemma ZeroReads(m: nat, base: nat, table: string)
    requires 2 <= base <= 36 && IsConversionTable(table)
    ensures m == 0 <==> Rendered(m, base, table) == "0"
  {
    RenderedReads(m, base, table);
    assert ReadText("0", base) == ReadText("", base) * base;
  }

  /**
    From specification to value: under an alternate-form specification with an integer type, the text of a
    number, behind its sign, is a C++ literal of that number.
   */
  lemma AlternateFormIsLiteral(id: string, spec: Spec, m: nat, isNegative: bool) returns (o: Options)
    requires ValidSpec(spec) && ':' !in id && spec.alt && spec.typ.Some? && spec.typ.value in INTEGER_TYPES
    ensures Parse(id + ":" + Print(spec)) == Some(o) && LegalBase(o)
    ensures var text := Natural(IntegerNumber(m, isNegative, o));
      && SignShown(text, isNegative, spec.sign) && CaseShown(text, spec.typ.value in {'X', 'B', 'p'})
      && ReadLiteral(text[SignLength(isNegative, spec.sign)..]) == m
  {
    RoundTrip(id, spec);
    o := OptionsOf(spec);
    OptionsOfInteger(spec);
    SignIsShown(m, isNegative, o);
    CaseIsShown(m, isNegative, o);
    LiteralBehindSign(m, isNegative, o);
  }

  lemma OptionsOfInteger(spec: Spec)
    requires spec.typ.Some? && spec.typ.value in INTEGER_TYPES
    ensures var o := OptionsOf(spec);
      && o.typeSpecifier.Some? && o.typeSpecifier.value in {'d', 'x', 'X', 'o', 'b', 'B'}
      && o.integerBase == Some(BaseOf(o.typeSpecifier.value)) && LegalBase(o)
      && (IsUpperCase(o) <==> spec.typ.value in {'X', 'B', 'p'})
  {}

  lemma LiteralBehindSign(m: nat, isNegative: bool, o: Options)
    requires o.IsAlt() && o.typeSpecifier.Some? && o.typeSpecifier.value in {'d', 'x', 'X', 'o', 'b', 'B'}
    requires o.integerBase == Some(BaseOf(o.typeSpecifier.value))
    ensures ReadLiteral(Natural(IntegerNumber(m, isNegative, o))[SignLength(isNegative, o.sign)..]) == m
  {
    var number := IntegerNumber(m, isNegative, o);
    NaturalParts(m, isNegative, o);
    DropsTwo(number.sign, number.prefix, number.digits);
    RenderedReads(m, o.integerBase.value, TableFor(o));
    ZeroReads(m, o.integerBase.value, TableFor(o));
    LiteralReads(m, o, number.digits);
  }
}
