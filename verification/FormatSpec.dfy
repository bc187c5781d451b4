/**
  Parsing a format specification such as ":*>+#12.3x" into options.  The text is that of one placeholder;
  reading past its end gives the terminating NUL.
 */
module FormatSpec {
  import opened Wrappers
  import opened FormatOptions
  import Division
  import Numbers

  const MAX_VALUE: nat := 0xFFFF_FFFF

  predicate IsDigit(c: char) {
    '0' <= c <= '9'
  }

  predicate IsAlignment(c: char) {
    c == '<' || c == '>' || c == '^'
  }

  function DigitValue(c: char): (d: nat)
    requires IsDigit(c)
    ensures d < 10
  {
    c as int - '0' as int
  }

  // ----- the specification: each step takes what is left of the text -----

  datatype Parsed = Parsed(options: Options, rest: string)

  function AlignOf(c: char): Align
    requires IsAlignment(c)
  {
    if c == '<' then Left else if c == '>' then Right else Center
  }

  /** With no alignment in front there may be none anywhere; the search for one stops at a NUL as at a find. */
  function ParseAlign(s: string): Option<Parsed>
    requires s != []
  {
    if |s| > 1 && IsAlignment(s[1]) then
      if s[0] == '{' then None
      else Some(Parsed(CLEARED.(alignment := Some(AlignOf(s[1])), fill := Some(s[0]), zeroFill := Some(false)), s[2..]))
    else if IsAlignment(s[0]) then Some(Parsed(CLEARED.(alignment := Some(AlignOf(s[0])), zeroFill := Some(false)), s[1..]))
    else if exists i :: 0 <= i < |s| && (IsAlignment(s[i]) || s[i] == '\0') then None
    else Some(Parsed(CLEARED, s))
  }

  function ParseSign(p: Parsed): Parsed {
    if p.rest == [] then p
    else match p.rest[0]
         case '+' => Parsed(p.options.(sign := Some(AlwaysPlus)), p.rest[1..])
         case '-' => Parsed(p.options.(sign := Some(Minus)), p.rest[1..])
         case ' ' => Parsed(p.options.(sign := Some(Space)), p.rest[1..])
         case _ => p
  }

  function ParseAlt(p: Parsed): Parsed {
    if p.rest != [] && p.rest[0] == '#' then Parsed(p.options.(alt := Some(true)), p.rest[1..]) else p
  }

  function ParseZero(p: Parsed): Parsed {
    if p.rest != [] && p.rest[0] == '0' then Parsed(p.options.(zeroFill := Some(p.options.alignment.None?)), p.rest[1..]) else p
  }

  /** The digits in front of s, onto the value so far; None when the value could leave 32 bits. */
  function ParseDigits(s: string, value: Option<nat>): Option<(Option<nat>, string)> {
    if s == [] || !IsDigit(s[0]) then Some((value, s))
    else if value.Some? && value.value > (MAX_VALUE - 9) / 10 then None
    else ParseDigits(s[1..], Some(value.GetOr(0) * 10 + DigitValue(s[0])))
  }

  function ParseWidth(p: Parsed): Option<Parsed> {
    match ParseDigits(p.rest, p.options.width)
    case None => None
    case Some((value, rest)) => Some(Parsed(p.options.(width := value), rest))
  }

  function ParsePrecision(p: Parsed): Option<Parsed> {
    if p.rest == [] || p.rest[0] != '.' then Some(p)
    else
      match ParseDigits(p.rest[1..], p.options.precision)
      case None => None
      case Some((value, rest)) => Some(Parsed(p.options.(precision := value), rest))
  }

  function TypeOptions(o: Options, c: char): Options {
    match c
    case 'd' => o.(integerBase := Some(10), typeSpecifier := Some('d'))
    case 'x' => o.(integerBase := Some(16), typeSpecifier := Some('x'))
    case 'X' => o.(integerBase := Some(16), typeSpecifier := Some('X'))
    case 'b' => o.(integerBase := Some(2), typeSpecifier := Some('b'))
    case 'B' => o.(integerBase := Some(2), typeSpecifier := Some('B'))
    case 'o' => o.(integerBase := Some(8), typeSpecifier := Some('o'))
    case 'p' => o.(integerBase := Some(16), typeSpecifier := Some('X'))
    case _ => o.(typeSpecifier := Some(c))
  }

  /** One character; whatever follows it is ignored. */
  function ParseType(p: Parsed): Options {
    if p.rest == [] then p.options else TypeOptions(p.options, p.rest[0])
  }

  function ParseAfterAlign(p: Parsed): Option<Options> {
    match ParseWidth(ParseZero(ParseAlt(ParseSign(p))))
    case None => None
    case Some(q) =>
      match ParsePrecision(q)
      case None => None
      case Some(r) => Some(ParseType(r))
  }

  function ParseSpec(s: string): Option<Options> {
    if s == [] then Some(CLEARED)
    else match ParseAlign(s)
         case None => None
         case Some(p) => ParseAfterAlign(p)
  }

  /** Where the specification starts: after the first colon, or at the end when there is none. */
  function AfterColon(s: string): string {
    if s == [] then [] else if s[0] == ':' then s[1..] else AfterColon(s[1..])
  }

  function Parse(s: string): Option<Options> {
    ParseSpec(AfterColon(s))
  }

  // ----- printing a specification -----

  datatype Fill = NoAlign | AlignOnly(align: Align) | FillAlign(fill: char, align: Align)

  datatype Spec = Spec(fill: Fill, sign: Option<Sign>, alt: bool, zero: bool, width: Option<nat>, precision: Option<nat>, typ: Option<char>)

  /** The largest value the digit loop accepts. */
  const LARGEST: nat := 4_294_967_289

  /** A type that could not be read as one of the options in front of it. */
  predicate IsType(c: char) {
    !IsAlignment(c) && !IsDigit(c) && c !in {'+', '-', ' ', '#', '.', '\0'}
  }

  predicate ValidSpec(spec: Spec) {
    && (spec.fill.FillAlign? ==> spec.fill.fill != '{')
    && (spec.width.Some? ==> 1 <= spec.width.value <= LARGEST)
    && (spec.precision.Some? ==> spec.precision.value <= LARGEST)
    && (spec.typ.Some? ==> IsType(spec.typ.value))
  }

  function AlignChar(align: Align): char {
    match align
    case Left => '<'
    case Right => '>'
    case Center => '^'
  }

  function FillText(fill: Fill): string {
    match fill
    case NoAlign => ""
    case AlignOnly(align) => [AlignChar(align)]
    case FillAlign(c, align) => [c, AlignChar(align)]
  }

  function SignChar(sign: Option<Sign>): string {
    match sign
    case None => ""
    case Some(AlwaysPlus) => "+"
    case Some(Minus) => "-"
    case Some(Space) => " "
  }

  function Decimal(n: nat): string {
    Numbers.Rendered(n, 10, Numbers.LOWER_CASE_DIGITS)
  }

  function TypeText(typ: Option<char>): string {
    if typ.Some? then [typ.value] else ""
  }

  // what is left to print after each option
  function FromPrecision(spec: Spec): string {
    (if spec.precision.Some? then "." + Decimal(spec.precision.value) else "") + TypeText(spec.typ)
  }

  function FromWidth(spec: Spec): string {
    (if spec.width.Some? then Decimal(spec.width.value) else "") + FromPrecision(spec)
  }

  function FromZero(spec: Spec): string {
    (if spec.zero then "0" else "") + FromWidth(spec)
  }

  function FromAlt(spec: Spec): string {
    (if spec.alt then "#" else "") + FromZero(spec)
  }

  function PrintAfterAlign(spec: Spec): string {
    SignChar(spec.sign) + FromAlt(spec)
  }

  function Print(spec: Spec): string {
    FillText(spec.fill) + PrintAfterAlign(spec)
  }

  const INTEGER_TYPES: set<char> := {'d', 'x', 'X', 'o', 'b', 'B', 'p'}

  function BaseOf(typ: char): nat {
    match typ
    case 'd' => 10
    case 'o' => 8
    case 'b' => 2
    case 'B' => 2
    case _ => 16
  }

  /** The options a specification stands for; an alignment overrides the '0', and a pointer is shown as upper-case hex. */
  function OptionsOf(spec: Spec): Options {
    Options(
      spec.width, spec.precision,
      if spec.fill.FillAlign? then Some(spec.fill.fill) else None,
      if spec.fill.NoAlign? then None else Some(spec.fill.align),
      if spec.alt then Some(true) else None,
      spec.sign,
      if !spec.fill.NoAlign? then Some(false) else if spec.zero then Some(true) else None,
      if spec.typ == Some('p') then Some('X') else spec.typ,
      if spec.typ.Some? && spec.typ.value in INTEGER_TYPES then Some(BaseOf(spec.typ.value)) else None)
  }

  // ----- round trip -----

  /** A run of digits is read as its value, leading zeros and all, or rejected when it exceeds LARGEST: never wrapped. */
  lemma {:induction false} DigitRun(digits: string, tail: string)
    requires forall i :: 0 <= i < |digits| ==> IsDigit(digits[i])
    ensures ParseDigits(digits + tail, None) ==
      if Numbers.ReadText(digits, 10) > LARGEST then None
      else ParseDigits(tail, if digits == [] then None else Some(Numbers.ReadText(digits, 10)))
    decreases |digits|
  {
    if digits == [] {
      assert digits + tail == tail;
    } else {
      var (front, last) := (digits[..|digits| - 1], digits[|digits| - 1]);
      assert digits + tail == front + ([last] + tail);
      DigitRun(front, [last] + tail);
      assert ([last] + tail)[0] == last && ([last] + tail)[1..] == tail;
    }
  }

  lemma DecimalValue(n: nat)
    ensures Decimal(n) != [] && (forall i :: 0 <= i < |Decimal(n)| ==> IsDigit(Decimal(n)[i]))
    ensures Numbers.ReadText(Decimal(n), 10) == n && (n > 0 ==> Decimal(n)[0] != '0')
  {
    Numbers.RenderedReads(n, 10, Numbers.LOWER_CASE_DIGITS);
    assert Numbers.ReadText("0", 10) == Numbers.ReadText("", 10) * 10;
  }

  lemma SpecNumbers(spec: Spec)
    ensures spec.width.Some? ==>
      var text := Decimal(spec.width.value);
      text != [] && (forall i :: 0 <= i < |text| ==> IsDigit(text[i])) && (spec.width.value > 0 ==> text[0] != '0')
    ensures spec.precision.Some? ==>
      var text := Decimal(spec.precision.value); text != [] && forall i :: 0 <= i < |text| ==> IsDigit(text[i])
  {
    if spec.width.Some? {
      DecimalValue(spec.width.value);
    }
    if spec.precision.Some? {
      DecimalValue(spec.precision.value);
    }
  }

  /** Numbers above LARGEST are refused as width and as precision, whatever follows. */
  lemma LargerIsRejected(n: nat, tail: string)
    requires n > LARGEST
    ensures ParseDigits(Decimal(n) + tail, None) == None
  {
    DecimalValue(n);
    DigitRun(Decimal(n), tail);
  }

  lemma NumberIsRead(n: nat, tail: string)
    requires n <= LARGEST && (tail == [] || !IsDigit(tail[0]))
    ensures ParseDigits(Decimal(n) + tail, None) == Some((Some(n), tail))
  {
    DecimalValue(n);
    DigitRun(Decimal(n), tail);
  }

  predicate Plain(s: string) {
    forall i :: 0 <= i < |s| ==> !IsAlignment(s[i]) && s[i] != '\0'
  }

  lemma PlainAppends(a: string, b: string)
    requires Plain(a) && Plain(b)
    ensures Plain(a + b)
  {}

  /** Nothing printed after the alignment could be taken for one. */
  lemma NoAlignmentAfter(spec: Spec)
    requires ValidSpec(spec)
    ensures Plain(PrintAfterAlign(spec))
  {
    SpecNumbers(spec);
    PlainAppends(if spec.precision.Some? then "." + Decimal(spec.precision.value) else "", TypeText(spec.typ));
    PlainAppends(if spec.width.Some? then Decimal(spec.width.value) else "", FromPrecision(spec));
    PlainAppends(if spec.zero then "0" else "", FromWidth(spec));
    PlainAppends(if spec.alt then "#" else "", FromZero(spec));
    PlainAppends(SignChar(spec.sign), FromAlt(spec));
  }

  function AlignedOptions(fill: Fill): Options {
    match fill
    case NoAlign => CLEARED
    case AlignOnly(align) => CLEARED.(alignment := Some(align), zeroFill := Some(false))
    case FillAlign(c, align) => CLEARED.(fill := Some(c), alignment := Some(align), zeroFill := Some(false))
  }

  lemma AlignIsRead(fill: Fill, rest: string)
    requires Plain(rest) && FillText(fill) + rest != [] && (fill.FillAlign? ==> fill.fill != '{')
    ensures ParseAlign(FillText(fill) + rest) == Some(Parsed(AlignedOptions(fill), rest))
  {
    var s := FillText(fill) + rest;
    match fill
    case NoAlign => assert s == rest;
    case AlignOnly(align) =>
      assert s[0] == AlignChar(align) && s[1..] == rest;
      assert |s| > 1 ==> s[1] == rest[0];
    case FillAlign(c, align) => assert s[1] == AlignChar(align) && s[2..] == rest;
  }

  lemma FirstOfWidth(spec: Spec)
    requires ValidSpec(spec)
    ensures FromWidth(spec) != [] ==> FromWidth(spec)[0] !in {'0', '+', '-', ' ', '#'}
  {
    SpecNumbers(spec);
  }

  lemma SignIsRead(spec: Spec, o: Options)
    requires ValidSpec(spec) && o.sign.None?
    ensures ParseSign(Parsed(o, PrintAfterAlign(spec))) == Parsed(o.(sign := spec.sign), FromAlt(spec))
  {
    FirstOfWidth(spec);
    assert spec.sign.Some? ==> (SignChar(spec.sign) + FromAlt(spec))[1..] == FromAlt(spec);
    assert spec.sign.None? ==> SignChar(spec.sign) + FromAlt(spec) == FromAlt(spec);
  }

  lemma AltIsRead(spec: Spec, o: Options)
    requires ValidSpec(spec) && o.alt.None?
    ensures ParseAlt(Parsed(o, FromAlt(spec))) == Parsed(o.(alt := if spec.alt then Some(true) else None), FromZero(spec))
  {
    FirstOfWidth(spec);
    assert spec.alt ==> FromAlt(spec)[1..] == FromZero(spec);
    assert !spec.alt ==> FromAlt(spec) == FromZero(spec);
  }

  lemma ZeroIsRead(spec: Spec, o: Options)
    requires ValidSpec(spec)
    ensures ParseZero(Parsed(o, FromZero(spec)))
         == Parsed(if spec.zero then o.(zeroFill := Some(o.alignment.None?)) else o, FromWidth(spec))
  {
    FirstOfWidth(spec);
    assert spec.zero ==> FromZero(spec)[1..] == FromWidth(spec);
    assert !spec.zero ==> FromZero(spec) == FromWidth(spec);
  }

  lemma FlagsAreRead(spec: Spec)
    requires ValidSpec(spec)
    ensures ParseZero(ParseAlt(ParseSign(Parsed(AlignedOptions(spec.fill), PrintAfterAlign(spec)))))
         == Parsed(OptionsOf(spec).(width := None, precision := None, typeSpecifier := None, integerBase := None), FromWidth(spec))
  {
    var o := AlignedOptions(spec.fill);
    SignIsRead(spec, o);
    AltIsRead(spec, o.(sign := spec.sign));
    ZeroIsRead(spec, o.(sign := spec.sign, alt := if spec.alt then Some(true) else None));
  }

  lemma NumbersAreRead(spec: Spec, o: Options)
    requires ValidSpec(spec) && o.width.None? && o.precision.None?
    ensures ParseWidth(Parsed(o, FromWidth(spec))) == Some(Parsed(o.(width := spec.width), FromPrecision(spec)))
    ensures ParsePrecision(Parsed(o.(width := spec.width), FromPrecision(spec)))
         == Some(Parsed(o.(width := spec.width, precision := spec.precision), TypeText(spec.typ)))
  {
    if spec.width.Some? {
      NumberIsRead(spec.width.value, FromPrecision(spec));
    } else {
      assert FromWidth(spec) == FromPrecision(spec) && (FromPrecision(spec) != [] ==> !IsDigit(FromPrecision(spec)[0]));
    }
    if spec.precision.Some? {
      NumberIsRead(spec.precision.value, TypeText(spec.typ));
      assert FromPrecision(spec)[1..] == Decimal(spec.precision.value) + TypeText(spec.typ);
    } else {
      assert FromPrecision(spec) == TypeText(spec.typ);
    }
  }

  lemma {:induction false} ColonFound(id: string, rest: string)
    requires ':' !in id
    ensures AfterColon(id + ":" + rest) == rest && AfterColon(id) == []
  {
    if id == [] {
      assert (id + ":" + rest)[1..] == rest;
    } else {
      ColonFound(id[1..], rest);
      assert (id + ":" + rest)[1..] == id[1..] + ":" + rest;
    }
  }

  lemma EmptySpec(spec: Spec)
    requires ValidSpec(spec) && Print(spec) == []
    ensures OptionsOf(spec) == CLEARED
  {
    SpecNumbers(spec);
    assert PrintAfterAlign(spec) == [] && FromAlt(spec) == [] && FromZero(spec) == [] && FromWidth(spec) == [] && FromPrecision(spec) == [];
  }

  lemma AfterAlignIsRead(spec: Spec, p: Parsed)
    requires ValidSpec(spec) && p == Parsed(AlignedOptions(spec.fill), PrintAfterAlign(spec))
    ensures ParseAfterAlign(p) == Some(OptionsOf(spec))
  {
    FlagsAreRead(spec);
    var o := OptionsOf(spec).(width := None, precision := None, typeSpecifier := None, integerBase := None);
    NumbersAreRead(spec, o);
    TypeIsRead(o.(width := spec.width, precision := spec.precision), spec.typ);
  }

  lemma TypeIsRead(o: Options, typ: Option<char>)
    requires o.typeSpecifier.None? && o.integerBase.None?
    ensures ParseType(Parsed(o, TypeText(typ))) == o.(
      typeSpecifier := if typ == Some('p') then Some('X') else typ,
      integerBase := if typ.Some? && typ.value in INTEGER_TYPES then Some(BaseOf(typ.value)) else None)
  {}

  lemma SpecIsRead(spec: Spec)
    requires ValidSpec(spec)
    ensures ParseSpec(Print(spec)) == Some(OptionsOf(spec))
  {
    if Print(spec) == [] {
      EmptySpec(spec);
    } else {
      var p := Parsed(AlignedOptions(spec.fill), PrintAfterAlign(spec));
      NoAlignmentAfter(spec);
      AlignIsRead(spec.fill, p.rest);
      AfterAlignIsRead(spec, p);
    }
  }

  /** Parsing a printed specification gives back its options, whatever argument id is in front of its colon. */
  lemma RoundTrip(id: string, spec: Spec)
    requires ValidSpec(spec) && ':' !in id
    ensures Parse(id + ":" + Print(spec)) == Some(OptionsOf(spec))
    ensures Parse(id) == Some(CLEARED)
  {
    ColonFound(id, Print(spec));
    SpecIsRead(spec);
  }

  /** An alignment that is neither the first nor the second character is refused, and so is an opening brace as fill. */
  lemma AlignmentRefused(id: string, s: string)
    requires ':' !in id && |s| > 1 && !IsAlignment(s[0])
    requires if IsAlignment(s[1]) then s[0] == '{' else exists i :: 2 <= i < |s| && IsAlignment(s[i])
    ensures Parse(id + ":" + s) == None
  {
    ColonFound(id, s);
  }

  /** With its colon a printed specification fits the 32 characters a placeholder may have. */
  lemma PrintFits(spec: Spec)
    requires ValidSpec(spec)
    ensures |":" + Print(spec)| <= 32
  {
    if spec.width.Some? {
      TenDigits(spec.width.value);
    }
    if spec.precision.Some? {
      TenDigits(spec.precision.value);
    }
    assert |FromPrecision(spec)| <= 12;
    assert |FromWidth(spec)| <= 22;
    assert |FromAlt(spec)| <= 24;
  }

  lemma TenDigits(n: nat)
    requires n <= LARGEST
    ensures |Decimal(n)| <= 10
  {
    assert Numbers.Power(10, 5) == 100_000 && Numbers.Power(10, 10) == 10_000_000_000;
    Numbers.DigitCount(n, 10, 10);
  }
}
