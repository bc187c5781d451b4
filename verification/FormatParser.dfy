/** The parser itself: it moves an index over the text and sets option fields as it goes. */
module FormatParser {
  import opened Wrappers
  import opened FormatOptions
  import opened FormatSpec

  class ArgFormatOptions {
    var width: Option<nat>
    var precision: Option<nat>
    var fill: Option<char>
    var alignment: Option<Align>
    var alt: Option<bool>
    var sign: Option<Sign>
    var zeroFill: Option<bool>
    var typeSpecifier: Option<char>
    var integerBase: Option<nat>

    ghost function Value(): Options
      reads this
    {
      Options(width, precision, fill, alignment, alt, sign, zeroFill, typeSpecifier, integerBase)
    }

    constructor ()
      ensures Value() == CLEARED
    {
      width, precision, fill, alignment, alt := None, None, None, None, None;
      sign, zeroFill, typeSpecifier, integerBase := None, None, None, None;
    }

    method Clear()
      modifies this
      ensures Value() == CLEARED
    {
      width, precision, fill, alignment, alt := None, None, None, None, None;
      sign, zeroFill, typeSpecifier, integerBase := None, None, None, None;
    }
  }

  /** operator[]: past the end there is a NUL. */
  function CharAt(s: string, i: nat): char {
    if i < |s| then s[i] else '\0'
  }

  /** strcspn: the first of "<>^" or the end of the C string, from `from` on. */
  method FindAlignment(s: string, from: nat) returns (i: nat)
    requires from <= |s|
    ensures from <= i <= |s|
    ensures i < |s| ==> IsAlignment(s[i]) || s[i] == '\0'
    ensures forall j :: from <= j < i ==> !IsAlignment(s[j]) && s[j] != '\0'
  {
    i := from;
    while i < |s| && !IsAlignment(s[i]) && s[i] != '\0'
      invariant from <= i <= |s|
      invariant forall j :: from <= j < i ==> !IsAlignment(s[j]) && s[j] != '\0'
    {
      i := i + 1;
    }
  }

  method ParseAlignmentAndFill(s: string, processed: nat, o: ArgFormatOptions) returns (ok: bool, processed': nat)
    requires processed < |s| && o.Value() == CLEARED
    modifies o
    ensures ok <==> ParseAlign(s[processed..]).Some?
    ensures ok ==>
      var q := ParseAlign(s[processed..]).value;
      processed <= processed' <= |s| && s[processed'..] == q.rest && o.Value() == q.options.(zeroFill := None)
  {
    ghost var rest := s[processed..];
    var location;
    if processed + 1 < |s| && IsAlignment(s[processed + 1]) {
      location := 1;
    } else if IsAlignment(s[processed]) {
      location := 0;
    } else {
      var found := FindAlignment(s, processed);
      if found < |s| {
        assert rest[found - processed] == s[found];
      } else {
        assert forall i :: 0 <= i < |rest| ==> rest[i] == s[processed + i];
      }
      return found >= |s|, processed;
    }
    if location == 1 && s[processed] == '{' {
      o.alignment := Some(AlignOf(s[processed + 1]));
      return false, processed;
    }
    o.alignment := Some(AlignOf(s[processed + location]));
    if location == 1 {
      o.fill := Some(s[processed]);
    }
    return true, processed + location + 1;
  }

  method ParseSignSpecifier(s: string, processed: nat, o: ArgFormatOptions) returns (processed': nat)
    requires processed < |s|
    modifies o
    ensures processed <= processed' <= |s|
    ensures ParseSign(Parsed(old(o.Value()), s[processed..])) == Parsed(o.Value(), s[processed'..])
  {
    processed' := processed;
    if s[processed] == '+' || s[processed] == '-' || s[processed] == ' ' {
      match s[processed] {
        case '+' => o.sign := Some(AlwaysPlus);
        case '-' => o.sign := Some(Minus);
        case _ => o.sign := Some(Space);
      }
      processed' := processed + 1;
    }
  }

  /** The digit loop, shared by width and precision; a value that could leave 32 bits is refused, not wrapped. */
  method ReadDigits(s: string, processed: nat, start: Option<nat>) returns (ok: bool, value: Option<nat>, processed': nat)
    requires processed <= |s|
    requires start.Some? ==> start.value <= MAX_VALUE
    ensures ok <==> ParseDigits(s[processed..], start).Some?
    ensures ok ==> processed <= processed' <= |s| && ParseDigits(s[processed..], start) == Some((value, s[processed'..]))
    ensures value.Some? ==> value.value <= MAX_VALUE
  {
    value, processed' := start, processed;
    while CharAt(s, processed') != '\0' && IsDigit(CharAt(s, processed'))
      invariant processed <= processed' <= |s|
      invariant ParseDigits(s[processed..], start) == ParseDigits(s[processed'..], value)
      invariant value.Some? ==> value.value <= MAX_VALUE
      decreases |s| - processed'
    {
      if value.Some? && value.value > (MAX_VALUE - 9) / 10 {
        return false, value, processed';
      }
      value := Some((if value.Some? then value.value * 10 else 0) + DigitValue(s[processed']));
      assert s[processed'..][1..] == s[processed' + 1..];
      processed' := processed' + 1;
    }
    ok := true;
  }

  method ParseTypeSpecifier(c: char, o: ArgFormatOptions)
    modifies o
    ensures o.Value() == TypeOptions(old(o.Value()), c)
  {
    match c {
      case 'd' => o.integerBase, o.typeSpecifier := Some(10), Some('d');
      case 'x' => o.integerBase, o.typeSpecifier := Some(16), Some('x');
      case 'X' => o.integerBase, o.typeSpecifier := Some(16), Some('X');
      case 'b' => o.integerBase, o.typeSpecifier := Some(2), Some('b');
      case 'B' => o.integerBase, o.typeSpecifier := Some(2), Some('B');
      case 'o' => o.integerBase, o.typeSpecifier := Some(8), Some('o');
      case 'p' => o.integerBase, o.typeSpecifier := Some(16), Some('X');
      case _ => o.typeSpecifier := Some(c);
    }
  }

  method FindColon(s: string) returns (i: nat)
    ensures i <= |s| && (i < |s| ==> s[i] == ':') && forall j :: 0 <= j < i ==> s[j] != ':'
  {
    i := 0;
    while i < |s| && s[i] != ':'
      invariant 0 <= i <= |s| && forall j :: 0 <= j < i ==> s[j] != ':'
    {
      i := i + 1;
    }
  }

  lemma {:induction false} ColonAt(s: string, i: nat)
    requires i <= |s| && (i < |s| ==> s[i] == ':') && forall j :: 0 <= j < i ==> s[j] != ':'
    ensures AfterColon(s) == if i < |s| then s[i + 1..] else []
    decreases i
  {
    if i > 0 {
      ColonAt(s[1..], i - 1);
      assert i < |s| ==> s[1..][i..] == s[i + 1..];
    }
  }

  /** The '#' and '0' flags. */
  method ParseFlags(s: string, processed: nat, o: ArgFormatOptions) returns (processed': nat)
    requires processed <= |s|
    modifies o
    ensures processed <= processed' <= |s|
    ensures ParseZero(ParseAlt(Parsed(old(o.Value()), s[processed..]))) == Parsed(o.Value(), s[processed'..])
  {
    processed' := processed;
    if processed' < |s| && s[processed'] == '#' {
      o.alt := Some(true);
      assert s[processed'..][1..] == s[processed' + 1..];
      processed' := processed' + 1;
    }
    if processed' < |s| && s[processed'] == '0' {
      o.zeroFill := Some(o.alignment.None?);
      assert s[processed'..][1..] == s[processed' + 1..];
      processed' := processed' + 1;
    }
  }

  /** From the sign on. */
  method ParseRest(s: string, processed: nat, o: ArgFormatOptions) returns (ok: bool)
    requires processed <= |s| && o.Value().width.None? && o.Value().precision.None?
    modifies o
    ensures ok <==> ParseAfterAlign(Parsed(old(o.Value()), s[processed..])).Some?
    ensures ok ==> o.Value() == ParseAfterAlign(Parsed(old(o.Value()), s[processed..])).value
  {
    if processed >= |s| {
      return true;
    }
    var at := ParseSignSpecifier(s, processed, o);
    at := ParseFlags(s, at, o);
    ok := ParseNumbers(s, at, o);
  }

  /** Width, precision and type. */
  method ParseNumbers(s: string, processed: nat, o: ArgFormatOptions) returns (ok: bool)
    requires processed <= |s| && o.Value().width.None? && o.Value().precision.None?
    modifies o
    ensures var p := ParseWidth(Parsed(old(o.Value()), s[processed..]));
      var q := if p.Some? then ParsePrecision(p.value) else None;
      (ok <==> q.Some?) && (ok ==> o.Value() == ParseType(q.value))
  {
    var value, at;
    ok, value, at := ReadDigits(s, processed, o.width);
    o.width := value;
    if !ok || at >= |s| {
      return;
    }
    if s[at] == '.' {
      assert s[at..][1..] == s[at + 1..];
      ok, value, at := ReadDigits(s, at + 1, o.precision);
      o.precision := value;
    }
    if !ok || at >= |s| {
      return;
    }
    ParseTypeSpecifier(s[at], o);
  }

  /** ParseArgFormatString: refuses exactly what the specification refuses, and otherwise sets its options. */
  method ParseArgFormatString(s: string, o: ArgFormatOptions) returns (ok: bool)
    modifies o
    ensures ok <==> Parse(s).Some?
    ensures ok ==> o.Value() == Parse(s).value
  {
    o.Clear();
    if s == [] {
      return true;
    }
    var colon := FindColon(s);
    ColonAt(s, colon);
    if colon == |s| || colon + 1 >= |s| {
      return true;
    }
    var at;
    ok, at := ParseAlignmentAndFill(s, colon + 1, o);
    if !ok {
      return;
    }
    if o.alignment.Some? {
      o.zeroFill := Some(false);
    }
    ok := ParseRest(s, at, o);
  }
}
