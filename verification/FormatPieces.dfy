/**
  What a format means, piece by piece: literal text with its braces doubled, placeholders without a number
  and placeholders with one.  The scan of the joined text gives what the pieces give, one after the other.
 */
module FormatPieces {
  import opened Wrappers
  import opened BraceFormat
  import opened TextBuffer
  import FormatSpec
  import Numbers

  /** A specification is empty or starts with its colon; an id is a decimal numeral. */
  datatype Piece = Literal(text: string) | Unnumbered(spec: string) | Numbered(id: string, spec: string)

  predicate IsSpec(spec: string) {
    '}' !in spec && (spec == "" || spec[0] == ':')
  }

  predicate IsNumeral(id: string) {
    id != "" && forall i :: 0 <= i < |id| ==> FormatSpec.IsDigit(id[i])
  }

  predicate ValidPiece(p: Piece) {
    match p
    case Literal(text) => true
    case Unnumbered(spec) => IsSpec(spec) && |spec| <= PLACEHOLDER_CAPACITY
    case Numbered(id, spec) => IsNumeral(id) && IsSpec(spec) && |id + spec| <= PLACEHOLDER_CAPACITY
  }

  function PieceText(p: Piece): string {
    match p
    case Literal(text) => Escape(text)
    case Unnumbered(spec) => "{" + spec + "}"
    case Numbered(id, spec) => "{" + (id + spec) + "}"
  }

  /** The format made of the first n pieces. */
  function Joined(pieces: seq<Piece>, n: nat): string
    requires n <= |pieces|
  {
    if n == 0 then "" else Joined(pieces, n - 1) + PieceText(pieces[n - 1])
  }

  /** How many of the first n pieces take an argument in turn. */
  function Unnumbereds(pieces: seq<Piece>, n: nat): nat
    requires n <= |pieces|
  {
    if n == 0 then 0 else Unnumbereds(pieces, n - 1) + TakesNext(pieces[n - 1])
  }

  function TakesNext(p: Piece): nat {
    if p.Unnumbered? then 1 else 0
  }

  function Argument(position: nat, text: string, args: Arguments): string {
    if position < args.count then args.render(position, text) else "{Argument position out of range}"
  }

  /** What a piece stands for when `before` unnumbered ones are in front of it; the source counts them in 32 bits. */
  function PieceMeaning(p: Piece, before: nat, args: Arguments): string {
    match p
    case Literal(text) => text
    case Unnumbered(spec) => Argument(before % 0x1_0000_0000, spec, args)
    case Numbered(id, spec) =>
      if Numbers.ReadText(id, 10) > FormatSpec.LARGEST then "{Invalid format string: '" + (id + spec) + "'}"
      else Argument(Numbers.ReadText(id, 10), id + spec, args)
  }

  /** Each of the first n pieces means what it means behind the unnumbered ones in front of it. */
  function Meaning(pieces: seq<Piece>, n: nat, args: Arguments): string
    requires n <= |pieces|
  {
    if n == 0 then "" else Meaning(pieces, n - 1, args) + PieceMeaning(pieces[n - 1], Unnumbereds(pieces, n - 1), args)
  }

  // ----- argument ids -----

  /** A decimal numeral names its value, leading zeros and all, or is refused when it exceeds LARGEST. */
  lemma {:induction false} NumeralValue(id: string, tail: string, value: nat)
    requires IsNumeral(id) && value == Numbers.ReadText(tail, 10)
    requires forall i :: 0 <= i < |tail| ==> FormatSpec.IsDigit(tail[i])
    ensures IdValue(id, value) == if Numbers.ReadText(tail + id, 10) > FormatSpec.LARGEST then None else Some(Numbers.ReadText(tail + id, 10))
  {
    var more := tail + [id[0]];
    assert more[..|tail|] == tail && Numbers.ReadText(more, 10) == value * 10 + FormatSpec.DigitValue(id[0]);
    assert more + id[1..] == tail + id;
    if |id| == 1 {
      assert tail + id == more;
    } else if value > (MAX_VALUE - 9) / 10 {
      Grows(more, id[1..]);
    } else {
      NumeralValue(id[1..], more, Numbers.ReadText(more, 10));
    }
  }

  lemma {:induction false} Grows(a: string, b: string)
    ensures Numbers.ReadText(a + b, 10) >= Numbers.ReadText(a, 10)
  {
    if b == [] {
      assert a + b == a;
    } else {
      Grows(a, b[..|b| - 1]);
      assert (a + b)[..|a + b| - 1] == a + b[..|b| - 1];
    }
  }

  /** ParseArgId on what a placeholder holds: its number, or none in front of a colon or at the end. */
  lemma ArgIdNames(id: string, spec: string)
    requires IsSpec(spec)
    ensures ArgId(spec) == Some(None)
    ensures IsNumeral(id) && Numbers.ReadText(id, 10) <= FormatSpec.LARGEST ==> ArgId(id + spec) == Some(Some(Numbers.ReadText(id, 10)))
    ensures IsNumeral(id) && Numbers.ReadText(id, 10) > FormatSpec.LARGEST ==> ArgId(id + spec) == None
  {
    FirstIndex(spec, ':', 0, 0);
    if IsNumeral(id) {
      FirstIndex(id + spec, ':', 0, |id|);
      assert (id + spec)[..|id|] == id;
      NumeralValue(id, "", 0);
      assert "" + id == id;
    }
  }

  /** Anything else in front of the colon is no id, and the placeholder is reported with its text. */
  lemma {:induction false} NotAnId(id: string, i: nat, value: nat)
    requires i < |id| && !FormatSpec.IsDigit(id[i])
    ensures IdValue(id, value) == None
  {
    if FormatSpec.IsDigit(id[0]) && value <= (MAX_VALUE - 9) / 10 {
      NotAnId(id[1..], i - 1, value * 10 + FormatSpec.DigitValue(id[0]));
    }
  }

  lemma BadIdIsReported(id: string, i: nat, spec: string, rest: string, next: nat, args: Arguments)
    requires ':' !in id && '}' !in id && i < |id| && !FormatSpec.IsDigit(id[i]) && id[0] != '{'
    requires IsSpec(spec) && |id + spec| <= PLACEHOLDER_CAPACITY
    ensures Output("{" + (id + spec) + "}" + rest, 0, next, args)
         == "{Invalid format string: '" + (id + spec) + "'}" + Output(rest, 0, next, args)
  {
    FirstIndex(id + spec, ':', 0, |id|);
    assert (id + spec)[..|id|] == id;
    NotAnId(id, i, 0);
    PlaceholderThenRest(id + spec, rest, next, args);
  }

  // ----- pieces in front of a format -----

  lemma PlaceholderThenRest(text: string, rest: string, next: nat, args: Arguments)
    requires '}' !in text && |text| <= PLACEHOLDER_CAPACITY && (text != "" ==> text[0] != '{')
    ensures Output("{" + text + "}" + rest, 0, next, args)
         == Placeholder(text, next, args) + Output(rest, 0, NextIndex(text, next), args)
  {
    var s := "{" + text + "}" + rest;
    assert s[1..1 + |text|] == text;
    PlaceholderInFront(s, text, rest, next, args);
  }

  lemma PlaceholderInFront(s: string, text: string, rest: string, next: nat, args: Arguments)
    requires '}' !in text && |text| <= PLACEHOLDER_CAPACITY && (text != "" ==> text[0] != '{')
    requires Behind(s, |text| + 2, rest) && s[0] == '{' && s[1..1 + |text|] == text && s[1 + |text|] == '}'
    ensures Output(s, 0, next, args) == Placeholder(text, next, args) + Output(rest, 0, NextIndex(text, next), args)
  {
    var close := 1 + |text|;
    FirstIndex(s, '{', 0, 0);
    forall j | 1 <= j < close ensures s[j] != '}' {
      assert s[j] == text[j - 1];
    }
    FirstIndex(s, '}', 1, close);
    assert s[1] != '{' by {
      assert text != "" ==> s[1] == text[0];
    }
    SameOutput(s, close + 1, rest, 0, NextIndex(text, next), args);
    assert FromBrace(s, 0, next, args) == FromPlaceholder(s, 1, next, args);
    assert FromPlaceholder(s, 1, next, args) == Placeholder(text, next, args) + Output(s, close + 1, NextIndex(text, next), args);
  }

  lemma PieceThenRest(p: Piece, rest: string, next: nat, args: Arguments)
    requires ValidPiece(p)
    ensures Output(PieceText(p) + rest, 0, next, args)
         == PieceMeaning(p, next, args) + Output(rest, 0, next + TakesNext(p), args)
  {
    match p
    case Literal(text) => EscapedText(text, rest, next, args);
    case Unnumbered(spec) =>
      ArgIdNames("", spec);
      PlaceholderThenRest(spec, rest, next, args);
    case Numbered(id, spec) =>
      ArgIdNames(id, spec);
      PlaceholderThenRest(id + spec, rest, next, args);
  }

  lemma Regroups(a: string, b: string, c: string, ab: string)
    requires ab == a + b
    ensures ab + c == a + (b + c)
  {}

  lemma OneMore(front: string, meaning: string, p: Piece, rest: string, before: nat, args: Arguments)
    requires ValidPiece(p)
    requires Output(front + (PieceText(p) + rest), 0, 0, args) == meaning + Output(PieceText(p) + rest, 0, before, args)
    ensures Output(front + PieceText(p) + rest, 0, 0, args)
         == meaning + PieceMeaning(p, before, args) + Output(rest, 0, before + TakesNext(p), args)
  {
    Regroups(front, PieceText(p), rest, front + PieceText(p));
    PieceThenRest(p, rest, before, args);
    var m := PieceMeaning(p, before, args);
    Regroups(meaning, m, Output(rest, 0, before + TakesNext(p), args), meaning + m);
  }

  /** The first pieces of a format give their meanings in order, and leave the rest of it as it was. */
  lemma {:induction false} PiecesThenRest(pieces: seq<Piece>, n: nat, rest: string, args: Arguments)
    requires n <= |pieces| && forall i :: 0 <= i < n ==> ValidPiece(pieces[i])
    ensures Output(Joined(pieces, n) + rest, 0, 0, args) == Meaning(pieces, n, args) + Output(rest, 0, Unnumbereds(pieces, n), args)
  {
    if n == 0 {
      assert "" + rest == rest;
      assert "" + Output(rest, 0, 0, args) == Output(rest, 0, 0, args);
    } else {
      var (p, before) := (pieces[n - 1], Unnumbereds(pieces, n - 1));
      PiecesThenRest(pieces, n - 1, PieceText(p) + rest, args);
      OneMore(Joined(pieces, n - 1), Meaning(pieces, n - 1, args), p, rest, before, args);
      assert Joined(pieces, n) == Joined(pieces, n - 1) + PieceText(p) && Unnumbereds(pieces, n) == before + TakesNext(p);
      assert Meaning(pieces, n, args) == Meaning(pieces, n - 1, args) + PieceMeaning(p, before, args);
    }
  }

  /** A whole format, and one that ends in an opening brace or in a placeholder that is never closed. */
  lemma FormatMeans(pieces: seq<Piece>, unclosed: string, args: Arguments)
    requires forall p :: p in pieces ==> ValidPiece(p)
    requires '}' !in unclosed && (unclosed != "" ==> unclosed[0] != '{')
    ensures Output(Joined(pieces, |pieces|), 0, 0, args) == Meaning(pieces, |pieces|, args)
    ensures Output(Joined(pieces, |pieces|) + ("{" + unclosed), 0, 0, args) == Meaning(pieces, |pieces|, args)
  {
    PiecesThenRest(pieces, |pieces|, "", args);
    assert Joined(pieces, |pieces|) + "" == Joined(pieces, |pieces|);
    PiecesThenRest(pieces, |pieces|, "{" + unclosed, args);
    UnclosedEnds("{" + unclosed, Unnumbereds(pieces, |pieces|), args);
  }

  lemma UnclosedEnds(s: string, next: nat, args: Arguments)
    requires s != "" && s[0] == '{' && '}' !in s && (|s| > 1 ==> s[1] != '{')
    ensures Output(s, 0, next, args) == ""
  {
    FirstIndex(s, '{', 0, 0);
    if |s| > 1 {
      FirstIndex(s, '}', 1, |s|);
      assert FromPlaceholder(s, 1, next, args) == "";
    }
    assert FromBrace(s, 0, next, args) == "";
  }
}
