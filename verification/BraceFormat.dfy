/**
  BuildFormatOutput: literal text, doubled braces and placeholders.  A format is the text before its
  terminating NUL, which is read as the character at index |fmt|; nothing beyond it is ever read.
 */
module BraceFormat {
  import opened Wrappers
  import opened TextBuffer
  import FormatSpec

  const PLACEHOLDER_CAPACITY: nat := 32
  const MAX_VALUE: nat := 0xFFFF_FFFF

  /** What the arguments append, given a position and the placeholder's text. */
  datatype Arguments = Arguments(count: nat, render: (nat, string) -> string)

  // ----- the specification -----

  /** The index of the first c from i on, or |s|. */
  function IndexFrom(s: string, c: char, i: nat): (k: nat)
    requires i <= |s|
    ensures i <= k <= |s| && (k < |s| ==> s[k] == c) && forall j :: i <= j < k ==> s[j] != c
    decreases |s| - i
  {
    if i == |s| || s[i] == c then i else IndexFrom(s, c, i + 1)
  }

  lemma FirstIndex(s: string, c: char, i: nat, k: nat)
    requires i <= k <= |s| && (k < |s| ==> s[k] == c) && forall j :: i <= j < k ==> s[j] != c
    ensures IndexFrom(s, c, i) == k
  {
    var first := IndexFrom(s, c, i);
    assert !(first < k) && !(k < first);
  }

  /** The literal text s[i..end], in which two closing braces stand for one. */
  function Unescape(s: string, i: nat, end: nat): string
    requires i <= end <= |s|
    decreases end - i
  {
    if i == end then []
    else if s[i] == '}' && i + 1 < end && s[i + 1] == '}' then "}" + Unescape(s, i + 2, end)
    else [s[i]] + Unescape(s, i + 1, end)
  }

  /** The digits of an argument id, onto the value so far; None when one is no digit or the value could leave 32 bits. */
  function IdValue(s: string, value: nat): Option<nat> {
    if s == [] then Some(value)
    else if !FormatSpec.IsDigit(s[0]) || value > (MAX_VALUE - 9) / 10 then None
    else IdValue(s[1..], value * 10 + FormatSpec.DigitValue(s[0]))
  }

  /** None: not a valid placeholder; Some(None): no id in front of the colon. */
  function ArgId(s: string): Option<Option<nat>> {
    var colon := IndexFrom(s, ':', 0);
    if colon == 0 then Some(None)
    else match IdValue(s[..colon], 0)
         case None => None
         case Some(v) => Some(Some(v))
  }

  function Placeholder(text: string, next: nat, args: Arguments): string {
    match ArgId(text)
    case None => "{Invalid format string: '" + text + "'}"
    case Some(id) =>
      var position := id.GetOr(next % 0x1_0000_0000);
      if position < args.count then args.render(position, text) else "{Argument position out of range}"
  }

  function NextIndex(text: string, next: nat): nat {
    if ArgId(text) == Some(None) then next + 1 else next
  }

  /** What a format gives from character i on; next is the argument an unnumbered placeholder takes. */
  function Output(s: string, i: nat, next: nat, args: Arguments): string
    requires i <= |s|
    decreases |s| - i, 1
  {
    if i == |s| then []
    else Unescape(s, i, IndexFrom(s, '{', i)) + FromBrace(s, IndexFrom(s, '{', i), next, args)
  }

  /** From an opening brace, or the end: an escaped brace, a lone last one, or a placeholder. */
  function FromBrace(s: string, i: nat, next: nat, args: Arguments): string
    requires i <= |s|
    decreases |s| - i, 0
  {
    if i + 1 >= |s| then []
    else if s[i + 1] == '{' then "{" + Output(s, i + 2, next, args)
    else FromPlaceholder(s, i + 1, next, args)
  }

  /** From the first character of a placeholder; one that is not closed ends the output. */
  function FromPlaceholder(s: string, i: nat, next: nat, args: Arguments): string
    requires i <= |s|
    decreases |s| - i, 0
  {
    var close := IndexFrom(s, '}', i);
    if close == |s| then []
    else
      var text := Fit(s[i..close], PLACEHOLDER_CAPACITY);
      Placeholder(text, next, args) + Output(s, close + 1, NextIndex(text, next), args)
  }

  // ----- only what follows matters -----

  /** s is t behind d other characters. */
  ghost predicate Behind(s: string, d: nat, t: string) {
    |s| == d + |t| && forall x {:trigger t[x]} :: 0 <= x < |t| ==> s[d + x] == t[x]
  }

  lemma {:induction false} SameIndex(s: string, d: nat, t: string, c: char, i: nat)
    requires Behind(s, d, t) && i <= |t|
    ensures IndexFrom(s, c, d + i) == d + IndexFrom(t, c, i)
    decreases |t| - i
  {
    if i < |t| && t[i] != c {
      SameIndex(s, d, t, c, i + 1);
    }
  }

  lemma {:induction false} SameLiteral(s: string, d: nat, t: string, i: nat, end: nat)
    requires i <= end <= |t| && d + end <= |s| && forall x {:trigger t[x]} :: i <= x < end ==> s[d + x] == t[x]
    ensures Unescape(s, d + i, d + end) == Unescape(t, i, end)
    decreases end - i
  {
    if i < end {
      assert t[i] == s[d + i] && (i + 1 < end ==> t[i + 1] == s[d + (i + 1)]);
      SameLiteral(s, d, t, if t[i] == '}' && i + 1 < end && t[i + 1] == '}' then i + 2 else i + 1, end);
    }
  }

  lemma SameSlice(s: string, d: nat, t: string, i: nat, j: nat)
    requires Behind(s, d, t) && i <= j <= |t|
    ensures s[d + i..d + j] == t[i..j]
  {}

  lemma {:induction false} SameOutput(s: string, d: nat, t: string, i: nat, next: nat, args: Arguments)
    requires Behind(s, d, t) && i <= |t|
    ensures Output(s, d + i, next, args) == Output(t, i, next, args)
    decreases |t| - i, 1
  {
    if i < |t| {
      SameIndex(s, d, t, '{', i);
      SameLiteral(s, d, t, i, IndexFrom(t, '{', i));
      SameFromBrace(s, d, t, IndexFrom(t, '{', i), next, args);
    }
  }

  lemma {:induction false} SameFromBrace(s: string, d: nat, t: string, i: nat, next: nat, args: Arguments)
    requires Behind(s, d, t) && i <= |t|
    ensures FromBrace(s, d + i, next, args) == FromBrace(t, i, next, args)
    decreases |t| - i, 0
  {
    if i + 1 < |t| {
      assert s[d + (i + 1)] == t[i + 1];
      if t[i + 1] == '{' {
        SameOutput(s, d, t, i + 2, next, args);
      } else {
        SameFromPlaceholder(s, d, t, i + 1, next, args);
      }
    }
  }

  lemma {:induction false} SameFromPlaceholder(s: string, d: nat, t: string, i: nat, next: nat, args: Arguments)
    requires Behind(s, d, t) && i <= |t|
    ensures FromPlaceholder(s, d + i, next, args) == FromPlaceholder(t, i, next, args)
    decreases |t| - i, 0
  {
    SameIndex(s, d, t, '}', i);
    var close := IndexFrom(t, '}', i);
    if close < |t| {
      SameSlice(s, d, t, i, close);
      var text := Fit(t[i..close], PLACEHOLDER_CAPACITY);
      SameOutput(s, d, t, close + 1, NextIndex(text, next), args);
      assert FromPlaceholder(s, d + i, next, args) == Placeholder(text, next, args) + Output(s, d + (close + 1), NextIndex(text, next), args);
    }
  }

  // ----- escaping -----

  function EscapeChar(c: char): string {
    if c == '{' then "{{" else if c == '}' then "}}" else [c]
  }

  /** Doubles every brace. */
  function Escape(s: string): string {
    if s == [] then [] else EscapeChar(s[0]) + Escape(s[1..])
  }

  lemma AppendAssociates(a: string, b: string, c: string)
    ensures a + (b + c) == a + b + c
  {}

  /** Text without opening braces: escaping adds none, and unescaping undoes it. */
  lemma {:induction false} LiteralRoundTrip(s: string)
    requires forall i :: 0 <= i < |s| ==> s[i] != '{'
    ensures Unescape(Escape(s), 0, |Escape(s)|) == s
    ensures forall i :: 0 <= i < |Escape(s)| ==> Escape(s)[i] != '{'
  {
    if s != [] {
      LiteralRoundTrip(s[1..]);
      var (c, rest) := (EscapeChar(s[0]), Escape(s[1..]));
      var e := c + rest;
      SameLiteral(e, |c|, rest, 0, |rest|);
      assert s == [s[0]] + s[1..];
    }
  }

  /** One character of text in front of a format: its escaped form stands for it, whatever follows. */
  lemma EscapedCharacter(c: char, rest: string, next: nat, args: Arguments)
    ensures Output(EscapeChar(c) + rest, 0, next, args) == [c] + Output(rest, 0, next, args)
  {
    var s := EscapeChar(c) + rest;
    if c == '{' {
      assert s[0] == '{' && s[1] == '{';
      SameOutput(s, 2, rest, 0, next, args);
    } else {
      var (d, k) := (|EscapeChar(c)|, IndexFrom(rest, '{', 0));
      SameIndex(s, d, rest, '{', 0);
      FirstIndex(s, '{', 0, d + k);
      SameLiteral(s, d, rest, 0, k);
      assert Unescape(s, 0, d + k) == [c] + Unescape(rest, 0, k);
      SameFromBrace(s, d, rest, k, next, args);
      AppendAssociates([c], Unescape(rest, 0, k), FromBrace(rest, k, next, args));
      OutputIs(rest, next, args);
    }
  }

  /** Output without its case for the end: there the literal text and what follows it are empty. */
  lemma OutputIs(s: string, next: nat, args: Arguments)
    ensures Output(s, 0, next, args) == Unescape(s, 0, IndexFrom(s, '{', 0)) + FromBrace(s, IndexFrom(s, '{', 0), next, args)
  {}

  /** Escaped text in front of a format gives the text, and leaves the rest of the format as it was. */
  lemma {:induction false} EscapedText(s: string, rest: string, next: nat, args: Arguments)
    ensures Output(Escape(s) + rest, 0, next, args) == s + Output(rest, 0, next, args)
  {
    if s == [] {
      assert Escape(s) + rest == rest;
    } else {
      EscapedText(s[1..], rest, next, args);
      AppendAssociates(EscapeChar(s[0]), Escape(s[1..]), rest);
      EscapedCharacter(s[0], Escape(s[1..]) + rest, next, args);
      AppendAssociates([s[0]], s[1..], Output(rest, 0, next, args));
      assert [s[0]] + s[1..] == s;
    }
  }

  /** A text with its braces doubled, formatted with no arguments, is the text again. */
  lemma EscapeRoundTrip(s: string, next: nat, args: Arguments)
    ensures Output(Escape(s), 0, next, args) == s
  {
    EscapedText(s, "", next, args);
    assert Escape(s) + "" == Escape(s);
  }

  // ----- the scan -----

  /** fmt[i]; the NUL at the end may be read, and nothing behind it. */
  function CharAt(fmt: string, i: nat): char
    requires i <= |fmt|
  {
    if i < |fmt| then fmt[i] else '\0'
  }

  predicate NulFree(s: string) {
    forall i :: 0 <= i < |s| ==> s[i] != '\0'
  }

  /** Escaping adds no NUL and loses none, so escaped text can be passed as a format exactly when the text can. */
  lemma {:induction false} EscapeIsNulFree(s: string)
    ensures NulFree(Escape(s)) <==> NulFree(s)
  {
    if s != [] {
      EscapeIsNulFree(s[1..]);
      var e := Escape(s);
      assert e == EscapeChar(s[0]) + Escape(s[1..]);
      if NulFree(s) {
        assert forall i :: 0 <= i < |s[1..]| ==> s[1..][i] == s[i + 1];
      } else if s[0] == '\0' {
        assert e[0] == '\0';
      } else {
        var i :| 0 <= i < |s| && s[i] == '\0';
        assert s[1..][i - 1] == '\0';
        var j :| 0 <= j < |Escape(s[1..])| && Escape(s[1..])[j] == '\0';
        assert e[|EscapeChar(s[0])| + j] == '\0';
      }
    }
  }

  /** strcspn(fmt + from, [stop]) */
  method Strcspn(fmt: string, from: nat, stop: char) returns (n: nat)
    requires NulFree(fmt) && from <= |fmt| && stop != '\0'
    ensures from + n <= |fmt| && from + n == IndexFrom(fmt, stop, from)
  {
    n := 0;
    while CharAt(fmt, from + n) != '\0' && CharAt(fmt, from + n) != stop
      invariant from + n <= |fmt| && 0 <= n
      invariant forall j :: from <= j < from + n ==> fmt[j] != stop
      decreases |fmt| - from - n
    {
      n := n + 1;
    }
    FirstIndex(fmt, stop, from, from + n);
  }

  /** Literal text, character by character; of a doubled closing brace the second is skipped. */
  method AppendLiteral(buffer: Buffer, fmt: string, from: nat, count: nat)
    requires buffer.Valid() && from + count <= |fmt|
    modifies buffer
    ensures buffer.Valid() && buffer.written == old(buffer.written) + Unescape(fmt, from, from + count)
  {
    var j := 0;
    ghost var end := from + count;
    while j < count
      invariant 0 <= j <= count && buffer.Valid()
      invariant buffer.written + Unescape(fmt, from + j, end) == old(buffer.written) + Unescape(fmt, from, end)
    {
      ghost var (before, i) := (buffer.written, from + j);
      buffer.PushBack(fmt[from + j]);
      if fmt[from + j] == '}' && j + 1 < count && fmt[from + j + 1] == '}' {
        j := j + 1;
      }
      j := j + 1;
      AppendAssociates(before, [fmt[i]], Unescape(fmt, from + j, end));
    }
  }

  /** ParseArgId: the first result tells a valid placeholder, the second holds its id if it has one. */
  method ParseArgId(text: string) returns (valid: bool, id: Option<nat>)
    ensures (if valid then Some(id) else None) == ArgId(text)
  {
    if text == [] {
      return true, None;
    }
    var colon := 0;
    while colon < |text| && text[colon] != ':'
      invariant 0 <= colon <= |text| && forall j :: 0 <= j < colon ==> text[j] != ':'
    {
      colon := colon + 1;
    }
    FirstIndex(text, ':', 0, colon);
    if colon == 0 {
      return true, None;
    }
    var position := 0;
    var i := 0;
    while i < colon
      invariant 0 <= i <= colon && 0 <= position
      invariant IdValue(text[i..colon], position) == IdValue(text[..colon], 0)
    {
      assert text[i..colon][0] == text[i] && text[i..colon][1..] == text[i + 1..colon];
      if !FormatSpec.IsDigit(text[i]) || position > (MAX_VALUE - 9) / 10 {
        return false, None;
      }
      position := position * 10 + FormatSpec.DigitValue(text[i]);
      i := i + 1;
    }
    assert text[colon..colon] == [];
    return true, Some(position);
  }

  method AppendPlaceholder(buffer: Buffer, text: string, next: nat, args: Arguments) returns (next': nat)
    requires buffer.Valid()
    modifies buffer
    ensures buffer.Valid() && buffer.written == old(buffer.written) + Placeholder(text, next, args)
    ensures next' == NextIndex(text, next)
  {
    var valid, id := ParseArgId(text);
    next' := next;
    if !valid {
      buffer.Append("{Invalid format string: '");
      buffer.Append(text);
      buffer.Append("'}");
      return;
    }
    var position := if id.Some? then id.value else next % 0x1_0000_0000;
    if id.None? {
      next' := next + 1;
    }
    if position < args.count {
      buffer.Append(args.render(position, text));
    } else {
      buffer.Append("{Argument position out of range}");
    }
  }

  /** One turn of the scan from character i: literal text and the brace or placeholder behind it. */
  method AppendSegment(buffer: Buffer, fmt: string, i: nat, next: nat, args: Arguments) returns (i': nat, next': nat, done: bool)
    requires buffer.Valid() && NulFree(fmt) && i < |fmt|
    modifies buffer
    ensures buffer.Valid() && i < i' && (!done ==> i' <= |fmt|)
    ensures buffer.written + (if done then [] else Output(fmt, i', next', args)) == old(buffer.written) + Output(fmt, i, next, args)
  {
    var open := Strcspn(fmt, i, '{');
    AppendLiteral(buffer, fmt, i, open);
    AppendAssociates(old(buffer.written), Unescape(fmt, i, i + open), FromBrace(fmt, i + open, next, args));
    i', next', done := AppendBrace(buffer, fmt, i + open, next, args);
  }

  /** At an opening brace or at the end. */
  method AppendBrace(buffer: Buffer, fmt: string, i: nat, next: nat, args: Arguments) returns (i': nat, next': nat, done: bool)
    requires buffer.Valid() && NulFree(fmt) && i <= |fmt|
    modifies buffer
    ensures buffer.Valid() && i < i' && (!done ==> i' <= |fmt|)
    ensures buffer.written + (if done then [] else Output(fmt, i', next', args)) == old(buffer.written) + FromBrace(fmt, i, next, args)
  {
    i', next', done := i + 1, next, false;
    if i' < |fmt| && CharAt(fmt, i') == '{' {
      buffer.PushBack('{');
      AppendAssociates(old(buffer.written), "{", Output(fmt, i' + 1, next, args));
      i' := i' + 1;
    } else if i' >= |fmt| {
      done := true;
    } else {
      i', next', done := AppendArgument(buffer, fmt, i', next, args);
    }
  }

  /** The placeholder whose text starts at i; without a closing brace the scan is over. */
  method AppendArgument(buffer: Buffer, fmt: string, i: nat, next: nat, args: Arguments) returns (i': nat, next': nat, done: bool)
    requires buffer.Valid() && NulFree(fmt) && i < |fmt|
    modifies buffer
    ensures buffer.Valid() && i <= i' && (!done ==> i' <= |fmt|)
    ensures buffer.written + (if done then [] else Output(fmt, i', next', args)) == old(buffer.written) + FromPlaceholder(fmt, i, next, args)
  {
    var close := Strcspn(fmt, i, '}');
    if i + close >= |fmt| {
      return i, next, true;
    }
    var text := Fit(fmt[i..i + close], PLACEHOLDER_CAPACITY);
    i', done := i + close + 1, false;
    next' := AppendPlaceholder(buffer, text, next, args);
    AppendAssociates(old(buffer.written), Placeholder(text, next, args), Output(fmt, i', next', args));
  }

  /** The scan ends for every format, and reads no character behind the terminating NUL. */
  method BuildFormatOutput(buffer: Buffer, fmt: string, args: Arguments)
    requires buffer.Valid() && NulFree(fmt)
    modifies buffer
    ensures buffer.Valid() && buffer.written == old(buffer.written) + Output(fmt, 0, 0, args)
  {
    var i: nat, next: nat := 0, 0;
    while CharAt(fmt, i) != '\0'
      invariant i <= |fmt| && buffer.Valid()
      invariant buffer.written + Output(fmt, i, next, args) == old(buffer.written) + Output(fmt, 0, 0, args)
      decreases |fmt| - i
    {
      var i', done;
      i', next, done := AppendSegment(buffer, fmt, i, next, args);
      if done {
        return;
      }
      i := i';
    }
  }

  /** The round trip through the scan: formatting the escaped text writes the text. */
  method FormatEscaped(buffer: Buffer, s: string, args: Arguments)
    requires buffer.Valid() && NulFree(s)
    modifies buffer
    ensures buffer.Valid() && buffer.written == old(buffer.written) + s
  {
    EscapeIsNulFree(s);
    EscapeRoundTrip(s, 0, args);
    BuildFormatOutput(buffer, Escape(s), args);
  }
}
