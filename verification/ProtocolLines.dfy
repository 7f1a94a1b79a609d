/**
  * The guard in front of the JSON parser: strip ANSI escape sequences, trim, and keep
  * only what starts like a JSON record. The escape grammar is that of ECMA-48
  * (sections 5.4 to 5.6) and of ECMA-35 for the short escapes.
  */
module ProtocolLines {
  import opened Wrappers
  import opened Framing

  const ESC := '\U{1B}'
  const BEL := '\U{07}'

  predicate IsParameter(c: char) { '\U{30}' <= c <= '\U{3F}' }
  predicate IsIntermediate(c: char) { '\U{20}' <= c <= '\U{2F}' }
  predicate IsCsiFinal(c: char) { '\U{40}' <= c <= '\U{7E}' }
  predicate IsShortFinal(c: char) { '\U{30}' <= c <= '\U{7E}' }

  /** The second character of a string sequence: DCS, SOS, PM, APC and OSC. */
  predicate IsStringIntroducer(c: char) { c == 'P' || c == 'X' || c == '^' || c == '_' || c == ']' }

  /** What `.` does not match. */
  predicate IsLineTerminator(c: char) { c == '\n' || c == '\r' || c == '\U{2028}' || c == '\U{2029}' }

  /** What `trim` removes. */
  predicate IsSpace(c: char) {
    || IsLineTerminator(c) || c == '\t' || c == '\U{0B}' || c == '\U{0C}' || c == ' ' || c == '\U{A0}'
    || c == '\U{FEFF}' || c == '\U{1680}' || '\U{2000}' <= c <= '\U{200A}' || c == '\U{202F}'
    || c == '\U{205F}' || c == '\U{3000}'
  }

  // ---------------------------------------------------------------- the scanner

  /** How many leading characters of `s` satisfy `p`: a greedy class with a star. */
  function Span(s: string, p: char -> bool): (n: nat)
    ensures n <= |s| && forall i :: 0 <= i < n ==> p(s[i])
    ensures n < |s| ==> !p(s[n])
  {
    if s == [] || !p(s[0]) then 0 else 1 + Span(s[1..], p)
  }

  /** What follows `ESC [`, or 0. The three classes are disjoint, so the stars never give back. */
  function ToFinal(s: string): (n: nat)
    ensures n <= |s|
  {
    var i := Span(s, IsParameter);
    var j := i + Span(s[i..], IsIntermediate);
    if j < |s| && IsCsiFinal(s[j]) then j + 1 else 0
  }

  /** Length of the control sequence `s` starts with, or 0. */
  function CsiLength(s: string): (n: nat)
    ensures n <= |s|
  {
    if |s| < 2 || s[0] != ESC || s[1] != '[' then 0
    else
      var n := ToFinal(s[2..]);
      if n == 0 then 0 else n + 2
  }

  /** `.*?(?:\x07|\x1b\\)`: length up to and including the first terminator, or 0 if a line ends first. */
  function ToTerminator(s: string): (n: nat)
    ensures n <= |s|
  {
    if s == [] then 0
    else if s[0] == BEL then 1
    else if s[0] == ESC && |s| >= 2 && s[1] == '\\' then 2
    else if IsLineTerminator(s[0]) then 0
    else
      var n := ToTerminator(s[1..]);
      if n == 0 then 0 else n + 1
  }

  function StringLength(s: string): (n: nat)
    ensures n <= |s|
  {
    if |s| < 2 || s[0] != ESC || !IsStringIntroducer(s[1]) then 0
    else
      var n := ToTerminator(s[2..]);
      if n == 0 then 0 else n + 2
  }

  function ShortLength(s: string): (n: nat)
    ensures n <= |s|
  {
    if s == [] || s[0] != ESC then 0
    else
      var i := 1 + Span(s[1..], IsIntermediate);
      if i < |s| && IsShortFinal(s[i]) then i + 1 else 0
  }

  /** The first alternative that matches, in the order of the expression; a lone ESC is the last one. */
  function MatchLength(s: string): (n: nat)
    requires s != [] && s[0] == ESC
    ensures 0 < n <= |s|
  {
    if CsiLength(s) > 0 then CsiLength(s)
    else if StringLength(s) > 0 then StringLength(s)
    else if ShortLength(s) > 0 then ShortLength(s)
    else 1
  }

  /** `replace(ANSI_ESCAPE_RE, "")`. */
  function Strip(s: string): string
    decreases |s|
  {
    if s == [] then []
    else if s[0] == ESC then Strip(s[MatchLength(s)..])
    else [s[0]] + Strip(s[1..])
  }

  function TrimStart(s: string): string {
    if s != [] && IsSpace(s[0]) then TrimStart(s[1..]) else s
  }

  function TrimEnd(s: string): string {
    if s != [] && IsSpace(s[|s| - 1]) then TrimEnd(s[..|s| - 1]) else s
  }

  function Trim(s: string): string {
    TrimEnd(TrimStart(s))
  }

  predicate StartsLikeJson(s: string) {
    s != [] && (s[0] == '{' || s[0] == '[')
  }

  /** `cleanProtocolLine`; `None` as argument is any value that is not a string. */
  function CleanProtocolLine(rawLine: Option<string>): Option<string> {
    if rawLine.None? then None
    else
      var cleaned := Trim(Strip(rawLine.value));
      if StartsLikeJson(cleaned) then Some(cleaned) else None
  }

  // ---------------------------------------------------------------- the grammar

  /** A piece of a line: plain text, or one escape sequence by its parts. */
  datatype Token =
    | Plain(text: string)
    | Csi(parameters: string, intermediates: string, final: char)
    | Str(introducer: char, body: string, bell: bool)
    | Short(intermediates: string, final: char)
    | LoneEsc

  predicate All(s: string, p: char -> bool) {
    forall i :: 0 <= i < |s| ==> p(s[i])
  }

  /** ESC and `c`, one behind the other. */
  predicate HasPair(s: string, c: char) {
    exists i :: 0 <= i < |s| - 1 && s[i] == ESC && s[i + 1] == c
  }

  /** Section 5.6: 00/08 to 00/13 and 02/00 to 07/14; beyond that set, the characters that a text may hold. */
  predicate IsCommandCharacter(c: char) {
    '\U{08}' <= c <= '\U{0D}' || '\U{20}' <= c <= '\U{7E}' || '\U{A0}' <= c
  }

  /**
    * Section 5.6: a character string is anything without SOS and ST, a command string is made of the characters above.
    */
  predicate IsStringBody(introducer: char, body: string) {
    if introducer == 'X' then !HasPair(body, 'X') && !HasPair(body, '\\') else All(body, IsCommandCharacter)
  }

  /** No line ends in the body, and no bell rings. */
  predicate IsClear(body: string) {
    forall i :: 0 <= i < |body| ==> body[i] != BEL && !IsLineTerminator(body[i])
  }

  /** What the expression takes for the body of a string sequence. */
  predicate IsBody(s: string) {
    IsClear(s) && !HasPair(s, '\\')
  }

  /**
    * The sequences of the standards. A string sequence ends with ST or, as terminals have it, with BEL, which then
    * does not occur in it.
    */
  predicate WellFormed(t: Token) {
    match t
    case Plain(text) => ESC !in text
    case Csi(ps, mid, final) => All(ps, IsParameter) && All(mid, IsIntermediate) && IsCsiFinal(final)
    case Str(introducer, body, bell) =>
      IsStringIntroducer(introducer) && IsStringBody(introducer, body) && (bell ==> BEL !in body)
    case Short(mid, final) =>
      All(mid, IsIntermediate) && IsShortFinal(final) && (mid == [] ==> final != '[' && !IsStringIntroducer(final))
    case LoneEsc => false
  }

  /** A string sequence passes if its body is clear; every other sequence does. */
  predicate Passes(t: Token) {
    t.Str? ==> IsClear(t.body)
  }

  /** What ends a string sequence. */
  function End(t: Token): string
    requires t.Str?
  {
    if t.bell then [BEL] else [ESC, '\\']
  }

  function Render(t: Token): string {
    match t
    case Plain(text) => text
    case Csi(ps, mid, final) => [ESC, '['] + ps + mid + [final]
    case Str(introducer, body, _) => [ESC, introducer] + body + End(t)
    case Short(mid, final) => [ESC] + mid + [final]
    case LoneEsc => [ESC]
  }

  function RenderAll(ts: seq<Token>): string {
    if ts == [] then [] else Render(ts[0]) + RenderAll(ts[1..])
  }

  /** What should be left of a line: its plain text. */
  function TextOf(ts: seq<Token>): string {
    if ts == [] then [] else (if ts[0].Plain? then ts[0].text else []) + TextOf(ts[1..])
  }

  lemma {:induction false} SpanAll(a: string, b: string, p: char -> bool)
    requires All(a, p) && (b == [] || !p(b[0]))
    ensures Span(a + b, p) == |a|
  {
    if a == [] {
      assert a + b == b;
    } else {
      assert (a + b)[1..] == a[1..] + b && (a + b)[0] == a[0];
      SpanAll(a[1..], b, p);
    }
  }

  lemma CsiClassesDisjoint(t: Token)
    requires t.Csi? && WellFormed(t)
    ensures !IsIntermediate(t.final) && !IsParameter((t.intermediates + [t.final])[0])
  {
  }

  lemma FinalFound(t: Token, rest: string)
    requires t.Csi? && WellFormed(t)
    ensures ToFinal(t.parameters + (t.intermediates + ([t.final] + rest))) == |t.parameters| + |t.intermediates| + 1
  {
    CsiClassesDisjoint(t);
    assert All(t.parameters, IsParameter) && All(t.intermediates, IsIntermediate) && IsCsiFinal(t.final);
    hide Span, IsParameter, IsIntermediate, IsCsiFinal, WellFormed;
    var tail := t.intermediates + ([t.final] + rest);
    assert tail[0] == (t.intermediates + [t.final])[0];
    SpanAll(t.parameters, tail, IsParameter);
    assert (t.parameters + tail)[|t.parameters|..] == tail;
    SpanAll(t.intermediates, [t.final] + rest, IsIntermediate);
  }

  lemma CsiMatches(t: Token, rest: string)
    requires t.Csi? && WellFormed(t)
    ensures CsiLength(Render(t) + rest) == |Render(t)|
  {
    FinalFound(t, rest);
    hide ToFinal, WellFormed;
    var ps, mid, final := t.parameters, t.intermediates, [t.final];
    ConcatAssoc([ESC, '['], ps, mid);
    ConcatAssoc([ESC, '['], ps + mid, final);
    ConcatAssoc([ESC, '['], ps + mid + final, rest);
    ConcatAssoc(ps + mid, final, rest);
    ConcatAssoc(ps, mid, final + rest);
    var tail := ps + (mid + (final + rest));
    assert Render(t) + rest == [ESC, '['] + tail;
    assert ([ESC, '['] + tail)[2..] == tail;
  }

  lemma {:induction false} TerminatorFound(body: string, bell: bool, rest: string)
    requires IsBody(body)
    ensures var end := if bell then [BEL] else [ESC, '\\'];
      ToTerminator(body + end + rest) == |body| + |end|
  {
    var end := if bell then [BEL] else [ESC, '\\'];
    var s := body + end + rest;
    if body == [] {
      assert s == end + rest;
    } else {
      assert s[1..] == body[1..] + end + rest;
      BodyTail(body);
      TerminatorFound(body[1..], bell, rest);
      assert s[0] == body[0] && s[1] == (if |body| > 1 then body[1] else end[0]);
      assert |body| > 1 && body[0] == ESC ==> body[1] != '\\';
    }
  }

  lemma BodyTail(body: string)
    requires body != [] && !HasPair(body, '\\')
    ensures !HasPair(body[1..], '\\') && (IsClear(body) ==> IsClear(body[1..]))
  {
    assert forall i :: 0 <= i < |body| - 1 ==> body[1..][i] == body[i + 1];
  }

  /** The body of a well-formed string never holds ST. */
  lemma StringBodyHasNoTerminator(t: Token)
    requires t.Str? && WellFormed(t)
    ensures !HasPair(t.body, '\\') && (t.introducer != 'X' ==> ESC !in t.body && BEL !in t.body)
  {
  }

  lemma StringMatches(t: Token, rest: string)
    requires t.Str? && WellFormed(t) && IsClear(t.body)
    ensures StringLength(Render(t) + rest) == |Render(t)| && CsiLength(Render(t) + rest) == 0
  {
    assert (Render(t) + rest)[2..] == t.body + End(t) + rest;
    StringBodyHasNoTerminator(t);
    TerminatorFound(t.body, t.bell, rest);
  }

  /** A body that is not clear ends the search early, or for good. */
  lemma {:induction false} SearchEndsInside(body: string, tail: string)
    requires !IsClear(body) && !HasPair(body, '\\')
    ensures ToTerminator(body + tail) <= |body|
    ensures BEL !in body ==> ToTerminator(body + tail) == 0
  {
    var s := body + tail;
    assert s[0] == body[0];
    if body[0] != BEL && !IsLineTerminator(body[0]) {
      assert s[1..] == body[1..] + tail;
      BodyTail(body);
      assert !IsClear(body[1..]) by {
        var i :| 0 <= i < |body| && (body[i] == BEL || IsLineTerminator(body[i]));
        assert body[1..][i - 1] == body[i];
      }
      SearchEndsInside(body[1..], tail);
      assert s[1] == body[1];
    }
  }

  /** Whatever follows: a well-formed string sequence is matched whole if and only if its body is clear. */
  lemma StringIsMatchedWholeIff(t: Token, rest: string)
    requires t.Str? && WellFormed(t)
    ensures MatchLength(Render(t) + rest) == |Render(t)| <==> IsClear(t.body)
  {
    if IsClear(t.body) {
      StringMatches(t, rest);
    } else {
      UnclearStringIsCut(t, rest);
    }
  }

  lemma UnclearStringIsCut(t: Token, rest: string)
    requires t.Str? && WellFormed(t) && !IsClear(t.body)
    ensures MatchLength(Render(t) + rest) < |Render(t)|
  {
    StringBodyHasNoTerminator(t);
    IntroducerThen(t.introducer, t.body + (End(t) + rest));
    hide WellFormed, MatchLength, ToTerminator, IsStringIntroducer;
    assert Render(t) + rest == [ESC, t.introducer] + (t.body + (End(t) + rest));
    SearchEndsInside(t.body, End(t) + rest);
  }

  /** Where no string sequence ends, its introducer is a short escape. */
  lemma IntroducerIsShort(introducer: char, tail: string)
    requires IsStringIntroducer(introducer)
    ensures CsiLength([ESC, introducer] + tail) == 0 && ShortLength([ESC, introducer] + tail) == 2
  {
    var s := [ESC, introducer] + tail;
    assert s[1..][0] == introducer && !IsIntermediate(introducer);
  }

  /** An introducer is followed by a string, or is a short escape. */
  lemma IntroducerThen(introducer: char, tail: string)
    requires IsStringIntroducer(introducer)
    ensures MatchLength([ESC, introducer] + tail) == 2 + ToTerminator(tail)
  {
    IntroducerIsShort(introducer, tail);
    var s := [ESC, introducer] + tail;
    assert s[2..] == tail;
    hide CsiLength, ShortLength, ToTerminator, IsStringIntroducer;
  }

  lemma ShortMatches(t: Token, rest: string)
    requires t.Short? && WellFormed(t)
    ensures var s := Render(t) + rest; ShortLength(s) == |Render(t)| && CsiLength(s) == 0 && StringLength(s) == 0
  {
    var s := Render(t) + rest;
    assert s[1..] == t.intermediates + ([t.final] + rest);
    SpanAll(t.intermediates, [t.final] + rest, IsIntermediate);
  }

  lemma {:induction false} StripPlain(text: string, rest: string)
    requires ESC !in text
    ensures Strip(text + rest) == text + Strip(rest)
  {
    hide *;
    if text == [] {
      assert text + rest == rest;
    } else {
      assert (text + rest)[1..] == text[1..] + rest && (text + rest)[0] == text[0];
      StripPlain(text[1..], rest);
      StripOneCharacter(text + rest);
      ConcatAssoc([text[0]], text[1..], Strip(rest));
      assert text == [text[0]] + text[1..];
    }
  }

  /** Every well-formed sequence that passes is matched whole, whatever follows. */
  lemma EscapeIsMatchedWhole(t: Token, rest: string)
    requires WellFormed(t) && Passes(t) && !t.Plain?
    ensures MatchLength(Render(t) + rest) == |Render(t)|
  {
    match t
    case Csi(_, _, _) => CsiMatches(t, rest);
    case Str(_, _, _) => StringMatches(t, rest);
    case Short(_, _) => ShortMatches(t, rest);
  }

  lemma StripToken(t: Token, rest: string)
    requires WellFormed(t) && Passes(t)
    ensures Strip(Render(t) + rest) == (if t.Plain? then t.text else []) + Strip(rest)
  {
    if t.Plain? {
      StripPlain(t.text, rest);
    } else {
      EscapeIsMatchedWhole(t, rest);
      var s := Render(t) + rest;
      assert s[0] == ESC && s[|Render(t)|..] == rest;
      StripOneEscape(s, |Render(t)|);
      hide Strip, MatchLength;
      assert [] + Strip(rest) == Strip(rest);
    }
  }

  /**
    * Any interleaving of plain text and well-formed sequences that pass is stripped to exactly its text.
    * `StringIsMatchedWholeIff` says which do not pass.
    */
  lemma {:induction false} StripRemovesWellFormed(ts: seq<Token>)
    requires forall t :: t in ts ==> WellFormed(t) && Passes(t)
    ensures Strip(RenderAll(ts)) == TextOf(ts)
  {
    if ts != [] {
      StripRemovesWellFormed(ts[1..]);
      StripToken(ts[0], RenderAll(ts[1..]));
    }
  }

  lemma {:induction false} RenderAllConcat(a: seq<Token>, b: seq<Token>)
    ensures RenderAll(a + b) == RenderAll(a) + RenderAll(b)
    ensures TextOf(a + b) == TextOf(a) + TextOf(b)
  {
    hide Render;
    if a == [] {
      assert a + b == b;
    } else {
      assert (a + b)[1..] == a[1..] + b && (a + b)[0] == a[0];
      RenderAllConcat(a[1..], b);
      ConcatAssoc(Render(a[0]), RenderAll(a[1..]), RenderAll(b));
      ConcatAssoc(if a[0].Plain? then a[0].text else [], TextOf(a[1..]), TextOf(b));
    }
  }

  /** Terminal noise: well-formed sequences that pass, and nothing else. */
  predicate IsNoise(ts: seq<Token>) {
    forall t :: t in ts ==> WellFormed(t) && Passes(t) && !t.Plain?
  }

  lemma {:induction false} NoiseHasNoText(ts: seq<Token>)
    requires IsNoise(ts)
    ensures TextOf(ts) == []
  {
    if ts != [] {
      NoiseHasNoText(ts[1..]);
    }
  }

  /** A record with noise of any length on both sides comes out trimmed and otherwise untouched. */
  lemma NoisyRecordIsRecovered(before: seq<Token>, record: string, after: seq<Token>)
    requires IsNoise(before) && IsNoise(after) && ESC !in record && StartsLikeJson(Trim(record))
    ensures CleanProtocolLine(Some(RenderAll(before) + record + RenderAll(after))) == Some(Trim(record))
  {
    hide Strip, Trim, WellFormed, Passes, StartsLikeJson;
    OnePlain(record);
    var middle := [Plain(record)];
    var ts := before + (middle + after);
    NoiseHasNoText(before);
    NoiseHasNoText(after);
    RenderAllConcat(middle, after);
    RenderAllConcat(before, middle + after);
    StripRemovesWellFormed(ts);
    assert TextOf(ts) == [] + (record + []) == record;
    ConcatAssoc(RenderAll(before), record, RenderAll(after));
  }

  // ---------------------------------------------------------------- what any sequence of the standards leaves behind

  lemma {:induction false} SpanStops(x: string, c: char, rest: string, p: char -> bool)
    requires !p(c)
    ensures Span(x + [c] + rest, p) == Span(x + [c], p) <= |x|
  {
    var s, s' := x + [c] + rest, x + [c];
    if x == [] {
      assert s[0] == s'[0] == c;
    } else {
      assert s[0] == s'[0] == x[0];
      assert s[1..] == x[1..] + [c] + rest && s'[1..] == x[1..] + [c];
      SpanStops(x[1..], c, rest, p);
    }
  }

  /** BEL and ESC stop every class of the expression. */
  predicate IsStop(c: char) { c == BEL || c == ESC }

  lemma ShortStops(x: string, c: char, rest: string)
    requires x != [] && x[0] == ESC && IsStop(c)
    ensures ShortLength(x + [c] + rest) == ShortLength(x + [c]) <= |x|
  {
    var s, s' := x + [c] + rest, x + [c];
    assert s[1..] == x[1..] + [c] + rest && s'[1..] == x[1..] + [c];
    SpanStops(x[1..], c, rest, IsIntermediate);
    var i := 1 + Span(s[1..], IsIntermediate);
    hide Span;
    assert s[i] == s'[i] && (i == |x| ==> s[i] == c);
  }

  lemma FinalStops(y: string, c: char, rest: string)
    requires IsStop(c)
    ensures ToFinal(y + [c] + rest) == ToFinal(y + [c]) <= |y|
  {
    assert !IsParameter(c) && !IsIntermediate(c) && !IsCsiFinal(c);
    hide Span, IsParameter, IsIntermediate, IsCsiFinal, IsStop;
    SpanStops(y, c, rest, IsParameter);
    var i := Span(y + [c], IsParameter);
    DropInside(y, c, rest, i);
    SpanStops(y[i..], c, rest, IsIntermediate);
    var j := i + Span(y[i..] + [c], IsIntermediate);
    DropInside(y, c, rest, j);
  }

  lemma DropInside(y: string, c: char, rest: string, i: nat)
    requires i <= |y|
    ensures var u, u' := y + [c] + rest, y + [c];
      u[i..] == y[i..] + [c] + rest && u'[i..] == y[i..] + [c] && u[i] == u'[i] && (i == |y| ==> u[i] == c)
  {
  }

  lemma CsiStops(x: string, c: char, rest: string)
    requires x != [] && x[0] == ESC && IsStop(c)
    ensures CsiLength(x + [c] + rest) == CsiLength(x + [c]) <= |x|
  {
    var s, s' := x + [c] + rest, x + [c];
    assert c != '[';
    hide ToFinal, IsStop;
    if |x| >= 2 && x[1] == '[' {
      FinalStops(x[2..], c, rest);
      assert s[2..] == x[2..] + [c] + rest && s'[2..] == x[2..] + [c];
    } else {
      assert s[1] == s'[1] != '[';
    }
  }

  /** The end of a string sequence ends any search that gets as far. */
  lemma {:induction false} SearchStops(x: string, t: Token, rest: string)
    requires t.Str?
    ensures var n := ToTerminator(x + End(t) + rest);
      n == ToTerminator(x + End(t)) && (n <= |x| || n == |x + End(t)|)
  {
    var s, s' := x + End(t) + rest, x + End(t);
    if x == [] {
      assert s' == End(t) && s == End(t) + rest;
      assert s[0] == End(t)[0];
    } else {
      assert s[0] == s'[0] == x[0] && s[1] == s'[1];
      assert s[1..] == x[1..] + End(t) + rest && s'[1..] == x[1..] + End(t);
      SearchStops(x[1..], t, rest);
      assert |x| == 1 ==> s[1] == End(t)[0] != '\\';
    }
  }

  lemma StringStops(x: string, t: Token, rest: string)
    requires x != [] && x[0] == ESC && t.Str?
    ensures var n := StringLength(x + End(t) + rest);
      n == StringLength(x + End(t)) && (n <= |x| || n == |x + End(t)|)
  {
    var s, s' := x + End(t) + rest, x + End(t);
    if |x| == 1 {
      assert s[1] == s'[1] == End(t)[0];
    } else {
      assert s[2..] == x[2..] + End(t) + rest && s'[2..] == x[2..] + End(t);
      SearchStops(x[2..], t, rest);
      hide ToTerminator;
      assert s[1] == s'[1] && s[0] == s'[0];
    }
  }

  /** So no escape reaches over that end, and what follows it has no say. */
  lemma MatchStops(x: string, t: Token, rest: string)
    requires x != [] && x[0] == ESC && t.Str?
    ensures var n := MatchLength(x + End(t) + rest);
      n == MatchLength(x + End(t)) && (n <= |x| || n == |x + End(t)|)
  {
    var c, tail := End(t)[0], End(t)[1..];
    assert x + End(t) + rest == x + [c] + (tail + rest) && x + End(t) == x + [c] + tail;
    ShortStops(x, c, tail + rest);
    ShortStops(x, c, tail);
    CsiStops(x, c, tail + rest);
    CsiStops(x, c, tail);
    StringStops(x, t, rest);
    hide ShortLength, CsiLength, StringLength;
  }

  /** Whatever stands in front of such an end is stripped on its own. */
  lemma {:induction false} StripStops(x: string, t: Token, rest: string)
    requires t.Str?
    ensures Strip(x + End(t) + rest) == Strip(x + End(t)) + Strip(rest)
    decreases |x|
  {
    hide *;
    var s, s' := x + End(t) + rest, x + End(t);
    if x == [] {
      EndIsLeft(t, rest);
      EndIsLeft(t, []);
      NothingToStrip();
      assert s == End(t) + rest && s' == End(t) + [];
      assert Bell(t) + [] == Bell(t);
    } else if x[0] == ESC {
      MatchStops(x, t, rest);
      var n := MatchLength(s);
      StripOneEscape(s, n);
      StripOneEscape(s', n);
      if n <= |x| {
        assert s[n..] == x[n..] + End(t) + rest && s'[n..] == x[n..] + End(t);
        StripStops(x[n..], t, rest);
      } else {
        assert s[n..] == rest && s'[n..] == [];
        NothingToStrip();
        assert [] + Strip(rest) == Strip(rest);
      }
    } else {
      assert s[1..] == x[1..] + End(t) + rest && s'[1..] == x[1..] + End(t);
      StripStops(x[1..], t, rest);
      StripOneCharacter(s);
      StripOneCharacter(s');
      ConcatAssoc([x[0]], Strip(s'[1..]), Strip(rest));
    }
  }

  lemma NothingToStrip()
    ensures Strip([]) == []
  {
  }

  lemma StripOneCharacter(s: string)
    requires s != [] && s[0] != ESC
    ensures Strip(s) == [s[0]] + Strip(s[1..])
  {
  }

  lemma StripOneEscape(s: string, n: nat)
    requires s != [] && s[0] == ESC && MatchLength(s) == n
    ensures Strip(s) == Strip(s[n..])
  {
  }

  /** The bell, if a string sequence ends with one. */
  function Bell(t: Token): string
    requires t.Str?
  {
    if t.bell then [BEL] else []
  }

  /** An end that ends nothing: the bell stays, and ST is a short escape. */
  lemma EndIsLeft(t: Token, rest: string)
    requires t.Str?
    ensures Strip(End(t) + rest) == Bell(t) + Strip(rest)
  {
    if t.bell {
      StripPlain([BEL], rest);
    } else {
      var s := End(t) + rest;
      assert s[0] == ESC && s[1] == '\\' && s[2..] == rest;
      assert CsiLength(s) == 0 && StringLength(s) == 0;
      assert Span(s[1..], IsIntermediate) == 0 && ShortLength(s) == 2;
      StripOneEscape(s, 2);
      hide Strip;
      assert [] + Strip(rest) == Strip(rest);
    }
  }

  /** What one piece of a line leaves behind, wherever it stands. */
  function Left(t: Token): string {
    match t
    case Plain(text) => text
    case Str(_, _, _) => Strip(Render(t))
    case _ => []
  }

  function LeftOfAll(ts: seq<Token>): string {
    if ts == [] then [] else Left(ts[0]) + LeftOfAll(ts[1..])
  }

  lemma StripPiece(t: Token, rest: string)
    requires WellFormed(t)
    ensures Strip(Render(t) + rest) == Left(t) + Strip(rest)
  {
    if t.Str? {
      StripStops([ESC, t.introducer] + t.body, t, rest);
      hide Strip;
      ConcatAssoc([ESC, t.introducer] + t.body, End(t), rest);
    } else {
      StripToken(t, rest);
    }
  }

  /** Every line of plain text and well-formed sequences: what is left is what each piece leaves on its own. */
  lemma {:induction false} StripGoesPieceByPiece(ts: seq<Token>)
    requires forall t :: t in ts ==> WellFormed(t)
    ensures Strip(RenderAll(ts)) == LeftOfAll(ts)
  {
    hide WellFormed, Render, Left;
    if ts == [] {
      NothingToStrip();
    } else {
      StripGoesPieceByPiece(ts[1..]);
      hide Strip;
      StripPiece(ts[0], RenderAll(ts[1..]));
    }
  }

  /** The first character that is not clear. */
  predicate IsFirstUnclear(body: string, k: nat) {
    k < |body| && !IsClear([body[k]]) && IsClear(body[..k])
  }

  lemma {:induction false} SearchFinds(body: string, tail: string, k: nat)
    requires ESC !in body && IsFirstUnclear(body, k)
    ensures ToTerminator(body + tail) == if body[k] == BEL then k + 1 else 0
  {
    var s := body + tail;
    assert s[0] == body[0];
    if k > 0 {
      assert s[1..] == body[1..] + tail;
      assert body[..k][0] == body[0];
      assert body[1..][..k - 1] == body[..k][1..];
      SearchFinds(body[1..], tail, k - 1);
    } else {
      assert [body[0]][0] == body[0];
    }
  }

  /**
    * What a string sequence leaves whose body holds no ESC: nothing if the body is clear; from behind the first bell
    * on, if that comes before the end of a line; and otherwise all of the body, and the bell that should have ended it.
    */
  lemma StringLeaves(t: Token, k: nat)
    requires t.Str? && WellFormed(t) && ESC !in t.body
    ensures IsClear(t.body) ==> Left(t) == []
    ensures IsFirstUnclear(t.body, k) ==> Left(t) == if t.body[k] == BEL then t.body[k + 1..] else t.body + Bell(t)
  {
    if IsClear(t.body) {
      StripToken(t, []);
      assert Render(t) + [] == Render(t);
    } else if IsFirstUnclear(t.body, k) {
      UnclearStringLeaves(t, k);
    }
  }

  lemma UnclearStringLeaves(t: Token, k: nat)
    requires t.Str? && WellFormed(t) && ESC !in t.body && IsFirstUnclear(t.body, k)
    ensures Strip(Render(t)) == if t.body[k] == BEL then t.body[k + 1..] else t.body + Bell(t)
  {
    assert t.bell ==> t.body[k] != BEL;
    assert IsStringIntroducer(t.introducer);
    var s := [ESC, t.introducer] + (t.body + End(t));
    var n := if t.body[k] == BEL then k + 1 else 0;
    assert Render(t) == s;
    SearchFinds(t.body, End(t), k);
    IntroducerThen(t.introducer, t.body + End(t));
    hide *;
    StripOneEscape(s, 2 + n);
    assert s[2 + n..] == t.body[n..] + (End(t) + []);
    BodyIsLeft(t.body[n..], t);
    assert n == 0 ==> t.body[n..] == t.body;
    BellOf(t);
    assert t.body[n..] + [] == t.body[n..];
  }

  lemma BellOf(t: Token)
    requires t.Str?
    ensures !t.bell ==> Bell(t) == []
  {
  }

  lemma BodyIsLeft(body: string, t: Token)
    requires ESC !in body && t.Str?
    ensures Strip(body + (End(t) + [])) == body + Bell(t)
  {
    StripPlain(body, End(t) + []);
    EndIsLeft(t, []);
    NothingToStrip();
    hide Strip;
    assert Bell(t) + [] == Bell(t);
  }

  lemma {:induction false} SomeFirstUnclear(body: string) returns (k: nat)
    requires !IsClear(body)
    ensures IsFirstUnclear(body, k)
    decreases |body|
  {
    if !IsClear(body[..|body| - 1]) {
      var front := body[..|body| - 1];
      k := SomeFirstUnclear(front);
      assert front[..k] == body[..k];
    } else {
      k := |body| - 1;
      assert [body[k]][0] == body[k];
      var i :| 0 <= i < |body| && (body[i] == BEL || IsLineTerminator(body[i]));
      assert i < k ==> body[..k][i] == body[i];
    }
  }

  /** A command string leaves its body, and its bell if that ends it, unless the body is clear. */
  lemma CommandStringLeaves(t: Token)
    requires t.Str? && WellFormed(t) && t.introducer != 'X'
    ensures Left(t) == if IsClear(t.body) then [] else t.body + Bell(t)
  {
    StringBodyHasNoTerminator(t);
    hide WellFormed, Left, IsClear;
    if IsClear(t.body) {
      StringLeaves(t, 0);
    } else {
      var k := SomeFirstUnclear(t.body);
      StringLeaves(t, k);
    }
  }

  /** A command string leaves nothing behind if and only if its body is clear. */
  lemma CommandStringIsRemovedIff(t: Token, rest: string)
    requires t.Str? && WellFormed(t) && t.introducer != 'X'
    ensures Strip(Render(t) + rest) == Strip(rest) <==> IsClear(t.body)
  {
    CommandStringLeaves(t);
    StripPiece(t, rest);
    hide Strip, WellFormed, Left;
    if IsClear(t.body) {
      assert [] + Strip(rest) == Strip(rest);
    } else {
      assert |Left(t) + Strip(rest)| > |Strip(rest)|;
    }
  }

  // ---------------------------------------------------------------- a record between any two pieces of noise

  lemma {:induction false} TrimStartSkips(left: string, s: string)
    ensures All(left, IsSpace) ==> TrimStart(left + s) == TrimStart(s)
    ensures !All(left, IsSpace) ==> TrimStart(left + s) == TrimStart(left) + s && TrimStart(left) != []
    decreases |left|
  {
    hide IsSpace;
    if left == [] {
      assert left + s == s;
    } else {
      assert (left + s)[1..] == left[1..] + s && (left + s)[0] == left[0];
      TrimStartSkips(left[1..], s);
      assert forall i :: 1 <= i < |left| ==> left[i] == left[1..][i - 1];
    }
  }

  lemma {:induction false} TrimEndSkips(s: string, right: string)
    ensures All(right, IsSpace) ==> TrimEnd(s + right) == TrimEnd(s)
    ensures !All(right, IsSpace) ==> TrimEnd(s + right) == s + TrimEnd(right) && TrimEnd(right) != []
    decreases |right|
  {
    hide IsSpace;
    if right == [] {
      assert s + right == s;
    } else {
      var front := right[..|right| - 1];
      assert (s + right)[..|s + right| - 1] == s + front && (s + right)[|s + right| - 1] == right[|right| - 1];
      TrimEndSkips(s, front);
      assert forall i :: 0 <= i < |front| ==> front[i] == right[i];
    }
  }

  lemma TrimmedIsNotAllSpace(s: string)
    requires Trim(s) != []
    ensures !All(s, IsSpace) && !All(TrimStart(s), IsSpace) && |Trim(s)| <= |TrimEnd(s)|
  {
    TrimStartSkips(s, []);
    assert s + [] == s;
    var core := TrimStart(s);
    TrimEndSkips([], core);
    assert [] + core == core;
    var lead := LeadingSpace(s);
    TrimEndSkips(lead, core);
  }

  lemma {:induction false} LeadingSpace(s: string) returns (lead: string)
    ensures s == lead + TrimStart(s)
  {
    lead := [];
    if s != [] && IsSpace(s[0]) {
      var rest := LeadingSpace(s[1..]);
      lead := [s[0]] + rest;
    }
  }

  /** What stands around a text is trimmed away if and only if it is white space on both sides. */
  lemma TrimAroundIff(left: string, s: string, right: string)
    requires Trim(s) != []
    ensures Trim(left + s + right) == Trim(s) <==> All(left, IsSpace) && All(right, IsSpace)
    ensures All(left, IsSpace) ==> Trim(left + s + right) == TrimEnd(TrimStart(s) + right)
  {
    TrimmedIsNotAllSpace(s);
    ConcatAssoc(left, s, right);
    TrimStartSkips(left, s + right);
    TrimStartSkips(s, right);
    TrimEndSkips(s, right);
    TrimEndSkips(TrimStart(s), right);
    hide IsSpace, TrimStart, TrimEnd;
    if !All(left, IsSpace) {
      assert !All(s + right, IsSpace) by {
        var i :| 0 <= i < |s| && !IsSpace(s[i]);
        assert (s + right)[i] == s[i];
      }
      TrimEndSkips(TrimStart(left), s + right);
      assert |TrimEnd(s + right)| >= |TrimEnd(s)|  by {
        TrimEndShortens(s);
      }
    } else {
      TrimEndShortens(TrimStart(s));
    }
  }

  lemma {:induction false} TrimEndShortens(s: string)
    ensures |TrimEnd(s)| <= |s|
  {
    if s != [] && IsSpace(s[|s| - 1]) {
      TrimEndShortens(s[..|s| - 1]);
    }
  }

  /** Well-formed sequences without plain text between them, whether they pass or not. */
  predicate IsAnyNoise(ts: seq<Token>) {
    forall t :: t in ts ==> WellFormed(t) && !t.Plain?
  }

  lemma StrippedAround(before: seq<Token>, record: string, after: seq<Token>)
    requires IsAnyNoise(before) && IsAnyNoise(after) && ESC !in record
    ensures Strip(RenderAll(before) + record + RenderAll(after)) == LeftOfAll(before) + record + LeftOfAll(after)
  {
    hide Strip, WellFormed, Left;
    OnePlain(record);
    var middle := [Plain(record)];
    RenderAllConcat(middle, after);
    RenderAllConcat(before, middle + after);
    LeftOfAllConcat(middle, after);
    LeftOfAllConcat(before, middle + after);
    PlainLeavesItself(record);
    StripGoesPieceByPiece(before + (middle + after));
    ConcatAssoc(RenderAll(before), record, RenderAll(after));
    ConcatAssoc(LeftOfAll(before), record, LeftOfAll(after));
  }

  lemma PlainLeavesItself(text: string)
    ensures LeftOfAll([Plain(text)]) == text
  {
    assert [Plain(text)][1..] == [] && text + [] == text;
  }

  lemma {:induction false} LeftOfAllConcat(a: seq<Token>, b: seq<Token>)
    ensures LeftOfAll(a + b) == LeftOfAll(a) + LeftOfAll(b)
  {
    hide Left;
    if a == [] {
      assert a + b == b;
    } else {
      assert (a + b)[1..] == a[1..] + b && (a + b)[0] == a[0];
      LeftOfAllConcat(a[1..], b);
      ConcatAssoc(Left(a[0]), LeftOfAll(a[1..]), LeftOfAll(b));
    }
  }

  /**
    * For all noise of the standards, on both sides and of any length: the record is recovered if and only if what
    * the noise leaves is white space. Noise behind the record is never a reason to refuse the line: with what it
    * leaves, the line goes to the parser.
    */
  lemma NoisyRecordIsRecoveredIff(before: seq<Token>, record: string, after: seq<Token>)
    requires IsAnyNoise(before) && IsAnyNoise(after) && ESC !in record && StartsLikeJson(Trim(record))
    ensures var line := CleanProtocolLine(Some(RenderAll(before) + record + RenderAll(after)));
      && (line == Some(Trim(record)) <==> All(LeftOfAll(before), IsSpace) && All(LeftOfAll(after), IsSpace))
      && (All(LeftOfAll(before), IsSpace) ==> line == Some(TrimEnd(TrimStart(record) + LeftOfAll(after))))
  {
    StrippedAround(before, record, after);
    var left, right := LeftOfAll(before), LeftOfAll(after);
    TrimAroundIff(left, record, right);
    hide Strip, LeftOfAll, RenderAll, IsSpace, WellFormed;
    if All(left, IsSpace) {
      StartStays(record, right);
    }
  }

  lemma StartStays(record: string, right: string)
    requires StartsLikeJson(Trim(record))
    ensures StartsLikeJson(TrimEnd(TrimStart(record) + right))
  {
    TrimStartTrims(record);
    TrimEndTrims(TrimStart(record));
    TrimEndTrims(TrimStart(record) + right);
  }

  lemma NoiseOf(t: Token)
    requires WellFormed(t) && !t.Plain?
    ensures IsAnyNoise([t]) && IsAnyNoise([]) && All([], IsSpace)
  {
  }

  lemma OneLeft(t: Token)
    ensures RenderAll([t]) == Render(t) && LeftOfAll([t]) == Left(t) && RenderAll([]) == [] && LeftOfAll([]) == []
  {
    assert [t][1..] == [];
    assert Render(t) + [] == Render(t) && Left(t) + [] == Left(t);
  }

  lemma BodyIsSpaceIff(t: Token)
    requires t.Str?
    ensures All(t.body + Bell(t), IsSpace) <==> All(t.body, IsSpace) && !t.bell
  {
    var left := t.body + Bell(t);
    assert t.bell ==> left[|t.body|] == BEL && !IsSpace(BEL);
    assert forall i :: 0 <= i < |t.body| ==> left[i] == t.body[i];
  }

  lemma NothingAround(a: string, b: string)
    ensures a + b + [] == a + b && [] + a + b == a + b
  {
  }

  /**
    * One sequence before or behind a record leaves it to be recovered if and only if what it leaves itself is white
    * space.
    */
  lemma SequenceBesideRecordIff(t: Token, record: string)
    requires WellFormed(t) && !t.Plain? && ESC !in record && StartsLikeJson(Trim(record))
    ensures CleanProtocolLine(Some(Render(t) + record)) == Some(Trim(record)) <==> All(Left(t), IsSpace)
    ensures CleanProtocolLine(Some(record + Render(t))) == Some(Trim(record)) <==> All(Left(t), IsSpace)
  {
    OneLeft(t);
    NoiseOf(t);
    hide *;
    NothingAround(Render(t), record);
    NothingAround(record, Render(t));
    NoisyRecordIsRecoveredIff([t], record, []);
    NoisyRecordIsRecoveredIff([], record, [t]);
  }

  /**
    * A command string before or behind a record leaves the record to be recovered if and only if its body is clear,
    * or is white space altogether and ends with ST.
    */
  lemma CommandStringBesideRecordIff(t: Token, record: string)
    requires t.Str? && WellFormed(t) && t.introducer != 'X' && ESC !in record && StartsLikeJson(Trim(record))
    ensures CleanProtocolLine(Some(Render(t) + record)) == Some(Trim(record)) <==>
      IsClear(t.body) || (All(t.body, IsSpace) && !t.bell)
    ensures CleanProtocolLine(Some(record + Render(t))) == Some(Trim(record)) <==>
      IsClear(t.body) || (All(t.body, IsSpace) && !t.bell)
  {
    CommandStringLeaves(t);
    SequenceBesideRecordIff(t, record);
    BodyIsSpaceIff(t);
    NoiseOf(t);
    hide *;
  }

  /**
    * What is left of a string loses any record behind it, and damages any before it, unless white space is at its ends.
    */
  lemma LeftoverHurts(t: Token, record: string)
    requires t.Str? && WellFormed(t) && ESC !in record
    requires Left(t) != [] && !IsSpace(Left(t)[0]) && Left(t)[0] !in "{[" && !IsSpace(Left(t)[|Left(t)| - 1])
    ensures CleanProtocolLine(Some(Render(t) + record)) == None
    ensures CleanProtocolLine(Some("{}" + Render(t))) == Some("{}" + Left(t))
  {
    hide Left, Render, WellFormed, Strip, IsSpace;
    StripPiece(t, record);
    StripPlain(record, []);
    NothingToStrip();
    assert record + [] == record;
    NoJsonBehind(Left(t), record);
    StripPlain("{}", Render(t));
    StripPiece(t, []);
    assert Render(t) + [] == Render(t) && Left(t) + [] == Left(t);
    var s := "{}" + Left(t);
    assert !IsSpace(s[0]) && s[0] == '{' by { BraceIsNoSpace(); }
    assert s[|s| - 1] == Left(t)[|Left(t)| - 1];
  }

  lemma BraceIsNoSpace()
    ensures !IsSpace('{')
  {
  }

  const RETURNING := Str('P', "a\rb", false)
  const RINGING := Str('X', [BEL, 'b'], false)

  lemma ReturningLeaves()
    ensures WellFormed(RETURNING) && Left(RETURNING) == "a\rb"
  {
    assert RETURNING.body[1] == '\r';
    CommandStringLeaves(RETURNING);
    assert "a\rb" + [] == "a\rb";
  }

  lemma RingingLeaves()
    ensures WellFormed(RINGING) && Left(RINGING) == "b"
  {
    assert RINGING.body[..0] == [] && [RINGING.body[0]][0] == BEL;
    StringLeaves(RINGING, 0);
    assert RINGING.body[1..] == "b";
  }

  /** So a carriage return in a device control string loses any record behind it, and damages any before it. */
  lemma ReturnInControlStringLosesRecord(record: string)
    requires ESC !in record
    ensures WellFormed(RETURNING) && CleanProtocolLine(Some(Render(RETURNING) + record)) == None
    ensures CleanProtocolLine(Some("{}" + Render(RETURNING))) == Some("{}a\rb")
  {
    ReturningLeaves();
    hide Left, Render, WellFormed, CleanProtocolLine;
    LeftoverHurts(RETURNING, record);
    assert "{}" + "a\rb" == "{}a\rb";
  }

  /** And so does a bell in a character string, which the standard allows there. */
  lemma BellInCharacterStringLosesRecord(record: string)
    requires ESC !in record
    ensures WellFormed(RINGING) && CleanProtocolLine(Some(Render(RINGING) + record)) == None
    ensures CleanProtocolLine(Some("{}" + Render(RINGING))) == Some("{}b")
  {
    RingingLeaves();
    hide Left, Render, WellFormed, CleanProtocolLine;
    LeftoverHurts(RINGING, record);
    assert "{}" + "b" == "{}b";
  }

  lemma NoJsonBehind(left: string, record: string)
    requires left != [] && !IsSpace(left[0]) && left[0] != '{' && left[0] != '['
    ensures !StartsLikeJson(Trim(left + record))
  {
    TrimEndTrims(left + record);
  }

  lemma OnePlain(text: string)
    ensures RenderAll([Plain(text)]) == text && TextOf([Plain(text)]) == text
    ensures ESC !in text ==> WellFormed(Plain(text)) && Passes(Plain(text))
  {
    assert [Plain(text)][1..] == [];
    assert text + [] == text;
  }

  // ---------------------------------------------------------------- every input

  /** How the scanner reads an arbitrary line. */
  function Tokenize(s: string): seq<Token>
    decreases |s|
  {
    if s == [] then []
    else if s[0] == ESC then [FirstEscape(s)] + Tokenize(s[MatchLength(s)..])
    else [Plain([s[0]])] + Tokenize(s[1..])
  }

  /** The escape `s` starts with, by the alternative that matched it. */
  function FirstEscape(s: string): Token
    requires s != [] && s[0] == ESC
  {
    var n := MatchLength(s);
    if CsiLength(s) > 0 then
      var i := 2 + Span(s[2..], IsParameter);
      Csi(s[2..i], s[i..n - 1], s[n - 1])
    else if StringLength(s) > 0 then
      if s[n - 1] == BEL then Str(s[1], s[2..n - 1], true) else Str(s[1], s[2..n - 2], false)
    else if ShortLength(s) > 0 then Short(s[1..n - 1], s[n - 1])
    else LoneEsc
  }

  /**
    * What the expression takes for an escape. A short one may also be the introducer of a sequence that never ends
    * on this line, and a string sequence may hold any clear body without its terminator.
    */
  predicate Legal(t: Token) {
    match t
    case Str(introducer, body, _) => IsStringIntroducer(introducer) && IsBody(body)
    case Short(mid, final) => All(mid, IsIntermediate) && IsShortFinal(final)
    case LoneEsc => true
    case _ => WellFormed(t)
  }

  lemma {:induction false} TerminatorIsFirst(s: string)
    requires ToTerminator(s) > 0
    ensures var n := ToTerminator(s);
      && (s[n - 1] == BEL ==> IsBody(s[..n - 1]))
      && (s[n - 1] != BEL ==> n >= 2 && s[n - 2] == ESC && s[n - 1] == '\\' && IsBody(s[..n - 2]))
  {
    if s[0] != BEL && !(s[0] == ESC && |s| >= 2 && s[1] == '\\') {
      TerminatorIsFirst(s[1..]);
      hide IsBody, IsLineTerminator;
      var n := ToTerminator(s);
      var m := if s[n - 1] == BEL then n - 1 else n - 2;
      assert s[1..][n - 2] == s[n - 1];
      assert s[..m][1..] == s[1..][..m - 1];
      BodyHead(s[..m]);
    }
  }

  lemma BodyHead(body: string)
    requires body != [] ==> IsBody(body[1..]) && body[0] != BEL && !IsLineTerminator(body[0])
    requires |body| > 1 && body[0] == ESC ==> body[1] != '\\'
    ensures IsBody(body)
  {
    assert forall i :: 1 <= i < |body| ==> body[i] == body[1..][i - 1];
  }

  lemma ThreePieces(s: string, i: nat, n: nat)
    requires i < n <= |s|
    ensures s[..n] == s[..i] + s[i..n - 1] + [s[n - 1]]
  {
    assert s[..n - 1] == s[..i] + s[i..n - 1];
    assert s[..n] == s[..n - 1] + [s[n - 1]];
  }

  lemma FourPieces(s: string, i: nat, n: nat)
    requires 2 <= i < n <= |s|
    ensures s[..n] == [s[0], s[1]] + s[2..i] + s[i..n - 1] + [s[n - 1]]
  {
    ThreePieces(s, i, n);
    assert s[..i] == [s[0], s[1]] + s[2..i];
  }

  /** All of a stretch of `s`, by position. */
  predicate AllBetween(s: string, from: nat, to: nat, p: char -> bool) {
    to <= |s| && forall k :: from <= k < to ==> p(s[k])
  }

  lemma SpanBetween(s: string, from: nat, p: char -> bool)
    requires from <= |s|
    ensures AllBetween(s, from, from + Span(s[from..], p), p)
  {
    var n := Span(s[from..], p);
    forall k | from <= k < from + n
      ensures p(s[k])
    {
      assert s[from..][k - from] == s[k];
    }
  }

  lemma FinalIsLegal(u: string)
    requires ToFinal(u) > 0
    ensures var i := Span(u, IsParameter); var n := ToFinal(u);
      i < n <= |u| && AllBetween(u, 0, i, IsParameter) && AllBetween(u, i, n - 1, IsIntermediate)
          && IsCsiFinal(u[n - 1])
  {
    hide Span, IsParameter, IsIntermediate, IsCsiFinal, AllBetween;
    assert u[0..] == u;
    SpanBetween(u, 0, IsParameter);
    SpanBetween(u, Span(u, IsParameter), IsIntermediate);
  }

  lemma BetweenBehindTwo(s: string, from: nat, to: nat, p: char -> bool)
    requires from <= to && |s| >= 2 && AllBetween(s[2..], from, to, p)
    ensures to + 2 <= |s| && All(s[2 + from..2 + to], p)
  {
    assert forall k :: from <= k < to ==> s[2..][k] == s[2 + from..2 + to][k - from];
  }

  lemma CsiClasses(s: string)
    requires CsiLength(s) > 0
    ensures var i := 2 + Span(s[2..], IsParameter); var n := CsiLength(s);
      2 <= i < n <= |s| && All(s[2..i], IsParameter) && All(s[i..n - 1], IsIntermediate) && IsCsiFinal(s[n - 1])
  {
    var i, n := Span(s[2..], IsParameter), ToFinal(s[2..]);
    FinalIsLegal(s[2..]);
    hide Span, ToFinal, All, AllBetween, IsParameter, IsIntermediate, IsCsiFinal;
    BetweenBehindTwo(s, 0, i, IsParameter);
    BetweenBehindTwo(s, i, n - 1, IsIntermediate);
  }

  lemma CsiOpens(s: string)
    requires CsiLength(s) > 0
    ensures s[0] == ESC && s[1] == '['
  {
  }

  lemma CsiIsLegal(s: string)
    requires CsiLength(s) > 0
    ensures var i := 2 + Span(s[2..], IsParameter); var n := CsiLength(s);
      && 2 <= i < n <= |s| && All(s[2..i], IsParameter) && All(s[i..n - 1], IsIntermediate) && IsCsiFinal(s[n - 1])
      && s[..n] == [ESC, '['] + s[2..i] + s[i..n - 1] + [s[n - 1]]
  {
    CsiClasses(s);
    CsiOpens(s);
    hide *;
    FourPieces(s, 2 + Span(s[2..], IsParameter), CsiLength(s));
  }

  /** What a greedy class has run over, as a piece of the whole line. */
  lemma SpanPrefix(s: string, from: nat, p: char -> bool)
    requires from <= |s|
    ensures var to := from + Span(s[from..], p); to <= |s| && All(s[from..to], p)
  {
    var to := from + Span(s[from..], p);
    assert s[from..to] == s[from..][..to - from];
  }

  lemma StringIsLegal(s: string)
    requires StringLength(s) > 0
    ensures var n := StringLength(s);
      && (s[n - 1] == BEL ==> IsBody(s[2..n - 1]) && s[..n] == [ESC, s[1]] + s[2..n - 1] + [BEL])
      && (s[n - 1] != BEL ==>
            && 4 <= n <= |s| && IsBody(s[2..n - 2]) && s[n - 2] == ESC && s[n - 1] == '\\'
            && s[..n] == [ESC, s[1]] + s[2..n - 2] + [ESC, '\\'])
  {
    var n := StringLength(s);
    TerminatorIsFirst(s[2..]);
    assert s[2..][..n - 3] == s[2..n - 1];
    if s[n - 1] != BEL {
      assert s[2..][..n - 4] == s[2..n - 2];
    }
  }

  lemma FirstEscapeIsLegal(s: string)
    requires s != [] && s[0] == ESC
    ensures Legal(FirstEscape(s)) && !FirstEscape(s).Plain? && Render(FirstEscape(s)) == s[..MatchLength(s)]
  {
    hide CsiLength, StringLength, Span, IsBody;
    var n := MatchLength(s);
    if CsiLength(s) > 0 {
      CsiIsLegal(s);
    } else if StringLength(s) > 0 {
      StringIsLegal(s);
      StringHead(s);
    } else if ShortLength(s) > 0 {
      assert s[..n] == [ESC] + s[1..n - 1] + [s[n - 1]];
      SpanPrefix(s, 1, IsIntermediate);
    } else {
      assert s[..1] == [ESC];
    }
  }

  lemma StringHead(s: string)
    requires StringLength(s) > 0
    ensures 3 <= StringLength(s) <= |s| && IsStringIntroducer(s[1])
  {
  }

  lemma TokensOfEscape(s: string)
    requires s != [] && s[0] == ESC
    ensures Tokenize(s) == [FirstEscape(s)] + Tokenize(s[MatchLength(s)..])
  {
    hide FirstEscape, MatchLength;
  }

  lemma OneMoreToken(s: string, n: nat, t: Token, ts: seq<Token>)
    requires n <= |s| && Render(t) == s[..n] && RenderAll(ts) == s[n..]
    requires Legal(t) && forall u :: u in ts ==> Legal(u)
    ensures RenderAll([t] + ts) == s
    ensures forall u :: u in [t] + ts ==> Legal(u)
    ensures t.Plain? ==> TextOf([t] + ts) == t.text + TextOf(ts)
    ensures !t.Plain? ==> TextOf([t] + ts) == TextOf(ts)
  {
    hide Render, Legal;
    assert ([t] + ts)[1..] == ts;
    assert s == s[..n] + s[n..];
  }

  lemma TokensOfPlain(s: string)
    requires s != [] && s[0] != ESC
    ensures Tokenize(s) == [Plain([s[0]])] + Tokenize(s[1..])
    ensures Legal(Plain([s[0]])) && Render(Plain([s[0]])) == s[..1]
  {
  }

  /**
    * Whatever the line, stripping removes only escape sequences: the line is a sequence
    * of plain characters and legal escapes, and what is left is exactly the characters.
    */
  lemma {:induction false} StripRemovesOnlyEscapes(s: string)
    ensures RenderAll(Tokenize(s)) == s && TextOf(Tokenize(s)) == Strip(s)
    ensures forall t :: t in Tokenize(s) ==> Legal(t)
    ensures ESC !in Strip(s)
    decreases |s|
  {
    hide *;
    if s == [] {
      EmptyLine();
    } else if s[0] == ESC {
      var n := MatchLength(s);
      StripRemovesOnlyEscapes(s[n..]);
      FirstEscapeIsLegal(s);
      StripOneEscape(s, n);
      TokensOfEscape(s);
      OneMoreToken(s, n, FirstEscape(s), Tokenize(s[n..]));
    } else {
      StripRemovesOnlyEscapes(s[1..]);
      StripOneCharacter(s);
      TokensOfPlain(s);
      OneMoreToken(s, 1, Plain([s[0]]), Tokenize(s[1..]));
    }
  }

  lemma EmptyLine()
    ensures Tokenize([]) == [] && RenderAll([]) == [] && TextOf([]) == [] && Strip([]) == []
  {
  }

  lemma {:induction false} TrimStartTrims(s: string)
    ensures TrimStart(s) == [] || !IsSpace(TrimStart(s)[0])
    ensures forall c :: c in TrimStart(s) ==> c in s
  {
    if s != [] && IsSpace(s[0]) {
      TrimStartTrims(s[1..]);
    }
  }

  lemma {:induction false} TrimEndTrims(s: string)
    ensures TrimEnd(s) == [] || !IsSpace(TrimEnd(s)[|TrimEnd(s)| - 1])
    ensures s != [] && !IsSpace(s[0]) ==> TrimEnd(s) != [] && TrimEnd(s)[0] == s[0]
    ensures forall c :: c in TrimEnd(s) ==> c in s
  {
    if s != [] && IsSpace(s[|s| - 1]) {
      TrimEndTrims(s[..|s| - 1]);
    }
  }

  /**
    * Every accepted line is trimmed, free of escapes, begins an object or an array, and is a fixed point of the guard.
    */
  lemma AcceptedLinesAreClean(rawLine: Option<string>)
    requires CleanProtocolLine(rawLine).Some?
    ensures var line := CleanProtocolLine(rawLine).value;
      && StartsLikeJson(line) && Trim(line) == line && ESC !in line
      && CleanProtocolLine(Some(line)) == Some(line)
  {
    var stripped := Strip(rawLine.value);
    StripRemovesOnlyEscapes(rawLine.value);
    TrimStartTrims(stripped);
    TrimEndTrims(TrimStart(stripped));
    var line := Trim(stripped);
    StripPlain(line, []);
    assert line + [] == line;
  }

  /** The documented trade-off, for every record: an ESC directly before an object takes its brace along. */
  lemma BareEscapeEatsTheBrace(rest: string)
    requires ESC !in rest
    ensures CleanProtocolLine(Some([ESC, '{'] + rest)) == CleanProtocolLine(Some(rest))
  {
    var s := [ESC, '{'] + rest;
    assert s[1..] == ['{'] + rest;
    assert Span(s[1..], IsIntermediate) == 0;
    assert s[2..] == rest;
  }
}
