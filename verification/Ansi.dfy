/** Select Graphic Rendition sequences (ECMA-48, section 8.3.117): how they are put around text, and how they vanish. */
module Ansi {
  import opened Numerals
  import opened Text

  const ESC: char := '\U{1b}'

  function Options(ansiOptions: seq<nat>): string {
    if ansiOptions == [] then "" else ";" + (Decimal(ansiOptions[0]) + Options(ansiOptions[1..]))
  }

  /** `ESC [ parameters m`. */
  function Sgr(parameters: string): string {
    [ESC, '['] + parameters + "m"
  }

  /** `formatString`. */
  function FormatString(input: string, ansiOptions: seq<nat>): string {
    Sgr("0" + Options(ansiOptions)) + input + Sgr("0")
  }

  predicate AreParameters(s: string) {
    forall c :: c in s ==> IsDigit(c) || c == ';'
  }

  /** Length of the parameters and the final `m` at the start of `s`; 0 when they are not there. */
  function SequenceLength(s: string): (r: nat)
    ensures r <= |s|
  {
    if s == "" then 0
    else if s[0] == 'm' then 1
    else if (IsDigit(s[0]) || s[0] == ';') && SequenceLength(s[1..]) > 0 then 1 + SequenceLength(s[1..])
    else 0
  }

  /** The text a terminal shows: every sequence removed, all else kept. */
  function Strip(s: string): string
    decreases |s|
  {
    if s == "" then ""
    else if [ESC, '['] <= s && SequenceLength(s[2..]) > 0 then Strip(s[2 + SequenceLength(s[2..])..])
    else [s[0]] + Strip(s[1..])
  }

  lemma {:induction false} StripPlain(text: string, rest: string)
    requires ESC !in text
    ensures Strip(text + rest) == text + Strip(rest)
  {
    if text == "" {
      assert text + rest == rest;
    } else {
      StripPlain(text[1..], rest);
      assert (text + rest)[0] == text[0] && (text + rest)[1..] == text[1..] + rest;
      assert [text[0]] + (text[1..] + Strip(rest)) == text + Strip(rest);
    }
  }

  lemma StripText(text: string)
    requires ESC !in text
    ensures Strip(text) == text
  {
    StripPlain(text, "");
    assert text + "" == text;
  }

  lemma {:induction false} SequenceOfParameters(parameters: string, rest: string)
    requires AreParameters(parameters)
    ensures SequenceLength(parameters + "m" + rest) == |parameters| + 1
  {
    var s := parameters + "m" + rest;
    if parameters != "" {
      SequenceOfParameters(parameters[1..], rest);
      assert s[1..] == parameters[1..] + "m" + rest;
      assert s[0] == parameters[0] && s[0] in parameters;
    }
  }

  lemma StripSgr(parameters: string, rest: string)
    requires AreParameters(parameters)
    ensures Strip(Sgr(parameters) + rest) == Strip(rest)
  {
    var s := Sgr(parameters) + rest;
    SequenceOfParameters(parameters, rest);
    assert s[2..] == parameters + "m" + rest;
    assert s[2 + (|parameters| + 1)..] == rest;
  }

  lemma {:induction false} OptionsAreParameters(ansiOptions: seq<nat>)
    ensures AreParameters(Options(ansiOptions))
  {
    if ansiOptions != [] {
      DecimalIsDigits(ansiOptions[0]);
      OptionsAreParameters(ansiOptions[1..]);
    }
  }

  /** Formatting changes only how text looks. */
  lemma StripFormat(input: string, ansiOptions: seq<nat>, rest: string)
    requires ESC !in input
    ensures Strip(FormatString(input, ansiOptions) + rest) == input + Strip(rest)
  {
    OptionsAreParameters(ansiOptions);
    var parameters := "0" + Options(ansiOptions);
    var tail := input + (Sgr("0") + rest);
    assert FormatString(input, ansiOptions) + rest == Sgr(parameters) + tail;
    StripSgr(parameters, tail);
    StripPlain(input, Sgr("0") + rest);
    StripSgr("0", rest);
  }

  // Looks.

  /** A character as a terminal shows it, with the options in force. */
  datatype Glyph = Glyph(c: char, style: seq<nat>)

  /** A text in one style. */
  function Styled(text: string, style: seq<nat>): (r: seq<Glyph>)
    ensures |r| == |text| && forall i :: 0 <= i < |r| ==> r[i] == Glyph(text[i], style)
  {
    seq(|text|, i requires 0 <= i < |text| => Glyph(text[i], style))
  }

  function Number(s: string): nat {
    if AllDigits(s) then Value(s) else 0
  }

  /** The parameters between the semicolons; a missing one is 0. */
  function Numbers(s: string): seq<nat>
    decreases |s|
  {
    var i := IndexOf(s, ';', 0);
    if i == -1 then [Number(s)] else [Number(s[..i])] + Numbers(s[i + 1..])
  }

  /** Parameter 0 ends all options, any other adds one. */
  function Applied(style: seq<nat>, parameters: seq<nat>): seq<nat>
    decreases |parameters|
  {
    if parameters == [] then style
    else Applied(if parameters[0] == 0 then [] else style + [parameters[0]], parameters[1..])
  }

  /** What a terminal shows of `s`, when it is in this style. */
  function Paint(s: string, style: seq<nat>): seq<Glyph>
    decreases |s|
  {
    if s == "" then []
    else if [ESC, '['] <= s && SequenceLength(s[2..]) > 0 then
      var n := SequenceLength(s[2..]);
      Paint(s[2 + n..], Applied(style, Numbers(s[2..2 + n - 1])))
    else [Glyph(s[0], style)] + Paint(s[1..], style)
  }

  function TextOf(glyphs: seq<Glyph>): string {
    if glyphs == [] then "" else [glyphs[0].c] + TextOf(glyphs[1..])
  }

  /** Its characters are the text. */
  lemma {:induction false} PaintReads(s: string, style: seq<nat>)
    ensures TextOf(Paint(s, style)) == Strip(s)
    decreases |s|
  {
    if s != "" {
      if [ESC, '['] <= s && SequenceLength(s[2..]) > 0 {
        var n := SequenceLength(s[2..]);
        PaintReads(s[2 + n..], Applied(style, Numbers(s[2..2 + n - 1])));
      } else {
        PaintReads(s[1..], style);
        assert ([Glyph(s[0], style)] + Paint(s[1..], style))[1..] == Paint(s[1..], style);
      }
    }
  }

  ghost predicate PaintsAs(s: string, style: seq<nat>, glyphs: seq<Glyph>) {
    Paint(s, style) == glyphs
  }

  lemma PaintOne(c: char, rest: string, style: seq<nat>, glyphs: seq<Glyph>)
    requires c != ESC && PaintsAs(rest, style, glyphs)
    ensures PaintsAs([c] + rest, style, [Glyph(c, style)] + glyphs)
  {
    assert ([c] + rest)[1..] == rest;
  }

  lemma StyledCons(text: string, style: seq<nat>, glyphs: seq<Glyph>)
    requires text != ""
    ensures [Glyph(text[0], style)] + (Styled(text[1..], style) + glyphs) == Styled(text, style) + glyphs
  {
  }

  lemma {:induction false} PaintPlain(text: string, rest: string, style: seq<nat>)
    requires ESC !in text
    ensures PaintsAs(text + rest, style, Styled(text, style) + Paint(rest, style))
  {
    if text == "" {
      assert text + rest == rest;
      assert Styled(text, style) + Paint(rest, style) == Paint(rest, style);
    } else {
      PaintPlain(text[1..], rest, style);
      PaintOne(text[0], text[1..] + rest, style, Styled(text[1..], style) + Paint(rest, style));
      assert text + rest == [text[0]] + (text[1..] + rest);
      StyledCons(text, style, Paint(rest, style));
    }
  }

  lemma PaintText(text: string, style: seq<nat>)
    requires ESC !in text
    ensures Paint(text, style) == Styled(text, style)
  {
    PaintPlain(text, "", style);
    assert text + "" == text;
  }

  lemma PaintSgr(parameters: string, rest: string, style: seq<nat>)
    requires AreParameters(parameters)
    ensures Paint(Sgr(parameters) + rest, style) == Paint(rest, Applied(style, Numbers(parameters)))
  {
    var s := Sgr(parameters) + rest;
    SequenceOfParameters(parameters, rest);
    assert s[2..] == parameters + "m" + rest;
    assert s[2..2 + |parameters|] == parameters;
    assert s[2 + (|parameters| + 1)..] == rest;
  }

  lemma NumberAlone(n: nat)
    ensures Numbers(Decimal(n)) == [n]
  {
    DecimalIsDigits(n);
    NoDigit(';', n);
    assert Decimal(n)[0..] == Decimal(n);
    IndexNowhere(Decimal(n), ';', 0);
  }

  lemma NumberBefore(n: nat, tail: string)
    ensures Numbers(Decimal(n) + (";" + tail)) == [n] + Numbers(tail)
  {
    DecimalIsDigits(n);
    NoDigit(';', n);
    FirstNumber(Decimal(n), tail);
  }

  lemma FirstNumber(digits: string, tail: string)
    requires ';' !in digits
    ensures Numbers(digits + (";" + tail)) == [Number(digits)] + Numbers(tail)
  {
    var s := digits + (";" + tail);
    assert s[0..|digits|] == digits && s[..|digits|] == digits && s[|digits|] == ';';
    IndexAt(s, ';', 0, |digits|);
    assert s[|digits| + 1..] == tail;
  }

  ghost predicate Lists(s: string, numbers: seq<nat>) {
    Numbers(s) == numbers
  }

  lemma OneMoreNumber(n: nat, tail: string, s: string, numbers: seq<nat>)
    requires s == Decimal(n) + (";" + tail) && Lists(tail, numbers)
    ensures Lists(s, [n] + numbers)
  {
    NumberBefore(n, tail);
  }

  lemma {:induction false} NumbersOfOptions(first: nat, ansiOptions: seq<nat>)
    ensures Lists(Decimal(first) + Options(ansiOptions), [first] + ansiOptions)
    decreases |ansiOptions|
  {
    if ansiOptions == [] {
      NumberAlone(first);
      assert Decimal(first) + "" == Decimal(first);
    } else {
      NumbersOfOptions(ansiOptions[0], ansiOptions[1..]);
      assert ansiOptions == [ansiOptions[0]] + ansiOptions[1..];
      var tail := Decimal(ansiOptions[0]) + Options(ansiOptions[1..]);
      OneMoreNumber(first, tail, Decimal(first) + Options(ansiOptions), ansiOptions);
    }
  }

  lemma {:induction false} AppliedAdds(style: seq<nat>, parameters: seq<nat>)
    requires 0 !in parameters
    ensures Applied(style, parameters) == style + parameters
    decreases |parameters|
  {
    if parameters != [] {
      AppliedAdds(style + [parameters[0]], parameters[1..]);
    }
  }

  /** A formatted text is shown in its options and no others, and what follows it in none. */
  lemma PaintFormat(input: string, ansiOptions: seq<nat>, rest: string, style: seq<nat>)
    requires ESC !in input && 0 !in ansiOptions
    ensures Paint(FormatString(input, ansiOptions) + rest, style) == Styled(input, ansiOptions) + Paint(rest, [])
  {
    OptionsAreParameters(ansiOptions);
    var parameters := "0" + Options(ansiOptions);
    var tail := input + (Sgr("0") + rest);
    assert FormatString(input, ansiOptions) + rest == Sgr(parameters) + tail;
    assert Decimal(0) == "0";
    NumbersOfOptions(0, ansiOptions);
    assert ([0] + ansiOptions)[1..] == ansiOptions;
    AppliedAdds([], ansiOptions);
    assert [] + ansiOptions == ansiOptions;
    PaintSgr(parameters, tail, style);
    PaintPlain(input, Sgr("0") + rest, ansiOptions);
    NumbersOfOptions(0, []);
    assert "0" + Options([]) == "0";
    PaintSgr("0", rest, ansiOptions);
  }

  lemma PaintFormatted(input: string, ansiOptions: seq<nat>)
    requires ESC !in input && 0 !in ansiOptions
    ensures Paint(FormatString(input, ansiOptions), []) == Styled(input, ansiOptions)
  {
    PaintFormat(input, ansiOptions, "", []);
    assert FormatString(input, ansiOptions) + "" == FormatString(input, ansiOptions);
  }

  /** A piece of text with the options it is formatted in; without any it is left as it is. */
  datatype Span = Span(text: string, style: seq<nat>) {
    function Formatted(): string {
      if style == [] then text else FormatString(text, style)
    }
  }

  function Spell(spans: seq<Span>): string {
    if spans == [] then "" else spans[0].Formatted() + Spell(spans[1..])
  }

  function Appearance(spans: seq<Span>): seq<Glyph> {
    if spans == [] then [] else Styled(spans[0].text, spans[0].style) + Appearance(spans[1..])
  }

  ghost predicate PlainSpans(spans: seq<Span>) {
    forall s :: s in spans ==> ESC !in s.text && 0 !in s.style
  }

  /** Each piece is shown in its own style. */
  lemma {:induction false} PaintSpans(spans: seq<Span>)
    requires PlainSpans(spans)
    ensures PaintsAs(Spell(spans), [], Appearance(spans))
  {
    if spans != [] {
      assert spans[0] in spans;
      PaintSpans(spans[1..]);
      if spans[0].style == [] {
        PaintPlain(spans[0].text, Spell(spans[1..]), []);
      } else {
        PaintFormat(spans[0].text, spans[0].style, Spell(spans[1..]), []);
      }
    }
  }
}
