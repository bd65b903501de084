/**
 * The whole of a compile error (formatCompileError in FormatErrors.swift): an automaton over its lines decides which
 * ones are messages, source code, carets and suggestions.
 */
module CompileReport {
  import opened Ansi
  import opened CompileError
  import opened Numerals
  import opened Text
  import opened Wrappers

  datatype LineType = ErrorMessage | SourceCode | Pointer | Suggestion

  function Next(t: LineType, line: string): LineType {
    match t
    case ErrorMessage => if line != "" then SourceCode else ErrorMessage
    case SourceCode => Pointer
    case Pointer => if '^' in line then Suggestion else Pointer
    case Suggestion => if line == "" then ErrorMessage else Suggestion
  }

  predicate IsMessage(t: LineType, line: string) {
    t == ErrorMessage && line != ""
  }

  function Formatted(installLocation: string, t: LineType, line: string): Option<string> {
    if IsMessage(t, line) then FormatLine(installLocation, line)
    else if t == Pointer && '^' in line then Some(FormatString(line, [1, 32]))
    else Some(line)
  }

  function Behind(done: seq<string>, rest: Option<seq<string>>): Option<seq<string>> {
    match rest
    case None => None
    case Some(lines) => Some(done + lines)
  }

  /** Lines read from state `t` on; None when one of them fails its index check. */
  function FormatFrom(installLocation: string, t: LineType, lines: seq<string>): Option<seq<string>>
    decreases |lines|
  {
    if lines == [] then Some([])
    else
      var first := Formatted(installLocation, t, lines[0]);
      if first.None? then None
      else Behind([first.value], FormatFrom(installLocation, Next(t, lines[0]), lines[1..]))
  }

  function TypeAfter(t: LineType, lines: seq<string>): LineType
    decreases |lines|
  {
    if lines == [] then t else TypeAfter(Next(t, lines[0]), lines[1..])
  }

  const LABEL: string := "Compilation error: "

  function FormattedLabel(): string {
    FormatString(LABEL, [31])
  }

  function Headed(lines: seq<string>): (r: seq<string>)
    requires lines != []
    ensures |r| == |lines| + if "error: " <= lines[0] then 1 else 0
  {
    if "error: " <= lines[0] then [FormattedLabel()] + lines else [FormattedLabel() + lines[0]] + lines[1..]
  }

  function FormatError(installLocation: string, input: string): Option<seq<string>> {
    var lines := Headed(Split(input, '\n'));
    Behind([lines[0]], FormatFrom(installLocation, ErrorMessage, lines[1..]))
  }

  /** `formatCompileErrorLine`; None when an index is out of bounds. */
  method FormatCompileErrorLine(installLocation: string, input: string) returns (r: Option<string>)
    ensures r == FormatLine(installLocation, input)
  {
    var kind, message := TypeOf(input), Unannounced(input);
    var colons := FindColons(message);
    if colons.third == -1 {
      return Some(FormatString(message, [36]));
    }
    var pieces := CutAt(message, colons);
    if pieces.tail == "" {
      return None;
    }
    var line := Recognized(pieces, kind.Label());
    if line.Other? {
      return Some(FormatString(message, [36]));
    }
    var file := FormatString(Place(installLocation, line.file, line.line, line.column), [1]);
    var mark := FormatString(kind.Label(), [1, kind.Color()]);
    r := Some(file + mark + FormatString(line.message, [1]));
  }

  /** One turn of the loop over the lines. */
  method FormatNext(installLocation: string, lineType: LineType, line: string) returns (r: Option<string>, next: LineType)
    ensures r == Formatted(installLocation, lineType, line) && next == Next(lineType, line)
  {
    r, next := Some(line), lineType;
    match lineType {
      case ErrorMessage =>
        if line != "" {
          r := FormatCompileErrorLine(installLocation, line);
          next := SourceCode;
        }
      case SourceCode =>
        next := Pointer;
      case Pointer =>
        if '^' in line {
          r := Some(FormatString(line, [1, 32]));
          next := Suggestion;
        }
      case Suggestion =>
        if line == "" {
          next := ErrorMessage;
        }
    }
  }

  /** `all` is what comes of the first `i` lines, already formatted, and the others, still to do from state `t`. */
  ghost predicate Remains(installLocation: string, all: Option<seq<string>>, lines: seq<string>, i: nat, t: LineType) {
    1 <= i <= |lines| && all == Behind(lines[1..i], FormatFrom(installLocation, t, lines[i..]))
  }

  lemma AllRemains(installLocation: string, lines: seq<string>)
    requires lines != []
    ensures Remains(installLocation, FormatFrom(installLocation, ErrorMessage, lines[1..]), lines, 1, ErrorMessage)
  {
    var all := FormatFrom(installLocation, ErrorMessage, lines[1..]);
    assert all.Some? ==> lines[1..1] + all.value == all.value;
  }

  lemma BehindBehind(done: seq<string>, line: string, later: Option<seq<string>>)
    ensures Behind(done, Behind([line], later)) == Behind(done + [line], later)
  {
    assert later.Some? ==> done + ([line] + later.value) == (done + [line]) + later.value;
  }

  lemma ReplaceAt(lines: seq<string>, i: nat, line: string)
    requires 1 <= i < |lines|
    ensures var after := lines[i := line]; after[1..i + 1] == lines[1..i] + [line] && after[i + 1..] == lines[i..][1..]
  {
  }

  lemma TurnRemains(installLocation: string, all: Option<seq<string>>, lines: seq<string>, i: nat, t: LineType)
    requires i < |lines| && Remains(installLocation, all, lines, i, t)
    ensures var formatted := Formatted(installLocation, t, lines[i]);
      if formatted.None? then all.None?
      else Remains(installLocation, all, lines[i := formatted.value], i + 1, Next(t, lines[i]))
  {
    var formatted := Formatted(installLocation, t, lines[i]);
    if formatted.Some? {
      ReplaceAt(lines, i, formatted.value);
      BehindBehind(lines[1..i], formatted.value, FormatFrom(installLocation, Next(t, lines[i]), lines[i..][1..]));
    }
  }

  lemma NoneRemains(installLocation: string, all: Option<seq<string>>, lines: seq<string>, t: LineType)
    requires Remains(installLocation, all, lines, |lines|, t)
    ensures Behind([lines[0]], all) == Some(lines)
  {
    assert lines[1..|lines|] + [] == lines[1..];
    assert lines == [lines[0]] + lines[1..];
  }

  /** The loop: the lines are replaced in place, from the second on. */
  method FormatLines(installLocation: string, headed: seq<string>) returns (r: Option<seq<string>>)
    requires headed != []
    ensures r == Behind([headed[0]], FormatFrom(installLocation, ErrorMessage, headed[1..]))
  {
    var lines, lineType, i := headed, ErrorMessage, 1;
    ghost var all := FormatFrom(installLocation, ErrorMessage, headed[1..]);
    AllRemains(installLocation, headed);
    while i < |lines|
      invariant i <= |lines| && lines != [] && lines[0] == headed[0]
      invariant Remains(installLocation, all, lines, i, lineType)
      decreases |lines| - i
    {
      TurnRemains(installLocation, all, lines, i, lineType);
      var formatted;
      formatted, lineType := FormatNext(installLocation, lineType, lines[i]);
      if formatted.None? {
        return None;
      }
      lines := lines[i := formatted.value];
      i := i + 1;
    }
    NoneRemains(installLocation, all, lines, lineType);
    r := Some(lines);
  }

  /** `formatCompileError`. */
  method FormatCompileError(installLocation: string, input: string) returns (r: Option<seq<string>>)
    ensures r == FormatError(installLocation, input)
  {
    var lines := Headed(Split(input, '\n'));
    r := FormatLines(installLocation, lines);
  }

  // What a terminal shows.

  function PaintAll(lines: seq<string>): (r: seq<seq<Glyph>>)
    ensures |r| == |lines|
  {
    if lines == [] then [] else [Paint(lines[0], [])] + PaintAll(lines[1..])
  }

  ghost predicate Plain(lines: seq<string>) {
    forall line :: line in lines ==> ESC !in line
  }

  /** What one line looks like once coloured: only messages change their text, and a line with a caret its colour. */
  function Look(installLocation: string, t: LineType, line: string): seq<Glyph> {
    if IsMessage(t, line) then LooksAs(installLocation, line)
    else Styled(line, if t == Pointer && '^' in line then [1, 32] else [])
  }

  function LookFrom(installLocation: string, t: LineType, lines: seq<string>): seq<seq<Glyph>>
    decreases |lines|
  {
    if lines == [] then []
    else [Look(installLocation, t, lines[0])] + LookFrom(installLocation, Next(t, lines[0]), lines[1..])
  }

  /** The lines taken for messages. */
  function Messages(t: LineType, lines: seq<string>): seq<string>
    decreases |lines|
  {
    if lines == [] then []
    else (if IsMessage(t, lines[0]) then [lines[0]] else []) + Messages(Next(t, lines[0]), lines[1..])
  }

  /** Formatting fails exactly when one of the messages ends right behind its third colon (see LineTrapsExactly). */
  lemma {:induction false} FromFailsExactly(installLocation: string, t: LineType, lines: seq<string>)
    ensures FormatFrom(installLocation, t, lines).None? <==>
      exists message :: message in Messages(t, lines) && FormatLine(installLocation, message).None?
    decreases |lines|
  {
    if lines != [] {
      var later := Messages(Next(t, lines[0]), lines[1..]);
      FromFailsExactly(installLocation, Next(t, lines[0]), lines[1..]);
      if IsMessage(t, lines[0]) {
        assert forall message :: message in Messages(t, lines) <==> message == lines[0] || message in later;
      } else {
        assert Messages(t, lines) == later;
      }
    }
  }

  lemma FormattedLooks(installLocation: string, t: LineType, line: string)
    requires ESC !in line && Formatted(installLocation, t, line).Some?
    ensures Paint(Formatted(installLocation, t, line).value, []) == Look(installLocation, t, line)
  {
    if IsMessage(t, line) {
      LineLooksAs(installLocation, line);
    } else if t == Pointer && '^' in line {
      PaintFormatted(line, [1, 32]);
    } else {
      PaintText(line, []);
    }
  }

  /** Line by line, in every state: the text of source code, carets and suggestions comes back. */
  lemma {:induction false} FromLooks(installLocation: string, t: LineType, lines: seq<string>)
    requires Plain(lines) && FormatFrom(installLocation, t, lines).Some?
    ensures PaintAll(FormatFrom(installLocation, t, lines).value) == LookFrom(installLocation, t, lines)
    decreases |lines|
  {
    if lines != [] {
      assert lines[0] in lines;
      FormattedLooks(installLocation, t, lines[0]);
      FromLooks(installLocation, Next(t, lines[0]), lines[1..]);
      var first := Formatted(installLocation, t, lines[0]).value;
      var later := FormatFrom(installLocation, Next(t, lines[0]), lines[1..]).value;
      assert ([first] + later)[1..] == later;
    }
  }

  lemma {:induction false} PlainLines(input: string)
    requires ESC !in input
    ensures Plain(Split(input, '\n'))
  {
    if input != "" {
      PlainLines(input[1..]);
    }
  }

  /** The lines below the label, and the text on the label's own line. */
  function Below(lines: seq<string>): seq<string>
    requires lines != []
  {
    if "error: " <= lines[0] then lines else lines[1..]
  }

  function Beside(lines: seq<string>): string
    requires lines != []
  {
    if "error: " <= lines[0] then "" else lines[0]
  }

  lemma HeadedIs(lines: seq<string>)
    requires lines != []
    ensures Headed(lines) == [FormattedLabel() + Beside(lines)] + Below(lines)
  {
    assert FormattedLabel() + "" == FormattedLabel();
  }

  /** A red label, and the title as it is. */
  function LabelledLooks(title: string): seq<Glyph> {
    Styled("Compilation error: ", [31]) + Styled(title, [])
  }

  lemma HeadLooks(beside: string, below: seq<string>)
    requires ESC !in beside
    ensures PaintAll([FormattedLabel() + beside] + below) == [LabelledLooks(beside)] + PaintAll(below)
  {
    PaintFormat(LABEL, [31], beside, []);
    PaintText(beside, []);
    assert ([FormattedLabel() + beside] + below)[1..] == below;
  }

  lemma ErrorIs(installLocation: string, lines: seq<string>)
    requires lines != []
    ensures Behind([Headed(lines)[0]], FormatFrom(installLocation, ErrorMessage, Headed(lines)[1..]))
         == Behind([FormattedLabel() + Beside(lines)], FormatFrom(installLocation, ErrorMessage, Below(lines)))
  {
    HeadedIs(lines);
    assert Headed(lines)[1..] == Below(lines);
  }

  /** A text of n lines becomes n lines, or n + 1 when it starts with an error, each with the look its place calls for. */
  lemma ErrorLooks(installLocation: string, input: string)
    requires ESC !in input
    ensures var lines, r := Split(input, '\n'), FormatError(installLocation, input);
      r.Some? ==>
        && |r.value| == |lines| + (if "error: " <= lines[0] then 1 else 0)
        && PaintAll(r.value) == [LabelledLooks(Beside(lines))] + LookFrom(installLocation, ErrorMessage, Below(lines))
  {
    var lines := Split(input, '\n');
    PlainLines(input);
    ErrorIs(installLocation, lines);
    assert lines[0] in lines;
    if FormatError(installLocation, input).Some? {
      FromLooks(installLocation, ErrorMessage, Below(lines));
      HeadLooks(Beside(lines), FormatFrom(installLocation, ErrorMessage, Below(lines)).value);
      LookFromLength(installLocation, ErrorMessage, Below(lines));
    }
  }

  lemma {:induction false} LookFromLength(installLocation: string, t: LineType, lines: seq<string>)
    ensures |LookFrom(installLocation, t, lines)| == |lines|
    decreases |lines|
  {
    if lines != [] {
      LookFromLength(installLocation, Next(t, lines[0]), lines[1..]);
    }
  }

  // Every diagnostic is recognised.

  /** One diagnostic as LLDB prints it: the message, the line of code, the caret, any fix-its, and a blank line. */
  datatype Report = Report(message: string, source: string, caret: string, suggestions: seq<string>) {
    predicate Shaped() {
      message != "" && '^' in caret && "" !in suggestions
    }

    function Lines(): seq<string> {
      [message] + ([source] + ([caret] + Tail()))
    }

    function Tail(): seq<string> {
      suggestions + [""]
    }
  }

  function AllLines(reports: seq<Report>): seq<string> {
    if reports == [] then [] else reports[0].Lines() + AllLines(reports[1..])
  }

  /** Lines that are not coloured. */
  function Uncoloured(lines: seq<string>): (r: seq<seq<Glyph>>)
    ensures |r| == |lines|
  {
    if lines == [] then [] else [Styled(lines[0], [])] + Uncoloured(lines[1..])
  }

  /** The message as a message looks, the code as it is, the caret bold and green, the rest as it is. */
  function ReportLooks(message: seq<Glyph>, report: Report): seq<seq<Glyph>> {
    [message] + ([Styled(report.source, [])] + ([Styled(report.caret, [1, 32])] + Uncoloured(report.Tail())))
  }

  function AllLook(installLocation: string, reports: seq<Report>): seq<seq<Glyph>> {
    if reports == [] then []
    else ReportLooks(LooksAs(installLocation, reports[0].message), reports[0]) + AllLook(installLocation, reports[1..])
  }

  function AllMessages(reports: seq<Report>): (r: seq<string>)
    ensures |r| == |reports| && forall i :: 0 <= i < |r| ==> r[i] == reports[i].message
  {
    seq(|reports|, i requires 0 <= i < |reports| => reports[i].message)
  }

  lemma {:induction false} LookAppend(installLocation: string, t: LineType, a: seq<string>, b: seq<string>)
    ensures LookFrom(installLocation, t, a + b)
         == LookFrom(installLocation, t, a) + LookFrom(installLocation, TypeAfter(t, a), b)
    decreases |a|
  {
    if a == [] {
      assert a + b == b;
    } else {
      assert (a + b)[0] == a[0] && (a + b)[1..] == a[1..] + b;
      LookAppend(installLocation, Next(t, a[0]), a[1..], b);
    }
  }

  lemma {:induction false} MessagesAppend(t: LineType, a: seq<string>, b: seq<string>)
    ensures Messages(t, a + b) == Messages(t, a) + Messages(TypeAfter(t, a), b)
    decreases |a|
  {
    if a == [] {
      assert a + b == b;
    } else {
      assert (a + b)[0] == a[0] && (a + b)[1..] == a[1..] + b;
      MessagesAppend(Next(t, a[0]), a[1..], b);
    }
  }

  lemma LookOne(installLocation: string, t: LineType, line: string, rest: seq<string>)
    ensures LookFrom(installLocation, t, [line] + rest)
         == [Look(installLocation, t, line)] + LookFrom(installLocation, Next(t, line), rest)
    ensures TypeAfter(t, [line] + rest) == TypeAfter(Next(t, line), rest)
    ensures Messages(t, [line] + rest) == (if IsMessage(t, line) then [line] else []) + Messages(Next(t, line), rest)
  {
    assert ([line] + rest)[1..] == rest;
  }

  lemma {:induction false} SuggestionsLook(installLocation: string, suggestions: seq<string>)
    requires "" !in suggestions
    ensures LookFrom(installLocation, Suggestion, suggestions + [""]) == Uncoloured(suggestions + [""])
    ensures TypeAfter(Suggestion, suggestions + [""]) == ErrorMessage
    ensures Messages(Suggestion, suggestions + [""]) == []
    decreases |suggestions|
  {
    if suggestions == [] {
      LookOne(installLocation, Suggestion, "", []);
      assert [""] + [] == suggestions + [""];
    } else {
      SuggestionsLook(installLocation, suggestions[1..]);
      assert suggestions + [""] == [suggestions[0]] + (suggestions[1..] + [""]);
      LookOne(installLocation, Suggestion, suggestions[0], suggestions[1..] + [""]);
    }
  }

  lemma ReportLook(installLocation: string, report: Report)
    requires report.Shaped()
    ensures LookFrom(installLocation, ErrorMessage, report.Lines())
         == ReportLooks(LooksAs(installLocation, report.message), report)
    ensures TypeAfter(ErrorMessage, report.Lines()) == ErrorMessage
    ensures Messages(ErrorMessage, report.Lines()) == [report.message]
  {
    SuggestionsLook(installLocation, report.suggestions);
    LookOne(installLocation, Pointer, report.caret, report.Tail());
    LookOne(installLocation, SourceCode, report.source, [report.caret] + report.Tail());
    LookOne(installLocation, ErrorMessage, report.message, [report.source] + ([report.caret] + report.Tail()));
  }

  /** The automaton is back at its start behind each diagnostic, so none is taken for a part of another. */
  lemma {:induction false} ReportsLook(installLocation: string, reports: seq<Report>)
    requires forall report :: report in reports ==> report.Shaped()
    ensures LookFrom(installLocation, ErrorMessage, AllLines(reports)) == AllLook(installLocation, reports)
    ensures Messages(ErrorMessage, AllLines(reports)) == AllMessages(reports)
  {
    if reports != [] {
      ReportsLook(installLocation, reports[1..]);
      ReportLook(installLocation, reports[0]);
      LookAppend(installLocation, ErrorMessage, reports[0].Lines(), AllLines(reports[1..]));
      MessagesAppend(ErrorMessage, reports[0].Lines(), AllLines(reports[1..]));
      assert AllMessages(reports) == [reports[0].message] + AllMessages(reports[1..]);
    }
  }

  // What LLDB prints, and what the notebook shows of it.

  /** A diagnostic, before it is printed. */
  datatype Finding = Finding(
    kind: MessageType, file: string, line: nat, column: nat, message: string,
    source: string, caret: string, suggestions: seq<string>)
  {
    predicate Proper() {
      ':' !in file && line < INT_LIMIT && column < INT_LIMIT && '^' in caret && "" !in suggestions
    }

    function Printout(): Report {
      Report(Diagnostic(kind, file, line, column, message), source, caret, suggestions)
    }

    /** Place, label and message in their colours, with a path inside a package shortened; then the other lines. */
    function Looks(installLocation: string): seq<seq<Glyph>> {
      ReportLooks(Styled(Place(installLocation, file, line, column), [1]) + (LabelLooks(kind) + Styled(message, [1])),
                  Printout())
    }
  }

  function Printouts(fs: seq<Finding>): seq<Report> {
    if fs == [] then [] else [fs[0].Printout()] + Printouts(fs[1..])
  }

  function FindingsLook(installLocation: string, fs: seq<Finding>): seq<seq<Glyph>> {
    if fs == [] then [] else fs[0].Looks(installLocation) + FindingsLook(installLocation, fs[1..])
  }

  ghost predicate AllProper(fs: seq<Finding>) {
    forall f :: f in fs ==> f.Proper()
  }

  lemma MessageLooks(installLocation: string, kind: MessageType, file: string, line: nat, column: nat, message: string)
    requires ':' !in file && line < INT_LIMIT && column < INT_LIMIT
    ensures var input := Diagnostic(kind, file, line, column, message);
      && input != "" && FormatLine(installLocation, input).Some?
      && LooksAs(installLocation, input) ==
           Styled(Place(installLocation, file, line, column), [1]) + (LabelLooks(kind) + Styled(message, [1]))
  {
    DiagnosticParses(kind, file, line, column, message);
    NotEmpty(kind, file, line, column, message);
  }

  lemma NotEmpty(kind: MessageType, file: string, line: nat, column: nat, message: string)
    ensures Diagnostic(kind, file, line, column, message) != ""
  {
  }

  lemma PrintoutLooks(installLocation: string, f: Finding)
    requires f.Proper()
    ensures f.Printout().Shaped() && FormatLine(installLocation, f.Printout().message).Some?
    ensures ReportLooks(LooksAs(installLocation, f.Printout().message), f.Printout()) == f.Looks(installLocation)
  {
    MessageLooks(installLocation, f.kind, f.file, f.line, f.column, f.message);
  }

  lemma {:induction false} PrintoutsLook(installLocation: string, fs: seq<Finding>)
    requires AllProper(fs)
    ensures forall report :: report in Printouts(fs) ==>
      report.Shaped() && FormatLine(installLocation, report.message).Some?
    ensures AllLook(installLocation, Printouts(fs)) == FindingsLook(installLocation, fs)
    ensures |FindingsLook(installLocation, fs)| == |AllLines(Printouts(fs))|
  {
    if fs != [] {
      assert fs[0] in fs;
      PrintoutsLook(installLocation, fs[1..]);
      PrintoutLooks(installLocation, fs[0]);
      assert Printouts(fs)[1..] == Printouts(fs[1..]);
    }
  }

  /** The text of a compile error: a title of LLDB's, if there is one, then the diagnostics. */
  function TextLines(title: Option<string>, fs: seq<Finding>): seq<string> {
    (match title case None => [] case Some(t) => [t]) + AllLines(Printouts(fs))
  }

  function TitleOf(title: Option<string>): string {
    match title case None => "" case Some(t) => t
  }

  ghost predicate LooksLike(installLocation: string, lines: seq<string>, looks: seq<seq<Glyph>>) {
    var r := FormatError(installLocation, Join(lines, '\n'));
    r.Some? && PaintAll(r.value) == looks
  }

  lemma {:induction false} JoinPlain(lines: seq<string>)
    requires Plain(lines)
    ensures ESC !in Join(lines, '\n')
  {
    if |lines| > 1 {
      JoinPlain(lines[1..]);
    }
  }

  /** Diagnostics behind their label are all formatted. */
  lemma DiagnosticsFormat(installLocation: string, fs: seq<Finding>)
    requires AllProper(fs)
    ensures FormatFrom(installLocation, ErrorMessage, AllLines(Printouts(fs))).Some?
    ensures LookFrom(installLocation, ErrorMessage, AllLines(Printouts(fs))) == FindingsLook(installLocation, fs)
  {
    PrintoutsLook(installLocation, fs);
    ReportsLook(installLocation, Printouts(fs));
    FromFailsExactly(installLocation, ErrorMessage, AllLines(Printouts(fs)));
  }

  /**
   * Any list of diagnostics, as LLDB prints them, is shown as one label with the title, if any, and then for each
   * diagnostic its place, label and message, its code, caret and suggestions, if and only if the text starts with
   * `error: ` exactly when it has no title.
   */
  lemma PrintedLooks(installLocation: string, title: Option<string>, fs: seq<Finding>)
    requires AllProper(fs) && (title.None? ==> fs != [])
    requires var lines := TextLines(title, fs); Plain(lines) && forall line :: line in lines ==> '\n' !in line
    ensures TextLines(title, fs) != []
    ensures var lines := TextLines(title, fs);
      LooksLike(installLocation, lines, [LabelledLooks(TitleOf(title))] + FindingsLook(installLocation, fs))
      <==> (title.None? <==> "error: " <= lines[0])
  {
    var lines := TextLines(title, fs);
    var looks := [LabelledLooks(TitleOf(title))] + FindingsLook(installLocation, fs);
    assert |lines| > 0;
    SplitJoin(lines, '\n');
    JoinPlain(lines);
    PrintoutsLook(installLocation, fs);
    ErrorLooks(installLocation, Join(lines, '\n'));
    if title.None? <==> "error: " <= lines[0] {
      assert Below(lines) == AllLines(Printouts(fs)) && Beside(lines) == TitleOf(title);
      TitledFormats(installLocation, lines, fs);
    }
  }

  /** Below its title, what consists of diagnostics is formatted. */
  lemma TitledFormats(installLocation: string, lines: seq<string>, fs: seq<Finding>)
    requires lines != [] && AllProper(fs) && Below(lines) == AllLines(Printouts(fs))
    requires Split(Join(lines, '\n'), '\n') == lines
    ensures FormatError(installLocation, Join(lines, '\n')).Some?
    ensures LookFrom(installLocation, ErrorMessage, Below(lines)) == FindingsLook(installLocation, fs)
  {
    DiagnosticsFormat(installLocation, fs);
    ErrorIs(installLocation, lines);
  }

  /** Without a title, that is to say: if and only if the first diagnostic is an error. */
  lemma UntitledStartsWithError(fs: seq<Finding>)
    requires fs != [] && AllProper(fs)
    ensures var lines := TextLines(None, fs); lines != [] && ("error: " <= lines[0] <==> fs[0].kind.Error?)
  {
    var f := fs[0];
    assert f in fs;
    DiagnosticParses(f.kind, f.file, f.line, f.column, f.message);
    assert TextLines(None, fs)[0] == f.Printout().message;
  }
}
