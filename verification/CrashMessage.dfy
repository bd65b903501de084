/**
 * What a crashed cell wrote to stderr (fetchStderr in FormatErrors.swift): the stack trace that Swift prints is cut
 * off, and the prefix `module/file:line: ` of the first line becomes the error's source.
 */
module CrashMessage {
  import opened Ansi
  import opened Numerals
  import opened Text
  import opened Wrappers

  const STACK_TRACE: string := "Current stack trace:"
  const EXPRESSION: string := "__lldb_expr_"

  datatype ErrorSource = ErrorSource(file: string, line: int)

  /** What becomes of the first line: kept as it is, with or without a source, rewritten, or a failed index check. */
  datatype FirstLine =
    | Unrecognized | NoMessage(source: ErrorSource) | Message(source: ErrorSource, message: string) | Trap

  function ErrorFile(line: string, slash: nat, colon: nat): string
    requires slash < colon <= |line|
  {
    var name := line[slash + 1..colon];
    if EXPRESSION <= line then name else line[..slash] + "/" + name
  }

  function ParseFrom(line: string, slash: nat, first: int, second: int): FirstLine
    requires slash < |line|
    requires first == -1 || slash < first < |line|
    requires second == -1 || 0 <= first < second < |line|
  {
    if first == -1 || second == -1 then Unrecognized
    else
      var number := ParseInt(line[first + 1..second]);
      if number.None? then Unrecognized
      else
        var source := ErrorSource(ErrorFile(line, slash, first), number.value);
        if second + 2 > |line| then Trap
        else if second + 2 == |line| then NoMessage(source)
        else Message(source, line[second + 2..])
  }

  function Second(line: string, first: int): int
    requires -1 <= first < |line|
  {
    if first == -1 then -1 else IndexOf(line, ':', first + 1)
  }

  function ParseFirstLine(line: string): FirstLine {
    var slash := IndexOf(line, '/', 0);
    if slash <= 0 then Unrecognized
    else
      var first := IndexOf(line, ':', slash);
      ParseFrom(line, slash, first, Second(line, first))
  }

  /** The loop that looks for two colons. */
  method FindColons(line: string, slash: nat) returns (first: int, second: int)
    requires slash < |line|
    ensures first == IndexOf(line, ':', slash) && second == Second(line, first)
  {
    first, second := -1, -1;
    var index, numColons := slash, 0;
    while index < |line|
      invariant slash <= index <= |line| && 0 <= numColons <= 1 && second == -1
      invariant numColons == 0 ==> first == -1 && ':' !in line[slash..index]
      invariant numColons == 1 ==> slash <= first < index && line[first] == ':' && ':' !in line[slash..first]
      invariant numColons == 1 ==> ':' !in line[first + 1..index]
    {
      ghost var seen := line[slash..index];
      if line[index] == ':' {
        numColons := numColons + 1;
      }
      if numColons == 1 && first == -1 {
        first := index;
      } else if numColons == 2 {
        second := index;
        break;
      }
      index := index + 1;
      assert numColons == 0 ==> line[slash..index] == seen + [line[index - 1]];
      assert numColons == 1 && first < index - 1 ==>
        line[first + 1..index] == line[first + 1..index - 1] + [line[index - 1]];
    }
    if first == -1 {
      assert line[slash..] == line[slash..index];
      IndexNowhere(line, ':', slash);
    } else {
      IndexAt(line, ':', slash, first);
      if second == -1 {
        assert line[first + 1..] == line[first + 1..index];
        IndexNowhere(line, ':', first + 1);
      } else {
        IndexAt(line, ':', first + 1, second);
      }
    }
  }

  /** The prefix of the error message, guard by guard. */
  method ParseLine(firstLine: string) returns (r: FirstLine)
    ensures r == ParseFirstLine(firstLine)
  {
    var slash := IndexOf(firstLine, '/', 0);
    if slash <= 0 {
      return Unrecognized;
    }
    var first, second := FindColons(firstLine, slash);
    if first == -1 || second == -1 {
      return Unrecognized;
    }
    var errorLine := ParseInt(firstLine[first + 1..second]);
    if errorLine.None? {
      return Unrecognized;
    }
    var source := ErrorSource(ErrorFile(firstLine, slash, first), errorLine.value);
    if second + 2 > |firstLine| {
      return Trap;
    }
    if second + 2 == |firstLine| {
      return NoMessage(source);
    }
    r := Message(source, firstLine[second + 2..]);
  }

  function Colorized(message: string): string {
    var colon := IndexOf(message, ':', 0);
    if colon == -1 then message else FormatString(message[..colon + 1], [31]) + message[colon + 1..]
  }

  lemma StripHalf(head: string, tail: string)
    requires ESC !in head && ESC !in tail
    ensures Strip(FormatString(head, [31]) + tail) == head + tail
  {
    StripFormat(head, [31], tail);
    StripText(tail);
  }

  /** The label of the message, up to its first colon, is red; without one, nothing is. */
  lemma ColorizedLooks(message: string, mark: string, contents: string)
    requires ESC !in message && message == mark + contents
    requires if ':' in message then mark != "" && mark[|mark| - 1] == ':' && ':' !in mark[..|mark| - 1] else mark == ""
    ensures Paint(Colorized(message), []) == Styled(mark, [31]) + Styled(contents, [])
  {
    if ':' in message {
      var n := |mark| - 1;
      assert message[n] == ':' && message[0..n] == mark[..n];
      IndexAt(message, ':', 0, n);
      assert message[..n + 1] == mark && message[n + 1..] == contents;
      PaintFormat(mark, [31], contents, []);
      PaintText(contents, []);
    } else {
      assert message[0..] == message;
      IndexNowhere(message, ':', 0);
      PaintText(message, []);
    }
  }

  lemma StripColorized(message: string)
    requires ESC !in message
    ensures Strip(Colorized(message)) == message
  {
    var colon := IndexOf(message, ':', 0);
    if colon == -1 {
      StripText(message);
    } else {
      var head, tail := message[..colon + 1], message[colon + 1..];
      StripHalf(head, tail);
      assert message == head + tail;
    }
  }

  // The whole of stderr.

  datatype Fetched = Trapped | Fetched(lines: seq<string>, source: Option<ErrorSource>)

  function LastIndexOf(lines: seq<string>, line: string): (r: int)
    ensures r == -1 ==> line !in lines
    ensures r != -1 ==> 0 <= r < |lines| && lines[r] == line && line !in lines[r + 1..]
  {
    if lines == [] then -1
    else if lines[|lines| - 1] == line then |lines| - 1
    else
      var r := LastIndexOf(lines[..|lines| - 1], line);
      assert r != -1 ==> lines[r + 1..] == lines[..|lines| - 1][r + 1..] + [lines[|lines| - 1]];
      r
  }

  lemma {:induction false} LastIndexAt(before: seq<string>, line: string, later: seq<string>)
    requires line !in later
    ensures LastIndexOf(before + [line] + later, line) == |before|
    decreases |later|
  {
    var lines := before + [line] + later;
    if later != [] {
      var front := later[..|later| - 1];
      assert lines[..|lines| - 1] == before + [line] + front;
      assert lines[|lines| - 1] == later[|later| - 1];
      LastIndexAt(before, line, front);
    }
  }

  function Rewritten(lines: seq<string>): Fetched
    requires lines != []
  {
    match ParseFirstLine(lines[0])
    case Unrecognized => Fetched(lines, None)
    case NoMessage(source) => Fetched(lines, Some(source))
    case Message(source, message) => Fetched(lines[0 := Colorized(message)], Some(source))
    case Trap => Trapped
  }

  function Fetch(stderr: Option<string>): Fetched {
    if stderr.None? then Fetched([], None)
    else
      var lines := Split(stderr.value, '\n');
      var stackTraceIndex := LastIndexOf(lines, STACK_TRACE);
      if stackTraceIndex <= 0 then Fetched(lines, None) else Rewritten(lines[..stackTraceIndex])
  }

  method FetchStderr(stderr: Option<string>) returns (r: Fetched)
    ensures r == Fetch(stderr)
  {
    if stderr.None? {
      return Fetched([], None);
    }
    var lines := Split(stderr.value, '\n');
    var stackTraceIndex := LastIndexOf(lines, STACK_TRACE);
    if stackTraceIndex <= 0 {
      return Fetched(lines, None);
    }
    lines := lines[..stackTraceIndex];
    var firstLine := ParseLine(lines[0]);
    match firstLine {
      case Unrecognized => r := Fetched(lines, None);
      case Trap => r := Trapped;
      case NoMessage(source) => r := Fetched(lines, Some(source));
      case Message(source, message) =>
        lines := lines[0 := Colorized(message)];
        r := Fetched(lines, Some(source));
    }
  }

  // What the Swift runtime prints.

  predicate Nameable(moduleName: string, file: string) {
    moduleName != "" && '/' !in moduleName && ':' !in file
  }

  function Prefix(moduleName: string, file: string, number: string): string {
    moduleName + "/" + file + ":" + number + ":"
  }

  /** The file is qualified by the module, unless that is the one LLDB makes up for a cell. */
  function Qualified(moduleName: string, file: string): string {
    if EXPRESSION <= moduleName then file else moduleName + "/" + file
  }

  lemma ExpressionPrefix(moduleName: string, rest: string)
    ensures EXPRESSION <= moduleName + "/" + rest <==> EXPRESSION <= moduleName
  {
    var line := moduleName + "/" + rest;
    if |moduleName| < |EXPRESSION| {
      assert line[|moduleName|] == '/';
    } else {
      assert line[..|EXPRESSION|] == moduleName[..|EXPRESSION|];
    }
  }

  /** A line that starts with a prefix, piece by piece. */
  ghost predicate Consists(line: string, moduleName: string, file: string, number: string, tail: string) {
    var slash := |moduleName|;
    var first := slash + 1 + |file|;
    var second := first + 1 + |number|;
    && |line| == second + 1 + |tail|
    && line[slash] == '/' && line[first] == ':' && line[second] == ':'
    && line[..slash] == moduleName && line[slash + 1..first] == file
    && line[first + 1..second] == number && line[second + 1..] == tail
  }

  lemma PrefixConsists(moduleName: string, file: string, number: string, tail: string)
    ensures Consists(Prefix(moduleName, file, number) + tail, moduleName, file, number, tail)
  {
  }

  lemma ConsistsOnly(line: string, moduleName: string, file: string, number: string, tail: string)
    requires Consists(line, moduleName, file, number, tail)
    ensures line == Prefix(moduleName, file, number) + tail
  {
    var slash := |moduleName|;
    var first := slash + 1 + |file|;
    var second := first + 1 + |number|;
    assert line[..slash + 1] == moduleName + "/";
    assert line[..first] == line[..slash + 1] + file;
    assert line[..first + 1] == line[..first] + ":";
    assert line[..second] == line[..first + 1] + number;
    assert line[..second + 1] == line[..second] + ":";
    assert line == line[..second + 1] + tail;
  }

  lemma SearchesStopAt(line: string, slash: nat, first: nat, second: nat)
    requires slash < first < second < |line| && line[slash] == '/' && line[first] == ':' && line[second] == ':'
    requires '/' !in line[..slash] && ':' !in line[slash + 1..first] && ':' !in line[first + 1..second]
    ensures IndexOf(line, '/', 0) == slash && IndexOf(line, ':', slash) == first && Second(line, first) == second
  {
    assert line[0..slash] == line[..slash];
    IndexAt(line, '/', 0, slash);
    assert line[slash..first] == [line[slash]] + line[slash + 1..first];
    IndexAt(line, ':', slash, first);
    IndexAt(line, ':', first + 1, second);
  }

  lemma FileIsQualified(line: string, slash: nat, first: nat)
    requires slash < first < |line| && line[slash] == '/'
    ensures ErrorFile(line, slash, first) == Qualified(line[..slash], line[slash + 1..first])
  {
    ExpressionPrefix(line[..slash], line[slash + 1..]);
    assert line == line[..slash] + "/" + line[slash + 1..];
  }

  lemma ParseConsists(line: string, moduleName: string, file: string, number: string, tail: string)
    requires Nameable(moduleName, file) && ':' !in number && Consists(line, moduleName, file, number, tail)
    ensures var slash, first := |moduleName|, |moduleName| + 1 + |file|;
      && ParseFirstLine(line) == ParseFrom(line, slash, first, first + 1 + |number|)
      && ErrorFile(line, slash, first) == Qualified(moduleName, file)
  {
    var slash := |moduleName|;
    var first := slash + 1 + |file|;
    SearchesStopAt(line, slash, first, first + 1 + |number|);
    FileIsQualified(line, slash, first);
  }

  /** Parsing inverts printing. */
  lemma ParseInvertsPrint(moduleName: string, file: string, n: nat, message: string)
    requires Nameable(moduleName, file) && n < INT_LIMIT
    ensures var source := ErrorSource(Qualified(moduleName, file), n);
      ParseFirstLine(Prefix(moduleName, file, Decimal(n)) + (" " + message)) ==
      if message == "" then NoMessage(source) else Message(source, message)
  {
    var number, tail := Decimal(n), " " + message;
    NoDigit(':', n);
    ParsePrint(n);
    PrefixConsists(moduleName, file, number, tail);
    ParsesAs(Prefix(moduleName, file, number) + tail, moduleName, file, number, n, message);
  }

  lemma ParsesAs(line: string, moduleName: string, file: string, number: string, n: nat, message: string)
    requires Nameable(moduleName, file) && ':' !in number && ParseInt(number) == Some(n)
    requires Consists(line, moduleName, file, number, " " + message)
    ensures var source := ErrorSource(Qualified(moduleName, file), n);
      ParseFirstLine(line) == if message == "" then NoMessage(source) else Message(source, message)
  {
    ParseConsists(line, moduleName, file, number, " " + message);
    var second := |moduleName| + 1 + |file| + 1 + |number|;
    assert line[second + 2..] == line[second + 1..][1..] == message;
  }

  ghost predicate EndsAtColon(line: string, moduleName: string, file: string, number: string) {
    && Nameable(moduleName, file) && ':' !in number && ParseInt(number).Some?
    && line == Prefix(moduleName, file, number)
  }

  lemma TrapsAtColon(line: string, moduleName: string, file: string, number: string)
    requires EndsAtColon(line, moduleName, file, number)
    ensures ParseFirstLine(line) == Trap
  {
    PrefixConsists(moduleName, file, number, "");
    assert line == Prefix(moduleName, file, number) + "";
    ParseConsists(line, moduleName, file, number, "");
  }

  lemma CutAtEnd(line: string, slash: nat, first: nat, second: nat)
    requires slash < first < second && second + 1 == |line|
    requires line[slash] == '/' && line[first] == ':' && line[second] == ':'
    ensures line == Prefix(line[..slash], line[slash + 1..first], line[first + 1..second])
  {
    var prefix := Prefix(line[..slash], line[slash + 1..first], line[first + 1..second]);
    ConsistsOnly(line, line[..slash], line[slash + 1..first], line[first + 1..second], "");
    assert prefix + "" == prefix;
  }

  lemma SearchesSkip(line: string, slash: nat, first: nat, second: nat)
    requires slash == IndexOf(line, '/', 0) && first == IndexOf(line, ':', slash) && second == Second(line, first)
    requires 0 < slash
    ensures slash < first && Nameable(line[..slash], line[slash + 1..first]) && ':' !in line[first + 1..second]
  {
    IndexIsFirst(line, '/', 0);
    IndexIsFirst(line, ':', slash);
    IndexIsFirst(line, ':', first + 1);
    assert line[0..slash] == line[..slash];
    assert line[slash] == '/' && line[slash..first] == ['/'] + line[slash + 1..first];
  }

  lemma TrapIsShort(line: string, slash: nat, first: nat, second: nat)
    requires slash < first < second < |line| && ParseFrom(line, slash, first, second) == Trap
    ensures second + 1 == |line| && ParseInt(line[first + 1..second]).Some?
  {
  }

  /** The check fails exactly on the lines that end right behind the second colon. */
  lemma TrapsExactly(line: string)
    ensures ParseFirstLine(line) == Trap <==>
      exists moduleName, file, number :: EndsAtColon(line, moduleName, file, number)
  {
    if ParseFirstLine(line) == Trap {
      var slash := IndexOf(line, '/', 0);
      var first := IndexOf(line, ':', slash);
      var second := Second(line, first);
      SearchesSkip(line, slash, first, second);
      TrapIsShort(line, slash, first, second);
      CutAtEnd(line, slash, first, second);
      assert EndsAtColon(line, line[..slash], line[slash + 1..first], line[first + 1..second]);
    }
    forall moduleName, file, number | EndsAtColon(line, moduleName, file, number) ensures ParseFirstLine(line) == Trap {
      TrapsAtColon(line, moduleName, file, number);
    }
  }

  /** Such a line exists, though the code means to accept it. */
  lemma EmptyMessageTraps()
    ensures ParseFirstLine("main/a.swift:1:") == Trap
  {
    ParsePrint(1);
    assert Decimal(1) == "1";
    assert Prefix("main", "a.swift", "1") == "main/a.swift:1:";
    TrapsAtColon("main/a.swift:1:", "main", "a.swift", "1");
  }

  /** A crash report as the runtime prints it: the message may go on over further lines, then the trace. */
  function Report(first: string, more: seq<string>, trace: seq<string>): string {
    Join([first] + more + [STACK_TRACE] + trace, '\n')
  }

  ghost predicate OneLineEach(lines: seq<string>) {
    forall line :: line in lines ==> '\n' !in line
  }

  /** Without a trace, or with nothing above it, all that was written is shown as it is, and no source is found. */
  lemma NothingIsCutWithoutTrace(stderr: string)
    requires "Current stack trace:" !in Split(stderr, '\n')[1..]
    ensures var r := Fetch(Some(stderr)); r.Fetched? && r.source.None? && Join(r.lines, '\n') == stderr
  {
    var lines := Split(stderr, '\n');
    assert forall k :: 0 < k < |lines| ==> lines[k] == lines[1..][k - 1];
    JoinSplit(stderr, '\n');
  }

  /** What is shown of a crash message, and where it came from, in terms of the pieces of its line. */
  ghost predicate ReportsAs(line: string, source: ErrorSource, message: string,
                            moduleName: string, file: string, number: string, gap: char) {
    && Nameable(moduleName, file) && ':' !in number && ParseInt(number) == Some(source.line)
    && line == Prefix(moduleName, file, number) + ([gap] + message)
    && source.file == if "__lldb_expr_" <= moduleName then file else moduleName + "/" + file
  }

  ghost predicate Reports(line: string, source: ErrorSource, message: string) {
    exists moduleName, file, number, gap :: ReportsAs(line, source, message, moduleName, file, number, gap)
  }

  lemma MessageParts(line: string, source: ErrorSource, message: string, slash: nat, first: nat, second: nat)
    requires slash < first < second < |line| && ParseFrom(line, slash, first, second) == Message(source, message)
    ensures second + 2 < |line| && message == line[second + 2..]
    ensures source.file == ErrorFile(line, slash, first) && ParseInt(line[first + 1..second]) == Some(source.line)
  {
  }

  lemma ReportsPieces(line: string, source: ErrorSource, message: string,
                      moduleName: string, file: string, number: string, gap: char)
    requires Nameable(moduleName, file) && ':' !in number && ParseInt(number) == Some(source.line)
    requires line == Prefix(moduleName, file, number) + ([gap] + message) && source.file == Qualified(moduleName, file)
    ensures Reports(line, source, message)
  {
    assert ReportsAs(line, source, message, moduleName, file, number, gap);
  }

  lemma MessageReports(line: string, source: ErrorSource, message: string)
    requires ParseFirstLine(line) == Message(source, message)
    ensures Reports(line, source, message)
  {
    var slash := IndexOf(line, '/', 0);
    var first := IndexOf(line, ':', slash);
    var second := Second(line, first);
    SearchesSkip(line, slash, first, second);
    MessageParts(line, source, message, slash, first, second);
    FileIsQualified(line, slash, first);
    var moduleName, file, number := line[..slash], line[slash + 1..first], line[first + 1..second];
    PiecesTogether(line, slash, first, second);
    ReportsPieces(line, source, message, moduleName, file, number, line[second + 1]);
  }

  lemma PiecesTogether(line: string, slash: nat, first: nat, second: nat)
    requires slash < first < second && second + 2 <= |line|
    requires line[slash] == '/' && line[first] == ':' && line[second] == ':'
    ensures line == Prefix(line[..slash], line[slash + 1..first], line[first + 1..second])
                    + ([line[second + 1]] + line[second + 2..])
  {
    assert line[second + 1..] == [line[second + 1]] + line[second + 2..];
    ConsistsOnly(line, line[..slash], line[slash + 1..first], line[first + 1..second], line[second + 1..]);
  }

  lemma ReportsMessage(line: string, source: ErrorSource, message: string)
    requires Reports(line, source, message) && message != ""
    ensures ParseFirstLine(line) == Message(source, message)
  {
    var moduleName, file, number, gap :| ReportsAs(line, source, message, moduleName, file, number, gap);
    PrefixConsists(moduleName, file, number, [gap] + message);
    ParseConsists(line, moduleName, file, number, [gap] + message);
    var second := |moduleName| + 1 + |file| + 1 + |number|;
    assert line[second + 2..] == line[second + 1..][1..] == message;
  }

  /** A line is taken apart into source and message exactly if it consists of them. */
  lemma MessageExactly(line: string, source: ErrorSource, message: string)
    ensures ParseFirstLine(line) == Message(source, message) <==> Reports(line, source, message) && message != ""
  {
    if ParseFirstLine(line) == Message(source, message) {
      MessageReports(line, source, message);
    }
    if Reports(line, source, message) && message != "" {
      ReportsMessage(line, source, message);
    }
  }

  lemma SplitReport(first: string, more: seq<string>, trace: seq<string>)
    requires OneLineEach([first] + more + trace) && STACK_TRACE !in trace
    ensures Fetch(Some(Report(first, more, trace))) == Rewritten([first] + more)
  {
    var lines := [first] + more + [STACK_TRACE] + trace;
    forall line | line in lines ensures '\n' !in line {
      assert line == STACK_TRACE || line in [first] + more + trace;
    }
    SplitJoin(lines, '\n');
    LastIndexAt([first] + more, STACK_TRACE, trace);
    assert lines[..1 + |more|] == [first] + more;
  }

  lemma OneLineTogether(moduleName: string, file: string, number: string, message: string, others: seq<string>)
    requires OneLineEach([moduleName, file, message] + others) && '\n' !in number
    ensures OneLineEach([Prefix(moduleName, file, number) + (" " + message)] + others)
  {
    var parts := [moduleName, file, message] + others;
    assert parts[0] == moduleName && parts[1] == file && parts[2] == message;
    var lines := [Prefix(moduleName, file, number) + (" " + message)] + others;
    forall line | line in lines ensures '\n' !in line {
      if line != lines[0] {
        assert line in others;
        assert line in parts;
      }
    }
  }

  /** A line that starts with module, slash, file, colon, number and colon. */
  ghost predicate Located(line: string, moduleName: string, file: string, number: string) {
    Nameable(moduleName, file) && ':' !in number && ParseInt(number).Some? && Prefix(moduleName, file, number) <= line
  }

  lemma RecognizedIsLocated(line: string) returns (moduleName: string, file: string, number: string)
    requires ParseFirstLine(line) != Unrecognized
    ensures Located(line, moduleName, file, number)
  {
    var slash := IndexOf(line, '/', 0);
    var first := IndexOf(line, ':', slash);
    var second := Second(line, first);
    SearchesSkip(line, slash, first, second);
    IsLocated(line, slash, first, second);
    moduleName, file, number := line[..slash], line[slash + 1..first], line[first + 1..second];
  }

  lemma IsLocated(line: string, slash: nat, first: nat, second: nat)
    requires slash < first < second < |line|
    requires line[slash] == '/' && line[first] == ':' && line[second] == ':'
    requires Nameable(line[..slash], line[slash + 1..first]) && ':' !in line[first + 1..second]
    ensures ParseInt(line[first + 1..second]).Some? ==>
      Located(line, line[..slash], line[slash + 1..first], line[first + 1..second])
  {
    PrefixOf(line, slash, first, second);
  }

  lemma PrefixOf(line: string, slash: nat, first: nat, second: nat)
    requires slash < first < second < |line|
    requires line[slash] == '/' && line[first] == ':' && line[second] == ':'
    ensures Prefix(line[..slash], line[slash + 1..first], line[first + 1..second]) <= line
  {
    ConsistsOnly(line, line[..slash], line[slash + 1..first], line[first + 1..second], line[second + 1..]);
  }

  /** A report whose first line has no such start loses its trace, and nothing else. */
  lemma UnlocatedIsKept(first: string, more: seq<string>, trace: seq<string>)
    requires OneLineEach([first] + more + trace) && STACK_TRACE !in trace
    requires forall moduleName, file, number :: !Located(first, moduleName, file, number)
    ensures Fetch(Some(Report(first, more, trace))) == Fetched([first] + more, None)
  {
    SplitReport(first, more, trace);
    if ParseFirstLine(first) != Unrecognized {
      var moduleName, file, number := RecognizedIsLocated(first);
    }
  }

  /** One with the start alone, and one more character, gives a source and is kept as well. */
  lemma PrefixAloneIsKept(moduleName: string, file: string, n: nat, more: seq<string>, trace: seq<string>)
    requires Nameable(moduleName, file) && n < INT_LIMIT
    requires OneLineEach([moduleName, file, ""] + (more + trace)) && STACK_TRACE !in trace
    ensures var first := Prefix(moduleName, file, Decimal(n)) + (" " + "");
      var source := ErrorSource(if "__lldb_expr_" <= moduleName then file else moduleName + "/" + file, n);
      Fetch(Some(Report(first, more, trace))) == Fetched([first] + more, Some(source))
  {
    var first := Prefix(moduleName, file, Decimal(n)) + (" " + "");
    ParseInvertsPrint(moduleName, file, n, "");
    NoDigit('\n', n);
    OneLineTogether(moduleName, file, Decimal(n), "", more + trace);
    assert [first] + (more + trace) == [first] + more + trace;
    SplitReport(first, more, trace);
  }

  lemma RewrittenMessage(first: string, more: seq<string>, source: ErrorSource, message: string)
    requires ParseFirstLine(first) == Message(source, message) && ESC !in message
    ensures var r := Rewritten([first] + more);
      && r.Fetched? && r.source == Some(source)
      && |r.lines| == 1 + |more| && Strip(r.lines[0]) == message
      && r.lines[0] == Colorized(message) && r.lines[1..] == more
  {
    StripColorized(message);
    assert ([first] + more)[0 := Colorized(message)][1..] == more;
  }

  /** The source is found, the trace is gone, and the notebook shows the message that was printed. */
  lemma FetchInvertsReport(moduleName: string, file: string, n: nat, message: string,
                           more: seq<string>, trace: seq<string>)
    requires Nameable(moduleName, file) && n < INT_LIMIT && message != "" && ESC !in message
    requires OneLineEach([moduleName, file, message] + (more + trace)) && STACK_TRACE !in trace
    ensures var first := Prefix(moduleName, file, Decimal(n)) + (" " + message);
      var r := Fetch(Some(Report(first, more, trace)));
      && r.Fetched?
      && r.source == Some(ErrorSource(if "__lldb_expr_" <= moduleName then file else moduleName + "/" + file, n))
      && |r.lines| == 1 + |more| && Strip(r.lines[0]) == message && r.lines[0] == Colorized(message) && r.lines[1..] == more
  {
    var first := Prefix(moduleName, file, Decimal(n)) + (" " + message);
    ParseInvertsPrint(moduleName, file, n, message);
    NoDigit('\n', n);
    OneLineTogether(moduleName, file, Decimal(n), message, more + trace);
    assert [first] + (more + trace) == [first] + more + trace;
    SplitReport(first, more, trace);
    RewrittenMessage(first, more, ErrorSource(Qualified(moduleName, file), n), message);
  }
}
