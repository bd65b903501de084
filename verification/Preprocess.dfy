/**
 * Preprocessing of a cell (PreprocessAndExecute.swift): magic commands become blank lines, included files
 * are spliced in between location directives, and every line keeps its location.
 */
module Preprocess {
  import opened Numerals
  import opened Text
  import opened Wrappers

  /** An install or system command: done, rejected for what the line says, interrupted, or ended by another exception. */
  datatype Command = Done | Rejected | Stopped | Broke

  /** What the cell's commands do when line `i` is reached. */
  datatype World = World(
    run: (nat, string, string) -> Command,       // an install or system command with its argument
    split: string -> Option<seq<string>>,        // `shlex.split`; None is an exception
    contents: (nat, string) -> Option<string>)   // the file at a path

  /**
   * The text a line is replaced by, an error reported for a line, an InterruptException, an exception without a line,
   * or a kernel stopped by a failed check.
   */
  datatype Outcome = Text(text: string) | Thrown(lineIndex: nat) | Interrupted | Exceptional | Trapped

  /** `\s` in a Python pattern. */
  predicate IsSpace(c: char) {
    || c == ' ' || ('\t' <= c <= '\r') || ('\U{1c}' <= c <= '\U{1f}') || c == '\U{85}' || c == '\U{a0}'
    || c == '\U{1680}' || ('\U{2000}' <= c <= '\U{200a}') || ('\U{2028}' <= c <= '\U{2029}')
    || c == '\U{202f}' || c == '\U{205f}' || c == '\U{3000}'
  }

  function SkipSpace(s: string): string {
    if s != "" && IsSpace(s[0]) then SkipSpace(s[1..]) else s
  }

  /** `re.match` with `^\s*COMMAND (.*)$`: the rest of the line. */
  function Argument(line: string, command: string): Option<string> {
    var s := SkipSpace(line);
    if command + " " <= s then Some(s[|command| + 1..]) else None
  }

  const INSTALL_COMMANDS: seq<string> :=
    ["%install", "%install-swiftpm-flags", "%install-extra-include-command", "%install-location"]

  function Directive(file: string, line: nat): string {
    "#sourceLocation(file: \"" + file + "\", line: " + Decimal(line) + ")"
  }

  function CellFile(cellID: nat): string {
    "<Cell " + Decimal(cellID) + ">"
  }

  function LocationDirective(cellID: nat, lineIndex: nat): string {
    Directive(CellFile(cellID), lineIndex + 1)
  }

  const INCLUDE_PATHS: seq<string> := ["/content", "/opt/swift/include"]

  /** The first path that has the file. */
  function Resolve(w: World, i: nat, name: string, paths: seq<string>): Option<string> {
    if paths == [] then None
    else if w.contents(i, paths[0] + "/" + name).Some? then Some(paths[0] + "/" + name)
    else Resolve(w, i, name, paths[1..])
  }

  lemma {:induction false} ResolvedExists(w: World, i: nat, name: string, paths: seq<string>)
    ensures var path := Resolve(w, i, name, paths); path.Some? ==> w.contents(i, path.value).Some?
  {
    if paths != [] && w.contents(i, paths[0] + "/" + name).None? {
      ResolvedExists(w, i, name, paths[1..]);
    }
  }

  function ReadInclude(w: World, cellID: nat, rest: string, i: nat): Outcome {
    var parsed := w.split(rest);
    if parsed.None? || |parsed.value| > 1 then Thrown(i)
    else if |parsed.value| == 0 then Trapped   // the usage error is built but not thrown, and `parsed[0]` traps
    else
      var path := Resolve(w, i, parsed.value[0], INCLUDE_PATHS);
      if path.None? then Thrown(i)
      else
        ResolvedExists(w, i, parsed.value[0], INCLUDE_PATHS);
        Text(Directive(path.value, 1) + "\n" + w.contents(i, path.value).value + "\n" + LocationDirective(cellID, i) + "\n")
  }

  /** What a line of the cell is. */
  datatype Kind = Ordinary | Magic(command: string, argument: string) | Include(argument: string)

  /** `processInstallDirective`: the first of the commands that the line is. */
  function InstallKind(line: string, commands: seq<string>): Kind {
    if commands == [] then Ordinary
    else
      match Argument(line, commands[0])
      case Some(argument) => Magic(commands[0], argument)
      case None => InstallKind(line, commands[1..])
  }

  function KindOf(line: string): Kind {
    if '%' !in line then Ordinary
    else
      var install := InstallKind(line, INSTALL_COMMANDS);
      if install.Magic? then install
      else
        var system := Argument(line, "%system");
        if system.Some? then Magic("%system", system.value)
        else
          var inclusion := Argument(line, "%include");
          if inclusion.Some? then Include(inclusion.value) else Ordinary
  }

  function PreprocessLine(w: World, cellID: nat, line: string, i: nat): Outcome {
    match KindOf(line)
    case Ordinary => Text(line)
    case Magic(command, argument) =>
      (match w.run(i, command, argument)
       case Done => Text("")
       case Rejected => Thrown(i)
       case Stopped => Interrupted
       case Broke => Exceptional)
    case Include(argument) => ReadInclude(w, cellID, argument, i)
  }

  /** Lines from the `i`-th on, replaced one by one until something goes wrong. */
  datatype Lines = Replaced(texts: seq<string>) | Failed(outcome: Outcome)

  function PreprocessLines(w: World, cellID: nat, lines: seq<string>, i: nat): (r: Lines)
    ensures r.Replaced? ==> |r.texts| == |lines|
    ensures r.Failed? ==> !r.outcome.Text?
  {
    if lines == [] then Replaced([])
    else
      var first := PreprocessLine(w, cellID, lines[0], i);
      if !first.Text? then Failed(first)
      else
        var rest := PreprocessLines(w, cellID, lines[1..], i + 1);
        if rest.Failed? then rest else Replaced([first.text] + rest.texts)
  }

  /** `preprocess(code:)`. */
  function PreprocessCode(w: World, cellID: nat, code: string): Outcome {
    match PreprocessLines(w, cellID, Split(code, '\n'), 0)
    case Failed(outcome) => outcome
    case Replaced(texts) => Text(Join(texts, '\n'))
  }

  const HEADER_LINE: string := "print(\"HEADER\")"

  /** The text of a cell that `execute` hands to LLDB. */
  function CodeWithPrefix(cellID: nat, preprocessed: string): string {
    HEADER_LINE + "\n" + LocationDirective(cellID, 0) + "\n" + preprocessed
  }

  // Which lines are commands.

  predicate AllSpace(s: string) {
    forall c :: c in s ==> IsSpace(c)
  }

  /** The line is this command with this argument, behind any white space. */
  ghost predicate Writes(line: string, command: string, argument: string) {
    exists space: string :: AllSpace(space) && line == space + (command + " " + argument)
  }

  lemma {:induction false} SkipsAll(space: string, rest: string)
    requires AllSpace(space) && (rest == "" || !IsSpace(rest[0]))
    ensures SkipSpace(space + rest) == rest
  {
    if space == "" {
      assert space + rest == rest;
    } else {
      assert (space + rest)[1..] == space[1..] + rest;
      SkipsAll(space[1..], rest);
    }
  }

  lemma {:induction false} SkipsOnlySpace(line: string) returns (space: string)
    ensures AllSpace(space) && line == space + SkipSpace(line)
  {
    space := "";
    if line != "" && IsSpace(line[0]) {
      var more := SkipsOnlySpace(line[1..]);
      space := [line[0]] + more;
    }
  }

  /** Matching a line with a command inverts writing it. */
  lemma ArgumentExactly(line: string, command: string, argument: string)
    requires command != "" && command[0] == '%'
    ensures Argument(line, command) == Some(argument) <==> Writes(line, command, argument)
  {
    var text := command + " " + argument;
    if Argument(line, command) == Some(argument) {
      var space := SkipsOnlySpace(line);
      assert SkipSpace(line) == text;
    }
    if Writes(line, command, argument) {
      var space: string :| AllSpace(space) && line == space + text;
      SkipsAll(space, text);
      assert text[|command| + 1..] == argument;
    }
  }

  lemma WrittenMatches(line: string, command: string, argument: string)
    requires command != "" && command[0] == '%' && Writes(line, command, argument)
    ensures SkipSpace(line) == command + " " + argument
  {
    var space: string :| AllSpace(space) && line == space + (command + " " + argument);
    SkipsAll(space, command + " " + argument);
  }

  lemma WordsDiffer(a: string, x: string, b: string, y: string)
    requires ' ' !in a && ' ' !in b && a + " " + x == b + " " + y
    ensures a == b && x == y
  {
    var s := a + " " + x;
    assert s[|a|] == ' ' && s[|b|] == ' ';
    assert forall k :: 0 <= k < |a| ==> s[k] == a[k];
    assert forall k :: 0 <= k < |b| ==> s[k] == b[k];
    assert s[..|a|] == a && s[|a| + 1..] == x && s[|b| + 1..] == y;
  }

  predicate IsCommand(command: string) {
    command != "" && command[0] == '%' && ' ' !in command
  }

  /** A line is one command at most. */
  lemma OneCommand(line: string, command: string, argument: string, other: string)
    requires IsCommand(command) && IsCommand(other) && Writes(line, command, argument)
    ensures Argument(line, other) == if other == command then Some(argument) else None
  {
    ArgumentExactly(line, command, argument);
    if Argument(line, other).Some? {
      ArgumentExactly(line, other, Argument(line, other).value);
      WrittenMatches(line, command, argument);
      WrittenMatches(line, other, Argument(line, other).value);
      WordsDiffer(command, argument, other, Argument(line, other).value);
    }
  }

  lemma PercentIn(line: string, command: string, argument: string)
    requires IsCommand(command) && Writes(line, command, argument)
    ensures '%' in line
  {
    var space: string :| AllSpace(space) && line == space + (command + " " + argument);
    assert line[|space|] == '%';
  }

  lemma {:induction false} InstallKindIs(line: string, command: string, argument: string, commands: seq<string>)
    requires IsCommand(command) && Writes(line, command, argument) && forall c :: c in commands ==> IsCommand(c)
    ensures InstallKind(line, commands) == if command in commands then Magic(command, argument) else Ordinary
  {
    if commands != [] {
      OneCommand(line, command, argument, commands[0]);
      if commands[0] != command {
        InstallKindIs(line, command, argument, commands[1..]);
      }
    }
  }

  lemma {:induction false} NoInstall(line: string, commands: seq<string>)
    requires forall c :: c in commands ==> Argument(line, c).None?
    ensures InstallKind(line, commands) == Ordinary
  {
    if commands != [] {
      NoInstall(line, commands[1..]);
    }
  }

  lemma CommandsAreWords()
    ensures forall c :: c in INSTALL_COMMANDS ==> IsCommand(c)
    ensures IsCommand("%system") && IsCommand("%include")
    ensures "%system" !in INSTALL_COMMANDS && "%include" !in INSTALL_COMMANDS && "%system" != "%include"
  {
    assert "%system"[1] == 's' && "%include"[3] == 'c';
    assert forall c :: c in INSTALL_COMMANDS ==> c[3] == 's';
  }

  lemma KindOfWritten(line: string, command: string, argument: string)
    requires Writes(line, command, argument) && (command in INSTALL_COMMANDS || command == "%system" || command == "%include")
    ensures KindOf(line) == if command == "%include" then Include(argument) else Magic(command, argument)
  {
    CommandsAreWords();
    PercentIn(line, command, argument);
    InstallKindIs(line, command, argument, INSTALL_COMMANDS);
    OneCommand(line, command, argument, "%system");
    OneCommand(line, command, argument, "%include");
  }

  /** An install or system command, behind white space and with any argument, is run with it and leaves a blank line. */
  lemma CommandLineRuns(w: World, cellID: nat, line: string, command: string, argument: string, i: nat)
    requires Writes(line, command, argument)
    requires command in {"%install", "%install-swiftpm-flags", "%install-extra-include-command", "%install-location", "%system"}
    ensures var r, done := PreprocessLine(w, cellID, line, i), w.run(i, command, argument);
      && (r == Text("") <==> done == Done) && (r == Thrown(i) <==> done == Rejected)
      && (r == Interrupted <==> done == Stopped) && (r == Exceptional <==> done == Broke)
  {
    CommandsAreWords();
    KindOfWritten(line, command, argument);
  }

  /** The first of the two paths that has a file of that name, and its contents. */
  ghost predicate Finds(w: World, i: nat, name: string, path: string, contents: string) {
    || (path == "/content/" + name && w.contents(i, path) == Some(contents))
    || (path == "/opt/swift/include/" + name && w.contents(i, path) == Some(contents)
        && w.contents(i, "/content/" + name).None?)
  }

  lemma ResolveFinds(w: World, i: nat, name: string)
    ensures var found := Resolve(w, i, name, INCLUDE_PATHS);
      if found.None? then forall path, contents :: !Finds(w, i, name, path, contents)
      else
        && w.contents(i, found.value).Some?
        && forall path, contents :: Finds(w, i, name, path, contents) <==>
             path == found.value && contents == w.contents(i, found.value).value
  {
    var first, second := "/content/" + name, "/opt/swift/include/" + name;
    assert "/content" + "/" + name == first && "/opt/swift/include" + "/" + name == second;
    assert first[1] == 'c' && second[1] == 'o';
    var later := INCLUDE_PATHS[1..];
    assert later == ["/opt/swift/include"] && later[1..] == [];
    assert Resolve(w, i, name, later) == if w.contents(i, second).Some? then Some(second) else None;
  }

  /**
   * An include line is replaced, if its one word names a file in one of the two folders, by that file between a location
   * directive for it and one for the line itself. More words or no file are an error, and no word stops the kernel.
   */
  lemma IncludeLineIsRead(w: World, cellID: nat, line: string, argument: string, i: nat)
    requires Writes(line, "%include", argument)
    ensures var r, words := PreprocessLine(w, cellID, line, i), w.split(argument);
      && (r == Trapped <==> words == Some([]))
      && (r.Text? <==> words.Some? && |words.value| == 1 && exists path, contents :: Finds(w, i, words.value[0], path, contents))
      && (r.Text? ==> forall path, contents :: Finds(w, i, words.value[0], path, contents) ==>
            r.text == Directive(path, 1) + "\n" + contents + "\n" + LocationDirective(cellID, i) + "\n")
      && (!r.Trapped? && !r.Text? ==> r == Thrown(i))
  {
    KindOfWritten(line, "%include", argument);
    var words := w.split(argument);
    if words.Some? && |words.value| == 1 {
      ResolveFinds(w, i, words.value[0]);
      var found := Resolve(w, i, words.value[0], INCLUDE_PATHS);
      assert found.Some? ==> Finds(w, i, words.value[0], found.value, w.contents(i, found.value).value);
    }
  }

  /** A line that is none of these stays as it is. */
  lemma OtherLinesStay(w: World, cellID: nat, line: string, i: nat)
    requires forall command, argument :: Writes(line, command, argument) ==>
      command !in {"%install", "%install-swiftpm-flags", "%install-extra-include-command", "%install-location",
                   "%system", "%include"}
    ensures PreprocessLine(w, cellID, line, i) == Text(line)
  {
    CommandsAreWords();
    forall c | c in INSTALL_COMMANDS || c == "%system" || c == "%include" ensures Argument(line, c).None? {
      if Argument(line, c).Some? {
        ArgumentExactly(line, c, Argument(line, c).value);
      }
    }
    NoInstall(line, INSTALL_COMMANDS);
  }

  // Reading the text, as the Swift compiler does.

  /** A line of the program and the location that diagnostics report for it. */
  datatype Located = Located(file: string, line: nat, text: string)

  /** The compiler's recognizer of location directives. */
  type Recognizer = string -> Option<(string, nat)>

  function Locate(directive: Recognizer, lines: seq<string>, file: string, line: nat): seq<Located> {
    if lines == [] then []
    else
      match directive(lines[0])
      case Some((f, n)) => Locate(directive, lines[1..], f, n)
      case None => [Located(file, line, lines[0])] + Locate(directive, lines[1..], file, line + 1)
  }

  function FileLines(path: string, lines: seq<string>, first: nat): seq<Located> {
    if lines == [] then [] else [Located(path, first, lines[0])] + FileLines(path, lines[1..], first + 1)
  }

  /** The path and contents that an include of argument `rest` at line `i` brings in. */
  function Included(w: World, i: nat, rest: string): Option<(string, string)> {
    var parsed := w.split(rest);
    if parsed.None? || |parsed.value| != 1 then None
    else
      var path := Resolve(w, i, parsed.value[0], INCLUDE_PATHS);
      if path.None? then None
      else
        ResolvedExists(w, i, parsed.value[0], INCLUDE_PATHS);
        Some((path.value, w.contents(i, path.value).value))
  }

  /** Where a reader of the notebook expects line `i` of the cell, and whatever it stands for, to be reported. */
  function Expected(w: World, cellID: nat, line: string, i: nat): seq<Located> {
    match KindOf(line)
    case Ordinary => [Located(CellFile(cellID), i + 1, line)]
    case Magic(_, _) => [Located(CellFile(cellID), i + 1, "")]
    case Include(rest) =>
      match Included(w, i, rest)
      case None => []
      case Some((path, contents)) =>
        FileLines(path, Split(contents, '\n'), 1) + [Located(CellFile(cellID), i + 1, "")]
  }

  function ExpectedFrom(w: World, cellID: nat, lines: seq<string>, i: nat): seq<Located> {
    if lines == [] then [] else Expected(w, cellID, lines[0], i) + ExpectedFrom(w, cellID, lines[1..], i + 1)
  }

  /** The directives written here are recognized, and no line of the user's is. */
  ghost predicate Understands(directive: Recognizer, w: World, cellID: nat, lines: seq<string>, i: nat) {
    && directive(HEADER_LINE).None? && directive("").None?
    && (forall k: nat :: directive(LocationDirective(cellID, k)) == Some((CellFile(cellID), k + 1)))
    && forall k :: 0 <= k < |lines| ==>
      match KindOf(lines[k])
      case Ordinary => directive(lines[k]).None?
      case Magic(_, _) => true
      case Include(rest) =>
        match Included(w, i + k, rest)
        case None => true
        case Some((path, contents)) =>
          '\n' !in path && directive(Directive(path, 1)) == Some((path, 1)) &&
          forall l :: l in Split(contents, '\n') ==> directive(l).None?
  }

  function SplitAll(texts: seq<string>): seq<string> {
    if texts == [] then [] else Split(texts[0], '\n') + SplitAll(texts[1..])
  }

  lemma {:induction false} SplitJoined(texts: seq<string>)
    requires texts != []
    ensures Split(Join(texts, '\n'), '\n') == SplitAll(texts)
  {
    if |texts| > 1 {
      SplitJoined(texts[1..]);
      SplitAppend(texts[0], Join(texts[1..], '\n'), '\n');
    } else {
      assert SplitAll(texts[1..]) == [];
    }
  }

  lemma LocateOne(directive: Recognizer, first: string, rest: seq<string>, file: string, line: nat)
    requires directive(first).None?
    ensures Locate(directive, [first] + rest, file, line)
         == [Located(file, line, first)] + Locate(directive, rest, file, line + 1)
  {
    assert ([first] + rest)[1..] == rest;
  }

  lemma Regroup<T>(a: seq<T>, b: seq<T>, c: seq<T>)
    ensures a + (b + c) == (a + b) + c
  {
  }

  lemma {:induction false} LocateText(directive: Recognizer, lines: seq<string>, after: seq<string>, file: string, line: nat)
    requires forall l :: l in lines ==> directive(l).None?
    ensures Locate(directive, lines + after, file, line) ==
            FileLines(file, lines, line) + Locate(directive, after, file, line + |lines|)
  {
    if lines == [] {
      assert lines + after == after;
    } else {
      LocateText(directive, lines[1..], after, file, line + 1);
      LocateOne(directive, lines[0], lines[1..] + after, file, line);
      assert lines + after == [lines[0]] + (lines[1..] + after);
      Regroup([Located(file, line, lines[0])], FileLines(file, lines[1..], line + 1),
              Locate(directive, after, file, line + |lines|));
    }
  }

  /** Reading the replacement of one line, at that line, reports what is expected and goes on at the next. */
  lemma LocateLine(directive: Recognizer, w: World, cellID: nat, line: string, i: nat, after: seq<string>)
    requires Understands(directive, w, cellID, [line], i) && PreprocessLine(w, cellID, line, i).Text? && '\n' !in line
    ensures
      var text := PreprocessLine(w, cellID, line, i).text;
      Locate(directive, Split(text, '\n') + after, CellFile(cellID), i + 1) ==
      Expected(w, cellID, line, i) + Locate(directive, after, CellFile(cellID), i + 2)
  {
    var cell := CellFile(cellID);
    assert [line][0] == line;
    match KindOf(line)
    case Ordinary =>
      SplitWhole(line, '\n');
      LocateText(directive, [line], after, cell, i + 1);
      assert FileLines(cell, [line], i + 1) == [Located(cell, i + 1, line)];
    case Magic(_, _) =>
      LocateText(directive, [""], after, cell, i + 1);
      assert FileLines(cell, [""], i + 1) == [Located(cell, i + 1, "")];
    case Include(rest) =>
      var (path, contents) := Included(w, i, rest).value;
      LocateInclude(directive, cellID, path, contents, i, after);
  }

  function Spliced(cellID: nat, path: string, contents: string, i: nat): string {
    Directive(path, 1) + "\n" + contents + "\n" + LocationDirective(cellID, i) + "\n"
  }

  lemma LocateInclude(directive: Recognizer, cellID: nat, path: string, contents: string, i: nat, after: seq<string>)
    requires '\n' !in path && directive(Directive(path, 1)) == Some((path, 1)) && directive("").None?
    requires directive(LocationDirective(cellID, i)) == Some((CellFile(cellID), i + 1))
    requires forall l :: l in Split(contents, '\n') ==> directive(l).None?
    ensures
      Locate(directive, Split(Spliced(cellID, path, contents, i), '\n') + after, CellFile(cellID), i + 1) ==
      FileLines(path, Split(contents, '\n'), 1) + [Located(CellFile(cellID), i + 1, "")]
      + Locate(directive, after, CellFile(cellID), i + 2)
  {
    var cell, lines := CellFile(cellID), Split(contents, '\n');
    var open, close := Directive(path, 1), LocationDirective(cellID, i);
    var tail := [close, ""] + after;
    SplicedLines(cellID, path, contents, i);
    assert [open] + lines + [close, ""] + after == [open] + (lines + tail);
    calc {
      Locate(directive, [open] + (lines + tail), cell, i + 1);
      { assert ([open] + (lines + tail))[1..] == lines + tail; }
      Locate(directive, lines + tail, path, 1);
      { LocateText(directive, lines, tail, path, 1); }
      FileLines(path, lines, 1) + Locate(directive, tail, path, 1 + |lines|);
      { assert tail[1..] == [""] + after; }
      FileLines(path, lines, 1) + Locate(directive, [""] + after, cell, i + 1);
      { LocateText(directive, [""], after, cell, i + 1); assert FileLines(cell, [""], i + 1) == [Located(cell, i + 1, "")]; }
      FileLines(path, lines, 1) + ([Located(cell, i + 1, "")] + Locate(directive, after, cell, i + 2));
      FileLines(path, lines, 1) + [Located(cell, i + 1, "")] + Locate(directive, after, cell, i + 2);
    }
  }

  lemma SplicedLines(cellID: nat, path: string, contents: string, i: nat)
    requires '\n' !in path
    ensures Split(Spliced(cellID, path, contents, i), '\n') ==
            [Directive(path, 1)] + Split(contents, '\n') + [LocationDirective(cellID, i), ""]
  {
    NoDigit('\n', 1);
    NoDigit('\n', i + 1);
    NoDigit('\n', cellID);
    SplitSpliced(Directive(path, 1), contents, LocationDirective(cellID, i));
  }

  lemma SplitSpliced(open: string, contents: string, close: string)
    requires '\n' !in open && '\n' !in close
    ensures Split(open + "\n" + contents + "\n" + close + "\n", '\n') == [open] + Split(contents, '\n') + [close, ""]
  {
    var end := close + "\n" + "";
    SplitCons(close, "", '\n');
    SplitAppend(contents, end, '\n');
    SplitCons(open, contents + "\n" + end, '\n');
    assert open + "\n" + contents + "\n" + close + "\n" == open + "\n" + (contents + "\n" + end);
  }

  lemma SplitPrefixed(header: string, open: string, body: string)
    requires '\n' !in header && '\n' !in open
    ensures Split(header + "\n" + open + "\n" + body, '\n') == [header] + ([open] + Split(body, '\n'))
  {
    SplitCons(open, body, '\n');
    SplitCons(header, open + "\n" + body, '\n');
    assert header + "\n" + open + "\n" + body == header + "\n" + (open + "\n" + body);
  }

  lemma {:induction false} LocateLines(directive: Recognizer, w: World, cellID: nat, lines: seq<string>, i: nat)
    requires Understands(directive, w, cellID, lines, i) && forall l :: l in lines ==> '\n' !in l
    requires PreprocessLines(w, cellID, lines, i).Replaced?
    ensures Locate(directive, SplitAll(PreprocessLines(w, cellID, lines, i).texts), CellFile(cellID), i + 1) ==
            ExpectedFrom(w, cellID, lines, i)
  {
    if lines != [] {
      assert UnderstandsRest(directive, w, cellID, lines, i);
      var texts := PreprocessLines(w, cellID, lines, i).texts;
      LocateLines(directive, w, cellID, lines[1..], i + 1);
      LocateLine(directive, w, cellID, lines[0], i, SplitAll(texts[1..]));
    }
  }

  ghost predicate UnderstandsRest(directive: Recognizer, w: World, cellID: nat, lines: seq<string>, i: nat)
    requires lines != [] && Understands(directive, w, cellID, lines, i)
    ensures Understands(directive, w, cellID, [lines[0]], i) && Understands(directive, w, cellID, lines[1..], i + 1)
  {
    assert forall k :: 0 <= k < |lines[1..]| ==> lines[1..][k] == lines[k + 1] && i + 1 + k == i + (k + 1);
    true
  }

  lemma OpeningIsPlain(cellID: nat)
    ensures '\n' !in HEADER_LINE && '\n' !in LocationDirective(cellID, 0)
  {
    NoDigit('\n', 1);
    NoDigit('\n', cellID);
  }

  /** Read from line 1 of `start`, the program `text` has these lines at these locations. */
  ghost predicate LocatesAs(directive: Recognizer, text: string, start: string, located: seq<Located>) {
    Locate(directive, Split(text, '\n'), start, 1) == located
  }

  lemma LocateCell(directive: Recognizer, header: string, open: string, texts: seq<string>, start: string, cell: string)
    requires '\n' !in header && '\n' !in open && texts != []
    requires directive(header).None? && directive(open) == Some((cell, 1))
    ensures LocatesAs(directive, header + "\n" + open + "\n" + Join(texts, '\n'), start,
                      [Located(start, 1, header)] + Locate(directive, SplitAll(texts), cell, 1))
  {
    var body := SplitAll(texts);
    SplitJoined(texts);
    SplitPrefixed(header, open, Join(texts, '\n'));
    assert ([header] + ([open] + body))[1..] == [open] + body;
    assert ([open] + body)[1..] == body;
  }

  lemma LocatePreprocessed(directive: Recognizer, w: World, cellID: nat, lines: seq<string>, header: string, open: string,
                           start: string)
    requires Understands(directive, w, cellID, lines, 0) && PreprocessLines(w, cellID, lines, 0).Replaced?
    requires lines != [] && forall l :: l in lines ==> '\n' !in l
    requires '\n' !in header && '\n' !in open
    requires directive(header).None? && directive(open) == Some((CellFile(cellID), 1))
    ensures
      var texts := PreprocessLines(w, cellID, lines, 0).texts;
      LocatesAs(directive, header + "\n" + open + "\n" + Join(texts, '\n'), start,
                [Located(start, 1, header)] + ExpectedFrom(w, cellID, lines, 0))
  {
    LocateLines(directive, w, cellID, lines, 0);
    LocateCell(directive, header, open, PreprocessLines(w, cellID, lines, 0).texts, start, CellFile(cellID));
  }

  /**
   * Whatever mix of directives a cell holds, the compiler reports every ordinary line of it at its own
   * number, every line of an included file at that file and its number there, and a blank at the number of
   * each magic command; nothing else is reported but the header print.
   */
  lemma EveryLineKeepsItsLocation(directive: Recognizer, w: World, cellID: nat, code: string, start: string)
    requires Understands(directive, w, cellID, Split(code, '\n'), 0)
    requires PreprocessCode(w, cellID, code).Text?
    ensures
      var text := CodeWithPrefix(cellID, PreprocessCode(w, cellID, code).text);
      LocatesAs(directive, text, start, [Located(start, 1, HEADER_LINE)] + ExpectedFrom(w, cellID, Split(code, '\n'), 0))
  {
    OpeningIsPlain(cellID);
    LocatePreprocessed(directive, w, cellID, Split(code, '\n'), HEADER_LINE, LocationDirective(cellID, 0), start);
  }

  // The recognizer of Swift itself.

  const OPEN: string := "#sourceLocation(file: \""
  const MIDDLE: string := "\", line: "

  /** `#sourceLocation(file: "FILE", line: NUMBER)`, for a file without quotes. */
  function ReadDirective(line: string): Option<(string, nat)> {
    if !(OPEN <= line) then None
    else
      var rest := line[|OPEN|..];
      var quote := IndexOf(rest, '"', 0);
      if quote == -1 || !(MIDDLE <= rest[quote..]) then None
      else
        var number := rest[quote + |MIDDLE|..];
        if |number| < 2 || number[|number| - 1] != ')' || !AllDigits(number[..|number| - 1]) then None
        else Some((rest[..quote], Value(number[..|number| - 1])))
  }

  /** It reads the directives that are written here. */
  lemma DirectiveReadsBack(file: string, line: nat)
    requires '"' !in file
    ensures ReadDirective(Directive(file, line)) == Some((file, line))
  {
    DecimalIsDigits(line);
    assert Directive(file, line) == OPEN + (file + (MIDDLE + (Decimal(line) + ")")));
    QuotedReadsBack(file, Decimal(line));
  }

  lemma QuotedReadsBack(file: string, digits: string)
    requires '"' !in file && digits != "" && AllDigits(digits)
    ensures ReadDirective(OPEN + (file + (MIDDLE + (digits + ")")))) == Some((file, Value(digits)))
  {
    var number := digits + ")";
    var rest := file + (MIDDLE + number);
    assert (OPEN + rest)[|OPEN|..] == rest;
    assert rest[0..|file|] == file;
    IndexAt(rest, '"', 0, |file|);
    assert rest[|file|..] == MIDDLE + number;
    assert rest[|file| + |MIDDLE|..] == number;
    assert number[..|number| - 1] == digits;
  }

  /** No line of the user's is a directive itself, and the paths of included files fit into one. */
  ghost predicate WithoutDirectives(w: World, lines: seq<string>, i: nat) {
    forall k :: 0 <= k < |lines| ==>
      match KindOf(lines[k])
      case Ordinary => ReadDirective(lines[k]).None?
      case Magic(_, _) => true
      case Include(rest) =>
        match Included(w, i + k, rest)
        case None => true
        case Some((path, contents)) =>
          '\n' !in path && '"' !in path && forall l :: l in Split(contents, '\n') ==> ReadDirective(l).None?
  }

  lemma SwiftUnderstands(w: World, cellID: nat, lines: seq<string>, i: nat)
    requires WithoutDirectives(w, lines, i)
    ensures Understands(ReadDirective, w, cellID, lines, i)
  {
    forall k: nat ensures ReadDirective(LocationDirective(cellID, k)) == Some((CellFile(cellID), k + 1)) {
      NoDigit('"', cellID);
      DirectiveReadsBack(CellFile(cellID), k + 1);
    }
    forall path: string | '"' !in path ensures ReadDirective(Directive(path, 1)) == Some((path, 1)) {
      DirectiveReadsBack(path, 1);
    }
  }

  /** So Swift, given the directives in this very spelling, reports every line where the notebook has it. */
  lemma SwiftLocatesEveryLine(w: World, cellID: nat, code: string, start: string)
    requires WithoutDirectives(w, Split(code, '\n'), 0) && PreprocessCode(w, cellID, code).Text?
    ensures
      var text := CodeWithPrefix(cellID, PreprocessCode(w, cellID, code).text);
      LocatesAs(ReadDirective, text, start, [Located(start, 1, HEADER_LINE)] + ExpectedFrom(w, cellID, Split(code, '\n'), 0))
  {
    SwiftUnderstands(w, cellID, Split(code, '\n'), 0);
    EveryLineKeepsItsLocation(ReadDirective, w, cellID, code, start);
  }

  // What goes wrong.

  /** What becomes of the `k`-th line of these, the first of which is line `i`. */
  function OutcomeOf(w: World, cellID: nat, lines: seq<string>, i: nat, k: nat): Outcome
    requires k < |lines|
  {
    PreprocessLine(w, cellID, lines[k], i + k)
  }

  lemma OutcomeOfRest(w: World, cellID: nat, lines: seq<string>, i: nat, k: nat)
    requires 0 < k < |lines|
    ensures OutcomeOf(w, cellID, lines, i, k) == OutcomeOf(w, cellID, lines[1..], i + 1, k - 1)
  {
    assert i + k == i + 1 + (k - 1);
  }

  lemma {:induction false} AllReplaced(w: World, cellID: nat, lines: seq<string>, i: nat, k: nat)
    requires PreprocessLines(w, cellID, lines, i).Replaced? && k < |lines|
    ensures OutcomeOf(w, cellID, lines, i, k) == Text(PreprocessLines(w, cellID, lines, i).texts[k])
  {
    if k > 0 {
      OutcomeOfRest(w, cellID, lines, i, k);
      AllReplaced(w, cellID, lines[1..], i + 1, k - 1);
    } else {
      assert i + 0 == i;
    }
  }

  /** Line `k` is not replaced, and all before it are. */
  ghost predicate FirstFailure(w: World, cellID: nat, lines: seq<string>, i: nat, k: nat) {
    && k < |lines| && !OutcomeOf(w, cellID, lines, i, k).Text?
    && forall j: nat :: j < k ==> OutcomeOf(w, cellID, lines, i, j).Text?
  }

  lemma {:induction false} FailsAtFirst(w: World, cellID: nat, lines: seq<string>, i: nat) returns (k: nat)
    requires PreprocessLines(w, cellID, lines, i).Failed?
    ensures FirstFailure(w, cellID, lines, i, k)
    ensures OutcomeOf(w, cellID, lines, i, k) == PreprocessLines(w, cellID, lines, i).outcome
  {
    assert OutcomeOf(w, cellID, lines, i, 0) == PreprocessLine(w, cellID, lines[0], i);
    if !PreprocessLine(w, cellID, lines[0], i).Text? {
      return 0;
    }
    k := FailsAtFirst(w, cellID, lines[1..], i + 1);
    k := k + 1;
    OutcomeOfRest(w, cellID, lines, i, k);
    forall j: nat | j < k ensures OutcomeOf(w, cellID, lines, i, j).Text? {
      if j > 0 {
        OutcomeOfRest(w, cellID, lines, i, j);
      }
    }
  }

  /** What a line can do wrong. */
  lemma LineFailures(w: World, cellID: nat, line: string, i: nat)
    ensures var r := PreprocessLine(w, cellID, line, i);
      && (r.Thrown? ==> r.lineIndex == i)
      && (r.Trapped? <==> KindOf(line).Include? && w.split(KindOf(line).argument) == Some([]))
      && (r.Interrupted? <==> KindOf(line).Magic? && w.run(i, KindOf(line).command, KindOf(line).argument).Stopped?)
  {
  }

  ghost predicate EachReplaced(w: World, cellID: nat, lines: seq<string>) {
    forall k: nat :: k < |lines| ==> OutcomeOf(w, cellID, lines, 0, k).Text?
  }

  lemma FailureIsNoText(w: World, cellID: nat, code: string)
    ensures PreprocessCode(w, cellID, code).Text? <==> PreprocessLines(w, cellID, Split(code, '\n'), 0).Replaced?
  {
  }

  /** A cell is replaced if and only if each of its lines is. */
  lemma ReplacedExactly(w: World, cellID: nat, code: string)
    ensures PreprocessCode(w, cellID, code).Text? <==> EachReplaced(w, cellID, Split(code, '\n'))
  {
    var lines := Split(code, '\n');
    FailureIsNoText(w, cellID, code);
    if PreprocessLines(w, cellID, lines, 0).Replaced? {
      forall k: nat | k < |lines| ensures OutcomeOf(w, cellID, lines, 0, k).Text? {
        AllReplaced(w, cellID, lines, 0, k);
      }
    } else {
      var k := FailsAtFirst(w, cellID, lines, 0);
      assert !OutcomeOf(w, cellID, lines, 0, k).Text?;
    }
  }

  /**
   * Otherwise what comes out is the failure of the first line that is not replaced, all before it having taken effect,
   * and an error that has a line has the number of that one.
   */
  lemma FailuresAreReported(w: World, cellID: nat, code: string) returns (k: nat)
    requires !PreprocessCode(w, cellID, code).Text?
    ensures var lines, r := Split(code, '\n'), PreprocessCode(w, cellID, code);
      && FirstFailure(w, cellID, lines, 0, k) && r == OutcomeOf(w, cellID, lines, 0, k)
      && (r.Thrown? ==> r.lineIndex == k)
  {
    var lines := Split(code, '\n');
    k := FailsAtFirst(w, cellID, lines, 0);
    LineFailures(w, cellID, lines[k], 0 + k);
  }

  /** Such a line: the usage error that the code prepares for it is never thrown. */
  lemma IncludeOfNothingTraps(w: World, cellID: nat)
    requires w.split("") == Some([])
    ensures PreprocessLine(w, cellID, "%include ", 0) == Trapped
  {
    assert "" + ("%include" + " " + "") == "%include ";
    assert AllSpace("");
    IncludeLineIsRead(w, cellID, "%include ", "", 0);
  }
}
