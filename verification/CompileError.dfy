/**
 * Colouring of LLDB's compile errors (formatCompileError, formatCompileErrorLine and extractPackageFolder in
 * FormatErrors.swift). Nothing but looks changes, apart from labels and file names.
 */
module CompileError {
  import opened Ansi
  import opened Numerals
  import opened Text
  import opened Wrappers

  // File names inside packages.

  const BUILD_CHECKOUTS: string := "/.build/checkouts/"

  /** The digits at the start of `s`. */
  function Digits(s: string): (r: string)
    ensures r <= s && AllDigits(r) && (|r| < |s| ==> !IsDigit(s[|r|]))
  {
    if s != "" && IsDigit(s[0]) then
      var rest := Digits(s[1..]);
      assert [s[0]] + rest <= s;
      [s[0]] + rest
    else ""
  }

  /** `extractPackageFolder`. */
  function PackageFolder(installLocation: string, path: string): Option<string> {
    if !(installLocation + "/" <= path) then None
    else
      var url := path[|installLocation| + 1..];
      var id := Digits(url);
      var behind := url[|id|..];
      if ParseInt(id).None? || !(BUILD_CHECKOUTS <= behind) then None else Some(behind[|BUILD_CHECKOUTS|..])
  }

  function Checkout(installLocation: string, id: string, folder: string): string {
    installLocation + "/" + (id + (BUILD_CHECKOUTS + folder))
  }

  predicate IsID(id: string) {
    AllDigits(id) && ParseInt(id).Some?
  }

  lemma {:induction false} DigitsAre(id: string, rest: string)
    requires AllDigits(id) && rest != "" && !IsDigit(rest[0])
    ensures Digits(id + rest) == id
  {
    if id == "" {
      assert id + rest == rest;
    } else {
      assert (id + rest)[1..] == id[1..] + rest;
      DigitsAre(id[1..], rest);
    }
  }

  lemma FolderOf(installLocation: string, id: string, folder: string)
    requires IsID(id)
    ensures PackageFolder(installLocation, Checkout(installLocation, id, folder)) == Some(folder)
  {
    var path, url := Checkout(installLocation, id, folder), id + (BUILD_CHECKOUTS + folder);
    assert path[|installLocation| + 1..] == url;
    DigitsAre(id, BUILD_CHECKOUTS + folder);
    assert url[|id|..] == BUILD_CHECKOUTS + folder;
  }

  lemma PrefixAndRest(s: string, prefix: string)
    requires prefix <= s
    ensures s == prefix + s[|prefix|..]
  {
  }

  lemma CheckoutOf(installLocation: string, path: string, folder: string) returns (id: string)
    requires PackageFolder(installLocation, path) == Some(folder)
    ensures IsID(id) && path == Checkout(installLocation, id, folder)
  {
    var url := path[|installLocation| + 1..];
    id := Digits(url);
    PrefixAndRest(path, installLocation + "/");
    PrefixAndRest(url, id);
    PrefixAndRest(url[|id|..], BUILD_CHECKOUTS);
  }

  /** Exactly the prefix that an install builds is removed. */
  lemma PackageFolderExact(installLocation: string, path: string, folder: string)
    ensures PackageFolder(installLocation, path) == Some(folder) <==>
      exists id :: IsID(id) && path == Checkout(installLocation, id, folder)
  {
    if PackageFolder(installLocation, path) == Some(folder) {
      var id := CheckoutOf(installLocation, path, folder);
    }
    forall id | IsID(id) && path == Checkout(installLocation, id, folder)
      ensures PackageFolder(installLocation, path) == Some(folder)
    {
      FolderOf(installLocation, id, folder);
    }
  }

  function Shortened(installLocation: string, file: string): string {
    match PackageFolder(installLocation, file)
    case Some(folder) => folder
    case None => file
  }

  // One line with an error, a warning or a note.

  datatype MessageType = Error | Warning | Note {
    function Label(): string {
      match this
      case Error => "error: "
      case Warning => "warning: "
      case Note => "note: "
    }

    function Color(): nat {
      match this
      case Error => 31
      case Warning => 35
      case Note => 30
    }

    /** LLDB puts this in front of the whole line. */
    function Announced(): string {
      if this == Note then "" else Label()
    }
  }

  function TypeOf(input: string): MessageType {
    if Error.Label() <= input then Error else if Warning.Label() <= input then Warning else Note
  }

  /** The line without the label LLDB put in front. */
  function Unannounced(input: string): string {
    input[|TypeOf(input).Announced()|..]
  }

  /** Where the colons are, -1 for one that is missing. */
  datatype Colons = Colons(first: int, second: int, third: int)

  function NextColon(s: string, colon: int): int
    requires -1 <= colon < |s|
  {
    if colon == -1 then -1 else IndexOf(s, ':', colon + 1)
  }

  function ColonsOf(s: string): (r: Colons)
    ensures r.third != -1 ==> 0 <= r.first < r.second < r.third < |s|
  {
    var first := IndexOf(s, ':', 0);
    var second := NextColon(s, first);
    Colons(first, second, NextColon(s, second))
  }

  lemma NoneBetween(s: string, c: char, from: nat, i: nat)
    requires from <= i < |s| && c !in s[from..i] && s[i] != c
    ensures c !in s[from..i + 1]
  {
    assert s[from..i + 1] == s[from..i] + [s[i]];
  }

  /** The loop that looks for three colons. */
  method FindColons(message: string) returns (r: Colons)
    ensures r == ColonsOf(message)
  {
    var first, second, third := -1, -1, -1;
    ghost var since: nat := 0;
    var i := 0;
    while i < |message|
      invariant since <= i <= |message| && third == -1 && ':' !in message[since..i]
      invariant since == if first == -1 then 0 else if second == -1 then first + 1 else second + 1
      invariant first == -1 ==> second == -1
      invariant first != -1 ==> 0 <= first < |message| && IndexOf(message, ':', 0) == first
      invariant second != -1 ==> 0 <= second < |message| && IndexOf(message, ':', first + 1) == second
    {
      if message[i] != ':' {
        NoneBetween(message, ':', since, i);
      } else {
        IndexAt(message, ':', since, i);
        if first == -1 {
          first := i;
        } else if second == -1 {
          second := i;
        } else {
          return Colons(first, second, i);
        }
        since := i + 1;
      }
      i := i + 1;
    }
    assert message[since..i] == message[since..];
    IndexNowhere(message, ':', since);
    r := Colons(first, second, third);
  }

  /** A message up to its third colon, and what follows. */
  datatype Pieces = Pieces(file: string, line: string, column: string, tail: string)

  function CutAt(s: string, colons: Colons): Pieces
    requires 0 <= colons.first < colons.second < colons.third < |s|
  {
    Pieces(s[..colons.first], s[colons.first + 1..colons.second], s[colons.second + 1..colons.third],
           s[colons.third + 1..])
  }

  function Cut(s: string): Option<Pieces> {
    var colons := ColonsOf(s);
    if colons.third == -1 then None else Some(CutAt(s, colons))
  }

  /** What is recognised in a line: the message behind the label, and its place. */
  datatype Line = Other | Diagnosed(file: string, line: int, column: int, message: string)

  function Recognized(pieces: Pieces, mark: string): Line
    requires pieces.tail != ""
  {
    var line, column, shortened := ParseInt(pieces.line), ParseInt(pieces.column), pieces.tail[1..];
    if line.None? || column.None? || !(mark <= shortened) then Other
    else Diagnosed(pieces.file, line.value, column.value, shortened[|mark|..])
  }

  /** None when the index behind the third colon and its space does not exist. */
  function ParseMessage(s: string, mark: string): Option<Line> {
    var cut := Cut(s);
    if cut.None? then Some(Other)
    else if cut.value.tail == "" then None
    else Some(Recognized(cut.value, mark))
  }

  function ParseLine(input: string): Option<Line> {
    ParseMessage(Unannounced(input), TypeOf(input).Label())
  }

  function Place(installLocation: string, file: string, line: int, column: int): string {
    Shortened(installLocation, file) + ":" + PrintInt(line) + ":" + PrintInt(column) + ": "
  }

  function FormatLine(installLocation: string, input: string): Option<string> {
    match ParseLine(input)
    case None => None
    case Some(Other) => Some(FormatString(Unannounced(input), [36]))
    case Some(Diagnosed(file, line, column, message)) =>
      Some(FormatString(Place(installLocation, file, line, column), [1])
           + FormatString(TypeOf(input).Label(), [1, TypeOf(input).Color()])
           + FormatString(message, [1]))
  }

  /** What a terminal shows of the coloured line. */
  function LooksAs(installLocation: string, input: string): seq<Glyph> {
    match ParseLine(input)
    case Some(Diagnosed(file, line, column, message)) =>
      Styled(Place(installLocation, file, line, column), [1])
      + (Styled(TypeOf(input).Label(), [1, TypeOf(input).Color()]) + Styled(message, [1]))
    case _ => Styled(Unannounced(input), [36])
  }

  lemma PrintPlain(i: int)
    ensures ESC !in PrintInt(i)
  {
    NoDigit(ESC, if i < 0 then -i else i);
  }

  lemma ShortenedPlain(installLocation: string, file: string)
    requires ESC !in file
    ensures ESC !in Shortened(installLocation, file)
  {
  }

  lemma PlacePlain(installLocation: string, file: string, line: int, column: int)
    requires ESC !in file
    ensures ESC !in Place(installLocation, file, line, column)
  {
    PrintPlain(line);
    PrintPlain(column);
    ShortenedPlain(installLocation, file);
  }

  lemma ParsedPlain(input: string)
    requires ESC !in input
    ensures ESC !in Unannounced(input)
    ensures ParseLine(input).Some? && ParseLine(input).value.Diagnosed? ==>
      ESC !in ParseLine(input).value.file && ESC !in ParseLine(input).value.message
  {
  }

  lemma PaintThree(a: string, b: string, c: string, color: nat)
    requires ESC !in a && ESC !in b && ESC !in c && color != 0
    ensures Paint(FormatString(a, [1]) + FormatString(b, [1, color]) + FormatString(c, [1]), [])
         == Styled(a, [1]) + (Styled(b, [1, color]) + Styled(c, [1]))
  {
    var fa, fb, fc := FormatString(a, [1]), FormatString(b, [1, color]), FormatString(c, [1]);
    assert fa + fb + fc == fa + (fb + fc);
    PaintFormat(a, [1], fb + fc, []);
    PaintFormat(b, [1, color], fc, []);
    PaintFormatted(c, [1]);
  }

  /** Colouring a line changes no text but the label in front and the file's path. */
  lemma LineLooksAs(installLocation: string, input: string)
    requires ESC !in input && FormatLine(installLocation, input).Some?
    ensures Paint(FormatLine(installLocation, input).value, []) == LooksAs(installLocation, input)
  {
    ParsedPlain(input);
    var parsed := ParseLine(input).value;
    if parsed.Diagnosed? {
      PlacePlain(installLocation, parsed.file, parsed.line, parsed.column);
      PaintThree(Place(installLocation, parsed.file, parsed.line, parsed.column), TypeOf(input).Label(), parsed.message,
        TypeOf(input).Color());
    } else {
      PaintFormatted(Unannounced(input), [36]);
    }
  }

  // What LLDB prints.

  /** Three parts that end in a colon, and the rest. */
  ghost predicate Consists(s: string, p: Pieces) {
    ':' !in p.file && ':' !in p.line && ':' !in p.column && s == Printed(p)
  }

  function Printed(p: Pieces): string {
    p.file + (":" + (p.line + (":" + (p.column + (":" + p.tail)))))
  }

  /** The same, by position. */
  ghost predicate HasPieces(s: string, p: Pieces, colons: Colons) {
    && ':' !in p.file && ':' !in p.line && ':' !in p.column
    && colons == Colons(|p.file|, |p.file| + 1 + |p.line|, |p.file| + 1 + |p.line| + 1 + |p.column|)
    && |s| == colons.third + 1 + |p.tail|
    && s[colons.first] == ':' && s[colons.second] == ':' && s[colons.third] == ':'
    && CutAt(s, colons) == p
  }

  lemma PrintedHasPieces(p: Pieces, colons: Colons)
    requires ':' !in p.file && ':' !in p.line && ':' !in p.column
    requires colons == Colons(|p.file|, |p.file| + 1 + |p.line|, |p.file| + 1 + |p.line| + 1 + |p.column|)
    ensures HasPieces(Printed(p), p, colons)
  {
    var b := p.column + (":" + p.tail);
    var a := p.line + (":" + b);
    var s := Printed(p);
    assert s[|p.file| + 1..] == a;
    assert a[|p.line| + 1..] == b;
    assert s[colons.second + 1..] == b;
    assert b[|p.column| + 1..] == p.tail;
  }

  lemma PiecesPrint(s: string, p: Pieces, colons: Colons)
    requires HasPieces(s, p, colons)
    ensures s == Printed(p)
  {
    assert s[colons.third..] == ":" + p.tail;
    assert s[colons.second + 1..] == p.column + s[colons.third..];
    assert s[colons.second..] == ":" + s[colons.second + 1..];
    assert s[colons.first + 1..] == p.line + s[colons.second..];
    assert s[colons.first..] == ":" + s[colons.first + 1..];
    assert s == p.file + s[colons.first..];
  }

  lemma PiecesColons(s: string, p: Pieces, colons: Colons)
    requires HasPieces(s, p, colons)
    ensures ColonsOf(s) == colons
  {
    assert s[0..colons.first] == s[..colons.first];
    IndexAt(s, ':', 0, colons.first);
    IndexAt(s, ':', colons.first + 1, colons.second);
    IndexAt(s, ':', colons.second + 1, colons.third);
  }

  lemma ColonsHavePieces(s: string, colons: Colons)
    requires ColonsOf(s) == colons && colons.third != -1
    ensures HasPieces(s, CutAt(s, colons), colons)
  {
    assert s[0..colons.first] == s[..colons.first];
    IndexIsFirst(s, ':', 0);
    IndexIsFirst(s, ':', colons.first + 1);
    IndexIsFirst(s, ':', colons.second + 1);
  }

  /** Cutting at the colons inverts printing. */
  lemma CutExact(s: string, p: Pieces)
    ensures Cut(s) == Some(p) <==> Consists(s, p)
  {
    if Cut(s) == Some(p) {
      ColonsHavePieces(s, ColonsOf(s));
      PiecesPrint(s, p, ColonsOf(s));
    }
    if Consists(s, p) {
      var colons := Colons(|p.file|, |p.file| + 1 + |p.line|, |p.file| + 1 + |p.line| + 1 + |p.column|);
      PrintedHasPieces(p, colons);
      PiecesColons(s, p, colons);
    }
  }

  /** What the line says of itself in front. */
  ghost predicate Announces(input: string, kind: MessageType, rest: string) {
    match kind
    case Error => input == "error: " + rest
    case Warning => input == "warning: " + rest
    case Note => input == rest && !("error: " <= input) && !("warning: " <= input)
  }

  lemma AnnouncedExactly(input: string, kind: MessageType, rest: string)
    ensures TypeOf(input) == kind && Unannounced(input) == rest <==> Announces(input, kind, rest)
  {
    assert ("warning: " + rest)[0] == 'w' && ("error: " + rest)[0] == 'e';
    assert ("error: " + rest)[|"error: "|..] == rest && ("warning: " + rest)[|"warning: "|..] == rest;
    if TypeOf(input) == kind && Unannounced(input) == rest && kind != Note {
      PrefixAndRest(input, kind.Label());
    }
  }

  /** Place, one character of any kind, label and message. */
  ghost predicate DiagnosesAs(s: string, mark: string, d: Line, p: Pieces, gap: char)
    requires d.Diagnosed?
  {
    && Consists(s, p) && p.file == d.file && ParseInt(p.line) == Some(d.line) && ParseInt(p.column) == Some(d.column)
    && p.tail == [gap] + (mark + d.message)
  }

  lemma DiagnosedConsists(s: string, mark: string, d: Line) returns (p: Pieces, gap: char)
    requires d.Diagnosed? && ParseMessage(s, mark) == Some(d)
    ensures DiagnosesAs(s, mark, d, p, gap)
  {
    p := Cut(s).value;
    gap := p.tail[0];
    CutExact(s, p);
    RecognizedParts(p, mark, d);
  }

  lemma RecognizedParts(p: Pieces, mark: string, d: Line)
    requires p.tail != "" && d.Diagnosed? && Recognized(p, mark) == d
    ensures p.file == d.file && ParseInt(p.line) == Some(d.line) && ParseInt(p.column) == Some(d.column)
    ensures p.tail == [p.tail[0]] + (mark + d.message)
  {
    PrefixAndRest(p.tail[1..], mark);
  }

  lemma ConsistsDiagnosed(s: string, mark: string, d: Line, p: Pieces, gap: char)
    requires d.Diagnosed? && DiagnosesAs(s, mark, d, p, gap)
    ensures ParseMessage(s, mark) == Some(d)
  {
    CutExact(s, p);
    assert p.tail[1..] == mark + d.message;
    assert (mark + d.message)[|mark|..] == d.message;
  }

  /** A line is taken for a diagnostic exactly if it consists of one. */
  lemma DiagnosedExactly(input: string, d: Line)
    requires d.Diagnosed?
    ensures ParseLine(input) == Some(d) <==>
      exists p, gap :: DiagnosesAs(Unannounced(input), TypeOf(input).Label(), d, p, gap)
  {
    var s, mark := Unannounced(input), TypeOf(input).Label();
    if ParseMessage(s, mark) == Some(d) {
      var p, gap := DiagnosedConsists(s, mark, d);
    }
    forall p, gap | DiagnosesAs(s, mark, d, p, gap) ensures ParseMessage(s, mark) == Some(d) {
      ConsistsDiagnosed(s, mark, d, p, gap);
    }
  }

  /** The check fails exactly on lines that end right behind the third colon. */
  lemma LineTrapsExactly(installLocation: string, input: string)
    ensures FormatLine(installLocation, input).None? <==>
      exists p: Pieces :: Consists(Unannounced(input), p) && p.tail == ""
  {
    var s := Unannounced(input);
    if Cut(s).Some? {
      CutExact(s, Cut(s).value);
    }
    forall p | Consists(s, p) && p.tail == "" ensures ParseLine(input).None? {
      CutExact(s, p);
    }
  }

  /** A line as LLDB prints it: announced, placed, labelled. */
  function Diagnostic(kind: MessageType, file: string, line: nat, column: nat, message: string): string {
    kind.Announced() + Printed(Pieces(file, Decimal(line), Decimal(column), " " + (kind.Label() + message)))
  }

  /** A place never looks like a label. */
  lemma PlaceIsNoLabel(kind: MessageType, file: string, line: nat, rest: string)
    requires kind != Note && ':' !in file
    ensures !(kind.Label() <= file + (":" + (Decimal(line) + rest)))
  {
    DecimalIsDigits(line);
    var s := file + (":" + (Decimal(line) + rest));
    var n := |kind.Label()| - 2;
    assert kind.Label()[n] == ':' && kind.Label()[n + 1] == ' ';
    assert s[|file|] == ':' && s[|file| + 1] == Decimal(line)[0];
    if n < |file| {
      assert s[n] == file[n];
    } else if |file| < n {
      assert kind.Label()[|file|] != ':';
    }
  }

  lemma Announcement(kind: MessageType, file: string, line: nat, rest: string)
    requires ':' !in file
    ensures var body := file + (":" + (Decimal(line) + rest));
      TypeOf(kind.Announced() + body) == kind && Unannounced(kind.Announced() + body) == body
  {
    var body := file + (":" + (Decimal(line) + rest));
    var input := kind.Announced() + body;
    if kind == Note {
      PlaceIsNoLabel(Error, file, line, rest);
      PlaceIsNoLabel(Warning, file, line, rest);
      assert input == body;
    } else if kind == Warning {
      assert input[0] == 'w';
    }
  }

  /** The lines that stop the kernel: those whose message is missing altogether. */
  lemma EmptyMessageTraps(installLocation: string, kind: MessageType, file: string, line: nat, column: nat)
    requires ':' !in file
    ensures FormatLine(installLocation, kind.Announced() + Printed(Pieces(file, Decimal(line), Decimal(column), ""))).None?
  {
    var p := Pieces(file, Decimal(line), Decimal(column), "");
    NoDigit(':', line);
    NoDigit(':', column);
    CutExact(Printed(p), p);
    Announcement(kind, file, line, ":" + (p.column + (":" + p.tail)));
  }

  lemma RecognizesPrinted(p: Pieces, kind: MessageType, line: nat, column: nat, message: string)
    requires p.line == Decimal(line) && p.column == Decimal(column) && p.tail == " " + (kind.Label() + message)
    requires line < INT_LIMIT && column < INT_LIMIT
    ensures Recognized(p, kind.Label()) == Diagnosed(p.file, line, column, message)
  {
    ParsePrint(line);
    ParsePrint(column);
    assert p.tail[1..] == kind.Label() + message;
    assert (kind.Label() + message)[|kind.Label()|..] == message;
  }

  /** The parser inverts LLDB's printing. */
  lemma DiagnosticParses(kind: MessageType, file: string, line: nat, column: nat, message: string)
    requires ':' !in file && line < INT_LIMIT && column < INT_LIMIT
    ensures var input := Diagnostic(kind, file, line, column, message);
      TypeOf(input) == kind && ParseLine(input) == Some(Diagnosed(file, line, column, message))
  {
    var p := Pieces(file, Decimal(line), Decimal(column), " " + (kind.Label() + message));
    NoDigit(':', line);
    NoDigit(':', column);
    CutExact(Printed(p), p);
    Announcement(kind, file, line, ":" + (p.column + (":" + p.tail)));
    RecognizesPrinted(p, kind, line, column, message);
  }

  lemma PrintedPlain(p: Pieces)
    requires ESC !in p.file && ESC !in p.line && ESC !in p.column && ESC !in p.tail
    ensures ESC !in Printed(p)
  {
    assert ESC !in p.column + (":" + p.tail);
    assert ESC !in p.line + (":" + (p.column + (":" + p.tail)));
  }

  lemma DiagnosticPlain(kind: MessageType, file: string, line: nat, column: nat, message: string)
    requires ESC !in file && ESC !in message
    ensures ESC !in Diagnostic(kind, file, line, column, message)
  {
    NoDigit(ESC, line);
    NoDigit(ESC, column);
    PrintedPlain(Pieces(file, Decimal(line), Decimal(column), " " + (kind.Label() + message)));
  }

  /** How a file is shown: from the checkouts of a package on, if it lies there. */
  ghost predicate ShownAs(installLocation: string, file: string, shown: string) {
    || (exists id :: IsID(id) && file == Checkout(installLocation, id, shown))
    || (shown == file && forall id, folder :: IsID(id) ==> file != Checkout(installLocation, id, folder))
  }

  lemma ShortenedIsShown(installLocation: string, file: string, shown: string)
    requires ShownAs(installLocation, file, shown)
    ensures Shortened(installLocation, file) == shown
  {
    PackageFolderExact(installLocation, file, shown);
    var folder := PackageFolder(installLocation, file);
    if folder.Some? {
      PackageFolderExact(installLocation, file, folder.value);
    }
  }

  /** Bold, and red, magenta or black. */
  function LabelLooks(kind: MessageType): seq<Glyph> {
    match kind
    case Error => Styled("error: ", [1, 31])
    case Warning => Styled("warning: ", [1, 35])
    case Note => Styled("note: ", [1, 30])
  }

  lemma PlaceIs(installLocation: string, file: string, shown: string, line: nat, column: nat)
    requires ShownAs(installLocation, file, shown)
    ensures Place(installLocation, file, line, column) == shown + (":" + (Decimal(line) + (":" + (Decimal(column) + ": "))))
  {
    ShortenedIsShown(installLocation, file, shown);
  }

  /**
   * A canonical line is shown without its announcement: file, line and column in bold, the label in its colour, and the
   * message in bold, as they were printed, with the file's path shortened.
   */
  lemma DiagnosticLooksAs(installLocation: string, kind: MessageType, file: string, shown: string, line: nat, column: nat,
                          message: string)
    requires ':' !in file && line < INT_LIMIT && column < INT_LIMIT && ESC !in file && ESC !in message
    requires ShownAs(installLocation, file, shown)
    ensures var formatted := FormatLine(installLocation, Diagnostic(kind, file, line, column, message));
      && formatted.Some?
      && Paint(formatted.value, []) ==
           Styled(shown + (":" + (Decimal(line) + (":" + (Decimal(column) + ": ")))), [1])
           + (LabelLooks(kind) + Styled(message, [1]))
  {
    DiagnosticParses(kind, file, line, column, message);
    DiagnosticPlain(kind, file, line, column, message);
    LineLooksAs(installLocation, Diagnostic(kind, file, line, column, message));
    PlaceIs(installLocation, file, shown, line, column);
  }
}
