/** The text of a stack trace (prettyPrintStackTrace and getLocationLine in FormatErrors.swift). */
module StackTrace {
  import opened Ansi
  import opened CompileError
  import opened Numerals
  import opened StackFrame
  import opened Wrappers

  /** `String(bytes:encoding:)` for UTF-8; None stops the kernel. */
  type Utf8 = Bytes -> Option<string>

  /** A frame with its strings decoded. */
  datatype Site = Site(line: nat, column: nat, callee: string, file: string, directory: string)

  function SiteOf(utf8: Utf8, f: Frame): Option<Site> {
    var callee, file, directory := utf8(f.callee), utf8(f.file), utf8(f.directory);
    if callee.None? || file.None? || directory.None? then None
    else Some(Site(f.line, f.column, callee.value, file.value, directory.value))
  }

  /** Ends with `p`. */
  predicate EndsWith(s: string, p: string) {
    |p| <= |s| && s[|s| - |p|..] == p
  }

  /** In the checkouts of a package, anywhere else, or in a cell of the notebook. */
  function Path(installLocation: string, s: Site): string {
    match PackageFolder(installLocation, s.directory)
    case Some(folder) => folder + "/" + s.file
    case None => if |s.directory| > 0 then s.directory + "/" + s.file else s.file
  }

  /** A closure of a cell is not told where it is. */
  function Callee(installLocation: string, s: Site): string {
    if PackageFolder(installLocation, s.directory).None? && |s.directory| == 0
       && "closure #" <= s.callee && EndsWith(s.callee, " in ")
    then s.callee + "main" else s.callee
  }

  function Spaces(n: nat): string {
    if n == 0 then "" else " " + Spaces(n - 1)
  }

  const PADDING: nat := 5

  function FrameID(i: nat): string {
    var id := Decimal(i + 1) + " ";
    if |id| < PADDING then id + Spaces(PADDING - |id|) else id
  }

  function FrameLine(installLocation: string, i: nat, s: Site): string {
    Spell([Span(FrameID(i), [36]), Span(Callee(installLocation, s), []), Span(" - ", [36]), Span(Path(installLocation, s), [32]),
           Span(", line ", [36]), Span(Decimal(s.line), [32]), Span(", column ", [36]), Span(Decimal(s.column), [32])])
  }

  /** `getLocationLine`. */
  function LocationLine(file: string, line: int): string {
    Spell([Span("Location: ", [36]), Span(file, [32]), Span(", line ", [36]), Span(PrintInt(line), [32])])
  }

  function LineOf(installLocation: string, utf8: Utf8, i: nat, f: Frame): Option<string> {
    match SiteOf(utf8, f)
    case None => None
    case Some(site) => Some(FrameLine(installLocation, i, site))
  }

  type LinePrinter = (nat, Frame) -> Option<string>

  function PrinterOf(installLocation: string, utf8: Utf8): LinePrinter {
    (i: nat, f: Frame) => LineOf(installLocation, utf8, i, f)
  }

  function OneMore(lines: Option<seq<string>>, line: Option<string>): Option<seq<string>> {
    if lines.None? || line.None? then None else Some(lines.value + [line.value])
  }

  /** The lines of all frames, each printed with its position. */
  function FrameLines(printer: LinePrinter, frames: seq<Frame>): Option<seq<string>> {
    if frames == [] then Some([])
    else
      var n := |frames| - 1;
      OneMore(FrameLines(printer, frames[..n]), printer(n, frames[n]))
  }

  /** Where the error came from, if that is known, and a title. */
  function Opening(source: Option<(string, int)>, size: nat): seq<string> {
    (match source case None => [] case Some((file, line)) => [LocationLine(file, line)])
    + [FormatString(if size == 0 then "Stack trace not available" else "Current stack trace:", [36])]
  }

  function Behind(opening: seq<string>, lines: Option<seq<string>>): Option<seq<string>> {
    if lines.None? then None else Some(opening + lines.value)
  }

  function TraceLines(installLocation: string, utf8: Utf8, source: Option<(string, int)>, frames: seq<Frame>)
    : Option<seq<string>>
  {
    Behind(Opening(source, |frames|), FrameLines(PrinterOf(installLocation, utf8), frames))
  }

  lemma BehindOneMore(opening: seq<string>, lines: Option<seq<string>>, line: Option<string>)
    ensures Behind(opening, OneMore(lines, line)) == OneMore(Behind(opening, lines), line)
  {
    if lines.Some? && line.Some? {
      assert opening + (lines.value + [line.value]) == opening + lines.value + [line.value];
    }
  }

  lemma {:induction false} FailureStays(printer: LinePrinter, frames: seq<Frame>, i: nat)
    requires i <= |frames| && FrameLines(printer, frames[..i]).None?
    ensures FrameLines(printer, frames).None?
    decreases |frames| - i
  {
    if i == |frames| {
      assert frames[..i] == frames;
    } else {
      assert frames[..i + 1][..i] == frames[..i];
      FailureStays(printer, frames, i + 1);
    }
  }

  /** The loop over the frames. */
  method PrintFrames(printer: LinePrinter, frames: seq<Frame>, opening: seq<string>)
    returns (r: Option<seq<string>>)
    ensures r == Behind(opening, FrameLines(printer, frames))
  {
    var output := opening;
    assert opening + [] == opening;
    for i := 0 to |frames|
      invariant Some(output) == Behind(opening, FrameLines(printer, frames[..i]))
    {
      ghost var before := FrameLines(printer, frames[..i]);
      var line := printer(i, frames[i]);
      assert frames[..i + 1][..i] == frames[..i];
      BehindOneMore(opening, before, line);
      if line.None? {
        FailureStays(printer, frames, i + 1);
        return None;
      }
      output := output + [line.value];
    }
    assert frames[..|frames|] == frames;
    r := Some(output);
  }

  /** `prettyPrintStackTrace`; None when a string of a frame is not UTF-8. */
  method PrettyPrintStackTrace(installLocation: string, utf8: Utf8, source: Option<(string, int)>, llframes: seq<SBFrame>)
    returns (r: Option<seq<string>>)
    requires forall f :: f in llframes ==> f.Fits()
    ensures r == TraceLines(installLocation, utf8, source, ShownFrames(llframes))
  {
    var frames, index := PassStackTrace(llframes);
    var output := [];
    if source.Some? {
      output := [LocationLine(source.value.0, source.value.1)];
    }
    if |frames| == 0 {
      output := output + [FormatString("Stack trace not available", [36])];
      assert output + [] == output;
      return Some(output);
    }
    output := output + [FormatString("Current stack trace:", [36])];
    r := PrintFrames(PrinterOf(installLocation, utf8), frames, output);
  }

  // What a terminal shows of it.

  /** A location is shown in cyan and green. */
  lemma LocationLooks(file: string, line: int)
    requires ESC !in file
    ensures PaintsAs(LocationLine(file, line), [],
      Appearance([Span("Location: ", [36]), Span(file, [32]), Span(", line ", [36]), Span(PrintInt(line), [32])]))
  {
    PrintPlain(line);
    PaintSpans([Span("Location: ", [36]), Span(file, [32]), Span(", line ", [36]), Span(PrintInt(line), [32])]);
  }

  /** The source, if it is known, comes first, then a title that says whether frames follow. */
  lemma OpeningLooks(source: Option<(string, int)>, size: nat)
    requires source.Some? ==> ESC !in source.value.0
    ensures var lines, n := Opening(source, size), if source.Some? then 1 else 0;
      && |lines| == n + 1
      && PaintsAs(lines[n], [], Styled(if size > 0 then "Current stack trace:" else "Stack trace not available", [36]))
      && (source.Some? ==> PaintsAs(lines[0], [], Appearance(
            [Span("Location: ", [36]), Span(source.value.0, [32]),
             Span(", line ", [36]), Span(PrintInt(source.value.1), [32])])))
  {
    PaintFormatted("Current stack trace:", [36]);
    PaintFormatted("Stack trace not available", [36]);
    if source.Some? {
      LocationLooks(source.value.0, source.value.1);
    }
  }

  /** How a place is shown: by its folder in the checkouts of a package, by its directory, or by its file alone. */
  ghost predicate PathShownAs(installLocation: string, s: Site, path: string) {
    || (exists id, folder :: IsID(id) && s.directory == Checkout(installLocation, id, folder) && path == folder + "/" + s.file)
    || (s.directory != "" && path == s.directory + "/" + s.file
        && forall id, folder :: IsID(id) ==> s.directory != Checkout(installLocation, id, folder))
    || (s.directory == "" && path == s.file)
  }

  lemma PathIsShown(installLocation: string, s: Site)
    ensures PathShownAs(installLocation, s, Path(installLocation, s))
  {
    var folder := PackageFolder(installLocation, s.directory);
    if folder.Some? {
      PackageFolderExact(installLocation, s.directory, folder.value);
    } else {
      forall id, f | IsID(id) ensures s.directory != Checkout(installLocation, id, f) {
        PackageFolderExact(installLocation, s.directory, f);
      }
    }
  }

  /** A function's name as LLDB has it, except that a closure in a cell is one in main. */
  ghost predicate CalleeShownAs(s: Site, callee: string) {
    if s.directory == "" && exists name :: s.callee == "closure #" + name && EndsWith(s.callee, " in ")
    then callee == s.callee + "main" else callee == s.callee
  }

  lemma CalleeIsShown(installLocation: string, s: Site)
    ensures CalleeShownAs(s, Callee(installLocation, s))
  {
    if "closure #" <= s.callee {
      assert s.callee == "closure #" + s.callee[|"closure #"|..];
    }
  }

  lemma {:induction false} SpacesAre(n: nat)
    ensures |Spaces(n)| == n && forall c :: c in Spaces(n) ==> c == ' '
  {
    if n > 0 {
      SpacesAre(n - 1);
    }
  }

  /** The number of a frame, counted from 1, with at least one space behind it, five characters wide if it fits. */
  lemma FrameIDIs(i: nat) returns (n: nat)
    ensures FrameID(i) == Decimal(i + 1) + Spaces(n) && n > 0 && (|FrameID(i)| == 5 || (n == 1 && |FrameID(i)| > 5))
    ensures ESC !in FrameID(i)
  {
    var d := |Decimal(i + 1)|;
    n := if d + 1 < 5 then 5 - d else 1;
    assert Spaces(1) == " " + Spaces(0) && Spaces(0) == "";
    SpacesAre(n);
    if d + 1 < 5 {
      assert Spaces(n) == " " + Spaces(n - 1);
    }
    NoDigit(ESC, i + 1);
  }

  /** Number, function, path, line and column of a frame. */
  function SiteSpans(id: string, callee: string, path: string, line: nat, column: nat): seq<Span> {
    [Span(id, [36]), Span(callee, []), Span(" - ", [36]), Span(path, [32]),
     Span(", line ", [36]), Span(Decimal(line), [32]), Span(", column ", [36]), Span(Decimal(column), [32])]
  }

  lemma SpansArePlain(i: nat, callee: string, path: string, line: nat, column: nat)
    requires ESC !in callee && ESC !in path
    ensures PlainSpans(SiteSpans(FrameID(i), callee, path, line, column))
  {
    NoDigit(ESC, line);
    NoDigit(ESC, column);
    var n := FrameIDIs(i);
  }

  /** The line of a frame. */
  lemma FrameLooks(installLocation: string, i: nat, s: Site) returns (callee: string, path: string)
    requires ESC !in s.callee && ESC !in Path(installLocation, s)
    ensures CalleeShownAs(s, callee) && PathShownAs(installLocation, s, path)
    ensures PaintsAs(FrameLine(installLocation, i, s), [], Appearance(SiteSpans(FrameID(i), callee, path, s.line, s.column)))
  {
    callee, path := Callee(installLocation, s), Path(installLocation, s);
    CalleeIsShown(installLocation, s);
    PathIsShown(installLocation, s);
    SpansArePlain(i, callee, path, s.line, s.column);
    PaintSpans(SiteSpans(FrameID(i), callee, path, s.line, s.column));
  }

  lemma {:induction false} FrameLinesAre(printer: LinePrinter, frames: seq<Frame>)
    requires FrameLines(printer, frames).Some?
    ensures var lines := FrameLines(printer, frames).value;
      |lines| == |frames| && forall k :: 0 <= k < |lines| ==> printer(k, frames[k]) == Some(lines[k])
  {
    if frames != [] {
      FrameLinesAre(printer, frames[..|frames| - 1]);
    }
  }

  lemma {:induction false} FrameLinesFail(printer: LinePrinter, frames: seq<Frame>)
    ensures FrameLines(printer, frames).None? <==> exists k :: 0 <= k < |frames| && printer(k, frames[k]).None?
  {
    if frames != [] {
      var n := |frames| - 1;
      FrameLinesFail(printer, frames[..n]);
      assert forall k :: 0 <= k < n ==> frames[..n][k] == frames[k];
    }
  }

  /** The trace fails exactly when a string of one of the frames is not UTF-8. */
  lemma TraceFailsExactly(installLocation: string, utf8: Utf8, source: Option<(string, int)>, frames: seq<Frame>)
    ensures TraceLines(installLocation, utf8, source, frames).None? <==>
      exists k :: 0 <= k < |frames| && SiteOf(utf8, frames[k]).None?
  {
    var printer := PrinterOf(installLocation, utf8);
    FrameLinesFail(printer, frames);
    forall k | 0 <= k < |frames| ensures printer(k, frames[k]).None? <==> SiteOf(utf8, frames[k]).None? {
      assert printer(k, frames[k]) == LineOf(installLocation, utf8, k, frames[k]);
    }
  }

  /** Who LLDB says was running, decoded. */
  ghost predicate SiteFits(utf8: Utf8, f: SBFrame, s: Site) {
    && f.file.Spec? && s.line == f.line && s.column == f.column
    && utf8(f.callee) == Some(s.callee) && utf8(f.file.name) == Some(s.file)
    && utf8(if f.file.present then f.file.directory else []) == Some(s.directory)
  }

  /** The line of one of LLDB's frames. */
  ghost predicate LineShows(installLocation: string, utf8: Utf8, k: nat, f: SBFrame, line: string) {
    exists site :: SiteFits(utf8, f, site) && line == FrameLine(installLocation, k, site)
  }

  lemma LineIsOfFrame(installLocation: string, utf8: Utf8, k: nat, f: SBFrame, shown: Frame, line: string)
    requires SameFrame(f, shown) && PrinterOf(installLocation, utf8)(k, shown) == Some(line)
    ensures LineShows(installLocation, utf8, k, f, line)
  {
    assert LineOf(installLocation, utf8, k, shown) == Some(line);
    assert SiteFits(utf8, f, SiteOf(utf8, shown).value);
  }

  /**
   * The notebook's trace has one line for each of LLDB's frames with source, in LLDB's order and numbered from 1, made of
   * that frame's own function, path, line and column, behind the source of the error and a title.
   */
  lemma TraceIsOfFrames(installLocation: string, utf8: Utf8, source: Option<(string, int)>, frames: seq<SBFrame>)
    returns (index: seq<nat>, lines: seq<string>)
    requires TraceLines(installLocation, utf8, source, ShownFrames(frames)).Some?
    ensures HaveSource(frames, index) && |lines| == |index|
    ensures TraceLines(installLocation, utf8, source, ShownFrames(frames)).value == Opening(source, |index|) + lines
    ensures forall k :: 0 <= k < |index| ==> LineShows(installLocation, utf8, k, frames[index[k]], lines[k])
  {
    var shown, printer := ShownFrames(frames), PrinterOf(installLocation, utf8);
    index := ShownFramesAre(frames);
    lines := FrameLines(printer, shown).value;
    FrameLinesAre(printer, shown);
    forall k | 0 <= k < |index| ensures LineShows(installLocation, utf8, k, frames[index[k]], lines[k]) {
      LineIsOfFrame(installLocation, utf8, k, frames[index[k]], shown[k], lines[k]);
    }
  }
}
