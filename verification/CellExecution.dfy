/**
 * One cell from start to report (doExecute and preprocessAndExecute): the polling loop over real text, whose polls may
 * cut the output anywhere, and the branch taken at the end.
 */
module CellExecution {
  import opened Ansi
  import CompileReport
  import CrashMessage
  import opened Guarantees
  import opened Messages
  import opened Numerals
  import Preprocess
  import opened Rendezvous
  import StackFrame
  import StackTrace
  import opened Stdout
  import opened Text
  import opened Wrappers

  // Output that arrives in pieces.

  /** A marker lies across the end of `a`, the piece before `b`. */
  ghost predicate Straddles(ms: Markers, a: string, b: string) {
    exists i: nat, marker: Token :: MarkerAcross(ms, a, b, i, marker)
  }

  ghost predicate MarkerAcross(ms: Markers, a: string, b: string, i: nat, marker: Token) {
    !marker.Ch? && i < |a| < i + |Spelling(ms, marker)| && At(a + b, Spelling(ms, marker), i)
  }

  /** Two pieces read as the whole does. */
  ghost predicate ReadsInPieces(ms: Markers, a: string, b: string) {
    Tokenize(ms, a + b) == Tokenize(ms, a) + Tokenize(ms, b)
  }

  lemma PrefixesOfOne(p: string, q: string, s: string)
    ensures p <= s && q <= s ==> p <= q || q <= p
  {
    if p <= s && q <= s {
      assert p == s[..|p|] && q == s[..|q|];
    }
  }

  lemma MarkersDiffer(ms: Markers, s: string, marker: Token)
    requires s != "" && !marker.Ch? && StartsWith(s, Spelling(ms, marker))
    ensures Head(ms, s) == marker
  {
    PrefixesOfOne(ms.message, ms.clear, s);
  }

  lemma ShiftMarker(ms: Markers, a: string, b: string, n: nat, i: nat, marker: Token)
    requires n <= |a|
    ensures MarkerAcross(ms, a, b, i + n, marker) <==> MarkerAcross(ms, a[n..], b, i, marker)
  {
    assert (a + b)[n..] == a[n..] + b;
    if i <= |a[n..] + b| {
      assert (a[n..] + b)[i..] == (a + b)[i + n..];
    }
  }

  lemma NotInsideHead(ms: Markers, a: string, b: string, i: nat, marker: Token)
    requires a != "" && |Spelling(ms, Head(ms, a + b))| <= |a| && MarkerAcross(ms, a, b, i, marker)
    ensures |Spelling(ms, Head(ms, a + b))| <= i
  {
    var s := a + b;
    var head := Head(ms, s);
    assert s[i] == s[i..][0] == '\0';
    assert forall k :: 0 <= k < |Spelling(ms, head)| ==> s[k] == Spelling(ms, head)[k];
    if i == 0 {
      assert s[0..] == s;
      MarkersDiffer(ms, s, marker);
    }
  }

  /** Behind the head of `a + b`, if that lies in `a`, the same markers are cut as before. */
  lemma TailStraddles(ms: Markers, a: string, b: string, n: nat)
    requires a != "" && n == |Spelling(ms, Head(ms, a + b))| && n <= |a|
    ensures Straddles(ms, a, b) <==> Straddles(ms, a[n..], b)
  {
    forall i: nat, marker: Token | MarkerAcross(ms, a, b, i, marker) ensures Straddles(ms, a[n..], b) {
      NotInsideHead(ms, a, b, i, marker);
      ShiftMarker(ms, a, b, n, i - n, marker);
    }
    forall i: nat, marker: Token | MarkerAcross(ms, a[n..], b, i, marker) ensures Straddles(ms, a, b) {
      ShiftMarker(ms, a, b, n, i, marker);
    }
  }

  lemma HeadOfPiece(ms: Markers, a: string, b: string)
    requires a != "" && |Spelling(ms, Head(ms, a + b))| <= |a|
    ensures Head(ms, a) == Head(ms, a + b)
  {
    var head := Head(ms, a + b);
    assert (a + b)[..|Spelling(ms, head)|] == a[..|Spelling(ms, head)|];
    if !head.Ch? {
      MarkersDiffer(ms, a, head);
    }
  }

  lemma SameHead<T>(head: T, whole: seq<T>, x: seq<T>, y: seq<T>)
    ensures [head] + whole == ([head] + x) + y <==> whole == x + y
  {
    assert ([head] + x) + y == [head] + (x + y);
    assert ([head] + whole)[1..] == whole && ([head] + (x + y))[1..] == x + y;
  }

  lemma HeadAcross(ms: Markers, a: string, b: string)
    requires a != "" && |a| < |Spelling(ms, Head(ms, a + b))|
    ensures Straddles(ms, a, b) && !ReadsInPieces(ms, a, b)
  {
    var s := a + b;
    assert s[0..] == s;
    assert MarkerAcross(ms, a, b, 0, Head(ms, s));
    assert Tokenize(ms, s)[0] == Head(ms, s);
    assert (Tokenize(ms, a) + Tokenize(ms, b))[0] == Head(ms, a);
  }

  /** A piece may end anywhere but inside a marker. */
  lemma {:induction false} PiecesRead(ms: Markers, a: string, b: string)
    ensures ReadsInPieces(ms, a, b) <==> !Straddles(ms, a, b)
    decreases |a|
  {
    if a == "" {
      assert a + b == b;
    } else if |a| < |Spelling(ms, Head(ms, a + b))| {
      HeadAcross(ms, a, b);
    } else {
      var head := Head(ms, a + b);
      var n := |Spelling(ms, head)|;
      TailStraddles(ms, a, b, n);
      PiecesRead(ms, a[n..], b);
      HeadOfPiece(ms, a, b);
      assert (a + b)[n..] == a[n..] + b;
      SameHead(head, Tokenize(ms, a[n..] + b), Tokenize(ms, a[n..]), Tokenize(ms, b));
    }
  }

  // Serving the pieces.

  /** What comes of texts sent one after the other; nothing more is sent once a message is awaited in vain. */
  function ServeAll(texts: seq<string>, queue: seq<Message>): Served {
    if texts == [] then Served([], queue, false)
    else
      var first := ServeAll(texts[..|texts| - 1], queue);
      if first.blocked then first
      else Serve(Scan(SWIFT_MARKERS, texts[|texts| - 1]), first.left).After(first.responses)
  }

  /** No text ends inside a marker. */
  ghost predicate Whole(texts: seq<string>) {
    forall k :: 0 <= k < |texts| ==> !Straddles(SWIFT_MARKERS, Concat(texts[..k]), texts[k])
  }

  lemma ObservationsCons(r: Response, rest: seq<Response>)
    ensures Observations([r] + rest) == Observations([r]) + Observations(rest)
  {
    assert ([r] + rest)[1..] == rest && [r][1..] == [];
    assert Observations([]) == [];
  }

  lemma {:induction false} ObservationsAppend(a: seq<Response>, b: seq<Response>)
    ensures Observations(a + b) == Observations(a) + Observations(b)
  {
    if a == [] {
      assert a + b == b;
    } else {
      ObservationsAppend(a[1..], b);
      assert a == [a[0]] + a[1..] && a + b == [a[0]] + (a[1..] + b);
      ObservationsCons(a[0], a[1..]);
      ObservationsCons(a[0], a[1..] + b);
      Associative(Observations([a[0]]), Observations(a[1..]), Observations(b));
    }
  }

  lemma {:induction false} DisplayedAppend(a: seq<Token>, b: seq<Token>, queue: seq<Message>)
    ensures Displayed(a + b, queue)
         == Displayed(a, queue) + if Marks(a) <= |queue| then Displayed(b, queue[Marks(a)..]) else []
  {
    if a == [] {
      assert a + b == b;
    } else {
      assert (a + b)[0] == a[0] && (a + b)[1..] == a[1..] + b;
      if !a[0].Mark? {
        DisplayedAppend(a[1..], b, queue);
      } else if queue != [] {
        DisplayedAppend(a[1..], b, queue[1..]);
        if Marks(a) <= |queue| {
          assert queue[1..][Marks(a[1..])..] == queue[Marks(a)..];
        }
      }
    }
  }

  lemma {:induction false} MarkCountOfChunks(toks: seq<Token>)
    ensures MarkCount(Chunks(toks)) == Marks(toks)
  {
    if toks != [] {
      MarkCountOfChunks(toks[1..]);
      var r := Chunks(toks[1..]);
      if toks[0].Ch? {
        assert Chunks(toks)[1..] == r[1..];
      } else {
        assert Chunks(toks)[1..] == [EventOf(toks[0])] + r;
        assert ([EventOf(toks[0])] + r)[1..] == r;
      }
    }
  }

  /** The display of some output, and the messages it leaves. */
  ghost predicate Amounts(served: Served, toks: seq<Token>, queue: seq<Message>) {
    && Observations(served.responses) == Displayed(toks, queue)
    && (served.blocked <==> Marks(toks) > |queue|)
    && (!served.blocked ==> served.left == queue[Marks(toks)..])
  }

  lemma OnePieceAmounts(text: string, queue: seq<Message>)
    ensures Amounts(Serve(Scan(SWIFT_MARKERS, text), queue), Tokenize(SWIFT_MARKERS, text), queue)
  {
    var toks := Tokenize(SWIFT_MARKERS, text);
    ChunksDisplay(toks, queue);
    MarkCountOfChunks(toks);
    KthMarkTakesKthMessage(Chunks(toks), queue);
  }

  lemma TwoPiecesAmount(first: Served, a: seq<Token>, second: Served, b: seq<Token>, queue: seq<Message>)
    requires Amounts(first, a, queue) && !first.blocked && Amounts(second, b, first.left)
    ensures Amounts(second.After(first.responses), a + b, queue)
  {
    ObservationsAppend(first.responses, second.responses);
    DisplayedAppend(a, b, queue);
    ViewAppend(a, b, Message("", "", 0));
    assert !second.blocked ==> first.left[Marks(b)..] == queue[Marks(a) + Marks(b)..];
  }

  lemma BlockedAmounts(first: Served, a: seq<Token>, b: seq<Token>, queue: seq<Message>)
    requires Amounts(first, a, queue) && first.blocked
    ensures Amounts(first, a + b, queue)
  {
    DisplayedAppend(a, b, queue);
    ViewAppend(a, b, Message("", "", 0));
  }

  lemma OneMoreAmounts(texts: seq<string>, last: string, queue: seq<Message>)
    requires Amounts(ServeAll(texts, queue), Tokenize(SWIFT_MARKERS, Concat(texts)), queue)
    requires !Straddles(SWIFT_MARKERS, Concat(texts), last)
    ensures Amounts(ServeAll(texts + [last], queue), Tokenize(SWIFT_MARKERS, Concat(texts) + last), queue)
  {
    var a, b := Tokenize(SWIFT_MARKERS, Concat(texts)), Tokenize(SWIFT_MARKERS, last);
    var first := ServeAll(texts, queue);
    PiecesRead(SWIFT_MARKERS, Concat(texts), last);
    assert (texts + [last])[..|texts|] == texts;
    if first.blocked {
      BlockedAmounts(first, a, b, queue);
    } else {
      OnePieceAmounts(last, first.left);
      TwoPiecesAmount(first, a, Serve(Scan(SWIFT_MARKERS, last), first.left), b, queue);
    }
  }

  lemma FrontIsWhole(texts: seq<string>)
    requires Whole(texts) && texts != []
    ensures Whole(texts[..|texts| - 1])
    ensures !Straddles(SWIFT_MARKERS, Concat(texts[..|texts| - 1]), texts[|texts| - 1])
  {
    var front := texts[..|texts| - 1];
    assert forall k :: 0 <= k < |front| ==> front[..k] == texts[..k];
  }

  /** However the output was cut, outside of markers, the notebook shows the same as for one pass over all of it. */
  lemma {:induction false} PiecesAmount(texts: seq<string>, queue: seq<Message>)
    requires Whole(texts)
    ensures Amounts(ServeAll(texts, queue), Tokenize(SWIFT_MARKERS, Concat(texts)), queue)
    decreases |texts|
  {
    if texts != [] {
      var front, last := texts[..|texts| - 1], texts[|texts| - 1];
      FrontIsWhole(texts);
      PiecesAmount(front, queue);
      OneMoreAmounts(front, last, queue);
      ConcatSnoc(front, last);
      assert texts == front + [last];
    }
  }

  lemma ConcatSnoc(front: seq<string>, last: string)
    ensures Concat(front + [last]) == Concat(front) + last
  {
    ConcatAppend(front, [last]);
    assert Concat([last]) == last + Concat([last][1..]) == last;
  }

  // The polling loop.

  /** One turn of the loop: was the result there when it was looked at, and what `get_stdout` handed over after that. */
  datatype Poll = Poll(done: bool, segments: seq<string>)

  datatype Loop = Finished | HeaderMissing | AwaitingMessage | Unfinished

  /** All that the first `n` polls read. */
  function Output(polls: seq<Poll>, n: nat): string
    requires n <= |polls|
  {
    if n == 0 then "" else Output(polls, n - 1) + Available(polls[n - 1].segments)
  }

  /** The polls read what the cell writes, in order, and a drain after the result is there reads all of it. */
  ghost predicate ReadsFrom(polls: seq<Poll>, written: string) {
    forall n: nat :: 0 < n <= |polls| ==>
      Output(polls, n) <= written && (polls[n - 1].done ==> Output(polls, n) == written)
  }

  /** The texts are the output behind one header. */
  ghost predicate Strips(texts: seq<string>, output: string) {
    output == if texts == [] then "" else HEADER + Concat(texts)
  }

  lemma StripsMore(texts: seq<string>, output: string, stdout: string, text: string)
    requires Strips(texts, output)
    requires stdout == if texts == [] then HEADER + text else text
    ensures Strips(texts + [text], output + stdout)
  {
    ConcatSnoc(texts, text);
    if texts == [] {
      assert Concat(texts) + text == text;
    } else {
      Associative(HEADER, Concat(texts), text);
    }
  }

  /** What the handler has done since `sent` were its responses and `queue` its messages. */
  ghost predicate HasServed(handler: StdoutHandler, texts: seq<string>, sent: seq<Response>, queue: seq<Message>)
    reads handler
  {
    var served := ServeAll(texts, queue);
    !served.blocked && handler.responses == sent + served.responses && handler.Queue() == served.left
  }

  lemma ServeOneMore(texts: seq<string>, text: string, sent: seq<Response>, queue: seq<Message>)
    requires !ServeAll(texts, queue).blocked
    ensures var first := ServeAll(texts, queue);
      var next := Serve(Scan(SWIFT_MARKERS, text), first.left);
      && ServeAll(texts + [text], queue) == next.After(first.responses)
      && sent + next.After(first.responses).responses == (sent + first.responses) + next.responses
  {
    assert (texts + [text])[..|texts|] == texts;
    var first := ServeAll(texts, queue);
    Associative(sent, first.responses, Serve(Scan(SWIFT_MARKERS, text), first.left).responses);
  }

  /** The handler has dealt with this much output of the cell. */
  ghost predicate Sent(handler: StdoutHandler, texts: seq<string>, output: string,
                       sent: seq<Response>, queue: seq<Message>)
    reads handler
  {
    Strips(texts, output) && HasServed(handler, texts, sent, queue) && (handler.hadStdout <==> texts != [])
  }

  /** The handler has run out of messages in the middle of this output. */
  ghost predicate Stuck(handler: StdoutHandler, texts: seq<string>, output: string,
                        sent: seq<Response>, queue: seq<Message>)
    reads handler
  {
    var served := ServeAll(texts, queue);
    Strips(texts, output) && served.blocked && handler.responses == sent + served.responses
  }

  /** One poll of the loop. */
  method PollOnce(handler: StdoutHandler, segments: seq<string>,
                  ghost texts: seq<string>, ghost output: string, ghost sent: seq<Response>, ghost queue: seq<Message>)
    returns (ending: Ending, ghost texts': seq<string>)
    requires handler.Valid() && Sent(handler, texts, output, sent, queue)
    modifies handler
    ensures handler.Valid()
    ensures ending.Returned? ==> Sent(handler, texts', output + Available(segments), sent, queue)
    ensures ending.AwaitsMessage? ==> Stuck(handler, texts', output + Available(segments), sent, queue)
    ensures ending.NoHeader? ==> output == "" && Available(segments) != "" && !(HEADER <= Available(segments))
  {
    ghost var stdout := Available(segments);
    ghost var text := if texts == [] && HEADER <= stdout then stdout[|HEADER|..] else stdout;
    ServeOneMore(texts, text, sent, queue);
    ending := handler.GetAndSendStdout(segments);
    texts' := texts;
    if stdout == "" {
      assert output + stdout == output;
    } else if !ending.NoHeader? {
      StripsMore(texts, output, stdout, text);
      texts' := texts + [text];
    }
  }

  /** None of the first `n` polls saw the result. */
  ghost predicate GoesOn(polls: seq<Poll>, n: nat)
    requires n <= |polls|
  {
    forall i :: 0 <= i < n ==> !polls[i].done
  }

  /** Where the loop leaves things. */
  ghost predicate Outcome(handler: StdoutHandler, loop: Loop, texts: seq<string>, polls: seq<Poll>, used: nat,
                          sent: seq<Response>, queue: seq<Message>)
    requires used <= |polls|
    reads handler
  {
    match loop
    case Unfinished => GoesOn(polls, used) && Sent(handler, texts, Output(polls, used), sent, queue)
    case Finished =>
      && 0 < used && GoesOn(polls, used - 1) && polls[used - 1].done
      && Sent(handler, texts, Output(polls, used), sent, queue)
    case AwaitingMessage =>
      0 < used && GoesOn(polls, used - 1) && Stuck(handler, texts, Output(polls, used), sent, queue)
    case HeaderMissing =>
      && 0 < used && GoesOn(polls, used - 1) && Output(polls, used - 1) == ""
      && var first := Available(polls[used - 1].segments); first != "" && !(HEADER <= first)
  }

  /** One turn of the loop. */
  method Turn(handler: StdoutHandler, polls: seq<Poll>, i: nat,
              ghost texts: seq<string>, ghost sent: seq<Response>, ghost queue: seq<Message>)
    returns (loop: Loop, ghost texts': seq<string>)
    requires handler.Valid() && i < |polls| && Outcome(handler, Unfinished, texts, polls, i, sent, queue)
    modifies handler
    ensures handler.Valid() && Outcome(handler, loop, texts', polls, i + 1, sent, queue)
  {
    var shouldBreak := polls[i].done;
    var ending;
    ending, texts' := PollOnce(handler, polls[i].segments, texts, Output(polls, i), sent, queue);
    match ending {
      case NoHeader => loop := HeaderMissing;
      case AwaitsMessage => loop := AwaitingMessage;
      case Returned => loop := if shouldBreak then Finished else Unfinished;
    }
  }

  /** The loop ends with the first poll that saw the result before it drained. */
  method PollUntilDone(handler: StdoutHandler, polls: seq<Poll>) returns (loop: Loop, used: nat, ghost texts: seq<string>)
    requires handler.Valid() && !handler.hadStdout
    modifies handler
    ensures handler.Valid() && used <= |polls| && (loop.Unfinished? ==> used == |polls|)
    ensures Outcome(handler, loop, texts, polls, used, old(handler.responses), old(handler.Queue()))
  {
    loop, used, texts := Unfinished, 0, [];
    ghost var sent, queue := handler.responses, handler.Queue();
    assert sent + [] == sent;
    while loop.Unfinished? && used < |polls|
      invariant handler.Valid() && used <= |polls| && Outcome(handler, loop, texts, polls, used, sent, queue)
    {
      loop, texts := Turn(handler, polls, used, texts, sent, queue);
      used := used + 1;
    }
  }

  lemma FinishedReadsAll(polls: seq<Poll>, used: nat, written: string)
    requires ReadsFrom(polls, written) && 0 < used <= |polls| && polls[used - 1].done
    ensures Output(polls, used) == written
  {
  }

  /**
   * `preprocessAndExecute` from the moment the background thread has the cell: when it ends, all that the cell wrote,
   * minus one leading header, has been handed to `sendStdout`, once and in order.
   */
  method PreprocessAndExecute(handler: StdoutHandler, polls: seq<Poll>, ghost written: string)
    returns (loop: Loop, used: nat, ghost texts: seq<string>)
    requires handler.Valid() && !handler.hadStdout && ReadsFrom(polls, written)
    modifies handler
    ensures handler.Valid() && used <= |polls| && (loop.Unfinished? ==> used == |polls|)
    ensures Outcome(handler, loop, texts, polls, used, old(handler.responses), old(handler.Queue()))
    ensures loop.Finished? ==> Output(polls, used) == written && Strips(texts, written)
    ensures loop.Finished? ==> (handler.hadStdout <==> written != "")
  {
    loop, used, texts := PollUntilDone(handler, polls);
    if loop.Finished? {
      FinishedReadsAll(polls, used, written);
    }
  }

  /** What the notebook shows for the output of a cell: one header, then everything behind it in one pass. */
  lemma AllIsShown(handler: StdoutHandler, texts: seq<string>, output: string, sent: seq<Response>, queue: seq<Message>)
    requires Sent(handler, texts, output, sent, queue) && Whole(texts)
    ensures output == "" ==> handler.responses == sent && handler.Queue() == queue
    ensures output != "" ==> HEADER <= output
    ensures output != "" ==>
      var toks := Tokenize(SWIFT_MARKERS, output[|HEADER|..]);
      && Marks(toks) <= |queue| && handler.Queue() == queue[Marks(toks)..]
      && Observations(handler.responses) == Observations(sent) + Displayed(toks, queue)
  {
    PiecesAmount(texts, queue);
    ObservationsAppend(sent, ServeAll(texts, queue).responses);
    if output != "" {
      assert output[|HEADER|..] == Concat(texts);
    }
  }

  // The whole life of a cell.

  /** How the cell ended: what `execute` returned, and whether the process is alive afterwards. */
  datatype CellResult = CellResult(status: Status, hasValue: bool, description: string, alive: bool)

  /** What is looked up when a cell has ended: where packages are, how bytes are decoded, and the frames LLDB sees. */
  datatype Context = Context(installLocation: string, utf8: StackTrace.Utf8, frames: seq<StackFrame.SBFrame>) {
    predicate Fits() {
      forall f :: f in frames ==> f.Fits()
    }
  }

  /** A message to the notebook: a value, an error with its lines, or text that is shown like output. */
  datatype Notice = ResultNotice(text: string) | ErrorNotice(lines: seq<string>) | StreamNotice(text: string)

  datatype Reaction =
    | Reported(notices: seq<Notice>, reply: Option<seq<string>>, exits: bool)   // the error of the reply, if it is one
    | PreprocessorFailed(location: string)   // the error's own words, then where it is
    | Rethrown                               // any other exception
    | KernelStopped                          // a check failed
    | NotYet(loop: Loop)

  /** Nothing is sent, and nothing is wrong. */
  const SILENCE: Reaction := Reported([], None, false)

  function NewErrors(stderr: string): Option<string> {
    if stderr == "" then None else Some(stderr)
  }

  function SourceOf(fetched: CrashMessage.Fetched): Option<(string, int)> {
    if fetched.Fetched? && fetched.source.Some? then Some((fetched.source.value.file, fetched.source.value.line)) else None
  }

  function ShowTrace(at: Context, fetched: CrashMessage.Fetched): Reaction {
    var trace := StackTrace.TraceLines(at.installLocation, at.utf8, SourceOf(fetched), StackFrame.ShownFrames(at.frames));
    if fetched.Trapped? || trace.None? then KernelStopped
    else Reported([ErrorNotice(fetched.lines + trace.value)], Some(fetched.lines + trace.value), false)
  }

  function ShowCompilerOutput(at: Context, description: string): Reaction {
    var formatted := CompileReport.FormatError(at.installLocation, description);
    if formatted.None? then KernelStopped
    else Reported([StreamNotice(Join(formatted.value, '\n')), ErrorNotice([])], formatted, false)
  }

  const KILLED: string := FormatString("Process killed", [31])

  /** What is shown for a report. */
  function Show(report: Report, at: Context, description: string, stderr: string): Reaction {
    match report
    case Value => Reported([ResultNotice(description)], None, false)
    case NoValue => SILENCE
    case Interrupted => SILENCE
    case ProcessKilled => Reported([ErrorNotice([KILLED])], Some([KILLED]), true)
    case StackTrace => ShowTrace(at, CrashMessage.Fetch(NewErrors(stderr)))
    case CompilerOutput => ShowCompilerOutput(at, description)
  }

  /** The end of a cell that was run, with what it wrote to standard output and to the file of errors. */
  function React(loop: Loop, result: CellResult, at: Context, output: string, stderr: string, interrupted: bool): Reaction {
    match loop
    case Finished =>
      Show(ReportOf(result.status, result.hasValue, result.alive, output != "", |stderr|, interrupted),
           at, result.description, stderr)
    case HeaderMissing => KernelStopped
    case _ => NotYet(loop)
  }

  /** The end of a cell that was not run, because of one of its magic commands. */
  function ReactToCommand(outcome: Preprocess.Outcome, cellID: nat): Reaction
    requires !outcome.Text?
  {
    match outcome
    case Thrown(lineIndex) => PreprocessorFailed(StackTrace.LocationLine(Preprocess.CellFile(cellID), lineIndex + 1))
    case Interrupted => SILENCE
    case Exceptional => Rethrown
    case Trapped => KernelStopped
  }

  // What the notebook is told of a cell that was not run.

  lemma CellFileIsPlain(cellID: nat)
    ensures ESC !in Preprocess.CellFile(cellID)
  {
    NoDigit(ESC, cellID);
  }

  /** Where an error is shown to be. */
  ghost predicate LocatedAt(location: string, cellID: nat, line: nat) {
    PaintsAs(location, [], Appearance([Span("Location: ", [36]), Span("<Cell " + Decimal(cellID) + ">", [32]),
                                 Span(", line ", [36]), Span(Decimal(line), [32])]))
  }

  /** The error of a magic command, and the line it is shown to be in. */
  ghost predicate ErrorAt(r: Reaction, cellID: nat, line: nat) {
    r.PreprocessorFailed? && LocatedAt(r.location, cellID, line)
  }

  lemma LocationIsShown(location: string, cellID: nat, line: nat)
    requires location == StackTrace.LocationLine(Preprocess.CellFile(cellID), line)
    ensures ErrorAt(PreprocessorFailed(location), cellID, line)
  {
    CellFileIsPlain(cellID);
    StackTrace.LocationLooks(Preprocess.CellFile(cellID), line);
  }

  lemma ThrownIsLocated(outcome: Preprocess.Outcome, cellID: nat, k: nat)
    requires outcome == Preprocess.Thrown(k)
    ensures ErrorAt(ReactToCommand(outcome, cellID), cellID, k + 1)
  {
    LocationIsShown(ReactToCommand(outcome, cellID).location, cellID, k + 1);
  }

  /** The cell whose error is reported is this one, and the line the first whose command failed. */
  lemma CommandFailureIsLocated(w: Preprocess.World, cellID: nat, code: string) returns (k: nat)
    requires Preprocess.PreprocessCode(w, cellID, code).Thrown?
    ensures Preprocess.FirstFailure(w, cellID, Split(code, '\n'), 0, k)
    ensures ErrorAt(ReactToCommand(Preprocess.PreprocessCode(w, cellID, code), cellID), cellID, k + 1)
  {
    k := Preprocess.FailuresAreReported(w, cellID, code);
    ThrownIsLocated(Preprocess.PreprocessCode(w, cellID, code), cellID, k);
  }

  lemma OneFirstFailure(w: Preprocess.World, cellID: nat, lines: seq<string>, j: nat, k: nat)
    requires Preprocess.FirstFailure(w, cellID, lines, 0, j) && Preprocess.FirstFailure(w, cellID, lines, 0, k)
    ensures j == k
  {
  }

  /**
   * If the first line that fails is an install or system command, the cell is not run, and ends as that command did: in
   * silence when it was interrupted, with an error at that line when it was rejected, and with any other exception thrown on.
   */
  lemma CommandEndsCell(w: Preprocess.World, cellID: nat, code: string, k: nat, command: string, argument: string)
    requires var lines := Split(code, '\n');
      Preprocess.FirstFailure(w, cellID, lines, 0, k) && Preprocess.Writes(lines[k], command, argument)
    requires command in {"%install", "%install-swiftpm-flags", "%install-extra-include-command", "%install-location", "%system"}
    ensures !Preprocess.PreprocessCode(w, cellID, code).Text?
    ensures var r := ReactToCommand(Preprocess.PreprocessCode(w, cellID, code), cellID);
      match w.run(k, command, argument)
      case Done => false
      case Stopped => r == Reported([], None, false)
      case Rejected => ErrorAt(r, cellID, k + 1)
      case Broke => r == Rethrown
  {
    var lines := Split(code, '\n');
    Preprocess.CommandLineRuns(w, cellID, lines[k], command, argument, 0 + k);
    Preprocess.ReplacedExactly(w, cellID, code);
    assert !Preprocess.OutcomeOf(w, cellID, lines, 0, k).Text?;
    var j := Preprocess.FailuresAreReported(w, cellID, code);
    OneFirstFailure(w, cellID, lines, j, k);
    if w.run(k, command, argument).Rejected? {
      var i := CommandFailureIsLocated(w, cellID, code);
      OneFirstFailure(w, cellID, lines, i, k);
    }
  }

  // What the notebook is told of a cell that was run.

  /** It is sent a value exactly when the cell succeeded with one, and then it is the description of that one. */
  ghost predicate ValueIsTold(r: Reaction, result: CellResult) {
    forall text :: r.Reported? && ResultNotice(text) in r.notices <==>
      result.status.Success? && result.hasValue && text == result.description
  }

  /** It is sent nothing exactly when there is nothing to say, or the user interrupted the cell. */
  ghost predicate SilenceIsRight(r: Reaction, result: CellResult, stage: Stage, stderr: string, interrupted: bool) {
    r == Reported([], None, false) <==>
      || (result.status.Success? && !result.hasValue)
      || (result.status.RuntimeError? && result.alive && !stage.Headless? && stderr == "" && interrupted)
  }

  /** The kernel says that the process was killed, and exits, exactly when the cell failed and the process is dead. */
  ghost predicate DeathIsTold(r: Reaction, result: CellResult) {
    && (r.Reported? && r.exits <==> !result.status.Success? && !result.alive)
    && (r.Reported? && r.exits ==> exists line :: SaysKilled(r, line))
  }

  ghost predicate SaysKilled(r: Reaction, line: string) {
    r == Reported([ErrorNotice([line])], Some([line]), true) && PaintsAs(line, [], Styled("Process killed", [31]))
  }

  /** A failed cell of a living process: the compiler's message for one that did not compile or was cut down before its header. */
  ghost predicate FailureIsTold(r: Reaction, result: CellResult, at: Context, stage: Stage, stderr: string, interrupted: bool) {
    !result.status.Success? && result.alive ==>
      if result.status.CompileError? || stage.Headless? then IsCompilerMessage(r, result, at)
      else if stderr == "" && interrupted then r == Reported([], None, false)
      else IsCrashMessage(r, at, stderr)
  }

  ghost predicate IsCompilerMessage(r: Reaction, result: CellResult, at: Context) {
    match CompileReport.FormatError(at.installLocation, result.description)
    case None => r == KernelStopped
    case Some(lines) => r == Reported([StreamNotice(Join(lines, '\n')), ErrorNotice([])], Some(lines), false)
  }

  /** What was found in the errors, and then the frames. */
  ghost predicate IsCrashMessage(r: Reaction, at: Context, stderr: string) {
    match CrashMessage.Fetch(if stderr == "" then None else Some(stderr))
    case Trapped => r == KernelStopped
    case Fetched(message, source) =>
      var location := if source.None? then None else Some((source.value.file, source.value.line));
      match StackTrace.TraceLines(at.installLocation, at.utf8, location, StackFrame.ShownFrames(at.frames))
      case None => r == KernelStopped
      case Some(trace) => exists lines :: r == Reported([ErrorNotice(lines)], Some(lines), false) && lines == message + trace
  }

  ghost predicate IsTold(r: Reaction, result: CellResult, at: Context, stage: Stage, stderr: string, interrupted: bool) {
    && ValueIsTold(r, result) && SilenceIsRight(r, result, stage, stderr, interrupted) && DeathIsTold(r, result)
    && FailureIsTold(r, result, at, stage, stderr, interrupted)
  }

  /** A message about a failure holds no value, and does not end the kernel. */
  predicate TellsOfFailure(r: Reaction) {
    r.Reported? ==> !r.exits && forall notice :: notice in r.notices ==> !notice.ResultNotice?
  }

  lemma FailuresHaveNoValue(at: Context, fetched: CrashMessage.Fetched, description: string)
    ensures TellsOfFailure(ShowTrace(at, fetched)) && TellsOfFailure(ShowCompilerOutput(at, description))
  {
  }

  lemma ValueTold(result: CellResult, at: Context, written: string, stderr: string, interrupted: bool)
    ensures ValueIsTold(React(Finished, result, at, written, stderr, interrupted), result)
  {
    FailuresHaveNoValue(at, CrashMessage.Fetch(NewErrors(stderr)), result.description);
  }

  lemma KilledIsTold(at: Context, description: string, stderr: string)
    ensures SaysKilled(Show(ProcessKilled, at, description, stderr), KILLED)
  {
    PaintFormatted("Process killed", [31]);
  }

  lemma OnlyDeathExits(result: CellResult, at: Context, written: string, stderr: string, interrupted: bool)
    requires result.status.Success? || result.alive
    ensures var r := React(Finished, result, at, written, stderr, interrupted); !(r.Reported? && r.exits)
  {
    FailuresHaveNoValue(at, CrashMessage.Fetch(NewErrors(stderr)), result.description);
  }

  lemma DeathTold(result: CellResult, at: Context, written: string, stderr: string, interrupted: bool)
    ensures DeathIsTold(React(Finished, result, at, written, stderr, interrupted), result)
  {
    if !result.status.Success? && !result.alive {
      KilledIsTold(at, result.description, stderr);
    } else {
      OnlyDeathExits(result, at, written, stderr, interrupted);
    }
  }

  lemma SilenceOrNot(result: CellResult, at: Context, stage: Stage, written: string, stderr: string, interrupted: bool)
    requires written == "" <==> stage.Headless?
    requires result.status.CompileError? ==> stage.Headless?
    ensures var r := React(Finished, result, at, written, stderr, interrupted);
      SilenceIsRight(r, result, stage, stderr, interrupted) && FailureIsTold(r, result, at, stage, stderr, interrupted)
  {
  }

  /**
   * The two levels meet: for every run of the step system that ends a cell, and for the text that the cell wrote, which is
   * empty exactly when it did not compile or was cut down before its header, this is what the notebook is told.
   */
  lemma NotebookIsTold(call: Call, steps: seq<Step>, result: CellResult, at: Context, written: string, stderr: string,
                       interrupted: bool)
    requires CanRun(Start(call), steps) && Run(Start(call), steps).kernel.Returned?
    requires result.status == Run(Start(call), steps).kernel.status
    requires written == "" <==> StageOf(Run(Start(call), steps).client).Headless?
    ensures IsTold(React(Finished, result, at, written, stderr, interrupted), result, at,
                   StageOf(Run(Start(call), steps).client), stderr, interrupted)
  {
    ReachableInv(call, steps);
    var s := Run(Start(call), steps);
    ReturnedIsClassified(s);
    ValueTold(result, at, written, stderr, interrupted);
    DeathTold(result, at, written, stderr, interrupted);
    SilenceOrNot(result, at, StageOf(s.client), written, stderr, interrupted);
  }

  /** What `print` of a plain string literal writes to the terminal. */
  function Printed(statement: string): Option<string> {
    var open, close := "print(\"", "\")";
    if open <= statement && |open| + |close| <= |statement| && statement[|statement| - |close|..] == close then
      var text := statement[|open|..|statement| - |close|];
      if '"' in text || '\\' in text then None else Some(text + "\r\n")
    else None
  }

  lemma HeaderLinePrints()
    ensures Printed(Preprocess.HEADER_LINE) == Some(HEADER)
  {
    var line := Preprocess.HEADER_LINE;
    assert line[|line| - 2..] == "\")";
    assert line[7..|line| - 2] == "HEADER";
    assert "HEADER" + "\r\n" == HEADER;
  }

  /** The header that the kernel looks for is what the first line of every cell prints. */
  lemma HeaderIsPrinted(cellID: nat, preprocessed: string)
    ensures var lines := Split(Preprocess.CodeWithPrefix(cellID, preprocessed), '\n'); Printed(lines[0]) == Some(HEADER)
  {
    var line := Preprocess.HEADER_LINE;
    var rest := Preprocess.LocationDirective(cellID, 0) + "\n" + preprocessed;
    assert Preprocess.CodeWithPrefix(cellID, preprocessed) == line + "\n" + rest;
    SplitCons(line, rest, '\n');
    HeaderLinePrints();
  }

  lemma NoLinesForNothing(stderr: Option<string>)
    ensures var fetched := CrashMessage.Fetch(stderr);
      fetched.Fetched? ==> (fetched.lines == [] <==> stderr.None?)
  {
  }

  class Kernel {
    const handler: StdoutHandler
    var isInterrupted: bool
    var cellID: nat

    /** The file that the LLDB process writes its errors to, and how much of it has been read. */
    var err: string
    var errorStreamEnd: nat

    ghost predicate Valid()
      reads this, handler
    {
      handler.Valid() && errorStreamEnd <= |err|
    }

    constructor (handler: StdoutHandler)
      requires handler.Valid()
      ensures Valid() && this.handler == handler
    {
      this.handler := handler;
      isInterrupted, cellID, err, errorStreamEnd := false, 0, "", 0;
    }

    method GetStderr(readData: bool) returns (r: Option<string>)
      requires Valid()
      modifies this`errorStreamEnd
      ensures Valid() && errorStreamEnd == |err|
      ensures r == if old(errorStreamEnd) == |err| || !readData then None else Some(err[old(errorStreamEnd)..])
    {
      var newErrorStreamEnd := |err|;
      r := if newErrorStreamEnd == errorStreamEnd || !readData then None else Some(err[errorStreamEnd..]);
      errorStreamEnd := newErrorStreamEnd;
    }

    /** What was left by earlier cells: messages, an interrupt, the flag for the header, and unread errors. */
    method Reset(executionCount: nat)
      requires Valid()
      modifies this, handler
      ensures Valid() && errorStreamEnd == |err| && err == old(err) && cellID == executionCount && !isInterrupted
      ensures !handler.hadStdout && handler.messages == [] && handler.Queue() == Concat(old(handler.batches))
      ensures handler.responses == old(handler.responses)
    {
      handler.FlushMessages();
      isInterrupted := false;
      handler.hadStdout := false;
      cellID := executionCount;
      var _ := GetStderr(false);
    }

    /** The message for a cell that failed while it ran. */
    method ReportCrash(at: Context) returns (reaction: Reaction)
      requires Valid() && at.Fits()
      modifies this`errorStreamEnd
      ensures Valid()
      ensures var stderr := err[old(errorStreamEnd)..];
        reaction == if stderr == "" && isInterrupted then SILENCE else ShowTrace(at, CrashMessage.Fetch(NewErrors(stderr)))
    {
      var stderr := GetStderr(true);
      var message := CrashMessage.FetchStderr(stderr);
      NoLinesForNothing(stderr);
      if message.Trapped? {
        return KernelStopped;
      }
      if |message.lines| == 0 && isInterrupted {
        return SILENCE;
      }
      var trace := StackTrace.PrettyPrintStackTrace(at.installLocation, at.utf8, SourceOf(message), at.frames);
      if trace.None? {
        return KernelStopped;
      }
      var lines := message.lines + trace.value;
      reaction := Reported([ErrorNotice(lines)], Some(lines), false);
    }

    /** The branch taken for a failed cell. */
    method ReportError(result: CellResult, at: Context) returns (reaction: Reaction)
      requires Valid() && at.Fits() && !result.status.Success?
      modifies this`errorStreamEnd
      ensures Valid()
      ensures var stderr := err[old(errorStreamEnd)..];
        reaction == Show(ReportOf(result.status, result.hasValue, result.alive, handler.hadStdout, |stderr|, isInterrupted),
                         at, result.description, stderr)
    {
      if !result.alive {
        var message := [FormatString("Process killed", [31])];
        return Reported([ErrorNotice(message)], Some(message), true);
      }
      if handler.hadStdout {
        reaction := ReportCrash(at);
        return;
      }
      var message := CompileReport.FormatCompileError(at.installLocation, result.description);
      if message.None? {
        return KernelStopped;
      }
      return Reported([StreamNotice(Join(message.value, '\n')), ErrorNotice([])], message, false);
    }

    /** The branches of a cell that has ended. */
    method ReportResult(result: CellResult, at: Context) returns (reaction: Reaction)
      requires Valid() && at.Fits()
      modifies this`errorStreamEnd
      ensures Valid()
      ensures var stderr := err[old(errorStreamEnd)..];
        reaction == Show(ReportOf(result.status, result.hasValue, result.alive, handler.hadStdout, |stderr|, isInterrupted),
                         at, result.description, stderr)
    {
      if result.status.Success? {
        reaction := if result.hasValue then Reported([ResultNotice(result.description)], None, false) else SILENCE;
      } else {
        reaction := ReportError(result, at);
      }
    }

    /** A cell whose magic commands are done: it runs, `stderr` is what it adds to the file of errors, and it ends. */
    method RunCell(polls: seq<Poll>, result: CellResult, at: Context, stderr: string, interrupted: bool, ghost written: string)
      returns (reaction: Reaction, loop: Loop, used: nat, ghost texts: seq<string>)
      requires Valid() && at.Fits() && errorStreamEnd == |err| && !handler.hadStdout && ReadsFrom(polls, written)
      modifies this, handler
      ensures Valid() && used <= |polls| && cellID == old(cellID) && err == old(err) + stderr
      ensures loop.Unfinished? ==> used == |polls|
      ensures Outcome(handler, loop, texts, polls, used, old(handler.responses), old(handler.Queue()))
      ensures loop.Finished? ==> Strips(texts, written)
      ensures reaction == React(loop, result, at, written, stderr, interrupted)
    {
      loop, used, texts := PreprocessAndExecute(handler, polls, written);
      ghost var before := err;
      err := err + stderr;
      isInterrupted := interrupted;
      assert err[|before|..] == stderr;
      if loop.HeaderMissing? {
        reaction := KernelStopped;
      } else if !loop.Finished? {
        reaction := NotYet(loop);
      } else {
        reaction := ReportResult(result, at);
      }
    }

    /** The `catch` branches of a cell that is not run. */
    method ReportFailure(outcome: Preprocess.Outcome) returns (reaction: Reaction)
      requires !outcome.Text?
      ensures reaction == ReactToCommand(outcome, cellID)
    {
      match outcome {
        case Thrown(lineIndex) =>
          reaction := PreprocessorFailed(StackTrace.LocationLine(Preprocess.CellFile(cellID), lineIndex + 1));
        case Interrupted =>
          reaction := SILENCE;
        case Exceptional =>
          reaction := Rethrown;
        case Trapped =>
          reaction := KernelStopped;
      }
    }

    /**
     * `doExecute`. What is reported depends on this cell alone: on its magic commands, on what it wrote, and on its own
     * errors. While the loop polls, the cell writes `written`, adds `stderr` to the file of errors and may be interrupted.
     */
    method DoExecute(executionCount: nat, code: string, w: Preprocess.World, polls: seq<Poll>, result: CellResult,
                     at: Context, stderr: string, interrupted: bool, ghost written: string)
      returns (reaction: Reaction, loop: Loop, used: nat, ghost texts: seq<string>)
      requires Valid() && at.Fits() && ReadsFrom(polls, written)
      modifies this, handler
      ensures Valid() && used <= |polls| && cellID == executionCount
      ensures var outcome := Preprocess.PreprocessCode(w, executionCount, code);
        if outcome.Text? then
          && (loop.Unfinished? ==> used == |polls|) && (loop.Finished? ==> Strips(texts, written))
          && Outcome(handler, loop, texts, polls, used, old(handler.responses), Concat(old(handler.batches)))
          && err == old(err) + stderr
          && reaction == React(loop, result, at, written, stderr, interrupted)
        else
          && handler.responses == old(handler.responses) && handler.Queue() == Concat(old(handler.batches))
          && err == old(err) && reaction == ReactToCommand(outcome, executionCount)
    {
      Reset(executionCount);
      var outcome := Preprocess.PreprocessCode(w, cellID, code);
      loop, used, texts := Unfinished, 0, [];
      if outcome.Text? {
        reaction, loop, used, texts := RunCell(polls, result, at, stderr, interrupted, written);
      } else {
        reaction := ReportFailure(outcome);
      }
    }
  }
}
