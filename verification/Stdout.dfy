/**
 * The kernel's reading of the LLDB process's standard output (HandleIO.swift): text, mixed with a marker
 * for each waiting message and with the "clear output" escape sequence.
 */
module Stdout {
  import opened Text
  import opened Messages

  const HEADER: string := "HEADER\r\n"

  datatype MarkerPair = MarkerPair(message: string, clear: string) {

    /** Each holds one NUL, in front, and neither begins with the other: occurrences cannot overlap. */
    ghost predicate Proper() {
      && message != "" && clear != ""
      && message[0] == '\0' && clear[0] == '\0'
      && (forall k :: 0 < k < |message| ==> message[k] != '\0')
      && (forall k :: 0 < k < |clear| ==> clear[k] != '\0')
      && !StartsWith(message, clear) && !StartsWith(clear, message)
    }
  }

  /** The two markers `sendStdout` looks for. */
  type Markers = ms: MarkerPair | ms.Proper() witness
    var pair := MarkerPair("\0m", "\0c");
    assert pair.message[1] == 'm' && pair.clear[1] == 'c';
    pair

  // In a Swift string literal "\033" is NUL followed by "33", as it is in Dafny.
  const SWIFT_MARKERS: Markers :=
    var pair := MarkerPair("\033[>>>\r\n", "\033[2J");
    assert pair.message[4] == '>' && pair.clear[4] == '2';
    pair

  /** One unit of output. */
  datatype Token = Ch(c: char) | Clear | Mark

  function Spelling(ms: Markers, t: Token): (s: string)
    ensures s != ""
  {
    match t
    case Ch(c) => [c]
    case Clear => ms.clear
    case Mark => ms.message
  }

  function Render(ms: Markers, toks: seq<Token>): string {
    if toks == [] then "" else Spelling(ms, toks[0]) + Render(ms, toks[1..])
  }

  predicate StartsWithMarker(ms: Markers, s: string) {
    StartsWith(s, ms.message) || StartsWith(s, ms.clear)
  }

  /** A single pass, left to right. */
  function Tokenize(ms: Markers, s: string): seq<Token>
    decreases |s|
  {
    if s == "" then []
    else if StartsWith(s, ms.message) then [Mark] + Tokenize(ms, s[|ms.message|..])
    else if StartsWith(s, ms.clear) then [Clear] + Tokenize(ms, s[|ms.clear|..])
    else [Ch(s[0])] + Tokenize(ms, s[1..])
  }

  /** No character of the text is the start of something that reads as a marker. */
  predicate Unambiguous(ms: Markers, toks: seq<Token>) {
    forall i :: 0 <= i < |toks| && toks[i].Ch? ==> !StartsWithMarker(ms, Render(ms, toks[i..]))
  }

  /** The token a non-empty text starts with. */
  function Head(ms: Markers, s: string): (t: Token)
    requires s != ""
    ensures StartsWith(s, Spelling(ms, t))
    ensures Tokenize(ms, s) == [t] + Tokenize(ms, s[|Spelling(ms, t)|..])
  {
    if StartsWith(s, ms.message) then Mark else if StartsWith(s, ms.clear) then Clear else Ch(s[0])
  }

  lemma FirstToken(ms: Markers, t: Token, rest: string)
    requires t.Ch? ==> !StartsWithMarker(ms, [t.c] + rest)
    ensures Tokenize(ms, Spelling(ms, t) + rest) == [t] + Tokenize(ms, rest)
  {
    var s, m := Spelling(ms, t) + rest, Spelling(ms, t);
    assert s[|m|..] == rest;
    if t.Clear? && StartsWith(s, ms.message) {
      assert false;
    }
    assert Head(ms, s) == t;
  }

  lemma UnambiguousSplits(ms: Markers, t: Token, rest: seq<Token>)
    ensures Unambiguous(ms, [t] + rest) <==>
      Unambiguous(ms, rest) && (t.Ch? ==> !StartsWithMarker(ms, Render(ms, [t] + rest)))
  {
    var toks := [t] + rest;
    assert toks[0..] == toks;
    assert forall i :: 0 <= i < |rest| ==> rest[i] == toks[i + 1] && rest[i..] == toks[i + 1..];
    if Unambiguous(ms, rest) && (t.Ch? ==> !StartsWithMarker(ms, Render(ms, toks))) {
      forall i | 0 <= i < |toks| && toks[i].Ch? ensures !StartsWithMarker(ms, Render(ms, toks[i..])) {
        if i > 0 {
          assert toks[i..] == rest[i - 1..] && toks[i] == rest[i - 1];
        }
      }
    }
  }

  lemma RenderCons(ms: Markers, t: Token, rest: seq<Token>)
    ensures Render(ms, [t] + rest) == Spelling(ms, t) + Render(ms, rest)
  {
    assert ([t] + rest)[1..] == rest;
  }

  lemma NotReadBack(ms: Markers, t: Token, rest: string, toks: seq<Token>)
    requires t.Ch? && StartsWithMarker(ms, Spelling(ms, t) + rest)
    ensures Tokenize(ms, Spelling(ms, t) + rest) != [t] + toks
  {
    assert !Tokenize(ms, Spelling(ms, t) + rest)[0].Ch?;
  }

  /** Output can be read back if and only if no marker is spelled out in ordinary text. */
  lemma {:induction false} TokenizeRender(ms: Markers, toks: seq<Token>)
    ensures Tokenize(ms, Render(ms, toks)) == toks <==> Unambiguous(ms, toks)
  {
    if toks != [] {
      var t, rest := toks[0], toks[1..];
      assert toks == [t] + rest;
      TokenizeRender(ms, rest);
      UnambiguousSplits(ms, t, rest);
      RenderCons(ms, t, rest);
      if t.Ch? && StartsWithMarker(ms, Spelling(ms, t) + Render(ms, rest)) {
        NotReadBack(ms, t, Render(ms, rest), rest);
      } else {
        FirstToken(ms, t, Render(ms, rest));
        SameTail(t, Tokenize(ms, Render(ms, rest)), rest);
      }
    }
  }

  lemma SameTail<T>(t: T, a: seq<T>, b: seq<T>)
    ensures [t] + a == [t] + b <==> a == b
  {
    assert ([t] + a)[1..] == a && ([t] + b)[1..] == b;
  }

  // The recursion of `sendStdout`.

  datatype Event = Stream(text: string) | ClearOutput | NextMessage

  function EventOf(marker: Token): Event
    requires !marker.Ch?
  {
    if marker.Clear? then ClearOutput else NextMessage
  }

  /** Where `sendStdout` cuts: at the first message marker, else at the first clear marker, else nowhere. */
  datatype Cut = NoCut | Cut(marker: Token, at: nat)

  function FirstCut(ms: Markers, s: string): (c: Cut)
    ensures c.Cut? ==> !c.marker.Ch? && c.at + |Spelling(ms, c.marker)| <= |s|
  {
    var i := Find(s, ms.message);
    if i != -1 then Cut(Mark, i)
    else
      var j := Find(s, ms.clear);
      if j != -1 then Cut(Clear, j) else NoCut
  }

  lemma CutIsAt(ms: Markers, s: string)
    requires FirstCut(ms, s).Cut?
    ensures At(s, Spelling(ms, FirstCut(ms, s).marker), FirstCut(ms, s).at)
  {
    if Find(s, ms.message) != -1 {
      FindIsAt(s, ms.message);
    } else {
      FindIsAt(s, ms.clear);
    }
  }

  /** What `sendStdout` does, in order: the part before the cut, the marker's own action, the part after it. */
  function Events(ms: Markers, s: string): seq<Event>
    decreases |s|
  {
    var c := FirstCut(ms, s);
    if c.NoCut? then [Stream(s)]
    else Events(ms, s[..c.at]) + ([EventOf(c.marker)] + Events(ms, s[c.at + |Spelling(ms, c.marker)|..]))
  }

  /** `t` in front of events that begin with a chunk of text. */
  function Push(t: Token, r: seq<Event>): (whole: seq<Event>)
    requires |r| > 0 && r[0].Stream?
    ensures |whole| > 0 && whole[0].Stream?
  {
    if t.Ch? then [Stream([t.c] + r[0].text)] + r[1..] else [Stream("")] + ([EventOf(t)] + r)
  }

  /** A chunk of text, possibly empty, before, between and after the markers. */
  function Chunks(toks: seq<Token>): (r: seq<Event>)
    ensures |r| > 0 && r[0].Stream?
  {
    if toks == [] then [Stream("")] else Push(toks[0], Chunks(toks[1..]))
  }

  lemma PushAppend(t: Token, r: seq<Event>, e: seq<Event>)
    requires |r| > 0 && r[0].Stream?
    ensures Push(t, r + e) == Push(t, r) + e
  {
    assert (r + e)[1..] == r[1..] + e;
  }

  lemma {:induction false} ChunksAppend(a: seq<Token>, marker: Token, b: seq<Token>)
    requires !marker.Ch?
    ensures Chunks(a + [marker] + b) == Chunks(a) + ([EventOf(marker)] + Chunks(b))
  {
    var whole := a + [marker] + b;
    if a == [] {
      assert whole[0] == marker && whole[1..] == b;
    } else {
      ChunksAppend(a[1..], marker, b);
      assert whole[0] == a[0] && whole[1..] == a[1..] + [marker] + b;
      PushAppend(a[0], Chunks(a[1..]), [EventOf(marker)] + Chunks(b));
    }
  }

  /** An occurrence of a marker is never inside another one. */
  lemma NoOverlap(ms: Markers, a: string, marker: Token, b: string)
    requires !marker.Ch? && a != ""
    ensures var s := a + (Spelling(ms, marker) + b);
      |Spelling(ms, Head(ms, s))| <= |a| && Head(ms, s) == Head(ms, a)
  {
    var s := a + (Spelling(ms, marker) + b);
    assert s[|a|] == Spelling(ms, marker)[0] == '\0';
    assert forall k :: 0 <= k < |a| ==> s[k] == a[k];
  }

  ghost predicate ReadsAs(ms: Markers, s: string, toks: seq<Token>) {
    Tokenize(ms, s) == toks
  }

  lemma ReadsHead(ms: Markers, s: string, toks: seq<Token>)
    requires s != "" && ReadsAs(ms, s[|Spelling(ms, Head(ms, s))|..], toks)
    ensures ReadsAs(ms, s, [Head(ms, s)] + toks)
  {
  }

  /** A marker cuts the reading of a text in two wherever it occurs. */
  lemma {:induction false} TokenizeAround(ms: Markers, a: string, marker: Token, b: string)
    requires !marker.Ch?
    ensures ReadsAs(ms, a + (Spelling(ms, marker) + b), Tokenize(ms, a) + ([marker] + Tokenize(ms, b)))
    decreases |a|
  {
    if a == "" {
      FirstToken(ms, marker, b);
      assert a + (Spelling(ms, marker) + b) == Spelling(ms, marker) + b;
      assert [] + ([marker] + Tokenize(ms, b)) == [marker] + Tokenize(ms, b);
    } else {
      var rest := a[|Spelling(ms, Head(ms, a))|..];
      TokenizeAround(ms, rest, marker, b);
      NoOverlap(ms, a, marker, b);
      var s := a + (Spelling(ms, marker) + b);
      assert s[|Spelling(ms, Head(ms, a))|..] == rest + (Spelling(ms, marker) + b);
      ReadsHead(ms, s, Tokenize(ms, rest) + ([marker] + Tokenize(ms, b)));
      Associative([Head(ms, a)], Tokenize(ms, rest), [marker] + Tokenize(ms, b));
    }
  }

  lemma Associative<T>(a: seq<T>, b: seq<T>, c: seq<T>)
    ensures a + (b + c) == (a + b) + c
  {
  }

  lemma {:induction false} TokenizePlain(ms: Markers, s: string)
    requires Find(s, ms.message) == -1 && Find(s, ms.clear) == -1
    ensures Chunks(Tokenize(ms, s)) == [Stream(s)]
  {
    if s != "" {
      assert s[0..] == s;
      NotFoundInTail(s, ms.message);
      NotFoundInTail(s, ms.clear);
      TokenizePlain(ms, s[1..]);
      assert s == [s[0]] + s[1..];
    }
  }

  lemma NotFoundInTail(s: string, p: string)
    requires s != "" && Find(s, p) == -1
    ensures !StartsWith(s, p) && Find(s[1..], p) == -1
  {
    assert s[0..] == s;
    if StartsWith(s, p) {
      FindIsLeftmost(s, p, 0);
    }
    var i := Find(s[1..], p);
    if i != -1 {
      FindIsAt(s[1..], p);
      AtTail(s, p, i);
      FindIsLeftmost(s, p, i + 1);
    }
  }

  lemma AtTail(s: string, p: string, i: nat)
    requires s != ""
    ensures At(s[1..], p, i) ==> At(s, p, i + 1)
  {
    if i <= |s[1..]| {
      assert s[1..][i..] == s[i + 1..];
    }
  }

  /** One pass over `s`, as a list of events. */
  function Scan(ms: Markers, s: string): seq<Event> {
    Chunks(Tokenize(ms, s))
  }

  lemma CutAt(s: string, p: string, i: nat)
    requires At(s, p, i)
    ensures s == s[..i] + (p + s[i + |p|..])
  {
    assert s[i..] == p + s[i..][|p|..];
    assert s[i..][|p|..] == s[i + |p|..];
  }

  /** The pass splits in two at any marker, so in particular where `sendStdout` cuts. */
  lemma ScanAround(ms: Markers, s: string, marker: Token, i: nat)
    requires !marker.Ch? && At(s, Spelling(ms, marker), i)
    ensures Scan(ms, s) == Scan(ms, s[..i]) + ([EventOf(marker)] + Scan(ms, s[i + |Spelling(ms, marker)|..]))
  {
    var a, b := Tokenize(ms, s[..i]), Tokenize(ms, s[i + |Spelling(ms, marker)|..]);
    TokenizeAround(ms, s[..i], marker, s[i + |Spelling(ms, marker)|..]);
    CutAt(s, Spelling(ms, marker), i);
    ChunksAppend(a, marker, b);
    Associative(a, [marker], b);
  }

  ghost predicate ScansAs(ms: Markers, s: string, events: seq<Event>) {
    Scan(ms, s) == events
  }

  lemma ScansAround(ms: Markers, s: string, marker: Token, i: nat, before: seq<Event>, after: seq<Event>)
    requires !marker.Ch? && At(s, Spelling(ms, marker), i)
    requires ScansAs(ms, s[..i], before) && ScansAs(ms, s[i + |Spelling(ms, marker)|..], after)
    ensures ScansAs(ms, s, before + ([EventOf(marker)] + after))
  {
    ScanAround(ms, s, marker, i);
  }

  lemma ScansWithoutCut(ms: Markers, s: string)
    requires FirstCut(ms, s).NoCut?
    ensures Agrees(ms, s)
  {
    TokenizePlain(ms, s);
  }

  /** `s` is passed over by the recursion as by the single pass. */
  ghost predicate Agrees(ms: Markers, s: string) {
    ScansAs(ms, s, Events(ms, s))
  }

  lemma AgreesWithCut(ms: Markers, s: string, c: Cut, before: string, after: string)
    requires c == FirstCut(ms, s) && c.Cut?
    requires before == s[..c.at] && after == s[c.at + |Spelling(ms, c.marker)|..] && Agrees(ms, before) && Agrees(ms, after)
    ensures Agrees(ms, s)
  {
    var e := Events(ms, before) + ([EventOf(c.marker)] + Events(ms, after));
    ScansWithCut(ms, s, c, Events(ms, before), Events(ms, after));
    assert Events(ms, s) == e;
  }

  lemma ScansWithCut(ms: Markers, s: string, c: Cut, before: seq<Event>, after: seq<Event>)
    requires c == FirstCut(ms, s) && c.Cut?
    requires ScansAs(ms, s[..c.at], before) && ScansAs(ms, s[c.at + |Spelling(ms, c.marker)|..], after)
    ensures ScansAs(ms, s, before + ([EventOf(c.marker)] + after))
  {
    CutIsAt(ms, s);
    ScansAround(ms, s, c.marker, c.at, before, after);
  }

  /** The message-marker-first recursion does exactly what one left-to-right pass over both markers does. */
  lemma {:induction false} RecursionIsScan(ms: Markers, s: string)
    ensures Agrees(ms, s)
    decreases |s|
  {
    var c := FirstCut(ms, s);
    if c.NoCut? {
      ScansWithoutCut(ms, s);
    } else {
      var before, after := s[..c.at], s[c.at + |Spelling(ms, c.marker)|..];
      RecursionIsScan(ms, before);
      RecursionIsScan(ms, after);
      AgreesWithCut(ms, s, c, before, after);
    }
  }

  /** The tokens behind a list of events: empty chunks vanish and neighbouring text runs together. */
  function Flatten(events: seq<Event>): seq<Token> {
    if events == [] then []
    else TokensOf(events[0]) + Flatten(events[1..])
  }

  function Characters(text: string): (toks: seq<Token>)
    ensures |toks| == |text|
  {
    if text == "" then [] else [Ch(text[0])] + Characters(text[1..])
  }

  /** No text is lost, moved or invented, and there is one event for each marker. */
  lemma {:induction false} FlattenChunks(toks: seq<Token>)
    ensures Flatten(Chunks(toks)) == toks
  {
    if toks != [] {
      FlattenChunks(toks[1..]);
      FlattenPush(toks[0], Chunks(toks[1..]));
      assert toks == [toks[0]] + toks[1..];
    }
  }

  lemma FlattenPush(t: Token, r: seq<Event>)
    requires |r| > 0 && r[0].Stream?
    ensures Flatten(Push(t, r)) == [t] + Flatten(r)
  {
    if t.Ch? {
      var text := [t.c] + r[0].text;
      assert Characters(text) == [t] + Characters(r[0].text) by { assert text[1..] == r[0].text; }
      FlattenCons(Stream(text), r[1..]);
      Associative([t], Characters(r[0].text), Flatten(r[1..]));
    } else {
      FlattenCons(EventOf(t), r);
      FlattenCons(Stream(""), [EventOf(t)] + r);
    }
  }

  function TokensOf(e: Event): seq<Token> {
    match e
    case Stream(text) => Characters(text)
    case ClearOutput => [Clear]
    case NextMessage => [Mark]
  }

  lemma FlattenCons(e: Event, rest: seq<Event>)
    ensures Flatten([e] + rest) == TokensOf(e) + Flatten(rest)
  {
    assert ([e] + rest)[1..] == rest;
  }

  // Serving the messages.

  /** What the client of the notebook sees. */
  datatype Response = StreamText(text: string) | ClearedOutput | Executed(m: Message)

  /** What came of some events: the responses, the messages not yet taken, and whether one was awaited in vain. */
  datatype Served = Served(responses: seq<Response>, left: seq<Message>, blocked: bool) {
    function Before(r: Response): Served { this.(responses := [r] + responses) }

    function After(earlier: seq<Response>): Served { this.(responses := earlier + responses) }
  }

  function QueueAfter(e: Event, queue: seq<Message>): seq<Message>
    requires e.NextMessage? ==> queue != []
  {
    if e.NextMessage? then queue[1..] else queue
  }

  function ResponseTo(e: Event, queue: seq<Message>): Response
    requires e.NextMessage? ==> queue != []
  {
    match e
    case Stream(text) => StreamText(text)
    case ClearOutput => ClearedOutput
    case NextMessage => Executed(queue[0])
  }

  /** Each message marker takes the next message of the queue; without one, everything stops there. */
  function Serve(events: seq<Event>, queue: seq<Message>): Served {
    if events == [] then Served([], queue, false)
    else if events[0].NextMessage? && queue == [] then Served([], [], true)
    else Serve(events[1..], QueueAfter(events[0], queue)).Before(ResponseTo(events[0], queue))
  }

  function MarkCount(events: seq<Event>): nat {
    if events == [] then 0 else (if events[0].NextMessage? then 1 else 0) + MarkCount(events[1..])
  }

  function Executions(responses: seq<Response>): seq<Message> {
    if responses == [] then []
    else (if responses[0].Executed? then [responses[0].m] else []) + Executions(responses[1..])
  }

  /** The k-th marker executes the k-th message; the kernel waits for ever exactly when messages run out. */
  lemma {:induction false} KthMarkTakesKthMessage(events: seq<Event>, queue: seq<Message>)
    ensures var n, r := MarkCount(events), Serve(events, queue);
      && (r.blocked <==> n > |queue|)
      && (n <= |queue| ==> Executions(r.responses) == queue[..n] && r.left == queue[n..])
      && (n > |queue| ==> Executions(r.responses) == queue)
  {
    if events != [] && !(events[0].NextMessage? && queue == []) {
      var q := QueueAfter(events[0], queue);
      KthMarkTakesKthMessage(events[1..], q);
      var r := Serve(events[1..], q);
      ExecutionsCons(ResponseTo(events[0], queue), r.responses);
      if events[0].NextMessage? {
        assert queue == [queue[0]] + q;
      }
    }
  }

  lemma ExecutionsCons(r: Response, rest: seq<Response>)
    ensures Executions([r] + rest) == (if r.Executed? then [r.m] else []) + Executions(rest)
  {
    assert ([r] + rest)[1..] == rest;
  }

  lemma {:induction false} ServeAppend(a: seq<Event>, b: seq<Event>, queue: seq<Message>)
    ensures
      var first := Serve(a, queue);
      Serve(a + b, queue) == if first.blocked then first else Serve(b, first.left).After(first.responses)
  {
    if a == [] {
      assert a + b == b;
      assert [] + Serve(b, queue).responses == Serve(b, queue).responses;
    } else {
      assert (a + b)[0] == a[0] && (a + b)[1..] == a[1..] + b;
      if !(a[0].NextMessage? && queue == []) {
        var r, q := ResponseTo(a[0], queue), QueueAfter(a[0], queue);
        ServeAppend(a[1..], b, q);
        var first := Serve(a[1..], q);
        Associative([r], first.responses, Serve(b, first.left).responses);
      }
    }
  }

  lemma ServeCut(before: seq<Event>, e: Event, after: seq<Event>, queue: seq<Message>)
    ensures
      var first := Serve(before, queue);
      Serve(before + ([e] + after), queue) ==
      if first.blocked then first
      else if e.NextMessage? && first.left == [] then Served(first.responses, [], true)
      else Serve(after, QueueAfter(e, first.left)).After(first.responses + [ResponseTo(e, first.left)])
  {
    var first := Serve(before, queue);
    ServeAppend(before, [e] + after, queue);
    assert ([e] + after)[1..] == after;
    if !first.blocked && !(e.NextMessage? && first.left == []) {
      Associative(first.responses, [ResponseTo(e, first.left)], Serve(after, QueueAfter(e, first.left)).responses);
    }
  }

  lemma {:induction false} ExecutionsAppend(a: seq<Response>, b: seq<Response>)
    ensures Executions(a + b) == Executions(a) + Executions(b)
  {
    if a == [] {
      assert a + b == b;
    } else {
      ExecutionsAppend(a[1..], b);
      assert a + b == [a[0]] + (a[1..] + b);
      ExecutionsCons(a[0], a[1..] + b);
      Associative(if a[0].Executed? then [a[0].m] else [], Executions(a[1..]), Executions(b));
    }
  }

  /** What `get_stdout` hands over until it first returns nothing. */
  function Available(segments: seq<string>): string {
    if segments == [] || segments[0] == "" then "" else segments[0] + Available(segments[1..])
  }

  /** That is everything before the first empty segment. */
  lemma {:induction false} AvailableIsFirst(segments: seq<string>) returns (n: nat)
    ensures n <= |segments| && Available(segments) == Concat(segments[..n]) && "" !in segments[..n]
    ensures n == |segments| || segments[n] == ""
  {
    if segments == [] || segments[0] == "" {
      return 0;
    }
    n := AvailableIsFirst(segments[1..]);
    n := n + 1;
    assert segments[..n] == [segments[0]] + segments[1..][..n - 1];
    assert segments[..n][1..] == segments[1..][..n - 1];
  }

  /** What sending `stdout` comes to, when `queue` holds the messages still to be executed. */
  ghost predicate ServesAs(stdout: string, queue: seq<Message>, served: Served) {
    Serve(Scan(SWIFT_MARKERS, stdout), queue) == served
  }

  lemma ServesPlain(stdout: string, queue: seq<Message>)
    requires FirstCut(SWIFT_MARKERS, stdout).NoCut?
    ensures ServesAs(stdout, queue, Served([StreamText(stdout)], queue, false))
  {
    TokenizePlain(SWIFT_MARKERS, stdout);
  }

  lemma ServesCut(stdout: string, cut: Cut, queue: seq<Message>, first: Served, second: Served) returns (whole: Served)
    requires cut == FirstCut(SWIFT_MARKERS, stdout) && cut.Cut?
    requires ServesAs(stdout[..cut.at], queue, first)
    requires var e := EventOf(cut.marker); !first.blocked && !(e.NextMessage? && first.left == []) ==>
      ServesAs(stdout[cut.at + |Spelling(SWIFT_MARKERS, cut.marker)|..], QueueAfter(e, first.left), second)
    ensures ServesAs(stdout, queue, whole)
    ensures var e := EventOf(cut.marker);
      whole == if first.blocked then first
               else if e.NextMessage? && first.left == [] then Served(first.responses, [], true)
               else second.After(first.responses + [ResponseTo(e, first.left)])
  {
    var before, after := stdout[..cut.at], stdout[cut.at + |Spelling(SWIFT_MARKERS, cut.marker)|..];
    CutIsAt(SWIFT_MARKERS, stdout);
    ScanAround(SWIFT_MARKERS, stdout, cut.marker, cut.at);
    ServeCut(Scan(SWIFT_MARKERS, before), EventOf(cut.marker), Scan(SWIFT_MARKERS, after), queue);
    whole := Serve(Scan(SWIFT_MARKERS, stdout), queue);
  }

  /** Any call that is encoded as `m` accepts `r`, and one that waits for an answer is told this one. */
  ghost predicate AnswersOne(r: Reply, m: Message, answer: Content) {
    && r.call == m.call && Executable(m)
    && forall call: Call :: call.Encode(m.call) == m ==>
         call.Accepts(r) && (call.BlockingRequest? ==> Tells(call.Decode(r), answer))
  }

  lemma ExecuteAnswers(m: Message, answer: Content)
    requires Executable(m)
    ensures AnswersOne(ExecuteMessage(m, answer), m, answer)
  {
    forall call: Call | call.Encode(m.call) == m
      ensures var r := ExecuteMessage(m, answer);
        call.Accepts(r) && (call.BlockingRequest? ==> Tells(call.Decode(r), answer))
    {
      AnswerComesBack(call, m.call, answer);
    }
  }

  /** `r` answers exactly the messages `ms`, one reply each, in order. */
  ghost predicate Answers(r: seq<Reply>, ms: seq<Message>, answers: Message -> Content) {
    |r| == |ms| && forall k :: 0 <= k < |ms| ==> AnswersOne(r[k], ms[k], answers(ms[k]))
  }

  lemma Regroup<T>(a: seq<T>, b: seq<T>, c: seq<T>, d: seq<T>)
    ensures a + b + c + d == a + ((b + c) + d)
  {
  }

  datatype Ending = Returned | AwaitsMessage | NoHeader

  /** The kernel's side of standard output. */
  class StdoutHandler {
    var messages: seq<Message>
    var hadStdout: bool

    /** What the coming `recv` calls will return, in order; an empty batch is a cache miss. */
    var batches: seq<seq<Message>>

    /** Everything sent to the notebook, and everything sent back to the LLDB process. */
    var responses: seq<Response>
    var replies: seq<Reply>

    const answers: Message -> Content

    /** Messages taken from the pipe but not executed, then messages still in the pipe. */
    function Queue(): seq<Message>
      reads this
    {
      messages + Concat(batches)
    }

    /** Every message executed so far has been answered, once and in turn. */
    ghost predicate Valid()
      reads this
    {
      && (forall m :: m in Queue() ==> Executable(m))
      && Answers(replies, Executions(responses), answers)
    }

    constructor (batches: seq<seq<Message>>, answers: Message -> Content)
      requires forall m :: m in Concat(batches) ==> Executable(m)
      ensures Valid() && Queue() == Concat(batches) && !hadStdout && responses == [] && replies == []
      ensures this.answers == answers
    {
      messages, hadStdout, responses, replies := [], false, [], [];
      this.batches, this.answers := batches, answers;
      new;
      assert [] + Concat(batches) == Concat(batches);
    }

    method ExecuteNextMessage() returns (ending: Ending)
      requires Valid()
      modifies this
      ensures Valid() && hadStdout == old(hadStdout)
      ensures ending == if old(Queue()) == [] then AwaitsMessage else Returned
      ensures ending.AwaitsMessage? ==> Queue() == [] && responses == old(responses)
      ensures ending.Returned? ==>
        Queue() == old(Queue()[1..]) && responses == old(responses) + [Executed(old(Queue()[0]))]
    {
      ghost var queue := Queue();
      while |messages| == 0
        invariant Queue() == queue && unchanged(`hadStdout, `responses, `replies)
        decreases |batches|
      {
        if batches == [] {
          return AwaitsMessage;
        }
        messages, batches := batches[0], batches[1..];
      }
      assert messages[0] == queue[0] && queue[0] in queue;
      ExecutionsAppend(responses, [Executed(messages[0])]);
      responses := responses + [Executed(messages[0])];
      ExecuteAnswers(messages[0], answers(messages[0]));
      replies := replies + [ExecuteMessage(messages[0], answers(messages[0]))];
      messages := messages[1..];
      assert Queue() == queue[1..];
      return Returned;
    }

    method SendResponse(r: Response)
      requires Valid() && !r.Executed?
      modifies this`responses
      ensures Valid() && responses == old(responses) + [r]
    {
      ExecutionsAppend(responses, [r]);
      responses := responses + [r];
    }

    /** What a marker asks for. */
    method Act(marker: Token) returns (ending: Ending)
      requires Valid() && !marker.Ch?
      modifies this
      ensures Valid() && hadStdout == old(hadStdout)
      ensures ending == if marker.Mark? && old(Queue()) == [] then AwaitsMessage else Returned
      ensures ending.AwaitsMessage? ==> Queue() == [] && responses == old(responses)
      ensures ending.Returned? ==>
        && Queue() == QueueAfter(EventOf(marker), old(Queue()))
        && responses == old(responses) + [ResponseTo(EventOf(marker), old(Queue()))]
    {
      if marker.Mark? {
        ending := ExecuteNextMessage();
      } else {
        SendResponse(ClearedOutput);
        ending := Returned;
      }
    }

    /** The part before the marker, the marker's action, the part after it. */
    method WithRange(stdout: string, cut: Cut) returns (ending: Ending, ghost served: Served)
      requires Valid() && cut == FirstCut(SWIFT_MARKERS, stdout) && cut.Cut?
      modifies this
      ensures Valid() && hadStdout == old(hadStdout)
      ensures ServesAs(stdout, old(Queue()), served)
      ensures responses == old(responses) + served.responses && Queue() == served.left
      ensures ending == if served.blocked then AwaitsMessage else Returned
      decreases |stdout|, 0
    {
      ghost var queue := Queue();
      ghost var first, second;
      ending, first := SendStdout(stdout[..cut.at]);
      if ending.AwaitsMessage? {
        served := ServesCut(stdout, cut, queue, first, first);
        return;
      }
      ending := Act(cut.marker);
      if ending.AwaitsMessage? {
        served := ServesCut(stdout, cut, queue, first, first);
        return;
      }
      ghost var sent := responses;
      ending, second := SendStdout(stdout[cut.at + |Spelling(SWIFT_MARKERS, cut.marker)|..]);
      served := ServesCut(stdout, cut, queue, first, second);
      Regroup(old(responses), first.responses, [ResponseTo(EventOf(cut.marker), first.left)], second.responses);
    }

    /**
     * The notebook sees the text and the markers of `stdout` in the order of one left-to-right pass, the
     * k-th message marker executes and answers the k-th message not yet executed, and the rest of the
     * queue is untouched.  The call does not come back exactly when the messages run out.
     */
    method SendStdout(stdout: string) returns (ending: Ending, ghost served: Served)
      requires Valid()
      modifies this
      ensures Valid() && hadStdout == old(hadStdout)
      ensures ServesAs(stdout, old(Queue()), served)
      ensures responses == old(responses) + served.responses && Queue() == served.left
      ensures ending == if served.blocked then AwaitsMessage else Returned
      decreases |stdout|, 1
    {
      var cut := FirstCut(SWIFT_MARKERS, stdout);
      if cut.Cut? {
        ending, served := WithRange(stdout, cut);
      } else {
        ServesPlain(stdout, Queue());
        served := Served([StreamText(stdout)], Queue(), false);
        SendResponse(StreamText(stdout));
        ending := Returned;
      }
    }

    method GetStdout(segments: seq<string>) returns (stdout: string)
      ensures stdout == Available(segments)
    {
      stdout := "";
      var i := 0;
      while true
        invariant 0 <= i <= |segments|
        invariant Available(segments) == stdout + Available(segments[i..])
        decreases |segments| - i
      {
        if i == |segments| || |segments[i]| == 0 {
          break;
        }
        Associative(stdout, segments[i], Available(segments[i + 1..]));
        assert segments[i..][1..] == segments[i + 1..];
        stdout := stdout + segments[i];
        i := i + 1;
      }
      assert stdout + "" == stdout;
    }

    /** One poll: the first output of a cell must open with the header, which is dropped and remembered. */
    method GetAndSendStdout(segments: seq<string>) returns (ending: Ending)
      requires Valid()
      modifies this
      ensures Valid()
      ensures
        var stdout := Available(segments);
        var header := stdout != "" && !old(hadStdout);
        var body := if header && StartsWith(stdout, HEADER) then stdout[|HEADER|..] else stdout;
        var served := Serve(Scan(SWIFT_MARKERS, body), old(Queue()));
        if stdout == "" then
          ending == Returned && hadStdout == old(hadStdout) && Queue() == old(Queue()) && responses == old(responses)
        else if header && !StartsWith(stdout, HEADER) then
          ending == NoHeader && !hadStdout && Queue() == old(Queue()) && responses == old(responses)
        else
          && hadStdout
          && responses == old(responses) + served.responses
          && Queue() == served.left
          && ending == if served.blocked then AwaitsMessage else Returned
    {
      var stdout := GetStdout(segments);
      if |stdout| > 0 {
        if !hadStdout {
          if !StartsWith(stdout, HEADER) {
            return NoHeader;
          }
          stdout := stdout[|HEADER|..];
          hadStdout := true;
        }
        ghost var served;
        ending, served := SendStdout(stdout);
        return;
      }
      return Returned;
    }

    /** Before a cell. */
    method FlushMessages()
      requires Valid()
      modifies this`messages
      ensures Valid() && messages == [] && Queue() == Concat(batches)
    {
      messages := [];
      assert forall m :: m in Concat(batches) ==> m in old(Queue());
      assert Queue() == Concat(batches);
    }
  }
}
