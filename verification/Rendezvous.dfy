/**
 * The rendezvous between the LLDB process, the background thread that runs a cell in it, and the kernel
 * that polls its output.  Every step below is atomic in the source; steps of the parties interleave in any order.
 * A call that was waiting when its cell was cut down goes on polling, in that cell and in later ones.
 *
 * Assumed of the environment: a cell makes one call at a time; a frame is written whole; output read by
 * one poll ends neither inside a marker nor inside the header; the header is printed whole, by the standard
 * library's `print`; ordinary text does not spell a marker (see Stdout.TokenizeRender); output printed before
 * `execute` returns is visible to the next `get_stdout`; nothing prints between two cells; and a left-over
 * caller that gets a reply does nothing more.
 */
module Rendezvous {
  import opened Messages
  import opened Stdout
  import opened Wrappers

  datatype Status = Success | RuntimeError | CompileError

  /** How far the cell had come when it ended: before its header, between calls, or in a call. */
  datatype Stage = Headless | BetweenCalls | Unsent | Sent

  /** The cell's code in the LLDB process. */
  datatype Client =
    | NotStarted
    | Begun                                   // compiled and started, header not yet printed
    | Running
    | Marked                                  // start marker printed, frame not yet sent
    | Waiting                                 // frame sent, polling for the reply
    | Ended(status: Status, stage: Stage)     // `execute` has returned

  /** The kernel's polling loop; `seen` is what it read of the shared result before draining. */
  datatype Kernel =
    | Sleeping
    | Draining(seen: bool)
    | Sending(seen: bool, pending: seq<Token>)
    | Replying(seen: bool, pending: seq<Token>, reply: Reply)
    | Removing(seen: bool, pending: seq<Token>)
    | Returned(status: Status)

  datatype Caller = Caller(call: Call, number: nat)

  /** A reply taken from the pipe, and who took it. */
  datatype Delivery = Delivery(caller: Caller, reply: Reply) {
    /** The caller got the reply to its own request, of the kind its decoder checks. */
    predicate Own() {
      reply.call == caller.number && caller.call.Accepts(reply)
    }
  }

  /** One thing the notebook's user can observe. */
  datatype Observation = Shown(c: char) | Cleared | Asked(m: Message)

  datatype State = State(
    // the LLDB process
    client: Client,
    call: Call,                 // the latest call, and how many there were before it
    number: nat,
    header: seq<Token>,         // what the cell prints first and the kernel looks for
    out: seq<Token>,            // output not yet drained
    received: seq<Delivery>,
    leftOver: seq<Caller>,      // callers of earlier cells that still poll
    robbed: bool,               // one of them took the reply to this cell's call
    // the pipes of this cell's generation
    requests: seq<Message>,
    replies: seq<Reply>,
    // shared under the mutex
    result: Option<Status>,
    // the kernel
    kernel: Kernel,
    messages: seq<Message>,
    hadStdout: bool,
    broken: bool,               // a `precondition` failed, on either side: nothing more happens
    // what the program did and what the notebook saw, since the cell began
    issued: seq<Observation>,
    sent: seq<Observation>)

  datatype Step =
    // the LLDB process
    | Compile(ok: bool) | PrintHeader | Print(t: Token) | Begin(next: Call) | SendFrame | Receive | Finish | Crash
    // callers of earlier cells
    | Steal(k: nat) | Perish(k: nat)
    // the background thread
    | Publish
    // the kernel
    | Observe | Drain(n: nat) | Emit | Fetch | Execute(answer: Content) | Answer | Remove | EndPoll
    // between two cells
    | NextCell

  /** The state in which a cell starts, with the calls made and the callers left over by earlier ones. */
  function Initial(header: seq<Token>, call: Call, number: nat, leftOver: seq<Caller>): State {
    State(NotStarted, call, number, header, [], [], leftOver, false, [], [], None, Sleeping, [], false, false, [], [])
  }

  /** The first cell. */
  function Start(call: Call): State {
    Initial(Characters(HEADER), call, 0, [])
  }

  function Current(s: State): Message {
    s.call.Encode(s.number)
  }

  predicate Ongoing(c: Client) {
    c.Begun? || c.Running? || c.Marked? || c.Waiting?
  }

  function StageOf(c: Client): Stage {
    match c
    case Marked => Unsent
    case Waiting => Sent
    case Running => BetweenCalls
    case Ended(_, stage) => stage
    case _ => Headless
  }

  /** The latest call polls for its reply, the cell being over or not. */
  predicate FrameSent(s: State) {
    StageOf(s.client).Sent?
  }

  predicate Outstanding(s: State) {
    StageOf(s.client).Sent? || StageOf(s.client).Unsent?
  }

  /** The kernel has come to a start marker. */
  predicate AtMark(k: Kernel) {
    k.Sending? && k.pending != [] && k.pending[0].Mark?
  }

  predicate Enabled(s: State, step: Step) {
    !s.broken &&
    match step
    case Compile(_) => s.client.NotStarted?
    case PrintHeader => s.client.Begun?
    case Print(t) => s.client.Running? && !t.Mark?
    case Begin(_) => s.client.Running?
    case SendFrame => s.client.Marked?
    case Receive => FrameSent(s) && s.replies != []
    case Finish => s.client.Running?
    case Crash => Ongoing(s.client)
    case Steal(k) => k < |s.leftOver| && s.replies != []
    case Perish(k) => k < |s.leftOver|
    case Publish => s.client.Ended? && s.result.None?
    case Observe => s.kernel.Sleeping?
    case Drain(n) =>
      && s.kernel.Draining? && n <= |s.out|
      && (s.client.Ended? ==> n == |s.out|)
      && (!s.hadStdout && n > 0 ==> n >= |s.header|)
    case Emit => s.kernel.Sending? && s.kernel.pending != [] && !s.kernel.pending[0].Mark?
    case Fetch => AtMark(s.kernel) && s.messages == []
    case Execute(_) => AtMark(s.kernel) && s.messages != [] && Executable(s.messages[0])
    case Answer => s.kernel.Replying?
    case Remove => s.kernel.Removing? && s.messages != [] && s.kernel.pending != []
    case EndPoll => s.kernel.Sending? && s.kernel.pending == [] && (s.kernel.seen ==> s.result.Some?)
    case NextCell => s.kernel.Returned?
  }

  /** `k`-th caller of an earlier cell takes what is in the reply pipe. */
  function DoSteal(s: State, k: nat): State
    requires k < |s.leftOver| && s.replies != []
  {
    var thief := s.leftOver[k];
    s.(leftOver := s.leftOver[..k] + s.leftOver[k + 1..], robbed := true,
       replies := [], received := s.received + [Delivery(thief, s.replies[0])],
       broken := |s.replies| > 1 || !thief.call.Accepts(s.replies[0]))
  }

  /** Who goes on polling after this cell. */
  function LeftOver(s: State): seq<Caller> {
    s.leftOver + if FrameSent(s) then [Caller(s.call, s.number)] else []
  }

  function See(t: Token, m: Message): Observation {
    match t
    case Ch(c) => Shown(c)
    case Clear => Cleared
    case Mark => Asked(m)
  }

  function Do(s: State, step: Step): State
    requires Enabled(s, step)
  {
    match step
    case Compile(ok) =>
      if ok then s.(client := Begun) else s.(client := Ended(CompileError, Headless))
    case PrintHeader => s.(client := Running, out := s.out + s.header)
    case Print(t) => s.(out := s.out + [t], issued := s.issued + [See(t, Current(s))])
    case Begin(next) =>
      var s' := s.(client := Marked, call := next, number := s.number + 1);
      s'.(out := s.out + [Mark], issued := s.issued + [Asked(Current(s'))])
    case SendFrame => s.(client := Waiting, requests := s.requests + [Current(s)])
    case Receive =>
      s.(client := if s.client.Waiting? then Running else Ended(s.client.status, BetweenCalls),
         replies := [], received := s.received + [Delivery(Caller(s.call, s.number), s.replies[0])],
         broken := |s.replies| > 1 || !s.call.Accepts(s.replies[0]))
    case Finish => s.(client := Ended(Success, BetweenCalls))
    case Crash => s.(client := Ended(RuntimeError, StageOf(s.client)))
    case Steal(k) => DoSteal(s, k)
    case Perish(k) => s.(leftOver := s.leftOver[..k] + s.leftOver[k + 1..])
    case Publish => s.(result := Some(s.client.status))
    case Observe => s.(kernel := Draining(s.result.Some?))
    case Drain(n) =>
      var stdout := s.out[..n];
      var s' := s.(out := s.out[n..]);
      if stdout == [] then s'.(kernel := Sending(s.kernel.seen, []))
      else if s.hadStdout then s'.(kernel := Sending(s.kernel.seen, stdout))
      else
        s'.(kernel := Sending(s.kernel.seen, stdout[|s.header|..]), hadStdout := true,
            broken := !(s.header <= stdout))
    case Emit =>
      s.(kernel := Sending(s.kernel.seen, s.kernel.pending[1..]),
         sent := s.sent + [See(s.kernel.pending[0], Current(s))])
    case Fetch => s.(messages := s.requests, requests := [])
    case Execute(answer) =>
      s.(kernel := Replying(s.kernel.seen, s.kernel.pending, ExecuteMessage(s.messages[0], answer)),
         sent := s.sent + [Asked(s.messages[0])])
    case Answer => s.(kernel := Removing(s.kernel.seen, s.kernel.pending), replies := s.replies + [s.kernel.reply])
    case Remove => s.(kernel := Sending(s.kernel.seen, s.kernel.pending[1..]), messages := s.messages[1..])
    case EndPoll => s.(kernel := if s.kernel.seen then Kernel.Returned(s.result.value) else Sleeping)
    case NextCell => Initial(s.header, s.call, s.number, LeftOver(s))
  }

  predicate CanRun(s: State, steps: seq<Step>)
    decreases |steps|
  {
    steps == [] || (Enabled(s, steps[0]) && CanRun(Do(s, steps[0]), steps[1..]))
  }

  function Run(s: State, steps: seq<Step>): State
    requires CanRun(s, steps)
    decreases |steps|
  {
    if steps == [] then s else Run(Do(s, steps[0]), steps[1..])
  }

  // The invariant.

  /** Output the kernel has drained but not yet dealt with. */
  function Held(s: State): seq<Token> {
    match s.kernel
    case Sending(_, pending) => pending
    case Replying(_, pending, _) => if pending == [] then [] else pending[1..]
    case Removing(_, pending) => if pending == [] then [] else pending[1..]
    case _ => []
  }

  /** Everything printed that the notebook has not seen, without the header. */
  function Undone(s: State): seq<Token> {
    Held(s) + if s.hadStdout || |s.out| < |s.header| then s.out else s.out[|s.header|..]
  }

  function View(toks: seq<Token>, m: Message): seq<Observation> {
    if toks == [] then [] else [See(toks[0], m)] + View(toks[1..], m)
  }

  function Marks(toks: seq<Token>): nat {
    if toks == [] then 0 else (if toks[0].Mark? then 1 else 0) + Marks(toks[1..])
  }

  /** `r` answers the latest call. */
  predicate Fits(s: State, r: Reply) {
    r.call == s.number && s.call.Accepts(r)
  }

  ghost predicate HistoryInv(s: State) {
    s.issued == s.sent + View(Undone(s), Current(s))
  }

  /** Where the one frame of the one outstanding call can be. */
  ghost predicate FrameInv(s: State) {
    FrameAt(s, Marks(Undone(s)))
  }

  /** The same, with the number of start markers that the notebook has still to see. */
  ghost predicate FrameAt(s: State, marks: nat) {
    && ((s.kernel.Replying? || s.kernel.Removing?) ==> s.kernel.pending != [] && |s.messages| == 1 && s.hadStdout)
    && (!Outstanding(s) ==>
          && marks == 0 && s.requests == [] && s.replies == []
          && !s.kernel.Replying? && (s.kernel.Removing? || s.messages == []))
    && (Outstanding(s) && !FrameSent(s) ==>
          && marks == 1 && s.requests == [] && s.replies == []
          && !s.kernel.Replying? && (s.kernel.Removing? || s.messages == []))
    && (s.robbed ==> FrameSent(s) && marks == 0 && !s.kernel.Replying?)
    && (FrameSent(s) && marks > 0 ==>
          && marks == 1 && s.replies == [] && !s.kernel.Replying?
          && if s.requests == [] then s.messages == [Current(s)] && AtMark(s.kernel)
             else s.requests == [Current(s)] && (s.kernel.Removing? || s.messages == []))
    && (FrameSent(s) && marks == 0 ==>
          && s.requests == []
          && if s.kernel.Replying? then s.messages == [Current(s)] && s.replies == [] && Fits(s, s.kernel.reply)
             else (s.kernel.Removing? || s.messages == []) &&
                  if s.robbed then s.replies == [] else |s.replies| == 1 && Fits(s, s.replies[0]))
  }

  /** The cell has printed nothing, not even its header. */
  predicate Silent(s: State) {
    StageOf(s.client).Headless?
  }

  ghost predicate HeaderInv(s: State) {
    && s.header != []
    && (Silent(s) ==> s.out == [] && !s.hadStdout && Held(s) == [] && s.issued == [])
    && (!Silent(s) && !s.hadStdout ==> s.header <= s.out && Held(s) == [])
  }

  predicate Seen(k: Kernel) {
    if k.Sleeping? then false else if k.Returned? then true else k.seen
  }

  ghost predicate ResultInv(s: State) {
    && (s.result.Some? ==> s.client.Ended? && s.client.status == s.result.value)
    && (Seen(s.kernel) ==> s.result.Some?)
    && (Seen(s.kernel) && !s.kernel.Draining? ==> s.out == [])
    && (s.kernel.Returned? ==> s.kernel.status == s.result.value)
    && (s.client.Ended? && s.client.status.CompileError? ==> Silent(s))
  }

  /** Replies go to their own callers, up to the one that a left-over caller took. */
  ghost predicate ReceivedInv(s: State) {
    var n := |s.received|;
    && (s.broken ==> s.robbed)
    && (s.robbed ==> n > 0 && s.received[n - 1].caller.number < s.number == s.received[n - 1].reply.call)
    && forall k :: 0 <= k < (if s.robbed then n - 1 else n) ==> s.received[k].Own()
  }

  /** Left-over callers are older than any call this cell has made. */
  ghost predicate CallerInv(s: State) {
    forall c :: c in s.leftOver ==> c.number <= s.number && (Outstanding(s) ==> c.number < s.number)
  }

  ghost predicate Inv(s: State) {
    HistoryInv(s) && FrameInv(s) && HeaderInv(s) && ResultInv(s) && ReceivedInv(s) && CallerInv(s)
  }

  lemma {:induction false} ViewAppend(a: seq<Token>, b: seq<Token>, m: Message)
    ensures View(a + b, m) == View(a, m) + View(b, m)
    ensures Marks(a + b) == Marks(a) + Marks(b)
  {
    if a == [] {
      assert a + b == b;
    } else {
      ViewAppend(a[1..], b, m);
      assert (a + b)[0] == a[0] && (a + b)[1..] == a[1..] + b;
      Associative([See(a[0], m)], View(a[1..], m), View(b, m));
    }
  }

  lemma {:induction false} ViewWithoutMarks(toks: seq<Token>, m: Message, m': Message)
    requires Marks(toks) == 0
    ensures View(toks, m) == View(toks, m')
  {
    if toks != [] {
      ViewWithoutMarks(toks[1..], m, m');
    }
  }

  // What keeps each part of the invariant.

  ghost predicate SameHistory(s: State, s': State) {
    && Undone(s') == Undone(s) && s'.issued == s.issued && s'.sent == s.sent
    && s'.call == s.call && s'.number == s.number
  }

  lemma HistoryKept(s: State, s': State)
    requires HistoryInv(s) && SameHistory(s, s')
    ensures HistoryInv(s')
  {
  }

  /** The kernel is not at a marker, nor between executing a message and removing it. */
  predicate Idle(k: Kernel) {
    !AtMark(k) && !k.Replying? && !k.Removing?
  }

  lemma FrameKept(s: State, s': State)
    requires FrameInv(s) && Undone(s') == Undone(s)
    requires s'.kernel == s.kernel || (Idle(s.kernel) && Idle(s'.kernel))
    requires s'.hadStdout == s.hadStdout && s'.messages == s.messages
    requires s'.requests == s.requests && s'.replies == s.replies && s'.robbed == s.robbed
    requires s'.call == s.call && s'.number == s.number
    requires Outstanding(s') == Outstanding(s) && FrameSent(s') == FrameSent(s)
    ensures FrameInv(s')
  {
    FrameAtKept(s, s', Marks(Undone(s)));
  }

  lemma FrameAtKept(s: State, s': State, marks: nat)
    requires FrameAt(s, marks)
    requires s'.kernel == s.kernel || (Idle(s.kernel) && Idle(s'.kernel))
    requires s'.hadStdout == s.hadStdout && s'.messages == s.messages
    requires s'.requests == s.requests && s'.replies == s.replies && s'.robbed == s.robbed
    requires s'.call == s.call && s'.number == s.number
    requires Outstanding(s') == Outstanding(s) && FrameSent(s') == FrameSent(s)
    ensures FrameAt(s', marks)
  {
  }

  lemma HeaderKept(s: State, s': State)
    requires HeaderInv(s) && Silent(s') == Silent(s) && Held(s') == Held(s)
    requires s'.out == s.out && s'.hadStdout == s.hadStdout && s'.header == s.header && s'.issued == s.issued
    ensures HeaderInv(s')
  {
  }

  lemma ResultKept(s: State, s': State)
    requires ResultInv(s) && s'.result == s.result && (s'.out == s.out || !Seen(s.kernel))
    requires Seen(s'.kernel) == Seen(s.kernel)
    requires s'.kernel.Draining? == s.kernel.Draining? && s'.kernel.Returned? == s.kernel.Returned?
    requires s'.kernel.Returned? ==> s'.kernel == s.kernel
    requires s.client.Ended? ==> s'.client.Ended? && s'.client.status == s.client.status && Silent(s') == Silent(s)
    requires s'.client.Ended? && s'.client.status.CompileError? ==> Silent(s')
    ensures ResultInv(s')
  {
  }

  lemma ReceivedKept(s: State, s': State)
    requires ReceivedInv(s) && s'.received == s.received && s'.robbed == s.robbed && s'.broken == s.broken
    requires s.robbed ==> s'.number == s.number
    ensures ReceivedInv(s')
  {
  }

  lemma CallersKept(s: State, s': State)
    requires CallerInv(s) && s.number <= s'.number
    requires forall c :: c in s'.leftOver ==> c in s.leftOver
    requires Outstanding(s') ==> Outstanding(s) || s.number < s'.number
    ensures CallerInv(s')
  {
  }

  // The steps of the client.

  lemma HistoryAfterOutput(s: State, s': State, t: Token)
    requires HistoryInv(s) && ((s.call == s'.call && s.number == s'.number) || Marks(Undone(s)) == 0)
    requires Undone(s') == Undone(s) + [t] && s'.sent == s.sent && s'.issued == s.issued + [See(t, Current(s'))]
    ensures HistoryInv(s') && Marks(Undone(s')) == Marks(Undone(s)) + if t.Mark? then 1 else 0
  {
    var m := Current(s');
    ViewAppend(Undone(s), [t], m);
    if Marks(Undone(s)) == 0 {
      ViewWithoutMarks(Undone(s), Current(s), m);
    }
    assert View([t], m) == [See(t, m)];
    Associative(s.sent, View(Undone(s), m), [See(t, m)]);
  }

  lemma OutputUndone(s: State, s': State, t: Token)
    requires HeaderInv(s) && s.client.Running?
    requires s'.out == s.out + [t] && s'.kernel == s.kernel && s'.hadStdout == s.hadStdout && s'.header == s.header
    ensures Undone(s') == Undone(s) + [t]
  {
    if !s.hadStdout {
      var n := |s.header|;
      assert (s.out + [t])[n..] == s.out[n..] + [t];
    }
  }

  /** More output keeps the header where it is. */
  lemma HeaderAfterOutput(s: State, s': State, t: Token)
    requires HeaderInv(s) && !Silent(s) && !Silent(s')
    requires s'.out == s.out + [t] && s'.kernel == s.kernel && s'.hadStdout == s.hadStdout && s'.header == s.header
    ensures HeaderInv(s')
  {
  }

  lemma PrintKeepsInv(s: State, t: Token)
    requires Inv(s) && Enabled(s, Print(t))
    ensures Inv(Do(s, Print(t)))
  {
    var s' := Do(s, Print(t));
    OutputUndone(s, s', t);
    HistoryAfterOutput(s, s', t);
    FrameAtKept(s, s', Marks(Undone(s)));
    HeaderAfterOutput(s, s', t);
    ResultKept(s, s');
    ReceivedKept(s, s');
    CallersKept(s, s');
  }

  lemma FrameAfterBegin(s: State, s': State)
    requires FrameAt(s, 0) && !Outstanding(s) && Outstanding(s') && !FrameSent(s')
    requires s'.kernel == s.kernel && s'.hadStdout == s.hadStdout && s'.messages == s.messages
    requires s'.requests == s.requests && s'.replies == s.replies && s'.robbed == s.robbed
    ensures FrameAt(s', 1)
  {
  }

  lemma BeginKeepsInv(s: State, next: Call)
    requires Inv(s) && Enabled(s, Begin(next))
    ensures Inv(Do(s, Begin(next)))
  {
    var s' := Do(s, Begin(next));
    NotOutstanding(s);
    OutputUndone(s, s', Mark);
    HistoryAfterOutput(s, s', Mark);
    FrameAfterBegin(s, s');
    HeaderAfterOutput(s, s', Mark);
    ResultKept(s, s');
    ReceivedKept(s, s');
    CallersKept(s, s');
  }

  lemma NotOutstanding(s: State)
    requires FrameInv(s) && !Outstanding(s)
    ensures Marks(Undone(s)) == 0 && FrameAt(s, 0) && !s.robbed && s.replies == []
  {
  }

  lemma FrameAfterSend(s: State, s': State)
    requires FrameAt(s, 1) && Outstanding(s) && !FrameSent(s) && FrameSent(s')
    requires s'.kernel == s.kernel && s'.hadStdout == s.hadStdout && s'.messages == s.messages
    requires s'.requests == s.requests + [Current(s')] && s'.replies == s.replies && s'.robbed == s.robbed
    ensures FrameAt(s', 1)
  {
  }

  lemma SendFrameKeepsInv(s: State, s': State)
    requires Inv(s) && s.client.Marked? && !s.broken
    requires s' == s.(client := Waiting, requests := s.requests + [Current(s)])
    ensures Inv(s')
  {
    HistoryKept(s, s');
    assert Marks(Undone(s)) == 1;
    FrameAfterSend(s, s');
    HeaderKept(s, s');
    ResultKept(s, s');
    ReceivedKept(s, s');
    CallersKept(s, s');
  }

  /** A reply is there: it is the reply to the latest call. */
  lemma ReplyIsThere(s: State, marks: nat)
    requires FrameAt(s, marks) && s.replies != []
    ensures FrameSent(s) && !s.robbed && marks == 0 && |s.replies| == 1 && Fits(s, s.replies[0])
    ensures s.requests == [] && !s.kernel.Replying? && (s.kernel.Removing? || s.messages == [])
  {
  }

  lemma FrameAfterReceive(s: State, s': State)
    requires FrameAt(s, 0) && s.replies != [] && !Outstanding(s') && s'.replies == []
    requires s'.kernel == s.kernel && s'.hadStdout == s.hadStdout && s'.messages == s.messages
    requires s'.requests == s.requests && s'.robbed == s.robbed
    ensures FrameAt(s', 0)
  {
    ReplyIsThere(s, 0);
  }

  lemma ReceivedAfterReceive(s: State, s': State)
    requires ReceivedInv(s) && !s.robbed && s.replies != [] && Fits(s, s.replies[0])
    requires s'.received == s.received + [Delivery(Caller(s.call, s.number), s.replies[0])] && !s'.broken && !s'.robbed
    ensures ReceivedInv(s')
  {
  }

  lemma ReceiveKeepsInv(s: State, s': State)
    requires Inv(s) && Enabled(s, Receive) && s' == Do(s, Receive)
    ensures Inv(s') && !s'.broken
  {
    ReplyIsThere(s, Marks(Undone(s)));
    HistoryKept(s, s');
    FrameAfterReceive(s, s');
    HeaderKept(s, s');
    ResultKept(s, s');
    ReceivedAfterReceive(s, s');
    CallersKept(s, s');
  }

  /** A cell that ends stays at its stage. */
  lemma StopKeepsInv(s: State, s': State, status: Status)
    requires Inv(s) && Ongoing(s.client) && !status.CompileError? && !s.broken
    requires s' == s.(client := Ended(status, StageOf(s.client)))
    ensures Inv(s')
  {
    HistoryKept(s, s');
    FrameKept(s, s');
    HeaderKept(s, s');
    ResultKept(s, s');
    ReceivedKept(s, s');
    CallersKept(s, s');
  }

  lemma CompileKeepsInv(s: State, ok: bool)
    requires Inv(s) && Enabled(s, Compile(ok))
    ensures Inv(Do(s, Compile(ok)))
  {
    var s' := Do(s, Compile(ok));
    HistoryKept(s, s');
    FrameKept(s, s');
    HeaderKept(s, s');
    ResultKept(s, s');
    ReceivedKept(s, s');
    CallersKept(s, s');
  }

  lemma HeaderAfterHeader(s: State, s': State)
    requires HeaderInv(s) && Silent(s) && !Silent(s')
    requires s'.out == s.out + s.header && s'.kernel == s.kernel && s'.hadStdout == s.hadStdout && s'.header == s.header
    ensures HeaderInv(s') && Undone(s') == Undone(s) == []
  {
    assert s'.out == s.header;
  }

  lemma PrintHeaderKeepsInv(s: State)
    requires Inv(s) && Enabled(s, PrintHeader)
    ensures Inv(Do(s, PrintHeader))
  {
    var s' := Do(s, PrintHeader);
    HeaderAfterHeader(s, s');
    HistoryKept(s, s');
    FrameKept(s, s');
    ResultKept(s, s');
    ReceivedKept(s, s');
    CallersKept(s, s');
  }

  // Left-over callers.

  lemma FrameAfterSteal(s: State, s': State)
    requires FrameAt(s, 0) && s.replies != [] && s'.client == s.client && s'.replies == [] && s'.robbed
    requires s'.kernel == s.kernel && s'.hadStdout == s.hadStdout && s'.messages == s.messages
    requires s'.requests == s.requests
    ensures FrameAt(s', 0)
  {
    ReplyIsThere(s, 0);
  }

  lemma ReceivedAfterSteal(s: State, s': State, thief: Caller)
    requires ReceivedInv(s) && !s.robbed && s.replies != [] && Fits(s, s.replies[0]) && thief.number < s.number
    requires s'.received == s.received + [Delivery(thief, s.replies[0])] && s'.robbed && s'.number == s.number
    ensures ReceivedInv(s')
  {
  }

  lemma StealKeepsInv(s: State, k: nat)
    requires Inv(s) && Enabled(s, Steal(k))
    ensures Inv(Do(s, Steal(k)))
  {
    var s' := Do(s, Steal(k));
    ReplyIsThere(s, Marks(Undone(s)));
    assert s.leftOver[k] in s.leftOver;
    HistoryKept(s, s');
    FrameAfterSteal(s, s');
    HeaderKept(s, s');
    ResultKept(s, s');
    ReceivedAfterSteal(s, s', s.leftOver[k]);
    CallersKept(s, s');
  }

  lemma PerishKeepsInv(s: State, s': State, k: nat)
    requires Inv(s) && k < |s.leftOver| && s' == s.(leftOver := s.leftOver[..k] + s.leftOver[k + 1..])
    ensures Inv(s')
  {
    HistoryKept(s, s');
    FrameKept(s, s');
    HeaderKept(s, s');
    ResultKept(s, s');
    ReceivedKept(s, s');
    CallersKept(s, s');
  }

  // The steps of the background thread and the kernel.

  lemma ResultAfterPublish(s: State, s': State)
    requires ResultInv(s) && s.client.Ended? && s.result.None?
    requires s'.result == Some(s.client.status) && s'.client == s.client && s'.kernel == s.kernel && s'.out == s.out
    ensures ResultInv(s')
  {
  }

  lemma PublishKeepsInv(s: State, s': State)
    requires Inv(s) && s.client.Ended? && s.result.None? && s' == s.(result := Some(s.client.status))
    ensures Inv(s')
  {
    HistoryKept(s, s');
    FrameKept(s, s');
    HeaderKept(s, s');
    ResultAfterPublish(s, s');
    ReceivedKept(s, s');
    CallersKept(s, s');
  }

  lemma ResultAfterPoll(s: State, s': State)
    requires ResultInv(s) && s'.result == s.result && s'.client == s.client && s'.out == s.out
    requires s.kernel.Sending? && s.kernel.seen ==> s.result.Some?
    requires s'.kernel == Draining(s.result.Some?)
          || (s.kernel.Sending? && s'.kernel == if s.kernel.seen then Kernel.Returned(s.result.value) else Sleeping)
    ensures ResultInv(s')
  {
  }

  lemma PollKeepsInv(s: State, s': State)
    requires Inv(s) && s' == s.(kernel := s'.kernel)
    requires s.kernel.Sending? && s.kernel.seen ==> s.result.Some?
    requires if s.kernel.Sleeping? then s'.kernel == Draining(s.result.Some?)
             else s.kernel.Sending? && s.kernel.pending == [] &&
                  s'.kernel == if s.kernel.seen then Kernel.Returned(s.result.value) else Sleeping
    ensures Inv(s')
  {
    HistoryKept(s, s');
    FrameKept(s, s');
    HeaderKept(s, s');
    ResultAfterPoll(s, s');
    ReceivedKept(s, s');
    CallersKept(s, s');
  }

  /** What `Drain` makes of output, header flag and kernel. */
  ghost predicate Drains(s: State, s': State, n: nat) {
    && n <= |s.out| && s.kernel.Draining? && s'.kernel.Sending? && s'.kernel.seen == s.kernel.seen
    && s'.out == s.out[n..] && s'.header == s.header
    && (n == 0 ==> s'.kernel.pending == [] && s'.hadStdout == s.hadStdout)
    && (n > 0 && s.hadStdout ==> s'.kernel.pending == s.out[..n] && s'.hadStdout)
    && (n > 0 && !s.hadStdout ==>
          |s.header| <= n && s'.kernel.pending == s.out[..n][|s.header|..] && s'.hadStdout)
  }

  /** No output is lost by a drain, wherever it ends, and the first one starts with the header. */
  lemma DrainSplits(s: State, s': State, n: nat)
    requires HeaderInv(s) && Drains(s, s', n)
    ensures Undone(s') == Undone(s)
    ensures !s.hadStdout && n > 0 ==> s.header <= s.out[..n]
  {
    assert s.out == s.out[..n] + s.out[n..];
    if n > 0 && !s.hadStdout {
      var h := |s.header|;
      assert s.out[h..] == s.out[..n][h..] + s.out[n..];
      PrefixOfPrefix(s.header, s.out, n);
    }
  }

  lemma PrefixOfPrefix<T>(p: seq<T>, s: seq<T>, n: nat)
    requires p <= s && |p| <= n <= |s|
    ensures p <= s[..n]
  {
  }

  lemma FrameAfterDrain(s: State, s': State, marks: nat)
    requires FrameAt(s, marks) && s.kernel.Draining? && s'.kernel.Sending? && s'.messages == s.messages
    requires s'.requests == s.requests && s'.replies == s.replies && s'.robbed == s.robbed
    requires s'.call == s.call && s'.number == s.number && s'.client == s.client
    ensures FrameAt(s', marks)
  {
  }

  lemma HeaderAfterDrain(s: State, s': State, n: nat)
    requires HeaderInv(s) && Drains(s, s', n) && s'.client == s.client && s'.issued == s.issued
    ensures HeaderInv(s')
  {
  }

  lemma ResultAfterDrain(s: State, s': State, n: nat)
    requires ResultInv(s) && Drains(s, s', n) && s'.client == s.client && s'.result == s.result
    requires s.client.Ended? ==> n == |s.out|
    ensures ResultInv(s')
  {
  }

  lemma DrainKeepsInv(s: State, n: nat)
    requires Inv(s) && Enabled(s, Drain(n))
    ensures Inv(Do(s, Drain(n))) && !Do(s, Drain(n)).broken
  {
    var s' := Do(s, Drain(n));
    assert Drains(s, s', n);
    DrainSplits(s, s', n);
    HistoryKept(s, s');
    FrameAfterDrain(s, s', Marks(Undone(s)));
    HeaderAfterDrain(s, s', n);
    ResultAfterDrain(s, s', n);
    ReceivedKept(s, s');
    CallersKept(s, s');
  }

  /** What the notebook is shown next is what the program did next. */
  lemma HistoryAfterShowing(s: State, s': State, t: Token)
    requires HistoryInv(s) && Undone(s) == [t] + Undone(s')
    requires s'.call == s.call && s'.number == s.number && s'.issued == s.issued
    requires s'.sent == s.sent + [See(t, Current(s))]
    ensures HistoryInv(s') && Marks(Undone(s)) == Marks(Undone(s')) + if t.Mark? then 1 else 0
  {
    var m := Current(s);
    ViewAppend([t], Undone(s'), m);
    Associative(s.sent, [See(t, m)], View(Undone(s'), m));
  }

  lemma FrameAfterEmit(s: State, s': State, marks: nat)
    requires FrameAt(s, marks) && s.kernel.Sending? && !AtMark(s.kernel) && s'.kernel.Sending?
    requires s'.messages == s.messages && s'.client == s.client && s'.call == s.call && s'.number == s.number
    requires s'.requests == s.requests && s'.replies == s.replies && s'.robbed == s.robbed
    ensures FrameAt(s', marks)
  {
  }

  /** Showing part of what it holds changes neither header nor result. */
  lemma HeaderAfterShowing(s: State, s': State)
    requires HeaderInv(s) && Held(s) != [] && s'.client == s.client
    requires s'.out == s.out && s'.hadStdout == s.hadStdout && s'.header == s.header && s'.issued == s.issued
    ensures HeaderInv(s')
  {
  }

  lemma EmitKeepsInv(s: State)
    requires Inv(s) && Enabled(s, Emit)
    ensures Inv(Do(s, Emit))
  {
    var s' := Do(s, Emit);
    HistoryAfterShowing(s, s', s.kernel.pending[0]);
    FrameAfterEmit(s, s', Marks(Undone(s)));
    HeaderAfterShowing(s, s');
    ResultKept(s, s');
    ReceivedKept(s, s');
    CallersKept(s, s');
  }

  /** A marker in front of the kernel is the one of the outstanding call. */
  lemma MarkInFront(s: State)
    requires FrameInv(s) && AtMark(s.kernel)
    ensures FrameAt(s, 1) && Marks(Undone(s)) == 1 && Outstanding(s)
  {
    assert Undone(s)[0].Mark?;
  }

  lemma FrameAfterFetch(s: State, s': State)
    requires FrameAt(s, 1) && AtMark(s.kernel) && s.messages == []
    requires s'.messages == s.requests && s'.requests == [] && s'.kernel == s.kernel && s'.hadStdout == s.hadStdout
    requires s'.client == s.client && s'.call == s.call && s'.number == s.number
    requires s'.replies == s.replies && s'.robbed == s.robbed
    ensures FrameAt(s', 1)
  {
  }

  lemma FetchKeepsInv(s: State)
    requires Inv(s) && Enabled(s, Fetch)
    ensures Inv(Do(s, Fetch))
  {
    var s' := Do(s, Fetch);
    MarkInFront(s);
    HistoryKept(s, s');
    FrameAfterFetch(s, s');
    HeaderKept(s, s');
    ResultKept(s, s');
    ReceivedKept(s, s');
    CallersKept(s, s');
  }

  lemma FrameAfterExecute(s: State, s': State)
    requires FrameAt(s, 1) && AtMark(s.kernel) && s.messages != [] && s.hadStdout
    requires s'.kernel.Replying? && s'.kernel.pending == s.kernel.pending && Fits(s, s'.kernel.reply)
    requires s'.messages == s.messages && s'.requests == s.requests && s'.hadStdout == s.hadStdout
    requires s'.client == s.client && s'.call == s.call && s'.number == s.number
    requires s'.replies == s.replies && s'.robbed == s.robbed
    ensures FrameAt(s', 0)
  {
  }

  /** The message in front of the queue is the one of the latest call. */
  lemma MessageIsCurrent(s: State)
    requires FrameAt(s, 1) && AtMark(s.kernel) && s.messages != []
    ensures s.messages == [Current(s)]
  {
  }

  lemma ExecuteKeepsInv(s: State, answer: Content)
    requires Inv(s) && Enabled(s, Execute(answer))
    ensures Inv(Do(s, Execute(answer)))
  {
    var s' := Do(s, Execute(answer));
    MarkInFront(s);
    MessageIsCurrent(s);
    ReplyMatchesCall(s.call, s.call, s.number, answer);
    HistoryAfterShowing(s, s', Mark);
    FrameAfterExecute(s, s');
    HeaderAfterShowing(s, s');
    ResultKept(s, s');
    ReceivedKept(s, s');
    CallersKept(s, s');
  }

  lemma FrameAfterAnswer(s: State, s': State, marks: nat)
    requires FrameAt(s, marks) && s.kernel.Replying? && s'.replies == s.replies + [s.kernel.reply]
    requires s'.kernel == Removing(s.kernel.seen, s.kernel.pending) && s'.messages == s.messages
    requires s'.requests == s.requests && s'.hadStdout == s.hadStdout
    requires s'.client == s.client && s'.call == s.call && s'.number == s.number && s'.robbed == s.robbed
    ensures FrameAt(s', marks)
  {
  }

  lemma FrameAfterRemove(s: State, s': State, marks: nat)
    requires FrameAt(s, marks) && s.kernel.Removing? && s.kernel.pending != [] && s'.messages == s.messages[1..]
    requires s'.kernel == Sending(s.kernel.seen, s.kernel.pending[1..])
    requires s'.requests == s.requests && s'.hadStdout == s.hadStdout && s'.replies == s.replies
    requires s'.client == s.client && s'.call == s.call && s'.number == s.number && s'.robbed == s.robbed
    ensures FrameAt(s', marks)
  {
  }

  lemma AnswerKeepsInv(s: State, step: Step)
    requires Inv(s) && Enabled(s, step) && (step.Answer? || step.Remove?)
    ensures Inv(Do(s, step))
  {
    var s' := Do(s, step);
    HistoryKept(s, s');
    if step.Answer? {
      FrameAfterAnswer(s, s', Marks(Undone(s)));
    } else {
      FrameAfterRemove(s, s', Marks(Undone(s)));
    }
    HeaderKept(s, s');
    ResultKept(s, s');
    ReceivedKept(s, s');
    CallersKept(s, s');
  }

  // All steps and all runs.

  lemma CellStepKeepsInv(s: State, step: Step)
    requires Inv(s) && Enabled(s, step)
    requires step.Compile? || step.PrintHeader? || step.Print? || step.Begin? || step.SendFrame? || step.Receive?
    ensures Inv(Do(s, step))
  {
    match step
    case Compile(ok) => CompileKeepsInv(s, ok);
    case PrintHeader => PrintHeaderKeepsInv(s);
    case Print(t) => PrintKeepsInv(s, t);
    case Begin(next) => BeginKeepsInv(s, next);
    case SendFrame => SendFrameKeepsInv(s, Do(s, step));
    case Receive => ReceiveKeepsInv(s, Do(s, step));
  }

  lemma EndingKeepsInv(s: State, step: Step)
    requires Inv(s) && Enabled(s, step)
    requires step.Finish? || step.Crash? || step.Steal? || step.Perish? || step.Publish? || step.NextCell?
    ensures Inv(Do(s, step))
  {
    match step
    case Finish => StopKeepsInv(s, Do(s, step), Success);
    case Crash => StopKeepsInv(s, Do(s, step), RuntimeError);
    case Steal(k) => StealKeepsInv(s, k);
    case Perish(k) => PerishKeepsInv(s, Do(s, step), k);
    case Publish => PublishKeepsInv(s, Do(s, step));
    case NextCell => InitialInv(s.header, s.call, s.number, LeftOver(s));
  }

  /** The steps of the kernel's polling loop. */
  predicate KernelStep(step: Step) {
    step.Observe? || step.Drain? || step.Emit? || step.Fetch? || step.Execute? || step.Answer? || step.Remove? || step.EndPoll?
  }

  lemma KernelKeepsInv(s: State, step: Step)
    requires Inv(s) && Enabled(s, step) && KernelStep(step)
    ensures Inv(Do(s, step))
  {
    match step
    case Observe => PollKeepsInv(s, Do(s, step));
    case EndPoll => PollKeepsInv(s, Do(s, step));
    case Drain(n) => DrainKeepsInv(s, n);
    case Emit => EmitKeepsInv(s);
    case Fetch => FetchKeepsInv(s);
    case Execute(answer) => ExecuteKeepsInv(s, answer);
    case Answer => AnswerKeepsInv(s, step);
    case Remove => AnswerKeepsInv(s, step);
  }

  lemma StepKeepsInv(s: State, step: Step)
    requires Inv(s) && Enabled(s, step)
    ensures Inv(Do(s, step))
  {
    if KernelStep(step) {
      KernelKeepsInv(s, step);
    } else if step.Compile? || step.PrintHeader? || step.Print? || step.Begin? || step.SendFrame? || step.Receive? {
      CellStepKeepsInv(s, step);
    } else {
      EndingKeepsInv(s, step);
    }
  }

  lemma InitialInv(header: seq<Token>, call: Call, number: nat, leftOver: seq<Caller>)
    requires header != [] && forall c :: c in leftOver ==> c.number <= number
    ensures Inv(Initial(header, call, number, leftOver))
  {
  }

  lemma {:induction false} RunKeepsInv(s: State, steps: seq<Step>)
    requires Inv(s) && CanRun(s, steps)
    ensures Inv(Run(s, steps))
    decreases |steps|
  {
    if steps != [] {
      StepKeepsInv(s, steps[0]);
      RunKeepsInv(Do(s, steps[0]), steps[1..]);
    }
  }
}
