/** What the rendezvous guarantees: over every run, of every cell, in every interleaving. */
module Guarantees {
  import opened Messages
  import opened Stdout
  import opened Rendezvous
  import opened Wrappers

  lemma ReachableInv(call: Call, steps: seq<Step>)
    requires CanRun(Start(call), steps)
    ensures Inv(Run(Start(call), steps))
  {
    InitialInv(Characters(HEADER), call, 0, []);
    RunKeepsInv(Start(call), steps);
  }

  /**
   * At every moment the notebook has seen a prefix of what the cell did, in the cell's own order of text,
   * clears and calls; when the kernel is done with the cell it has seen all of it, once.
   */
  lemma NotebookSeesProgramOrder(call: Call, steps: seq<Step>)
    requires CanRun(Start(call), steps)
    ensures var s := Run(Start(call), steps);
      && s.sent <= s.issued
      && (s.kernel.Returned? ==> s.sent == s.issued && s.out == [])
  {
    ReachableInv(call, steps);
    var s := Run(Start(call), steps);
    SeenIsPrefix(s);
  }

  lemma SeenIsPrefix(s: State)
    requires HistoryInv(s) && HeaderInv(s) && ResultInv(s)
    ensures s.sent <= s.issued
    ensures s.kernel.Returned? ==> s.sent == s.issued && s.out == []
  {
    if s.kernel.Returned? {
      assert Undone(s) == [] && s.sent + [] == s.sent;
    }
  }

  // Who gets which reply.

  /** No check has failed, no pipe holds two unread frames, and every caller that got a reply got its own. */
  ghost predicate Matched(s: State) {
    && !s.broken
    && |s.requests| <= 1 && |s.replies| <= 1 && |s.messages| <= 1
    && (FrameSent(s) && s.replies != [] ==> Fits(s, s.replies[0]))
    && forall k :: 0 <= k < |s.received| ==> s.received[k].Own()
  }

  lemma OneFrameAtMost(s: State)
    requires FrameInv(s)
    ensures |s.requests| <= 1 && |s.replies| <= 1 && |s.messages| <= 1
    ensures s.replies != [] ==> Fits(s, s.replies[0])
  {
    if s.replies != [] {
      ReplyIsThere(s, Marks(Undone(s)));
    }
  }

  /** A theft, and nothing else, goes wrong. */
  lemma MatchedUnlessRobbed(s: State)
    requires FrameInv(s) && ReceivedInv(s)
    ensures Matched(s) <==> !s.robbed
  {
    OneFrameAtMost(s);
    if s.robbed {
      assert !s.received[|s.received| - 1].Own();
    }
  }

  ghost predicate SameCell(steps: seq<Step>) {
    forall step :: step in steps ==> !step.NextCell?
  }

  ghost predicate Clean(s: State) {
    Inv(s) && s.leftOver == [] && !s.robbed
  }

  lemma CleanStep(s: State, step: Step)
    requires Clean(s) && Enabled(s, step) && (step.NextCell? ==> !FrameSent(s))
    ensures Clean(Do(s, step))
  {
    StepKeepsInv(s, step);
    NobodyIsAdded(s, step);
  }

  lemma NobodyIsAdded(s: State, step: Step)
    requires s.leftOver == [] && !s.robbed && Enabled(s, step) && (step.NextCell? ==> !FrameSent(s))
    ensures Do(s, step).leftOver == [] && !Do(s, step).robbed
  {
  }

  /** No cell of the run ended while a call of it was waiting and still has not got its reply. */
  ghost predicate LeavesNobody(s: State, steps: seq<Step>)
    requires CanRun(s, steps)
    decreases |steps|
  {
    steps == [] || ((steps[0].NextCell? ==> !FrameSent(s)) && LeavesNobody(Do(s, steps[0]), steps[1..]))
  }

  lemma {:induction false} NobodyIsLeft(s: State, steps: seq<Step>)
    requires Clean(s) && CanRun(s, steps) && LeavesNobody(s, steps)
    ensures Clean(Run(s, steps))
    decreases |steps|
  {
    if steps != [] {
      CleanStep(s, steps[0]);
      NobodyIsLeft(Do(s, steps[0]), steps[1..]);
    }
  }

  lemma {:induction false} OneCellLeavesNobody(s: State, steps: seq<Step>)
    requires CanRun(s, steps) && SameCell(steps)
    ensures LeavesNobody(s, steps)
    decreases |steps|
  {
    if steps != [] {
      assert steps[0] in steps;
      OneCellLeavesNobody(Do(s, steps[0]), steps[1..]);
    }
  }

  lemma {:induction false} RunAppend(s: State, a: seq<Step>, b: seq<Step>)
    requires CanRun(s, a) && CanRun(Run(s, a), b)
    ensures CanRun(s, a + b) && Run(s, a + b) == Run(Run(s, a), b)
    decreases |a|
  {
    if a == [] {
      assert a + b == b;
    } else {
      assert (a + b)[0] == a[0] && (a + b)[1..] == a[1..] + b;
      RunAppend(Do(s, a[0]), a[1..], b);
    }
  }

  lemma RunOne(s: State, step: Step)
    requires Enabled(s, step)
    ensures CanRun(s, [step]) && Run(s, [step]) == Do(s, step)
  {
    assert [step][1..] == [];
  }

  /** `s'` is reached from `s` without another cell being begun, by one step more than some such run. */
  lemma OneStepMore(s: State, before: seq<Step>, step: Step) returns (steps: seq<Step>)
    requires CanRun(s, before) && Enabled(Run(s, before), step)
    ensures steps == before + [step] && CanRun(s, steps) && Run(s, steps) == Do(Run(s, before), step)
  {
    RunOne(Run(s, before), step);
    RunAppend(s, before, [step]);
    steps := before + [step];
  }

  lemma CellStarts(s: State)
    requires s.client.NotStarted? && !s.broken
    ensures CanRun(s, [Compile(true), PrintHeader])
    ensures Run(s, [Compile(true), PrintHeader]) == s.(client := Running, out := s.out + s.header)
  {
    var steps := OneStepMore(s, [], Compile(true));
    steps := OneStepMore(s, steps, PrintHeader);
    assert steps == [Compile(true), PrintHeader];
  }

  /** The cell starts, prints its header and makes a call. */
  lemma CallIsMade(s: State, next: Call) returns (steps: seq<Step>)
    requires Inv(s) && s.client.NotStarted? && !s.broken
    ensures CanRun(s, steps) && SameCell(steps)
    ensures var s' := Run(s, steps);
      && Inv(s') && s'.client.Waiting? && !s'.broken && !s'.robbed
      && s'.leftOver == s.leftOver && s'.number == s.number + 1 && s'.call == next
  {
    CellStarts(s);
    steps := OneStepMore(s, [Compile(true), PrintHeader], Begin(next));
    steps := OneStepMore(s, steps, SendFrame);
    RunKeepsInv(s, steps);
    assert steps == [Compile(true), PrintHeader, Begin(next), SendFrame];
  }

  /** A call is made, and its reply comes as far as the pipe. */
  lemma ReplyIsReady(s: State, next: Call, answer: Content) returns (steps: seq<Step>)
    requires Inv(s) && s.client.NotStarted? && !s.broken
    ensures CanRun(s, steps) && SameCell(steps)
    ensures var s' := Run(s, steps);
      && Inv(s') && s'.client.Waiting? && Enabled(s', Receive) && s'.leftOver == s.leftOver && s'.call == next
  {
    var begin := CallIsMade(s, next);
    var kernel := ReplyArrives(Run(s, begin), answer);
    RunAppend(s, begin, kernel);
    steps := begin + kernel;
  }

  /** A caller left over from an earlier cell can take the reply to the first call of the next one. */
  lemma TheftHappens(s: State, next: Call, answer: Content) returns (steps: seq<Step>)
    requires Inv(s) && s.client.NotStarted? && !s.broken && s.leftOver != []
    ensures CanRun(s, steps) && SameCell(steps)
    ensures var s' := Run(s, steps); Inv(s') && s'.robbed && s'.client.Waiting?
    ensures Run(s, steps).broken <==> s.leftOver[0].call.BlockingRequest? != next.BlockingRequest?
  {
    var ready := ReplyIsReady(s, next, answer);
    FirstCallerSteals(Run(s, ready));
    steps := OneStepMore(s, ready, Steal(0));
  }

  lemma FirstCallerSteals(s: State)
    requires Inv(s) && s.client.Waiting? && Enabled(s, Receive) && s.leftOver != []
    ensures Enabled(s, Steal(0))
    ensures var s' := Do(s, Steal(0));
      && Inv(s') && s'.robbed && s'.client.Waiting?
      && (s'.broken <==> s.leftOver[0].call.BlockingRequest? != s.call.BlockingRequest?)
  {
    ReplyIsThere(s, Marks(Undone(s)));
    AcceptedByOneKind(s.call, s.leftOver[0].call, s.replies[0]);
    StealKeepsInv(s, 0);
  }

  /**
   * Over any run of any number of cells, and for every way to go on with the cell that comes next: every call of it
   * gets the reply to its own request, of the kind its decoder demands, no check fails, and no pipe holds two unread
   * frames, if and only if no caller of an earlier cell is left over.
   */
  lemma EveryCallGetsItsReply(call: Call, before: seq<Step>)
    requires CanRun(Start(call), before) && Run(Start(call), before).client.NotStarted?
    ensures var s := Run(Start(call), before);
      (forall steps :: CanRun(s, steps) && SameCell(steps) ==> Matched(Run(s, steps))) <==> s.leftOver == []
  {
    ReachableInv(call, before);
    var s := Run(Start(call), before);
    assert !s.broken && !s.robbed;
    if s.leftOver == [] {
      forall steps | CanRun(s, steps) && SameCell(steps) ensures Matched(Run(s, steps)) {
        OneCellLeavesNobody(s, steps);
        NobodyIsLeft(s, steps);
        MatchedUnlessRobbed(Run(s, steps));
      }
    } else {
      var steps := TheftHappens(s, call, NOTHING);
      MatchedUnlessRobbed(Run(s, steps));
    }
  }

  /** So whole runs in which every call that was waiting got its reply before the next cell go well throughout. */
  lemma RunsWithoutLeftOversMatch(call: Call, steps: seq<Step>)
    requires CanRun(Start(call), steps) && LeavesNobody(Start(call), steps)
    ensures Matched(Run(Start(call), steps)) && Run(Start(call), steps).leftOver == []
  {
    InitialInv(Characters(HEADER), call, 0, []);
    NobodyIsLeft(Start(call), steps);
    MatchedUnlessRobbed(Run(Start(call), steps));
  }

  /** The caller that was robbed gets no reply in that cell, whatever happens. */
  lemma {:induction false} RobbedWaitsForEver(s: State, steps: seq<Step>)
    requires Inv(s) && s.robbed && CanRun(s, steps) && SameCell(steps)
    ensures var s' := Run(s, steps); Inv(s') && s'.robbed && FrameSent(s') && s'.received == s.received
    decreases |steps|
  {
    if steps != [] {
      StepKeepsInv(s, steps[0]);
      assert steps[0] in steps;
      RobbedStep(s, steps[0]);
      RobbedWaitsForEver(Do(s, steps[0]), steps[1..]);
    }
  }

  lemma RobbedStep(s: State, step: Step)
    requires Inv(s) && s.robbed && Enabled(s, step) && !step.NextCell?
    ensures Do(s, step).robbed && Do(s, step).received == s.received
  {
    if s.replies != [] {
      ReplyIsThere(s, Marks(Undone(s)));
    }
  }

  /** The cell is cut down, and its result is published. */
  lemma CrashIsPublished(s: State)
    requires Inv(s) && s.client.Waiting? && !s.broken
    ensures CanRun(s, [Crash, Publish])
    ensures var s' := Run(s, [Crash, Publish]);
      && Inv(s') && s'.result.Some? && FrameSent(s') && !s'.broken && !CutShort(s')
      && s'.leftOver == s.leftOver && s'.call == s.call && s'.number == s.number
  {
    assert s.result.None?;
    var steps := OneStepMore(s, [], Crash);
    steps := OneStepMore(s, steps, Publish);
    assert steps == [Crash, Publish];
    RunKeepsInv(s, steps);
  }

  /** A cell is cut down while its call waits, and the kernel is done with it. */
  lemma CutWhileWaiting(s: State) returns (steps: seq<Step>)
    requires Inv(s) && s.client.Waiting? && !s.broken
    ensures CanRun(s, steps)
    ensures var s' := Run(s, steps);
      && s'.kernel.Returned? && !s'.broken && FrameSent(s')
      && s'.leftOver == s.leftOver && s'.call == s.call && s'.number == s.number
  {
    CrashIsPublished(s);
    var kernel := CellReturns(Run(s, [Crash, Publish]), NOTHING);
    RunAppend(s, [Crash, Publish], kernel);
    steps := [Crash, Publish] + kernel;
  }

  /** A left-over caller comes about: a cell is cut down while its first call waits, and the next cell is begun. */
  lemma CallerIsLeftOver(call: Call) returns (steps: seq<Step>)
    ensures CanRun(Start(call), steps)
    ensures var s := Run(Start(call), steps); s.client.NotStarted? && s.leftOver == [Caller(call, 1)]
  {
    var s := Start(call);
    InitialInv(Characters(HEADER), call, 0, []);
    steps := CallIsMade(s, call);
    var more := CutWhileWaiting(Run(s, steps));
    RunAppend(s, steps, more);
    LeftOverAfterCut(Run(s, steps + more), call);
    steps := OneStepMore(s, steps + more, NextCell);
  }

  lemma LeftOverAfterCut(s: State, call: Call)
    requires s.leftOver == [] && FrameSent(s) && s.call == call && s.number == 1
    ensures LeftOver(s) == [Caller(call, 1)]
  {
  }

  /** The whole failing run: that caller takes the reply to the next cell's first call; if the kinds differ, a check fails. */
  lemma ReplyIsStolen(first: Call, second: Call) returns (steps: seq<Step>)
    ensures CanRun(Start(first), steps)
    ensures var s := Run(Start(first), steps); s.robbed && s.client.Waiting? && !Matched(s)
    ensures Run(Start(first), steps).broken <==> first.BlockingRequest? != second.BlockingRequest?
  {
    steps := CallerIsLeftOver(first);
    var s := Run(Start(first), steps);
    ReachableInv(first, steps);
    var more := TheftHappens(s, second, NOTHING);
    RunAppend(Start(first), steps, more);
    MatchedUnlessRobbed(Run(s, more));
    steps := steps + more;
  }

  // How a cell ended.

  /** What the steps of the cell say about its end: that it did not compile, was cut down, or came to its last line. */
  function EndAfter(end: Option<Status>, steps: seq<Step>): Option<Status>
    decreases |steps|
  {
    if steps == [] then end
    else
      EndAfter((match steps[0]
                case Compile(ok) => if ok then None else Some(CompileError)
                case Crash => Some(RuntimeError)
                case Finish => Some(Success)
                case NextCell => None
                case _ => end), steps[1..])
  }

  ghost predicate EndIs(s: State, end: Option<Status>) {
    end == if s.client.Ended? then Some(s.client.status) else None
  }

  lemma StepEnds(s: State, step: Step, end: Option<Status>)
    requires Enabled(s, step) && EndIs(s, end)
    ensures EndIs(Do(s, step), EndAfter(end, [step]))
  {
    assert [step][1..] == [];
  }

  lemma {:induction false} RunEnds(s: State, steps: seq<Step>, end: Option<Status>)
    requires CanRun(s, steps) && EndIs(s, end)
    ensures EndIs(Run(s, steps), EndAfter(end, steps))
    decreases |steps|
  {
    if steps != [] {
      StepEnds(s, steps[0], end);
      assert [steps[0]][1..] == [];
      RunEnds(Do(s, steps[0]), steps[1..], EndAfter(end, [steps[0]]));
    }
  }

  /** The status that the kernel returns is how the cell really ended, and it returns none before. */
  lemma StatusIsHonest(call: Call, steps: seq<Step>)
    requires CanRun(Start(call), steps)
    ensures var s, end := Run(Start(call), steps), EndAfter(None, steps);
      && (s.client.Ended? <==> end.Some?)
      && (s.kernel.Returned? ==> end == Some(s.kernel.status))
  {
    RunEnds(Start(call), steps, None);
    ReachableInv(call, steps);
  }

  // What a cell's end is reported as (DoExecute.swift).

  datatype Report =
    | Value | NoValue | ProcessKilled | Interrupted
    | StackTrace        // message from stderr, then the frames
    | CompilerOutput    // the compiler's own message

  /** The branches `doExecute` takes after the cell, on the state it finds. */
  function ReportOf(status: Status, hasValue: bool, alive: bool, hadStdout: bool, stderrSize: nat,
                    interrupted: bool): Report
  {
    if status.Success? then (if hasValue then Value else NoValue)
    else if !alive then ProcessKilled
    else if hadStdout then (if stderrSize == 0 && interrupted then Interrupted else StackTrace)
    else CompilerOutput
  }

  /**
   * Of the failed cells of a living process, those that printed their header are looked up on the stack, whatever else
   * they printed. The compiler's message is shown for those that did not compile, and for those cut down before that.
   */
  lemma FailureIsClassified(call: Call, steps: seq<Step>, hasValue: bool, stderrSize: nat, interrupted: bool)
    requires CanRun(Start(call), steps) && Run(Start(call), steps).kernel.Returned?
    ensures var s := Run(Start(call), steps);
      var report := ReportOf(s.kernel.status, hasValue, true, s.hadStdout, stderrSize, interrupted);
      && s.client.Ended? && s.client.status == s.kernel.status
      && (s.hadStdout <==> !s.client.stage.Headless?)
      && (report.CompilerOutput? <==>
            s.kernel.status.CompileError? || (s.kernel.status.RuntimeError? && s.client.stage.Headless?))
      && (report.StackTrace? || report.Interrupted? <==>
            s.kernel.status.RuntimeError? && !s.client.stage.Headless?)
  {
    ReachableInv(call, steps);
    ReturnedIsClassified(Run(Start(call), steps));
  }

  lemma ReturnedIsClassified(s: State)
    requires ResultInv(s) && HeaderInv(s) && s.kernel.Returned?
    ensures s.client.Ended? && s.client.status == s.kernel.status && (s.hadStdout <==> !s.client.stage.Headless?)
    ensures s.kernel.status.CompileError? ==> s.client.stage.Headless?
  {
  }

  /** A cell interrupted between its start and its header: it compiled, but is reported as if it had not. */
  lemma InterruptedBeforeHeader(call: Call)
    ensures var steps := [Compile(true), Crash, Publish] + [Observe, Drain(0), EndPoll];
      CanRun(Start(call), steps) &&
      var s := Run(Start(call), steps);
      && s.kernel == Kernel.Returned(RuntimeError)
      && ReportOf(s.kernel.status, false, true, s.hadStdout, 0, true) == CompilerOutput
  {
    var s := Start(call);
    var steps := OneStepMore(s, [], Compile(true));
    steps := OneStepMore(s, steps, Crash);
    steps := OneStepMore(s, steps, Publish);
    assert steps == [Compile(true), Crash, Publish];
    OnePollOfNothing(Run(s, steps));
    RunAppend(s, steps, [Observe, Drain(0), EndPoll]);
  }

  /** One poll of a cell that ended without output. */
  lemma OnePollOfNothing(s: State)
    requires !s.broken && s.kernel.Sleeping? && s.result.Some? && s.client.Ended? && s.out == []
    ensures CanRun(s, [Observe, Drain(0), EndPoll])
    ensures var s' := Run(s, [Observe, Drain(0), EndPoll]);
      s'.kernel == Kernel.Returned(s.result.value) && s'.hadStdout == s.hadStdout
  {
    var steps := OneStepMore(s, [], Observe);
    steps := OneStepMore(s, steps, Drain(0));
    steps := OneStepMore(s, steps, EndPoll);
    assert steps == [Observe, Drain(0), EndPoll];
  }

  // Progress.

  /** A step of the kernel that, when it drains, sees all the output there is. */
  predicate PromptKernelStep(s: State, step: Step) {
    KernelStep(step) && (step.Drain? ==> step.n == |s.out|)
  }

  function NextKernelStep(s: State, answer: Content): Step {
    match s.kernel
    case Sleeping => Observe
    case Draining(_) => Drain(|s.out|)
    case Sending(_, pending) =>
      if pending == [] then EndPoll
      else if !pending[0].Mark? then Emit
      else if s.messages == [] then Fetch else Execute(answer)
    case Replying(_, _, _) => Answer
    case Removing(_, _) => Remove
    case Returned(_) => NextCell
  }

  /** The kernel always has a step to take, until it returns. */
  lemma KernelNeverJams(s: State, answer: Content)
    requires Inv(s) && !s.broken && !s.kernel.Returned?
    ensures Enabled(s, NextKernelStep(s, answer)) && PromptKernelStep(s, NextKernelStep(s, answer))
  {
    if AtMark(s.kernel) {
      MarkIsOutstanding(s);
      ReplyMatchesCall(s.call, s.call, s.number, answer);
    }
  }

  lemma MarkIsOutstanding(s: State)
    requires FrameInv(s) && AtMark(s.kernel)
    ensures Outstanding(s) && !s.robbed && Marks(Undone(s)) == 1
    ensures s.messages != [] ==> s.messages == [Current(s)]
    ensures FrameSent(s) ==> s.messages == [Current(s)] || s.requests == [Current(s)]
  {
    MarkInFront(s);
  }

  /** What the kernel leaves alone. */
  ghost predicate SameClient(s: State, s': State) {
    && s'.client == s.client && s'.leftOver == s.leftOver && s'.robbed == s.robbed && s'.received == s.received
    && s'.number == s.number && s'.call == s.call && s'.result == s.result
  }

  lemma KernelLeavesClient(s: State, step: Step)
    requires Inv(s) && Enabled(s, step) && KernelStep(step)
    ensures Inv(Do(s, step)) && SameClient(s, Do(s, step)) && !Do(s, step).broken
  {
    KernelKeepsInv(s, step);
    if step.Drain? {
      DrainKeepsInv(s, step.n);
    }
  }

  function Length(s: State): nat { |Held(s)| + |s.out| }

  /** How far the frame of the waiting call has to go before its reply is in the pipe. */
  function Distance(s: State): nat {
    match s.kernel
    case Sleeping => 5
    case Draining(_) => 4
    case Sending(_, _) => (if s.messages != [] then 2 else 3) + (if Marks(Held(s)) > 0 then 0 else 3)
    case Replying(_, _, _) => 1
    case Removing(_, _) => 4 + (if Marks(Held(s)) > 0 then 0 else 3)
    case Returned(_) => 0
  }

  lemma DrainBringsNearer(s: State)
    requires Inv(s) && FrameSent(s) && Marks(Undone(s)) == 1 && Enabled(s, Drain(|s.out|))
    ensures var s' := Do(s, Drain(|s.out|));
      Marks(Held(s')) == 1 && Length(s') <= Length(s) && s'.kernel.Sending? && s'.messages == [] && s'.out == []
  {
    var s' := Do(s, Drain(|s.out|));
    assert Drains(s, s', |s.out|);
    DrainSplits(s, s', |s.out|);
    assert Undone(s') == Held(s');
  }

  lemma EmitBringsNearer(s: State)
    requires Enabled(s, Emit)
    ensures var s' := Do(s, Emit); Length(s') < Length(s) && Marks(Held(s')) == Marks(Held(s))
  {
    var s' := Do(s, Emit);
    assert Held(s) == [s.kernel.pending[0]] + Held(s');
    ViewAppend([s.kernel.pending[0]], Held(s'), Current(s));
  }

  /** Nothing to show and no reply: the marker is still to come. */
  lemma MarkIsStillToCome(s: State)
    requires FrameInv(s) && FrameSent(s) && !s.robbed && s.replies == [] && !s.kernel.Replying?
    ensures Marks(Undone(s)) == 1
  {
  }

  /**
   * While a client waits and has not been robbed, every prompt step the kernel can take brings its reply nearer: the
   * measure falls, or the reply is there.  In particular a marker that arrives before its frame does no harm.
   */
  lemma EveryStepBringsTheReplyNearer(s: State, step: Step)
    requires Inv(s) && s.client.Waiting? && !s.robbed && s.replies == []
    requires Enabled(s, step) && PromptKernelStep(s, step)
    ensures var s' := Do(s, step);
      && s'.client == s.client
      && (s'.replies != [] || Length(s') + Distance(s') < Length(s) + Distance(s))
  {
    assert s.result.None?;
    if step.Drain? {
      MarkIsStillToCome(s);
      DrainBringsNearer(s);
    } else if step.Emit? {
      EmitBringsNearer(s);
    } else if step.Fetch? || step.Execute? {
      MarkIsOutstanding(s);
    } else if step.EndPoll? {
      MarkIsStillToCome(s);
    }
  }

  /** So the reply arrives, within as many steps as the measure says, whatever the front end answers. */
  lemma {:induction false} ReplyArrives(s: State, answer: Content) returns (steps: seq<Step>)
    requires Inv(s) && s.client.Waiting? && !s.robbed && !s.broken
    ensures CanRun(s, steps) && |steps| <= Length(s) + Distance(s) && SameCell(steps)
    ensures var s' := Run(s, steps);
      Inv(s') && SameClient(s, s') && Enabled(s', Receive) && Do(s', Receive).client.Running?
    decreases Length(s) + Distance(s)
  {
    if s.replies != [] {
      return [];
    }
    var step := NextKernelStep(s, answer);
    assert s.result.None?;
    KernelNeverJams(s, answer);
    EveryStepBringsTheReplyNearer(s, step);
    KernelLeavesClient(s, step);
    if Do(s, step).replies != [] {
      RunOne(s, step);
      return [step];
    }
    var rest := ReplyArrives(Do(s, step), answer);
    steps := [step] + rest;
    assert steps[1..] == rest;
  }

  // Completion.

  /** The kernel's own work on the frame of the last call. */
  function FrameWork(s: State): nat {
    var marked := Marks(Undone(s)) > 0;
    if s.kernel.Removing? then 1 + (if marked then 4 else 0)
    else if s.kernel.Replying? then 2
    else if !marked then 0
    else if s.messages == [] then 4 else 3
  }

  /** Where the polling loop is, counting down to the poll that comes after the published result. */
  function LoopWork(s: State): nat {
    match s.kernel
    case Draining(seen) => if seen then 2 else 5
    case Sleeping => 3
    case Returned(_) => 0
    case _ => if s.kernel.seen then 1 else 4
  }

  function Work(s: State): nat { Length(s) + FrameWork(s) + LoopWork(s) }

  /** The cell ended after the start marker of a call was printed and before its frame was sent. */
  predicate CutShort(s: State) {
    s.client.Ended? && s.client.stage.Unsent?
  }

  ghost predicate Finishing(s: State) {
    Inv(s) && s.result.Some? && !CutShort(s)
  }

  lemma DrainLowersWork(s: State)
    requires Finishing(s) && Enabled(s, Drain(|s.out|))
    ensures Work(Do(s, Drain(|s.out|))) < Work(s)
  {
    var s' := Do(s, Drain(|s.out|));
    assert Drains(s, s', |s.out|);
    DrainSplits(s, s', |s.out|);
  }

  lemma EmitLowersWork(s: State)
    requires Finishing(s) && Enabled(s, Emit)
    ensures Work(Do(s, Emit)) < Work(s)
  {
    var t := s.kernel.pending[0];
    assert Undone(s) == [t] + Undone(Do(s, Emit));
    ViewAppend([t], Undone(Do(s, Emit)), Current(s));
  }

  lemma MarkLowersWork(s: State, step: Step)
    requires Finishing(s) && Enabled(s, step) && (step.Fetch? || step.Execute?)
    ensures Work(Do(s, step)) < Work(s)
  {
    MarkIsOutstanding(s);
    if step.Fetch? {
      assert Undone(Do(s, step)) == Undone(s);
    }
  }

  lemma ObserveLowersWork(s: State)
    requires Finishing(s) && Enabled(s, Observe)
    ensures Work(Do(s, Observe)) < Work(s)
  {
    assert Undone(Do(s, Observe)) == Undone(s);
  }

  lemma EndPollLowersWork(s: State)
    requires Finishing(s) && Enabled(s, EndPoll)
    ensures Work(Do(s, EndPoll)) < Work(s)
  {
    assert Undone(Do(s, EndPoll)) == Undone(s);
  }

  lemma AnswerLowersWork(s: State, step: Step)
    requires Finishing(s) && Enabled(s, step) && (step.Answer? || step.Remove?)
    ensures Work(Do(s, step)) < Work(s)
  {
    assert Undone(Do(s, step)) == Undone(s);
  }

  /** Once the result is published, every prompt step of the kernel brings the end nearer. */
  lemma EveryStepBringsTheEndNearer(s: State, step: Step)
    requires Finishing(s) && Enabled(s, step) && PromptKernelStep(s, step)
    ensures Finishing(Do(s, step)) && Work(Do(s, step)) < Work(s)
  {
    KernelLeavesClient(s, step);
    if step.Drain? {
      DrainLowersWork(s);
    } else if step.Emit? {
      EmitLowersWork(s);
    } else if step.Fetch? || step.Execute? {
      MarkLowersWork(s, step);
    } else if step.Answer? || step.Remove? {
      AnswerLowersWork(s, step);
    } else if step.Observe? {
      ObserveLowersWork(s);
    } else {
      EndPollLowersWork(s);
    }
  }

  lemma {:induction false} CellReturns(s: State, answer: Content) returns (steps: seq<Step>)
    requires Finishing(s) && !s.broken
    ensures CanRun(s, steps) && |steps| <= Work(s) && SameCell(steps)
    ensures var s' := Run(s, steps); s'.kernel.Returned? && SameClient(s, s') && !s'.broken
    decreases Work(s)
  {
    if s.kernel.Returned? {
      return [];
    }
    var step := NextKernelStep(s, answer);
    KernelNeverJams(s, answer);
    EveryStepBringsTheEndNearer(s, step);
    KernelLeavesClient(s, step);
    var rest := CellReturns(Do(s, step), answer);
    steps := [step] + rest;
    assert steps[1..] == rest;
  }

  lemma CutShortStays(s: State, step: Step)
    requires Inv(s) && CutShort(s) && Enabled(s, step)
    ensures !s.kernel.Returned? && CutShort(Do(s, step))
  {
    assert Marks(Undone(s)) == 1;
    assert Undone(s) != [];
  }

  /** A call that is cut down after its marker and before its frame leaves the kernel waiting for ever. */
  lemma {:induction false} KernelNeverReturns(s: State, steps: seq<Step>)
    requires Inv(s) && CutShort(s) && CanRun(s, steps)
    ensures !Run(s, steps).kernel.Returned?
    decreases |steps|
  {
    if steps == [] {
      assert Marks(Undone(s)) == 1;
      assert Undone(s) != [];
    } else {
      CutShortStays(s, steps[0]);
      StepKeepsInv(s, steps[0]);
      KernelNeverReturns(Do(s, steps[0]), steps[1..]);
    }
  }

  /**
   * Over any run of any number of cells in which no check has failed: a cell whose result is published can be
   * completed if and only if it was not cut down at that one point.
   */
  lemma CompletionCondition(call: Call, steps: seq<Step>)
    requires CanRun(Start(call), steps) && Run(Start(call), steps).result.Some? && !Run(Start(call), steps).broken
    ensures var s := Run(Start(call), steps);
      (exists more :: CanRun(s, more) && Run(s, more).kernel.Returned?) <==> !CutShort(s)
  {
    ReachableInv(call, steps);
    var s := Run(Start(call), steps);
    if CutShort(s) {
      forall more | CanRun(s, more) ensures !Run(s, more).kernel.Returned? {
        KernelNeverReturns(s, more);
      }
    } else {
      var more := CellReturns(s, NOTHING);
      assert CanRun(s, more) && Run(s, more).kernel.Returned?;
    }
  }

  /** That point can be reached: a cell interrupted right after its first start marker. */
  lemma CutShortIsReachable(call: Call)
    ensures var steps := [Compile(true), PrintHeader, Begin(call), Crash, Publish];
      CanRun(Start(call), steps) && Run(Start(call), steps).client == Ended(RuntimeError, Unsent)
  {
    var s := Start(call);
    var steps := OneStepMore(s, [], Compile(true));
    steps := OneStepMore(s, steps, PrintHeader);
    steps := OneStepMore(s, steps, Begin(call));
    steps := OneStepMore(s, steps, Crash);
    steps := OneStepMore(s, steps, Publish);
    assert steps == [Compile(true), PrintHeader, Begin(call), Crash, Publish];
  }

  // The kernel's steps and StdoutHandler.

  /** What the notebook shows for some drained output, when `queue` holds the messages to come. */
  function Displayed(toks: seq<Token>, queue: seq<Message>): seq<Observation> {
    if toks == [] then []
    else if !toks[0].Mark? then [See(toks[0], Message("", "", 0))] + Displayed(toks[1..], queue)
    else if queue == [] then []
    else [Asked(queue[0])] + Displayed(toks[1..], queue[1..])
  }

  function Shows(text: string): seq<Observation> {
    if text == "" then [] else [Shown(text[0])] + Shows(text[1..])
  }

  function Observations(responses: seq<Response>): seq<Observation> {
    if responses == [] then []
    else
      (match responses[0]
       case StreamText(text) => Shows(text)
       case ClearedOutput => [Cleared]
       case Executed(m) => [Asked(m)])
      + Observations(responses[1..])
  }

  lemma {:induction false} ChunksDisplay(toks: seq<Token>, queue: seq<Message>)
    ensures Observations(Serve(Chunks(toks), queue).responses) == Displayed(toks, queue)
  {
    if toks != [] {
      var t, r := toks[0], Chunks(toks[1..]);
      if t.Ch? {
        ChunksDisplay(toks[1..], queue);
        ServeFirst(Stream([t.c] + r[0].text), r[1..], queue);
        ServeFirst(r[0], r[1..], queue);
        var rest := Observations(Serve(r[1..], queue).responses);
        assert r == [r[0]] + r[1..];
        assert Shows([t.c] + r[0].text) == [Shown(t.c)] + Shows(r[0].text) by {
          assert ([t.c] + r[0].text)[1..] == r[0].text;
        }
        Associative([Shown(t.c)], Shows(r[0].text), rest);
      } else {
        var e := EventOf(t);
        ServeFirst(Stream(""), [e] + r, queue);
        if t.Clear? || queue != [] {
          ChunksDisplay(toks[1..], QueueAfter(e, queue));
          ServeFirst(e, r, queue);
        }
      }
    }
  }

  lemma ServeFirst(e: Event, rest: seq<Event>, queue: seq<Message>)
    requires e.NextMessage? ==> queue != []
    ensures
      Observations(Serve([e] + rest, queue).responses) ==
      (match ResponseTo(e, queue)
       case StreamText(text) => Shows(text)
       case ClearedOutput => [Cleared]
       case Executed(m) => [Asked(m)])
      + Observations(Serve(rest, QueueAfter(e, queue)).responses)
  {
    assert ([e] + rest)[1..] == rest;
    var served := Serve(rest, QueueAfter(e, queue));
    assert ([ResponseTo(e, queue)] + served.responses)[1..] == served.responses;
  }

  /** `sendStdout` of the characters shows the tokens, if the text does not spell a marker. */
  lemma SendStdoutDisplays(toks: seq<Token>, queue: seq<Message>, served: Served)
    requires Unambiguous(SWIFT_MARKERS, toks) && ServesAs(Render(SWIFT_MARKERS, toks), queue, served)
    ensures Observations(served.responses) == Displayed(toks, queue)
  {
    TokenizeRender(SWIFT_MARKERS, toks);
    ChunksDisplay(toks, queue);
  }

  /** Messages the kernel has still to execute. */
  function MessageQueue(s: State): seq<Message> {
    (if (s.kernel.Replying? || s.kernel.Removing?) && s.messages != [] then s.messages[1..] else s.messages) + s.requests
  }

  /** What has been shown and what is about to be shown of the output held. */
  function Display(s: State): seq<Observation> {
    s.sent + Displayed(Held(s), MessageQueue(s))
  }

  lemma EmitDisplays(s: State)
    requires Enabled(s, Emit)
    ensures Display(Do(s, Emit)) == Display(s)
  {
    var s' := Do(s, Emit);
    Associative(s.sent, [See(s.kernel.pending[0], Current(s))], Displayed(Held(s'), MessageQueue(s)));
  }

  lemma ExecuteDisplays(s: State, answer: Content)
    requires Enabled(s, Execute(answer))
    ensures Display(Do(s, Execute(answer))) == Display(s)
  {
    var s' := Do(s, Execute(answer));
    assert MessageQueue(s) == [s.messages[0]] + MessageQueue(s');
    Associative(s.sent, [Asked(s.messages[0])], Displayed(Held(s'), MessageQueue(s')));
  }

  lemma FetchDisplays(s: State)
    requires Enabled(s, Fetch)
    ensures Display(Do(s, Fetch)) == Display(s)
  {
    assert MessageQueue(Do(s, Fetch)) == MessageQueue(s);
  }

  lemma AnswerDisplays(s: State)
    requires Enabled(s, Answer) && s.messages != []
    ensures Display(Do(s, Answer)) == Display(s)
  {
  }

  lemma RemoveDisplays(s: State)
    requires Enabled(s, Remove)
    ensures Display(Do(s, Remove)) == Display(s)
  {
  }

  /** Each kernel step between a drain and the end of a poll carries out part of that same display. */
  lemma KernelStepsDisplay(s: State, step: Step)
    requires FrameInv(s) && Enabled(s, step)
    requires step.Emit? || step.Fetch? || step.Execute? || step.Answer? || step.Remove?
    ensures Display(Do(s, step)) == Display(s)
  {
    match step
    case Emit => EmitDisplays(s);
    case Execute(answer) => ExecuteDisplays(s, answer);
    case Fetch => FetchDisplays(s);
    case Answer => AnswerDisplays(s);
    case Remove => RemoveDisplays(s);
  }
}
