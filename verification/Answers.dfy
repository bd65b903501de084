/** Which answer comes back to which call, over every run of any number of cells. */
module Answers {
  import opened Messages
  import opened Stdout
  import opened Rendezvous
  import opened Guarantees

  /** A message that was executed, as the notebook saw it, and what the front end answered. */
  datatype Given = Given(m: Message, answer: Content)

  function GivenBy(s: State, step: Step): seq<Given>
    requires Enabled(s, step)
  {
    var sent := Do(s, step).sent;
    if step.Execute? && sent != [] && sent[|sent| - 1].Asked? then [Given(sent[|sent| - 1].m, step.answer)] else []
  }

  /** All that was executed and answered in a run. */
  function AllGiven(s: State, steps: seq<Step>): seq<Given>
    requires CanRun(s, steps)
    decreases |steps|
  {
    if steps == [] then [] else GivenBy(s, steps[0]) + AllGiven(Do(s, steps[0]), steps[1..])
  }

  /** The reply answers that message, and carries that answer to one who waits for it. */
  ghost predicate Carries(call: Call, reply: Reply, g: Given) {
    reply.call == g.m.call && call.Accepts(reply) && (call.BlockingRequest? ==> Tells(call.Decode(reply), g.answer))
  }

  /** It is the latest message that was executed, and it is that of the latest call. */
  ghost predicate CarriesLast(s: State, reply: Reply, log: seq<Given>) {
    log != [] && log[|log| - 1].m == Current(s) && Carries(s.call, reply, log[|log| - 1])
  }

  ghost predicate IsRecorded(d: Delivery, log: seq<Given>) {
    d.Own() ==> exists g :: g in log && g.m == d.caller.call.Encode(d.caller.number) && Carries(d.caller.call, d.reply, g)
  }

  /** The latest call has not been executed. */
  predicate Unexecuted(s: State) {
    Outstanding(s) && !s.kernel.Replying? && s.replies == [] && !s.robbed
  }

  ghost predicate Numbered(log: seq<Given>, number: nat) {
    && (forall i, j :: 0 <= i < j < |log| ==> log[i].m.call < log[j].m.call)
    && forall g :: g in log ==> g.m.call <= number
  }

  ghost predicate LogInv(s: State, log: seq<Given>) {
    && Numbered(log, s.number)
    && (Unexecuted(s) ==> forall g :: g in log ==> g.m.call < s.number)
    && (s.kernel.Replying? ==> CarriesLast(s, s.kernel.reply, log))
    && (s.replies != [] ==> CarriesLast(s, s.replies[0], log))
    && forall d :: d in s.received ==> IsRecorded(d, log)
  }

  /** A step that concerns neither calls nor replies. */
  lemma LogKept(s: State, s': State, log: seq<Given>)
    requires LogInv(s, log) && s'.received == s.received && s'.call == s.call && s'.number == s.number
    requires s'.replies == s.replies && (s'.kernel.Replying? ==> s'.kernel == s.kernel)
    requires Unexecuted(s') ==> Unexecuted(s)
    ensures LogInv(s', log)
  {
  }

  lemma LogAfterBegin(s: State, next: Call, log: seq<Given>)
    requires Inv(s) && Enabled(s, Begin(next)) && LogInv(s, log)
    ensures LogInv(Do(s, Begin(next)), log)
  {
    NotOutstanding(s);
  }

  lemma LogAfterExecute(s: State, answer: Content, log: seq<Given>)
    requires Inv(s) && Enabled(s, Execute(answer)) && LogInv(s, log)
    ensures LogInv(Do(s, Execute(answer)), log + GivenBy(s, Execute(answer)))
  {
    var s' := Do(s, Execute(answer));
    MarkInFront(s);
    MessageIsCurrent(s);
    var g := Given(Current(s), answer);
    assert GivenBy(s, Execute(answer)) == [g];
    AnswerComesBack(s.call, s.number, answer);
    ReplyMatchesCall(s.call, s.call, s.number, answer);
    assert CarriesLast(s', s'.kernel.reply, log + [g]);
    forall d | d in s'.received ensures IsRecorded(d, log + [g]) {
      assert IsRecorded(d, log);
    }
  }

  lemma LogAfterAnswer(s: State, log: seq<Given>)
    requires Inv(s) && Enabled(s, Answer) && LogInv(s, log)
    ensures LogInv(Do(s, Answer), log)
  {
    assert s.replies == [];
  }

  /** The reply is taken, by its caller or by another. */
  lemma LogAfterTaking(s: State, s': State, caller: Caller, log: seq<Given>)
    requires Inv(s) && LogInv(s, log) && s.replies != []
    requires s'.received == s.received + [Delivery(caller, s.replies[0])] && s'.replies == []
    requires s'.number == s.number && s'.call == s.call && s'.kernel == s.kernel && !Unexecuted(s')
    requires caller == Caller(s.call, s.number) || caller.number < s.number
    ensures LogInv(s', log)
  {
    ReplyIsThere(s, Marks(Undone(s)));
    var d := Delivery(caller, s.replies[0]);
    assert log[|log| - 1] in log;
    assert IsRecorded(d, log);
    forall e | e in s'.received ensures IsRecorded(e, log) {
      assert e == d || e in s.received;
    }
  }

  /** Any other step leaves calls and replies alone. */
  lemma OthersKeepLog(s: State, step: Step, log: seq<Given>)
    requires Enabled(s, step) && LogInv(s, log)
    requires !step.Execute? && !step.Begin? && !step.Answer? && !step.Receive? && !step.Steal? && !step.NextCell?
    ensures LogInv(Do(s, step), log) && GivenBy(s, step) == []
  {
    CallsStay(s, step);
    LogKept(s, Do(s, step), log);
  }

  lemma CallsStay(s: State, step: Step)
    requires Enabled(s, step)
    requires !step.Execute? && !step.Begin? && !step.Answer? && !step.Receive? && !step.Steal? && !step.NextCell?
    ensures var s' := Do(s, step);
      && s'.received == s.received && s'.call == s.call && s'.number == s.number && s'.replies == s.replies
      && (s'.kernel.Replying? ==> s'.kernel == s.kernel) && (Unexecuted(s') ==> Unexecuted(s))
  {
  }

  lemma LogAfterNextCell(s: State, log: seq<Given>)
    requires Enabled(s, NextCell) && LogInv(s, log)
    ensures LogInv(Do(s, NextCell), log) && GivenBy(s, NextCell) == []
  {
  }

  lemma LogAfterSteal(s: State, k: nat, log: seq<Given>)
    requires Inv(s) && Enabled(s, Steal(k)) && LogInv(s, log)
    ensures LogInv(Do(s, Steal(k)), log) && GivenBy(s, Steal(k)) == []
  {
    ReplyIsThere(s, Marks(Undone(s)));
    assert s.leftOver[k] in s.leftOver;
    LogAfterTaking(s, Do(s, Steal(k)), s.leftOver[k], log);
  }

  lemma StepKeepsLog(s: State, step: Step, log: seq<Given>)
    requires Inv(s) && Enabled(s, step) && LogInv(s, log)
    ensures LogInv(Do(s, step), log + GivenBy(s, step))
  {
    assert log + [] == log;
    if step.Execute? {
      LogAfterExecute(s, step.answer, log);
    } else if step.Begin? {
      LogAfterBegin(s, step.next, log);
    } else if step.Answer? {
      LogAfterAnswer(s, log);
    } else if step.Receive? {
      LogAfterTaking(s, Do(s, step), Caller(s.call, s.number), log);
    } else if step.Steal? {
      LogAfterSteal(s, step.k, log);
    } else if step.NextCell? {
      LogAfterNextCell(s, log);
    } else {
      OthersKeepLog(s, step, log);
    }
  }

  lemma {:induction false} RunKeepsLog(s: State, steps: seq<Step>, log: seq<Given>)
    requires Inv(s) && CanRun(s, steps) && LogInv(s, log)
    ensures LogInv(Run(s, steps), log + AllGiven(s, steps))
    decreases |steps|
  {
    if steps == [] {
      assert log + [] == log;
    } else {
      StepKeepsInv(s, steps[0]);
      StepKeepsLog(s, steps[0], log);
      RunKeepsLog(Do(s, steps[0]), steps[1..], log + GivenBy(s, steps[0]));
      Associative(log, GivenBy(s, steps[0]), AllGiven(Do(s, steps[0]), steps[1..]));
    }
  }

  lemma ExecutedOnce(log: seq<Given>, number: nat, i: nat, j: nat)
    requires Numbered(log, number) && i < |log| && j < |log| && log[i].m.call == log[j].m.call
    ensures i == j
  {
  }

  lemma RunIsLogged(call: Call, steps: seq<Step>)
    requires CanRun(Start(call), steps)
    ensures LogInv(Run(Start(call), steps), AllGiven(Start(call), steps))
  {
    InitialInv(Characters(HEADER), call, 0, []);
    RunKeepsLog(Start(call), steps, []);
    assert [] + AllGiven(Start(call), steps) == AllGiven(Start(call), steps);
  }

  /**
   * In every run no message is executed twice, and whoever gets the reply to a request of its own is told what the front
   * end answered when that very message was executed and shown.
   */
  lemma OwnAnswerComesBack(call: Call, steps: seq<Step>, d: Delivery) returns (g: Given)
    requires CanRun(Start(call), steps) && d in Run(Start(call), steps).received && d.Own()
    ensures var log := AllGiven(Start(call), steps);
      && g in log && g.m == d.caller.call.Encode(d.caller.number)
      && (forall i, j :: 0 <= i < |log| && 0 <= j < |log| && log[i].m.call == log[j].m.call ==> i == j)
    ensures d.caller.call.BlockingRequest? ==> Tells(d.caller.call.Decode(d.reply), g.answer)
  {
    RunIsLogged(call, steps);
    var s, log := Run(Start(call), steps), AllGiven(Start(call), steps);
    forall i, j | 0 <= i < |log| && 0 <= j < |log| && log[i].m.call == log[j].m.call ensures i == j {
      ExecutedOnce(log, s.number, i, j);
    }
    assert IsRecorded(d, log);
    g :| g in log && g.m == d.caller.call.Encode(d.caller.number) && Carries(d.caller.call, d.reply, g);
  }
}
