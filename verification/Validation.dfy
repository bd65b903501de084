/** What validation is good for, what opening and resetting do, and that nothing is lost between two fetches. */
module Validation {
  import opened Generations
  import opened Wrappers

  // Zombies.

  /** The counter that the process has cached is not the counter. */
  predicate Outdated(s: State, pid: nat) {
    pid in s.processes && s.processes[pid].cached != s.counter
  }

  predicate BelongsTo(s: State, tid: nat, pid: nat) {
    tid in s.threads && s.threads[tid].pid == pid
  }

  predicate Accesses(step: Step, tid: nat) {
    (step.Read? || step.Write?) && step.tid == tid
  }

  /** Exactly the processes that are up to date survive a validation, and their threads may go on. */
  lemma ValidationStopsExactly(s: State, tid: nat, payload: int, most: nat)
    requires Enabled(s, Validate(tid))
    ensures var pid, s' := s.threads[tid].pid, Do(s, Validate(tid));
      && (Alive(s', pid) <==> !Outdated(s, pid))
      && (Enabled(s', Write(tid, payload)) <==> !Outdated(s, pid))
      && (Enabled(s', Read(tid, most)) <==> !Outdated(s, pid))
  {
  }

  ghost predicate StaysOutdated(s: State, steps: seq<Step>, pid: nat)
    requires CanRun(s, steps)
    decreases |steps|
  {
    Outdated(s, pid) && (steps == [] || StaysOutdated(Do(s, steps[0]), steps[1..], pid))
  }

  /** If it is a thread of that process, it has its next validation still before it, or its process is dead. */
  predicate Held(s: State, pid: nat, tid: nat) {
    BelongsTo(s, tid, pid) ==> s.threads[tid].phase.Idle? || !Alive(s, pid)
  }

  lemma FOpenLeaves(s: State, name: (nat, File), mode: Mode)
    ensures var s' := FOpen(s, name, mode);
      s'.processes == s.processes && s'.threads == s.threads && s'.counter == s.counter && s'.orderly == s.orderly
  {
  }

  lemma ResetMoves(s: State, pid: nat)
    requires Enabled(s, Reset(pid))
    ensures var s' := DoReset(s, pid);
      && s'.threads == s.threads && s'.counter == s.processes[pid].next
      && s'.processes == s.processes[pid := s.processes[pid].(next := None)]
  {
    var n := s.processes[pid].next.value;
    FOpenLeaves(Written(s, pid, n), (n, One), WB);
    FOpenLeaves(FOpen(Written(s, pid, n), (n, One), WB), (n, Two), WB);
  }

  lemma OpeningMoves(s: State, pid: nat)
    requires Enabled(s, OpenFiles(pid))
    ensures var s' := DoOpen(s, pid);
      && s'.threads == s.threads && s'.counter == s.counter && pid in s'.processes
      && s'.processes == s.processes[pid := s'.processes[pid]]
      && s'.processes[pid].cached == s.processes[pid].cached
  {
    var p := s.processes[pid];
    var one, two := (p.cached.value, One), (p.cached.value, Two);
    var mode := if p.kind.LLDB? then AB else RB;
    FOpenLeaves(s, one, mode);
    FOpenLeaves(FOpen(s, one, mode), two, if p.kind.JupyterKernel? then AB else RB);
  }

  /** What a reset or an opening of files leaves of processes and threads. */
  lemma FilesMove(s: State, step: Step)
    requires Enabled(s, step) && (step.Reset? || step.OpenFiles?)
    ensures var s' := Do(s, step);
      && s'.threads == s.threads && s'.counter == (if step.Reset? then s.processes[step.pid].next else s.counter)
      && s'.processes == s.processes[step.pid := s'.processes[step.pid]]
      && s'.processes[step.pid].cached == s.processes[step.pid].cached
  {
    if step.Reset? {
      ResetMoves(s, step.pid);
    } else {
      OpeningMoves(s, step.pid);
    }
  }

  lemma HeldStaysByFiles(s: State, step: Step, pid: nat, tid: nat)
    requires Enabled(s, step) && (step.Reset? || step.OpenFiles?) && Held(s, pid, tid)
    ensures Held(Do(s, step), pid, tid)
  {
    FilesMove(s, step);
  }

  lemma HeldStaysByOthers(s: State, step: Step, pid: nat, tid: nat)
    requires Enabled(s, step) && Outdated(s, pid) && Held(s, pid, tid) && !step.Reset? && !step.OpenFiles?
    ensures Held(Do(s, step), pid, tid)
    ensures BelongsTo(Do(s, step), tid, pid) ==> !Accesses(step, tid)
  {
  }

  lemma HeldStays(s: State, step: Step, pid: nat, tid: nat)
    requires Enabled(s, step) && Outdated(s, pid) && Held(s, pid, tid)
    ensures Held(Do(s, step), pid, tid)
    ensures BelongsTo(Do(s, step), tid, pid) ==> !Accesses(step, tid)
  {
    if step.Reset? || step.OpenFiles? {
      HeldStaysByFiles(s, step, pid, tid);
    } else {
      HeldStaysByOthers(s, step, pid, tid);
    }
  }

  lemma ThreadStays(s: State, step: Step, tid: nat)
    requires Enabled(s, step) && tid in s.threads
    ensures tid in Do(s, step).threads && Do(s, step).threads[tid].pid == s.threads[tid].pid
  {
    if step.Reset? || step.OpenFiles? {
      FilesMove(s, step);
    }
  }

  lemma DeadStaysDeadByOthers(s: State, step: Step, pid: nat)
    requires Enabled(s, step) && pid in s.processes && !Alive(s, pid) && !step.Reset? && !step.OpenFiles?
    ensures pid in Do(s, step).processes && !Alive(Do(s, step), pid)
  {
  }

  lemma DeadStaysDead(s: State, step: Step, pid: nat)
    requires Enabled(s, step) && pid in s.processes && !Alive(s, pid)
    ensures pid in Do(s, step).processes && !Alive(Do(s, step), pid)
  {
    if step.Reset? || step.OpenFiles? {
      FilesMove(s, step);
    } else {
      DeadStaysDeadByOthers(s, step, pid);
    }
  }

  lemma {:induction false} DeadForEver(s: State, steps: seq<Step>, pid: nat)
    requires CanRun(s, steps) && pid in s.processes && !Alive(s, pid)
    ensures !Alive(Run(s, steps), pid)
    decreases |steps|
  {
    if steps != [] {
      DeadStaysDead(s, steps[0], pid);
      DeadForEver(Do(s, steps[0]), steps[1..], pid);
    }
  }

  lemma {:induction false} ThreadForEver(s: State, steps: seq<Step>, tid: nat)
    requires CanRun(s, steps) && tid in s.threads
    ensures tid in Run(s, steps).threads && Run(s, steps).threads[tid].pid == s.threads[tid].pid
    decreases |steps|
  {
    if steps != [] {
      ThreadStays(s, steps[0], tid);
      ThreadForEver(Do(s, steps[0]), steps[1..], tid);
    }
  }

  ghost predicate AccessesNothing(steps: seq<Step>, tid: nat) {
    forall step :: step in steps ==> !Accesses(step, tid)
  }

  /** While a process is outdated, threads of it that are not yet past a validation read and write nothing. */
  lemma {:induction false} OutdatedAccessesNothing(s: State, steps: seq<Step>, pid: nat, tid: nat)
    requires CanRun(s, steps) && StaysOutdated(s, steps, pid) && Held(s, pid, tid)
    ensures BelongsTo(Run(s, steps), tid, pid) ==> AccessesNothing(steps, tid)
    decreases |steps|
  {
    if steps != [] && BelongsTo(Run(s, steps), tid, pid) {
      var s' := Do(s, steps[0]);
      HeldStays(s, steps[0], pid, tid);
      OutdatedAccessesNothing(s', steps[1..], pid, tid);
      if Accesses(steps[0], tid) {
        ThreadForEver(s', steps[1..], tid);
      }
      assert forall step :: step in steps ==> step == steps[0] || step in steps[1..];
    }
  }

  /** The first validation of any of its threads is the end of it. */
  lemma {:induction false} ValidationKills(s: State, steps: seq<Step>, pid: nat, tid: nat)
    requires CanRun(s, steps) && StaysOutdated(s, steps, pid) && Validate(tid) in steps
    requires BelongsTo(Run(s, steps), tid, pid)
    ensures !Alive(Run(s, steps), pid)
    decreases |steps|
  {
    var s' := Do(s, steps[0]);
    if steps[0] == Validate(tid) {
      ThreadForEver(s', steps[1..], tid);
      ThreadStays(s, steps[0], tid);
      ValidationStopsExactly(s, tid, 0, 0);
      DeadForEver(s', steps[1..], pid);
    } else {
      ValidationKills(s', steps[1..], pid, tid);
    }
  }

  /** Its cached counter lies behind the counter. */
  predicate Behind(s: State, pid: nat) {
    && pid in s.processes && s.counter.Some?
    && (s.processes[pid].cached.Some? ==> s.processes[pid].cached.value < s.counter.value)
  }

  lemma StaysBehindByOthers(s: State, step: Step, pid: nat)
    requires Enabled(s, step) && Behind(s, pid) && step != LoadCounter(pid) && !step.Reset? && !step.OpenFiles?
    ensures Behind(Do(s, step), pid)
  {
  }

  lemma StaysBehind(s: State, step: Step, pid: nat)
    requires Enabled(s, step) && Behind(s, pid) && step != LoadCounter(pid) && Do(s, step).orderly
    ensures Behind(Do(s, step), pid)
  {
    OrderlyBefore(s, step);
    if step.Reset? || step.OpenFiles? {
      FilesMove(s, step);
    } else {
      StaysBehindByOthers(s, step, pid);
    }
  }

  lemma {:induction false} OrderlyAllAlong(s: State, steps: seq<Step>)
    requires CanRun(s, steps) && Run(s, steps).orderly
    ensures s.orderly
    decreases |steps|
  {
    if steps != [] {
      OrderlyAllAlong(Do(s, steps[0]), steps[1..]);
      OrderlyBefore(s, steps[0]);
    }
  }

  /** As long as the counter is only counted up, a process stays outdated until it loads the counter. */
  lemma {:induction false} BehindStaysOutdated(s: State, steps: seq<Step>, pid: nat)
    requires CanRun(s, steps) && Run(s, steps).orderly && Behind(s, pid) && LoadCounter(pid) !in steps
    ensures StaysOutdated(s, steps, pid)
    decreases |steps|
  {
    if steps != [] {
      OrderlyAllAlong(Do(s, steps[0]), steps[1..]);
      assert steps[0] in steps;
      StaysBehind(s, steps[0], pid);
      BehindStaysOutdated(Do(s, steps[0]), steps[1..], pid);
    }
  }

  lemma OutdatedIsBehind(s: State, pid: nat)
    requires Reachable(s) && s.orderly && Outdated(s, pid)
    ensures Behind(s, pid)
  {
    ReachableOrder(s);
    assert ProcessOrder(s.counter, s.processes[pid]);
  }

  /**
   * Over every run in which the counter is only counted up, from any state in which a process is outdated and for as long
   * as it does not load the counter: no thread of it that was about to validate, or that comes later, ever reads or
   * writes, and the process is dead after the first validation of one.
   */
  lemma OutdatedProcessIsStopped(s: State, steps: seq<Step>, pid: nat, tid: nat)
    requires Reachable(s) && Outdated(s, pid)
    requires CanRun(s, steps) && Run(s, steps).orderly && LoadCounter(pid) !in steps
    requires BelongsTo(Run(s, steps), tid, pid)
    ensures tid !in s.threads || s.threads[tid].phase.Idle? ==> AccessesNothing(steps, tid)
    ensures Validate(tid) in steps ==> !Alive(Run(s, steps), pid)
  {
    OrderlyAllAlong(s, steps);
    OutdatedIsBehind(s, pid);
    BehindStaysOutdated(s, steps, pid);
    if tid !in s.threads || s.threads[tid].phase.Idle? {
      OutdatedAccessesNothing(s, steps, pid, tid);
    }
    if Validate(tid) in steps {
      ValidationKills(s, steps, pid, tid);
    }
  }

  /** Two kernels and an LLDB process, of which one kernel has read the counter before there was one. */
  lemma ThreeProcesses() returns (s: State)
    ensures Reachable(s) && s.orderly && s.counter.None? && s.threads == map[]
    ensures Alive(s, 0) && Alive(s, 1) && Alive(s, 2) && s.processes[1].next == Some(0)
  {
    s := Empty();
    assert CanRun(s, []) && Run(s, []) == s;
    s := Reach(s, Launch(0, JupyterKernel));
    s := Reach(s, Launch(1, JupyterKernel));
    s := Reach(s, Launch(2, LLDB));
    s := Reach(s, ReadCounter(1));
  }

  /** The other kernel resets, and the LLDB process makes a call. */
  lemma SlowKernel() returns (s: State)
    ensures Reachable(s) && s.orderly && s.counter == Some(0) && s.threads == map[7 := Thread(2, 0, Idle)]
    ensures Alive(s, 0) && Alive(s, 1) && s.processes[1].next == Some(0)
    ensures Alive(s, 2) && s.processes[2].cached == Some(0)
  {
    s := ThreeProcesses();
    s := Reach(s, ReadCounter(0));
    ResetMoves(s, 0);
    s := Reach(s, Reset(0));
    s := Reach(s, LoadCounter(2));
    s := Reach(s, BeginCall(7, 2));
  }

  /** It is reset once more, and then the kernel that read the counter first writes it. */
  lemma CounterReturns(s: State)
    requires Enabled(s, Reset(1)) && s.processes[1].next == Some(0) && s.threads == map[7 := Thread(2, 0, Idle)]
    requires Alive(s, 2) && s.processes[2].cached == Some(0)
    ensures CanRun(s, [Reset(1), Validate(7)])
    ensures var s' := Run(s, [Reset(1), Validate(7)]); Alive(s', 2) && s'.threads[7].phase.Validated?
  {
    FilesMove(s, Reset(1));
    var back := Do(s, Reset(1));
    RunTwo(s, Reset(1), Validate(7));
  }

  lemma RunTwo(s: State, first: Step, second: Step)
    requires Enabled(s, first) && Enabled(Do(s, first), second)
    ensures CanRun(s, [first, second]) && Run(s, [first, second]) == Do(Do(s, first), second)
  {
    var s', steps := Do(s, first), [first, second];
    assert steps[1..] == [second] && steps[1..][1..] == [];
    assert CanRun(Do(s', second), []) && Run(Do(s', second), []) == Do(s', second);
    assert CanRun(s', [second]) && Run(s', [second]) == Do(s', second);
  }

  /** Counting up is needed: a kernel that is slow to write the counter can make an outdated process pass validation. */
  lemma CounterComesBack() returns (s: State)
    ensures Reachable(s) && s.orderly && Outdated(s, 2) && s.threads == map[7 := Thread(2, 0, Idle)]
    ensures CanRun(s, [Reset(1), Validate(7)])
    ensures var s' := Run(s, [Reset(1), Validate(7)]); Alive(s', 2) && s'.threads[7].phase.Validated?
  {
    s := SlowKernel();
    s := Reach(s, ReadCounter(0));
    FilesMove(s, Reset(0));
    s := Reach(s, Reset(0));
    CounterReturns(s);
  }
}
