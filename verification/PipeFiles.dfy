/** The files of a generation: a reset starts them empty, opening finds them, and nothing is lost in them between two fetches. */
module PipeFiles {
  import opened Generations
  import opened Validation
  import opened Wrappers

  // Resetting.

  ghost predicate NamesHold(s: State) {
    forall name :: name in s.names ==> NameInv(s.inodes, name, s.names[name])
  }

  ghost predicate StartsEmpty(s: State, name: (nat, File)) {
    name in s.names && s.names[name] < |s.inodes| && s.inodes[s.names[name]].packets == []
  }

  /** What other names stand for is not touched. */
  ghost predicate OthersStay(s: State, s': State, name: (nat, File)) {
    forall other :: other != name ==>
      && (other in s'.names <==> other in s.names)
      && (other in s.names && s.names[other] < |s.inodes| ==>
            && s'.names[other] == s.names[other] < |s'.inodes|
            && s'.inodes[s'.names[other]] == s.inodes[s.names[other]])
  }

  lemma EmptiesOne(s: State, name: (nat, File))
    requires NamesHold(s)
    ensures var s' := FOpen(s, name, WB); NamesHold(s') && StartsEmpty(s', name) && OthersStay(s, s', name)
  {
    assert name in s.names ==> NameInv(s.inodes, name, s.names[name]);
    var s' := FOpen(s, name, WB);
    forall other | other != name && other in s.names ensures s.names[other] != s'.names[name] {
      assert NameInv(s.inodes, other, s.names[other]);
    }
    forall other | other in s'.names ensures NameInv(s'.inodes, other, s'.names[other]) {
      assert other in s.names ==> NameInv(s.inodes, other, s.names[other]);
    }
  }

  lemma EmptiesTwo(s: State, n: nat)
    requires NamesHold(s)
    ensures var s' := FOpen(FOpen(s, (n, One), WB), (n, Two), WB);
      && StartsEmpty(s', (n, One)) && StartsEmpty(s', (n, Two))
      && forall name: (nat, File) :: name.0 != n ==> (name in s'.names <==> name in s.names)
  {
    EmptiesOne(s, (n, One));
    EmptiesOne(FOpen(s, (n, One), WB), (n, Two));
  }

  lemma WrittenNames(s: State, pid: nat, n: nat)
    requires NamesHold(s) && pid in s.processes
    ensures var written := Written(s, pid, n);
      && NamesHold(written)
      && forall name: (nat, File) :: name in written.names <==> name in s.names && name.0 + 1 != n
  {
    var written := Written(s, pid, n);
    forall name | name in written.names ensures NameInv(written.inodes, name, written.names[name]) {
      assert NameInv(s.inodes, name, s.names[name]);
    }
  }

  /** A reset leaves two empty files of its generation, and takes the names from those of the generation before. */
  lemma ResetStartsEmpty(s: State, pid: nat)
    requires Reachable(s) && Enabled(s, Reset(pid))
    ensures var n, s' := s.processes[pid].next.value, Do(s, Reset(pid));
      && s'.counter == Some(n) && StartsEmpty(s', (n, One)) && StartsEmpty(s', (n, Two))
      && (n > 0 ==> (n - 1, One) !in s'.names && (n - 1, Two) !in s'.names)
      && forall name :: name in s.names && name.0 + 1 != n ==> name in s'.names
  {
    ReachableInv(s);
    ResetMoves(s, pid);
    WrittenNames(s, pid, s.processes[pid].next.value);
    EmptiesTwo(Written(s, pid, s.processes[pid].next.value), s.processes[pid].next.value);
  }

  // Opening.

  /** The files of the current generation have their names. */
  ghost predicate CurrentNamed(s: State) {
    s.counter.Some? ==> (s.counter.value, One) in s.names && (s.counter.value, Two) in s.names
  }

  lemma OpeningKeepsNames(s: State, pid: nat)
    requires Enabled(s, OpenFiles(pid))
    ensures forall name :: name in s.names ==> name in Do(s, OpenFiles(pid)).names
  {
  }

  lemma OthersKeepNames(s: State, step: Step)
    requires Enabled(s, step) && !step.Reset? && !step.OpenFiles?
    ensures Do(s, step).names == s.names && Do(s, step).counter == s.counter
  {
  }

  lemma StepKeepsNamed(s: State, step: Step)
    requires Reachable(s) && CurrentNamed(s) && Enabled(s, step)
    ensures CurrentNamed(Do(s, step))
  {
    if step.Reset? {
      ResetStartsEmpty(s, step.pid);
    } else if step.OpenFiles? {
      OpeningMoves(s, step.pid);
      OpeningKeepsNames(s, step.pid);
    } else {
      OthersKeepNames(s, step);
    }
  }

  lemma {:induction false} RunKeepsNamed(s: State, steps: seq<Step>)
    requires Reachable(s) && CurrentNamed(s) && CanRun(s, steps)
    ensures CurrentNamed(Run(s, steps))
    decreases |steps|
  {
    if steps != [] {
      var s' := Reach(s, steps[0]);
      StepKeepsNamed(s, steps[0]);
      RunKeepsNamed(s', steps[1..]);
    }
  }

  lemma ReachableNamed(s: State)
    requires Reachable(s)
    ensures CurrentNamed(s)
  {
    var steps :| CanRun(Empty(), steps) && Run(Empty(), steps) == s;
    assert CanRun(Empty(), []) && Run(Empty(), []) == Empty();
    RunKeepsNamed(Empty(), steps);
  }

  /** The name of the file that a process reads from, and of the one it writes to. */
  function ReadName(p: Process): (nat, File)
    requires p.cached.Some?
  {
    (p.cached.value, if p.kind.JupyterKernel? then One else Two)
  }

  function WriteName(p: Process): (nat, File)
    requires p.cached.Some?
  {
    (p.cached.value, if p.kind.JupyterKernel? then Two else One)
  }

  lemma NamesAfterOpening(s: State, p: Process)
    requires p.cached.Some?
    ensures var s' := Opened(s, p);
      && (ReadName(p) in s'.names <==> ReadName(p) in s.names) && WriteName(p) in s'.names
  {
  }

  /**
   * Opening the files stops a process exactly when the one it reads from has lost its name; so never one that has loaded
   * the current counter. Otherwise it reads, from the start, the file of its generation that the other kind of process
   * writes to, and writes to the other one.
   */
  lemma OpeningFailsExactly(s: State, pid: nat)
    requires Reachable(s) && Enabled(s, OpenFiles(pid))
    ensures var p, s' := s.processes[pid], Do(s, OpenFiles(pid));
      && (Alive(s', pid) <==> ReadName(p) in s.names) && (!Outdated(s, pid) ==> Alive(s', pid))
      && (Alive(s', pid) ==>
            && s'.processes[pid].files.Some? && ReadName(p) in s'.names && WriteName(p) in s'.names
            && s'.processes[pid].Receiver() == Handle(s'.names[ReadName(p)], 0)
            && s'.processes[pid].Sender() == Handle(s'.names[WriteName(p)], 0))
  {
    ReachableNamed(s);
    NamesAfterOpening(s, s.processes[pid]);
  }

  // Nothing is lost between two fetches.

  /** A process whose receiving handle is on file `i`. */
  predicate Receives(s: State, pid: nat, i: nat) {
    && pid in s.processes && s.processes[pid].files.Some? && s.processes[pid].Receiver().inode == i < |s.inodes|
    && s.processes[pid].Receiver().offset <= |s.inodes[i].packets|
  }

  function UnreadBy(s: State, pid: nat, i: nat): seq<Packet>
    requires Receives(s, pid, i)
  {
    s.inodes[i].packets[s.processes[pid].Receiver().offset..]
  }

  /** What a step reads, on behalf of any thread of a process. */
  function ReadBy(s: State, step: Step, pid: nat): seq<Packet>
    requires Enabled(s, step)
  {
    var readings := Do(s, step).readings;
    if step.Read? && BelongsTo(s, step.tid, pid) && |readings| > |s.readings| then readings[|readings| - 1].packets else []
  }

  /** What a step sends to file `i`: the frame of a thread whose process writes there. */
  function SentTo(s: State, step: Step, i: nat): seq<Packet>
    requires Enabled(s, step)
  {
    if step.Write? then
      var p := s.processes[s.threads[step.tid].pid];
      if p.files.Some? && p.cached.Some? && p.Sender().inode == i then [Packet(step.payload, p.cached.value, p.kind)]
      else []
    else []
  }

  function AllReadBy(s: State, steps: seq<Step>, pid: nat): seq<Packet>
    requires CanRun(s, steps)
    decreases |steps|
  {
    if steps == [] then [] else ReadBy(s, steps[0], pid) + AllReadBy(Do(s, steps[0]), steps[1..], pid)
  }

  function AllSentTo(s: State, steps: seq<Step>, i: nat): seq<Packet>
    requires CanRun(s, steps)
    decreases |steps|
  {
    if steps == [] then [] else SentTo(s, steps[0], i) + AllSentTo(Do(s, steps[0]), steps[1..], i)
  }

  /** Read and unread are what was unread and what was sent. */
  ghost predicate Conserves(s: State, step: Step, pid: nat, i: nat)
    requires Enabled(s, step) && Receives(s, pid, i)
  {
    && Receives(Do(s, step), pid, i)
    && ReadBy(s, step, pid) + UnreadBy(Do(s, step), pid, i) == UnreadBy(s, pid, i) + SentTo(s, step, i)
  }

  lemma ResetConserves(s: State, q: nat, pid: nat, i: nat)
    requires Inv(s) && Order(s) && Enabled(s, Reset(q)) && s.processes[q].next.value == Successor(s.counter)
    requires Receives(s, pid, i)
    ensures Conserves(s, Reset(q), pid, i)
  {
    ResetMoves(s, q);
    NewFiles(s, q, Successor(s.counter));
  }

  lemma OpeningConserves(s: State, q: nat, pid: nat, i: nat)
    requires Enabled(s, OpenFiles(q)) && Receives(s, pid, i)
    ensures Conserves(s, OpenFiles(q), pid, i)
  {
    OpeningMoves(s, q);
    assert q != pid;
  }

  lemma WriteConserves(s: State, tid: nat, payload: int, pid: nat, i: nat)
    requires Inv(s) && Enabled(s, Write(tid, payload)) && Receives(s, pid, i)
    ensures Conserves(s, Write(tid, payload), pid, i)
  {
    var p := s.processes[s.threads[tid].pid];
    assert ProcessInv(s.inodes, p);
    if p.files.Some? && p.Sender().inode == i {
      var packet, h := Packet(payload, p.cached.value, p.kind), s.processes[pid].Receiver().offset;
      assert (s.inodes[i].packets + [packet])[h..] == s.inodes[i].packets[h..] + [packet];
    }
  }

  lemma OwnReadConserves(s: State, tid: nat, most: nat, pid: nat, i: nat)
    requires Enabled(s, Read(tid, most)) && Receives(s, pid, i) && s.threads[tid].pid == pid
    ensures Conserves(s, Read(tid, most), pid, i)
  {
    if s.processes[pid].cached.Some? {
      var unread := UnreadBy(s, pid, i);
      var packets := Taken(unread, most);
      assert unread == packets + unread[|packets|..];
      assert s.processes[pid].Receiver().Unread(s.inodes) == unread;
    }
  }

  lemma OtherReadConserves(s: State, tid: nat, most: nat, pid: nat, i: nat)
    requires Enabled(s, Read(tid, most)) && Receives(s, pid, i) && s.threads[tid].pid != pid
    ensures Conserves(s, Read(tid, most), pid, i)
  {
  }

  lemma ReadConserves(s: State, tid: nat, most: nat, pid: nat, i: nat)
    requires Enabled(s, Read(tid, most)) && Receives(s, pid, i)
    ensures Conserves(s, Read(tid, most), pid, i)
  {
    if s.threads[tid].pid == pid {
      OwnReadConserves(s, tid, most, pid, i);
    } else {
      OtherReadConserves(s, tid, most, pid, i);
    }
  }

  lemma OthersConserve(s: State, step: Step, pid: nat, i: nat)
    requires Enabled(s, step) && Receives(s, pid, i) && step != LoadCounter(pid) && step != ReadCounter(pid)
    requires !step.Reset? && !step.OpenFiles? && !step.Write? && !step.Read?
    ensures Conserves(s, step, pid, i)
  {
  }

  lemma StepConserves(s: State, step: Step, pid: nat, i: nat)
    requires OrderInv(s) && Enabled(s, step) && Do(s, step).orderly
    requires Receives(s, pid, i) && step != LoadCounter(pid) && step != ReadCounter(pid)
    ensures Conserves(s, step, pid, i)
  {
    OrderlyBefore(s, step);
    match step
    case Reset(q) => ResetConserves(s, q, pid, i);
    case OpenFiles(q) => OpeningConserves(s, q, pid, i);
    case Write(tid, payload) => WriteConserves(s, tid, payload, pid, i);
    case Read(tid, most) => ReadConserves(s, tid, most, pid, i);
    case _ => OthersConserve(s, step, pid, i);
  }

  lemma Rearrange<T>(a: seq<T>, b: seq<T>, u: seq<T>, v: seq<T>, w: seq<T>, x: seq<T>, y: seq<T>)
    requires a + v == u + x && b + w == v + y
    ensures (a + b) + w == u + (x + y)
  {
    assert (a + b) + w == a + (v + y) == (u + x) + y == u + (x + y);
  }

  lemma {:induction false} RunConserves(s: State, steps: seq<Step>, pid: nat, i: nat)
    requires OrderInv(s) && CanRun(s, steps) && Run(s, steps).orderly
    requires Receives(s, pid, i) && LoadCounter(pid) !in steps && ReadCounter(pid) !in steps
    ensures Receives(Run(s, steps), pid, i)
    ensures AllReadBy(s, steps, pid) + UnreadBy(Run(s, steps), pid, i) == UnreadBy(s, pid, i) + AllSentTo(s, steps, i)
    decreases |steps|
  {
    if steps != [] {
      var s' := Do(s, steps[0]);
      OrderlyAllAlong(s', steps[1..]);
      StepKeepsOrder(s, steps[0]);
      assert steps[0] in steps;
      StepConserves(s, steps[0], pid, i);
      RunConserves(s', steps[1..], pid, i);
      Rearrange(ReadBy(s, steps[0], pid), AllReadBy(s', steps[1..], pid), UnreadBy(s, pid, i), UnreadBy(s', pid, i),
        UnreadBy(Run(s, steps), pid, i), SentTo(s, steps[0], i), AllSentTo(s', steps[1..], i));
    }
  }

  /**
   * However processes and threads interleave, as long as the counter is only counted up: from the moment a process opens
   * its files until it fetches again, all that its threads read, followed by what is still unread, is what the file held
   * and then all that was sent to it. Nothing is lost, read twice or put out of order, even by a reset.
   */
  lemma FramesAreConserved(s: State, pid: nat, steps: seq<Step>)
    requires Reachable(s) && Enabled(s, OpenFiles(pid)) && Alive(Do(s, OpenFiles(pid)), pid)
    requires var s' := Do(s, OpenFiles(pid)); CanRun(s', steps) && Run(s', steps).orderly
    requires LoadCounter(pid) !in steps && ReadCounter(pid) !in steps
    ensures var s' := Do(s, OpenFiles(pid)); var i := s'.processes[pid].Receiver().inode;
      && Receives(s', pid, i) && Receives(Run(s', steps), pid, i)
      && AllReadBy(s', steps, pid) + UnreadBy(Run(s', steps), pid, i) == s'.inodes[i].packets + AllSentTo(s', steps, i)
  {
    OpeningFailsExactly(s, pid);
    var s' := Reach(s, OpenFiles(pid));
    ReachableOrder(s');
    var i := s'.processes[pid].Receiver().inode;
    assert ProcessInv(s'.inodes, s'.processes[pid]);
    assert UnreadBy(s', pid, i) == s'.inodes[i].packets;
    RunConserves(s', steps, pid, i);
  }
}
