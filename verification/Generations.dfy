/**
 * Generations of pipe files (KernelContext.swift).  Any number of processes, each with any number of
 * threads, share a directory with a counter and two files per generation.  `validateCounter`, each read(2) or write
 * that follows it, the two halves of `fetchPipes`, and the reading and the writing of the counter are separate steps.
 */
module Generations {
  import opened Wrappers

  datatype ProcessType = JupyterKernel | LLDB

  /** File 1 carries requests to the kernel, file 2 replies to LLDB. */
  datatype File = One | Two

  /** `targetProcess.other.sendPipe` and `recvPipe`. */
  function SendFile(p: ProcessType): File { if p.JupyterKernel? then Two else One }
  function RecvFile(p: ProcessType): File { if p.JupyterKernel? then One else Two }

  /** A frame, with the counter value its sender had cached, and what kind of process that was. */
  datatype Packet = Packet(payload: int, from: nat, sender: ProcessType)

  /** A file as the disk knows it, apart from its name: removing the name does not remove an open file. */
  datatype Inode = Inode(generation: nat, file: File, packets: seq<Packet>)

  datatype Handle = Handle(inode: nat, offset: nat) {
    /** What a read at this handle finds. */
    function Unread(inodes: seq<Inode>): seq<Packet> {
      if inode < |inodes| && offset <= |inodes[inode].packets| then inodes[inode].packets[offset..] else []
    }
  }

  /** The statics of one process, which every thread in it uses; `next` is the counter it is about to write. */
  datatype Process = Process(
    kind: ProcessType, alive: bool, cached: Option<nat>, files: Option<(Handle, Handle)>, next: Option<nat>)
  {
    function Receiver(): Handle
      requires files.Some?
    {
      if RecvFile(kind).One? then files.value.0 else files.value.1
    }

    function Sender(): Handle
      requires files.Some?
    {
      if SendFile(kind).One? then files.value.0 else files.value.1
    }
  }

  /** A thread between accesses, about to make one, or in the loop of `recv_raw`. */
  datatype Phase = Idle | Validated | Receiving

  /** A thread that makes a call, and the cached counter at the time the call began. */
  datatype Thread = Thread(pid: nat, began: nat, phase: Phase)

  /** One read: by whom, in what kind of process, at what cached counter, on behalf of a call begun at which one. */
  datatype Reading = Reading(tid: nat, kind: ProcessType, cached: nat, began: nat, packets: seq<Packet>)

  datatype State = State(
    counter: Option<nat>,
    names: map<(nat, File), nat>,
    inodes: seq<Inode>,
    processes: map<nat, Process>,
    threads: map<nat, Thread>,
    readings: seq<Reading>,
    orderly: bool)   // every counter written was the successor of the one it replaced

  datatype Step =
    | Launch(pid: nat, kind: ProcessType)
    | ReadCounter(pid: nat) | Reset(pid: nat)       // `resetPipes`
    | LoadCounter(pid: nat) | OpenFiles(pid: nat)   // `fetchPipes`
    | BeginCall(tid: nat, pid: nat)
    | Validate(tid: nat)
    | Write(tid: nat, payload: int)
    | Read(tid: nat, most: nat) | StopReading(tid: nat)

  function Empty(): State {
    State(None, map[], [], map[], map[], [], true)
  }

  function Successor(counter: Option<nat>): nat {
    if counter.Some? then counter.value + 1 else 0
  }

  predicate Alive(s: State, pid: nat) {
    pid in s.processes && s.processes[pid].alive
  }

  predicate Working(s: State, tid: nat) {
    tid in s.threads && Alive(s, s.threads[tid].pid)
  }

  predicate Enabled(s: State, step: Step) {
    match step
    case Launch(pid, _) => pid !in s.processes
    case ReadCounter(pid) => Alive(s, pid)
    case Reset(pid) => Alive(s, pid) && s.processes[pid].next.Some?
    case LoadCounter(pid) => Alive(s, pid) && s.counter.Some?
    case OpenFiles(pid) => Alive(s, pid) && s.processes[pid].cached.Some? && s.processes[pid].files.None?
    case BeginCall(tid, pid) => tid !in s.threads && Alive(s, pid) && s.processes[pid].cached.Some?
    case Validate(tid) => Working(s, tid) && s.threads[tid].phase.Idle?
    case Write(tid, _) => Working(s, tid) && s.threads[tid].phase.Validated?
    case Read(tid, _) => Working(s, tid) && !s.threads[tid].phase.Idle?
    case StopReading(tid) => Working(s, tid) && s.threads[tid].phase.Receiving?
  }

  function Put(s: State, pid: nat, p: Process): State {
    s.(processes := s.processes[pid := p])
  }

  function Die(s: State, pid: nat): State
    requires pid in s.processes
  {
    Put(s, pid, s.processes[pid].(alive := false))
  }

  // The invariant.

  ghost predicate HandleInv(inodes: seq<Inode>, h: Handle, generation: nat, file: File) {
    h.inode < |inodes| && inodes[h.inode].generation == generation && inodes[h.inode].file == file
  }

  ghost predicate ProcessInv(inodes: seq<Inode>, p: Process) {
    p.files.Some? ==>
      && p.cached.Some?
      && HandleInv(inodes, p.files.value.0, p.cached.value, One)
      && HandleInv(inodes, p.files.value.1, p.cached.value, Two)
  }

  ghost predicate NameInv(inodes: seq<Inode>, name: (nat, File), i: nat) {
    i < |inodes| && inodes[i].generation == name.0 && inodes[i].file == name.1
  }

  /** A file of one generation holds frames of that generation only, and of one kind of process. */
  ghost predicate InodeInv(inode: Inode) {
    forall p :: p in inode.packets ==> p.from == inode.generation && SendFile(p.sender) == inode.file
  }

  ghost predicate ThreadInv(s: State, t: Thread) {
    t.pid in s.processes && s.processes[t.pid].cached.Some?
  }

  ghost predicate ReadingInv(r: Reading) {
    forall p :: p in r.packets ==> p.from == r.cached && p.sender != r.kind
  }

  ghost predicate Inv(s: State) {
    && (forall name :: name in s.names ==> NameInv(s.inodes, name, s.names[name]))
    && (forall inode :: inode in s.inodes ==> InodeInv(inode))
    && (forall pid :: pid in s.processes ==> ProcessInv(s.inodes, s.processes[pid]))
    && (forall tid :: tid in s.threads ==> ThreadInv(s, s.threads[tid]))
    && (forall r :: r in s.readings ==> ReadingInv(r))
  }

  // The steps.

  /** `fopen`: mode "wb" empties a file or creates it, "ab" creates a missing one, "rb" does neither. */
  datatype Mode = WB | AB | RB

  function FOpen(s: State, name: (nat, File), mode: Mode): State {
    if name in s.names && s.names[name] < |s.inodes| then (if mode.WB? then Emptied(s, s.names[name]) else s)
    else if mode.RB? then s
    else Created(s, name)
  }

  function Emptied(s: State, i: nat): State
    requires i < |s.inodes|
  {
    s.(inodes := s.inodes[i := s.inodes[i].(packets := [])])
  }

  function Created(s: State, name: (nat, File)): State {
    s.(names := s.names[name := |s.inodes|], inodes := s.inodes + [Inode(name.0, name.1, [])])
  }

  /** The first half of `resetPipes`: handles are closed and the counter is read. */
  function DoReadCounter(s: State, pid: nat): State
    requires pid in s.processes
  {
    Put(s, pid, s.processes[pid].(files := None, next := Some(Successor(s.counter))))
  }

  /** Then the counter is written and the files of the generation before lose their names. */
  function Written(s: State, pid: nat, n: nat): State
    requires pid in s.processes
  {
    Put(s, pid, s.processes[pid].(next := None)).(
      counter := Some(n),
      names := if n > 0 then s.names - {(n - 1, One), (n - 1, Two)} else s.names,
      orderly := s.orderly && n == Successor(s.counter))
  }

  /** The second half: two files are made for the counter written. */
  function DoReset(s: State, pid: nat): State
    requires pid in s.processes && s.processes[pid].next.Some?
  {
    var n := s.processes[pid].next.value;
    FOpen(FOpen(Written(s, pid, n), (n, One), WB), (n, Two), WB)
  }

  /** The first half of `fetchPipes`. */
  function DoLoad(s: State, pid: nat): State
    requires pid in s.processes
  {
    Put(s, pid, s.processes[pid].(cached := s.counter, files := None))
  }

  function Opened(s: State, p: Process): State
    requires p.cached.Some?
  {
    FOpen(FOpen(s, (p.cached.value, One), if p.kind.LLDB? then AB else RB),
          (p.cached.value, Two), if p.kind.JupyterKernel? then AB else RB)
  }

  /** The second half: LLDB appends to file 1 and reads file 2, the kernel the other way round. */
  function DoOpen(s: State, pid: nat): State
    requires pid in s.processes && s.processes[pid].cached.Some?
  {
    var p := s.processes[pid];
    var one, two := (p.cached.value, One), (p.cached.value, Two);
    var s' := Opened(s, p);
    if one in s'.names && two in s'.names then
      Put(s', pid, p.(files := Some((Handle(s'.names[one], 0), Handle(s'.names[two], 0)))))
    else Put(s', pid, p.(alive := false))   // `fileno` of a null pointer
  }

  function SetPhase(s: State, tid: nat, phase: Phase): State
    requires tid in s.threads
  {
    s.(threads := s.threads[tid := s.threads[tid].(phase := phase)])
  }

  /** `write` through the handle the process has now. */
  function DoWrite(s: State, tid: nat, payload: int): State
    requires Working(s, tid)
  {
    var pid := s.threads[tid].pid;
    var p := s.processes[pid];
    if p.files.None? || p.cached.None? || |s.inodes| <= p.Sender().inode then Die(s, pid)   // no pipe to unwrap
    else
      var i := p.Sender().inode;
      var packets := s.inodes[i].packets + [Packet(payload, p.cached.value, p.kind)];
      SetPhase(s, tid, Idle).(inodes := s.inodes[i := s.inodes[i].(packets := packets)])
  }

  /** At most so many frames. */
  function Taken(unread: seq<Packet>, most: nat): seq<Packet> {
    if most < |unread| then unread[..most] else unread
  }

  /** The process with its receiving handle moved on. */
  function Advanced(p: Process, n: nat): Process
    requires p.files.Some?
  {
    var h := p.Receiver().(offset := p.Receiver().offset + n);
    p.(files := Some(if RecvFile(p.kind).One? then (h, p.files.value.1) else (p.files.value.0, h)))
  }

  /** One `read` through the handle the process has now. */
  function DoRead(s: State, tid: nat, most: nat): State
    requires Working(s, tid)
  {
    var t := s.threads[tid];
    var p := s.processes[t.pid];
    if p.files.None? || p.cached.None? then Die(s, t.pid)
    else
      var packets := Taken(p.Receiver().Unread(s.inodes), most);
      Put(SetPhase(s, tid, Receiving), t.pid, Advanced(p, |packets|)).(
        readings := s.readings + [Reading(tid, p.kind, p.cached.value, t.began, packets)])
  }

  function Do(s: State, step: Step): State
    requires Enabled(s, step)
  {
    match step
    case Launch(pid, kind) => Put(s, pid, Process(kind, true, None, None, None))
    case ReadCounter(pid) => DoReadCounter(s, pid)
    case Reset(pid) => DoReset(s, pid)
    case LoadCounter(pid) => DoLoad(s, pid)
    case OpenFiles(pid) => DoOpen(s, pid)
    case BeginCall(tid, pid) =>
      s.(threads := s.threads[tid := Thread(pid, s.processes[pid].cached.value, Idle)])
    case Validate(tid) =>
      if s.processes[s.threads[tid].pid].cached == s.counter then SetPhase(s, tid, Validated)
      else Die(s, s.threads[tid].pid)   // "Zombie thread."
    case Write(tid, payload) => DoWrite(s, tid, payload)
    case Read(tid, most) => DoRead(s, tid, most)
    case StopReading(tid) => SetPhase(s, tid, Idle)
  }

  // What keeps the invariant.

  /** Files are created, appended to and emptied; none changes its generation or its place. */
  ghost predicate Persists(inodes: seq<Inode>, inodes': seq<Inode>) {
    && |inodes| <= |inodes'|
    && forall i :: 0 <= i < |inodes| ==>
      inodes'[i].generation == inodes[i].generation && inodes'[i].file == inodes[i].file
  }

  lemma ProcessKept(inodes: seq<Inode>, inodes': seq<Inode>, p: Process)
    requires Persists(inodes, inodes') && ProcessInv(inodes, p)
    ensures ProcessInv(inodes', p)
  {
  }

  /** What opening a file leaves alone. */
  ghost predicate OnlyFiles(s: State, s': State) {
    && Persists(s.inodes, s'.inodes) && s'.processes == s.processes && s'.threads == s.threads
    && s'.counter == s.counter && s'.orderly == s.orderly && s'.readings == s.readings
  }

  lemma FilesKeepInv(s: State, s': State)
    requires Inv(s) && OnlyFiles(s, s')
    requires forall name :: name in s'.names ==> NameInv(s'.inodes, name, s'.names[name])
    requires forall inode :: inode in s'.inodes ==> InodeInv(inode)
    ensures Inv(s')
  {
    forall pid | pid in s'.processes ensures ProcessInv(s'.inodes, s'.processes[pid]) {
      ProcessKept(s.inodes, s'.inodes, s.processes[pid]);
    }
    forall tid | tid in s'.threads ensures ThreadInv(s', s'.threads[tid]) {
      assert ThreadInv(s, s.threads[tid]);
    }
  }

  lemma EmptiedKeepsInv(s: State, i: nat)
    requires Inv(s) && i < |s.inodes|
    ensures Inv(Emptied(s, i)) && OnlyFiles(s, Emptied(s, i))
  {
    var s' := Emptied(s, i);
    forall n | n in s'.names ensures NameInv(s'.inodes, n, s'.names[n]) {
      assert NameInv(s.inodes, n, s.names[n]);
    }
    forall inode | inode in s'.inodes ensures InodeInv(inode) {
      assert inode.packets == [] || inode in s.inodes;
    }
    FilesKeepInv(s, s');
  }

  lemma CreatedKeepsInv(s: State, name: (nat, File))
    requires Inv(s)
    ensures Inv(Created(s, name)) && OnlyFiles(s, Created(s, name))
  {
    var s' := Created(s, name);
    forall n | n in s'.names ensures NameInv(s'.inodes, n, s'.names[n]) {
      assert n != name ==> NameInv(s.inodes, n, s.names[n]);
    }
    forall inode | inode in s'.inodes ensures InodeInv(inode) {
      assert inode.packets == [] || inode in s.inodes;
    }
    FilesKeepInv(s, s');
  }

  lemma OpenKeepsInv(s: State, name: (nat, File), mode: Mode)
    requires Inv(s)
    ensures Inv(FOpen(s, name, mode)) && OnlyFiles(s, FOpen(s, name, mode))
  {
    if name in s.names && s.names[name] < |s.inodes| {
      EmptiedKeepsInv(s, s.names[name]);
    } else {
      CreatedKeepsInv(s, name);
    }
  }

  lemma PutKeepsInv(s: State, pid: nat, p: Process)
    requires Inv(s) && ProcessInv(s.inodes, p)
    requires pid in s.processes && s.processes[pid].cached.Some? ==> p.cached.Some?
    ensures Inv(Put(s, pid, p))
  {
    var s' := Put(s, pid, p);
    forall tid | tid in s'.threads ensures ThreadInv(s', s'.threads[tid]) {
      assert ThreadInv(s, s.threads[tid]);
    }
  }

  lemma ThreadKeepsInv(s: State, tid: nat, t: Thread)
    requires Inv(s) && ThreadInv(s, t)
    ensures Inv(s.(threads := s.threads[tid := t]))
  {
    var s' := s.(threads := s.threads[tid := t]);
    forall k | k in s'.threads ensures ThreadInv(s', s'.threads[k]) {
      assert k in s.threads ==> ThreadInv(s, s.threads[k]);
    }
  }

  /** Taking names away and changing the counter. */
  lemma WrittenKeepsInv(s: State, pid: nat, n: nat)
    requires Inv(s) && pid in s.processes
    ensures Inv(Written(s, pid, n))
  {
    assert ProcessInv(s.inodes, s.processes[pid]);
    var put := Put(s, pid, s.processes[pid].(next := None));
    PutKeepsInv(s, pid, s.processes[pid].(next := None));
    var s' := Written(s, pid, n);
    forall name | name in s'.names ensures NameInv(s'.inodes, name, s'.names[name]) {
      assert NameInv(s.inodes, name, s.names[name]);
    }
    forall tid | tid in s'.threads ensures ThreadInv(s', s'.threads[tid]) {
      assert ThreadInv(put, s.threads[tid]);
    }
  }

  lemma ResetKeepsInv(s: State, pid: nat)
    requires Inv(s) && Enabled(s, Reset(pid))
    ensures Inv(DoReset(s, pid))
  {
    var n := s.processes[pid].next.value;
    WrittenKeepsInv(s, pid, n);
    OpenKeepsInv(Written(s, pid, n), (n, One), WB);
    OpenKeepsInv(FOpen(Written(s, pid, n), (n, One), WB), (n, Two), WB);
  }

  lemma OpenFilesKeepsInv(s: State, pid: nat)
    requires Inv(s) && Enabled(s, OpenFiles(pid))
    ensures Inv(DoOpen(s, pid))
  {
    var p := s.processes[pid];
    var one, two := (p.cached.value, One), (p.cached.value, Two);
    var mode := if p.kind.LLDB? then AB else RB;
    OpenKeepsInv(s, one, mode);
    OpenKeepsInv(FOpen(s, one, mode), two, if p.kind.JupyterKernel? then AB else RB);
    var s' := Opened(s, p);
    if one in s'.names && two in s'.names {
      assert NameInv(s'.inodes, one, s'.names[one]) && NameInv(s'.inodes, two, s'.names[two]);
      PutKeepsInv(s', pid, p.(files := Some((Handle(s'.names[one], 0), Handle(s'.names[two], 0)))));
    } else {
      assert ProcessInv(s'.inodes, s'.processes[pid]);
      PutKeepsInv(s', pid, p.(alive := false));
    }
  }

  lemma DieKeepsInv(s: State, pid: nat)
    requires Inv(s) && pid in s.processes
    ensures Inv(Die(s, pid))
  {
    assert ProcessInv(s.inodes, s.processes[pid]);
    PutKeepsInv(s, pid, s.processes[pid].(alive := false));
  }

  lemma AppendKeepsInv(s: State, i: nat, packet: Packet)
    requires Inv(s) && i < |s.inodes| && packet.from == s.inodes[i].generation
    requires SendFile(packet.sender) == s.inodes[i].file
    ensures Inv(s.(inodes := s.inodes[i := s.inodes[i].(packets := s.inodes[i].packets + [packet])]))
  {
    var s' := s.(inodes := s.inodes[i := s.inodes[i].(packets := s.inodes[i].packets + [packet])]);
    assert InodeInv(s.inodes[i]);
    forall inode | inode in s'.inodes ensures InodeInv(inode) {
      assert inode in s.inodes || inode == s'.inodes[i];
    }
    forall pid | pid in s'.processes ensures ProcessInv(s'.inodes, s'.processes[pid]) {
      ProcessKept(s.inodes, s'.inodes, s.processes[pid]);
    }
    assert forall n :: n in s.names ==> NameInv(s.inodes, n, s.names[n]) ==> NameInv(s'.inodes, n, s.names[n]);
    assert forall tid :: tid in s.threads ==> ThreadInv(s, s.threads[tid]) ==> ThreadInv(s', s.threads[tid]);
  }

  lemma WriteKeepsInv(s: State, tid: nat, payload: int)
    requires Inv(s) && Enabled(s, Write(tid, payload))
    ensures Inv(DoWrite(s, tid, payload))
  {
    var t := s.threads[tid];
    var p := s.processes[t.pid];
    assert ProcessInv(s.inodes, p) && ThreadInv(s, t);
    if p.files.None? {
      DieKeepsInv(s, t.pid);
    } else {
      ThreadKeepsInv(s, tid, t.(phase := Idle));
      AppendKeepsInv(SetPhase(s, tid, Idle), p.Sender().inode, Packet(payload, p.cached.value, p.kind));
    }
  }

  lemma ReadFindsOwn(inodes: seq<Inode>, p: Process, most: nat)
    requires ProcessInv(inodes, p) && p.files.Some? && forall inode :: inode in inodes ==> InodeInv(inode)
    ensures forall packet :: packet in Taken(p.Receiver().Unread(inodes), most) ==>
      packet.from == p.cached.value && packet.sender != p.kind
  {
    assert InodeInv(inodes[p.Receiver().inode]);
  }

  lemma ReadingAdded(s: State, r: Reading)
    requires Inv(s) && ReadingInv(r)
    ensures Inv(s.(readings := s.readings + [r]))
  {
    var s' := s.(readings := s.readings + [r]);
    assert forall tid :: tid in s.threads ==> ThreadInv(s, s.threads[tid]) ==> ThreadInv(s', s.threads[tid]);
  }

  lemma ReadKeepsInv(s: State, tid: nat, most: nat)
    requires Inv(s) && Enabled(s, Read(tid, most))
    ensures Inv(DoRead(s, tid, most))
  {
    var t := s.threads[tid];
    var p := s.processes[t.pid];
    assert ProcessInv(s.inodes, p) && ThreadInv(s, t);
    if p.files.None? {
      DieKeepsInv(s, t.pid);
    } else {
      ReadFindsOwn(s.inodes, p, most);
      var packets := Taken(p.Receiver().Unread(s.inodes), most);
      ThreadKeepsInv(s, tid, t.(phase := Receiving));
      PutKeepsInv(SetPhase(s, tid, Receiving), t.pid, Advanced(p, |packets|));
      ReadingAdded(Put(SetPhase(s, tid, Receiving), t.pid, Advanced(p, |packets|)),
                   Reading(tid, p.kind, p.cached.value, t.began, packets));
    }
  }

  lemma OtherKeepsInv(s: State, step: Step)
    requires Inv(s) && Enabled(s, step)
    requires step.Launch? || step.ReadCounter? || step.LoadCounter?
    ensures Inv(Do(s, step))
  {
    if step.Launch? {
      PutKeepsInv(s, step.pid, Process(step.kind, true, None, None, None));
    } else if step.ReadCounter? {
      PutKeepsInv(s, step.pid, s.processes[step.pid].(files := None, next := Some(Successor(s.counter))));
    } else {
      PutKeepsInv(s, step.pid, s.processes[step.pid].(cached := s.counter, files := None));
    }
  }

  lemma ThreadStepKeepsInv(s: State, step: Step)
    requires Inv(s) && Enabled(s, step)
    requires step.BeginCall? || step.Validate? || step.StopReading?
    ensures Inv(Do(s, step))
  {
    if step.BeginCall? {
      ThreadKeepsInv(s, step.tid, Thread(step.pid, s.processes[step.pid].cached.value, Idle));
    } else {
      var t := s.threads[step.tid];
      assert ThreadInv(s, t);
      DieKeepsInv(s, t.pid);
      ThreadKeepsInv(s, step.tid, t.(phase := if step.Validate? then Validated else Idle));
    }
  }

  lemma StepKeepsInv(s: State, step: Step)
    requires Inv(s) && Enabled(s, step)
    ensures Inv(Do(s, step))
  {
    match step
    case Reset(pid) => ResetKeepsInv(s, pid);
    case OpenFiles(pid) => OpenFilesKeepsInv(s, pid);
    case Write(tid, payload) => WriteKeepsInv(s, tid, payload);
    case Read(tid, most) => ReadKeepsInv(s, tid, most);
    case Launch(_, _) => OtherKeepsInv(s, step);
    case ReadCounter(_) => OtherKeepsInv(s, step);
    case LoadCounter(_) => OtherKeepsInv(s, step);
    case BeginCall(_, _) => ThreadStepKeepsInv(s, step);
    case Validate(_) => ThreadStepKeepsInv(s, step);
    case StopReading(_) => ThreadStepKeepsInv(s, step);
  }

  // Runs.

  predicate CanRun(s: State, steps: seq<Step>)
    decreases |steps|
  {
    steps == [] || (Enabled(s, steps[0]) && CanRun(Do(s, steps[0]), steps[1..]))
  }

  function Run(s: State, steps: seq<Step>): State
    requires CanRun(s, steps)
    decreases |steps|
  {
    if steps == [] then s else Run(Do(s, steps[0]), steps[1..])
  }

  ghost predicate Reachable(s: State) {
    exists steps :: CanRun(Empty(), steps) && Run(Empty(), steps) == s
  }

  lemma {:induction false} OneMore(s: State, steps: seq<Step>, step: Step)
    requires CanRun(s, steps) && Enabled(Run(s, steps), step)
    ensures CanRun(s, steps + [step]) && Run(s, steps + [step]) == Do(Run(s, steps), step)
    decreases |steps|
  {
    var whole := steps + [step];
    if steps == [] {
      assert whole == [step] && whole[1..] == [];
    } else {
      OneMore(Do(s, steps[0]), steps[1..], step);
      assert whole[0] == steps[0] && whole[1..] == steps[1..] + [step];
    }
  }

  lemma Reach(s: State, step: Step) returns (s': State)
    requires Reachable(s) && Enabled(s, step)
    ensures s' == Do(s, step) && Reachable(s')
  {
    var steps :| CanRun(Empty(), steps) && Run(Empty(), steps) == s;
    OneMore(Empty(), steps, step);
    s' := Do(s, step);
  }

  lemma {:induction false} RunKeepsInv(s: State, steps: seq<Step>)
    requires Inv(s) && CanRun(s, steps)
    ensures Inv(Run(s, steps))
    decreases |steps|
  {
    if steps != [] {
      StepKeepsInv(s, steps[0]);
      RunKeepsInv(Do(s, steps[0]), steps[1..]);
    }
  }

  lemma ReachableInv(s: State)
    requires Reachable(s)
    ensures Inv(s)
  {
    var steps :| CanRun(Empty(), steps) && Run(Empty(), steps) == s;
    RunKeepsInv(Empty(), steps);
  }

  /**
   * However the steps of any number of processes and threads interleave, whatever a process reads while
   * it has generation g cached was written by a process that had g cached: a process that has not fetched
   * the newest generation can neither consume a frame of it nor inject one into it. And no process reads what one of its
   * own kind wrote.
   */
  lemma ReadsOwnGeneration(s: State, r: Reading, p: Packet)
    requires Reachable(s) && r in s.readings && p in r.packets
    ensures p.from == r.cached && p.sender != r.kind
  {
    ReachableInv(s);
    assert ReadingInv(r);
  }

  /**
   * Threads are another matter, because the statics belong to the process.  What a thread reads belongs to
   * the generation its call began in if and only if its process has not fetched another one since.
   */
  lemma ThreadReadsItsOwnCall(s: State, r: Reading)
    requires Reachable(s) && r in s.readings && r.packets != []
    ensures (forall p :: p in r.packets ==> p.from == r.began) <==> r.cached == r.began
  {
    ReachableInv(s);
    assert ReadingInv(r);
    assert r.packets[0] in r.packets;
  }

  // Is a new generation new?

  ghost predicate HasFile(s: State, generation: nat) {
    exists i :: 0 <= i < |s.inodes| && s.inodes[i].generation == generation
  }

  /** No file has ever had this generation, and no process has it cached. */
  ghost predicate Fresh(s: State, generation: nat) {
    && !HasFile(s, generation)
    && forall pid :: pid in s.processes ==> s.processes[pid].cached != Some(generation)
  }

  predicate UpTo(g: nat, counter: Option<nat>) {
    counter.Some? && g <= counter.value
  }

  ghost predicate ProcessOrder(counter: Option<nat>, p: Process) {
    && (p.cached.Some? ==> UpTo(p.cached.value, counter))
    && (p.next.Some? ==> p.next.value <= Successor(counter))
  }

  ghost predicate ThreadOrder(s: State, t: Thread) {
    t.pid in s.processes && s.processes[t.pid].cached.Some? && t.began <= s.processes[t.pid].cached.value
  }

  /** As long as the counter has only been counted up, the generations are those up to it, and calls began at or before. */
  ghost predicate Order(s: State) {
    && (forall i :: 0 <= i < |s.inodes| ==> UpTo(s.inodes[i].generation, s.counter))
    && (forall g: nat :: UpTo(g, s.counter) ==> HasFile(s, g))
    && (forall pid :: pid in s.processes ==> ProcessOrder(s.counter, s.processes[pid]))
    && (forall tid :: tid in s.threads ==> ThreadOrder(s, s.threads[tid]))
  }

  ghost predicate OrderInv(s: State) {
    Inv(s) && (s.orderly ==> Order(s))
  }

  /** Files keep their generations, so the same ones are there. */
  lemma FilesPersist(s: State, s': State)
    requires Persists(s.inodes, s'.inodes) && |s'.inodes| == |s.inodes|
    ensures forall g: nat :: HasFile(s', g) <==> HasFile(s, g)
  {
    forall g: nat | HasFile(s, g) ensures HasFile(s', g) {
      var i :| 0 <= i < |s.inodes| && s.inodes[i].generation == g;
      assert s'.inodes[i].generation == g;
    }
    forall g: nat | HasFile(s', g) ensures HasFile(s, g) {
      var i :| 0 <= i < |s'.inodes| && s'.inodes[i].generation == g;
      assert s.inodes[i].generation == g;
    }
  }

  lemma PutKeepsOrder(s: State, pid: nat, p: Process)
    requires Order(s) && ProcessOrder(s.counter, p)
    requires pid in s.processes && s.processes[pid].cached.Some? ==>
      p.cached.Some? && s.processes[pid].cached.value <= p.cached.value
    ensures Order(Put(s, pid, p))
  {
    var s' := Put(s, pid, p);
    FilesPersist(s, s');
    forall tid | tid in s'.threads ensures ThreadOrder(s', s'.threads[tid]) {
      assert ThreadOrder(s, s.threads[tid]);
    }
  }

  lemma ThreadsKeepOrder(s: State, s': State)
    requires Order(s) && s' == s.(threads := s'.threads, readings := s'.readings)
    requires forall tid :: tid in s'.threads ==> ThreadOrder(s, s'.threads[tid])
    ensures Order(s')
  {
    FilesPersist(s, s');
    assert forall tid :: tid in s'.threads ==> ThreadOrder(s, s'.threads[tid]) ==> ThreadOrder(s', s'.threads[tid]);
  }

  lemma InodesKeepOrder(s: State, s': State)
    requires Order(s) && s' == s.(inodes := s'.inodes)
    requires Persists(s.inodes, s'.inodes) && |s'.inodes| == |s.inodes|
    ensures Order(s')
  {
    FilesPersist(s, s');
    assert forall tid :: tid in s.threads ==> ThreadOrder(s, s.threads[tid]) ==> ThreadOrder(s', s.threads[tid]);
  }

  lemma CreatedKeepsOrder(s: State, name: (nat, File))
    requires Order(s) && UpTo(name.0, s.counter)
    ensures Order(Created(s, name))
  {
    var s' := Created(s, name);
    forall g: nat | UpTo(g, s'.counter) ensures HasFile(s', g) {
      assert HasFile(s, g);
      var i :| 0 <= i < |s.inodes| && s.inodes[i].generation == g;
      assert s'.inodes[i].generation == g;
    }
    assert forall tid :: tid in s.threads ==> ThreadOrder(s, s.threads[tid]) ==> ThreadOrder(s', s.threads[tid]);
  }

  lemma FOpenKeepsOrder(s: State, name: (nat, File), mode: Mode)
    requires Order(s) && UpTo(name.0, s.counter)
    ensures Order(FOpen(s, name, mode)) && FOpen(s, name, mode).processes == s.processes
    ensures FOpen(s, name, mode).counter == s.counter && FOpen(s, name, mode).orderly == s.orderly
  {
    if name in s.names && s.names[name] < |s.inodes| {
      if mode.WB? {
        InodesKeepOrder(s, Emptied(s, s.names[name]));
      }
    } else if !mode.RB? {
      CreatedKeepsOrder(s, name);
    }
  }

  lemma OpenFilesKeepsOrder(s: State, pid: nat)
    requires Order(s) && Enabled(s, OpenFiles(pid))
    ensures Order(DoOpen(s, pid))
  {
    var p := s.processes[pid];
    assert ProcessOrder(s.counter, p);
    var one, two := (p.cached.value, One), (p.cached.value, Two);
    var mode := if p.kind.LLDB? then AB else RB;
    FOpenKeepsOrder(s, one, mode);
    FOpenKeepsOrder(FOpen(s, one, mode), two, if p.kind.JupyterKernel? then AB else RB);
    var s' := Opened(s, p);
    if one in s'.names && two in s'.names {
      PutKeepsOrder(s', pid, p.(files := Some((Handle(s'.names[one], 0), Handle(s'.names[two], 0)))));
    } else {
      PutKeepsOrder(s', pid, p.(alive := false));
    }
  }

  /** In order, the generation a reset writes has no file yet, and gets its two. */
  lemma NewFiles(s: State, pid: nat, n: nat)
    requires Inv(s) && Order(s) && pid in s.processes && n == Successor(s.counter)
    ensures var written := Written(s, pid, n);
      && (n, One) !in written.names && (n, Two) !in written.names
      && FOpen(FOpen(written, (n, One), WB), (n, Two), WB) == Created(Created(written, (n, One)), (n, Two))
  {
    forall name | name in s.names ensures UpTo(name.0, s.counter) {
      assert NameInv(s.inodes, name, s.names[name]);
    }
  }

  lemma ResetKeepsOrder(s: State, pid: nat)
    requires Inv(s) && Order(s) && Enabled(s, Reset(pid)) && s.processes[pid].next.value == Successor(s.counter)
    ensures Order(DoReset(s, pid))
  {
    var n := s.processes[pid].next.value;
    NewFiles(s, pid, n);
    var written := Written(s, pid, n);
    var s' := Created(Created(written, (n, One)), (n, Two));
    forall g: nat | UpTo(g, s'.counter) ensures HasFile(s', g) {
      if g == n {
        assert s'.inodes[|s.inodes|].generation == g;
      } else {
        assert UpTo(g, s.counter) && HasFile(s, g);
        var i :| 0 <= i < |s.inodes| && s.inodes[i].generation == g;
        assert s'.inodes[i].generation == g;
      }
    }
    forall q | q in s'.processes ensures ProcessOrder(s'.counter, s'.processes[q]) {
      assert ProcessOrder(s.counter, s.processes[q]);
    }
    forall tid | tid in s'.threads ensures ThreadOrder(s', s'.threads[tid]) {
      assert ThreadOrder(s, s.threads[tid]);
    }
  }

  lemma ReadKeepsOrder(s: State, tid: nat, most: nat)
    requires Order(s) && Enabled(s, Read(tid, most))
    ensures Order(DoRead(s, tid, most))
  {
    var t := s.threads[tid];
    var p := s.processes[t.pid];
    assert ThreadOrder(s, t) && ProcessOrder(s.counter, p);
    if p.files.None? {
      PutKeepsOrder(s, t.pid, p.(alive := false));
    } else {
      var packets := Taken(p.Receiver().Unread(s.inodes), most);
      var received := SetPhase(s, tid, Receiving);
      ThreadsKeepOrder(s, received);
      var put := Put(received, t.pid, Advanced(p, |packets|));
      PutKeepsOrder(received, t.pid, Advanced(p, |packets|));
      ThreadsKeepOrder(put, DoRead(s, tid, most));
    }
  }

  lemma WriteKeepsOrder(s: State, tid: nat, payload: int)
    requires Order(s) && Enabled(s, Write(tid, payload))
    ensures Order(DoWrite(s, tid, payload))
  {
    var t := s.threads[tid];
    var p := s.processes[t.pid];
    assert ThreadOrder(s, t) && ProcessOrder(s.counter, p);
    if p.files.None? || |s.inodes| <= p.Sender().inode {
      PutKeepsOrder(s, t.pid, p.(alive := false));
    } else {
      ThreadsKeepOrder(s, SetPhase(s, tid, Idle));
      InodesKeepOrder(SetPhase(s, tid, Idle), DoWrite(s, tid, payload));
    }
  }

  lemma ProcessStepKeepsOrder(s: State, step: Step)
    requires Order(s) && Enabled(s, step) && (step.Launch? || step.ReadCounter? || step.LoadCounter?)
    ensures Order(Do(s, step))
  {
    if step.Launch? {
      PutKeepsOrder(s, step.pid, Process(step.kind, true, None, None, None));
    } else {
      var p := s.processes[step.pid];
      assert ProcessOrder(s.counter, p);
      PutKeepsOrder(s, step.pid, if step.ReadCounter? then p.(files := None, next := Some(Successor(s.counter)))
                                 else p.(cached := s.counter, files := None));
    }
  }

  lemma ThreadStepKeepsOrder(s: State, step: Step)
    requires Order(s) && Enabled(s, step) && (step.BeginCall? || step.Validate? || step.StopReading?)
    ensures Order(Do(s, step))
  {
    if step.BeginCall? {
      assert ProcessOrder(s.counter, s.processes[step.pid]);
      ThreadsKeepOrder(s, Do(s, step));
    } else {
      var t := s.threads[step.tid];
      assert ThreadOrder(s, t) && ProcessOrder(s.counter, s.processes[t.pid]);
      PutKeepsOrder(s, t.pid, s.processes[t.pid].(alive := false));
      ThreadsKeepOrder(s, SetPhase(s, step.tid, if step.Validate? then Validated else Idle));
    }
  }

  lemma StepKeepsOrder(s: State, step: Step)
    requires OrderInv(s) && Enabled(s, step)
    ensures OrderInv(Do(s, step))
  {
    StepKeepsInv(s, step);
    if Do(s, step).orderly {
      OrderlyBefore(s, step);
      match step
      case Reset(pid) => ResetKeepsOrder(s, pid);
      case OpenFiles(pid) => OpenFilesKeepsOrder(s, pid);
      case Write(tid, payload) => WriteKeepsOrder(s, tid, payload);
      case Read(tid, most) => ReadKeepsOrder(s, tid, most);
      case Launch(_, _) => ProcessStepKeepsOrder(s, step);
      case ReadCounter(_) => ProcessStepKeepsOrder(s, step);
      case LoadCounter(_) => ProcessStepKeepsOrder(s, step);
      case BeginCall(_, _) => ThreadStepKeepsOrder(s, step);
      case Validate(_) => ThreadStepKeepsOrder(s, step);
      case StopReading(_) => ThreadStepKeepsOrder(s, step);
    }
  }

  /** Disorder is for ever. */
  lemma OrderlyBefore(s: State, step: Step)
    requires Enabled(s, step) && Do(s, step).orderly
    ensures s.orderly && (step.Reset? ==> s.processes[step.pid].next.value == Successor(s.counter))
  {
  }

  lemma {:induction false} RunKeepsOrder(s: State, steps: seq<Step>)
    requires OrderInv(s) && CanRun(s, steps)
    ensures OrderInv(Run(s, steps))
    decreases |steps|
  {
    if steps != [] {
      StepKeepsOrder(s, steps[0]);
      RunKeepsOrder(Do(s, steps[0]), steps[1..]);
    }
  }

  lemma ReachableOrder(s: State)
    requires Reachable(s)
    ensures OrderInv(s)
  {
    var steps :| CanRun(Empty(), steps) && Run(Empty(), steps) == s;
    RunKeepsOrder(Empty(), steps);
  }

  /**
   * As long as the counter has only been counted up, the next reset starts a generation that no file has had and no
   * process has cached if and only if nobody has written the counter since that reset read it.
   */
  lemma ResetIsFresh(s: State, pid: nat)
    requires Reachable(s) && s.orderly && Enabled(s, Reset(pid))
    ensures Fresh(s, s.processes[pid].next.value) <==> s.processes[pid].next.value == Successor(s.counter)
  {
    ReachableOrder(s);
    var n := s.processes[pid].next.value;
    assert ProcessOrder(s.counter, s.processes[pid]);
    if n == Successor(s.counter) {
      forall p | p in s.processes ensures s.processes[p].cached != Some(n) {
        assert ProcessOrder(s.counter, s.processes[p]);
      }
      assert !HasFile(s, n);
    } else {
      assert UpTo(n, s.counter) && HasFile(s, n);
    }
  }

  /** Nobody but this process is between reading and writing the counter. */
  predicate OnlyOneResets(s: State, pid: nat) {
    forall q :: q in s.processes && s.processes[q].alive && q != pid ==> s.processes[q].next.None?
  }

  ghost predicate OneAtATime(s: State, steps: seq<Step>)
    requires CanRun(s, steps)
    decreases |steps|
  {
    steps == [] ||
    ((steps[0].ReadCounter? ==> OnlyOneResets(s, steps[0].pid)) && OneAtATime(Do(s, steps[0]), steps[1..]))
  }

  ghost predicate PendingInv(s: State) {
    && s.orderly
    && forall pid :: pid in s.processes && s.processes[pid].alive && s.processes[pid].next.Some? ==>
      s.processes[pid].next.value == Successor(s.counter) && OnlyOneResets(s, pid)
  }

  /** Who is alive and about to write the counter. */
  predicate Pending(s: State, pid: nat) {
    pid in s.processes && s.processes[pid].alive && s.processes[pid].next.Some?
  }

  lemma PendingKept(s: State, s': State)
    requires PendingInv(s) && s'.counter == s.counter && s'.orderly
    requires forall pid :: Pending(s', pid) ==> Pending(s, pid) && s'.processes[pid].next == s.processes[pid].next
    ensures PendingInv(s')
  {
    forall pid | Pending(s', pid) ensures OnlyOneResets(s', pid) {
      forall q | q in s'.processes && s'.processes[q].alive && q != pid ensures s'.processes[q].next.None? {
        assert !Pending(s, q);
        assert !Pending(s', q);
      }
    }
  }

  lemma ResetKeepsPending(s: State, pid: nat)
    requires PendingInv(s) && Enabled(s, Reset(pid))
    ensures PendingInv(DoReset(s, pid))
  {
    var s' := DoReset(s, pid);
    assert s'.processes == s.processes[pid := s.processes[pid].(next := None)];
    assert s'.orderly;
  }

  lemma ReadCounterKeepsPending(s: State, pid: nat)
    requires PendingInv(s) && Enabled(s, ReadCounter(pid)) && OnlyOneResets(s, pid)
    ensures PendingInv(DoReadCounter(s, pid))
  {
    assert OnlyOneResets(DoReadCounter(s, pid), pid);
  }

  /** No other step makes anyone more about to write the counter. */
  lemma OthersKeepPending(s: State, step: Step, pid: nat)
    requires Enabled(s, step) && !step.Reset? && !step.ReadCounter? && Pending(Do(s, step), pid)
    ensures Pending(s, pid) && Do(s, step).processes[pid].next == s.processes[pid].next
  {
  }

  lemma OthersKeepCounter(s: State, step: Step)
    requires Enabled(s, step) && !step.Reset? && !step.ReadCounter?
    ensures Do(s, step).counter == s.counter && Do(s, step).orderly == s.orderly
  {
  }

  lemma StepKeepsPending(s: State, step: Step)
    requires PendingInv(s) && Enabled(s, step) && (step.ReadCounter? ==> OnlyOneResets(s, step.pid))
    ensures PendingInv(Do(s, step))
  {
    if step.Reset? {
      ResetKeepsPending(s, step.pid);
    } else if step.ReadCounter? {
      ReadCounterKeepsPending(s, step.pid);
    } else {
      OthersKeepCounter(s, step);
      var s' := Do(s, step);
      forall pid | Pending(s', pid) ensures Pending(s, pid) && s'.processes[pid].next == s.processes[pid].next {
        OthersKeepPending(s, step, pid);
      }
      PendingKept(s, s');
    }
  }

  lemma {:induction false} RunKeepsPending(s: State, steps: seq<Step>)
    requires PendingInv(s) && CanRun(s, steps) && OneAtATime(s, steps)
    ensures PendingInv(Run(s, steps))
    decreases |steps|
  {
    if steps != [] {
      StepKeepsPending(s, steps[0]);
      RunKeepsPending(Do(s, steps[0]), steps[1..]);
    }
  }

  /** If kernels reset one at a time, every reset of the run starts a new generation. */
  lemma ResetsOneAtATimeAreFresh(steps: seq<Step>, pid: nat)
    requires CanRun(Empty(), steps) && OneAtATime(Empty(), steps) && Enabled(Run(Empty(), steps), Reset(pid))
    ensures var s := Run(Empty(), steps); s.orderly && Fresh(s, s.processes[pid].next.value)
  {
    RunKeepsPending(Empty(), steps);
    ResetIsFresh(Run(Empty(), steps), pid);
  }

  /** Two kernels that reset at the same time can share a generation: the second one empties the files of the first. */
  lemma TwoKernelsShareAGeneration() returns (s: State)
    ensures Reachable(s) && s.orderly && Enabled(s, Reset(1)) && s.counter == Some(0) && s.processes[1].next == Some(0)
    ensures !Fresh(s, 0)
  {
    s := Empty();
    assert CanRun(s, []) && Run(s, []) == s;
    s := Reach(s, Launch(0, JupyterKernel));
    s := Reach(s, Launch(1, JupyterKernel));
    s := Reach(s, ReadCounter(0));
    s := Reach(s, ReadCounter(1));
    s := Reach(s, Reset(0));
    ResetIsFresh(s, 1);
  }

  // Left-over threads.

  /** Both processes have cached generation `g`, whose two files are empty and named. */
  ghost predicate Met(s: State, kernel: nat, lldb: nat, g: nat, one: nat, two: nat) {
    && s.counter == Some(g) && kernel != lldb && Alive(s, kernel) && Alive(s, lldb)
    && s.processes[kernel].kind.JupyterKernel? && s.processes[lldb].kind.LLDB?
    && s.processes[kernel].cached == s.processes[lldb].cached == Some(g)
    && one < |s.inodes| && two < |s.inodes| && one != two && s.inodes[two].packets == []
    && (g, One) in s.names && (g, Two) in s.names && s.names[(g, One)] == one && s.names[(g, Two)] == two
  }

  ghost predicate HasOpen(s: State, pid: nat, one: nat, two: nat) {
    pid in s.processes && s.processes[pid].files == Some((Handle(one, 0), Handle(two, 0)))
  }

  lemma ResetMakesFiles(s: State, pid: nat)
    requires Inv(s) && Order(s) && Enabled(s, Reset(pid)) && s.processes[pid].next.value == Successor(s.counter)
    ensures var s' := Do(s, Reset(pid)); var g := Successor(s.counter); var n := |s.inodes|;
      && s'.processes == s.processes[pid := s.processes[pid].(next := None)] && s'.threads == s.threads
      && s'.counter == Some(g) && s'.orderly == s.orderly
      && |s'.inodes| == n + 2 && s'.inodes[n + 1].packets == []
      && (g, One) in s'.names && (g, Two) in s'.names && s'.names[(g, One)] == n && s'.names[(g, Two)] == n + 1
  {
    NewFiles(s, pid, Successor(s.counter));
  }

  lemma LoadBoth(s: State, kernel: nat, lldb: nat) returns (s': State)
    requires Reachable(s) && s.counter.Some? && Alive(s, kernel) && Alive(s, lldb) && kernel != lldb
    ensures Reachable(s')
    ensures s' == s.(processes := s.processes[kernel := s.processes[kernel].(cached := s.counter, files := None)]
                                             [lldb := s.processes[lldb].(cached := s.counter, files := None)])
  {
    s' := Reach(s, LoadCounter(kernel));
    s' := Reach(s', LoadCounter(lldb));
  }

  /** A kernel resets, and both processes load the counter. */
  lemma Meet(s: State, kernel: nat, lldb: nat) returns (s': State)
    requires Reachable(s) && s.orderly && Alive(s, kernel) && Alive(s, lldb) && kernel != lldb
    requires s.processes[kernel].kind.JupyterKernel? && s.processes[lldb].kind.LLDB?
    ensures Reachable(s') && s'.orderly && s'.threads == s.threads
    ensures Met(s', kernel, lldb, Successor(s.counter), |s.inodes|, |s.inodes| + 1)
    ensures s'.processes[kernel].files.None? && s'.processes[lldb].files.None?
  {
    s' := Reach(s, ReadCounter(kernel));
    ReachableOrder(s');
    ResetMakesFiles(s', kernel);
    s' := Reach(s', Reset(kernel));
    s' := LoadBoth(s', kernel, lldb);
  }

  lemma OpenOne(s: State, pid: nat, kernel: nat, lldb: nat, g: nat, one: nat, two: nat) returns (s': State)
    requires Reachable(s) && Met(s, kernel, lldb, g, one, two) && (pid == kernel || pid == lldb)
    requires s.processes[pid].files.None?
    ensures Reachable(s') && Met(s', kernel, lldb, g, one, two) && s'.threads == s.threads && HasOpen(s', pid, one, two)
    ensures s'.processes == s.processes[pid := s'.processes[pid]] && s'.inodes == s.inodes
  {
    s' := Reach(s, OpenFiles(pid));
  }

  /** The kernel sends a reply to a call of the new generation. */
  lemma SendOne(s: State, kernel: nat, lldb: nat, g: nat, one: nat, two: nat, tid: nat, payload: int) returns (s': State)
    requires Reachable(s) && Met(s, kernel, lldb, g, one, two) && HasOpen(s, kernel, one, two) && tid !in s.threads
    ensures Reachable(s') && s'.counter == Some(g) && s'.processes == s.processes && two < |s'.inodes|
    ensures s'.inodes[two].packets == [Packet(payload, g, JupyterKernel)]
    ensures forall t :: t in s.threads ==> t in s'.threads && s'.threads[t] == s.threads[t]
  {
    s' := Reach(s, BeginCall(tid, kernel));
    s' := Reach(s', Validate(tid));
    s' := Reach(s', Write(tid, payload));
  }

  /** Validation lets the left-over thread pass, and it takes the reply. */
  lemma TakeOne(s: State, tid: nat, g: nat, one: nat, two: nat, packet: Packet) returns (s': State)
    requires Reachable(s) && s.counter == Some(g) && Working(s, tid) && HasOpen(s, s.threads[tid].pid, one, two)
    requires s.processes[s.threads[tid].pid].kind.LLDB? && s.processes[s.threads[tid].pid].cached == Some(g)
    requires two < |s.inodes| && s.inodes[two].packets == [packet]
    ensures Reachable(s') && |s'.readings| > 0
    ensures s'.readings[|s'.readings| - 1] == Reading(tid, LLDB, g, s.threads[tid].began, [packet])
  {
    s' := s;
    if s.threads[tid].phase.Idle? {
      s' := Reach(s, Validate(tid));
    }
    s' := Reach(s', Read(tid, 1));
  }

  /**
   * From every reachable state in which the counter has only been counted up: any thread in the middle of a call, in a
   * living LLDB process, can outlive its generation and take a frame of a newer one, sent for a call it did not make.
   */
  lemma LeftOverThreadSteals(s: State, tid: nat, kernel: nat, caller: nat, payload: int) returns (s': State)
    requires Reachable(s) && s.orderly && Working(s, tid) && s.processes[s.threads[tid].pid].kind.LLDB?
    requires Alive(s, kernel) && s.processes[kernel].kind.JupyterKernel? && caller !in s.threads
    ensures Reachable(s') && |s'.readings| > 0
    ensures var r := s'.readings[|s'.readings| - 1];
      && r.tid == tid && r.began == s.threads[tid].began < r.cached
      && r.packets == [Packet(payload, r.cached, JupyterKernel)]
  {
    ReachableOrder(s);
    var lldb, g, one, two := s.threads[tid].pid, Successor(s.counter), |s.inodes|, |s.inodes| + 1;
    assert ThreadOrder(s, s.threads[tid]) && ProcessOrder(s.counter, s.processes[lldb]);
    s' := Meet(s, kernel, lldb);
    s' := OpenOne(s', kernel, kernel, lldb, g, one, two);
    s' := OpenOne(s', lldb, kernel, lldb, g, one, two);
    s' := SendOne(s', kernel, lldb, g, one, two, caller, payload);
    s' := TakeOne(s', tid, g, one, two, Packet(payload, g, JupyterKernel));
  }

  /**
   * When a read does so: exactly if its process has fetched since the call began, and anything is unread.
   */
  lemma ReadTakesNewerExactly(s: State, tid: nat, most: nat)
    requires Reachable(s) && s.orderly && Enabled(s, Read(tid, most)) && most > 0
    requires s.processes[s.threads[tid].pid].files.Some?
    ensures var p := s.processes[s.threads[tid].pid];
      var s' := Do(s, Read(tid, most));
      && |s'.readings| == |s.readings| + 1
      && ((exists packet :: packet in s'.readings[|s.readings|].packets && s.threads[tid].began < packet.from)
          <==> s.threads[tid].began != p.cached.value && p.Receiver().Unread(s.inodes) != [])
  {
    ReachableOrder(s);
    var p := s.processes[s.threads[tid].pid];
    assert ProcessInv(s.inodes, p) && ThreadOrder(s, s.threads[tid]);
    ReadFindsOwn(s.inodes, p, most);
    var packets := Taken(p.Receiver().Unread(s.inodes), most);
    assert Do(s, Read(tid, most)).readings[|s.readings|].packets == packets;
    if packets != [] {
      assert packets[0] in packets;
    }
  }

  lemma TwoProcesses() returns (s: State)
    ensures Reachable(s) && s.orderly && s.counter.None? && s.inodes == [] && s.threads == map[] && s.names == map[]
    ensures s.processes == map[0 := Process(JupyterKernel, true, None, None, None), 1 := Process(LLDB, true, None, None, None)]
  {
    s := Empty();
    assert CanRun(s, []) && Run(s, []) == s;
    s := Reach(s, Launch(0, JupyterKernel));
    s := Reach(s, Launch(1, LLDB));
  }

  /** Such a thread exists: a kernel resets, an LLDB process fetches, a thread of it calls. */
  lemma CallsBegin() returns (s: State)
    ensures Reachable(s) && s.orderly && Working(s, 7) && Alive(s, 0) && s.threads[7].began == 0 && 9 !in s.threads
    ensures s.processes[0].kind.JupyterKernel? && s.processes[s.threads[7].pid].kind.LLDB?
  {
    s := TwoProcesses();
    s := Reach(s, ReadCounter(0));
    ReachableOrder(s);
    ResetMakesFiles(s, 0);
    s := Reach(s, Reset(0));
    s := Reach(s, LoadCounter(1));
    s := Reach(s, BeginCall(7, 1));
  }

  /** So the comment's promise fails: a thread of generation 0 reads a frame of generation 1. */
  lemma ZombieReadsNewGeneration() returns (s: State)
    ensures Reachable(s) && |s.readings| > 0
    ensures var r := s.readings[|s.readings| - 1]; r.tid == 7 && r.began == 0 < r.cached && |r.packets| == 1
  {
    s := CallsBegin();
    s := LeftOverThreadSteals(s, 7, 0, 9, 42);
  }
}
