/**
 * Running a shell command under a pseudoterminal (_poll_process and _monitor_process in HandleIO.swift).
 * A Round is one turn of the monitor's loop together with what the operating system did meanwhile; Real states what
 * Linux guarantees about it. Bytes are decoded as they are read, and the text is forwarded.
 */
module Subprocess {
  import opened Framing
  import opened Selection
  import opened Wrappers

  type Bytes = seq<byte>

  const CHUNK: nat := 0x10_0000

  /** One descriptor is registered, so a poll reports one event; `contents` is what os.read returned, if called. */
  datatype Event = Event(readable: bool, hangUp: bool, error: bool, contents: Bytes)

  /**
   * `terminated` is read first. Then `before` has been written and `closed` tells whether any process still holds the
   * other end when epoll looks; `during` is written between the look and the read. `echo` and `interrupted` follow.
   */
  datatype Round = Round(
    terminated: bool, before: Bytes, closed: bool, event: Event, during: Bytes, echo: bool, interrupted: bool)

  /** Output not read yet, and whether the other end is closed for good. */
  datatype Pty = Pty(unread: Bytes, closed: bool)

  function Taken(r: Round): Bytes {
    if r.event.readable then r.event.contents else []
  }

  /** epoll is level-triggered, a read returns a bounded first part, and nobody writes once the other end is closed. */
  ghost predicate Real(pty: Pty, r: Round) {
    && (pty.closed ==> r.closed && r.before == [])
    && (r.closed ==> r.during == [])
    && (r.event.readable <==> pty.unread + r.before != [])
    && (r.event.readable ==> |r.event.contents| <= CHUNK && r.event.contents <= pty.unread + r.before + r.during)
    && (r.event.hangUp <==> r.closed) && (r.event.error ==> r.closed)
  }

  function NextPty(pty: Pty, r: Round): Pty {
    var all := pty.unread + r.before + r.during;
    Pty(if |Taken(r)| <= |all| then all[|Taken(r)|..] else [], r.closed)
  }

  function PtyAfter(pty: Pty, rounds: seq<Round>): Pty {
    if rounds == [] then pty else NextPty(PtyAfter(pty, rounds[..|rounds| - 1]), rounds[|rounds| - 1])
  }

  /** All that was ever written to the pseudoterminal. */
  function Written(rounds: seq<Round>): Bytes {
    if rounds == [] then []
    else Written(rounds[..|rounds| - 1]) + (rounds[|rounds| - 1].before + rounds[|rounds| - 1].during)
  }

  ghost predicate RealAt(pty: Pty, rounds: seq<Round>, i: nat)
    requires i < |rounds|
  {
    Real(PtyAfter(pty, rounds[..i]), rounds[i])
  }

  ghost predicate RealRun(pty: Pty, rounds: seq<Round>) {
    forall i: nat :: i < |rounds| ==> RealAt(pty, rounds, i)
  }

  lemma OneMore(pty: Pty, rounds: seq<Round>, i: nat)
    requires i < |rounds|
    ensures PtyAfter(pty, rounds[..i + 1]) == NextPty(PtyAfter(pty, rounds[..i]), rounds[i])
    ensures Written(rounds[..i + 1]) == Written(rounds[..i]) + (rounds[i].before + rounds[i].during)
  {
    assert rounds[..i + 1][..i] == rounds[..i];
  }

  /** Read and unread together are what was written; a closed end stays closed. */
  lemma RoundConserves(pty: Pty, r: Round, written: Bytes, forwarded: Bytes)
    requires Real(pty, r) && forwarded + pty.unread == written
    ensures (forwarded + Taken(r)) + NextPty(pty, r).unread == written + (r.before + r.during)
    ensures pty.closed ==> NextPty(pty, r).closed
  {
    var all := pty.unread + r.before + r.during;
    assert all == Taken(r) + all[|Taken(r)|..];
    assert forwarded + all == written + (r.before + r.during);
  }

  lemma {:induction false} NothingAfterClose(pty: Pty, rounds: seq<Round>, i: nat)
    requires RealRun(pty, rounds) && i <= |rounds| && PtyAfter(pty, rounds[..i]).closed
    ensures Written(rounds) == Written(rounds[..i])
    decreases |rounds| - i
  {
    if i == |rounds| {
      assert rounds[..i] == rounds;
    } else {
      OneMore(pty, rounds, i);
      assert RealAt(pty, rounds, i);
      assert rounds[i].before + rounds[i].during == [];
      NothingAfterClose(pty, rounds, i + 1);
    }
  }

  // The widget that shows or hides what the user types.

  /** The updates made in some rounds. */
  function Updates(rounds: seq<Round>): seq<bool> {
    if rounds == [] then []
    else
      var front, last := rounds[..|rounds| - 1], rounds[|rounds| - 1].echo;
      if front != [] && front[|front| - 1].echo == last then Updates(front) else Updates(front) + [last]
  }

  /** The widget always shows the current setting, and is never told what it already shows. */
  lemma {:induction false} UpdatesAreNews(rounds: seq<Round>)
    ensures rounds == [] <==> Updates(rounds) == []
    ensures rounds != [] ==> Updates(rounds)[|Updates(rounds)| - 1] == rounds[|rounds| - 1].echo
    ensures forall k :: 0 < k < |Updates(rounds)| ==> Updates(rounds)[k] != Updates(rounds)[k - 1]
  {
    if rounds != [] {
      UpdatesAreNews(rounds[..|rounds| - 1]);
    }
  }

  /** The setting is the first, or differs from the one before. */
  predicate IsChange(rounds: seq<Round>, i: nat)
    requires i < |rounds|
  {
    i == 0 || rounds[i].echo != rounds[i - 1].echo
  }

  ghost predicate Changes(rounds: seq<Round>, index: seq<nat>) {
    Rising(index, |rounds|) && forall i: nat :: i < |rounds| ==> (i in index <==> IsChange(rounds, i))
  }

  lemma OneMoreSetting(front: seq<Round>, last: Round, index: seq<nat>)
    requires Changes(front, index)
    ensures var changed := front == [] || front[|front| - 1].echo != last.echo;
      Changes(front + [last], index + if changed then [|front|] else [])
  {
    var n, rounds, changed := |front|, front + [last], front == [] || front[|front| - 1].echo != last.echo;
    var more := index + if changed then [n] else [];
    PickOn(index, n, changed);
    forall i: nat | i < |rounds| ensures i in more <==> IsChange(rounds, i) {
      if i < n {
        assert IsChange(rounds, i) == IsChange(front, i);
      } else {
        assert IsChange(rounds, n) == changed;
      }
    }
  }

  /** The widget is told of exactly the changes, each once and in order. */
  lemma {:induction false} UpdatesAreChanges(rounds: seq<Round>) returns (index: seq<nat>)
    ensures Changes(rounds, index) && |Updates(rounds)| == |index|
    ensures forall k :: 0 <= k < |index| ==> Updates(rounds)[k] == rounds[index[k]].echo
  {
    if rounds == [] {
      return [];
    }
    var front, last := rounds[..|rounds| - 1], rounds[|rounds| - 1];
    var before := UpdatesAreChanges(front);
    assert rounds == front + [last];
    OneMoreSetting(front, last, before);
    index := before + if front == [] || front[|front| - 1].echo != last.echo then [|front|] else [];
    assert before + [] == before;
  }

  /** The widget has had its updates for the first `n` rounds. */
  ghost predicate UpToDate(rounds: seq<Round>, n: nat, updates: seq<bool>, echoStatus: Option<bool>)
    requires n <= |rounds|
  {
    && updates == Updates(rounds[..n])
    && echoStatus == if n == 0 then None else Some(rounds[n - 1].echo)
  }

  lemma UpdateKeepsUp(rounds: seq<Round>, n: nat, updates: seq<bool>, echoStatus: Option<bool>)
    requires n < |rounds| && UpToDate(rounds, n, updates, echoStatus)
    ensures UpToDate(rounds, n + 1, if echoStatus == Some(rounds[n].echo) then updates else updates + [rounds[n].echo],
      Some(rounds[n].echo))
  {
    assert rounds[..n + 1][..n] == rounds[..n];
  }

  // The incremental decoder.

  /** The text of the characters that are complete in some bytes; the last flush, which the source omits, would add more. */
  datatype Decoder = Decoder(text: Bytes -> string)

  ghost predicate AddsTo(d: Decoder, before: Bytes, more: Bytes) {
    d.text(before) <= d.text(before + more)
  }

  /** More bytes only add text. */
  ghost predicate Incremental(d: Decoder) {
    d.text([]) == "" && forall before, more :: AddsTo(d, before, more)
  }

  /** `decoder.decode(chunk)`, for a decoder that has been given `seen`. */
  function Decode(d: Decoder, seen: Bytes, chunk: Bytes): string {
    var before, after := d.text(seen), d.text(seen + chunk);
    if before <= after then after[|before|..] else after
  }

  lemma DecodesOn(d: Decoder, seen: Bytes, chunk: Bytes)
    requires Incremental(d)
    ensures d.text(seen) + Decode(d, seen, chunk) == d.text(seen + chunk)
  {
    assert AddsTo(d, seen, chunk);
  }

  // The monitor.

  datatype Outcome = Returned | Interrupted | Running

  /** What the monitor keeps between turns, the decoder's bytes included, and what it has sent. */
  datatype Monitor = Monitor(
    seen: Bytes, connected: bool, echoStatus: Option<bool>, forwarded: string, updates: seq<bool>)

  const NEW_MONITOR: Monitor := Monitor([], true, None, "", [])

  function StillConnected(connected: bool, e: Event): bool {
    connected && !e.hangUp && !e.error
  }

  /** One turn of `_poll_process`. */
  method PollProcess(d: Decoder, r: Round, m: Monitor) returns (m': Monitor, result: bool)
    requires Incremental(d) && m.forwarded == d.text(m.seen)
    ensures m'.seen == m.seen + Taken(r) && m'.forwarded == d.text(m'.seen) && m.forwarded <= m'.forwarded
    ensures m'.connected == StillConnected(m.connected, r.event)
    ensures m'.echoStatus == m.echoStatus && m'.updates == m.updates
    ensures result <==> r.terminated && !m'.connected && !r.event.readable
  {
    var outputAvailable := false;
    m' := m;
    if r.event.readable {
      outputAvailable := true;
      DecodesOn(d, m.seen, r.event.contents);
      m' := m'.(forwarded := m.forwarded + Decode(d, m.seen, r.event.contents), seen := m.seen + r.event.contents);
    } else {
      assert m.seen + [] == m.seen;
    }
    if r.event.hangUp || r.event.error {
      m' := m'.(connected := false);
    }
    result := r.terminated && !m'.connected && !outputAvailable;
  }

  /** When a turn ends the loop, in terms of the world instead of the flags. */
  ghost predicate Finished(pty: Pty, r: Round) {
    r.terminated && r.closed && pty.unread + r.before == []
  }

  /** After `n` rounds, what was read and what is still unread are all that was written. */
  ghost predicate Conserved(start: Pty, rounds: seq<Round>, n: nat, seen: Bytes, connected: bool) {
    && n <= |rounds|
    && seen + PtyAfter(start, rounds[..n]).unread == Written(rounds[..n])
    && (!connected ==> PtyAfter(start, rounds[..n]).closed)
  }

  lemma TurnConserves(start: Pty, rounds: seq<Round>, n: nat, seen: Bytes, connected: bool)
    requires RealRun(start, rounds) && n < |rounds| && Conserved(start, rounds, n, seen, connected)
    ensures Conserved(start, rounds, n + 1, seen + Taken(rounds[n]), StillConnected(connected, rounds[n].event))
  {
    OneMore(start, rounds, n);
    var pty := PtyAfter(start, rounds[..n]);
    assert RealAt(start, rounds, n);
    RoundConserves(pty, rounds[n], Written(rounds[..n]), seen);
  }

  /** The flags the poll tests mean that the command has terminated and its output is closed and read. */
  lemma ResultIsFinished(start: Pty, rounds: seq<Round>, n: nat, seen: Bytes, connected: bool)
    requires RealRun(start, rounds) && n < |rounds| && Conserved(start, rounds, n, seen, connected)
    ensures Finished(PtyAfter(start, rounds[..n]), rounds[n]) <==>
      rounds[n].terminated && !StillConnected(connected, rounds[n].event) && !rounds[n].event.readable
  {
    assert RealAt(start, rounds, n);
  }

  lemma FinishedReadsAll(start: Pty, rounds: seq<Round>, n: nat, seen: Bytes, connected: bool)
    requires RealRun(start, rounds) && n < |rounds| && Finished(PtyAfter(start, rounds[..n]), rounds[n])
    requires Conserved(start, rounds, n + 1, seen, connected)
    ensures seen == Written(rounds)
  {
    OneMore(start, rounds, n);
    assert RealAt(start, rounds, n);
    assert PtyAfter(start, rounds[..n + 1]).unread == [];
    NothingAfterClose(start, rounds, n + 1);
  }

  /** The rounds before the `n`-th neither ended the loop nor were interrupted. */
  ghost predicate Passed(start: Pty, rounds: seq<Round>, n: nat)
    requires n <= |rounds|
  {
    forall i: nat :: i < n ==> GoesOn(start, rounds, i)
  }

  ghost predicate GoesOn(start: Pty, rounds: seq<Round>, i: nat)
    requires i < |rounds|
  {
    !Finished(PtyAfter(start, rounds[..i]), rounds[i]) && !rounds[i].interrupted
  }

  /** The monitor has followed the first `n` rounds. */
  ghost predicate Follows(d: Decoder, m: Monitor, start: Pty, rounds: seq<Round>, n: nat) {
    && n <= |rounds| && Conserved(start, rounds, n, m.seen, m.connected)
    && m.forwarded == d.text(m.seen)
    && UpToDate(rounds, n, m.updates, m.echoStatus)
  }

  /** Where a turn leaves things. */
  ghost predicate TurnEnds(d: Decoder, m: Monitor, start: Pty, rounds: seq<Round>, i: nat, outcome: Outcome)
    requires i < |rounds|
  {
    match outcome
    case Returned =>
      && Finished(PtyAfter(start, rounds[..i]), rounds[i]) && m.forwarded == d.text(Written(rounds))
      && UpToDate(rounds, i, m.updates, m.echoStatus)
    case Interrupted =>
      && !Finished(PtyAfter(start, rounds[..i]), rounds[i]) && rounds[i].interrupted
      && Follows(d, m, start, rounds, i + 1)
    case Running => GoesOn(start, rounds, i) && Follows(d, m, start, rounds, i + 1)
  }

  /** One turn of the loop: poll, then the widget, then the interrupt. */
  method Turn(d: Decoder, m: Monitor, ghost start: Pty, rounds: seq<Round>, i: nat) returns (m': Monitor, outcome: Outcome)
    requires Incremental(d) && RealRun(start, rounds) && i < |rounds| && Follows(d, m, start, rounds, i)
    ensures TurnEnds(d, m', start, rounds, i, outcome)
  {
    var r := rounds[i];
    TurnConserves(start, rounds, i, m.seen, m.connected);
    ResultIsFinished(start, rounds, i, m.seen, m.connected);
    UpdateKeepsUp(rounds, i, m.updates, m.echoStatus);
    var result;
    m', result := PollProcess(d, r, m);
    if result {
      FinishedReadsAll(start, rounds, i, m'.seen, m'.connected);
      return m', Returned;
    }
    if m'.echoStatus != Some(r.echo) {
      m' := m'.(updates := m'.updates + [r.echo], echoStatus := Some(r.echo));
    }
    outcome := if r.interrupted then Interrupted else Running;
  }

  lemma TextSoFar(d: Decoder, m: Monitor, start: Pty, rounds: seq<Round>, n: nat)
    requires Incremental(d) && Follows(d, m, start, rounds, n)
    ensures m.forwarded <= d.text(Written(rounds[..n]))
  {
    assert AddsTo(d, m.seen, PtyAfter(start, rounds[..n]).unread);
  }

  /** How many rounds had their echo setting looked at. */
  function Looked(outcome: Outcome, turns: nat): nat {
    if outcome.Returned? && turns > 0 then turns - 1 else turns
  }

  /** The rounds went on until the last of these, which ended the loop in this way. */
  ghost predicate EndsWith(start: Pty, rounds: seq<Round>, turns: nat, outcome: Outcome) {
    && turns <= |rounds|
    && if outcome.Running? then turns == |rounds| && Passed(start, rounds, turns)
       else
         && 0 < turns && Passed(start, rounds, turns - 1)
         && if Finished(PtyAfter(start, rounds[..turns - 1]), rounds[turns - 1]) then outcome.Returned?
            else outcome.Interrupted? && rounds[turns - 1].interrupted
  }

  /** The loop has taken so many turns and is to go on, or was ended by the last of them. */
  ghost predicate SoFar(d: Decoder, m: Monitor, start: Pty, rounds: seq<Round>, turns: nat, outcome: Outcome) {
    && turns <= |rounds|
    && if outcome.Running? then Passed(start, rounds, turns) && Follows(d, m, start, rounds, turns)
       else 0 < turns && Passed(start, rounds, turns - 1) && TurnEnds(d, m, start, rounds, turns - 1, outcome)
  }

  lemma NothingYet(d: Decoder, start: Pty, rounds: seq<Round>)
    requires Incremental(d) && start == Pty([], false)
    ensures SoFar(d, NEW_MONITOR, start, rounds, 0, Running)
  {
    assert rounds[..0] == [];
  }

  lemma OneTurnMore(d: Decoder, m: Monitor, m': Monitor, start: Pty, rounds: seq<Round>, turns: nat, outcome: Outcome)
    requires SoFar(d, m, start, rounds, turns, Running) && turns < |rounds|
    requires TurnEnds(d, m', start, rounds, turns, outcome)
    ensures SoFar(d, m', start, rounds, turns + 1, outcome)
  {
  }

  method TakeTurn(d: Decoder, m: Monitor, ghost start: Pty, rounds: seq<Round>, turns: nat)
    returns (m': Monitor, outcome: Outcome)
    requires Incremental(d) && RealRun(start, rounds) && turns < |rounds|
    requires SoFar(d, m, start, rounds, turns, Running)
    ensures SoFar(d, m', start, rounds, turns + 1, outcome)
  {
    m', outcome := Turn(d, m, start, rounds, turns);
    OneTurnMore(d, m, m', start, rounds, turns, outcome);
  }

  lemma LoopEnds(d: Decoder, m: Monitor, start: Pty, rounds: seq<Round>, turns: nat, outcome: Outcome)
    requires Incremental(d) && SoFar(d, m, start, rounds, turns, outcome) && (outcome.Running? ==> turns == |rounds|)
    ensures EndsWith(start, rounds, turns, outcome)
    ensures outcome.Returned? ==> m.forwarded == d.text(Written(rounds))
    ensures !outcome.Returned? ==> m.forwarded <= d.text(Written(rounds[..turns]))
    ensures m.updates == Updates(rounds[..Looked(outcome, turns)])
  {
    if !outcome.Returned? {
      TextSoFar(d, m, start, rounds, turns);
    }
  }

  /** The loop of `_monitor_process`. */
  method Watch(d: Decoder, rounds: seq<Round>, ghost start: Pty) returns (m: Monitor, outcome: Outcome, turns: nat)
    requires Incremental(d) && RealRun(start, rounds) && SoFar(d, NEW_MONITOR, start, rounds, 0, Running)
    ensures SoFar(d, m, start, rounds, turns, outcome) && (outcome.Running? ==> turns == |rounds|)
  {
    m, outcome, turns := NEW_MONITOR, Running, 0;
    while outcome.Running? && turns < |rounds|
      invariant turns <= |rounds| && SoFar(d, m, start, rounds, turns, outcome)
    {
      m, outcome := TakeTurn(d, m, start, rounds, turns);
      turns := turns + 1;
    }
  }

  /**
   * `_monitor_process`. It returns in the first round in which the command has terminated, the other end is closed and
   * nothing is left to read, unless the user interrupts it before. Then the text of all output has been forwarded, in
   * order, up to a character that is still incomplete at the very end; otherwise a first part of it has.
   */
  method MonitorProcess(d: Decoder, rounds: seq<Round>, ghost start: Pty)
    returns (forwarded: string, updates: seq<bool>, outcome: Outcome, turns: nat)
    requires Incremental(d) && start == Pty([], false) && RealRun(start, rounds)
    ensures EndsWith(start, rounds, turns, outcome)
    ensures outcome.Returned? ==> forwarded == d.text(Written(rounds))
    ensures !outcome.Returned? ==> forwarded <= d.text(Written(rounds[..turns]))
    ensures updates == Updates(rounds[..Looked(outcome, turns)])
  {
    NothingYet(d, start, rounds);
    var m;
    m, outcome, turns := Watch(d, rounds, start);
    LoopEnds(d, m, start, rounds, turns, outcome);
    forwarded, updates := m.forwarded, m.updates;
  }
}
