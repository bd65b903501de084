/**
 * Requests to the notebook's front end (send_request, read_reply_from_input and blocking_request in HandleIO.swift).
 * Each gets a number; replies come in on standard input, between what the user types and replies that are late.
 */
module FrontEnd {
  import opened Wrappers

  /** What one read of standard input returns. */
  datatype Input = NotReady | Typed(text: string) | ColabReply(id: nat, data: string) | OtherMessage

  /** The input at a position; there is nothing behind the last one yet. */
  function InputAt(inputs: seq<Input>, at: nat): Input {
    if at < |inputs| then inputs[at] else NotReady
  }

  predicate Answers(input: Input, id: nat) {
    input.ColabReply? && input.id == id
  }

  /** What a search over so many reads finds, and where it leaves the input. */
  datatype Search = Search(found: Option<nat>, next: nat)

  function FindReply(inputs: seq<Input>, from: nat, id: nat, turns: nat): Search
    decreases turns
  {
    if turns == 0 then Search(None, from)
    else if Answers(InputAt(inputs, from), id) then Search(Some(from), from + 1)
    else FindReply(inputs, from + 1, id, turns - 1)
  }

  /** A reply of the front end with this number was read there. */
  ghost predicate RepliesAt(inputs: seq<Input>, k: nat, id: nat) {
    k < |inputs| && exists data :: inputs[k] == ColabReply(id, data)
  }

  lemma AnswersByNumber(inputs: seq<Input>, k: nat, id: nat)
    ensures Answers(InputAt(inputs, k), id) <==> RepliesAt(inputs, k, id)
  {
    if Answers(InputAt(inputs, k), id) {
      assert inputs[k] == ColabReply(id, inputs[k].data);
    }
  }

  /** It finds the first reply with that number among those reads, and nothing if there is none. */
  lemma {:induction false} FindsFirst(inputs: seq<Input>, from: nat, id: nat, turns: nat)
    ensures var s := FindReply(inputs, from, id, turns);
      && from <= s.next <= from + turns
      && (s.found.Some? ==>
            && from <= s.found.value < s.next == s.found.value + 1 && RepliesAt(inputs, s.found.value, id)
            && forall k :: from <= k < s.found.value ==> !RepliesAt(inputs, k, id))
      && (s.found.None? ==> s.next == from + turns)
      && (s.found.None? <==> forall k :: from <= k < from + turns ==> !RepliesAt(inputs, k, id))
    decreases turns
  {
    AnswersByNumber(inputs, from, id);
    if turns > 0 && !Answers(InputAt(inputs, from), id) {
      FindsFirst(inputs, from + 1, id, turns - 1);
    }
  }

  /** A request made: its number, and where in the input its reply was found. */
  datatype Exchange = Exchange(id: nat, reply: Option<nat>)

  class Kernel {
    var msgId: nat
    var next: nat
    var exchanges: seq<Exchange>
    const inputs: seq<Input>   // what comes in; a read that finds nothing also takes its turn

    constructor (inputs: seq<Input>)
      ensures msgId == 0 && next == 0 && exchanges == [] && this.inputs == inputs
    {
      msgId, next, exchanges := 0, 0, [];
      this.inputs := inputs;
    }

    method ReadNextInputMessage() returns (reply: Input)
      modifies this`next
      ensures reply == InputAt(inputs, old(next)) && next == old(next) + 1
    {
      reply := InputAt(inputs, next);
      next := next + 1;
    }

    method SendRequest(expectReply: bool) returns (requestID: Option<nat>)
      modifies this`msgId
      ensures msgId == old(msgId) + (if expectReply then 1 else 0)
      ensures requestID == if expectReply then Some(msgId) else None
    {
      requestID := None;
      if expectReply {
        msgId := msgId + 1;
        requestID := Some(msgId);
      }
    }

    /** Reads until the reply is there or the deadline has passed, which allows so many reads. */
    method ReadReplyFromInput(messageID: nat, turns: nat) returns (reply: Option<nat>)
      modifies this`next
      ensures Search(reply, next) == FindReply(inputs, old(next), messageID, turns)
    {
      var left: nat := turns;
      while left > 0
        invariant left <= turns
        invariant FindReply(inputs, next, messageID, left) == FindReply(inputs, old(next), messageID, turns)
      {
        var at := next;
        var input := ReadNextInputMessage();
        if Answers(input, messageID) {
          return Some(at);
        }
        left := left - 1;
      }
      reply := None;
    }

    method BlockingRequest(turns: nat) returns (reply: Option<nat>)
      modifies this
      ensures History(msgId, next, exchanges) == Next(old(History(msgId, next, exchanges)), inputs, Request(turns))
      ensures reply == exchanges[|exchanges| - 1].reply
    {
      var requestID := SendRequest(true);
      reply := ReadReplyFromInput(requestID.value, turns);
      exchanges := exchanges + [Exchange(requestID.value, reply)];
    }
  }

  // Whole histories.

  /** A request with its deadline, a message that expects no reply, or a read for input of the user's. */
  datatype Event = Request(turns: nat) | Post | ReadInput

  datatype History = History(msgId: nat, next: nat, exchanges: seq<Exchange>)

  function Next(h: History, inputs: seq<Input>, e: Event): History {
    match e
    case Post => h
    case ReadInput => h.(next := h.next + 1)
    case Request(turns) =>
      var s := FindReply(inputs, h.next, h.msgId + 1, turns);
      History(h.msgId + 1, s.next, h.exchanges + [Exchange(h.msgId + 1, s.found)])
  }

  function After(inputs: seq<Input>, events: seq<Event>): History {
    if events == [] then History(0, 0, [])
    else Next(After(inputs, events[..|events| - 1]), inputs, events[|events| - 1])
  }

  /** Each reply was read, bears the number of its request, and was read after those of earlier requests. */
  ghost predicate InOrder(inputs: seq<Input>, h: History) {
    && (forall i :: 0 <= i < |h.exchanges| ==> h.exchanges[i].id == i + 1) && h.msgId == |h.exchanges|
    && (forall i :: 0 <= i < |h.exchanges| && h.exchanges[i].reply.Some? ==>
          h.exchanges[i].reply.value < h.next && RepliesAt(inputs, h.exchanges[i].reply.value, i + 1))
    && (forall i, j :: 0 <= i < j < |h.exchanges| && h.exchanges[i].reply.Some? && h.exchanges[j].reply.Some? ==>
          h.exchanges[i].reply.value < h.exchanges[j].reply.value)
  }

  lemma {:induction false} HistoriesAreInOrder(inputs: seq<Input>, events: seq<Event>)
    ensures InOrder(inputs, After(inputs, events))
  {
    if events != [] {
      var n := |events| - 1;
      HistoriesAreInOrder(inputs, events[..n]);
      var h := After(inputs, events[..n]);
      if events[n].Request? {
        FindsFirst(inputs, h.next, h.msgId + 1, events[n].turns);
      }
    }
  }

  /**
   * Over any history of requests, whichever timed out, and whatever comes in: no two requests have the same number, each
   * that is answered is answered by a reply with its own, and no reply answers two. So the reply to a request that timed
   * out never answers a later one.
   */
  lemma LateRepliesNeverMatch(inputs: seq<Input>, events: seq<Event>, i: nat, j: nat)
    requires var h := After(inputs, events); i < |h.exchanges| && j < |h.exchanges| && i != j
    ensures var h := After(inputs, events);
      && h.exchanges[i].id != h.exchanges[j].id
      && (h.exchanges[j].reply.Some? ==>
            && RepliesAt(inputs, h.exchanges[j].reply.value, h.exchanges[j].id)
            && !RepliesAt(inputs, h.exchanges[j].reply.value, h.exchanges[i].id)
            && h.exchanges[i].reply != h.exchanges[j].reply)
  {
    HistoriesAreInOrder(inputs, events);
  }
}
