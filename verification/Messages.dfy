/** The messages of SwiftShell.swift: what the LLDB process asks, how the kernel answers, and what the caller gets. */
module Messages {
  import opened Wrappers

  /**
   * A request is a label and a body.  `call` numbers the calls in the order the LLDB process makes them;
   * it is not on the wire, nothing below reads it, and it only lets replies be matched with requests.
   */
  datatype Message = Message(kind: string, body: string, call: nat)

  /** What the front end answers a blocking request with: an object of which the caller looks at two fields. */
  datatype Content = Content(error: Option<string>, data: Option<string>)

  /** Neither is there, as when no answer came in time. */
  const NOTHING: Content := Content(None, None)

  datatype Reply = Reply(kind: string, content: Content, call: nat)

  /** What a decoder makes of a reply: a value that may be None, a MessageError, or a failed check of the label. */
  datatype Decoded = Got(value: Option<string>) | Raised(error: string) | Refused

  /** The two calls the LLDB process can make. */
  datatype Call = BlockingRequest(request: string) | SendMultipart(parts: string) {

    /** `encode_blocking_request` and `encode_send_multipart`. */
    function Encode(number: nat): Message {
      match this
      case BlockingRequest(request) => Message("blocking_request", request, number)
      case SendMultipart(parts) => Message("send_multipart", parts, number)
    }

    /** `decode_blocking_request` and `decode_send_multipart`. */
    function Decode(reply: Reply): Decoded {
      match this
      case BlockingRequest(_) =>
        if reply.kind != "blocking_request" then Refused
        else if reply.content.error.Some? then Raised(reply.content.error.value)
        else Got(reply.content.data)
      case SendMultipart(_) =>
        if reply.kind != "send_request" then Refused else Got(None)
    }

    /** The label is the one that the decoder insists on. */
    predicate Accepts(reply: Reply) {
      !Decode(reply).Refused?
    }
  }

  predicate Executable(m: Message) {
    m.kind == "blocking_request" || m.kind == "send_multipart"
  }

  /** What `execute_message` passes on: a request to the front end, or parts to the notebook's socket. */
  function HandedOver(m: Message): Call
    requires Executable(m)
  {
    if m.kind == "blocking_request" then BlockingRequest(m.body) else SendMultipart(m.body)
  }

  /** `execute_message`, when the front end answers so: any other label stops the kernel. */
  function ExecuteMessage(m: Message, answer: Content): (r: Reply)
    requires Executable(m)
    ensures r.call == m.call
  {
    if m.kind == "blocking_request" then Reply("blocking_request", answer, m.call)
    else Reply("send_request", NOTHING, m.call)
  }

  /** The front end is handed exactly what the caller passed. */
  lemma RequestIsHandedOver(call: Call, number: nat)
    ensures Executable(call.Encode(number)) && HandedOver(call.Encode(number)) == call
  {
    assert "blocking_request"[0] != "send_multipart"[0];
  }

  /** The caller of a request is told this answer: its error if there is one, else its data, which may be missing. */
  ghost predicate Tells(decoded: Decoded, answer: Content) {
    && (forall e :: decoded == Raised(e) <==> answer.error == Some(e))
    && (forall v :: decoded == Got(v) <==> answer.error.None? && answer.data == v)
  }

  /** And the caller gets exactly what the front end answered; one who sends parts is told nothing. */
  lemma AnswerComesBack(call: Call, number: nat, answer: Content)
    ensures Executable(call.Encode(number))
    ensures var decoded := call.Decode(ExecuteMessage(call.Encode(number), answer));
      if call.BlockingRequest? then Tells(decoded, answer) else decoded == Got(None)
  {
    assert "blocking_request"[0] != "send_multipart"[0];
  }

  /** Whatever the front end answers, the reply to a call passes that call's own decoder and no other's. */
  lemma ReplyMatchesCall(call: Call, other: Call, number: nat, answer: Content)
    ensures Executable(call.Encode(number))
    ensures call.Accepts(ExecuteMessage(call.Encode(number), answer))
    ensures other.Accepts(ExecuteMessage(call.Encode(number), answer)) <==> other.BlockingRequest? == call.BlockingRequest?
  {
    assert "blocking_request"[0] != "send_request"[0];
    assert "blocking_request"[0] != "send_multipart"[0];
  }

  /** A reply that one kind of call accepts is refused by the other. */
  lemma AcceptedByOneKind(call: Call, other: Call, reply: Reply)
    requires call.Accepts(reply)
    ensures other.Accepts(reply) <==> other.BlockingRequest? == call.BlockingRequest?
  {
    assert "blocking_request"[0] != "send_request"[0];
  }
}
