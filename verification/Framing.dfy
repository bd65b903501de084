/**
 * The byte format of the pipe files (KernelContext.swift): every message is an 8-byte little-endian
 * length followed by its bytes.  A file only grows; a reader keeps its own offset into it.
 */
module Framing {
  import opened Text

  newtype byte = x: int | 0 <= x < 256

  type Payload = seq<byte>

  const HEADER_SIZE: nat := 8
  const SCRATCH_SIZE: nat := 1024

  /** One past the largest byte count a Swift `Int` can hold. */
  const COUNT_LIMIT: nat := 0x8000_0000_0000_0000

  /** 256 to the power `k`. */
  function Radix(k: nat): (r: nat)
    ensures r >= 1
  {
    if k == 0 then 1 else 256 * Radix(k - 1)
  }

  function LittleEndian(n: nat, k: nat): (bs: seq<byte>)
    ensures |bs| == k
  {
    if k == 0 then [] else [(n % 256) as byte] + LittleEndian(n / 256, k - 1)
  }

  function FromLittleEndian(bs: seq<byte>): nat {
    if bs == [] then 0 else bs[0] as nat + 256 * FromLittleEndian(bs[1..])
  }

  lemma {:induction false} DecodeEncodeCount(n: nat, k: nat)
    requires n < Radix(k)
    ensures FromLittleEndian(LittleEndian(n, k)) == n
  {
    if k > 0 {
      DecodeEncodeCount(n / 256, k - 1);
      assert LittleEndian(n, k)[1..] == LittleEndian(n / 256, k - 1);
    }
  }

  lemma {:induction false} EncodeDecodeCount(bs: seq<byte>)
    ensures LittleEndian(FromLittleEndian(bs), |bs|) == bs
  {
    if bs != [] {
      EncodeDecodeCount(bs[1..]);
      assert bs == [bs[0]] + bs[1..];
    }
  }

  lemma DivideTwice(n: nat, m: nat)
    requires m > 0
    ensures n / 256 / m == n / (256 * m)
  {
    var q, r := n / (256 * m), n % (256 * m);
    assert n == 256 * (m * q) + r;
    assert n / 256 == m * q + r / 256;
    assert r / 256 < m;
    QuotientIs(n / 256, m, q, r / 256);
  }

  lemma QuotientIs(n: nat, m: nat, q: nat, r: nat)
    requires n == m * q + r && r < m
    ensures n / m == q
  {
    Distributes(m, n / m, q);
    ProductSize(m, n / m - q);
  }

  lemma Distributes(m: nat, a: nat, b: nat)
    ensures m * (a - b) == m * a - m * b
  {
  }

  lemma ProductSize(m: nat, d: int)
    ensures d >= 1 ==> m * d >= m
    ensures d <= -1 ==> m * d + m <= 0
  {
  }

  /** The bytes of a count, the lowest first. */
  lemma {:induction false} ByteOfCount(n: nat, k: nat, i: nat)
    requires i < k
    ensures LittleEndian(n, k)[i] as int == n / Radix(i) % 256
  {
    if i > 0 {
      ByteOfCount(n / 256, k - 1, i - 1);
      DivideTwice(n, Radix(i - 1));
    }
  }

  lemma RadixOfHeader()
    ensures Radix(HEADER_SIZE) == 2 * COUNT_LIMIT
  {
    assert Radix(2) == 0x1_0000;
    assert Radix(4) == 0x1_0000_0000;
    assert Radix(6) == 0x1_0000_0000_0000;
  }

  predicate Countable(p: Payload) { |p| < COUNT_LIMIT }

  function Frame(p: Payload): seq<byte> {
    LittleEndian(|p|, HEADER_SIZE) + p
  }

  /** Eight bytes of count, the lowest first, and then the payload. */
  lemma FrameLayout(p: Payload)
    ensures |Frame(p)| == 8 + |p| && Frame(p)[8..] == p
    ensures forall i :: 0 <= i < 8 ==> Frame(p)[i] as int == |p| / Radix(i) % 256
  {
    forall i | 0 <= i < 8 ensures Frame(p)[i] as int == |p| / Radix(i) % 256 {
      ByteOfCount(|p|, 8, i);
    }
  }

  function Frames(ps: seq<Payload>): seq<byte> {
    if ps == [] then [] else Frame(ps[0]) + Frames(ps[1..])
  }

  lemma {:induction false} FramesAppend(a: seq<Payload>, b: seq<Payload>)
    ensures Frames(a + b) == Frames(a) + Frames(b)
  {
    if a == [] {
      assert a + b == b;
    } else {
      var first := Frame(a[0]);
      assert Frames(a + b) == first + Frames(a[1..] + b) by {
        assert (a + b)[0] == a[0] && (a + b)[1..] == a[1..] + b;
      }
      FramesAppend(a[1..], b);
      assert first + (Frames(a[1..]) + Frames(b)) == (first + Frames(a[1..])) + Frames(b);
    }
  }

  /** What the parsing loop of `recv` ends in: messages, or a process that stopped. */
  datatype Parsed = Messages(ps: seq<Payload>) | Malformed {
    /** The same end, after the messages `first`. */
    function After(first: seq<Payload>): Parsed {
      if Malformed? then Malformed else Messages(first + ps)
    }
  }

  function Parse(bs: seq<byte>): Parsed
    decreases |bs|
  {
    if bs == [] then Messages([])
    else if |bs| < HEADER_SIZE then Malformed
    else
      var count := FromLittleEndian(bs[..HEADER_SIZE]);
      if count >= COUNT_LIMIT || HEADER_SIZE + count > |bs| then Malformed
      else
        Parse(bs[HEADER_SIZE + count..]).After([bs[HEADER_SIZE..HEADER_SIZE + count]])
  }

  lemma ParseOneFrame(p: Payload, rest: seq<byte>)
    requires Countable(p)
    ensures Parse(Frame(p) + rest) == Parse(rest).After([p])
  {
    var bs := Frame(p) + rest;
    RadixOfHeader();
    DecodeEncodeCount(|p|, HEADER_SIZE);
    assert bs[..HEADER_SIZE] == LittleEndian(|p|, HEADER_SIZE);
    assert bs[HEADER_SIZE..HEADER_SIZE + |p|] == p;
    assert bs[HEADER_SIZE + |p|..] == rest;
  }

  ghost predicate ParsesTo(bs: seq<byte>, end: Parsed) { Parse(bs) == end }

  lemma ParsesOneMore(p: Payload, rest: seq<byte>, end: Parsed)
    requires Countable(p) && ParsesTo(rest, end)
    ensures ParsesTo(Frame(p) + rest, end.After([p]))
  {
    ParseOneFrame(p, rest);
  }

  /** Reading after writing: parsing the frames of any payloads gives them back and runs on into what follows. */
  lemma {:induction false} ParseFrames(ps: seq<Payload>, rest: seq<byte>)
    requires forall p :: p in ps ==> Countable(p)
    ensures ParsesTo(Frames(ps) + rest, Parse(rest).After(ps))
  {
    if ps == [] {
      assert Frames(ps) + rest == rest;
    } else {
      var tail := Frames(ps[1..]) + rest;
      assert ParsesTo(tail, Parse(rest).After(ps[1..])) by { ParseFrames(ps[1..], rest); }
      assert Frames(ps) + rest == Frame(ps[0]) + tail;
      ParsesOneMore(ps[0], tail, Parse(rest).After(ps[1..]));
      AfterAfter(ps, Parse(rest));
    }
  }

  lemma AfterAfter(ps: seq<Payload>, end: Parsed)
    requires ps != []
    ensures end.After(ps[1..]).After([ps[0]]) == end.After(ps)
  {
    if end.Messages? {
      assert [ps[0]] + (ps[1..] + end.ps) == ps + end.ps;
    }
  }

  /** Writing after reading: bytes that parse are exactly the frames of what they parse to. */
  lemma {:induction false} FramesOfParsed(bs: seq<byte>)
    requires Parse(bs).Messages?
    ensures Frames(Parse(bs).ps) == bs
    ensures forall p :: p in Parse(bs).ps ==> Countable(p)
    decreases |bs|
  {
    if bs != [] {
      var count := FromLittleEndian(bs[..HEADER_SIZE]);
      FramesOfParsed(bs[HEADER_SIZE + count..]);
      EncodeDecodeCount(bs[..HEADER_SIZE]);
      var ps := Parse(bs).ps;
      assert ps[1..] == Parse(bs[HEADER_SIZE + count..]).ps;
      assert bs == bs[..HEADER_SIZE] + bs[HEADER_SIZE..HEADER_SIZE + count] + bs[HEADER_SIZE + count..];
    }
  }

  /** The parser accepts exactly the writer's language, and is its inverse there. */
  lemma ParseInvertsFrames(bs: seq<byte>, ps: seq<Payload>)
    ensures
      Parse(bs) == Messages(ps) <==>
      bs == Frames(ps) && forall p :: p in ps ==> Countable(p)
  {
    if Parse(bs) == Messages(ps) {
      FramesOfParsed(bs);
    }
    if bs == Frames(ps) && forall p :: p in ps ==> Countable(p) {
      ParseFrames(ps, []);
      assert Frames(ps) + [] == bs;
      assert ps + [] == ps;
    }
  }

  /** The payloads that leave a trace in the pipe: `send` returns early for an empty one. */
  function Delivered(ps: seq<Payload>): (r: seq<Payload>)
    ensures forall p :: p in r ==> p in ps && p != []
  {
    if ps == [] then [] else (if ps[0] == [] then [] else [ps[0]]) + Delivered(ps[1..])
  }

  lemma FramesSoFar(ps: seq<Payload>, i: nat, n: nat)
    requires i + n <= |ps|
    ensures ps[i..][n..] == ps[i + n..]
    ensures Frames(ps[..i + n]) == Frames(ps[..i]) + Frames(ps[i..][..n])
  {
    FramesAppend(ps[..i], ps[i..][..n]);
    assert ps[..i] + ps[i..][..n] == ps[..i + n];
  }

  lemma ChunkOf(contents: seq<byte>, came: seq<byte>, offset: nat, k: nat)
    requires offset + k <= |contents + came| && offset <= |contents|
    ensures (contents + came)[offset..] == contents[offset..] + came
    ensures (contents + came)[offset..offset + k] + (contents + came)[offset + k..] == (contents + came)[offset..]
  {
  }

  lemma Regroup(output: seq<byte>, before: seq<byte>, came: seq<byte>, chunk: seq<byte>, after: seq<byte>,
                start: seq<byte>, arrived: seq<byte>)
    requires output + before == start + arrived && chunk + after == before + came
    ensures output + chunk + after == start + (arrived + came)
  {
    assert output + chunk + after == output + (before + came);
    assert start + (arrived + came) == output + before + came;
  }

  /**
   * One pipe file of one generation, with the reader's offset, and the frames that writers in the other
   * process have still to append.  A `write` is atomic: a frame arrives whole.
   */
  class PipeFile {
    var contents: seq<byte>
    var offset: nat
    var arriving: seq<Payload>

    predicate Valid()
      reads this
    {
      offset <= |contents| && forall p :: p in arriving ==> Countable(p)
    }

    function Unread(): seq<byte>
      requires Valid()
      reads this
    {
      contents[offset..]
    }

    /** Every payload that is in the file or on its way, in order, when the unread part holds `pending`. */
    predicate Holds(pending: seq<Payload>)
      reads this
    {
      && Valid()
      && Unread() == Frames(pending)
      && forall p :: p in pending ==> Countable(p)
    }

    constructor ()
      ensures Holds([]) && arriving == []
    {
      contents, offset, arriving := [], 0, [];
    }

    method Send(data: Payload)
      requires Valid() && Countable(data)
      modifies this`contents
      ensures Valid()
      ensures contents == old(contents) + Frames(Delivered([data]))
      ensures Unread() == old(Unread()) + Frames(Delivered([data]))
    {
      assert Delivered([data]) == if data == [] then [] else [data];
      if |data| == 0 {
        return;
      }
      var header := LittleEndian(|data|, HEADER_SIZE);
      var buffer := new byte[HEADER_SIZE + |data|];
      forall i | 0 <= i < HEADER_SIZE { buffer[i] := header[i]; }
      forall i | 0 <= i < |data| { buffer[HEADER_SIZE + i] := data[i]; }
      assert buffer[..] == Frame(data);
      assert Frames([data]) == Frame(data);
      contents := contents + buffer[..];
    }

    /**
     * `read(2)`: frames that arrive before the call join the file; then at least one byte is copied,
     * unless the reader is at the end, and never more than the scratch buffer holds.
     */
    method Read(scratch: array<byte>, arrivals: nat, wanted: nat) returns (bytesRead: nat)
      requires Valid() && scratch.Length == SCRATCH_SIZE && arrivals <= |arriving| && wanted > 0
      modifies this, scratch
      ensures Valid()
      ensures arriving == old(arriving[arrivals..])
      ensures contents == old(contents) + Frames(old(arriving[..arrivals]))
      ensures offset == old(offset) + bytesRead
      ensures bytesRead <= scratch.Length
      ensures scratch[..bytesRead] + Unread() == old(Unread()) + Frames(old(arriving[..arrivals]))
      ensures bytesRead == 0 <==> old(offset) == |contents|
    {
      ghost var came := Frames(arriving[..arrivals]);
      contents := contents + Frames(arriving[..arrivals]);
      arriving := arriving[arrivals..];
      var available := |contents| - offset;
      var limit := if wanted < SCRATCH_SIZE then wanted else SCRATCH_SIZE;
      bytesRead := if available < limit then available else limit;
      ChunkOf(old(contents), came, offset, bytesRead);
      var chunk := contents[offset..offset + bytesRead];
      forall i | 0 <= i < bytesRead { scratch[i] := chunk[i]; }
      assert scratch[..bytesRead] == chunk;
      offset := offset + bytesRead;
    }

    /** Drains the file through the scratch buffer; a schedule says what arrives before each `read`. */
    method RecvRaw(schedule: nat -> (nat, nat)) returns (output: seq<byte>, ghost arrived: nat)
      requires Valid()
      modifies this
      ensures Valid()
      ensures arrived <= |old(arriving)| && arriving == old(arriving)[arrived..]
      ensures output == old(Unread()) + Frames(old(arriving)[..arrived])
      ensures Unread() == []
    {
      var scratch := new byte[SCRATCH_SIZE];
      output := [];
      arrived := 0;
      var calls := 0;
      while true
        invariant Valid() && fresh(scratch)
        invariant arrived <= |old(arriving)| && arriving == old(arriving)[arrived..]
        invariant output + Unread() == old(Unread()) + Frames(old(arriving)[..arrived])
        decreases |arriving|, |contents| - offset
      {
        var (came, wanted) := schedule(calls);
        var arrivals := if came > |arriving| then |arriving| else came;
        ghost var before, waiting := Unread(), arriving;
        var bytesRead := Read(scratch, arrivals, wanted + 1);
        FramesSoFar(old(arriving), arrived, arrivals);
        Regroup(output, before, Frames(waiting[..arrivals]), scratch[..bytesRead], Unread(),
                old(Unread()), Frames(old(arriving)[..arrived]));
        arrived := arrived + arrivals;
        output := output + scratch[..bytesRead];
        if bytesRead == 0 {
          break;
        }
        calls := calls + 1;
      }
    }

    /** The parsing loop over a private copy of the bytes. */
    static method Separate(raw: seq<byte>) returns (result: Parsed)
      ensures result == Parse(raw)
    {
      var output: seq<Payload> := [];
      var streamProgress, streamEnd := 0, |raw|;
      while streamProgress < streamEnd
        invariant 0 <= streamProgress <= streamEnd
        invariant Parse(raw) == Parse(raw[streamProgress..]).After(output)
      {
        ghost var rest := raw[streamProgress..];
        if streamEnd - streamProgress < HEADER_SIZE {
          return Malformed;
        }
        assert raw[streamProgress..streamProgress + HEADER_SIZE] == rest[..HEADER_SIZE];
        var count := FromLittleEndian(raw[streamProgress..streamProgress + HEADER_SIZE]);
        streamProgress := streamProgress + HEADER_SIZE;
        if count >= COUNT_LIMIT || streamProgress + count > streamEnd {
          return Malformed;
        }
        var newData := raw[streamProgress..streamProgress + count];
        assert newData == rest[HEADER_SIZE..HEADER_SIZE + count];
        assert raw[streamProgress + count..] == rest[HEADER_SIZE + count..];
        ghost var tail := Parse(rest[HEADER_SIZE + count..]);
        assert tail.Messages? ==> output + ([newData] + tail.ps) == output + [newData] + tail.ps;
        output := output + [newData];
        streamProgress := streamProgress + count;
      }
      assert output + [] == output;
      return Messages(output);
    }

    /**
     * `recv`: on a file that only `Send` wrote, no call is malformed, and every call returns what is
     * pending together with whole frames that arrived meanwhile, leaving nothing half-read.
     */
    method Recv(schedule: nat -> (nat, nat), ghost pending: seq<Payload>)
      returns (result: Parsed, ghost arrived: nat)
      requires Holds(pending)
      modifies this
      ensures Holds([])
      ensures arrived <= |old(arriving)| && arriving == old(arriving)[arrived..]
      ensures result == Messages(pending + old(arriving)[..arrived])
    {
      var raw;
      raw, arrived := RecvRaw(schedule);
      ghost var now := old(arriving)[..arrived];
      FramesAppend(pending, now);
      ParseInvertsFrames(raw, pending + now);
      if |raw| == 0 {
        return Messages([]), arrived;
      }
      result := Separate(raw);
    }
  }

  /** What happens to one pipe file, byte by byte: a `send`, or a `recv` that drains everything unread. */
  datatype Event = Send(data: Payload) | Receive

  /** The unread bytes, what the receives have returned so far, and whether one of them was malformed. */
  datatype Channel = Channel(unread: seq<byte>, received: seq<Payload>, broken: bool)

  function After(events: seq<Event>): Channel {
    if events == [] then Channel([], [], false)
    else
      var c := After(events[..|events| - 1]);
      match events[|events| - 1]
      case Send(data) => c.(unread := c.unread + Frames(Delivered([data])))
      case Receive =>
        match Parse(c.unread)
        case Malformed => c.(broken := true)
        case Messages(ps) => c.(unread := [], received := c.received + ps)
  }

  function SentBy(events: seq<Event>): seq<Payload> {
    if events == [] then []
    else
      var last := events[|events| - 1];
      SentBy(events[..|events| - 1]) + if last.Send? then [last.data] else []
  }

  lemma {:induction false} DeliveredAppend(a: seq<Payload>, b: seq<Payload>)
    ensures Delivered(a + b) == Delivered(a) + Delivered(b)
  {
    if a == [] {
      assert a + b == b;
    } else {
      var kept := if a[0] == [] then [] else [a[0]];
      calc {
        Delivered(a + b);
        { assert (a + b)[0] == a[0] && (a + b)[1..] == a[1..] + b; }
        kept + Delivered(a[1..] + b);
        { DeliveredAppend(a[1..], b); }
        kept + (Delivered(a[1..]) + Delivered(b));
        (kept + Delivered(a[1..])) + Delivered(b);
        Delivered(a) + Delivered(b);
      }
    }
  }

  /**
   * However sends and receives interleave, no receive is malformed and nothing is lost, split,
   * duplicated or reordered: what was received, followed by the messages still unread, is the list of
   * non-empty payloads sent.
   */
  lemma {:induction false} FirstInFirstOut(events: seq<Event>) returns (pending: seq<Payload>)
    requires forall e :: e in events && e.Send? ==> Countable(e.data)
    ensures !After(events).broken
    ensures Parse(After(events).unread) == Messages(pending)
    ensures After(events).received + pending == Delivered(SentBy(events))
  {
    if events == [] {
      return [];
    }
    var n := |events| - 1;
    assert events[n] in events;
    pending := FirstInFirstOut(events[..n]);
    var c := After(events[..n]);
    match events[n]
    case Send(data) =>
      var sent := Delivered([data]);
      ParseInvertsFrames(c.unread, pending);
      FramesAppend(pending, sent);
      ParseInvertsFrames(c.unread + Frames(sent), pending + sent);
      DeliveredAppend(SentBy(events[..n]), [data]);
      assert c.received + (pending + sent) == (c.received + pending) + sent;
      pending := pending + sent;
    case Receive =>
      assert SentBy(events) == SentBy(events[..n]);
      assert c.received + pending + [] == c.received + pending;
      pending := [];
  }
}
