/** The reliable channel as the core sees it through `TcpClient.GetStream()`:
    reads deliver what has arrived (at most the buffer's length), writes append.
    The socket itself is not modelled; what the peer sends is a sequence of chunks. */
module TcpStreams {
  import opened Wire

  /** What the connection delivers next. */
  datatype Chunk =
    | Segment(bytes: seq<byte>)  // bytes that arrived together; an empty one is the peer closing
    | Reset                      // the connection failed: a read raises IOException
    | Disposed                   // the socket was closed locally: a read raises ObjectDisposedException

  function Weight(c: Chunk): nat {
    if c.Segment? then |c.bytes| + 1 else 1
  }

  /** A measure that every read returning data decreases. */
  function Size(s: seq<Chunk>): nat {
    if s == [] then 0 else Weight(s[0]) + Size(s[1..])
  }

  /** `bytes` arriving in one segment ahead of `rest`. */
  function Push(bytes: seq<byte>, rest: seq<Chunk>): seq<Chunk> {
    if bytes == [] then rest else [Segment(bytes)] + rest
  }

  datatype ReadResult = Bytes(data: seq<byte>) | IOException | ObjectDisposedException

  /** `NetworkStream.ReadAsync(buffer)` with `buffer.Length == count`: an empty buffer
      reads 0 bytes at once; otherwise the read returns the head segment, cut to
      `count` bytes (what is left stays at the head), or 0 bytes at the end of the
      stream, or raises the head's exception. */
  function ReadSpec(incoming: seq<Chunk>, count: nat): (r: (ReadResult, seq<Chunk>))
    ensures r.0.Bytes? ==> |r.0.data| <= count
    ensures r.0.Bytes? && incoming != [] && incoming[0].Segment? && count > 0 ==>
              r.0.data == incoming[0].bytes[..if |incoming[0].bytes| <= count then |incoming[0].bytes| else count]
    ensures !r.0.Bytes? ==> r.1 == incoming && incoming != [] && !incoming[0].Segment?
    ensures Size(r.1) <= Size(incoming)
    ensures r.0.Bytes? && |r.0.data| > 0 ==> Size(r.1) < Size(incoming)
  {
    if count == 0 || incoming == [] then (Bytes([]), incoming)
    else
      match incoming[0]
      case Segment(b) =>
        if |b| <= count then (Bytes(b), incoming[1..])
        else
          var rest := [Segment(b[count..])] + incoming[1..];
          assert rest[1..] == incoming[1..];
          (Bytes(b[..count]), rest)
      case Reset => (IOException, incoming)
      case Disposed => (ObjectDisposedException, incoming)
  }

  /** The stream of one connection. */
  class NetworkStream {
    var incoming: seq<Chunk>
    var outgoing: seq<byte>
    var closed: bool

    constructor (incoming: seq<Chunk>)
      ensures this.incoming == incoming && outgoing == [] && !closed
    {
      this.incoming := incoming;
      outgoing := [];
      closed := false;
    }

    method ReadAsync(count: nat) returns (r: ReadResult)
      modifies this`incoming
      ensures (r, incoming) == ReadSpec(old(incoming), count)
    {
      var res := ReadSpec(incoming, count);
      r, incoming := res.0, res.1;
    }

    /** A write to a closed stream fails and sends nothing. */
    method WriteAsync(bytes: seq<byte>)
      modifies this`outgoing
      ensures outgoing == if closed then old(outgoing) else old(outgoing) + bytes
    {
      if !closed {
        outgoing := outgoing + bytes;
      }
    }

    /** `TcpClient.Close()`: every later read raises ObjectDisposedException. */
    method Close()
      modifies this
      ensures closed && incoming == [Disposed] && outgoing == old(outgoing)
    {
      closed := true;
      incoming := [Disposed];
    }
  }

  // ---------------------------------------------------------------------------
  // Reading one length-prefixed frame

  /** How reading "4-byte size, then that many bytes" ends. */
  datatype FrameRead =
    | ReadFailed(error: ReadResult)  // a read raised IOException or ObjectDisposedException
    | PrefixEnded                    // the size read returned 0 bytes
    | PrefixShort                    // the size read returned 1 to 3 bytes
    | TooLarge                       // `new byte[bufferSize]` cannot be allocated
    | BodyEnded                      // the body read returned 0 bytes
    | BodyShort                      // the body read returned fewer bytes than the size
    | Complete(result: Deserialized) // the whole body, handed to the formatter

  /** The two reads every receive path of the core performs, and their outcome. */
  function ReadFrame(incoming: seq<Chunk>, deserialize: Deserializer): (r: (FrameRead, seq<Chunk>))
    ensures r.0.PrefixShort? || r.0.BodyShort? || r.0.Complete? ==> Size(r.1) < Size(incoming)
    ensures r.0.ReadFailed? ==> !r.0.error.Bytes?
  {
    var (sized, afterSize) := ReadSpec(incoming, 4);
    match sized
    case Bytes(sizeBuffer) =>
      if |sizeBuffer| == 0 then (PrefixEnded, afterSize)
      else if |sizeBuffer| < 4 then (PrefixShort, afterSize)
      else
        var bufferSize := ToUInt32(sizeBuffer);
        if bufferSize >= ARRAY_LIMIT then (TooLarge, afterSize)
        else
          var (body, afterBody) := ReadSpec(afterSize, bufferSize);
          if !body.Bytes? then (ReadFailed(body), afterBody)
          else if |body.data| == 0 then (BodyEnded, afterBody)
          else if |body.data| < bufferSize then (BodyShort, afterBody)
          else (Complete(deserialize(body.data)), afterBody)
    case _ => (ReadFailed(sized), afterSize)
  }

  /** A frame that arrives whole is read whole: the formatter gets exactly the
      payload, and whatever followed it stays in the stream. */
  lemma ReadFrameOfFrame(payload: ByteArray, more: seq<byte>, rest: seq<Chunk>, deserialize: Deserializer)
    requires |payload| > 0
    ensures ReadFrame(Push(Frame(payload) + more, rest), deserialize)
         == (Complete(deserialize(payload)), Push(more, rest))
  {
    var bytes := Frame(payload) + more;
    var incoming := Push(bytes, rest);
    assert incoming == [Segment(bytes)] + rest;
    assert bytes[..4] == GetBytes(|payload|);
    var afterSize := [Segment(bytes[4..])] + rest;
    assert ReadSpec(incoming, 4) == (Bytes(GetBytes(|payload|)), afterSize);
    ToUInt32OfGetBytes(|payload|);
    assert bytes[4..] == payload + more;
    if more == [] {
      assert ReadSpec(afterSize, |payload|) == (Bytes(payload), rest);
    } else {
      assert (payload + more)[..|payload|] == payload;
      assert (payload + more)[|payload|..] == more;
      assert ReadSpec(afterSize, |payload|) == (Bytes(payload), [Segment(more)] + rest);
    }
  }

  /** Frames are not re-synchronised: when a frame arrives split, the size read
      still succeeds but the body read returns only the first part. */
  lemma SplitFrameIsShort(payload: ByteArray, k: nat, rest: seq<Chunk>, deserialize: Deserializer)
    requires 0 < k < |payload|
    ensures ReadFrame([Segment(Frame(payload)[..4 + k]), Segment(payload[k..])] + rest, deserialize)
         == (BodyShort, [Segment(payload[k..])] + rest)
  {
    var first := Frame(payload)[..4 + k];
    var incoming := [Segment(first), Segment(payload[k..])] + rest;
    assert first[..4] == GetBytes(|payload|);
    var afterSize := [Segment(first[4..])] + incoming[1..];
    assert ReadSpec(incoming, 4) == (Bytes(GetBytes(|payload|)), afterSize);
    ToUInt32OfGetBytes(|payload|);
    assert |first[4..]| == k;
    assert afterSize[1..] == [Segment(payload[k..])] + rest;
  }

  /** The first of a run of frames that arrived together is read whole. */
  lemma ReadFrameOfFrames(serialize: Serializer, deserialize: Deserializer, ps: seq<Packet>, rest: seq<Chunk>)
    requires ps != [] && Invertible(serialize, deserialize, ps)
    ensures ReadFrame(Push(Frames(serialize, ps), rest), deserialize)
         == (Complete(IsPacket(ps[0])), Push(Frames(serialize, ps[1..]), rest))
  {
    assert ps[0] in ps;
    ReadFrameOfFrame(serialize(ps[0]), Frames(serialize, ps[1..]), rest, deserialize);
  }

  // ---------------------------------------------------------------------------
  // What a receive loop does with well-formed traffic

  /** Why a receive loop stopped. `Stopped`: its `_running` condition was false;
      `Crashed`: an exception the loop does not catch ended the `async void` method. */
  datatype LoopExit = Stopped | EndOfStream | ConnectionError | StreamDisposed | Crashed

  /** What a server-side receive loop did: the packets it handed to the manager,
      the UDP end point it stored, why it stopped, and what is left unread. */
  datatype Received = Received(forwarded: seq<Packet>, udpEndPoint: Option<IPEndPoint>,
                               exit: LoopExit, rest: seq<Chunk>)

  function Prepend(ps: seq<Packet>, r: Received): Received {
    r.(forwarded := ps + r.forwarded)
  }

  lemma PrependTwice(a: seq<Packet>, b: seq<Packet>, r: Received)
    ensures Prepend(a, Prepend(b, r)) == Prepend(a + b, r)
  {
    assert a + (b + r.forwarded) == (a + b) + r.forwarded;
  }

  /** The packets of `ps` a server-side connection hands to the manager: all but
      the connect packets, in order. */
  function Forwarded(ps: seq<Packet>): (r: seq<Packet>)
    ensures |r| <= |ps|
    ensures forall p | p in r :: p in ps && !p.Connect?
    ensures (forall p | p in ps :: !p.Connect?) ==> r == ps
  {
    if ps == [] then []
    else if ps[0].Connect? then Forwarded(ps[1..])
    else [ps[0]] + Forwarded(ps[1..])
  }

  /** Forwarding keeps the order of arrival: the packets of a run followed by
      another are those of the first run, then those of the second. */
  lemma {:induction false} ForwardedAppend(a: seq<Packet>, b: seq<Packet>)
    ensures Forwarded(a + b) == Forwarded(a) + Forwarded(b)
    decreases |a|
  {
    if a != [] {
      assert (a + b)[0] == a[0] && (a + b)[1..] == a[1..] + b;
      ForwardedAppend(a[1..], b);
      if !a[0].Connect? {
        assert [a[0]] + (Forwarded(a[1..]) + Forwarded(b)) == ([a[0]] + Forwarded(a[1..])) + Forwarded(b);
      }
    } else {
      assert a + b == b;
    }
  }

  /** The UDP end point stored after the connect packets of `ps`. */
  function EndPointAfter(stored: Option<IPEndPoint>, ps: seq<Packet>): (r: Option<IPEndPoint>)
    ensures r == stored || (r.Some? && exists i | 0 <= i < |ps| :: ps[i] == Connect(IP(r.value)))
    decreases |ps|
  {
    if ps == [] then stored
    else if ps[0].Connect? then EndPointAfter(AcceptEndPoint(stored, ps[0].udpEndPoint), ps[1..])
    else EndPointAfter(stored, ps[1..])
  }
}
