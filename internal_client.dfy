/** The shared reliable-channel half of a connection: reading one
    length-prefixed packet and writing one. */
module InternalClient {
  import opened Wire
  import opened TcpStreams

  /** The exceptions `ReadTCP` lets escape. `Unexpected` is any exception the
      receive loops do not catch: an allocation failure for an oversized frame
      or a formatter error. */
  datatype ReadException = IOError | DisposedError | ClientError | Unexpected

  /** `ReadTCP` either returns (a packet, or null) or throws. */
  datatype ReadTcpResult = Returned(packet: Option<Packet>) | Threw(exception: ReadException)

  /** The result `ReadTCP` produces for each way reading a frame can end: a
      zero-byte read or a body that is not a `Packet` gives null, a short read
      raises `ClientException`. */
  function Outcome(f: FrameRead): (r: ReadTcpResult)
    ensures r == Returned(None) <==> f.PrefixEnded? || f.BodyEnded? || f == Complete(NotAPacket)
    ensures r == Threw(ClientError) <==> f.PrefixShort? || f.BodyShort?
    ensures (r.Returned? && r.packet.Some?) <==> (f.Complete? && f.result.IsPacket?)
    ensures r.Returned? && r.packet.Some? ==> f.result.packet == r.packet.value
    ensures f.ReadFailed? ==> r == Threw(if f.error.IOException? then IOError else DisposedError)
  {
    match f
    case ReadFailed(e) => Threw(if e.IOException? then IOError else DisposedError)
    case PrefixEnded => Returned(None)
    case PrefixShort => Threw(ClientError)
    case TooLarge => Threw(Unexpected)
    case BodyEnded => Returned(None)
    case BodyShort => Threw(ClientError)
    case Complete(d) =>
      match d
      case IsPacket(p) => Returned(Some(p))
      case NotAPacket => Returned(None)
      case Malformed => Threw(Unexpected)
  }

  class Client {
    const tcpClient: NetworkStream

    /** The subclass constructors assign `_tcpClient` right after this one runs. */
    constructor (tcp: NetworkStream)
      ensures tcpClient == tcp
    {
      tcpClient := tcp;
    }

    /** Reads the 4-byte size, then a body of that size, and deserializes it. */
    method ReadTCP(deserialize: Deserializer) returns (r: ReadTcpResult)
      modifies tcpClient`incoming
      ensures (r, tcpClient.incoming) == (Outcome(ReadFrame(old(tcpClient.incoming), deserialize).0),
                                          ReadFrame(old(tcpClient.incoming), deserialize).1)
    {
      var sized := tcpClient.ReadAsync(4);
      if !sized.Bytes? {
        return Threw(if sized.IOException? then IOError else DisposedError);
      }
      var bytesRead := |sized.data|;
      if bytesRead <= 0 {
        return Returned(None);
      } else if bytesRead < 4 {
        return Threw(ClientError);
      }
      var bufferSize := ToUInt32(sized.data);
      if bufferSize >= ARRAY_LIMIT {
        return Threw(Unexpected);
      }
      var body := tcpClient.ReadAsync(bufferSize);
      if !body.Bytes? {
        return Threw(if body.IOException? then IOError else DisposedError);
      }
      bytesRead := |body.data|;
      if bytesRead <= 0 {
        return Returned(None);
      } else if bytesRead < bufferSize {
        return Threw(ClientError);
      }
      match deserialize(body.data)
      case IsPacket(p) => r := Returned(Some(p));
      case NotAPacket => r := Returned(None);
      case Malformed => r := Threw(Unexpected);
    }

    /** Writes `GetBytes((uint)buffer.Length)` and then `buffer`. */
    method WriteTCP(packet: Packet, serialize: Serializer)
      modifies tcpClient`outgoing
      ensures tcpClient.outgoing
           == if tcpClient.closed then old(tcpClient.outgoing)
              else old(tcpClient.outgoing) + Frame(serialize(packet))
    {
      var buffer := serialize(packet);
      tcpClient.WriteAsync(GetBytes(|buffer|));
      tcpClient.WriteAsync(buffer);
    }
  }

  // ---------------------------------------------------------------------------
  // Properties of ReadTCP

  /** Reading back what `WriteTCP` wrote returns the packet written, provided the
      formatter round-trips it and its serialized form is not empty. */
  lemma ReadWhatWasWritten(serialize: Serializer, deserialize: Deserializer, p: Packet, rest: seq<Chunk>)
    requires Invertible(serialize, deserialize, [p])
    ensures Outcome(ReadFrame(Push(Frame(serialize(p)), rest), deserialize).0) == Returned(Some(p))
    ensures ReadFrame(Push(Frame(serialize(p)), rest), deserialize).1 == rest
  {
    assert p in [p];
    assert Frame(serialize(p)) + [] == Frame(serialize(p));
    ReadFrameOfFrame(serialize(p), [], rest, deserialize);
  }

  /** A frame whose length prefix is 0 reads as null, like the end of the stream. */
  lemma ZeroLengthFrameIsNull(more: seq<byte>, rest: seq<Chunk>, deserialize: Deserializer)
    ensures Outcome(ReadFrame(Push(GetBytes(0) + more, rest), deserialize).0) == Returned(None)
  {
    var bytes := GetBytes(0) + more;
    assert bytes[..4] == GetBytes(0);
    ToUInt32OfGetBytes(0);
    var afterSize := Push(bytes[4..], rest);
    if more == [] {
      assert ReadSpec([Segment(bytes)] + rest, 4) == (Bytes(GetBytes(0)), rest);
    } else {
      assert ReadSpec([Segment(bytes)] + rest, 4) == (Bytes(GetBytes(0)), afterSize);
    }
  }

  /** A size read that returns 1 to 3 bytes raises `ClientException`, and those
      bytes are consumed. */
  lemma ShortSizeThrows(partial: seq<byte>, rest: seq<Chunk>, deserialize: Deserializer)
    requires 0 < |partial| < 4
    ensures ReadFrame([Segment(partial)] + rest, deserialize) == (PrefixShort, rest)
    ensures Outcome(ReadFrame([Segment(partial)] + rest, deserialize).0) == Threw(ClientError)
  {
    assert ([Segment(partial)] + rest)[1..] == rest;
  }
}
