/** The client side of a connection: it connects to the server, announces its
    UDP end point, sends framed packets and hands every packet it receives to
    the manager's client dispatcher. */
module LocalClients {
  import opened Wire
  import opened TcpStreams

  /** What the receive loop did: the packets handed to `ClientPacketReceived`,
      why it stopped, and what is left unread. */
  datatype Delivered = Delivered(forwarded: seq<Packet>, exit: LoopExit, rest: seq<Chunk>)

  function Then(ps: seq<Packet>, d: Delivered): Delivered {
    d.(forwarded := ps + d.forwarded)
  }

  lemma ThenTwice(a: seq<Packet>, b: seq<Packet>, d: Delivered)
    ensures Then(a, Then(b, d)) == Then(a + b, d)
  {
    assert a + (b + d.forwarded) == (a + b) + d.forwarded;
  }

  /** What `ReceiveTcp` does with the traffic `incoming`: every packet read whole
      is handed over, connect packets included; a body that is not a `Packet` is
      handed over as null and fails in the dispatcher, ending the loop. */
  function Deliver(incoming: seq<Chunk>, deserialize: Deserializer): (r: Delivered)
    ensures r.exit != Stopped
    decreases Size(incoming)
  {
    var (f, rest) := ReadFrame(incoming, deserialize);
    match f
    case ReadFailed(e) => Delivered([], if e.IOException? then ConnectionError else StreamDisposed, rest)
    case PrefixEnded => Delivered([], EndOfStream, rest)
    case PrefixShort => Deliver(rest, deserialize)
    case TooLarge => Delivered([], Crashed, rest)
    case BodyEnded => Delivered([], EndOfStream, rest)
    case BodyShort => Deliver(rest, deserialize)
    case Complete(d) =>
      if d.IsPacket? then Then([d.packet], Deliver(rest, deserialize))
      else Delivered([], Crashed, rest)
  }

  class LocalClient {
    const ip: string
    const port: int
    const tcpClient: NetworkStream
    var running: bool
    var udpClosed: bool

    constructor (ip: string, port: int, tcp: NetworkStream)
      ensures this.ip == ip && this.port == port && tcpClient == tcp
      ensures !running && !udpClosed
    {
      this.ip := ip;
      this.port := port;
      tcpClient := tcp;
      running := false;
      udpClosed := false;
    }

    /** `parse` is `IPAddress.TryParse`; `reachable` is whether `ConnectAsync`
        succeeds rather than raising SocketException; `localUdpEndPoint` is the
        UDP socket's local end point once connected. On success the client is
        running and its first packet, a connect packet, is on the wire. */
    method Connect(parse: string -> Option<seq<byte>>, reachable: bool, localUdpEndPoint: EndPoint,
                   serialize: Serializer) returns (connected: bool)
      modifies this`running, tcpClient`outgoing
      ensures connected <==> parse(ip).Some? && reachable
      ensures !connected ==> running == old(running) && tcpClient.outgoing == old(tcpClient.outgoing)
      ensures connected ==> running
      ensures connected ==>
                tcpClient.outgoing == if tcpClient.closed then old(tcpClient.outgoing)
                                      else old(tcpClient.outgoing) + Frame(serialize(Packet.Connect(localUdpEndPoint)))
    {
      var address := parse(ip);
      if address.None? {
        return false;
      }
      if !reachable {
        return false;
      }
      running := true;
      SendTCP(Packet.Connect(localUdpEndPoint), serialize);
      return true;
    }

    method Stop()
      modifies this`running, this`udpClosed, tcpClient
      ensures !running && udpClosed
      ensures tcpClient.closed && tcpClient.incoming == [Disposed] && tcpClient.outgoing == old(tcpClient.outgoing)
    {
      running := false;
      tcpClient.Close();
      udpClosed := true;
    }

    /** Writes `GetBytes((uint)buffer.Length)` and then `buffer`. */
    method SendTCP(packet: Packet, serialize: Serializer)
      modifies tcpClient`outgoing
      ensures tcpClient.outgoing
           == if tcpClient.closed then old(tcpClient.outgoing)
              else old(tcpClient.outgoing) + Frame(serialize(packet))
    {
      var buffer := serialize(packet);
      tcpClient.WriteAsync(GetBytes(|buffer|));
      tcpClient.WriteAsync(buffer);
    }

    /** Reads frames while running and hands each packet over. When the loop
        ends while the client still runs, it asks the manager to stop the
        client (`stopRequested`); an uncaught exception skips that. */
    method ReceiveTcp(deserialize: Deserializer) returns (forwarded: seq<Packet>, exit: LoopExit, stopRequested: bool)
      modifies tcpClient`incoming
      ensures !running ==> forwarded == [] && exit == Stopped && !stopRequested
                           && tcpClient.incoming == old(tcpClient.incoming)
      ensures running ==> Delivered(forwarded, exit, tcpClient.incoming) == Deliver(old(tcpClient.incoming), deserialize)
      ensures stopRequested <==> running && exit != Crashed
    {
      forwarded := [];
      exit := Stopped;
      ghost var total := Deliver(tcpClient.incoming, deserialize);
      while running
        invariant running ==> total == Then(forwarded, Deliver(tcpClient.incoming, deserialize))
        invariant !running ==> forwarded == [] && exit == Stopped && tcpClient.incoming == old(tcpClient.incoming)
        decreases Size(tcpClient.incoming)
      {
        var handed, stop := ReceiveOne(deserialize);
        ThenTwice(forwarded, handed, Deliver(tcpClient.incoming, deserialize));
        forwarded := forwarded + handed;
        if stop.Some? {
          exit := stop.value;
          break;
        }
      }
      stopRequested := running && exit != Crashed;
    }

    /** One pass of the receive loop: the size read, the body read and the
        hand-over. `stop` is the reason the loop breaks (or crashes), if it does. */
    method ReceiveOne(deserialize: Deserializer) returns (handed: seq<Packet>, stop: Option<LoopExit>)
      modifies tcpClient`incoming
      ensures stop.Some? ==>
                Deliver(old(tcpClient.incoming), deserialize) == Delivered(handed, stop.value, tcpClient.incoming)
      ensures stop.None? ==>
                Deliver(old(tcpClient.incoming), deserialize) == Then(handed, Deliver(tcpClient.incoming, deserialize))
                && Size(tcpClient.incoming) < Size(old(tcpClient.incoming))
    {
      ghost var before := tcpClient.incoming;
      DeliverStep(before, deserialize);
      handed := [];
      var sized := tcpClient.ReadAsync(4);
      if !sized.Bytes? {
        return [], Some(if sized.IOException? then ConnectionError else StreamDisposed);
      }
      var bytesRead := |sized.data|;
      if bytesRead == 0 {
        return [], Some(EndOfStream);
      } else if bytesRead < 4 {
        return [], None;
      }
      var bufferSize := ToUInt32(sized.data);
      if bufferSize >= ARRAY_LIMIT {
        return [], Some(Crashed);
      }
      var body := tcpClient.ReadAsync(bufferSize);
      if !body.Bytes? {
        return [], Some(if body.IOException? then ConnectionError else StreamDisposed);
      }
      bytesRead := |body.data|;
      if bytesRead == 0 {
        return [], Some(EndOfStream);
      } else if bytesRead < bufferSize {
        return [], None;
      }
      var d := deserialize(body.data);
      if d.IsPacket? {
        handed := [d.packet];
        stop := None;
      } else {
        stop := Some(Crashed);
      }
    }
  }

  /** `Deliver` unfolded once. */
  lemma DeliverStep(incoming: seq<Chunk>, deserialize: Deserializer)
    ensures var (f, rest) := ReadFrame(incoming, deserialize);
            Deliver(incoming, deserialize)
            == match f
               case ReadFailed(e) => Delivered([], if e.IOException? then ConnectionError else StreamDisposed, rest)
               case PrefixEnded => Delivered([], EndOfStream, rest)
               case PrefixShort => Deliver(rest, deserialize)
               case TooLarge => Delivered([], Crashed, rest)
               case BodyEnded => Delivered([], EndOfStream, rest)
               case BodyShort => Deliver(rest, deserialize)
               case Complete(d) =>
                 if d.IsPacket? then Then([d.packet], Deliver(rest, deserialize))
                 else Delivered([], Crashed, rest)
  {
  }

  // ---------------------------------------------------------------------------
  // Properties of the receive loop

  /** A run of whole frames is handed over in order, all of it. */
  lemma {:induction false} DeliverFrames(serialize: Serializer, deserialize: Deserializer,
                                         ps: seq<Packet>, rest: seq<Chunk>)
    requires Invertible(serialize, deserialize, ps)
    ensures Deliver(Push(Frames(serialize, ps), rest), deserialize) == Then(ps, Deliver(rest, deserialize))
  {
    if ps != [] {
      ReadFrameOfFrames(serialize, deserialize, ps, rest);
      DeliverStep(Push(Frames(serialize, ps), rest), deserialize);
      assert Invertible(serialize, deserialize, ps[1..]) by {
        forall p | p in ps[1..] ensures p in ps { }
      }
      DeliverFrames(serialize, deserialize, ps[1..], rest);
      ThenTwice([ps[0]], ps[1..], Deliver(rest, deserialize));
      assert [ps[0]] + ps[1..] == ps;
    } else {
      assert Frames(serialize, ps) == [];
    }
  }

  /** When the server sends whole frames and then closes the connection, the
      client hands over exactly those packets, sees the end of the stream and,
      since it is still running, asks the manager to stop it. */
  lemma ServerClosesAfterFrames(serialize: Serializer, deserialize: Deserializer, ps: seq<Packet>)
    requires Invertible(serialize, deserialize, ps)
    ensures Deliver(Push(Frames(serialize, ps), []), deserialize) == Delivered(ps, EndOfStream, [])
  {
    DeliverFrames(serialize, deserialize, ps, []);
    DeliverStep([], deserialize);
    assert ReadSpec([], 4) == (Bytes([]), []);
    assert ps + [] == ps;
  }

  /** A short size or body read skips to the next pass without handing anything
      over; a zero-byte read ends the loop. */
  lemma StepOutcomes(incoming: seq<Chunk>, deserialize: Deserializer)
    ensures var (f, rest) := ReadFrame(incoming, deserialize);
            (f.PrefixShort? || f.BodyShort?) ==> Deliver(incoming, deserialize) == Deliver(rest, deserialize)
    ensures var (f, rest) := ReadFrame(incoming, deserialize);
            (f.PrefixEnded? || f.BodyEnded?) ==> Deliver(incoming, deserialize) == Delivered([], EndOfStream, rest)
  {
  }
}
