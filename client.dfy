/** The connection object the manager keeps for each accepted client. It reads
    frames itself, skips a frame whose reads come up short, stores the UDP end
    point the client announces and hands every other packet to the manager. */
module Clients {
  import opened Wire
  import opened TcpStreams

  /** What `ReceiveTcp` does with the traffic `incoming`. Forwarding needs the
      manager (`managerAssigned`) and a non-null packet: a body that is not a
      `Packet` is forwarded as null and fails inside the manager. Exceptions other
      than IOException and ObjectDisposedException end the loop (`Crashed`). */
  function Receive(incoming: seq<Chunk>, udpEndPoint: Option<IPEndPoint>, managerAssigned: bool,
                   deserialize: Deserializer): (r: Received)
    ensures forall p | p in r.forwarded :: !p.Connect?
    ensures !managerAssigned ==> r.forwarded == []
    ensures r.exit != Stopped
    decreases Size(incoming)
  {
    var (f, rest) := ReadFrame(incoming, deserialize);
    match f
    case ReadFailed(e) => Received([], udpEndPoint, if e.IOException? then ConnectionError else StreamDisposed, rest)
    case PrefixEnded => Received([], udpEndPoint, EndOfStream, rest)
    case PrefixShort => Receive(rest, udpEndPoint, managerAssigned, deserialize)
    case TooLarge => Received([], udpEndPoint, Crashed, rest)
    case BodyEnded => Received([], udpEndPoint, EndOfStream, rest)
    case BodyShort => Receive(rest, udpEndPoint, managerAssigned, deserialize)
    case Complete(d) =>
      if d.IsPacket? && d.packet.Connect? then
        Receive(rest, AcceptEndPoint(udpEndPoint, d.packet.udpEndPoint), managerAssigned, deserialize)
      else if d.IsPacket? && managerAssigned then
        Prepend([d.packet], Receive(rest, udpEndPoint, managerAssigned, deserialize))
      else Received([], udpEndPoint, Crashed, rest)
  }

  class Client {
    /** 0 is the server, so clients are numbered from 1. */
    const id: u32
    const tcpClient: NetworkStream
    /** Whether `_networkManager` was assigned. */
    const managerAssigned: bool
    var udpEndPoint: Option<IPEndPoint>
    var running: bool

    /** The constructor as written: it never stores the manager it is given. */
    constructor (id: u32, tcp: NetworkStream)
      ensures this.id == id && tcpClient == tcp
      ensures udpEndPoint == None && running && !managerAssigned
    {
      this.id := id;
      tcpClient := tcp;
      managerAssigned := false;
      udpEndPoint := None;
      running := true;
    }

    /** The constructor with `_networkManager = networkManager` added. */
    constructor Corrected(id: u32, tcp: NetworkStream)
      ensures this.id == id && tcpClient == tcp
      ensures udpEndPoint == None && running && managerAssigned
    {
      this.id := id;
      tcpClient := tcp;
      managerAssigned := true;
      udpEndPoint := None;
      running := true;
    }

    method Stop()
      modifies tcpClient
      ensures tcpClient.closed && tcpClient.incoming == [Disposed]
      ensures tcpClient.outgoing == old(tcpClient.outgoing)
    {
      tcpClient.Close();
    }

    /** Stores the announced end point if it is an `IPEndPoint`; otherwise the
        packet is rejected and the stored one kept. */
    method PacketConnectReceived(announced: EndPoint)
      modifies this`udpEndPoint
      ensures announced.IP? ==> udpEndPoint == Some(announced.ip)
      ensures !announced.IP? ==> udpEndPoint == old(udpEndPoint)
    {
      if !announced.IP? {
        return;
      }
      udpEndPoint := Some(announced.ip);
    }

    /** Sends already-framed bytes unchanged. */
    method SendTCP(packets: seq<byte>)
      modifies tcpClient`outgoing
      ensures tcpClient.outgoing
           == if tcpClient.closed then old(tcpClient.outgoing) else old(tcpClient.outgoing) + packets
    {
      tcpClient.WriteAsync(packets);
    }

    /** Reads frames until a read returns 0 bytes or fails. Returns the packets
        handed to the manager, in order. */
    method ReceiveTcp(deserialize: Deserializer) returns (forwarded: seq<Packet>, exit: LoopExit)
      modifies this`udpEndPoint, tcpClient`incoming
      ensures !old(running) ==>
                forwarded == [] && exit == Stopped && udpEndPoint == old(udpEndPoint)
                && tcpClient.incoming == old(tcpClient.incoming)
      ensures old(running) ==>
                Received(forwarded, udpEndPoint, exit, tcpClient.incoming)
                == Receive(old(tcpClient.incoming), old(udpEndPoint), managerAssigned, deserialize)
    {
      forwarded := [];
      exit := Stopped;
      ghost var total := Receive(tcpClient.incoming, udpEndPoint, managerAssigned, deserialize);
      while running
        invariant running ==>
                    total == Prepend(forwarded, Receive(tcpClient.incoming, udpEndPoint, managerAssigned, deserialize))
        invariant !running ==>
                    forwarded == [] && exit == Stopped && udpEndPoint == old(udpEndPoint)
                    && tcpClient.incoming == old(tcpClient.incoming)
        decreases Size(tcpClient.incoming)
      {
        var handed, stop := ReceiveOne(deserialize);
        PrependTwice(forwarded, handed, Receive(tcpClient.incoming, udpEndPoint, managerAssigned, deserialize));
        forwarded := forwarded + handed;
        if stop.Some? {
          exit := stop.value;
          break;
        }
      }
    }

    /** One pass of the receive loop: the size read, the body read, then the
        connect handling or the hand-over. `stop` is the reason the loop breaks
        (or crashes), if it does; `None` is the loop going on, also after a
        short read. */
    method ReceiveOne(deserialize: Deserializer) returns (handed: seq<Packet>, stop: Option<LoopExit>)
      modifies this`udpEndPoint, tcpClient`incoming
      ensures stop.Some? ==>
                Receive(old(tcpClient.incoming), old(udpEndPoint), managerAssigned, deserialize)
                == Received(handed, udpEndPoint, stop.value, tcpClient.incoming)
      ensures stop.None? ==>
                Receive(old(tcpClient.incoming), old(udpEndPoint), managerAssigned, deserialize)
                == Prepend(handed, Receive(tcpClient.incoming, udpEndPoint, managerAssigned, deserialize))
                && Size(tcpClient.incoming) < Size(old(tcpClient.incoming))
    {
      ghost var before := tcpClient.incoming;
      ReceiveStep(before, udpEndPoint, managerAssigned, deserialize);
      handed := [];
      var sized := tcpClient.ReadAsync(4);
      if !sized.Bytes? {
        return [], Some(if sized.IOException? then ConnectionError else StreamDisposed);
      }
      var bytesRead := |sized.data|;
      if bytesRead == 0 {
        return [], Some(EndOfStream);
      } else if bytesRead < 4 {
        return [], None;
      }
      var bufferSize := ToUInt32(sized.data);
      if bufferSize >= ARRAY_LIMIT {
        return [], Some(Crashed);
      }
      var body := tcpClient.ReadAsync(bufferSize);
      if !body.Bytes? {
        return [], Some(if body.IOException? then ConnectionError else StreamDisposed);
      }
      bytesRead := |body.data|;
      if bytesRead == 0 {
        return [], Some(EndOfStream);
      } else if bytesRead < bufferSize {
        return [], None;
      }
      var d := deserialize(body.data);
      if d.IsPacket? && d.packet.Connect? {
        PacketConnectReceived(d.packet.udpEndPoint);
        stop := None;
      } else if d.IsPacket? && managerAssigned {
        handed := [d.packet];
        stop := None;
      } else {
        stop := Some(Crashed);
      }
    }
  }

  /** `Receive` unfolded once. */
  lemma ReceiveStep(incoming: seq<Chunk>, udpEndPoint: Option<IPEndPoint>, managerAssigned: bool,
                    deserialize: Deserializer)
    ensures var (f, rest) := ReadFrame(incoming, deserialize);
            Receive(incoming, udpEndPoint, managerAssigned, deserialize)
            == match f
               case ReadFailed(e) =>
                 Received([], udpEndPoint, if e.IOException? then ConnectionError else StreamDisposed, rest)
               case PrefixEnded => Received([], udpEndPoint, EndOfStream, rest)
               case PrefixShort => Receive(rest, udpEndPoint, managerAssigned, deserialize)
               case TooLarge => Received([], udpEndPoint, Crashed, rest)
               case BodyEnded => Received([], udpEndPoint, EndOfStream, rest)
               case BodyShort => Receive(rest, udpEndPoint, managerAssigned, deserialize)
               case Complete(d) =>
                 if d.IsPacket? && d.packet.Connect? then
                   Receive(rest, AcceptEndPoint(udpEndPoint, d.packet.udpEndPoint), managerAssigned, deserialize)
                 else if d.IsPacket? && managerAssigned then
                   Prepend([d.packet], Receive(rest, udpEndPoint, managerAssigned, deserialize))
                 else Received([], udpEndPoint, Crashed, rest)
  {
  }

  // ---------------------------------------------------------------------------
  // Properties of the receive loop

  /** With the manager assigned, a run of whole frames is delivered in order:
      every non-connect packet is forwarded, every valid connect packet
      overwrites the stored end point, and reading continues after the run. */
  lemma {:induction false} ReceiveFrames(serialize: Serializer, deserialize: Deserializer,
                                         ps: seq<Packet>, udpEndPoint: Option<IPEndPoint>, rest: seq<Chunk>)
    requires Invertible(serialize, deserialize, ps)
    ensures Receive(Push(Frames(serialize, ps), rest), udpEndPoint, true, deserialize)
         == Prepend(Forwarded(ps), Receive(rest, EndPointAfter(udpEndPoint, ps), true, deserialize))
  {
    if ps != [] {
      ReadFrameOfFrames(serialize, deserialize, ps, rest);
      ReceiveStep(Push(Frames(serialize, ps), rest), udpEndPoint, true, deserialize);
      assert Invertible(serialize, deserialize, ps[1..]) by {
        forall p | p in ps[1..] ensures p in ps { }
      }
      if ps[0].Connect? {
        ReceiveFrames(serialize, deserialize, ps[1..], AcceptEndPoint(udpEndPoint, ps[0].udpEndPoint), rest);
      } else {
        ReceiveFrames(serialize, deserialize, ps[1..], udpEndPoint, rest);
        PrependTwice([ps[0]], Forwarded(ps[1..]),
                     Receive(rest, EndPointAfter(udpEndPoint, ps[1..]), true, deserialize));
      }
    } else {
      assert Frames(serialize, ps) == [];
    }
  }

  /** The client as constructed: the first packet that is not a connect packet
      ends the loop, and nothing reaches the manager. */
  lemma {:induction false} AsWrittenForwardsNothing(serialize: Serializer, deserialize: Deserializer,
                                                    ps: seq<Packet>, udpEndPoint: Option<IPEndPoint>, rest: seq<Chunk>)
    requires Invertible(serialize, deserialize, ps) && Forwarded(ps) != []
    ensures Receive(Push(Frames(serialize, ps), rest), udpEndPoint, false, deserialize).exit == Crashed
    ensures Receive(Push(Frames(serialize, ps), rest), udpEndPoint, false, deserialize).forwarded == []
  {
    ReadFrameOfFrames(serialize, deserialize, ps, rest);
    ReceiveStep(Push(Frames(serialize, ps), rest), udpEndPoint, false, deserialize);
    if ps[0].Connect? {
      assert Invertible(serialize, deserialize, ps[1..]) by {
        forall p | p in ps[1..] ensures p in ps { }
      }
      AsWrittenForwardsNothing(serialize, deserialize, ps[1..], AcceptEndPoint(udpEndPoint, ps[0].udpEndPoint), rest);
    }
  }

  /** A short size or body read skips to the next pass without handing anything
      over; a zero-byte read ends the loop. */
  lemma StepOutcomes(incoming: seq<Chunk>, udpEndPoint: Option<IPEndPoint>, managerAssigned: bool,
                     deserialize: Deserializer)
    ensures var (f, rest) := ReadFrame(incoming, deserialize);
            (f.PrefixShort? || f.BodyShort?) ==>
              Receive(incoming, udpEndPoint, managerAssigned, deserialize)
              == Receive(rest, udpEndPoint, managerAssigned, deserialize)
    ensures var (f, rest) := ReadFrame(incoming, deserialize);
            (f.PrefixEnded? || f.BodyEnded?) ==>
              Receive(incoming, udpEndPoint, managerAssigned, deserialize)
              == Received([], udpEndPoint, EndOfStream, rest)
  {
  }

  /** A frame split across two arrivals is skipped as a short read, and its
      second half is then read as the next size prefix. */
  lemma SplitFrameIsSkipped(payload: ByteArray, k: nat, rest: seq<Chunk>, udpEndPoint: Option<IPEndPoint>,
                            managerAssigned: bool, deserialize: Deserializer)
    requires 0 < k < |payload|
    ensures Receive([Segment(Frame(payload)[..4 + k]), Segment(payload[k..])] + rest,
                    udpEndPoint, managerAssigned, deserialize)
         == Receive([Segment(payload[k..])] + rest, udpEndPoint, managerAssigned, deserialize)
  {
    SplitFrameIsShort(payload, k, rest, deserialize);
    ReceiveStep([Segment(Frame(payload)[..4 + k]), Segment(payload[k..])] + rest,
                udpEndPoint, managerAssigned, deserialize);
  }
}
