/** The server's view of one connected client, built on `InternalClient.Client`:
    it reads packets with `ReadTCP`, keeps the UDP end point the client
    announces, and hands every other packet to the manager. */
module ServerSideClients {
  import opened Wire
  import opened TcpStreams
  import opened InternalClient

  /** What `ReceiveTcp` does with the traffic `incoming`, starting from the stored
      end point `udpEndPoint`. `managerAssigned` says whether the connection holds
      a manager to forward to; without one, forwarding raises a
      NullReferenceException that the loop does not catch. */
  function Receive(incoming: seq<Chunk>, udpEndPoint: Option<IPEndPoint>, managerAssigned: bool,
                   deserialize: Deserializer): (r: Received)
    ensures forall p | p in r.forwarded :: !p.Connect?
    ensures !managerAssigned ==> r.forwarded == []
    ensures r.exit != Stopped
    decreases Size(incoming)
  {
    var (f, rest) := ReadFrame(incoming, deserialize);
    match Outcome(f)
    case Returned(None) => Received([], udpEndPoint, EndOfStream, rest)
    case Returned(Some(p)) =>
      if p.Connect? then Receive(rest, AcceptEndPoint(udpEndPoint, p.udpEndPoint), managerAssigned, deserialize)
      else if managerAssigned then Prepend([p], Receive(rest, udpEndPoint, managerAssigned, deserialize))
      else Received([], udpEndPoint, Crashed, rest)
    case Threw(ClientError) => Receive(rest, udpEndPoint, managerAssigned, deserialize)
    case Threw(IOError) => Received([], udpEndPoint, ConnectionError, rest)
    case Threw(DisposedError) => Received([], udpEndPoint, StreamDisposed, rest)
    case Threw(Unexpected) => Received([], udpEndPoint, Crashed, rest)
  }

  class ServerSideClient {
    /** 0 is the server, so connections are numbered from 1. */
    const id: u32
    const connection: InternalClient.Client
    /** Whether `_networkManager` was assigned. */
    const managerAssigned: bool
    var udpEndPoint: Option<IPEndPoint>
    var running: bool

    /** The constructor as written: it never stores the manager it is given. */
    constructor (id: u32, tcp: NetworkStream)
      ensures this.id == id && connection.tcpClient == tcp
      ensures udpEndPoint == None && running && !managerAssigned
    {
      this.id := id;
      connection := new InternalClient.Client(tcp);
      managerAssigned := false;
      udpEndPoint := None;
      running := true;
    }

    /** The constructor with `_networkManager = networkManager` added. */
    constructor Corrected(id: u32, tcp: NetworkStream)
      ensures this.id == id && connection.tcpClient == tcp
      ensures udpEndPoint == None && running && managerAssigned
    {
      this.id := id;
      connection := new InternalClient.Client(tcp);
      managerAssigned := true;
      udpEndPoint := None;
      running := true;
    }

    method Stop()
      modifies connection.tcpClient
      ensures connection.tcpClient.closed && connection.tcpClient.incoming == [Disposed]
      ensures connection.tcpClient.outgoing == old(connection.tcpClient.outgoing)
    {
      connection.tcpClient.Close();
    }

    /** Stores the announced end point if it is an `IPEndPoint`; otherwise the
        packet is rejected and the stored one kept. */
    method PacketConnectReceived(announced: EndPoint)
      modifies this`udpEndPoint
      ensures announced.IP? ==> udpEndPoint == Some(announced.ip)
      ensures !announced.IP? ==> udpEndPoint == old(udpEndPoint)
    {
      if !announced.IP? {
        return;
      }
      udpEndPoint := Some(announced.ip);
    }

    /** Sends already-framed bytes unchanged. */
    method SendTCP(packets: seq<byte>)
      modifies connection.tcpClient`outgoing
      ensures connection.tcpClient.outgoing
           == if connection.tcpClient.closed then old(connection.tcpClient.outgoing)
              else old(connection.tcpClient.outgoing) + packets
    {
      connection.tcpClient.WriteAsync(packets);
    }

    /** Reads packets until the stream ends, fails or a packet reads as null;
        a short read is logged and reading goes on. Returns the packets handed
        to the manager, in order. */
    method ReceiveTcp(deserialize: Deserializer) returns (forwarded: seq<Packet>, exit: LoopExit)
      modifies this`udpEndPoint, connection.tcpClient`incoming
      ensures !old(running) ==>
                forwarded == [] && exit == Stopped && udpEndPoint == old(udpEndPoint)
                && connection.tcpClient.incoming == old(connection.tcpClient.incoming)
      ensures old(running) ==>
                Received(forwarded, udpEndPoint, exit, connection.tcpClient.incoming)
                == Receive(old(connection.tcpClient.incoming), old(udpEndPoint), managerAssigned, deserialize)
    {
      forwarded := [];
      exit := Stopped;
      ghost var total := Receive(connection.tcpClient.incoming, udpEndPoint, managerAssigned, deserialize);
      while running
        invariant running ==>
                    total == Prepend(forwarded, Receive(connection.tcpClient.incoming, udpEndPoint, managerAssigned, deserialize))
        invariant !running ==>
                    forwarded == [] && exit == Stopped && udpEndPoint == old(udpEndPoint)
                    && connection.tcpClient.incoming == old(connection.tcpClient.incoming)
        decreases Size(connection.tcpClient.incoming)
      {
        var handed, stop := ReceiveOne(deserialize);
        PrependTwice(forwarded, handed, Receive(connection.tcpClient.incoming, udpEndPoint, managerAssigned, deserialize));
        forwarded := forwarded + handed;
        if stop.Some? {
          exit := stop.value;
          break;
        }
      }
    }

    /** One pass of the receive loop: read a packet with `ReadTCP`, then store a
        connect packet's end point or forward any other packet. `stop` is the
        reason the loop breaks (or crashes), if it does. */
    method ReceiveOne(deserialize: Deserializer) returns (handed: seq<Packet>, stop: Option<LoopExit>)
      modifies this`udpEndPoint, connection.tcpClient`incoming
      ensures stop.Some? ==>
                Receive(old(connection.tcpClient.incoming), old(udpEndPoint), managerAssigned, deserialize)
                == Received(handed, udpEndPoint, stop.value, connection.tcpClient.incoming)
      ensures stop.None? ==>
                Receive(old(connection.tcpClient.incoming), old(udpEndPoint), managerAssigned, deserialize)
                == Prepend(handed, Receive(connection.tcpClient.incoming, udpEndPoint, managerAssigned, deserialize))
                && Size(connection.tcpClient.incoming) < Size(old(connection.tcpClient.incoming))
    {
      ghost var before := connection.tcpClient.incoming;
      var r := connection.ReadTCP(deserialize);
      ReceiveStep(before, udpEndPoint, managerAssigned, deserialize);
      handed := [];
      if r == Returned(None) {
        stop := Some(EndOfStream);
      } else if r.Returned? {
        var packet := r.packet.value;
        if packet.Connect? {
          PacketConnectReceived(packet.udpEndPoint);
          stop := None;
        } else if managerAssigned {
          handed := [packet];
          stop := None;
        } else {
          stop := Some(Crashed);
        }
      } else if r.exception == ClientError {
        stop := None;
      } else {
        stop := Some(match r.exception
                     case IOError => ConnectionError
                     case DisposedError => StreamDisposed
                     case _ => Crashed);
      }
    }
  }

  /** `Receive` unfolded once, by what `ReadTCP` returns. */
  lemma ReceiveStep(incoming: seq<Chunk>, udpEndPoint: Option<IPEndPoint>, managerAssigned: bool,
                    deserialize: Deserializer)
    ensures var (f, rest) := ReadFrame(incoming, deserialize);
            var r := Outcome(f);
            Receive(incoming, udpEndPoint, managerAssigned, deserialize)
            == if r == Returned(None) then Received([], udpEndPoint, EndOfStream, rest)
               else if r.Returned? then
                 (if r.packet.value.Connect? then
                    Receive(rest, AcceptEndPoint(udpEndPoint, r.packet.value.udpEndPoint), managerAssigned, deserialize)
                  else if managerAssigned then Prepend([r.packet.value], Receive(rest, udpEndPoint, managerAssigned, deserialize))
                  else Received([], udpEndPoint, Crashed, rest))
               else if r.exception == ClientError then Receive(rest, udpEndPoint, managerAssigned, deserialize)
               else Received([], udpEndPoint,
                             match r.exception
                             case IOError => ConnectionError
                             case DisposedError => StreamDisposed
                             case _ => Crashed, rest)
  {
  }

  // ---------------------------------------------------------------------------
  // Properties of the receive loop

  /** With the manager assigned, a run of whole frames is delivered in order:
      every non-connect packet is forwarded, every valid connect packet
      overwrites the stored end point, and reading continues after the run. */
  lemma {:induction false} ReceiveFrames(serialize: Serializer, deserialize: Deserializer,
                                         ps: seq<Packet>, udpEndPoint: Option<IPEndPoint>, rest: seq<Chunk>)
    requires Invertible(serialize, deserialize, ps)
    ensures Receive(Push(Frames(serialize, ps), rest), udpEndPoint, true, deserialize)
         == Prepend(Forwarded(ps), Receive(rest, EndPointAfter(udpEndPoint, ps), true, deserialize))
  {
    if ps != [] {
      var incoming := Push(Frames(serialize, ps), rest);
      ReadFrameOfFrames(serialize, deserialize, ps, rest);
      ReceiveStep(incoming, udpEndPoint, true, deserialize);
      assert Invertible(serialize, deserialize, ps[1..]) by {
        forall p | p in ps[1..] ensures p in ps { }
      }
      if ps[0].Connect? {
        ReceiveFrames(serialize, deserialize, ps[1..], AcceptEndPoint(udpEndPoint, ps[0].udpEndPoint), rest);
      } else {
        ReceiveFrames(serialize, deserialize, ps[1..], udpEndPoint, rest);
        PrependTwice([ps[0]], Forwarded(ps[1..]),
                     Receive(rest, EndPointAfter(udpEndPoint, ps[1..]), true, deserialize));
      }
    } else {
      assert Frames(serialize, ps) == [];
    }
  }

  /** The connection as constructed: the first packet that is not a connect
      packet ends the loop, and nothing reaches the manager. */
  lemma {:induction false} AsWrittenForwardsNothing(serialize: Serializer, deserialize: Deserializer,
                                                    ps: seq<Packet>, udpEndPoint: Option<IPEndPoint>, rest: seq<Chunk>)
    requires Invertible(serialize, deserialize, ps) && Forwarded(ps) != []
    ensures Receive(Push(Frames(serialize, ps), rest), udpEndPoint, false, deserialize).exit == Crashed
    ensures Receive(Push(Frames(serialize, ps), rest), udpEndPoint, false, deserialize).forwarded == []
  {
    ReadFrameOfFrames(serialize, deserialize, ps, rest);
    ReceiveStep(Push(Frames(serialize, ps), rest), udpEndPoint, false, deserialize);
    if ps[0].Connect? {
      assert Invertible(serialize, deserialize, ps[1..]) by {
        forall p | p in ps[1..] ensures p in ps { }
      }
      AsWrittenForwardsNothing(serialize, deserialize, ps[1..], AcceptEndPoint(udpEndPoint, ps[0].udpEndPoint), rest);
    }
  }

  /** How one read decides what the loop does next: a short read is skipped,
      a connection failure or a null packet ends the loop with nothing more
      forwarded. */
  lemma StepOutcomes(incoming: seq<Chunk>, udpEndPoint: Option<IPEndPoint>, managerAssigned: bool,
                     deserialize: Deserializer)
    ensures var (f, rest) := ReadFrame(incoming, deserialize);
            (f.PrefixShort? || f.BodyShort?) ==>
              Receive(incoming, udpEndPoint, managerAssigned, deserialize)
              == Receive(rest, udpEndPoint, managerAssigned, deserialize)
    ensures var (f, rest) := ReadFrame(incoming, deserialize);
            (f.ReadFailed? || f.PrefixEnded? || f.BodyEnded? || f == Complete(NotAPacket)) ==>
              Receive(incoming, udpEndPoint, managerAssigned, deserialize)
              == Received([], udpEndPoint,
                          if f.ReadFailed? then (if f.error.IOException? then ConnectionError else StreamDisposed)
                          else EndOfStream, rest)
  {
  }
}
