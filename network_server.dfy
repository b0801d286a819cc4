/** The older, server-only component: start and stop guards, a signed
    connection counter, and the two handler tables. Its connections are
    `Client(int, TcpClient)` objects, of which only the ID and the stream are
    used. */
module NetworkServers {
  import opened Wire
  import opened TcpStreams
  import opened HandlerRegistry
  import opened Dictionaries
  import LocalClients

  /** An `Action<Packet>` in a handler table: the component's own
      `TestPacketMethod`, or one the application registers. */
  datatype Handler = TestPacketMethod | ApplicationHandler(name: nat)

  /** How `ClientStart` ends; it returns quietly in every case. */
  datatype StartOutcome = Ignored | Failed | Connected

  /** The value of the `int` counter after `n` increments from 0. */
  function IssuedI32(n: nat): i32
    decreases n
  {
    if n == 0 then 0 else IncI32(IssuedI32(n - 1))
  }

  /** Up to 2^31 - 1 increments the counter equals the number of increments,
      so the `n`-th connection gets ID `n`. */
  lemma {:induction false} IssuedI32Counts(n: nat)
    requires n <= MAX_I32
    ensures IssuedI32(n) == n
    decreases n
  {
    if n > 0 {
      IssuedI32Counts(n - 1);
    }
  }

  /** The next connection after that gets the negative ID -2^31. */
  lemma IssuedI32Wraps()
    ensures IssuedI32(MAX_I32 + 1) == -0x8000_0000
  {
    IssuedI32Counts(MAX_I32);
  }

  /** A connection accepted by the server. */
  class Connection {
    const id: i32
    const stream: NetworkStream

    constructor (id: i32, stream: NetworkStream)
      ensures this.id == id && this.stream == stream
    {
      this.id := id;
      this.stream := stream;
    }

    /** Writes the packet's frame unless the stream is closed. */
    method SendTCP(packet: Packet, serialize: Serializer)
      modifies stream`outgoing
      ensures stream.outgoing
           == if stream.closed then old(stream.outgoing) else old(stream.outgoing) + Frame(serialize(packet))
    {
      var buffer := serialize(packet);
      stream.WriteAsync(GetBytes(|buffer|));
      stream.WriteAsync(buffer);
    }

    method Stop()
      modifies stream
      ensures stream.closed && stream.outgoing == old(stream.outgoing)
    {
      stream.Close();
    }
  }

  class NetworkServer {
    const ip: string
    const port: int
    var serverHandlers: Registry<Handler>
    var serverRunning: bool
    var clientCount: i32
    var clients: map<i32, Connection>
    var clientOrder: seq<i32>
    var clientHandlers: Registry<Handler>
    var localClient: Option<LocalClients.LocalClient>

    /** The connection table lists its keys once each, keys every connection
        by its ID, and gives every connection a stream of its own. */
    ghost predicate Valid()
      reads this
    {
      && Ordered(clientOrder, clients.Keys)
      && (forall k | k in clients :: clients[k].id == k)
      && (forall k, l | k in clients && l in clients && k != l :: clients[k].stream != clients[l].stream)
    }

    function Streams(): set<NetworkStream>
      reads this
    {
      set k | k in clients :: clients[k].stream
    }

    function IsClientRunning(): (r: bool)
      reads this, if localClient.Some? then {localClient.value} else {}
      ensures r <==> localClient.Some? && localClient.value.running
    {
      localClient.Some? && localClient.value.running
    }

    /** The component as `Awake` leaves it: nothing running, both handler
        tables empty. `_clients` is null until `ServerStart`; it is empty
        here. */
    constructor (ip: string, port: int)
      ensures Valid() && this.ip == ip && this.port == port
      ensures !serverRunning && localClient.None? && clients == map[]
      ensures serverHandlers == map[] && clientHandlers == map[]
    {
      this.ip := ip;
      this.port := port;
      serverHandlers := map[];
      serverRunning := false;
      clientCount := 0;
      clients := map[];
      clientOrder := [];
      clientHandlers := map[];
      localClient := None;
    }

    // -------------------------------------------------------------------------
    // Server

    /** Starting a running server does nothing; otherwise the counter restarts
        at 0 with no connections. */
    method ServerStart()
      requires Valid()
      modifies this`serverRunning, this`clientCount, this`clients, this`clientOrder
      ensures Valid() && serverRunning
      ensures old(serverRunning) ==> clientCount == old(clientCount) && clients == old(clients)
      ensures !old(serverRunning) ==> clientCount == 0 && clients == map[]
    {
      if serverRunning {
        return;
      }
      serverRunning := true;
      clientCount := 0;
      clients := map[];
      clientOrder := [];
    }

    /** Stopping a stopped server does nothing. Otherwise every connection is
        closed and the connection table and the client handler table are
        cleared; the server handler table is kept. */
    method ServerStop()
      requires Valid()
      modifies this`serverRunning, this`clients, this`clientOrder, this`clientHandlers, Streams()
      ensures Valid() && !serverRunning && serverHandlers == old(serverHandlers)
      ensures !old(serverRunning) ==> clients == old(clients) && clientHandlers == old(clientHandlers)
      ensures old(serverRunning) ==>
                && clients == map[] && clientHandlers == map[]
                && forall k | k in old(clients) ::
                     old(clients)[k].stream.closed && old(clients)[k].stream.outgoing == old(clients[k].stream.outgoing)
    {
      if !serverRunning {
        return;
      }
      serverRunning := false;
      StopAll();
      clients := map[];
      clientOrder := [];
      clientHandlers := map[];
    }

    /** `c.Stop()` for every connection. */
    method StopAll()
      requires Valid()
      modifies Streams()
      ensures forall k | k in clients ::
                clients[k].stream.closed && clients[k].stream.outgoing == old(clients[k].stream.outgoing)
    {
      var i := 0;
      while i < |clientOrder|
        invariant 0 <= i <= |clientOrder|
        invariant forall j | 0 <= j < i :: clients[clientOrder[j]].stream.closed
        invariant forall k | k in clients :: clients[k].stream.outgoing == old(clients[k].stream.outgoing)
      {
        clients[clientOrder[i]].Stop();
        i := i + 1;
      }
      forall k | k in clients ensures clients[k].stream.closed {
        var j :| 0 <= j < |clientOrder| && clientOrder[j] == k;
      }
    }

    /** One pass of the accept loop for a connection whose traffic is
        `incoming`. The counter is incremented first. Adding an ID already in
        the table throws an exception the loop does not catch (`added` is
        false): the table is unchanged and the loop ends. Otherwise the
        connection is added and sent a default spawn packet and then a despawn
        packet. */
    method AcceptClient(incoming: seq<Chunk>, serialize: Serializer) returns (c: Connection, added: bool)
      requires Valid()
      modifies this`clientCount, this`clients, this`clientOrder
      ensures Valid()
      ensures fresh(c) && fresh(c.stream) && c.stream.incoming == incoming && !c.stream.closed
      ensures c.id == clientCount && clientCount == IncI32(old(clientCount))
      ensures added <==> clientCount !in old(clients)
      ensures added ==> clients == old(clients)[clientCount := c] && clientOrder == old(clientOrder) + [clientCount]
      ensures !added ==> clients == old(clients) && clientOrder == old(clientOrder)
      ensures c.stream.outgoing
           == if added then Frame(serialize(DEFAULT_SPAWN)) + Frame(serialize(DespawnObject)) else []
    {
      c, added := NewConnection(incoming);
      if added {
        c.SendTCP(DEFAULT_SPAWN, serialize);
        c.SendTCP(DespawnObject, serialize);
      }
    }

    /** The counter is incremented, the connection is made with that ID, and
        it is added to the table unless the ID is taken (then `Add` throws). */
    method NewConnection(incoming: seq<Chunk>) returns (c: Connection, added: bool)
      requires Valid()
      modifies this`clientCount, this`clients, this`clientOrder
      ensures Valid()
      ensures fresh(c) && fresh(c.stream) && c.stream.incoming == incoming
      ensures !c.stream.closed && c.stream.outgoing == []
      ensures c.id == clientCount && clientCount == IncI32(old(clientCount))
      ensures added <==> clientCount !in old(clients)
      ensures added ==> clients == old(clients)[clientCount := c] && clientOrder == old(clientOrder) + [clientCount]
      ensures !added ==> clients == old(clients) && clientOrder == old(clientOrder)
    {
      clientCount := IncI32(clientCount);
      var tcp := new NetworkStream(incoming);
      c := new Connection(clientCount, tcp);
      if clientCount in clients {
        return c, false;
      }
      InsertOrdered(clientOrder, clients.Keys, clientCount);
      clients := clients[clientCount := c];
      clientOrder := Insert(clientOrder, clientCount);
      added := true;
    }

    /** `RegisterServerPacketHandler<T>` with `typeof(T) == t`. */
    method RegisterServerPacketHandler(t: PacketType, h: Handler)
      modifies this`serverHandlers
      ensures serverHandlers == Register(old(serverHandlers), t, h)
    {
      serverHandlers := Register(serverHandlers, t, h);
    }

    /** `ServerPacketReceived(packet)`: the server handlers of the packet's
        exact runtime class, in registration order; none when that class has
        no entry. */
    function ServerPacketReceived(packet: Packet): (invoked: seq<Handler>)
      reads this
      ensures TypeOf(packet) !in serverHandlers ==> invoked == []
      ensures TypeOf(packet) in serverHandlers ==> invoked == serverHandlers[TypeOf(packet)]
    {
      Dispatch(serverHandlers, packet)
    }

    // -------------------------------------------------------------------------
    // Client

    /** Starting while a client object exists does nothing. Otherwise a client
        is made and connected; a failed attempt is stopped and dropped. In both
        of those cases `TestPacketMethod` is then registered for spawn
        packets. `incoming` is the traffic the server will send on the new
        connection. */
    method ClientStart(incoming: seq<Chunk>, parse: string -> Option<seq<byte>>, reachable: bool,
                       localUdpEndPoint: EndPoint, serialize: Serializer)
      returns (outcome: StartOutcome)
      modifies this`localClient, this`clientHandlers
      ensures outcome == Ignored <==> old(localClient.Some?)
      ensures outcome == Connected <==> old(localClient.None?) && parse(ip).Some? && reachable
      ensures outcome == Ignored ==> localClient == old(localClient) && clientHandlers == old(clientHandlers)
      ensures outcome != Ignored ==> clientHandlers == Register(old(clientHandlers), SpawnObjectType, TestPacketMethod)
      ensures outcome == Failed ==> localClient.None?
      ensures outcome == Connected ==>
                && localClient.Some? && fresh(localClient.value) && fresh(localClient.value.tcpClient)
                && localClient.value.ip == ip && localClient.value.port == port && localClient.value.running
                && localClient.value.tcpClient.outgoing == Frame(serialize(Packet.Connect(localUdpEndPoint)))
    {
      if localClient.Some? || IsClientRunning() {
        return Ignored;
      }
      var tcp := new NetworkStream(incoming);
      var client := new LocalClients.LocalClient(ip, port, tcp);
      localClient := Some(client);
      var connected := client.Connect(parse, reachable, localUdpEndPoint, serialize);
      if connected {
        outcome := Connected;
      } else {
        client.Stop();
        localClient := None;
        outcome := Failed;
      }
      RegisterClientPacketHandler(SpawnObjectType, TestPacketMethod);
    }

    /** Stops a running local client, drops it and clears the client handler
        table; otherwise nothing happens. */
    method ClientStop()
      modifies this`localClient, this`clientHandlers
      modifies if localClient.Some? then {localClient.value, localClient.value.tcpClient} else {}
      ensures !old(IsClientRunning()) ==> localClient == old(localClient) && clientHandlers == old(clientHandlers)
      ensures old(IsClientRunning()) ==>
                && localClient.None? && clientHandlers == map[]
                && !old(localClient).value.running && old(localClient).value.tcpClient.closed
    {
      if !IsClientRunning() {
        return;
      }
      localClient.value.Stop();
      localClient := None;
      clientHandlers := map[];
    }

    /** `RegisterClientPacketHandler<T>` with `typeof(T) == t`. */
    method RegisterClientPacketHandler(t: PacketType, h: Handler)
      modifies this`clientHandlers
      ensures clientHandlers == Register(old(clientHandlers), t, h)
    {
      clientHandlers := Register(clientHandlers, t, h);
    }

    /** `ClientPacketReceived(packet)`: the client handlers of the packet's
        exact runtime class, in registration order; none when that class has
        no entry. */
    function ClientPacketReceived(packet: Packet): (invoked: seq<Handler>)
      reads this
      ensures TypeOf(packet) !in clientHandlers ==> invoked == []
      ensures TypeOf(packet) in clientHandlers ==> invoked == clientHandlers[TypeOf(packet)]
    {
      Dispatch(clientHandlers, packet)
    }
  }

  /** Every `ClientStart` that does not find a client object adds one more
      `TestPacketMethod`: after `n` failed attempts a spawn packet runs it
      `n` times more than before. */
  lemma {:induction false} RepeatedStartsStack(r: Registry<Handler>, n: nat, p: Packet)
    ensures Dispatch(RegisterAll(r, SpawnObjectType, Repeat(TestPacketMethod, n)), p)
         == Dispatch(r, p) + if p.SpawnObject? then Repeat(TestPacketMethod, n) else []
  {
    DispatchAfterRegisterAll(r, SpawnObjectType, Repeat(TestPacketMethod, n), p);
  }

  function Repeat(h: Handler, n: nat): (r: seq<Handler>)
    ensures |r| == n && forall i | 0 <= i < n :: r[i] == h
    decreases n
  {
    if n == 0 then [] else Repeat(h, n - 1) + [h]
  }
}
