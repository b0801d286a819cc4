/** The replication engine's directory and dispatcher. On the server it
    numbers spawned objects and accepted connections, sends every client the
    objects' spawn packets and, each tick, the packets the objects queued; on
    a client it creates the objects the server announces and routes targeted
    packets to them. */
module NetworkManagers {
  import opened Wire
  import opened TcpStreams
  import opened NetworkObjects
  import opened HandlerRegistry
  import opened Dictionaries
  import Clients
  import LocalClients

  /** An `Action<Client, T>` the application registers, known by its identity. */
  datatype ServerHandler = ServerHandler(name: nat)

  /** An `Action<T>` behind a client-side entry: the manager's own two
      handlers, or one the application registers. */
  datatype ClientHandler = SpawnObjectReceived | TargetedReceived | ApplicationHandler(name: nat)

  /** Whether `Action<T>` with `typeof(T) == t` can hold `h`. */
  predicate Accepts(h: ClientHandler, t: PacketType) {
    match h
    case SpawnObjectReceived => t == SpawnObjectType
    case TargetedReceived => t == NetworkTransformSyncType
    case ApplicationHandler(_) => true
  }

  /** Every client-side handler sits under a class its `Action<T>` accepts,
      as the generic `RegisterClientPacketHandler<T>` guarantees. */
  ghost predicate Typed(r: Registry<ClientHandler>) {
    forall t, h | t in r && h in r[t] :: Accepts(h, t)
  }

  lemma RegisterTyped(r: Registry<ClientHandler>, t: PacketType, h: ClientHandler)
    requires Typed(r) && Accepts(h, t)
    ensures Typed(Register(r, t, h))
  {
  }

  /** One client-side handler run: what the manager's handlers did, or the
      application handler that was given the packet. */
  datatype ClientCall =
    | SpawnHandled(created: Option<NetworkObject>)
    | TargetedHandled(target: Option<NetworkObject>)
    | ApplicationInvoked(name: nat)
  {
    function handler(): ClientHandler {
      match this
      case SpawnHandled(_) => SpawnObjectReceived
      case TargetedHandled(_) => TargetedReceived
      case ApplicationInvoked(name) => ApplicationHandler(name)
    }
  }

  /** A datagram handed to `UdpClient.SendAsync`. */
  datatype UdpSend = UdpSend(to: IPEndPoint, datagram: seq<byte>)

  /** How `ClientStart` ends: it throws `ClientException` when a client exists
      already or the connection fails. */
  datatype ClientStartResult = AlreadyRunning | ConnectFailed | Started

  /** The `PacketSpawnObject` announcing `obj`: its prefab, identifiers and
      transform. */
  function SpawnPacket(obj: NetworkObject): Packet
    reads obj, obj.transform
  {
    SpawnObject(obj.prefabID, obj.networkID, obj.ownerNetworkID,
                obj.transform.position, obj.transform.rotation, obj.transform.localScale)
  }

  /** What a stream's outgoing bytes are after `bytes` are written to it, given
      what they were before. */
  predicate Wrote(s: NetworkStream, before: seq<byte>, bytes: seq<byte>)
    reads s
  {
    s.outgoing == if s.closed then before else before + bytes
  }

  /** The value of a `uint` counter after `n` increments from 0. */
  function Issued(n: nat): u32
    decreases n
  {
    if n == 0 then 0 else IncU32(Issued(n - 1))
  }

  /** Below 2^32 increments the counter equals the number of increments. */
  lemma {:induction false} IssuedCounts(n: nat)
    requires n < 0x1_0000_0000
    ensures Issued(n) == n
    decreases n
  {
    if n > 0 {
      IssuedCounts(n - 1);
    }
  }

  /** The directory keys handed out by successive `Spawn`s in one server
      session are strictly increasing, hence never reused, until the counter
      wraps. */
  lemma IssuedIncreasing(i: nat, j: nat)
    requires i < j < 0x1_0000_0000
    ensures Issued(i) < Issued(j)
  {
    IssuedCounts(i);
    IssuedCounts(j);
  }

  /** The `n`-th accepted connection (counting from 1) gets ID `n`: never 0,
      the server's own ID. */
  lemma ClientIDs(n: nat)
    requires 0 < n < 0x1_0000_0000
    ensures Issued(n) == n && Issued(n) != 0
  {
    IssuedCounts(n);
  }

  /** After 2^32 increments the counter is back at 0. */
  lemma IssuedWraps()
    ensures Issued(0x1_0000_0000) == 0
  {
    IssuedCounts(0xFFFF_FFFF);
  }

  /** The packets of `queues`, concatenated in order. */
  function Concat(queues: seq<seq<Packet>>): seq<Packet>
    decreases |queues|
  {
    if queues == [] then [] else Concat(queues[..|queues| - 1]) + queues[|queues| - 1]
  }

  lemma ConcatSnoc(queues: seq<seq<Packet>>, q: seq<Packet>)
    ensures Concat(queues + [q]) == Concat(queues) + q
  {
    assert (queues + [q])[..|queues|] == queues;
  }

  /** Every packet of the concatenation comes from one of the queues, and
      empty queues concatenate to nothing. */
  lemma {:induction false} ConcatFrom(queues: seq<seq<Packet>>)
    ensures forall p | p in Concat(queues) :: exists i | 0 <= i < |queues| :: p in queues[i]
    ensures (forall i | 0 <= i < |queues| :: queues[i] == []) ==> Concat(queues) == []
    decreases |queues|
  {
    if queues != [] {
      var front := queues[..|queues| - 1];
      ConcatFrom(front);
      forall p | p in Concat(queues) ensures exists i | 0 <= i < |queues| :: p in queues[i] {
        if p in Concat(front) {
          var i :| 0 <= i < |front| && p in front[i];
          assert queues[i] == front[i];
        } else {
          assert p in queues[|queues| - 1];
        }
      }
    }
  }

  /** The UDP end points of `cs`, null where none was announced. */
  function EndPointsOf(cs: seq<Clients.Client>): (r: seq<Option<IPEndPoint>>)
    reads cs
    ensures |r| == |cs|
    ensures forall i | 0 <= i < |cs| :: r[i] == cs[i].udpEndPoint
    decreases |cs|
  {
    if cs == [] then [] else EndPointsOf(cs[..|cs| - 1]) + [cs[|cs| - 1].udpEndPoint]
  }

  /** The datagrams sent for one serialized packet: to each announced end
      point, in order. */
  function ToEach(datagram: seq<byte>, endPoints: seq<Option<IPEndPoint>>): seq<UdpSend>
    decreases |endPoints|
  {
    if endPoints == [] then []
    else
      var last := endPoints[|endPoints| - 1];
      ToEach(datagram, endPoints[..|endPoints| - 1]) + if last.Some? then [UdpSend(last.value, datagram)] else []
  }

  /** The datagrams `Broadcast(packets)` sends: packet by packet, the serialized
      packet to each announced end point. */
  function Datagrams(serialize: Serializer, packets: seq<Packet>, endPoints: seq<Option<IPEndPoint>>): seq<UdpSend>
    decreases |packets|
  {
    if packets == [] then []
    else Datagrams(serialize, packets[..|packets| - 1], endPoints) + ToEach(serialize(packets[|packets| - 1]), endPoints)
  }

  /** How many end points were announced. */
  function Announced(endPoints: seq<Option<IPEndPoint>>): nat
    decreases |endPoints|
  {
    if endPoints == [] then 0
    else Announced(endPoints[..|endPoints| - 1]) + if endPoints[|endPoints| - 1].Some? then 1 else 0
  }

  /** One datagram per announced end point, each carrying the packet and
      addressed to an announced end point. */
  lemma {:induction false} ToEachSends(datagram: seq<byte>, endPoints: seq<Option<IPEndPoint>>)
    ensures |ToEach(datagram, endPoints)| == Announced(endPoints)
    ensures forall s | s in ToEach(datagram, endPoints) :: s.datagram == datagram && Some(s.to) in endPoints
    decreases |endPoints|
  {
    if endPoints != [] {
      var front := endPoints[..|endPoints| - 1];
      ToEachSends(datagram, front);
      forall s | s in ToEach(datagram, endPoints) ensures s.datagram == datagram && Some(s.to) in endPoints {
        if s in ToEach(datagram, front) {
          var i :| 0 <= i < |front| && front[i] == Some(s.to);
          assert endPoints[i] == front[i];
        }
      }
    }
  }

  /** `|packets|` datagrams per announced end point. */
  lemma {:induction false} DatagramsCount(serialize: Serializer, packets: seq<Packet>, endPoints: seq<Option<IPEndPoint>>)
    ensures |Datagrams(serialize, packets, endPoints)| == |packets| * Announced(endPoints)
    decreases |packets|
  {
    if packets != [] {
      var front := packets[..|packets| - 1];
      DatagramsCount(serialize, front, endPoints);
      ToEachSends(serialize(packets[|packets| - 1]), endPoints);
      assert |packets| * Announced(endPoints) == |front| * Announced(endPoints) + Announced(endPoints);
    }
  }

  /** Every datagram carries one of the packets to an announced end point. */
  lemma {:induction false} DatagramsAddressed(serialize: Serializer, packets: seq<Packet>, endPoints: seq<Option<IPEndPoint>>)
    ensures forall s | s in Datagrams(serialize, packets, endPoints) ::
              Some(s.to) in endPoints && exists i | 0 <= i < |packets| :: s.datagram == serialize(packets[i])
    decreases |packets|
  {
    if packets != [] {
      var front := packets[..|packets| - 1];
      var n := |packets| - 1;
      DatagramsAddressed(serialize, front, endPoints);
      ToEachSends(serialize(packets[n]), endPoints);
      forall s | s in Datagrams(serialize, packets, endPoints)
        ensures Some(s.to) in endPoints && exists i | 0 <= i < |packets| :: s.datagram == serialize(packets[i])
      {
        if s in Datagrams(serialize, front, endPoints) {
          var i :| 0 <= i < |front| && s.datagram == serialize(front[i]);
          assert packets[i] == front[i];
        } else {
          assert s in ToEach(serialize(packets[n]), endPoints);
        }
      }
    }
  }

  class NetworkManager {
    var offlineScene: string
    var onlineScene: string
    var spawnableObjects: seq<NetworkObject>
    var spawnedObjectsCount: u32
    var spawnedObjects: map<u32, NetworkObject>
    var spawnedOrder: seq<u32>
    var serverHandlers: Registry<ServerHandler>
    var serverRunning: bool
    var clientCount: u32
    var clients: map<u32, Clients.Client>
    var clientOrder: seq<u32>
    var clientHandlers: Registry<ClientHandler>
    var localClient: Option<LocalClients.LocalClient>

    /** The directory and the connection table are well formed: each lists its
        keys once, and every connection is keyed by its ID and has a stream of
        its own. */
    ghost predicate Valid()
      reads this
    {
      && Ordered(spawnedOrder, spawnedObjects.Keys)
      && Ordered(clientOrder, clients.Keys)
      && (forall k | k in clients :: clients[k].id == k)
      && (forall k, l | k in clients && l in clients && k != l :: clients[k].tcpClient != clients[l].tcpClient)
    }

    /** Every ID in the enumeration order has a connection. */
    predicate ClientsListed()
      reads this
    {
      forall i | 0 <= i < |clientOrder| :: clientOrder[i] in clients
    }

    /** Every object in the directory is spawned, under its own network ID. */
    ghost predicate Spawned()
      reads this, spawnedObjects.Values`spawned, spawnedObjects.Values`networkID
    {
      forall k | k in spawnedObjects :: spawnedObjects[k].spawned && spawnedObjects[k].networkID == k
    }

    function ClientStreams(): set<NetworkStream>
      reads this
    {
      set k | k in clients :: clients[k].tcpClient
    }

    function IsClientRunning(): (r: bool)
      reads this, if localClient.Some? then {localClient.value} else {}
      ensures r <==> localClient.Some? && localClient.value.running
    {
      localClient.Some? && localClient.value.running
    }

    /** A manager before either side is started, with the scene names and
        prefab list set in the inspector. The dictionaries the C# fields leave
        null until `ServerStart` or `SharedStart` are empty here. */
    constructor (offlineScene: string, onlineScene: string, spawnableObjects: seq<NetworkObject>)
      ensures Valid() && Spawned() && this.spawnableObjects == spawnableObjects
      ensures this.offlineScene == offlineScene && this.onlineScene == onlineScene
      ensures !serverRunning && localClient.None?
      ensures spawnedObjects == map[] && clients == map[]
      ensures serverHandlers == map[] && clientHandlers == map[]
    {
      this.offlineScene := offlineScene;
      this.onlineScene := onlineScene;
      this.spawnableObjects := spawnableObjects;
      spawnedObjectsCount := 0;
      spawnedObjects := map[];
      spawnedOrder := [];
      serverHandlers := map[];
      serverRunning := false;
      clientCount := 0;
      clients := map[];
      clientOrder := [];
      clientHandlers := map[];
      localClient := None;
    }

    // -------------------------------------------------------------------------
    // Shared

    /** The directory starts empty unless both sides are now running. */
    method SharedStart()
      modifies this`spawnedObjects, this`spawnedOrder
      ensures !serverRunning || !IsClientRunning() ==> spawnedObjects == map[] && spawnedOrder == []
      ensures serverRunning && IsClientRunning() ==>
                spawnedObjects == old(spawnedObjects) && spawnedOrder == old(spawnedOrder)
    {
      if !serverRunning || !IsClientRunning() {
        spawnedObjects := map[];
        spawnedOrder := [];
      }
    }

    /** The directory is cleared once neither side is running. */
    method SharedStop()
      modifies this`spawnedObjects, this`spawnedOrder
      ensures !serverRunning && !IsClientRunning() ==> spawnedObjects == map[] && spawnedOrder == []
      ensures serverRunning || IsClientRunning() ==>
                spawnedObjects == old(spawnedObjects) && spawnedOrder == old(spawnedOrder)
    {
      if !serverRunning && !IsClientRunning() {
        spawnedObjects := map[];
        spawnedOrder := [];
      }
    }

    // -------------------------------------------------------------------------
    // Server

    /** Starting a running server does nothing. Otherwise both counters restart
        at 0 with no connections, and the directory is emptied unless a client
        is running in this process too. */
    method ServerStart()
      requires Valid() && Spawned()
      modifies this`serverRunning, this`clientCount, this`clients, this`clientOrder
      modifies this`spawnedObjectsCount, this`spawnedObjects, this`spawnedOrder
      ensures Valid() && Spawned()
      ensures old(serverRunning) ==>
                serverRunning && clientCount == old(clientCount) && clients == old(clients)
                && spawnedObjectsCount == old(spawnedObjectsCount) && spawnedObjects == old(spawnedObjects)
      ensures !old(serverRunning) ==>
                serverRunning && clientCount == 0 && clients == map[] && spawnedObjectsCount == 0
                && (spawnedObjects == if IsClientRunning() then old(spawnedObjects) else map[])
    {
      if serverRunning {
        return;
      }
      serverRunning := true;
      clientCount := 0;
      clients := map[];
      clientOrder := [];
      spawnedObjectsCount := 0;
      SharedStart();
    }

    /** Stopping a stopped server does nothing. Otherwise every connection is
        closed, the connection table and the client-side handler table are
        cleared (the server-side one is kept), and the directory is cleared
        unless a client is still running. */
    method ServerStop()
      requires Valid() && Spawned()
      modifies this`serverRunning, this`clients, this`clientOrder, this`clientHandlers
      modifies this`spawnedObjects, this`spawnedOrder, ClientStreams()
      ensures Valid() && Spawned()
      ensures old(serverRunning) ==>
                !serverRunning && clients == map[] && clientHandlers == map[]
                && (spawnedObjects == if IsClientRunning() then old(spawnedObjects) else map[])
                && forall k | k in old(clients) ::
                     old(clients)[k].tcpClient.closed
                     && old(clients)[k].tcpClient.outgoing == old(clients[k].tcpClient.outgoing)
      ensures !old(serverRunning) ==>
                !serverRunning && clients == old(clients) && clientHandlers == old(clientHandlers)
                && spawnedObjects == old(spawnedObjects)
      ensures serverHandlers == old(serverHandlers)
    {
      if !serverRunning {
        return;
      }
      serverRunning := false;
      StopClients();
      clients := map[];
      clientOrder := [];
      clientHandlers := map[];
      SharedStop();
    }

    /** `c.Stop()` for every connection. */
    method StopClients()
      requires Valid()
      modifies ClientStreams()
      ensures forall k | k in clients ::
                clients[k].tcpClient.closed && clients[k].tcpClient.outgoing == old(clients[k].tcpClient.outgoing)
    {
      var i := 0;
      while i < |clientOrder|
        invariant 0 <= i <= |clientOrder|
        invariant forall j | 0 <= j < i :: clients[clientOrder[j]].tcpClient.closed
        invariant forall k | k in clients :: clients[k].tcpClient.outgoing == old(clients[k].tcpClient.outgoing)
      {
        clients[clientOrder[i]].Stop();
        i := i + 1;
      }
      forall k | k in clients ensures clients[k].tcpClient.closed {
        var j :| 0 <= j < |clientOrder| && clientOrder[j] == k;
      }
    }

    /** `SendTo(Client, packets)`: nothing for no packets, otherwise the frames
        of all of them, in order, in one write. */
    method SendToClient(client: Clients.Client, packets: seq<Packet>, serialize: Serializer)
      modifies client.tcpClient`outgoing
      ensures Wrote(client.tcpClient, old(client.tcpClient.outgoing), Frames(serialize, packets))
    {
      if |packets| <= 0 {
        assert Wrote(client.tcpClient, old(client.tcpClient.outgoing), []);
        return;
      }
      var buffer := Buffer(packets, serialize);
      client.SendTCP(buffer);
    }

    /** `SendTo(uint clientID, packets)`: an unknown ID sends nothing. */
    method SendTo(clientID: u32, packets: seq<Packet>, serialize: Serializer)
      requires Valid()
      modifies ClientStreams()`outgoing
      ensures clientID !in clients ==>
                forall k | k in clients :: clients[k].tcpClient.outgoing == old(clients[k].tcpClient.outgoing)
      ensures clientID in clients ==>
                && Wrote(clients[clientID].tcpClient, old(clients[clientID].tcpClient.outgoing), Frames(serialize, packets))
                && forall k | k in clients && k != clientID ::
                     clients[k].tcpClient.outgoing == old(clients[k].tcpClient.outgoing)
    {
      if clientID !in clients {
        return;
      }
      SendToClient(clients[clientID], packets, serialize);
    }

    /** `SendToAll(packets)`: the same frames, in one write, to every
        connection; nothing for no packets. */
    method SendToAll(packets: seq<Packet>, serialize: Serializer)
      requires Valid()
      modifies ClientStreams()`outgoing
      ensures forall k | k in clients ::
                Wrote(clients[k].tcpClient, old(clients[k].tcpClient.outgoing), Frames(serialize, packets))
    {
      if |packets| <= 0 {
        assert forall k | k in clients :: Wrote(clients[k].tcpClient, old(clients[k].tcpClient.outgoing), []);
        return;
      }
      var buffer := Buffer(packets, serialize);
      WriteToAll(buffer);
    }

    /** `client.SendTCP(buffer)` for every connection, in enumeration order. */
    method WriteToAll(buffer: seq<byte>)
      requires Valid()
      modifies ClientStreams()`outgoing
      ensures forall k | k in clients :: Wrote(clients[k].tcpClient, old(clients[k].tcpClient.outgoing), buffer)
    {
      var i := 0;
      while i < |clientOrder|
        invariant 0 <= i <= |clientOrder|
        invariant forall k | k in clients ::
                    if k in clientOrder[..i] then Wrote(clients[k].tcpClient, old(clients[k].tcpClient.outgoing), buffer)
                    else clients[k].tcpClient.outgoing == old(clients[k].tcpClient.outgoing)
      {
        clients[clientOrder[i]].SendTCP(buffer);
        assert clientOrder[..i + 1] == clientOrder[..i] + [clientOrder[i]];
        i := i + 1;
      }
      assert clientOrder[..i] == clientOrder;
    }

    /** The `packetBuffer` of `SendTo` and `SendToAll`: for each packet in turn,
        `GetBytes((uint)buffer.Length)` and then the serialized packet. */
    static method Buffer(packets: seq<Packet>, serialize: Serializer) returns (buffer: seq<byte>)
      ensures buffer == Frames(serialize, packets)
    {
      buffer := [];
      var i := 0;
      while i < |packets|
        invariant 0 <= i <= |packets|
        invariant buffer == Frames(serialize, packets[..i])
      {
        var bytes := serialize(packets[i]);
        FramesAppend(serialize, packets[..i], packets[i]);
        assert packets[..i + 1] == packets[..i] + [packets[i]];
        buffer := buffer + GetBytes(|bytes|) + bytes;
        i := i + 1;
      }
      assert packets[..i] == packets;
    }

    /** Registers and announces a server object. Nothing happens when the
        server is not running or the object is already spawned. Otherwise the
        object goes into the directory under the counter's value, is spawned
        with that ID and owner 0 (the server), the counter advances by one, and
        every connection is sent the object's spawn packet. */
    method Spawn(obj: NetworkObject, serialize: Serializer)
      requires Valid() && Spawned()
      modifies this`spawnedObjects, this`spawnedOrder, this`spawnedObjectsCount
      modifies obj`spawned, obj`networkID, obj`ownerNetworkID, ClientStreams()`outgoing
      ensures Valid() && Spawned()
      ensures !serverRunning || old(obj.spawned) ==>
                && spawnedObjects == old(spawnedObjects) && spawnedObjectsCount == old(spawnedObjectsCount)
                && obj.networkID == old(obj.networkID) && obj.ownerNetworkID == old(obj.ownerNetworkID)
                && forall k | k in clients :: clients[k].tcpClient.outgoing == old(clients[k].tcpClient.outgoing)
      ensures serverRunning && !old(obj.spawned) ==>
                && spawnedObjects == old(spawnedObjects)[old(spawnedObjectsCount) := obj]
                && obj.spawned && obj.networkID == old(spawnedObjectsCount) && obj.ownerNetworkID == 0
                && spawnedObjectsCount == IncU32(old(spawnedObjectsCount))
                && forall k | k in clients ::
                     Wrote(clients[k].tcpClient, old(clients[k].tcpClient.outgoing), Frames(serialize, [SpawnPacket(obj)]))
    {
      if !serverRunning {
        return;
      }
      if obj.spawned {
        return;
      }
      SpawnNew(obj, serialize);
    }

    /** `Spawn` past its two checks. */
    method SpawnNew(obj: NetworkObject, serialize: Serializer)
      requires Valid() && Spawned() && !obj.spawned
      modifies this`spawnedObjects, this`spawnedOrder, this`spawnedObjectsCount
      modifies obj`spawned, obj`networkID, obj`ownerNetworkID, ClientStreams()`outgoing
      ensures Valid() && Spawned()
      ensures spawnedObjects == old(spawnedObjects)[old(spawnedObjectsCount) := obj]
      ensures obj.spawned && obj.networkID == old(spawnedObjectsCount) && obj.ownerNetworkID == 0
      ensures spawnedObjectsCount == IncU32(old(spawnedObjectsCount))
      ensures forall k | k in clients ::
                Wrote(clients[k].tcpClient, old(clients[k].tcpClient.outgoing), Frames(serialize, [SpawnPacket(obj)]))
    {
      AddObject(obj, spawnedObjectsCount, 0);
      spawnedObjectsCount := IncU32(spawnedObjectsCount);
      SendToAll([SpawnPacket(obj)], serialize);
    }

    /** `_spawnedObjects[networkID] = obj` and `obj.Spawn(networkID, owner)`. */
    method AddObject(obj: NetworkObject, networkID: u32, owner: u32)
      requires Valid() && Spawned() && !obj.spawned
      modifies this`spawnedObjects, this`spawnedOrder, obj`spawned, obj`networkID, obj`ownerNetworkID
      ensures Valid() && Spawned()
      ensures spawnedObjects == old(spawnedObjects)[networkID := obj]
      ensures spawnedOrder == Insert(old(spawnedOrder), networkID)
      ensures obj.spawned && obj.networkID == networkID && obj.ownerNetworkID == owner
    {
      InsertOrdered(spawnedOrder, spawnedObjects.Keys, networkID);
      spawnedObjects := spawnedObjects[networkID := obj];
      spawnedOrder := Insert(spawnedOrder, networkID);
      obj.Spawn(networkID, owner);
    }

    /** One pass of the accept loop for a connection whose traffic is
        `incoming`. The counter is incremented first, so the connection's ID
        is never 0. Adding an ID already in the table throws an exception the
        loop does not catch (`added` is false): the table is unchanged and the
        loop ends. Otherwise the connection is added last and, when the
        directory is not empty, sent the spawn packets of every object in it,
        in directory order, in one write. */
    method AcceptClient(incoming: seq<Chunk>, serialize: Serializer) returns (c: Clients.Client, added: bool, greeting: seq<Packet>)
      requires Valid()
      modifies this`clientCount, this`clients, this`clientOrder
      ensures Valid()
      ensures fresh(c) && fresh(c.tcpClient) && c.tcpClient.incoming == incoming
      ensures c.id == clientCount && c.udpEndPoint.None? && c.running && !c.managerAssigned
      ensures clientCount == IncU32(old(clientCount))
      ensures added <==> clientCount !in old(clients)
      ensures added ==> clients == old(clients)[clientCount := c] && clientOrder == old(clientOrder) + [clientCount]
      ensures !added ==> clients == old(clients) && clientOrder == old(clientOrder)
      ensures old(Announces(greeting))
      ensures c.tcpClient.outgoing == if added && |spawnedObjects| > 0 then Frames(serialize, greeting) else []
    {
      greeting := Greeting();
      c, added := NewConnection(incoming);
      if added && |spawnedObjects| > 0 {
        SendToClient(c, greeting, serialize);
      }
    }

    /** `packets` holds the spawn packet of every object in the directory, in
        enumeration order. */
    ghost predicate Announces(packets: seq<Packet>)
      reads this, spawnedObjects.Values, set k | k in spawnedObjects :: spawnedObjects[k].transform
    {
      && |packets| == |spawnedOrder|
      && forall i | 0 <= i < |spawnedOrder| ::
           spawnedOrder[i] in spawnedObjects && packets[i] == SpawnPacket(spawnedObjects[spawnedOrder[i]])
    }

    /** The `foreach` over `_spawnedObjects.Values` that builds a new
        connection's spawn packets. */
    method Greeting() returns (packets: seq<Packet>)
      requires Valid()
      ensures Announces(packets)
    {
      packets := [];
      var i := 0;
      while i < |spawnedOrder|
        invariant 0 <= i <= |spawnedOrder| && |packets| == i
        invariant forall j | 0 <= j < i :: packets[j] == SpawnPacket(spawnedObjects[spawnedOrder[j]])
      {
        packets := packets + [SpawnPacket(spawnedObjects[spawnedOrder[i]])];
        i := i + 1;
      }
    }

    /** The counter is incremented, the connection is made with that ID, and
        it is added to the table unless the ID is taken (then `Add` throws).
        The connection's constructor drops the manager it is passed, so the
        connection never forwards a packet to it. */
    method NewConnection(incoming: seq<Chunk>) returns (c: Clients.Client, added: bool)
      requires Valid()
      modifies this`clientCount, this`clients, this`clientOrder
      ensures Valid()
      ensures fresh(c) && fresh(c.tcpClient) && c.tcpClient.incoming == incoming
      ensures c.tcpClient.outgoing == [] && !c.tcpClient.closed
      ensures c.id == clientCount && c.udpEndPoint.None? && c.running && !c.managerAssigned
      ensures clientCount == IncU32(old(clientCount))
      ensures added <==> clientCount !in old(clients)
      ensures added ==> clients == old(clients)[clientCount := c] && clientOrder == old(clientOrder) + [clientCount]
      ensures !added ==> clients == old(clients) && clientOrder == old(clientOrder)
    {
      clientCount := IncU32(clientCount);
      var tcp := new NetworkStream(incoming);
      c := new Clients.Client(clientCount, tcp);
      if clientCount in clients {
        return c, false;
      }
      AddClient(c);
      added := true;
    }

    /** `_clients.Add(c.id, c)` for an ID not in the table. */
    method AddClient(c: Clients.Client)
      requires Valid() && c.id !in clients
      requires forall k | k in clients :: clients[k].tcpClient != c.tcpClient
      modifies this`clients, this`clientOrder
      ensures Valid()
      ensures clients == old(clients)[c.id := c] && clientOrder == old(clientOrder) + [c.id]
    {
      InsertOrdered(clientOrder, clients.Keys, c.id);
      clients := clients[c.id := c];
      clientOrder := Insert(clientOrder, c.id);
    }

    /** `tcp` and `udp` hold the queues of every object in the directory, in
        enumeration order. */
    ghost predicate Queues(tcp: seq<seq<Packet>>, udp: seq<seq<Packet>>)
      reads this, spawnedObjects.Values`tcpPackets, spawnedObjects.Values`udpPackets
    {
      && |tcp| == |spawnedOrder| && |udp| == |spawnedOrder|
      && forall i | 0 <= i < |spawnedOrder| ::
           && spawnedOrder[i] in spawnedObjects
           && tcp[i] == spawnedObjects[spawnedOrder[i]].tcpPackets
           && udp[i] == spawnedObjects[spawnedOrder[i]].udpPackets
    }

    /** A new connection learns every object in the directory exactly once,
        each under its own network ID. */
    lemma AnnouncesEachOnce(packets: seq<Packet>)
      requires Valid() && Spawned() && Announces(packets)
      ensures forall k | k in spawnedObjects :: exists i | 0 <= i < |packets| :: packets[i].objectNetworkID == k
      ensures forall i, j | 0 <= i < j < |packets| :: packets[i].objectNetworkID != packets[j].objectNetworkID
    {
      forall k | k in spawnedObjects ensures exists i | 0 <= i < |packets| :: packets[i].objectNetworkID == k {
        var i :| 0 <= i < |spawnedOrder| && spawnedOrder[i] == k;
        assert packets[i].objectNetworkID == k;
      }
    }

    /** The first loop of `Update`: the queues of every object in the
        directory, concatenated in enumeration order, each object's queues
        emptied after they are taken. */
    method Drain() returns (tcp: seq<Packet>, udp: seq<Packet>, ghost tcpQueues: seq<seq<Packet>>, ghost udpQueues: seq<seq<Packet>>)
      requires Valid() && Spawned()
      modifies spawnedObjects.Values`tcpPackets, spawnedObjects.Values`udpPackets
      ensures Valid() && Spawned()
      ensures old(Queues(tcpQueues, udpQueues))
      ensures tcp == Concat(tcpQueues) && udp == Concat(udpQueues)
      ensures forall k | k in spawnedObjects :: spawnedObjects[k].tcpPackets == [] && spawnedObjects[k].udpPackets == []
    {
      var objs := Values(spawnedOrder, spawnedObjects);
      forall j, l | 0 <= j < l < |objs| ensures objs[j] != objs[l] {
        assert objs[j].networkID == spawnedOrder[j] && objs[l].networkID == spawnedOrder[l];
      }
      tcp, udp, tcpQueues, udpQueues := DrainAll(objs);
      forall k | k in spawnedObjects ensures spawnedObjects[k].tcpPackets == [] && spawnedObjects[k].udpPackets == [] {
        var j :| 0 <= j < |spawnedOrder| && spawnedOrder[j] == k;
        assert objs[j] == spawnedObjects[k];
      }
    }

    /** The loop of `Drain` over the objects `objs`, each listed once. */
    static method DrainAll(objs: seq<NetworkObject>)
      returns (tcp: seq<Packet>, udp: seq<Packet>, ghost tcpQueues: seq<seq<Packet>>, ghost udpQueues: seq<seq<Packet>>)
      requires forall j, l | 0 <= j < l < |objs| :: objs[j] != objs[l]
      modifies (set o | o in objs)`tcpPackets, (set o | o in objs)`udpPackets
      ensures |tcpQueues| == |objs| && |udpQueues| == |objs|
      ensures forall j | 0 <= j < |objs| ::
                && tcpQueues[j] == old(objs[j].tcpPackets) && udpQueues[j] == old(objs[j].udpPackets)
                && objs[j].tcpPackets == [] && objs[j].udpPackets == []
      ensures tcp == Concat(tcpQueues) && udp == Concat(udpQueues)
    {
      tcp, udp := [], [];
      tcpQueues, udpQueues := [], [];
      var i := 0;
      while i < |objs|
        invariant 0 <= i <= |objs| && |tcpQueues| == i && |udpQueues| == i
        invariant tcp == Concat(tcpQueues) && udp == Concat(udpQueues)
        invariant forall j | 0 <= j < |objs| ::
                    if j < i then
                      && objs[j].tcpPackets == [] && objs[j].udpPackets == []
                      && tcpQueues[j] == old(objs[j].tcpPackets) && udpQueues[j] == old(objs[j].udpPackets)
                    else objs[j].tcpPackets == old(objs[j].tcpPackets) && objs[j].udpPackets == old(objs[j].udpPackets)
      {
        var o := objs[i];
        ConcatSnoc(tcpQueues, o.tcpPackets);
        ConcatSnoc(udpQueues, o.udpPackets);
        tcpQueues, udpQueues := tcpQueues + [o.tcpPackets], udpQueues + [o.udpPackets];
        tcp, udp := tcp + o.tcpPackets, udp + o.udpPackets;
        o.ClearPackets();
        i := i + 1;
      }
    }

    /** The end points the connections announced, in enumeration order. */
    function EndPoints(): (r: seq<Option<IPEndPoint>>)
      requires ClientsListed()
      reads this, clients.Values
    {
      EndPointsOf(Values(clientOrder, clients))
    }

    /** One tick on the server: every object's queues are emptied; every
        connection is sent, in one write, the frames of all queued TCP
        packets in directory order; and every queued UDP packet is sent to
        each connection that announced an end point. A manager whose server
        is not running does nothing. */
    method Update(serialize: Serializer) returns (sent: seq<UdpSend>, ghost tcpQueues: seq<seq<Packet>>, ghost udpQueues: seq<seq<Packet>>)
      requires Valid() && Spawned()
      modifies spawnedObjects.Values`tcpPackets, spawnedObjects.Values`udpPackets, ClientStreams()`outgoing
      ensures Valid() && Spawned()
      ensures !serverRunning ==>
                && sent == []
                && (forall k | k in spawnedObjects ::
                      spawnedObjects[k].tcpPackets == old(spawnedObjects[k].tcpPackets)
                      && spawnedObjects[k].udpPackets == old(spawnedObjects[k].udpPackets))
                && forall k | k in clients :: clients[k].tcpClient.outgoing == old(clients[k].tcpClient.outgoing)
      ensures serverRunning ==>
                && old(Queues(tcpQueues, udpQueues))
                && (forall k | k in spawnedObjects :: spawnedObjects[k].tcpPackets == [] && spawnedObjects[k].udpPackets == [])
                && (forall k | k in clients ::
                      Wrote(clients[k].tcpClient, old(clients[k].tcpClient.outgoing), Frames(serialize, Concat(tcpQueues))))
                && sent == Datagrams(serialize, Concat(udpQueues), EndPoints())
    {
      sent, tcpQueues, udpQueues := [], [], [];
      if !serverRunning {
        return;
      }
      sent, tcpQueues, udpQueues := Tick(serialize);
    }

    /** The body of `Update` on a running server. */
    method Tick(serialize: Serializer) returns (sent: seq<UdpSend>, ghost tcpQueues: seq<seq<Packet>>, ghost udpQueues: seq<seq<Packet>>)
      requires Valid() && Spawned()
      modifies spawnedObjects.Values`tcpPackets, spawnedObjects.Values`udpPackets, ClientStreams()`outgoing
      ensures Valid() && Spawned()
      ensures old(Queues(tcpQueues, udpQueues))
      ensures forall k | k in spawnedObjects :: spawnedObjects[k].tcpPackets == [] && spawnedObjects[k].udpPackets == []
      ensures forall k | k in clients ::
                Wrote(clients[k].tcpClient, old(clients[k].tcpClient.outgoing), Frames(serialize, Concat(tcpQueues)))
      ensures sent == Datagrams(serialize, Concat(udpQueues), EndPoints())
    {
      var tcp, udp;
      tcp, udp, tcpQueues, udpQueues := Drain();
      sent := Send(tcp, udp, serialize);
    }

    /** The second half of `Update`: `SendToAll(tcp)`, then `Broadcast(udp)`. */
    method Send(tcp: seq<Packet>, udp: seq<Packet>, serialize: Serializer) returns (sent: seq<UdpSend>)
      requires Valid()
      modifies ClientStreams()`outgoing
      ensures forall k | k in clients ::
                Wrote(clients[k].tcpClient, old(clients[k].tcpClient.outgoing), Frames(serialize, tcp))
      ensures sent == Datagrams(serialize, udp, EndPoints())
    {
      SendToAll(tcp, serialize);
      sent := Broadcast(udp, serialize);
    }

    /** `Broadcast(packets)`: for each packet in turn, its serialized form to
        every connection that announced a UDP end point. */
    method Broadcast(packets: seq<Packet>, serialize: Serializer) returns (sent: seq<UdpSend>)
      requires ClientsListed()
      ensures sent == Datagrams(serialize, packets, EndPoints())
    {
      sent := [];
      if |packets| <= 0 {
        return;
      }
      var i := 0;
      while i < |packets|
        invariant 0 <= i <= |packets|
        invariant sent == Datagrams(serialize, packets[..i], EndPoints())
      {
        var datagram := serialize(packets[i]);
        var out := SendToEach(datagram);
        assert packets[..i + 1][..i] == packets[..i];
        sent := sent + out;
        i := i + 1;
      }
      assert packets[..i] == packets;
    }

    /** The inner loop of `Broadcast`: one datagram per announced end point. */
    method SendToEach(datagram: seq<byte>) returns (sent: seq<UdpSend>)
      requires ClientsListed()
      ensures sent == ToEach(datagram, EndPoints())
    {
      var endPoints := EndPoints();
      sent := [];
      var j := 0;
      while j < |clientOrder|
        invariant 0 <= j <= |clientOrder|
        invariant sent == ToEach(datagram, endPoints[..j])
      {
        var client := clients[clientOrder[j]];
        assert endPoints[..j + 1][..j] == endPoints[..j];
        if client.udpEndPoint.Some? {
          sent := sent + [UdpSend(client.udpEndPoint.value, datagram)];
        }
        j := j + 1;
      }
      assert endPoints[..j] == endPoints;
    }

    // -------------------------------------------------------------------------
    // Handler tables

    /** `RegisterServerPacketHandler<T>` with `typeof(T) == t`. */
    method RegisterServerPacketHandler(t: PacketType, h: ServerHandler)
      modifies this`serverHandlers
      ensures serverHandlers == Register(old(serverHandlers), t, h)
    {
      serverHandlers := Register(serverHandlers, t, h);
    }

    /** `ServerPacketReceived(sender, packet)`: the server-side handlers of the
        packet's exact runtime class, run in registration order; none when
        that class has no entry. */
    function ServerPacketReceived(packet: Packet): (invoked: seq<ServerHandler>)
      reads this
      ensures TypeOf(packet) !in serverHandlers ==> invoked == []
      ensures TypeOf(packet) in serverHandlers ==> invoked == serverHandlers[TypeOf(packet)]
    {
      Dispatch(serverHandlers, packet)
    }

    /** `RegisterClientPacketHandler<T>` with `typeof(T) == t`: the generic
        signature only lets an `Action<T>` be registered for `T`. */
    method RegisterClientPacketHandler(t: PacketType, h: ClientHandler)
      requires Typed(clientHandlers) && Accepts(h, t)
      modifies this`clientHandlers
      ensures Typed(clientHandlers)
      ensures clientHandlers == Register(old(clientHandlers), t, h)
    {
      RegisterTyped(clientHandlers, t, h);
      clientHandlers := Register(clientHandlers, t, h);
    }

    // -------------------------------------------------------------------------
    // Client

    /** The prefabs are numbered by their place in the list, as the editor
        tooling numbers them. */
    predicate PrefabsNumbered()
      reads this, spawnableObjects
    {
      forall i | 0 <= i < |spawnableObjects| :: spawnableObjects[i].prefabID as int == i
    }

    /** A spawn packet the client acts on: it is not also the server, the
        prefab exists and the network ID is not taken. */
    predicate SpawnAccepted(packet: Packet)
      reads this
    {
      && packet.SpawnObject? && !serverRunning
      && (packet.prefabID as int) < |spawnableObjects|
      && packet.objectNetworkID !in spawnedObjects
    }

    /** `o` is the object a client makes for the spawn packet `packet`: an
        instance of the named prefab, placed as the packet says, spawned under
        the packet's IDs, with nothing queued. */
    ghost predicate MadeFor(o: NetworkObject, packet: Packet)
      requires packet.SpawnObject? && (packet.prefabID as int) < |spawnableObjects|
      reads this, spawnableObjects, o, o.transform
    {
      && o.prefabID == spawnableObjects[packet.prefabID].prefabID
      && o.spawned && o.networkID == packet.objectNetworkID && o.ownerNetworkID == packet.ownerNetworkID
      && o.transform.position == packet.position && o.transform.rotation == packet.rotation
      && o.transform.localScale == packet.localScale
      && o.tcpPackets == [] && o.udpPackets == []
    }

    /** Once the prefabs are numbered, the object made for a spawn packet
        announces that same packet. */
    lemma MadeForAnnounces(o: NetworkObject, packet: Packet)
      requires packet.SpawnObject? && (packet.prefabID as int) < |spawnableObjects|
      requires PrefabsNumbered() && MadeFor(o, packet)
      ensures SpawnPacket(o) == packet
    {
      assert spawnableObjects[packet.prefabID].prefabID as int == packet.prefabID as int;
    }

    /** `ClientPacketSpawnObjectReceived`: a packet the client acts on
        instantiates its prefab, which goes into the directory under the
        packet's network ID; any other packet is ignored. */
    method ClientPacketSpawnObjectReceived(packet: Packet) returns (created: Option<NetworkObject>)
      requires packet.SpawnObject? && Valid() && Spawned()
      modifies this`spawnedObjects, this`spawnedOrder
      ensures Valid() && Spawned()
      ensures created.Some? <==> old(SpawnAccepted(packet))
      ensures created.None? ==> spawnedObjects == old(spawnedObjects) && spawnedOrder == old(spawnedOrder)
      ensures created.Some? ==>
                && fresh(created.value) && fresh(created.value.transform) && MadeFor(created.value, packet)
                && spawnedObjects == old(spawnedObjects)[packet.objectNetworkID := created.value]
                && spawnedOrder == old(spawnedOrder) + [packet.objectNetworkID]
    {
      if serverRunning {
        return None;
      }
      if packet.prefabID as int >= |spawnableObjects| {
        return None;
      }
      if packet.objectNetworkID in spawnedObjects {
        return None;
      }
      var t := new Transform(packet.position, packet.rotation, packet.localScale);
      var o := new NetworkObject(spawnableObjects[packet.prefabID].prefabID, t);
      AddObject(o, packet.objectNetworkID, packet.ownerNetworkID);
      created := Some(o);
    }

    /** `ClientPacketTargetedReceived`: the object a targeted packet is
        delivered to (every `INetworkMessageTarget` on it receives the packet),
        none when this process is also the server or the target is unknown. */
    function ClientPacketTargetedReceived(packet: Packet): (target: Option<NetworkObject>)
      requires IsTargeted(packet)
      reads this
      ensures target.None? <==> serverRunning || packet.target !in spawnedObjects
      ensures target.Some? ==> target.value == spawnedObjects[packet.target]
    {
      if serverRunning || packet.target !in spawnedObjects then None else Some(spawnedObjects[packet.target])
    }

    /** One invocation of a client-side handler on `packet`. */
    method Invoke(h: ClientHandler, packet: Packet) returns (call: ClientCall)
      requires Valid() && Spawned() && Accepts(h, TypeOf(packet))
      modifies this`spawnedObjects, this`spawnedOrder
      ensures Valid() && Spawned() && call.handler() == h
      ensures !h.SpawnObjectReceived? ==> spawnedObjects == old(spawnedObjects) && spawnedOrder == old(spawnedOrder)
      ensures h.TargetedReceived? ==> IsTargeted(packet) && call.target == old(ClientPacketTargetedReceived(packet))
      ensures h.SpawnObjectReceived? ==>
                && (call.created.Some? <==> old(SpawnAccepted(packet)))
                && (call.created.None? ==> spawnedObjects == old(spawnedObjects) && spawnedOrder == old(spawnedOrder))
                && (call.created.Some? ==>
                      && fresh(call.created.value) && fresh(call.created.value.transform) && MadeFor(call.created.value, packet)
                      && spawnedObjects == old(spawnedObjects)[packet.objectNetworkID := call.created.value]
                      && spawnedOrder == old(spawnedOrder) + [packet.objectNetworkID])
    {
      match h
      case SpawnObjectReceived =>
        var created := ClientPacketSpawnObjectReceived(packet);
        call := SpawnHandled(created);
      case TargetedReceived =>
        call := TargetedHandled(ClientPacketTargetedReceived(packet));
      case ApplicationHandler(name) =>
        call := ApplicationInvoked(name);
    }

    /** `ClientPacketReceived`: the handlers registered for the packet's class
        run in registration order. The first run of the manager's spawn handler
        on an accepted spawn packet creates the object; later runs find its ID
        taken and do nothing. */
    method ClientPacketReceived(packet: Packet) returns (calls: seq<ClientCall>)
      requires Valid() && Spawned() && Typed(clientHandlers)
      modifies this`spawnedObjects, this`spawnedOrder
      ensures Valid() && Spawned()
      ensures |calls| == |Dispatch(clientHandlers, packet)|
      ensures forall i | 0 <= i < |calls| :: calls[i].handler() == Dispatch(clientHandlers, packet)[i]
      ensures forall i | 0 <= i < |calls| && calls[i].TargetedHandled? ::
                IsTargeted(packet) && calls[i].target == old(ClientPacketTargetedReceived(packet))
      ensures !(old(SpawnAccepted(packet)) && SpawnObjectReceived in Dispatch(clientHandlers, packet)) ==>
                spawnedObjects == old(spawnedObjects) && spawnedOrder == old(spawnedOrder)
      ensures old(SpawnAccepted(packet)) && SpawnObjectReceived in Dispatch(clientHandlers, packet) ==>
                var id := packet.objectNetworkID;
                && id in spawnedObjects && fresh(spawnedObjects[id]) && MadeFor(spawnedObjects[id], packet)
                && spawnedObjects == old(spawnedObjects)[id := spawnedObjects[id]]
                && spawnedOrder == old(spawnedOrder) + [id]
    {
      var hs := Dispatch(clientHandlers, packet);
      calls := [];
      var i := 0;
      while i < |hs|
        invariant 0 <= i <= |hs| && |calls| == i
        invariant Valid() && Spawned()
        invariant forall j | 0 <= j < i :: calls[j].handler() == hs[j]
        invariant forall j | 0 <= j < i && calls[j].TargetedHandled? ::
                    IsTargeted(packet) && calls[j].target == old(ClientPacketTargetedReceived(packet))
        invariant !(old(SpawnAccepted(packet)) && SpawnObjectReceived in hs[..i]) ==>
                    spawnedObjects == old(spawnedObjects) && spawnedOrder == old(spawnedOrder)
        invariant old(SpawnAccepted(packet)) && SpawnObjectReceived in hs[..i] ==>
                    var id := packet.objectNetworkID;
                    && id in spawnedObjects && fresh(spawnedObjects[id]) && MadeFor(spawnedObjects[id], packet)
                    && spawnedObjects == old(spawnedObjects)[id := spawnedObjects[id]]
                    && spawnedOrder == old(spawnedOrder) + [id]
      {
        assert hs[i] in clientHandlers[TypeOf(packet)];
        var call := Invoke(hs[i], packet);
        assert hs[..i + 1] == hs[..i] + [hs[i]];
        calls := calls + [call];
        i := i + 1;
      }
      assert hs[..i] == hs;
    }

    /** Starts the local client. It fails with `AlreadyRunning` when a client
        object exists, changing nothing; with `ConnectFailed` when the address
        does not parse or the server is unreachable, leaving no client.
        Otherwise the new client runs and has sent its connect packet, the
        directory starts empty unless this process is also the server, and the
        manager's spawn and targeted handlers are registered. `incoming` is the
        traffic the server will send on the new connection. */
    method ClientStart(ip: string, port: int, incoming: seq<Chunk>, parse: string -> Option<seq<byte>>,
                       reachable: bool, localUdpEndPoint: EndPoint, serialize: Serializer)
      returns (result: ClientStartResult)
      requires Valid() && Spawned() && Typed(clientHandlers)
      modifies this`localClient, this`clientHandlers, this`spawnedObjects, this`spawnedOrder
      ensures Valid() && Spawned() && Typed(clientHandlers)
      ensures result == AlreadyRunning <==> old(localClient.Some?)
      ensures result == Started <==> old(localClient.None?) && parse(ip).Some? && reachable
      ensures result != Started ==>
                && clientHandlers == old(clientHandlers) && spawnedObjects == old(spawnedObjects)
                && spawnedOrder == old(spawnedOrder)
      ensures result == AlreadyRunning ==> localClient == old(localClient)
      ensures result == ConnectFailed ==> localClient.None?
      ensures result == Started ==>
                && localClient.Some? && fresh(localClient.value) && fresh(localClient.value.tcpClient)
                && localClient.value.ip == ip && localClient.value.port == port && localClient.value.running
                && localClient.value.tcpClient.incoming == incoming
                && localClient.value.tcpClient.outgoing == Frame(serialize(Packet.Connect(localUdpEndPoint)))
                && clientHandlers == Register(Register(old(clientHandlers), SpawnObjectType, SpawnObjectReceived),
                                              NetworkTransformSyncType, TargetedReceived)
                && (spawnedObjects == if serverRunning then old(spawnedObjects) else map[])
    {
      if localClient.Some? || IsClientRunning() {
        return AlreadyRunning;
      }
      var tcp := new NetworkStream(incoming);
      var client := new LocalClients.LocalClient(ip, port, tcp);
      localClient := Some(client);
      var connected := client.Connect(parse, reachable, localUdpEndPoint, serialize);
      if !connected {
        client.Stop();
        localClient := None;
        return ConnectFailed;
      }
      FinishClientStart();
      result := Started;
    }

    /** The end of a successful `ClientStart`: `SharedStart` and the manager's
        two client-side handlers. */
    method FinishClientStart()
      requires Valid() && Spawned() && Typed(clientHandlers)
      modifies this`clientHandlers, this`spawnedObjects, this`spawnedOrder
      ensures Valid() && Spawned() && Typed(clientHandlers)
      ensures clientHandlers == Register(Register(old(clientHandlers), SpawnObjectType, SpawnObjectReceived),
                                         NetworkTransformSyncType, TargetedReceived)
      ensures !serverRunning || !IsClientRunning() ==> spawnedObjects == map[] && spawnedOrder == []
      ensures serverRunning && IsClientRunning() ==>
                spawnedObjects == old(spawnedObjects) && spawnedOrder == old(spawnedOrder)
    {
      SharedStart();
      RegisterClientPacketHandler(SpawnObjectType, SpawnObjectReceived);
      RegisterClientPacketHandler(NetworkTransformSyncType, TargetedReceived);
    }

    /** Stops a running local client: it is stopped and dropped, the client
        handler table is cleared, and the directory is cleared unless the
        server is running. Otherwise nothing happens. */
    method ClientStop()
      requires Valid() && Spawned()
      modifies this`localClient, this`clientHandlers, this`spawnedObjects, this`spawnedOrder
      modifies if localClient.Some? then {localClient.value, localClient.value.tcpClient} else {}
      ensures Valid() && Spawned()
      ensures !old(IsClientRunning()) ==>
                && localClient == old(localClient) && clientHandlers == old(clientHandlers)
                && spawnedObjects == old(spawnedObjects) && spawnedOrder == old(spawnedOrder)
      ensures old(IsClientRunning()) ==>
                && localClient.None? && clientHandlers == map[]
                && !old(localClient).value.running && old(localClient).value.tcpClient.closed
                && (spawnedObjects == if serverRunning then old(spawnedObjects) else map[])
    {
      if !IsClientRunning() {
        return;
      }
      localClient.value.Stop();
      localClient := None;
      clientHandlers := map[];
      SharedStop();
    }

    /** Replaces the name of the scene loaded on stopping, unless either side
        is running. */
    method SetOfflineScene(scene: string)
      modifies this`offlineScene
      ensures offlineScene == if old(serverRunning || IsClientRunning()) then old(offlineScene) else scene
    {
      if serverRunning || IsClientRunning() {
        return;
      }
      offlineScene := scene;
    }

    /** Replaces the name of the scene loaded on starting, unless either side
        is running. */
    method SetOnlineScene(scene: string)
      modifies this`onlineScene
      ensures onlineScene == if old(serverRunning || IsClientRunning()) then old(onlineScene) else scene
    {
      if serverRunning || IsClientRunning() {
        return;
      }
      onlineScene := scene;
    }

    /** Replaces the prefab list, unless either side is running. */
    method SetSpawnableObjects(objs: seq<NetworkObject>)
      modifies this`spawnableObjects
      ensures spawnableObjects == if old(serverRunning || IsClientRunning()) then old(spawnableObjects) else objs
    {
      if serverRunning || IsClientRunning() {
        return;
      }
      spawnableObjects := objs;
    }
  }
}
