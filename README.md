# GTRP replication core in Dafny

GTRP is a client/server replication package for Unity. A process runs a
server, a client, or both (a host). This project models the sequential
bookkeeping of the package's runtime and proves properties of it:

- **The wire** (`Wire`, `TcpStreams`). The reliable channel carries
  length-prefixed frames: a 4-byte little-endian `uint` length, then the
  serialized packet. A stream is a sequence of arrivals (byte segments, a
  reset, a local close). `ReadAsync` returns at most the buffer's length
  from the head segment. The binary formatter is a pair of function
  parameters, `serialize` and `deserialize`.
- **The three read-side framing loops.**
  - `InternalClient.Client.ReadTCP` throws on a short read.
  - The `Client` connection (`Clients`) and the `LocalClient` receive loop
    (`LocalClients`) log a short read and go on with the next pass.
  - The `ServerSideClient` loop (`ServerSideClients`) reads through
    `ReadTCP` and breaks or continues by outcome.

  Each loop is a `while` method proved against a recursive specification
  function of the traffic.
- **The directory and dispatcher** (`NetworkManagers.NetworkManager`).
  - Spawned objects are numbered from a wrapping `uint` counter and kept in a
    `uint → object` map, with their enumeration order.
  - Accepted connections are numbered 1, 2, 3, … and greeted with the spawn
    packet of every object.
  - On each tick, every object's TCP and UDP queues are drained, and the
    drained frames go to every connection.
  - Handler tables map a packet's runtime class to its handlers, which run in
    order.
  - On a client, spawn packets are validated and instantiated, and targeted
    packets are routed to known objects.
- **Replicated objects and behaviours** (`NetworkObjects`, `NetworkBehaviours`,
  `NetworkTransforms`). An object is spawned once and keeps two outbound
  queues. The staleness gate accepts only strictly newer timestamps. The
  transform behaviour detects changes, queues one sync packet naming the
  changed components, and applies a received sync partially.
- **The transform-sync codec** (`TransformSyncCodec`). A config byte has
  bit 0 for position, bit 1 for rotation and bit 2 for scale. Each
  component's floats are written and read only when their bit is set.
  `SerializationInfo` is a map from names to values.
- **The older server component** (`NetworkServers.NetworkServer`). It has
  start and stop guards, a signed `int` connection counter and two handler
  tables.

`Dictionaries` models a C# `Dictionary`'s enumeration order as the order in
which keys were first added; the core never removes single keys.

The files come from different revisions of the package:
- `Client.cs` and `Internal/Client.cs` both declare
  `KitSymes.GTRP.Internal.Client`. Each is modelled from its own text, as
  `Clients` and as `InternalClient`.
- `NetworkServer.cs` constructs a `Client(int, TcpClient)` and a
  `LocalClient(ip, port)`, and sends a `PacketDespawnObject`. None of these
  is declared in the files modelled here. The model uses a `Connection`
  class (an ID and a stream), `LocalClients.LocalClient`, and the packet
  constant `DespawnObject`.
- `NetworkTransform.cs` uses a 4-argument `PacketNetworkTransformSync` with a
  target, a timestamp and `HasPosition()`, and `NetworkManager.cs` uses a
  `PacketTargeted`. These are modelled as the `NetworkTransformSync(target,
  timestamp, body)` packet.
- `NetworkBehaviour.cs` calls `RegisterNetworkBehaviour`. Its result is a
  constructor parameter.

## Model

| member | source | states |
|---|---|---|
| Wire.IncU32 | Packages/com.kitsymes.gtrp/Runtime/Scripts/NetworkManager.cs:310 | an unchecked `uint` increment is addition modulo 2^32 |
| Wire.IncI32 | Packages/com.kitsymes.gtrp/Runtime/Scripts/NetworkServer.cs:112 | an unchecked `int` increment adds one below `int.MaxValue` and wraps to `int.MinValue` from it |
| Wire.AcceptEndPoint | Packages/com.kitsymes.gtrp/Runtime/Scripts/Client.cs:44-54 | a connect packet whose end point is an `IPEndPoint` replaces the stored end point; any other end point leaves the stored one |
| Wire.GetBytes | Packages/com.kitsymes.gtrp/Runtime/Scripts/Internal/Client.cs:67 | the length prefix is four bytes |
| Wire.ToUInt32OfGetBytes | Packages/com.kitsymes.gtrp/Runtime/Scripts/Internal/Client.cs:37 | decoding the 4-byte prefix gives back the length that was encoded |
| Wire.GetBytesOfToUInt32 | Packages/com.kitsymes.gtrp/Runtime/Scripts/Internal/Client.cs:37 | every 4-byte size buffer is the encoding of the length decoded from it, so the prefix coding is a bijection |
| Wire.Frame | Packages/com.kitsymes.gtrp/Runtime/Scripts/Internal/Client.cs:66-68 | a frame is the payload's length prefix followed by exactly the payload |
| Wire.FramesAppend | Packages/com.kitsymes.gtrp/Runtime/Scripts/NetworkManager.cs:233-244 | a buffer built one packet at a time is the frames of the packets in order |
| Wire.FramesLength | Packages/com.kitsymes.gtrp/Runtime/Scripts/NetworkManager.cs:242-243 | a buffer holds four bytes per packet plus every packet's serialized bytes |
| TcpStreams.ReadSpec | Packages/com.kitsymes.gtrp/Runtime/Scripts/Internal/Client.cs:28 | a read returns at most the buffer's length, taken from the head of what arrived; a failed read consumes nothing; a read that returns data consumes input |
| TcpStreams.NetworkStream.constructor | Packages/com.kitsymes.gtrp/Runtime/Scripts/NetworkManager.cs:146-152 | an accepted stream has the peer's traffic to read, nothing written and is open |
| TcpStreams.NetworkStream.ReadAsync | Packages/com.kitsymes.gtrp/Runtime/Scripts/Internal/Client.cs:28 | a read returns what the read specification gives and leaves the rest |
| TcpStreams.NetworkStream.WriteAsync | Packages/com.kitsymes.gtrp/Runtime/Scripts/Internal/Client.cs:67-68 | a write appends its bytes to an open stream and sends nothing on a closed one |
| TcpStreams.NetworkStream.Close | Packages/com.kitsymes.gtrp/Runtime/Scripts/Client.cs:39-42 | after closing, every read raises ObjectDisposedException and nothing written is lost |
| TcpStreams.ReadFrame | Packages/com.kitsymes.gtrp/Runtime/Scripts/Internal/Client.cs:27-49 | a short read or a whole frame consumes input, so a loop that skips short reads terminates; a failed read carries its exception |
| TcpStreams.ReadFrameOfFrame | Packages/com.kitsymes.gtrp/Runtime/Scripts/Internal/Client.cs:27-53 | a frame that arrives whole is read whole: the formatter gets exactly its payload and what followed stays unread |
| TcpStreams.SplitFrameIsShort | Packages/com.kitsymes.gtrp/Runtime/Scripts/Client.cs:94-105 | a frame split across two arrivals is read as a short body: frames are not reassembled |
| TcpStreams.ReadFrameOfFrames | Packages/com.kitsymes.gtrp/Runtime/Scripts/NetworkManager.cs:233-246 | when the formatter gives back the packets as they were sent, the first of a run of frames sent in one buffer reads back as the first packet and the others stay unread |
| TcpStreams.Forwarded | Packages/com.kitsymes.gtrp/Runtime/Scripts/ServerSideClient.cs:79-82 | what a connection hands to the manager comes from the packets received and holds no connect packet; a run without connect packets is handed over whole |
| TcpStreams.ForwardedAppend | Packages/com.kitsymes.gtrp/Runtime/Scripts/ServerSideClient.cs:79-82 | forwarding keeps the order of arrival: two runs one after the other forward the first run's packets, then the second's |
| TcpStreams.EndPointAfter | Packages/com.kitsymes.gtrp/Runtime/Scripts/ServerSideClient.cs:79-80 | after a run of packets the stored end point is the old one or one that a connect packet of the run announced |
| InternalClient.Outcome | Packages/com.kitsymes.gtrp/Runtime/Scripts/Internal/Client.cs:28-53 | `ReadTCP` returns null exactly for a zero-byte read or a body that is not a packet. It raises ClientException exactly for a short size or body read. It returns a packet exactly when a whole body deserializes to one |
| InternalClient.Client.constructor | Packages/com.kitsymes.gtrp/Runtime/Scripts/Internal/Client.cs:17-22 | the connection reads from and writes to the stream it is given |
| InternalClient.Client.ReadTCP | Packages/com.kitsymes.gtrp/Runtime/Scripts/Internal/Client.cs:24-54 | reading the size and then the body gives the outcome of the frame read, and consumes what the frame read consumes |
| InternalClient.Client.WriteTCP | Packages/com.kitsymes.gtrp/Runtime/Scripts/Internal/Client.cs:56-77 | writing a packet appends exactly its frame to an open stream |
| InternalClient.ReadWhatWasWritten | Packages/com.kitsymes.gtrp/Runtime/Scripts/Internal/Client.cs:24-77 | when the formatter gives back the packet as it was sent, reading back what `WriteTCP` wrote returns that packet and consumes exactly its frame |
| InternalClient.ZeroLengthFrameIsNull | Packages/com.kitsymes.gtrp/Runtime/Scripts/Internal/Client.cs:40-45 | a frame with length 0 reads as null, the same as the end of the stream |
| InternalClient.ShortSizeThrows | Packages/com.kitsymes.gtrp/Runtime/Scripts/Internal/Client.cs:33-36 | a size read of 1 to 3 bytes raises ClientException and consumes those bytes |
| Clients.Receive | Packages/com.kitsymes.gtrp/Runtime/Scripts/Client.cs:72-126 | the receive loop never forwards a connect packet, forwards nothing without a manager, and always ends by a read outcome rather than by `_running` |
| Clients.Client.constructor | Packages/com.kitsymes.gtrp/Runtime/Scripts/Client.cs:27-37 | a new connection has its ID and stream, no UDP end point and is running; as written it holds no manager |
| Clients.Client.Corrected | Packages/com.kitsymes.gtrp/Runtime/Scripts/Client.cs:27-37 | the constructor that also stores the manager it is given |
| Clients.Client.Stop | Packages/com.kitsymes.gtrp/Runtime/Scripts/Client.cs:39-42 | stopping closes the stream, and later reads raise ObjectDisposedException |
| Clients.Client.PacketConnectReceived | Packages/com.kitsymes.gtrp/Runtime/Scripts/Client.cs:44-54 | an `IPEndPoint` is stored; any other end point is rejected and the stored one kept |
| Clients.Client.SendTCP | Packages/com.kitsymes.gtrp/Runtime/Scripts/Client.cs:56-70 | already-framed bytes are written unchanged |
| Clients.Client.ReceiveTcp | Packages/com.kitsymes.gtrp/Runtime/Scripts/Client.cs:72-132 | a stopped connection reads nothing; a running one forwards, stores the end point and stops exactly as the receive specification says |
| Clients.Client.ReceiveOne | Packages/com.kitsymes.gtrp/Runtime/Scripts/Client.cs:76-125 | one pass of the loop either ends it with the specification's result or hands over a prefix of it with less input left |
| Clients.ReceiveFrames | Packages/com.kitsymes.gtrp/Runtime/Scripts/Client.cs:72-126 | with a manager, and packets the formatter gives back as they were sent, a run of whole frames forwards every non-connect packet in order and leaves the end point the connect packets announced |
| Clients.AsWrittenForwardsNothing | Packages/com.kitsymes.gtrp/Runtime/Scripts/Client.cs:27-37 | as constructed, the first non-connect packet ends the loop with an uncaught exception, and nothing reaches the manager |
| Clients.StepOutcomes | Packages/com.kitsymes.gtrp/Runtime/Scripts/Client.cs:80-105 | a short size or body read continues with the rest of the input and hands nothing over; a zero-byte read ends the loop |
| Clients.SplitFrameIsSkipped | Packages/com.kitsymes.gtrp/Runtime/Scripts/Client.cs:85-105 | a frame split across arrivals is dropped, and its second half is then read as a size prefix |
| ServerSideClients.Receive | Packages/com.kitsymes.gtrp/Runtime/Scripts/ServerSideClient.cs:68-98 | the loop never forwards a connect packet, forwards nothing without a manager, and always ends by a read outcome |
| ServerSideClients.ServerSideClient.constructor | Packages/com.kitsymes.gtrp/Runtime/Scripts/ServerSideClient.cs:24-33 | a new connection has its ID and stream, no UDP end point and is running; as written it holds no manager |
| ServerSideClients.ServerSideClient.Corrected | Packages/com.kitsymes.gtrp/Runtime/Scripts/ServerSideClient.cs:24-33 | the constructor that also stores the manager it is given |
| ServerSideClients.ServerSideClient.Stop | Packages/com.kitsymes.gtrp/Runtime/Scripts/ServerSideClient.cs:35-38 | stopping closes the stream and keeps what was written |
| ServerSideClients.ServerSideClient.PacketConnectReceived | Packages/com.kitsymes.gtrp/Runtime/Scripts/ServerSideClient.cs:40-50 | an `IPEndPoint` overwrites the stored end point; any other end point leaves it |
| ServerSideClients.ServerSideClient.SendTCP | Packages/com.kitsymes.gtrp/Runtime/Scripts/ServerSideClient.cs:52-66 | already-framed bytes are written unchanged |
| ServerSideClients.ServerSideClient.ReceiveTcp | Packages/com.kitsymes.gtrp/Runtime/Scripts/ServerSideClient.cs:68-104 | a stopped connection reads nothing; a running one forwards, stores the end point and stops exactly as the receive specification says |
| ServerSideClients.ServerSideClient.ReceiveOne | Packages/com.kitsymes.gtrp/Runtime/Scripts/ServerSideClient.cs:72-97 | one `ReadTCP` and its handling either end the loop with the specification's result or hand over a prefix of it with less input left |
| ServerSideClients.ReceiveFrames | Packages/com.kitsymes.gtrp/Runtime/Scripts/ServerSideClient.cs:68-98 | with a manager, and packets the formatter gives back as they were sent, a run of whole frames forwards every non-connect packet in order and keeps overwriting the end point with each valid connect packet |
| ServerSideClients.AsWrittenForwardsNothing | Packages/com.kitsymes.gtrp/Runtime/Scripts/ServerSideClient.cs:24-33 | as constructed, the first non-connect packet ends the loop with an uncaught exception, and nothing reaches the manager |
| ServerSideClients.StepOutcomes | Packages/com.kitsymes.gtrp/Runtime/Scripts/ServerSideClient.cs:74-97 | ClientException continues the loop; null, IOException and ObjectDisposedException end it with nothing more forwarded |
| LocalClients.Deliver | Packages/com.kitsymes.gtrp/Runtime/Scripts/LocalClient.cs:100-147 | the client's receive loop always ends by a read outcome rather than by `_running` |
| LocalClients.LocalClient.constructor | Packages/com.kitsymes.gtrp/Runtime/Scripts/LocalClient.cs:27-37 | a new client keeps its address and port and is not running |
| LocalClients.LocalClient.Connect | Packages/com.kitsymes.gtrp/Runtime/Scripts/LocalClient.cs:39-68 | connecting succeeds exactly when the address parses and the server is reachable. On failure neither `running` nor the stream changes. On success the client runs and its first frame is a connect packet with its UDP end point |
| LocalClients.LocalClient.Stop | Packages/com.kitsymes.gtrp/Runtime/Scripts/LocalClient.cs:70-75 | stopping clears `running` and closes both sockets |
| LocalClients.LocalClient.SendTCP | Packages/com.kitsymes.gtrp/Runtime/Scripts/LocalClient.cs:77-98 | writing a packet appends exactly its frame |
| LocalClients.LocalClient.ReceiveTcp | Packages/com.kitsymes.gtrp/Runtime/Scripts/LocalClient.cs:100-154 | a running client hands over what the delivery specification says, and asks the manager to stop it exactly when the loop ends by a read outcome |
| LocalClients.LocalClient.ReceiveOne | Packages/com.kitsymes.gtrp/Runtime/Scripts/LocalClient.cs:104-146 | one pass either ends the loop with the specification's result or hands over a prefix of it with less input left |
| LocalClients.DeliverFrames | Packages/com.kitsymes.gtrp/Runtime/Scripts/LocalClient.cs:100-147 | with packets the formatter gives back as they were sent, a run of whole frames is handed to the manager in order, all of it |
| LocalClients.ServerClosesAfterFrames | Packages/com.kitsymes.gtrp/Runtime/Scripts/LocalClient.cs:100-152 | with packets the formatter gives back as they were sent, frames followed by the server closing deliver every packet and then end the loop at the end of the stream |
| LocalClients.StepOutcomes | Packages/com.kitsymes.gtrp/Runtime/Scripts/LocalClient.cs:108-131 | a short read continues without handing anything over; a zero-byte read ends the loop |
| NetworkObjects.NetworkObject.constructor | Packages/com.kitsymes.gtrp/Runtime/Scripts/NetworkObject.cs:20-24 | a new object is unspawned with both queues empty |
| NetworkObjects.NetworkObject.Spawn | Packages/com.kitsymes.gtrp/Runtime/Scripts/NetworkObject.cs:38-48 | the first spawn stores the network and owner IDs; later spawns change nothing, so an object keeps its first identity |
| NetworkObjects.NetworkObject.AddTCPPacket | Packages/com.kitsymes.gtrp/Runtime/Scripts/NetworkObject.cs:50 | the packet is appended to the TCP queue only |
| NetworkObjects.NetworkObject.AddUDPPacket | Packages/com.kitsymes.gtrp/Runtime/Scripts/NetworkObject.cs:52 | the packet is appended to the UDP queue only |
| NetworkObjects.NetworkObject.ClearPackets | Packages/com.kitsymes.gtrp/Runtime/Scripts/NetworkObject.cs:55-59 | both queues are emptied and nothing else changes |
| NetworkBehaviours.Accepted | Packages/com.kitsymes.gtrp/Runtime/Scripts/NetworkBehaviour.cs:43-44 | the packets a behaviour applies are among those that arrived, no more of them |
| NetworkBehaviours.NetworkBehaviour.constructor | Packages/com.kitsymes.gtrp/Runtime/Scripts/NetworkBehaviour.cs:17-23 | a behaviour has its object, its registered ID and the current time as its last update |
| NetworkBehaviours.NetworkBehaviour.HasChanged | Packages/com.kitsymes.gtrp/Runtime/Scripts/NetworkBehaviour.cs:39 | the base behaviour never reports a change |
| NetworkBehaviours.NetworkBehaviour.ShouldParseSyncPacket | Packages/com.kitsymes.gtrp/Runtime/Scripts/NetworkBehaviour.cs:43 | a sync packet passes exactly when it is strictly newer than the last update |
| NetworkBehaviours.NetworkBehaviour.ParseSyncPacket | Packages/com.kitsymes.gtrp/Runtime/Scripts/NetworkBehaviour.cs:44 | parsing moves the last update to the packet's timestamp and returns 0 |
| NetworkBehaviours.NetworkBehaviour.CreateDynamicSyncPacket | Packages/com.kitsymes.gtrp/Runtime/Scripts/NetworkBehaviour.cs:40 | the packet names the owning object's network ID and this behaviour's ID |
| NetworkBehaviours.NetworkBehaviour.CreateFullSyncPacket | Packages/com.kitsymes.gtrp/Runtime/Scripts/NetworkBehaviour.cs:41 | the packet names the owning object's network ID and this behaviour's ID |
| NetworkBehaviours.NetworkBehaviour.Update | Packages/com.kitsymes.gtrp/Runtime/Scripts/NetworkBehaviour.cs:25-31 | nothing is queued for an unspawned object; a spawned one queues exactly one sync packet when a change is reported |
| NetworkBehaviours.AcceptedIncreasing | Packages/com.kitsymes.gtrp/Runtime/Scripts/NetworkBehaviour.cs:43-44 | the timestamps applied are strictly increasing and all later than the first last update |
| NetworkBehaviours.LastAfterBounds | Packages/com.kitsymes.gtrp/Runtime/Scripts/NetworkBehaviour.cs:43-44 | the last update never moves back and ends no earlier than any packet seen |
| NetworkBehaviours.NothingStaleAccepted | Packages/com.kitsymes.gtrp/Runtime/Scripts/NetworkBehaviour.cs:43-44 | packets stamped no later than the last update are never applied |
| NetworkBehaviours.ReplayRejected | Packages/com.kitsymes.gtrp/Runtime/Scripts/NetworkBehaviour.cs:43-44 | replaying packets that were already processed applies none of them |
| NetworkBehaviours.StubSyncNotInvertible | Packages/com.kitsymes.gtrp/Runtime/Scripts/Packets/PacketNetworkBehaviourSync.cs:23-31 | the serialization methods write and read nothing, so every behaviour sync but the all-default one comes back changed and falls outside the framing round trips |
| NetworkTransforms.Changes | Packages/com.kitsymes.gtrp/Runtime/Scripts/MonoBehaviours/NetworkTransform.cs:59-79 | a component is named in the sync exactly when its flag was pending or its value differs from the stored one; the sync carries the current values |
| NetworkTransforms.NetworkTransform.constructor | Packages/com.kitsymes.gtrp/Runtime/Scripts/MonoBehaviours/NetworkTransform.cs:9-17 | the stored values are the defaults, no flag is set and the last sync time is the minimum |
| NetworkTransforms.NetworkTransform.OnServerStart | Packages/com.kitsymes.gtrp/Runtime/Scripts/MonoBehaviours/NetworkTransform.cs:19-30 | the current values become the baseline, every flag is cleared and the last sync time is now |
| NetworkTransforms.NetworkTransform.OnPacketReceive | Packages/com.kitsymes.gtrp/Runtime/Scripts/MonoBehaviours/NetworkTransform.cs:32-50 | a packet that is not a transform sync, or that is not newer, changes nothing. A newer sync overwrites exactly the components it names and advances the last sync time to its own |
| NetworkTransforms.NetworkTransform.Update | Packages/com.kitsymes.gtrp/Runtime/Scripts/MonoBehaviours/NetworkTransform.cs:52-86 | nothing happens unless the object is spawned on the server. Otherwise the stored values catch up with the transform and every flag is clear. One sync is queued exactly when some component changed, and it names exactly the changed ones |
| NetworkTransforms.ChangesBringUpToDate | Packages/com.kitsymes.gtrp/Runtime/Scripts/MonoBehaviours/NetworkTransform.cs:58-79 | a receiver holding the baseline that applies the sync holds the new values; a frame with no change queues nothing |
| NetworkTransforms.ReceiverFollows | Packages/com.kitsymes.gtrp/Runtime/Scripts/MonoBehaviours/NetworkTransform.cs:32-86 | a receiver that starts from the server's baseline and applies every queued sync in order ends with the server's latest values |
| TransformSyncCodec.ConfigByte | Packages/com.kitsymes.gtrp/Runtime/Scripts/Packets/PacketNetworkTransformSync.cs:55-63 | bit 0 is set exactly for position, bit 1 for rotation and bit 2 for scale, and the byte is below 8 |
| TransformSyncCodec.Encode | Packages/com.kitsymes.gtrp/Runtime/Scripts/Packets/PacketNetworkTransformSync.cs:53-88 | the encoding always holds the config byte |
| TransformSyncCodec.EncodedNames | Packages/com.kitsymes.gtrp/Runtime/Scripts/Packets/PacketNetworkTransformSync.cs:67-87 | a component's three or four names are written exactly when it is flagged present, and no other names are written |
| TransformSyncCodec.EncodedValue | Packages/com.kitsymes.gtrp/Runtime/Scripts/Packets/PacketNetworkTransformSync.cs:65-87 | every name written carries the value of its component |
| TransformSyncCodec.EncodeOfPresent | Packages/com.kitsymes.gtrp/Runtime/Scripts/Packets/PacketNetworkTransformSync.cs:67-87 | the encoding depends only on the components flagged present |
| TransformSyncCodec.GetSingle | Packages/com.kitsymes.gtrp/Runtime/Scripts/Packets/PacketNetworkTransformSync.cs:32 | reading a name succeeds exactly when it holds a value stored as a float, and gives that float; any other stored value, or a missing name, fails |
| TransformSyncCodec.GetVector3 | Packages/com.kitsymes.gtrp/Runtime/Scripts/Packets/PacketNetworkTransformSync.cs:32-34 | a vector is read exactly when its three names are |
| TransformSyncCodec.GetQuaternion | Packages/com.kitsymes.gtrp/Runtime/Scripts/Packets/PacketNetworkTransformSync.cs:39-42 | a rotation is read exactly when its four names are |
| TransformSyncCodec.Components | Packages/com.kitsymes.gtrp/Runtime/Scripts/Packets/PacketNetworkTransformSync.cs:25-51 | decoding succeeds exactly when the config byte and the names of every flagged component are there; components not flagged keep their all-zero default |
| TransformSyncCodec.Decode | Packages/com.kitsymes.gtrp/Runtime/Scripts/Packets/PacketNetworkTransformSync.cs:25-51 | the constructor as written succeeds when the components can be read, and leaves every presence flag false |
| TransformSyncCodec.DecodeCorrected | Packages/com.kitsymes.gtrp/Runtime/Scripts/Packets/PacketNetworkTransformSync.cs:25-51 | the corrected constructor takes each presence flag from its config bit |
| TransformSyncCodec.DecodeReadsOnlyFlagged | Packages/com.kitsymes.gtrp/Runtime/Scripts/Packets/PacketNetworkTransformSync.cs:27-50 | names of components whose bit is clear are never read: two infos that agree on the config and the flagged names decode alike |
| TransformSyncCodec.MissingFlaggedNameThrows | Packages/com.kitsymes.gtrp/Runtime/Scripts/Packets/PacketNetworkTransformSync.cs:30-50 | a flagged component with a missing name makes decoding throw |
| TransformSyncCodec.RoundTrip | Packages/com.kitsymes.gtrp/Runtime/Scripts/Packets/PacketNetworkTransformSync.cs:25-88 | decoding an encoding restores exactly the components that were flagged present, with their flags |
| TransformSyncCodec.AsWrittenDropsFlags | Packages/com.kitsymes.gtrp/Runtime/Scripts/Packets/PacketNetworkTransformSync.cs:25-51 | the constructor as written restores the components sent but clears their flags |
| TransformSyncCodec.AsWrittenReencodesEmpty | Packages/com.kitsymes.gtrp/Runtime/Scripts/Packets/PacketNetworkTransformSync.cs:25-63 | a decoded packet, encoded again, is config 0 with no components |
| TransformSyncCodec.CorrectedReencodes | Packages/com.kitsymes.gtrp/Runtime/Scripts/Packets/PacketNetworkTransformSync.cs:25-88 | with the corrected constructor, decoding and encoding again gives the same encoding |
| TransformSyncCodec.FlaggedSyncNotInvertible | Packages/com.kitsymes.gtrp/Runtime/Scripts/Packets/PacketNetworkTransformSync.cs:25-51 | a formatter that goes through the constructor as written never gives back a sync with a component flagged, so such syncs fall outside the framing round trips |
| TransformSyncCodec.CorrectedSyncInvertible | Packages/com.kitsymes.gtrp/Runtime/Scripts/Packets/PacketNetworkTransformSync.cs:25-88 | through the corrected constructor, a sync whose unsent components are zero comes back as it was sent |
| HandlerRegistry.Register | Packages/com.kitsymes.gtrp/Runtime/Scripts/NetworkManager.cs:203-210 | registering appends the handler to its class's entry, or creates the entry; other classes' entries are untouched |
| HandlerRegistry.Dispatch | Packages/com.kitsymes.gtrp/Runtime/Scripts/NetworkManager.cs:212-216 | a class with no entry runs nothing; every handler run was registered for the packet's exact class |
| HandlerRegistry.DispatchAfterRegister | Packages/com.kitsymes.gtrp/Runtime/Scripts/NetworkManager.cs:203-216 | after a registration, packets of that class run the new handler last and packets of other classes run what they ran before |
| HandlerRegistry.DispatchAfterRegisterAll | Packages/com.kitsymes.gtrp/Runtime/Scripts/NetworkManager.cs:412-425 | after a series of registrations, packets of that class run the new handlers in registration order after the old ones |
| Dictionaries.Insert | Packages/com.kitsymes.gtrp/Runtime/Scripts/NetworkManager.cs:308 | storing under a new key enumerates it last; storing under a present key keeps the order |
| Dictionaries.Values | Packages/com.kitsymes.gtrp/Runtime/Scripts/NetworkManager.cs:78 | `Values` lists each key's value, in enumeration order |
| NetworkManagers.RegisterTyped | Packages/com.kitsymes.gtrp/Runtime/Scripts/NetworkManager.cs:412-419 | registering an `Action<T>` under `T` keeps every entry's handlers able to take that entry's packets |
| NetworkManagers.IssuedCounts | Packages/com.kitsymes.gtrp/Runtime/Scripts/NetworkManager.cs:308-310 | below 2^32 increments, the counter equals the number of increments since it was reset |
| NetworkManagers.IssuedIncreasing | Packages/com.kitsymes.gtrp/Runtime/Scripts/NetworkManager.cs:308-310 | the network IDs issued in one server session strictly increase, so none is reused before the counter wraps |
| NetworkManagers.ClientIDs | Packages/com.kitsymes.gtrp/Runtime/Scripts/NetworkManager.cs:150-153 | the n-th accepted connection gets ID n, never the server's ID 0 |
| NetworkManagers.IssuedWraps | Packages/com.kitsymes.gtrp/Runtime/Scripts/NetworkManager.cs:310 | after 2^32 spawns the counter is back at 0 |
| NetworkManagers.ConcatFrom | Packages/com.kitsymes.gtrp/Runtime/Scripts/NetworkManager.cs:78-83 | every packet drained comes from some object's queue, and empty queues drain nothing |
| NetworkManagers.EndPointsOf | Packages/com.kitsymes.gtrp/Runtime/Scripts/NetworkManager.cs:284-286 | each connection contributes its own UDP end point, in order |
| NetworkManagers.ToEachSends | Packages/com.kitsymes.gtrp/Runtime/Scripts/NetworkManager.cs:284-286 | one datagram per connection that announced an end point, each carrying the packet to an announced end point |
| NetworkManagers.DatagramsCount | Packages/com.kitsymes.gtrp/Runtime/Scripts/NetworkManager.cs:277-287 | a broadcast sends each packet once to every announced end point |
| NetworkManagers.DatagramsAddressed | Packages/com.kitsymes.gtrp/Runtime/Scripts/NetworkManager.cs:277-287 | every datagram carries one of the packets to an announced end point |
| NetworkManagers.NetworkManager.MadeForAnnounces | Packages/com.kitsymes.gtrp/Runtime/Scripts/NetworkManager.cs:441-447 | when the prefabs are numbered by position, the object a client makes for a spawn packet announces that same packet |
| NetworkManagers.NetworkManager.IsClientRunning | Packages/com.kitsymes.gtrp/Runtime/Scripts/NetworkManager.cs:406-409 | the client runs exactly when a local client exists and is running |
| NetworkManagers.NetworkManager.constructor | Packages/com.kitsymes.gtrp/Runtime/Scripts/NetworkManager.cs:21-42 | a new manager runs neither side and has no objects, connections or handlers |
| NetworkManagers.NetworkManager.SharedStart | Packages/com.kitsymes.gtrp/Runtime/Scripts/NetworkManager.cs:44-58 | the directory is emptied unless both sides are already running |
| NetworkManagers.NetworkManager.SharedStop | Packages/com.kitsymes.gtrp/Runtime/Scripts/NetworkManager.cs:60-70 | the directory is cleared once neither side is running, and kept otherwise |
| NetworkManagers.NetworkManager.ServerStart | Packages/com.kitsymes.gtrp/Runtime/Scripts/NetworkManager.cs:90-112 | starting a running server changes nothing. Otherwise both counters restart at 0 with no connections, and the directory is emptied unless a client runs in this process |
| NetworkManagers.NetworkManager.ServerStop | Packages/com.kitsymes.gtrp/Runtime/Scripts/NetworkManager.cs:114-135 | stopping a stopped server changes nothing. Otherwise every connection is closed, the connection table and client handler table are cleared, the server handler table is kept, and the directory is cleared unless a client runs |
| NetworkManagers.NetworkManager.StopClients | Packages/com.kitsymes.gtrp/Runtime/Scripts/NetworkManager.cs:120-123 | every connection's stream is closed and keeps what was written |
| NetworkManagers.NetworkManager.SendToClient | Packages/com.kitsymes.gtrp/Runtime/Scripts/NetworkManager.cs:228-247 | the connection receives the frames of all the packets, in order, and nothing for no packets |
| NetworkManagers.NetworkManager.SendTo | Packages/com.kitsymes.gtrp/Runtime/Scripts/NetworkManager.cs:218-227 | an unknown client ID sends nothing; a known one receives the frames and no other connection receives anything |
| NetworkManagers.NetworkManager.SendToAll | Packages/com.kitsymes.gtrp/Runtime/Scripts/NetworkManager.cs:249-269 | every connection receives the same frames of all the packets, in order; no packets send nothing |
| NetworkManagers.NetworkManager.WriteToAll | Packages/com.kitsymes.gtrp/Runtime/Scripts/NetworkManager.cs:267-268 | every connection receives the buffer once |
| NetworkManagers.NetworkManager.Buffer | Packages/com.kitsymes.gtrp/Runtime/Scripts/NetworkManager.cs:233-244 | the buffer holds, for each packet in turn, its length prefix and its serialized bytes |
| NetworkManagers.NetworkManager.Spawn | Packages/com.kitsymes.gtrp/Runtime/Scripts/NetworkManager.cs:294-329 | without a running server, or for an object already spawned, nothing changes. Otherwise the object is stored under the counter's value and spawned with that ID and owner 0. The counter advances by one and every connection is sent the object's spawn packet |
| NetworkManagers.NetworkManager.SpawnNew | Packages/com.kitsymes.gtrp/Runtime/Scripts/NetworkManager.cs:308-328 | an unspawned object is stored under the counter's value and spawned with owner 0; the counter advances and every connection hears of the object |
| NetworkManagers.NetworkManager.AddObject | Packages/com.kitsymes.gtrp/Runtime/Scripts/NetworkManager.cs:308-309 | the object is stored under its ID, enumerated last if the ID is new, and spawned with that ID and owner; the directory stays well formed |
| NetworkManagers.NetworkManager.AcceptClient | Packages/com.kitsymes.gtrp/Runtime/Scripts/NetworkManager.cs:144-177 | the counter is incremented before use and the connection has the new ID. It is added last, or the table is unchanged if the ID is taken. It is greeted with the spawn packet of every object in directory order, when there is one. As the constructor it calls drops the manager, the connection never forwards to it |
| NetworkManagers.NetworkManager.Greeting | Packages/com.kitsymes.gtrp/Runtime/Scripts/NetworkManager.cs:156-173 | the greeting holds each object's spawn packet, in directory order |
| NetworkManagers.NetworkManager.NewConnection | Packages/com.kitsymes.gtrp/Runtime/Scripts/NetworkManager.cs:151-153 | the counter is incremented and the connection made with that ID is added, unless the ID is taken; the connection is built by the constructor as written and holds no manager |
| NetworkManagers.NetworkManager.AddClient | Packages/com.kitsymes.gtrp/Runtime/Scripts/NetworkManager.cs:153 | a connection with a new ID is stored under it and enumerated last |
| NetworkManagers.NetworkManager.AnnouncesEachOnce | Packages/com.kitsymes.gtrp/Runtime/Scripts/NetworkManager.cs:154-174 | a new connection is told of every object in the directory exactly once, each under its own network ID |
| NetworkManagers.NetworkManager.Drain | Packages/com.kitsymes.gtrp/Runtime/Scripts/NetworkManager.cs:76-83 | the packets taken are every object's queues concatenated in directory order, and every queue ends empty |
| NetworkManagers.NetworkManager.DrainAll | Packages/com.kitsymes.gtrp/Runtime/Scripts/NetworkManager.cs:78-83 | each object's queues are taken in turn and then cleared |
| NetworkManagers.NetworkManager.Update | Packages/com.kitsymes.gtrp/Runtime/Scripts/NetworkManager.cs:72-87 | without a running server nothing changes. Otherwise every queue ends empty, every connection receives the frames of all drained TCP packets in directory order, and every drained UDP packet goes to each announced end point |
| NetworkManagers.NetworkManager.Tick | Packages/com.kitsymes.gtrp/Runtime/Scripts/NetworkManager.cs:74-86 | a tick on a running server drains every queue and sends what was drained |
| NetworkManagers.NetworkManager.Send | Packages/com.kitsymes.gtrp/Runtime/Scripts/NetworkManager.cs:84-85 | the TCP packets go to every connection as frames; the UDP packets are broadcast |
| NetworkManagers.NetworkManager.Broadcast | Packages/com.kitsymes.gtrp/Runtime/Scripts/NetworkManager.cs:271-292 | for each packet in turn, its serialized form goes to every connection that announced an end point |
| NetworkManagers.NetworkManager.SendToEach | Packages/com.kitsymes.gtrp/Runtime/Scripts/NetworkManager.cs:284-286 | one datagram per connection that announced an end point, in enumeration order |
| NetworkManagers.NetworkManager.RegisterServerPacketHandler | Packages/com.kitsymes.gtrp/Runtime/Scripts/NetworkManager.cs:203-210 | the handler is appended to its class's entry in the server table |
| NetworkManagers.NetworkManager.ServerPacketReceived | Packages/com.kitsymes.gtrp/Runtime/Scripts/NetworkManager.cs:212-216 | the handlers of the packet's exact class run; a class with no entry runs nothing |
| NetworkManagers.NetworkManager.RegisterClientPacketHandler | Packages/com.kitsymes.gtrp/Runtime/Scripts/NetworkManager.cs:412-419 | the handler is appended to its class's entry in the client table, which stays well typed |
| NetworkManagers.NetworkManager.ClientPacketSpawnObjectReceived | Packages/com.kitsymes.gtrp/Runtime/Scripts/NetworkManager.cs:429-448 | an object is created exactly when this process is not the server, the prefab exists and the ID is new. It is the prefab's instance, placed and spawned as the packet says and stored under the packet's ID; otherwise the directory is unchanged |
| NetworkManagers.NetworkManager.ClientPacketTargetedReceived | Packages/com.kitsymes.gtrp/Runtime/Scripts/NetworkManager.cs:450-462 | a targeted packet reaches no object when hosting or when its target is unknown, and otherwise only the directory's object for its target |
| NetworkManagers.NetworkManager.Invoke | Packages/com.kitsymes.gtrp/Runtime/Scripts/NetworkManager.cs:423-424 | one handler runs: the spawn handler may add the packet's object, the targeted handler routes the packet, and no other handler touches the directory |
| NetworkManagers.NetworkManager.ClientPacketReceived | Packages/com.kitsymes.gtrp/Runtime/Scripts/NetworkManager.cs:421-425 | exactly the handlers of the packet's class run, in order. The directory changes only when an accepted spawn packet reaches the spawn handler, which then adds exactly that object |
| NetworkManagers.NetworkManager.ClientStart | Packages/com.kitsymes.gtrp/Runtime/Scripts/NetworkManager.cs:371-390 | an existing client makes it fail with nothing changed, and a failed connection leaves no client. On success the client runs, has sent its connect packet, and the spawn and targeted handlers are registered |
| NetworkManagers.NetworkManager.FinishClientStart | Packages/com.kitsymes.gtrp/Runtime/Scripts/NetworkManager.cs:387-389 | the spawn handler and then the targeted handler are registered, and the directory starts empty unless both sides run |
| NetworkManagers.NetworkManager.ClientStop | Packages/com.kitsymes.gtrp/Runtime/Scripts/NetworkManager.cs:392-404 | a running client is stopped and dropped, the client handler table is cleared and the directory is cleared unless the server runs; otherwise nothing changes |
| NetworkManagers.NetworkManager.SetOfflineScene | Packages/com.kitsymes.gtrp/Runtime/Scripts/NetworkManager.cs:466-471 | the scene name changes only while neither side runs |
| NetworkManagers.NetworkManager.SetOnlineScene | Packages/com.kitsymes.gtrp/Runtime/Scripts/NetworkManager.cs:473-478 | the scene name changes only while neither side runs |
| NetworkManagers.NetworkManager.SetSpawnableObjects | Packages/com.kitsymes.gtrp/Runtime/Scripts/NetworkManager.cs:480-485 | the prefab list changes only while neither side runs |
| NetworkServers.IssuedI32Counts | Packages/com.kitsymes.gtrp/Runtime/Scripts/NetworkServer.cs:112-114 | up to 2^31 - 1 connections, the n-th connection gets ID n |
| NetworkServers.IssuedI32Wraps | Packages/com.kitsymes.gtrp/Runtime/Scripts/NetworkServer.cs:112 | the connection after that gets the negative ID -2^31 |
| NetworkServers.RepeatedStartsStack | Packages/com.kitsymes.gtrp/Runtime/Scripts/NetworkServer.cs:162-178 | each client start that finds no client adds one more `TestPacketMethod`, so after n starts a spawn packet runs it n more times |
| NetworkServers.Connection.constructor | Packages/com.kitsymes.gtrp/Runtime/Scripts/NetworkServer.cs:113 | a connection keeps its ID and stream |
| NetworkServers.Connection.SendTCP | Packages/com.kitsymes.gtrp/Runtime/Scripts/NetworkServer.cs:116-117 | sending a packet appends exactly its frame |
| NetworkServers.Connection.Stop | Packages/com.kitsymes.gtrp/Runtime/Scripts/NetworkServer.cs:85 | stopping closes the stream and keeps what was written |
| NetworkServers.NetworkServer.IsClientRunning | Packages/com.kitsymes.gtrp/Runtime/Scripts/NetworkServer.cs:192-195 | the client runs exactly when a local client exists and is running |
| NetworkServers.NetworkServer.constructor | Packages/com.kitsymes.gtrp/Runtime/Scripts/NetworkServer.cs:16-32 | a new component runs nothing and has no connections or handlers |
| NetworkServers.NetworkServer.ServerStart | Packages/com.kitsymes.gtrp/Runtime/Scripts/NetworkServer.cs:57-75 | starting a running server changes nothing; otherwise the counter restarts at 0 with no connections |
| NetworkServers.NetworkServer.ServerStop | Packages/com.kitsymes.gtrp/Runtime/Scripts/NetworkServer.cs:77-95 | stopping a stopped server changes nothing. Otherwise every connection is closed and the connection and client handler tables are cleared; the server handler table is kept |
| NetworkServers.NetworkServer.StopAll | Packages/com.kitsymes.gtrp/Runtime/Scripts/NetworkServer.cs:83-86 | every connection's stream is closed and keeps what was written |
| NetworkServers.NetworkServer.AcceptClient | Packages/com.kitsymes.gtrp/Runtime/Scripts/NetworkServer.cs:102-124 | the counter is pre-incremented and the connection added under it, unless the ID is taken; an added connection is sent a default spawn packet and then a despawn packet |
| NetworkServers.NetworkServer.NewConnection | Packages/com.kitsymes.gtrp/Runtime/Scripts/NetworkServer.cs:112-114 | the counter is incremented and the connection made with that ID is added last, unless the ID is taken |
| NetworkServers.NetworkServer.RegisterServerPacketHandler | Packages/com.kitsymes.gtrp/Runtime/Scripts/NetworkServer.cs:145-152 | the handler is appended to its class's entry, or creates it |
| NetworkServers.NetworkServer.ServerPacketReceived | Packages/com.kitsymes.gtrp/Runtime/Scripts/NetworkServer.cs:154-158 | the handlers of the packet's exact class run; a class with no entry runs nothing |
| NetworkServers.NetworkServer.ClientStart | Packages/com.kitsymes.gtrp/Runtime/Scripts/NetworkServer.cs:162-178 | with a client object present nothing changes. Otherwise the connection succeeds exactly when the address parses and the server is reachable; a failure leaves no client; either way `TestPacketMethod` is registered for spawn packets |
| NetworkServers.NetworkServer.ClientStop | Packages/com.kitsymes.gtrp/Runtime/Scripts/NetworkServer.cs:180-190 | a running client is stopped and dropped and the client handler table cleared; otherwise nothing changes |
| NetworkServers.NetworkServer.RegisterClientPacketHandler | Packages/com.kitsymes.gtrp/Runtime/Scripts/NetworkServer.cs:198-205 | the handler is appended to its class's entry, or creates it |
| NetworkServers.NetworkServer.ClientPacketReceived | Packages/com.kitsymes.gtrp/Runtime/Scripts/NetworkServer.cs:207-211 | the handlers of the packet's exact class run; a class with no entry runs nothing |

## Left out

- Sockets are not modelled: `TcpListener`, `TcpClient.ConnectAsync`, `UdpClient`, `FlushAsync` and the ports. A stream is a sequence of arrivals, and the datagrams sent are returned as values.
- `async` scheduling and the `SemaphoreSlim` write locks are not modelled. Each receive loop runs to its end over the traffic it is given, and each pass of an accept loop is one call. Their point is concurrency, which the model does not capture.
- Only one pass of the accept loops (`AcceptTCPClients`) is modelled, as `AcceptClient`. Waiting for connections and the `ObjectDisposedException` that ends the loop are I/O.
- `UdpListen` in both server classes is not modelled: it discards every datagram it receives.
- `LocalClient.ReceiveUdp` is not modelled. Each datagram it receives is one `ClientPacketReceived` call, and that is modelled.
- `BinaryFormatter` is not modelled: serialization and deserialization are function parameters. The padding that `MemoryStream.GetBuffer` may add is part of the serialized bytes.
- `PacketRegister.cs` and the `Packet` constructor are not modelled. They derive packet IDs from an MD5 hash of reflected type names.
- Floats are opaque bit patterns compared exactly. Unity's approximate `==` on `Vector3` and `Quaternion` is not modelled.
- Unity glue is not modelled: `SceneManager.LoadScene`, `ExecuteEvents`, `SetActive`, `DontDestroyOnLoad`, `Awake` singletons and `Debug.Log`.
- `Instantiate` is modelled as a new object carrying the prefab's ID and a new transform. The rest of a cloned prefab is not modelled.
- The static `_instance`, `NetworkManager.Spawn(GameObject)` and `NetworkManager.IsServer()` are not modelled. They read process-wide state, and `IsServer()` is a parameter of `NetworkTransform.Update`.
- `OnServerStart` events sent by `Spawn` are not modelled: `NetworkTransform.OnServerStart` is modelled on its own.
- The MonoBehaviour wrappers, `NetworkGUI.cs`, the trivial `MonoBehaviours/NetworkBehaviour.cs` and the demo scripts are not modelled. The `dataList` and `data` fields of `PacketNetworkBehaviourSync` are not modelled either; its empty serialization methods are, by `NetworkBehaviours.STUB_DECODED`.
- `NetworkObject.Start` and `NetworkObject.OnDestroy` are not modelled: they call `SetActive` and `NetworkManager.Despawn`, and `Despawn` is not defined in these files.
- Fields that C# leaves null before `ServerStart` or `SharedStart` start out empty in the model. A C# call that would throw `NullReferenceException` on them (such as `SendTo` before `ServerStart`) sends nothing in the model instead. `_spawnableObjects == null` becomes the empty list.
- `_formatter = null` in `ServerStop` is not modelled. A `SendToAll` with packets after a stop would throw in C#; the model serializes with its parameter.
- `new byte[bufferSize]` for a size of 2^31 or more ends the receive loops as an uncaught exception (`Crashed`). The exact exception is not modelled.
- NetworkManagers.NetworkManager.ClientPacketSpawnObjectReceived: the object made is a new one carrying the prefab's ID, placed as the packet says, not a full clone of the prefab, because `Instantiate` is Unity code.
- NetworkManagers.NetworkManager.ClientPacketReceived: application handlers are recorded by name; what they do is not modelled.
- NetworkManagers.NetworkManager.ClientPacketTargetedReceived: returns the target object instead of calling `OnPacketReceive` on each of its components; `NetworkTransform.OnPacketReceive` is modelled on its own.
- NetworkTransforms.NetworkTransform.Update: the time stamped on the queued sync is a parameter, because the 4-argument sync packet's constructor is not in these files.
- NetworkServers.NetworkServer.ClientStart: the client's connect packet and socket are those of `LocalClients.LocalClient`, because the 2-argument `LocalClient` constructor it calls is not in these files.
- The framing round trips (`TcpStreams.ReadFrameOfFrames`, `InternalClient.ReadWhatWasWritten`, `Clients.ReceiveFrames`, `ServerSideClients.ReceiveFrames`, `LocalClients.DeliverFrames`, `LocalClients.ServerClosesAfterFrames`) assume that the formatter gives back each packet as it was sent (`Wire.Invertible`). As written, that fails for every transform sync with a component flagged (`TransformSyncCodec.FlaggedSyncNotInvertible`). It also fails for every behaviour sync but the all-default one (`NetworkBehaviours.StubSyncNotInvertible`). For those packets the lemmas say nothing.
- TransformSyncCodec.GetSingle: `SerializationInfo.GetSingle` and `GetByte` convert a value stored as another primitive type through the formatter converter. The model fails such a read instead: a byte under a component name, or a float under "config", makes decoding fail. `Encode` never writes such an info, so only infos from another encoder are affected.
- TcpStreams.NetworkStream.WriteAsync: a write on a closed stream sends nothing. In C# it raises ObjectDisposedException inside the `async void` sender, which the model does not propagate.
- Dictionaries.Insert: enumeration order is taken to be insertion order. .NET does not promise this for a `Dictionary`, but it holds while no key is removed.

## Findings

| source | as written | input that shows it | evidently intended | confidence | as-written member | corrected member |
|---|---|---|---|---|---|---|
| Packages/com.kitsymes.gtrp/Runtime/Scripts/Client.cs:27-37 | the constructor never assigns `_networkManager`, so the receive loop calls `ServerPacketReceived` on null | a connection whose first whole frame holds any packet other than a connect packet: the loop ends with an uncaught exception and nothing reaches the manager | store the manager given to the constructor, so that every non-connect packet is forwarded in order | not executed | Clients.AsWrittenForwardsNothing | Clients.ReceiveFrames |
| Packages/com.kitsymes.gtrp/Runtime/Scripts/ServerSideClient.cs:24-33 | the constructor never assigns `_networkManager`, so the receive loop calls `ServerPacketReceived` on null | a connection whose first whole frame holds any packet other than a connect packet: the loop ends with an uncaught exception and nothing reaches the manager | store the manager given to the constructor, so that every non-connect packet is forwarded in order | not executed | ServerSideClients.AsWrittenForwardsNothing | ServerSideClients.ReceiveFrames |
| Packages/com.kitsymes.gtrp/Runtime/Scripts/Packets/PacketNetworkTransformSync.cs:25-51 | the deserialization constructor reads the components whose config bit is set but never sets `_containsPosition`, `_containsRotation` or `_containsScale` | a sync with only position present: it decodes with every flag false, and re-encoding it writes config 0 and no components | set each flag from its config bit, so that decoding an encoding restores the packet as sent | not executed | TransformSyncCodec.AsWrittenReencodesEmpty | TransformSyncCodec.RoundTrip |

The connection constructors `Clients.Client.Corrected` and
`ServerSideClients.ServerSideClient.Corrected` store the manager. The
manager's `NewConnection` keeps the constructor as written, as
`NetworkManager.cs:152` calls it. So its `ensures` state that an accepted
connection holds no manager, and by `Clients.Receive` such a connection forwards
nothing. `TransformSyncCodec.DecodeCorrected`
is the corrected deserialization constructor. `NetworkTransform.OnPacketReceive`
receives sync packets with their flags as sent.
