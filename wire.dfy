/** Values shared by every part of the replication engine: fixed-width integers,
    opaque Unity value types, the packet kinds the core handles, and the
    4-byte length prefix of the reliable channel. */
module Wire {

  type byte = b: int | 0 <= b < 256

  /** A C# `uint`. */
  type u32 = n: int | 0 <= n < 0x1_0000_0000
  const MAX_U32: u32 := 0xFFFF_FFFF

  /** A C# `int`. */
  type i32 = n: int | -0x8000_0000 <= n < 0x8000_0000
  const MAX_I32: i32 := 0x7FFF_FFFF

  /** A .NET `byte[]`: its `Length` is a non-negative `int`. */
  const ARRAY_LIMIT: int := 0x8000_0000
  type ByteArray = s: seq<byte> | |s| < 0x8000_0000

  /** `x++` on a `uint` in an unchecked context: wraps from 2^32-1 to 0. */
  function IncU32(x: u32): (r: u32)
    ensures r as int == (x as int + 1) % 0x1_0000_0000
  {
    if x == MAX_U32 then 0 else x + 1
  }

  /** `x++` on an `int` in an unchecked context: wraps from 2^31-1 to -2^31. */
  function IncI32(x: i32): (r: i32)
    ensures x < MAX_I32 ==> r == x + 1
    ensures x == MAX_I32 ==> r == -0x8000_0000
  {
    if x == MAX_I32 then -0x8000_0000 else x + 1
  }

  datatype Option<T> = None | Some(value: T)

  /** A `float`: only its bit pattern, compared for equality. */
  datatype Single = Single(bits: bv32)
  const ZERO: Single := Single(0)

  datatype Vector3 = Vector3(x: Single, y: Single, z: Single)
  datatype Quaternion = Quaternion(x: Single, y: Single, z: Single, w: Single)
  const ZERO_VECTOR: Vector3 := Vector3(ZERO, ZERO, ZERO)
  /** `default(Quaternion)`: all four components zero (not the identity). */
  const ZERO_QUATERNION: Quaternion := Quaternion(ZERO, ZERO, ZERO, ZERO)

  /** A `DateTime`, by its tick count; `CompareTo` compares ticks. */
  type Timestamp = int
  /** `default(DateTime)`, that is `DateTime.MinValue`. */
  const MIN_TIMESTAMP: Timestamp := 0

  datatype IPEndPoint = IPEndPoint(address: seq<byte>, port: int)

  /** A `System.Net.EndPoint` reference: null, an `IPEndPoint`, or some other subclass. */
  datatype EndPoint = NullEndPoint | IP(ip: IPEndPoint) | OtherEndPoint(family: int)

  /** What a `PacketConnectReceived` stores: the announced end point when it is an
      `IPEndPoint`, otherwise the previously stored one is kept. */
  function AcceptEndPoint(stored: Option<IPEndPoint>, announced: EndPoint): (r: Option<IPEndPoint>)
    ensures announced.IP? ==> r == Some(announced.ip)
    ensures !announced.IP? ==> r == stored
  {
    match announced
    case IP(ip) => Some(ip)
    case _ => stored
  }

  /** The presence flags and components of a `PacketNetworkTransformSync`. */
  datatype TransformSyncBody = TransformSyncBody(
    containsPosition: bool, containsRotation: bool, containsScale: bool,
    position: Vector3, rotation: Quaternion, localScale: Vector3)

  /** The packet classes the core reads or writes. `Other` stands for any other
      registered packet class, identified by a number. */
  datatype Packet =
    | SpawnObject(prefabID: u32, objectNetworkID: u32, ownerNetworkID: u32,
                  position: Vector3, rotation: Quaternion, localScale: Vector3)
    | DespawnObject
    | Connect(udpEndPoint: EndPoint)
    | NetworkTransformSync(target: u32, timestamp: Timestamp, body: TransformSyncBody)
    | NetworkBehaviourSync(networkObjectID: u32, networkBehaviourID: u32, timestamp: Timestamp)
    | Other(kind: nat)

  /** The runtime type of a packet, as `packet.GetType()` returns it. */
  datatype PacketType =
    | SpawnObjectType | DespawnObjectType | ConnectType
    | NetworkTransformSyncType | NetworkBehaviourSyncType | OtherType(kind: nat)

  function TypeOf(p: Packet): (t: PacketType)
    ensures p.Other? <==> t.OtherType?
  {
    match p
    case SpawnObject(_, _, _, _, _, _) => SpawnObjectType
    case DespawnObject => DespawnObjectType
    case Connect(_) => ConnectType
    case NetworkTransformSync(_, _, _) => NetworkTransformSyncType
    case NetworkBehaviourSync(_, _, _) => NetworkBehaviourSyncType
    case Other(k) => OtherType(k)
  }

  /** A packet of a subclass of `PacketTargeted`, which names a target object. */
  predicate IsTargeted(p: Packet) {
    p.NetworkTransformSync?
  }

  /** `new PacketSpawnObject()`: every field at its default. */
  const DEFAULT_SPAWN: Packet :=
    SpawnObject(0, 0, 0, ZERO_VECTOR, ZERO_QUATERNION, ZERO_VECTOR)

  /** What `BinaryFormatter.Deserialize(ms) as Packet` yields: a packet, an object
      that is not a packet (so the cast gives null), or an exception. */
  datatype Deserialized = IsPacket(packet: Packet) | NotAPacket | Malformed

  /** `BinaryFormatter.Serialize` followed by `MemoryStream.GetBuffer`. */
  type Serializer = Packet -> ByteArray
  type Deserializer = seq<byte> -> Deserialized

  /** A serializer and deserializer that agree on the packets `ps`, the serialized
      form never being empty. */
  ghost predicate Invertible(serialize: Serializer, deserialize: Deserializer, ps: seq<Packet>) {
    forall p | p in ps :: |serialize(p)| > 0 && deserialize(serialize(p)) == IsPacket(p)
  }

  // ---------------------------------------------------------------------------
  // BitConverter on a little-endian host

  /** `BitConverter.GetBytes(uint)`. */
  function GetBytes(n: u32): (r: seq<byte>)
    ensures |r| == 4
  {
    var n1 := n / 256;
    var n2 := n1 / 256;
    [n % 256, n1 % 256, n2 % 256, n2 / 256]
  }

  /** `BitConverter.ToUInt32(byte[])` of a 4-byte buffer. */
  function ToUInt32(b: seq<byte>): (n: u32)
    requires |b| == 4
  {
    b[0] as int + 256 * (b[1] as int + 256 * (b[2] as int + 256 * b[3] as int))
  }

  lemma ToUInt32OfGetBytes(n: u32)
    ensures ToUInt32(GetBytes(n)) == n
  {
    var n1 := n / 256;
    var n2 := n1 / 256;
    assert n == n % 256 + 256 * n1;
    assert n1 == n1 % 256 + 256 * n2;
    assert n2 == n2 % 256 + 256 * (n2 / 256);
  }

  lemma GetBytesOfToUInt32(b: seq<byte>)
    requires |b| == 4
    ensures GetBytes(ToUInt32(b)) == b
  {
    var n := ToUInt32(b);
    var n1: int := b[1] as int + 256 * (b[2] as int + 256 * b[3] as int);
    var n2: int := b[2] as int + 256 * b[3] as int;
    assert n / 256 == n1 && n % 256 == b[0];
    assert n1 / 256 == n2 && n1 % 256 == b[1];
    assert n2 / 256 == b[3] && n2 % 256 == b[2];
  }

  // ---------------------------------------------------------------------------
  // Length-prefixed frames of the reliable channel

  /** `GetBytes((uint)buffer.Length)` followed by `buffer`. */
  function Frame(payload: ByteArray): (f: seq<byte>)
    ensures |f| == 4 + |payload|
    ensures f[..4] == GetBytes(|payload|) && f[4..] == payload
  {
    GetBytes(|payload|) + payload
  }

  /** The frames of `packets`, in order, concatenated. */
  function Frames(serialize: Serializer, packets: seq<Packet>): seq<byte>
  {
    if packets == [] then []
    else Frame(serialize(packets[0])) + Frames(serialize, packets[1..])
  }

  lemma {:induction false} FramesAppend(serialize: Serializer, ps: seq<Packet>, p: Packet)
    ensures Frames(serialize, ps + [p]) == Frames(serialize, ps) + Frame(serialize(p))
  {
    if ps == [] {
      assert [p][1..] == [];
    } else {
      assert (ps + [p])[1..] == ps[1..] + [p];
      FramesAppend(serialize, ps[1..], p);
    }
  }

  /** Each packet contributes its 4-byte prefix and its serialized bytes. */
  lemma {:induction false} FramesLength(serialize: Serializer, ps: seq<Packet>)
    ensures |Frames(serialize, ps)| == 4 * |ps| + SerializedLength(serialize, ps)
  {
    if ps != [] {
      FramesLength(serialize, ps[1..]);
    }
  }

  function SerializedLength(serialize: Serializer, ps: seq<Packet>): nat {
    if ps == [] then 0 else |serialize(ps[0])| + SerializedLength(serialize, ps[1..])
  }
}
