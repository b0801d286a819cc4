/** The custom serialization of a transform-sync packet: a config byte whose
    low three bits say which components follow, then the components' floats
    under one key each. */
module TransformSyncCodec {
  import opened Wire

  /** A value stored in a `SerializationInfo`: `AddValue(string, byte)` or
      `AddValue(string, float)`. */
  datatype InfoValue = ByteValue(b: bv8) | SingleValue(s: Single)

  /** The names the packet uses: "config", "position.x" to "position.z",
      "rotation.x" to "rotation.w", "localScale.x" to "localScale.z"; any other
      name an info may hold is `OtherName`. */
  datatype Key =
    | Config
    | PositionX | PositionY | PositionZ
    | RotationX | RotationY | RotationZ | RotationW
    | LocalScaleX | LocalScaleY | LocalScaleZ
    | OtherName(name: string)

  /** A `SerializationInfo`: names to values. */
  type SerializationInfo = map<Key, InfoValue>

  predicate PositionKey(k: Key) { k == PositionX || k == PositionY || k == PositionZ }
  predicate RotationKey(k: Key) { k == RotationX || k == RotationY || k == RotationZ || k == RotationW }
  predicate ScaleKey(k: Key) { k == LocalScaleX || k == LocalScaleY || k == LocalScaleZ }

  const PACKET_KEYS: set<Key> := {Config, PositionX, PositionY, PositionZ,
                                  RotationX, RotationY, RotationZ, RotationW,
                                  LocalScaleX, LocalScaleY, LocalScaleZ}

  const POSITION_BIT: bv8 := 0
  const ROTATION_BIT: bv8 := 1
  const SCALE_BIT: bv8 := 2

  /** `((config >> bit) & 1) != 0`. */
  predicate Bit(config: bv8, bit: bv8)
    requires bit < 8
  {
    (config >> bit) & 1 != 0
  }

  // ---------------------------------------------------------------------------
  // GetObjectData

  /** The config byte: bit 0 for position, bit 1 for rotation, bit 2 for scale. */
  function ConfigByte(b: TransformSyncBody): (c: bv8)
    ensures Bit(c, POSITION_BIT) <==> b.containsPosition
    ensures Bit(c, ROTATION_BIT) <==> b.containsRotation
    ensures Bit(c, SCALE_BIT) <==> b.containsScale
    ensures c < 8
  {
    var c0: bv8 := 0;
    var c1 := if b.containsPosition then c0 | (1 << 0) else c0;
    var c2 := if b.containsRotation then c1 | (1 << 1) else c1;
    if b.containsScale then c2 | (1 << 2) else c2
  }

  /** Whether `GetObjectData` adds the name `k` for `b`. */
  predicate Written(b: TransformSyncBody, k: Key) {
    || k == Config
    || (PositionKey(k) && b.containsPosition)
    || (RotationKey(k) && b.containsRotation)
    || (ScaleKey(k) && b.containsScale)
  }

  /** The value `GetObjectData` adds under `k`. */
  function Value(b: TransformSyncBody, k: Key): InfoValue {
    match k
    case Config => ByteValue(ConfigByte(b))
    case PositionX => SingleValue(b.position.x)
    case PositionY => SingleValue(b.position.y)
    case PositionZ => SingleValue(b.position.z)
    case RotationX => SingleValue(b.rotation.x)
    case RotationY => SingleValue(b.rotation.y)
    case RotationZ => SingleValue(b.rotation.z)
    case RotationW => SingleValue(b.rotation.w)
    case LocalScaleX => SingleValue(b.localScale.x)
    case LocalScaleY => SingleValue(b.localScale.y)
    case LocalScaleZ => SingleValue(b.localScale.z)
    case OtherName(_) => ByteValue(0)
  }

  /** What `GetObjectData` adds to an empty `SerializationInfo`: the config
      byte, and the names of exactly the components flagged present. */
  function Encode(b: TransformSyncBody): (info: SerializationInfo)
    ensures Config in info && info[Config] == ByteValue(ConfigByte(b))
  {
    map k | k in PACKET_KEYS && Written(b, k) :: Value(b, k)
  }

  /** A component's names are added exactly when it is flagged present, and no
      other names are added. */
  lemma EncodedNames(b: TransformSyncBody)
    ensures forall k | PositionKey(k) :: k in Encode(b) <==> b.containsPosition
    ensures forall k | RotationKey(k) :: k in Encode(b) <==> b.containsRotation
    ensures forall k | ScaleKey(k) :: k in Encode(b) <==> b.containsScale
    ensures forall k | k in Encode(b) :: k == Config || PositionKey(k) || RotationKey(k) || ScaleKey(k)
  {
  }

  // ---------------------------------------------------------------------------
  // The deserialization constructor

  /** `info.GetSingle(key)`: a missing name raises SerializationException. */
  function GetSingle(info: SerializationInfo, key: Key): (r: Option<Single>)
    ensures r.Some? <==> key in info && info[key].SingleValue?
    ensures r.Some? ==> info[key] == SingleValue(r.value)
  {
    if key in info && info[key].SingleValue? then Some(info[key].s) else None
  }

  function GetVector3(info: SerializationInfo, kx: Key, ky: Key, kz: Key): (r: Option<Vector3>)
    ensures r.Some? <==> GetSingle(info, kx).Some? && GetSingle(info, ky).Some? && GetSingle(info, kz).Some?
  {
    var x, y, z := GetSingle(info, kx), GetSingle(info, ky), GetSingle(info, kz);
    if x.Some? && y.Some? && z.Some? then Some(Vector3(x.value, y.value, z.value)) else None
  }

  function GetQuaternion(info: SerializationInfo, kx: Key, ky: Key, kz: Key, kw: Key): (r: Option<Quaternion>)
    ensures r.Some? <==> GetSingle(info, kx).Some? && GetSingle(info, ky).Some?
                         && GetSingle(info, kz).Some? && GetSingle(info, kw).Some?
  {
    var x, y, z, w := GetSingle(info, kx), GetSingle(info, ky), GetSingle(info, kz), GetSingle(info, kw);
    if x.Some? && y.Some? && z.Some? && w.Some? then Some(Quaternion(x.value, y.value, z.value, w.value))
    else None
  }

  function GetPosition(info: SerializationInfo): Option<Vector3> {
    GetVector3(info, PositionX, PositionY, PositionZ)
  }

  function GetRotation(info: SerializationInfo): Option<Quaternion> {
    GetQuaternion(info, RotationX, RotationY, RotationZ, RotationW)
  }

  function GetScale(info: SerializationInfo): Option<Vector3> {
    GetVector3(info, LocalScaleX, LocalScaleY, LocalScaleZ)
  }

  /** The components the constructor reads: each one whose bit is set is read
      from its keys, the others keep their default of all zeros. `None` is the
      SerializationException of a missing name. */
  function Components(info: SerializationInfo): (r: Option<(bv8, Vector3, Quaternion, Vector3)>)
    ensures r.Some? <==>
              Config in info && info[Config].ByteValue?
              && (Bit(info[Config].b, POSITION_BIT) ==> GetPosition(info).Some?)
              && (Bit(info[Config].b, ROTATION_BIT) ==> GetRotation(info).Some?)
              && (Bit(info[Config].b, SCALE_BIT) ==> GetScale(info).Some?)
    ensures r.Some? ==> r.value.0 == info[Config].b
    ensures r.Some? && !Bit(r.value.0, POSITION_BIT) ==> r.value.1 == ZERO_VECTOR
    ensures r.Some? && !Bit(r.value.0, ROTATION_BIT) ==> r.value.2 == ZERO_QUATERNION
    ensures r.Some? && !Bit(r.value.0, SCALE_BIT) ==> r.value.3 == ZERO_VECTOR
  {
    if Config !in info || !info[Config].ByteValue? then None
    else
      var config := info[Config].b;
      var position := if Bit(config, POSITION_BIT) then GetPosition(info) else Some(ZERO_VECTOR);
      var rotation := if Bit(config, ROTATION_BIT) then GetRotation(info) else Some(ZERO_QUATERNION);
      var scale := if Bit(config, SCALE_BIT) then GetScale(info) else Some(ZERO_VECTOR);
      if position.Some? && rotation.Some? && scale.Some? then
        Some((config, position.value, rotation.value, scale.value))
      else None
  }

  /** The deserialization constructor as written: it never assigns the
      `_contains*` flags, so they keep their default, false. */
  function Decode(info: SerializationInfo): (r: Option<TransformSyncBody>)
    ensures r.Some? <==> Components(info).Some?
    ensures r.Some? ==> !r.value.containsPosition && !r.value.containsRotation && !r.value.containsScale
  {
    match Components(info)
    case None => None
    case Some((_, position, rotation, scale)) =>
      Some(TransformSyncBody(false, false, false, position, rotation, scale))
  }

  /** The deserialization constructor with the flags taken from the config
      bits, as `GetObjectData` set them. */
  function DecodeCorrected(info: SerializationInfo): (r: Option<TransformSyncBody>)
    ensures r.Some? <==> Components(info).Some?
    ensures r.Some? ==> r.value.containsPosition == Bit(info[Config].b, POSITION_BIT)
                        && r.value.containsRotation == Bit(info[Config].b, ROTATION_BIT)
                        && r.value.containsScale == Bit(info[Config].b, SCALE_BIT)
  {
    match Components(info)
    case None => None
    case Some((config, position, rotation, scale)) =>
      Some(TransformSyncBody(Bit(config, POSITION_BIT), Bit(config, ROTATION_BIT), Bit(config, SCALE_BIT),
                             position, rotation, scale))
  }

  // ---------------------------------------------------------------------------
  // Properties

  /** `b` as a receiver sees it: the components not sent are all zeros. */
  function Present(b: TransformSyncBody): TransformSyncBody {
    TransformSyncBody(b.containsPosition, b.containsRotation, b.containsScale,
                      if b.containsPosition then b.position else ZERO_VECTOR,
                      if b.containsRotation then b.rotation else ZERO_QUATERNION,
                      if b.containsScale then b.localScale else ZERO_VECTOR)
  }

  /** Names a bit-gated read looks at: the config key and the keys of every
      component whose bit is set. */
  ghost predicate AgreeOnRead(info: SerializationInfo, other: SerializationInfo)
    requires Config in info && info[Config].ByteValue?
  {
    && Config in other && other[Config] == info[Config]
    && (Bit(info[Config].b, POSITION_BIT) ==> forall k | PositionKey(k) :: GetSingle(info, k) == GetSingle(other, k))
    && (Bit(info[Config].b, ROTATION_BIT) ==> forall k | RotationKey(k) :: GetSingle(info, k) == GetSingle(other, k))
    && (Bit(info[Config].b, SCALE_BIT) ==> forall k | ScaleKey(k) :: GetSingle(info, k) == GetSingle(other, k))
  }

  /** A component's names are read only when its bit is set: whatever else the
      info holds does not change the result. */
  lemma DecodeReadsOnlyFlagged(info: SerializationInfo, other: SerializationInfo)
    requires Config in info && info[Config].ByteValue? && AgreeOnRead(info, other)
    ensures Components(info) == Components(other)
    ensures Decode(info) == Decode(other) && DecodeCorrected(info) == DecodeCorrected(other)
  {
    var config := info[Config].b;
    if Bit(config, POSITION_BIT) {
      assert GetPosition(info) == GetPosition(other);
    }
    if Bit(config, ROTATION_BIT) {
      assert GetRotation(info) == GetRotation(other);
    }
    if Bit(config, SCALE_BIT) {
      assert GetScale(info) == GetScale(other);
    }
  }

  /** A set bit whose names are missing makes the constructor throw. */
  lemma MissingFlaggedNameThrows(info: SerializationInfo, k: Key)
    requires Config in info && info[Config].ByteValue? && k !in info
    requires (PositionKey(k) && Bit(info[Config].b, POSITION_BIT))
             || (RotationKey(k) && Bit(info[Config].b, ROTATION_BIT))
             || (ScaleKey(k) && Bit(info[Config].b, SCALE_BIT))
    ensures Decode(info).None? && DecodeCorrected(info).None?
  {
    assert GetSingle(info, k).None?;
  }

  /** Every name `GetObjectData` adds carries the value of its component. */
  lemma EncodedValue(b: TransformSyncBody, k: Key)
    requires k in Encode(b)
    ensures Encode(b)[k] == Value(b, k)
  {
  }

  /** Encoding sees only the components flagged present. */
  lemma {:induction false} EncodeOfPresent(b: TransformSyncBody)
    ensures Encode(Present(b)) == Encode(b)
  {
    assert ConfigByte(Present(b)) == ConfigByte(b);
    forall k | k in PACKET_KEYS && Written(b, k) ensures Value(Present(b), k) == Value(b, k) { }
  }

  /** The components read back are exactly those that were sent: the corrected
      constructor restores the body as sent, flags included. */
  lemma RoundTrip(b: TransformSyncBody)
    ensures DecodeCorrected(Encode(b)) == Some(Present(b))
  {
    var info := Encode(b);
    if b.containsPosition {
      EncodedValue(b, PositionX);
      EncodedValue(b, PositionY);
      EncodedValue(b, PositionZ);
      assert GetPosition(info) == Some(b.position);
    }
    if b.containsRotation {
      EncodedValue(b, RotationX);
      EncodedValue(b, RotationY);
      EncodedValue(b, RotationZ);
      EncodedValue(b, RotationW);
      assert GetRotation(info) == Some(b.rotation);
    }
    if b.containsScale {
      EncodedValue(b, LocalScaleX);
      EncodedValue(b, LocalScaleY);
      EncodedValue(b, LocalScaleZ);
      assert GetScale(info) == Some(b.localScale);
    }
  }

  /** The constructor as written restores the components sent but not the
      flags. */
  lemma AsWrittenDropsFlags(b: TransformSyncBody)
    ensures Decode(Encode(b)) == Some(Present(b).(containsPosition := false, containsRotation := false,
                                                  containsScale := false))
  {
    RoundTrip(b);
  }

  /** So a decoded packet, sent on, is encoded as config 0 with no components. */
  lemma AsWrittenReencodesEmpty(b: TransformSyncBody)
    ensures Decode(Encode(b)).Some?
    ensures Encode(Decode(Encode(b)).value) == map[Config := ByteValue(0)]
  {
    AsWrittenDropsFlags(b);
    var d := Decode(Encode(b)).value;
    assert !d.containsPosition && !d.containsRotation && !d.containsScale;
    assert ConfigByte(d) == 0;
    assert Encode(d).Keys == {Config};
  }

  /** With the corrected constructor, decoding and re-encoding is stable. */
  lemma CorrectedReencodes(b: TransformSyncBody)
    ensures Encode(DecodeCorrected(Encode(b)).value) == Encode(b)
  {
    RoundTrip(b);
    EncodeOfPresent(b);
  }
  // ---------------------------------------------------------------------------
  // The formatter round trip

  /** The formatter carries the transform sync `p` through `GetObjectData` and
      the deserialization constructor as written: it gives back a transform
      sync whose body that constructor decoded from the names `GetObjectData`
      added. */
  ghost predicate ThroughAsWritten(serialize: Serializer, deserialize: Deserializer, p: Packet)
    requires p.NetworkTransformSync?
  {
    var d := deserialize(serialize(p));
    d.IsPacket? && d.packet.NetworkTransformSync? && Decode(Encode(p.body)) == Some(d.packet.body)
  }

  /** The same through the corrected constructor, the target and timestamp
      being carried as they are. */
  ghost predicate ThroughCorrected(serialize: Serializer, deserialize: Deserializer, p: Packet)
    requires p.NetworkTransformSync?
  {
    var d := deserialize(serialize(p));
    && d.IsPacket? && d.packet.NetworkTransformSync?
    && d.packet.target == p.target && d.packet.timestamp == p.timestamp
    && DecodeCorrected(Encode(p.body)) == Some(d.packet.body)
  }

  /** As written, no such formatter gives back a sync that flags a component,
      so the framing round trips, which assume the formatter gives back what
      it was given, do not cover those packets. */
  lemma FlaggedSyncNotInvertible(serialize: Serializer, deserialize: Deserializer, p: Packet)
    requires p.NetworkTransformSync? && ThroughAsWritten(serialize, deserialize, p)
    requires p.body.containsPosition || p.body.containsRotation || p.body.containsScale
    ensures !Invertible(serialize, deserialize, [p])
  {
    AsWrittenDropsFlags(p.body);
  }

  /** With the corrected constructor every sync whose unsent components are
      zero comes back as it was sent. */
  lemma CorrectedSyncInvertible(serialize: Serializer, deserialize: Deserializer, p: Packet)
    requires p.NetworkTransformSync? && ThroughCorrected(serialize, deserialize, p)
    requires p.body == Present(p.body) && |serialize(p)| > 0
    ensures Invertible(serialize, deserialize, [p])
  {
    RoundTrip(p.body);
  }
}
