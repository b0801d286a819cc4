/** The behaviour that replicates an object's position, rotation and scale:
    the server detects which components changed since the last frame and
    queues one sync packet naming them; a receiver applies a newer sync's
    named components and ignores stale ones. */
module NetworkTransforms {
  import opened Wire
  import opened NetworkObjects

  /** The three replicated values of a transform. */
  datatype Pose = Pose(position: Vector3, rotation: Quaternion, localScale: Vector3)

  /** The dirty flags `_positionChanged`, `_rotationChanged`, `_scaleChanged`. */
  datatype Dirty = Dirty(position: bool, rotation: bool, scale: bool)
  const CLEAN := Dirty(false, false, false)

  /** Whether a sync body marks any component present. */
  predicate AnyPresent(b: TransformSyncBody) {
    b.containsPosition || b.containsRotation || b.containsScale
  }

  /** A receiver's pose after a sync body: each component the body marks
      present is replaced, the others are kept. */
  function Applied(p: Pose, b: TransformSyncBody): Pose {
    Pose(if b.containsPosition then b.position else p.position,
         if b.containsRotation then b.rotation else p.rotation,
         if b.containsScale then b.localScale else p.localScale)
  }

  /** The body `Update` would queue with flags `dirty` pending, `last` the
      stored values and `current` the transform now. */
  function Changes(dirty: Dirty, last: Pose, current: Pose): (b: TransformSyncBody)
    ensures b.containsPosition <==> dirty.position || current.position != last.position
    ensures b.containsRotation <==> dirty.rotation || current.rotation != last.rotation
    ensures b.containsScale <==> dirty.scale || current.localScale != last.localScale
    ensures Pose(b.position, b.rotation, b.localScale) == current
  {
    TransformSyncBody(dirty.position || current.position != last.position,
                      dirty.rotation || current.rotation != last.rotation,
                      dirty.scale || current.localScale != last.localScale,
                      current.position, current.rotation, current.localScale)
  }

  class NetworkTransform {
    const networkObject: NetworkObject
    var lastPosition: Vector3
    var lastRotation: Quaternion
    var lastScale: Vector3
    var positionChanged: bool
    var rotationChanged: bool
    var scaleChanged: bool
    var lastSyncTimestamp: Timestamp

    /** Every field at its C# default. */
    constructor (networkObject: NetworkObject)
      ensures this.networkObject == networkObject
      ensures Stored() == Pose(ZERO_VECTOR, ZERO_QUATERNION, ZERO_VECTOR)
      ensures Flags() == CLEAN && lastSyncTimestamp == MIN_TIMESTAMP
    {
      this.networkObject := networkObject;
      lastPosition, lastRotation, lastScale := ZERO_VECTOR, ZERO_QUATERNION, ZERO_VECTOR;
      positionChanged, rotationChanged, scaleChanged := false, false, false;
      lastSyncTimestamp := MIN_TIMESTAMP;
    }

    function Stored(): Pose
      reads this
    {
      Pose(lastPosition, lastRotation, lastScale)
    }

    function Flags(): Dirty
      reads this
    {
      Dirty(positionChanged, rotationChanged, scaleChanged)
    }

    function Current(): Pose
      reads networkObject, networkObject.transform
    {
      var t := networkObject.transform;
      Pose(t.position, t.rotation, t.localScale)
    }

    /** Takes the current values as the baseline, with nothing pending; `now`
        is `DateTime.UtcNow`. */
    method OnServerStart(now: Timestamp)
      modifies this
      ensures Stored() == Current() && Flags() == CLEAN && lastSyncTimestamp == now
    {
      var t := networkObject.transform;
      lastPosition, lastRotation, lastScale := t.position, t.rotation, t.localScale;
      positionChanged, rotationChanged, scaleChanged := false, false, false;
      lastSyncTimestamp := now;
    }

    /** Applies a transform sync strictly newer than the last one applied. */
    method OnPacketReceive(packet: Packet)
      modifies networkObject.transform, this`lastSyncTimestamp
      ensures !packet.NetworkTransformSync? || packet.timestamp <= old(lastSyncTimestamp) ==>
                Current() == old(Current()) && lastSyncTimestamp == old(lastSyncTimestamp)
      ensures packet.NetworkTransformSync? && old(lastSyncTimestamp) < packet.timestamp ==>
                Current() == Applied(old(Current()), packet.body) && lastSyncTimestamp == packet.timestamp
    {
      if !packet.NetworkTransformSync? {
        return;
      }
      if packet.timestamp <= lastSyncTimestamp {
        return;
      }
      var t := networkObject.transform;
      if packet.body.containsPosition {
        t.position := packet.body.position;
      }
      if packet.body.containsRotation {
        t.rotation := packet.body.rotation;
      }
      if packet.body.containsScale {
        t.localScale := packet.body.localScale;
      }
      lastSyncTimestamp := packet.timestamp;
    }

    /** One frame. `isServer` is `NetworkManager.IsServer()`; `now` is the time
        the sync packet is stamped with. On a spawned server object the stored
        values catch up with the transform, one packet naming the changed
        components is queued if any changed, and no flag stays set. */
    method Update(isServer: bool, now: Timestamp)
      modifies this`lastPosition, this`lastRotation, this`lastScale
      modifies this`positionChanged, this`rotationChanged, this`scaleChanged
      modifies networkObject`udpPackets
      ensures !(networkObject.spawned && isServer) ==>
                Stored() == old(Stored()) && Flags() == old(Flags())
                && networkObject.udpPackets == old(networkObject.udpPackets)
      ensures networkObject.spawned && isServer ==>
                var b := Changes(old(Flags()), old(Stored()), Current());
                Stored() == Current() && Flags() == CLEAN
                && networkObject.udpPackets
                   == old(networkObject.udpPackets)
                      + if AnyPresent(b) then [NetworkTransformSync(networkObject.networkID, now, b)] else []
    {
      if !networkObject.spawned || !isServer {
        return;
      }
      var t := networkObject.transform;
      if t.position != lastPosition {
        positionChanged := true;
        lastPosition := t.position;
      }
      if t.rotation != lastRotation {
        rotationChanged := true;
        lastRotation := t.rotation;
      }
      if t.localScale != lastScale {
        scaleChanged := true;
        lastScale := t.localScale;
      }
      if positionChanged || rotationChanged || scaleChanged {
        var body := TransformSyncBody(positionChanged, rotationChanged, scaleChanged,
                                      lastPosition, lastRotation, lastScale);
        networkObject.AddUDPPacket(NetworkTransformSync(networkObject.networkID, now, body));
        positionChanged, rotationChanged, scaleChanged := false, false, false;
      }
    }
  }

  // ---------------------------------------------------------------------------
  // Replication over many frames

  /** The bodies a server object queues over frames whose transform values are
      `frames`, starting from the baseline `last` with nothing pending. */
  function Emitted(last: Pose, frames: seq<Pose>): seq<TransformSyncBody>
    decreases |frames|
  {
    if frames == [] then []
    else
      var b := Changes(CLEAN, last, frames[0]);
      (if AnyPresent(b) then [b] else []) + Emitted(frames[0], frames[1..])
  }

  /** A receiver applying `bs` in order. */
  function ApplyAll(p: Pose, bs: seq<TransformSyncBody>): Pose
    decreases |bs|
  {
    if bs == [] then p else ApplyAll(Applied(p, bs[0]), bs[1..])
  }

  lemma {:induction false} ApplyAllAppend(p: Pose, a: seq<TransformSyncBody>, b: seq<TransformSyncBody>)
    ensures ApplyAll(p, a + b) == ApplyAll(ApplyAll(p, a), b)
    decreases |a|
  {
    if a != [] {
      assert (a + b)[0] == a[0] && (a + b)[1..] == a[1..] + b;
      ApplyAllAppend(Applied(p, a[0]), a[1..], b);
    } else {
      assert a + b == b;
    }
  }

  /** Only the changed components are named, and a receiver that held the
      baseline holds the new values after applying the body; a frame in which
      nothing changed queues nothing and needs nothing. */
  lemma ChangesBringUpToDate(last: Pose, current: Pose)
    ensures Applied(last, Changes(CLEAN, last, current)) == current
    ensures !AnyPresent(Changes(CLEAN, last, current)) <==> current == last
  {
  }

  /** A receiver that starts from the server's baseline and applies every
      queued body in order ends with the server's latest values. */
  lemma {:induction false} ReceiverFollows(last: Pose, frames: seq<Pose>)
    ensures ApplyAll(last, Emitted(last, frames)) == if frames == [] then last else frames[|frames| - 1]
    decreases |frames|
  {
    if frames != [] {
      var b := Changes(CLEAN, last, frames[0]);
      var head := if AnyPresent(b) then [b] else [];
      ChangesBringUpToDate(last, frames[0]);
      ApplyAllAppend(last, head, Emitted(frames[0], frames[1..]));
      if AnyPresent(b) {
        assert ApplyAll(last, head) == ApplyAll(Applied(last, b), []);
      }
      assert ApplyAll(last, head) == frames[0];
      ReceiverFollows(frames[0], frames[1..]);
      if frames[1..] != [] {
        assert frames[1..][|frames[1..]| - 1] == frames[|frames| - 1];
      }
    }
  }
}
