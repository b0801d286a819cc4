/** The base of every replicated component: its identity on its object, the
    staleness gate for incoming sync packets, and the sync packets it queues. */
module NetworkBehaviours {
  import opened Wire
  import opened NetworkObjects

  /** A `PacketNetworkBehaviourSync`. */
  type BehaviourSync = p: Packet | p.NetworkBehaviourSync? witness NetworkBehaviourSync(0, 0, 0)

  /** `last.CompareTo(t) < 0`: a packet stamped `t` is newer than the
      last update applied at `last`. */
  predicate Fresh(last: Timestamp, t: Timestamp) {
    last < t
  }

  /** The timestamps a behaviour whose last update is at `last` applies when
      packets stamped `ts` arrive in order and each one that passes the gate is
      parsed. */
  function Accepted(last: Timestamp, ts: seq<Timestamp>): (r: seq<Timestamp>)
    ensures |r| <= |ts|
    ensures forall t | t in r :: t in ts
    decreases |ts|
  {
    if ts == [] then []
    else if Fresh(last, ts[0]) then [ts[0]] + Accepted(ts[0], ts[1..])
    else Accepted(last, ts[1..])
  }

  /** The last-update time after those packets. */
  function LastAfter(last: Timestamp, ts: seq<Timestamp>): Timestamp
    decreases |ts|
  {
    if ts == [] then last
    else if Fresh(last, ts[0]) then LastAfter(ts[0], ts[1..])
    else LastAfter(last, ts[1..])
  }

  predicate StrictlyIncreasing(s: seq<Timestamp>) {
    forall i, j | 0 <= i < j < |s| :: s[i] < s[j]
  }

  class NetworkBehaviour {
    const networkObject: NetworkObject
    /** What `RegisterNetworkBehaviour` returned for this behaviour. */
    const id: u32
    var lastUpdate: Timestamp

    /** `Awake`: `now` is `DateTime.UtcNow`. */
    constructor (networkObject: NetworkObject, id: u32, now: Timestamp)
      ensures this.networkObject == networkObject && this.id == id && lastUpdate == now
    {
      this.networkObject := networkObject;
      this.id := id;
      lastUpdate := now;
    }

    /** The base behaviour never reports a change. */
    function HasChanged(): (r: bool)
      ensures !r
    {
      false
    }

    /** A packet is parsed only when it is strictly newer than the last update. */
    function ShouldParseSyncPacket(packet: BehaviourSync): (r: bool)
      reads this
      ensures r <==> lastUpdate < packet.timestamp
    {
      Fresh(lastUpdate, packet.timestamp)
    }

    method ParseSyncPacket(packet: BehaviourSync) returns (r: int)
      modifies this`lastUpdate
      ensures lastUpdate == packet.timestamp && r == 0
    {
      lastUpdate := packet.timestamp;
      r := 0;
    }

    /** `now` is the `DateTime.UtcNow` the packet's constructor stamps it with. */
    function CreateDynamicSyncPacket(now: Timestamp): (p: BehaviourSync)
      reads networkObject
      ensures p.networkObjectID == networkObject.networkID && p.networkBehaviourID == id
      ensures p.timestamp == now
    {
      NetworkBehaviourSync(networkObject.networkID, id, now)
    }

    function CreateFullSyncPacket(now: Timestamp): (p: BehaviourSync)
      reads networkObject
      ensures p.networkObjectID == networkObject.networkID && p.networkBehaviourID == id
      ensures p.timestamp == now
    {
      NetworkBehaviourSync(networkObject.networkID, id, now)
    }

    /** One frame: `changed` is what `HasChanged()` returns, which is false
        unless a subclass overrides it. */
    method Update(changed: bool, now: Timestamp)
      modifies networkObject`udpPackets
      ensures networkObject.udpPackets
           == old(networkObject.udpPackets)
              + if networkObject.spawned && changed then [CreateDynamicSyncPacket(now)] else []
    {
      if !networkObject.spawned {
        return;
      }
      if changed {
        networkObject.AddUDPPacket(CreateDynamicSyncPacket(now));
      }
    }
  }

  // ---------------------------------------------------------------------------
  // The staleness gate over a run of packets

  /** What passes the gate is strictly newer than what came before it. */
  lemma {:induction false} AcceptedIncreasing(last: Timestamp, ts: seq<Timestamp>)
    ensures StrictlyIncreasing(Accepted(last, ts))
    ensures forall t | t in Accepted(last, ts) :: last < t
    decreases |ts|
  {
    if ts != [] {
      AcceptedIncreasing(ts[0], ts[1..]);
      AcceptedIncreasing(last, ts[1..]);
      if Fresh(last, ts[0]) {
        var tail := Accepted(ts[0], ts[1..]);
        var r := [ts[0]] + tail;
        forall i, j | 0 <= i < j < |r| ensures r[i] < r[j] {
          assert r[j] == tail[j - 1] && tail[j - 1] in tail;
          if i > 0 {
            assert r[i] == tail[i - 1];
          }
        }
        forall t | t in r ensures last < t {
          if t != ts[0] {
            assert t in tail;
          }
        }
      }
    }
  }

  /** The last-update time only moves forward and ends at least as late as
      every packet seen. */
  lemma {:induction false} LastAfterBounds(last: Timestamp, ts: seq<Timestamp>)
    ensures last <= LastAfter(last, ts)
    ensures forall i | 0 <= i < |ts| :: ts[i] <= LastAfter(last, ts)
    decreases |ts|
  {
    if ts != [] {
      if Fresh(last, ts[0]) {
        LastAfterBounds(ts[0], ts[1..]);
      } else {
        LastAfterBounds(last, ts[1..]);
      }
      forall i | 0 < i < |ts| ensures ts[i] <= LastAfter(last, ts) {
        assert ts[i] == ts[1..][i - 1];
      }
    }
  }

  /** Nothing stamped no later than the last update is applied. */
  lemma {:induction false} NothingStaleAccepted(last: Timestamp, ts: seq<Timestamp>)
    requires forall i | 0 <= i < |ts| :: ts[i] <= last
    ensures Accepted(last, ts) == []
  {
    if ts != [] {
      NothingStaleAccepted(last, ts[1..]);
    }
  }

  /** Replaying a run of packets after it was processed applies none of them. */
  lemma ReplayRejected(last: Timestamp, ts: seq<Timestamp>)
    ensures Accepted(LastAfter(last, ts), ts) == []
  {
    LastAfterBounds(last, ts);
    NothingStaleAccepted(LastAfter(last, ts), ts);
  }
  // ---------------------------------------------------------------------------
  // The formatter round trip

  /** What the formatter gives back for a `PacketNetworkBehaviourSync`: its
      `GetObjectData` adds no names and its deserialization constructor
      assigns nothing, so every field has its default. */
  const STUB_DECODED: Packet := NetworkBehaviourSync(0, 0, MIN_TIMESTAMP)

  /** So only the all-default behaviour sync survives the formatter, and the
      framing round trips do not cover any other. */
  lemma StubSyncNotInvertible(serialize: Serializer, deserialize: Deserializer, p: Packet)
    requires p.NetworkBehaviourSync? && p != STUB_DECODED
    requires deserialize(serialize(p)) == IsPacket(STUB_DECODED)
    ensures !Invertible(serialize, deserialize, [p])
  {
    assert p in [p];
  }
}
