/** A replicated object: its identity in the directory, whether it has been
    spawned, and the packets it wants sent this tick. */
module NetworkObjects {
  import opened Wire

  /** Unity's `Transform`, reduced to the three values that are replicated. */
  class Transform {
    var position: Vector3
    var rotation: Quaternion
    var localScale: Vector3

    constructor (position: Vector3, rotation: Quaternion, localScale: Vector3)
      ensures this.position == position && this.rotation == rotation && this.localScale == localScale
    {
      this.position := position;
      this.rotation := rotation;
      this.localScale := localScale;
    }
  }

  /** `GetNetworkID`, `GetOwnerID`, `IsSpawned`, `GetTCPPackets`, `GetUDPPackets`
      and `GetPrefabID` return the fields below as they are. */
  class NetworkObject {
    const prefabID: u32
    var networkID: u32
    var ownerNetworkID: u32
    var spawned: bool
    var tcpPackets: seq<Packet>
    var udpPackets: seq<Packet>
    const transform: Transform

    /** The object as `Awake` leaves it: both queues empty, not spawned, the
        identifiers at their defaults. */
    constructor (prefabID: u32, transform: Transform)
      ensures this.prefabID == prefabID && this.transform == transform
      ensures networkID == 0 && ownerNetworkID == 0 && !spawned
      ensures tcpPackets == [] && udpPackets == []
    {
      this.prefabID := prefabID;
      this.transform := transform;
      networkID := 0;
      ownerNetworkID := 0;
      spawned := false;
      tcpPackets := [];
      udpPackets := [];
    }

    /** The first call stores the identifiers; every later call is ignored, so
        an object keeps the identity it was first spawned with. */
    method Spawn(networkID: u32, ownerNetworkID: u32)
      modifies this`spawned, this`networkID, this`ownerNetworkID
      ensures spawned
      ensures old(spawned) ==> this.networkID == old(this.networkID) && this.ownerNetworkID == old(this.ownerNetworkID)
      ensures !old(spawned) ==> this.networkID == networkID && this.ownerNetworkID == ownerNetworkID
    {
      if spawned {
        return;
      }
      spawned := true;
      this.networkID := networkID;
      this.ownerNetworkID := ownerNetworkID;
    }

    method AddTCPPacket(packet: Packet)
      modifies this`tcpPackets
      ensures tcpPackets == old(tcpPackets) + [packet]
    {
      tcpPackets := tcpPackets + [packet];
    }

    method AddUDPPacket(packet: Packet)
      modifies this`udpPackets
      ensures udpPackets == old(udpPackets) + [packet]
    {
      udpPackets := udpPackets + [packet];
    }

    method ClearPackets()
      modifies this`tcpPackets, this`udpPackets
      ensures tcpPackets == [] && udpPackets == []
    {
      tcpPackets := [];
      udpPackets := [];
    }
  }
}
