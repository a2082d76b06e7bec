/**
 * Registration side of a node: LISTEN, CONTENDING, REGISTERED (src/node_tdma_task.cpp).
 */
module NodeTask {
  import opened Protocol
  import opened Words
  import opened SlotMask

  const NO_EPOCH: UInt8 := 0xFF

  datatype Phase = Listen | Contending | Registered

  datatype Node = Node(uid: UInt16, registered: bool, slotId: nat, joinEpoch: UInt8, lastBeaconEpoch: UInt8)

  datatype JoinAck = JoinAck(uid: UInt16, slotId: nat)

  function Boot(uid: UInt16): Node {
    Node(uid, false, 0, NO_EPOCH, NO_EPOCH)
  }

  predicate WellFormed(n: Node) {
    n.registered ==> 1 <= n.slotId <= MAX_NODES
  }

  /** A registration survives a beacon only with the same epoch and its slot bit still set. */
  predicate Confirms(n: Node, epoch: UInt8, occupied: seq<bool>)
    requires WellFormed(n) && |occupied| == MAX_NODES
  {
    n.registered && epoch == n.joinEpoch && occupied[n.slotId - 1]
  }

  function OnBeacon(n: Node, epoch: UInt8, occupied: seq<bool>): Node
    requires WellFormed(n) && |occupied| == MAX_NODES
  {
    var n' := n.(lastBeaconEpoch := epoch);
    if n.registered && !Confirms(n, epoch, occupied)
    then n'.(registered := false, slotId := 0, joinEpoch := NO_EPOCH)
    else n'
  }

  /** A beacon with another epoch, or without the slot's bit, leaves nothing of a registration. */
  lemma LostRegistration(n: Node, epoch: UInt8, occupied: seq<bool>)
    requires WellFormed(n) && |occupied| == MAX_NODES && n.registered
    ensures epoch != n.joinEpoch || !occupied[n.slotId - 1] ==>
              OnBeacon(n, epoch, occupied) == Boot(n.uid).(lastBeaconEpoch := epoch)
    ensures epoch == n.joinEpoch && occupied[n.slotId - 1] ==>
              OnBeacon(n, epoch, occupied) == n.(lastBeaconEpoch := epoch)
  {
  }

  function PhaseAfter(n: Node, epoch: UInt8, occupied: seq<bool>): Phase
    requires WellFormed(n) && |occupied| == MAX_NODES
  {
    if Confirms(n, epoch, occupied) then Registered else Contending
  }

  function OnJoinAck(n: Node, ack: JoinAck): Node {
    if ack.uid == n.uid && 1 <= ack.slotId <= MAX_NODES
    then n.(registered := true, slotId := ack.slotId, joinEpoch := n.lastBeaconEpoch)
    else n
  }

  /** The node's globals; `state` is the loop's local variable. */
  class Station {
    const uid: UInt16
    var nodeRegistered: bool
    var nodeSlotId: nat
    var joinEpoch: UInt8
    var lastBeaconEpoch: UInt8
    var state: Phase

    ghost function Abstract(): Node
      reads this
    {
      Node(uid, nodeRegistered, nodeSlotId, joinEpoch, lastBeaconEpoch)
    }

    ghost predicate Valid()
      reads this
    {
      WellFormed(Abstract()) && state == Listen
    }

    constructor (deviceUid: UInt16)
      ensures Valid() && Abstract() == Boot(deviceUid)
    {
      uid := deviceUid;
      nodeRegistered := false;
      nodeSlotId := 0;
      joinEpoch := NO_EPOCH;
      lastBeaconEpoch := NO_EPOCH;
      state := Listen;
    }

    method HearBeacon(epoch: UInt8, slotMask: bv8)
      requires Valid()
      modifies this
      ensures WellFormed(Abstract())
      ensures Abstract() == OnBeacon(old(Abstract()), epoch, Bits(slotMask))
      ensures state == PhaseAfter(old(Abstract()), epoch, Bits(slotMask))
    {
      hide Bit;
      lastBeaconEpoch := epoch;
      if nodeRegistered {
        if epoch != joinEpoch {
          nodeRegistered := false;
          nodeSlotId := 0;
          joinEpoch := NO_EPOCH;
          state := Contending;
        } else if Bit(slotMask, nodeSlotId - 1) {
          state := Registered;
        } else {
          nodeRegistered := false;
          nodeSlotId := 0;
          joinEpoch := NO_EPOCH;
          state := Contending;
        }
      } else {
        state := Contending;
      }
    }

    /**
     * One pass of the node's TDMA loop: the beacon if heard, then either a join attempt (and the
     * JoinAck if one is decoded) or the uplink in the node's own slot, then back to LISTEN.
     */
    method RunSuperframe(beacon: Option<(UInt8, bv8)>, ack: Option<JoinAck>)
      returns (joinSent: bool, uplinkSlot: nat)
      requires Valid()
      modifies this
      ensures Valid()
      ensures beacon.None? ==> Abstract() == old(Abstract()) && !joinSent && uplinkSlot == 0
      ensures beacon.Some? ==>
        var n := old(Abstract());
        var bits := Bits(beacon.value.1);
        var n' := OnBeacon(n, beacon.value.0, bits);
        && (joinSent <==> PhaseAfter(n, beacon.value.0, bits) == Contending)
        && uplinkSlot == (if Confirms(n, beacon.value.0, bits) then n.slotId else 0)
        && Abstract() == if joinSent && ack.Some? then OnJoinAck(n', ack.value) else n'
    {
      joinSent, uplinkSlot := false, 0;
      if beacon.None? {
        state := Listen;
        return;
      }
      HearBeacon(beacon.value.0, beacon.value.1);
      if state == Contending {
        joinSent := true;
        if ack.Some? && ack.value.uid == uid && 1 <= ack.value.slotId <= MAX_NODES {
          nodeSlotId := ack.value.slotId;
          nodeRegistered := true;
          joinEpoch := lastBeaconEpoch;
        }
      } else {
        uplinkSlot := nodeSlotId;
      }
      state := Listen;
    }
  }
}
