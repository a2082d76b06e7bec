/**
 * The gateway's superframe loop over its global state (src/gateway_tdma_task.cpp):
 * g_nodes[], g_slotMask, g_networkEpoch and g_sfCount, updated in place.
 */
module GatewayTask {
  import opened Protocol
  import opened Words
  import opened SlotMask
  import opened SlotTable

  class Gateway {
    const nodes: array<Entry>
    var slotMask: bv8
    var networkEpoch: UInt8
    var sfCount: UInt16

    /** The mask mirrors the active flags at every point where another task can look. */
    ghost predicate Valid()
      reads this, nodes
    {
      && nodes.Length == MAX_NODES
      && WellFormed(nodes[..])
      && MaskMirrors(slotMask, nodes[..])
    }

    ghost function Abstract(): Table
      reads this, nodes
      requires nodes.Length == MAX_NODES
    {
      Table(nodes[..], networkEpoch)
    }

    /** Power-up: no slot is occupied, the epoch is random. */
    constructor (randomEpoch: UInt8)
      ensures Valid() && fresh(nodes)
      ensures Abstract() == Table(seq(MAX_NODES, i => Entry(false, 0, 0, 0)), randomEpoch)
    {
      nodes := new Entry[MAX_NODES](i => Entry(false, 0, 0, 0));
      slotMask := 0;
      networkEpoch := randomEpoch;
      sfCount := 0;
      new;
      assert nodes[..] == seq(MAX_NODES, i => Entry(false, 0, 0, 0));
    }

    /** Answer to one JoinRequest: the slot number for the JoinAck, 0 for no ack. */
    method HandleJoinRequest(uid: UInt16) returns (targetSlot: nat)
      requires Valid()
      modifies nodes, this`slotMask
      ensures Valid()
      ensures networkEpoch == old(networkEpoch)
      ensures JoinResult(nodes[..], targetSlot) == Join(old(nodes[..]), uid)
    {
      hide WellFormed, OwnersKept, MaskMirrors;
      targetSlot := 0;
      ghost var before := nodes[..];
      ghost var k := OwnedSlot(before, uid, 0);
      JoinKeepsOwners(before, uid);
      var i := 0;
      while i < MAX_NODES
        invariant i <= k <= MAX_NODES
        invariant targetSlot == 0 && nodes[..] == before && unchanged(this)
      {
        var ns := nodes[i];
        assert ns == before[i];
        if ns.active && ns.uid == uid {
          targetSlot := ns.slotId;
          nodes[i] := ns.(missed := 0);
          assert nodes[..] == before[i := before[i].(missed := 0)];
          MaskAfterRejoin(slotMask, before, i);
          return;
        }
        i := i + 1;
      }
      assert k == MAX_NODES;
      ghost var f := FreeSlot(before, 0);
      i := 0;
      while i < MAX_NODES
        invariant i <= f <= MAX_NODES
        invariant targetSlot == 0 && nodes[..] == before && unchanged(this)
      {
        assert nodes[i] == before[i];
        if !nodes[i].active {
          nodes[i] := Entry(true, i + 1, uid, 0);
          assert nodes[..] == before[i := Entry(true, i + 1, uid, 0)];
          MaskAfterJoin(slotMask, before, i, uid);
          slotMask := slotMask | OneShl(i);
          targetSlot := i + 1;
          return;
        }
        i := i + 1;
      }
    }

    /** What the end of one uplink window does to the registration of slot `s`. */
    method CloseUplinkWindow(s: nat, rx: Option<UInt16>)
      requires Valid() && s < MAX_NODES && nodes[s].active
      modifies nodes
      ensures Valid()
      ensures nodes[..] == old(nodes[..])[s := HearSlot(old(nodes[s]), rx)]
    {
      match rx {
        case None => nodes[s] := nodes[s].(missed := Inc16(nodes[s].missed));
        case Some(uid) =>
          if uid != nodes[s].uid { return; }
          nodes[s] := nodes[s].(missed := 0);
      }
    }

    /** Runs only with all eight bits set; one epoch increment covers all evictions. */
    method EvictStaleNodes()
      requires Valid()
      modifies nodes, this`slotMask, this`networkEpoch
      ensures Valid()
      ensures Abstract() == EvictionZone(old(Abstract()))
    {
      ghost var before := nodes[..];
      MaskFull(slotMask, before);
      if slotMask != 0xFF {
        return;
      }
      var anyEvicted := false;
      var i := 0;
      while i < MAX_NODES
        invariant 0 <= i <= MAX_NODES && |before| == MAX_NODES
        invariant forall j :: 0 <= j < i ==> nodes[j] == EvictEntry(before[j])
        invariant forall j :: i <= j < MAX_NODES ==> nodes[j] == before[j]
        invariant MaskMirrors(slotMask, nodes[..]) && networkEpoch == old(networkEpoch)
        invariant anyEvicted <==> exists j :: 0 <= j < i && Stale(before[j])
      {
        var ns := nodes[i];
        if ns.active && ns.missed >= NODE_TIMEOUT_SFS {
          ghost var now := nodes[..];
          MaskAfterEviction(slotMask, now, i);
          nodes[i] := ns.(active := false, missed := 0);
          assert nodes[..] == now[i := ns.(active := false, missed := 0)];
          slotMask := slotMask & !OneShl(i);
          anyEvicted := true;
        }
        i := i + 1;
      }
      assert nodes[..] == seq(MAX_NODES, j requires 0 <= j < MAX_NODES => EvictEntry(before[j]));
      if anyEvicted {
        networkEpoch := Inc8(networkEpoch);
      }
      EvictionTakesOwners(Table(before, old(networkEpoch)));
    }

    /**
     * One pass of gatewayTdmaTask()'s endless loop. `rx[s]` is the UID decoded in slot s's uplink
     * window, `request` the UID of the JoinRequest heard in the contention window.
     */
    method RunSuperframe(rx: seq<Option<UInt16>>, request: Option<UInt16>) returns (ackSlot: nat)
      requires Valid() && |rx| == MAX_NODES
      modifies this, nodes
      ensures Valid()
      ensures sfCount == Inc16(old(sfCount))
      ensures Abstract() == Superframe(old(Abstract()), rx, request)
      ensures ackSlot == AckTarget(old(Abstract()), rx, request)
    {
      sfCount := Inc16(sfCount);
      ghost var before := nodes[..];
      var s := 0;
      while s < MAX_NODES
        invariant 0 <= s <= MAX_NODES && Valid() && |before| == MAX_NODES
        invariant networkEpoch == old(networkEpoch) && sfCount == Inc16(old(sfCount))
        invariant forall j :: 0 <= j < s ==> nodes[j] == HearSlot(before[j], rx[j])
        invariant forall j :: s <= j < MAX_NODES ==> nodes[j] == before[j]
      {
        if Bit(slotMask, s) {
          assert nodes[..][s].active;
          CloseUplinkWindow(s, rx[s]);
        } else {
          assert !nodes[..][s].active;
        }
        s := s + 1;
      }
      assert nodes[..] == UplinkZone(before, rx);
      ackSlot := 0;
      if request.Some? {
        ackSlot := HandleJoinRequest(request.value);
      }
      EvictStaleNodes();
    }
  }

  ghost predicate MaskMirrors(mask: bv8, slots: seq<Entry>) {
    |slots| == MAX_NODES && forall i :: 0 <= i < MAX_NODES ==> (Bit(mask, i) <==> slots[i].active)
  }

  lemma MaskFull(mask: bv8, slots: Slots)
    requires MaskMirrors(mask, slots)
    ensures mask == 0xFF <==> Full(slots)
  {
    AllBits(mask);
  }

  lemma MaskAfterJoin(mask: bv8, slots: Slots, i: nat, uid: UInt16)
    requires MaskMirrors(mask, slots) && i < MAX_NODES
    ensures MaskMirrors(mask | OneShl(i), slots[i := Entry(true, i + 1, uid, 0)])
  {
    SetBit(mask, i);
  }

  lemma MaskAfterRejoin(mask: bv8, slots: Slots, i: nat)
    requires MaskMirrors(mask, slots) && i < MAX_NODES
    ensures MaskMirrors(mask, slots[i := slots[i].(missed := 0)])
  {
  }

  lemma MaskAfterEviction(mask: bv8, slots: Slots, i: nat)
    requires MaskMirrors(mask, slots) && i < MAX_NODES
    ensures MaskMirrors(mask & !OneShl(i), slots[i := slots[i].(active := false, missed := 0)])
  {
    ClearBit(mask, i);
  }
}
