/**
 * The gateway's slot table: who owns which of the eight TDMA slots, how many superframes
 * each owner has missed, and the 8-bit network epoch (src/gateway_tdma_task.cpp).
 *
 * The functions give the effect of each zone of a superframe on the table as a value;
 * class Gateway updates the same table in place, slot mask included, and is proved to
 * compute them.
 */
module SlotTable {
  import opened Protocol
  import opened Words

  /** The registration part of one g_nodes[] element. */
  datatype Entry = Entry(active: bool, slotId: nat, uid: UInt16, missed: UInt16)

  type Slots = s: seq<Entry> | |s| == MAX_NODES
    witness seq(MAX_NODES, i => Entry(false, 0, 0, 0))

  datatype Table = Table(slots: Slots, epoch: UInt8)

  /** Active slots know their own number, and no device owns two of them. */
  ghost predicate WellFormed(slots: Slots) {
    && (forall i :: 0 <= i < MAX_NODES && slots[i].active ==> slots[i].slotId == i + 1)
    && (forall i, j :: 0 <= i < j < MAX_NODES && slots[i].active && slots[j].active ==>
          slots[i].uid != slots[j].uid)
  }

  predicate Full(slots: Slots) {
    forall i :: 0 <= i < MAX_NODES ==> slots[i].active
  }

  predicate Stale(e: Entry) {
    e.active && e.missed >= NODE_TIMEOUT_SFS
  }

  predicate AnyStale(slots: Slots) {
    exists i :: 0 <= i < MAX_NODES && Stale(slots[i])
  }

  // ----- Slot pairs: one uplink window per occupied slot -----

  /** `rx` is the UID in the telemetry packet decoded in this slot's window, if any. */
  function HearSlot(e: Entry, rx: Option<UInt16>): Entry {
    if !e.active then e
    else if rx.None? then e.(missed := Inc16(e.missed))
    else if rx.value != e.uid then e
    else e.(missed := 0)
  }

  function UplinkZone(slots: Slots, rx: seq<Option<UInt16>>): Slots
    requires |rx| == MAX_NODES
  {
    seq(MAX_NODES, i requires 0 <= i < MAX_NODES => HearSlot(slots[i], rx[i]))
  }

  // ----- Contention window: at most one JoinRequest -----

  /** First active slot at or after `k` owned by `uid`, or MAX_NODES. */
  function OwnedSlot(slots: Slots, uid: UInt16, k: nat): (r: nat)
    requires k <= MAX_NODES
    ensures k <= r <= MAX_NODES
    ensures r < MAX_NODES ==> slots[r].active && slots[r].uid == uid
    ensures forall i :: k <= i < r ==> !(slots[i].active && slots[i].uid == uid)
    decreases MAX_NODES - k
  {
    if k == MAX_NODES || (slots[k].active && slots[k].uid == uid) then k
    else OwnedSlot(slots, uid, k + 1)
  }

  /** First inactive slot at or after `k`, or MAX_NODES. */
  function FreeSlot(slots: Slots, k: nat): (r: nat)
    requires k <= MAX_NODES
    ensures k <= r <= MAX_NODES
    ensures r < MAX_NODES ==> !slots[r].active
    ensures forall i :: k <= i < r ==> slots[i].active
    decreases MAX_NODES - k
  {
    if k == MAX_NODES || !slots[k].active then k else FreeSlot(slots, k + 1)
  }

  datatype JoinResult = JoinResult(slots: Slots, target: nat)

  /** `target` is the slot number put in the JoinAck; 0 means that no ack is sent. */
  function Join(slots: Slots, uid: UInt16): JoinResult {
    var k := OwnedSlot(slots, uid, 0);
    if k < MAX_NODES then
      JoinResult(slots[k := slots[k].(missed := 0)], slots[k].slotId)
    else
      var f := FreeSlot(slots, 0);
      if f < MAX_NODES then JoinResult(slots[f := Entry(true, f + 1, uid, 0)], f + 1)
      else JoinResult(slots, 0)
  }

  function ContentionZone(slots: Slots, request: Option<UInt16>): JoinResult {
    if request.None? then JoinResult(slots, 0) else Join(slots, request.value)
  }

  // ----- Idle window: eviction -----

  function EvictEntry(e: Entry): Entry {
    if Stale(e) then e.(active := false, missed := 0) else e
  }

  predicate Evicts(slots: Slots) {
    Full(slots) && AnyStale(slots)
  }

  function EvictionZone(t: Table): Table {
    if Evicts(t.slots)
    then Table(seq(MAX_NODES, i requires 0 <= i < MAX_NODES => EvictEntry(t.slots[i])), Inc8(t.epoch))
    else t
  }

  /** One superframe of the gateway: slot pairs, then contention, then eviction. */
  function Superframe(t: Table, rx: seq<Option<UInt16>>, request: Option<UInt16>): Table
    requires |rx| == MAX_NODES
  {
    EvictionZone(t.(slots := ContentionZone(UplinkZone(t.slots, rx), request).slots))
  }

  function AckTarget(t: Table, rx: seq<Option<UInt16>>, request: Option<UInt16>): nat
    requires |rx| == MAX_NODES
  {
    ContentionZone(UplinkZone(t.slots, rx), request).target
  }

  // ----- What the zones keep -----

  /** Every owner in `s` still owns the same slot in `s'`. */
  ghost predicate OwnersKept(s: Slots, s': Slots) {
    forall i :: 0 <= i < MAX_NODES && s[i].active ==> s'[i].active && s'[i].uid == s[i].uid
  }

  lemma UplinkKeepsOwners(slots: Slots, rx: seq<Option<UInt16>>)
    requires |rx| == MAX_NODES && WellFormed(slots)
    ensures WellFormed(UplinkZone(slots, rx)) && OwnersKept(slots, UplinkZone(slots, rx))
    ensures OwnersKept(UplinkZone(slots, rx), slots)
  {
  }

  lemma Rejoins(slots: Slots, k: nat)
    requires WellFormed(slots) && k < MAX_NODES && slots[k].active
    ensures slots[k].slotId == k + 1 && WellFormed(slots[k := slots[k].(missed := 0)])
  {
  }

  lemma Joins(slots: Slots, f: nat, uid: UInt16)
    requires WellFormed(slots) && f < MAX_NODES && !slots[f].active
    requires forall i :: 0 <= i < MAX_NODES ==> !(slots[i].active && slots[i].uid == uid)
    ensures WellFormed(slots[f := Entry(true, f + 1, uid, 0)]) && !Full(slots)
  {
    assert !slots[f].active;
  }

  lemma AllTaken(slots: Slots)
    requires forall i :: 0 <= i < MAX_NODES ==> slots[i].active
    ensures Full(slots)
  {
  }

  /**
   * A join never takes a slot from its owner; the acked slot belongs to the requester and
   * has a clean miss count; a request goes unanswered only when the table is full of others.
   */
  lemma JoinKeepsOwners(slots: Slots, uid: UInt16)
    requires WellFormed(slots)
    ensures var r := Join(slots, uid);
      && WellFormed(r.slots)
      && OwnersKept(slots, r.slots)
      && (r.target == 0 <==> (Full(slots) && forall i :: 0 <= i < MAX_NODES ==> slots[i].uid != uid))
      && (r.target == 0 ==> r.slots == slots)
      && (r.target != 0 ==>
            && 1 <= r.target <= MAX_NODES
            && r.slots[r.target - 1].active
            && r.slots[r.target - 1].uid == uid
            && r.slots[r.target - 1].missed == 0
            && forall i :: 0 <= i < MAX_NODES && i != r.target - 1 ==> r.slots[i] == slots[i])
  {
    hide OwnedSlot, FreeSlot, WellFormed, Full;
    var k, f := OwnedSlot(slots, uid, 0), FreeSlot(slots, 0);
    if k < MAX_NODES {
      Rejoins(slots, k);
    } else if f < MAX_NODES {
      Joins(slots, f, uid);
    } else {
      AllTaken(slots);
    }
  }

  /** A new device gets the first free slot. */
  lemma JoinTakesFirstFree(slots: Slots, uid: UInt16, k: nat)
    requires k < MAX_NODES && !slots[k].active
    requires forall i :: 0 <= i < MAX_NODES && slots[i].active ==> slots[i].uid != uid
    requires forall i :: 0 <= i < k ==> slots[i].active
    ensures Join(slots, uid) == JoinResult(slots[k := Entry(true, k + 1, uid, 0)], k + 1)
  {
    assert OwnedSlot(slots, uid, 0) == MAX_NODES;
    assert FreeSlot(slots, 0) == k;
  }

  lemma ContentionKeepsOwners(slots: Slots, request: Option<UInt16>)
    requires WellFormed(slots)
    ensures WellFormed(ContentionZone(slots, request).slots)
    ensures OwnersKept(slots, ContentionZone(slots, request).slots)
    ensures forall i :: 0 <= i < MAX_NODES && Stale(ContentionZone(slots, request).slots[i]) ==> slots[i].active
  {
    if request.Some? {
      JoinKeepsOwners(slots, request.value);
    }
  }

  /**
   * Owners over a whole superframe: the table stays well formed, and the epoch moves, by
   * exactly one, precisely when some owner lost its slot.
   */
  lemma SuperframeKeepsOwners(t: Table, rx: seq<Option<UInt16>>, request: Option<UInt16>)
    requires |rx| == MAX_NODES && WellFormed(t.slots)
    ensures WellFormed(Superframe(t, rx, request).slots)
    ensures Superframe(t, rx, request).epoch
         == if OwnersKept(t.slots, Superframe(t, rx, request).slots) then t.epoch else Inc8(t.epoch)
  {
    var a := UplinkZone(t.slots, rx);
    UplinkKeepsOwners(t.slots, rx);
    ContentionKeepsOwners(a, request);
    var b := ContentionZone(a, request).slots;
    assert OwnersKept(t.slots, b);
    EvictionTakesOwners(Table(b, t.epoch));
    if Evicts(b) {
      var i :| 0 <= i < MAX_NODES && Stale(b[i]);
      assert t.slots[i].active;
    }
  }

  /** A free slot protects everyone: eviction acts if and only if all eight are taken and one owner missed eight. */
  lemma EvictionExactly(t: Table)
    ensures EvictionZone(t) != t <==>
            && (forall i :: 0 <= i < 8 ==> t.slots[i].active)
            && (exists i :: 0 <= i < 8 && t.slots[i].missed >= 8)
  {
    if Evicts(t.slots) {
      var i :| 0 <= i < MAX_NODES && Stale(t.slots[i]);
      assert !EvictionZone(t).slots[i].active;
    }
    if (forall i :: 0 <= i < 8 ==> t.slots[i].active) && exists i :: 0 <= i < 8 && t.slots[i].missed >= 8 {
      var i :| 0 <= i < 8 && t.slots[i].missed >= 8;
      assert Stale(t.slots[i]);
    }
  }

  /**
   * The miss count of an owner that keeps its slot: back to 0 by its own uplink or join, one more
   * for a window without a packet, and untouched by a packet with a foreign UID.
   */
  lemma MissCounts(t: Table, rx: seq<Option<UInt16>>, request: Option<UInt16>, i: nat)
    requires |rx| == MAX_NODES && WellFormed(t.slots) && i < MAX_NODES && t.slots[i].active
    ensures var e, e' := t.slots[i], Superframe(t, rx, request).slots[i];
      e'.active ==>
        e' == e.(missed := if rx[i] == Some(e.uid) || request == Some(e.uid) then 0
                           else if rx[i].None? then Inc16(e.missed) else e.missed)
  {
    var a := UplinkZone(t.slots, rx);
    UplinkKeepsOwners(t.slots, rx);
    assert a[i] == HearSlot(t.slots[i], rx[i]);
    if request.Some? {
      JoinExact(a, request.value, i);
      JoinKeepsOwners(a, request.value);
      EvictionTakesOwners(Table(Join(a, request.value).slots, t.epoch));
    } else {
      EvictionTakesOwners(Table(a, t.epoch));
    }
    hide Join, WellFormed, Evicts, UplinkZone;
  }

  lemma JoinExact(slots: Slots, uid: UInt16, i: nat)
    requires WellFormed(slots) && i < MAX_NODES && slots[i].active
    ensures Join(slots, uid).slots[i] == if slots[i].uid == uid then slots[i].(missed := 0) else slots[i]
  {
    var k := OwnedSlot(slots, uid, 0);
    hide OwnedSlot, FreeSlot;
    if slots[i].uid == uid {
      assert k < MAX_NODES && k == i;
    }
  }

  lemma EvictionTakesOwners(t: Table)
    requires WellFormed(t.slots)
    ensures WellFormed(EvictionZone(t).slots)
    ensures !Evicts(t.slots) ==> EvictionZone(t) == t
    ensures Evicts(t.slots) ==> EvictionZone(t).epoch == Inc8(t.epoch)
    ensures Evicts(t.slots) ==> forall i :: 0 <= i < MAX_NODES ==>
              EvictionZone(t).slots[i]
              == if Stale(t.slots[i]) then t.slots[i].(active := false, missed := 0) else t.slots[i]
  {
  }
}
