/**
 * Recovery after an eviction. The epoch step sends every survivor back to contention, where
 * one join succeeds per superframe, while NODE_TIMEOUT_SFS keeps counting its silence. With
 * at most eight devices every survivor is back in its old slot in time; the last of eight
 * reaches the timeout and is saved only because contention runs before eviction.
 */
module Recovery {
  import opened Protocol
  import opened Words
  import opened SlotTable
  import opened Network
  import opened EpochRate
  import N = NodeTask

  /** Slot index i is recorded as active for device d. */
  ghost predicate Owns(s: State, d: nat, i: nat)
    requires d < |s.nodes| && i < MAX_NODES
  {
    s.gw.slots[i].active && s.gw.slots[i].uid == s.nodes[d].uid
  }

  /** `live` are the devices that are still there; the others have fallen silent. */
  ghost predicate Roster(s: State, live: set<nat>) {
    forall d :: d in live ==> d < |s.nodes|
  }

  ghost predicate KnownOwner(s: State, live: set<nat>, i: nat)
    requires Roster(s, live) && i < MAX_NODES
  {
    exists d :: d in live && Owns(s, d, i)
  }

  /**
   * Right after an eviction: live devices that fit the table, owners seen in the last
   * superframe, and nobody registered under the new epoch.
   */
  ghost predicate Aftermath(s: State, live: set<nat>) {
    && Shaped(s)
    && DistinctUids(s.nodes)
    && Roster(s, live)
    && |live| <= MAX_NODES
    && (forall i :: 0 <= i < MAX_NODES && s.gw.slots[i].active ==> KnownOwner(s, live, i) && s.gw.slots[i].missed == 0)
    && (forall d :: d in live && s.nodes[d].registered ==> s.nodes[d].joinEpoch != s.gw.epoch)
  }

  /** A superframe in which the radio works for live devices and contention lets one join through. */
  ghost predicate Clear(s: State, e: Event, live: set<nat>)
    requires Shaped(s)
  {
    && EventShaped(e)
    && Roster(s, live)
    && e.reboots == {}
    && e.hears == live
    && (forall d, i :: 0 <= d < |s.nodes| && 0 <= i < MAX_NODES && Transmits(s, e, d, i) ==> e.uplinks[i] == Some(d))
    && ((exists d :: 0 <= d < |s.nodes| && Contends(s, e, d)) ==>
          && e.request.Some?
          && e.request.value < |s.nodes|
          && Contends(s, e, e.request.value)
          && e.request.value in e.hearsAck)
  }

  ghost predicate RunClear(s: State, evs: seq<Event>, live: set<nat>)
    requires Shaped(s) && EventsShaped(evs)
  {
    forall k :: 0 <= k < |evs| ==> Clear(Run(s, evs[..k]), evs[k], live)
  }

  /** Node d is registered in this epoch, in its own slot, and was heard lately. */
  ghost predicate Settled(s: State, d: nat)
    requires Shaped(s) && d < |s.nodes|
  {
    && s.nodes[d].registered
    && s.nodes[d].joinEpoch == s.gw.epoch
    && Owns(s, d, s.nodes[d].slotId - 1)
    && s.gw.slots[s.nodes[d].slotId - 1].missed == 0
  }

  /** If d owns a slot, that slot has been silent for exactly k superframes. */
  ghost predicate Waiting(s: State, d: nat, k: nat)
    requires d < |s.nodes|
  {
    forall i: nat :: i < MAX_NODES && Owns(s, d, i) ==> s.gw.slots[i].missed == k
  }

  ghost predicate SameDevices(s: State, t: State) {
    |s.nodes| == |t.nodes| && forall d :: 0 <= d < |s.nodes| ==> s.nodes[d].uid == t.nodes[d].uid
  }

  /** After k clear superframes the k nodes in `settled` are back and the others still wait. */
  ghost predicate Progress(s0: State, s: State, live: set<nat>, k: nat, settled: set<nat>)
    requires Shaped(s0) && Shaped(s)
  {
    && SameDevices(s0, s)
    && DistinctUids(s.nodes)
    && s.gw.epoch == s0.gw.epoch
    && OwnersKept(s0.gw.slots, s.gw.slots)
    && Roster(s, live)
    && settled <= live
    && |settled| == k
    && (forall d :: d in settled ==> Settled(s, d))
    && (forall d :: d in live && d !in settled ==>
          Waiting(s, d, k) && (s.nodes[d].registered ==> s.nodes[d].joinEpoch != s.gw.epoch))
    && (forall i :: 0 <= i < MAX_NODES && s.gw.slots[i].active ==> KnownOwner(s, live, i))
  }

  lemma ClearShaped(s: State, e: Event, live: set<nat>)
    requires Shaped(s) && Clear(s, e, live)
    ensures EventShaped(e) && Roster(s, live)
  {
  }

  lemma ProgressFacts(s0: State, s: State, live: set<nat>, k: nat, settled: set<nat>)
    requires Shaped(s0) && Shaped(s) && Progress(s0, s, live, k, settled)
    ensures |settled| == k && settled <= live && Roster(s, live)
    ensures SameDevices(s0, s) && DistinctUids(s.nodes)
    ensures s.gw.epoch == s0.gw.epoch && OwnersKept(s0.gw.slots, s.gw.slots)
  {
  }

  // ----- Uplink windows -----

  /** Exactly the settled nodes transmit, each in its own slot. */
  lemma OnlySettledTransmit(s0: State, s: State, e: Event, live: set<nat>, k: nat, settled: set<nat>)
    requires Shaped(s0) && Shaped(s) && Progress(s0, s, live, k, settled) && Clear(s, e, live)
    ensures forall d :: 0 <= d < |s.nodes| ==> (Contends(s, e, d) <==> d in live && d !in settled)
    ensures forall d :: d in settled ==> d < |s.nodes| && Transmits(s, e, d, s.nodes[d].slotId - 1)
    ensures forall d, i :: 0 <= d < |s.nodes| && 0 <= i < MAX_NODES && Transmits(s, e, d, i) ==> d in settled
  {
    assert forall d :: 0 <= d < |s.nodes| ==> Restarted(s, e, d) == s.nodes[d];
  }

  /** A slot window ends in a reset when its owner sends, in one more miss when nobody does. */
  lemma WindowOutcome(s: State, e: Event, live: set<nat>, i: nat, d: nat)
    requires Shaped(s) && Clear(s, e, live) && i < MAX_NODES && d < |s.nodes|
    requires Owns(s, d, i)
    ensures Transmits(s, e, d, i) ==>
              UplinkZone(s.gw.slots, Decoded(s, e))[i] == s.gw.slots[i].(missed := 0)
    ensures (forall c :: 0 <= c < |s.nodes| ==> !Transmits(s, e, c, i)) ==>
              UplinkZone(s.gw.slots, Decoded(s, e))[i] == s.gw.slots[i].(missed := Inc16(s.gw.slots[i].missed))
  {
    if forall c :: 0 <= c < |s.nodes| ==> !Transmits(s, e, c, i) {
      assert Decoded(s, e)[i] == None;
    }
  }

  lemma ProgressAt(s0: State, s: State, live: set<nat>, k: nat, settled: set<nat>, d: nat)
    requires Shaped(s0) && Shaped(s) && Progress(s0, s, live, k, settled) && d in live
    ensures d < |s.nodes|
    ensures if d in settled then Settled(s, d) else Waiting(s, d, k)
    ensures d !in settled && s.nodes[d].registered ==> s.nodes[d].joinEpoch != s.gw.epoch
  {
  }

  /** A node in `settled` can only transmit in the slot it owns. */
  lemma SendsInOwnSlot(s: State, e: Event, live: set<nat>, d: nat, i: nat)
    requires Shaped(s) && Clear(s, e, live) && d < |s.nodes| && i < MAX_NODES && Settled(s, d) && Transmits(s, e, d, i)
    ensures Owns(s, d, i)
  {
    assert Restarted(s, e, d) == s.nodes[d];
  }

  lemma WhoSends(s0: State, s: State, e: Event, live: set<nat>, k: nat, settled: set<nat>, i: nat, d: nat)
    requires Shaped(s0) && Shaped(s) && Progress(s0, s, live, k, settled) && Clear(s, e, live)
    requires i < MAX_NODES && d in live && Owns(s, d, i)
    ensures d in settled ==> Transmits(s, e, d, i)
    ensures d !in settled ==> s.gw.slots[i].missed == k && forall c :: 0 <= c < |s.nodes| ==> !Transmits(s, e, c, i)
  {
    hide Progress, Clear, Transmits;
    ProgressFacts(s0, s, live, k, settled);
    OnlySettledTransmit(s0, s, e, live, k, settled);
    ProgressAt(s0, s, live, k, settled, d);
    if d in settled {
      OneSlotEach(s, d, i, s.nodes[d].slotId - 1);
    } else {
      forall c: nat | c < |s.nodes| ensures !Transmits(s, e, c, i) {
        if Transmits(s, e, c, i) {
          ProgressAt(s0, s, live, k, settled, c);
          SendsInOwnSlot(s, e, live, c, i);
          OneOwnerEach(s, c, d, i);
        }
      }
    }
  }

  lemma OneSlotEach(s: State, d: nat, i: nat, j: nat)
    requires Shaped(s) && d < |s.nodes| && i < MAX_NODES && j < MAX_NODES && Owns(s, d, i) && Owns(s, d, j)
    ensures i == j
  {
  }

  lemma OneOwnerEach(s: State, c: nat, d: nat, i: nat)
    requires DistinctUids(s.nodes) && c < |s.nodes| && d < |s.nodes| && i < MAX_NODES && Owns(s, c, i) && Owns(s, d, i)
    ensures c == d
  {
  }

  lemma UplinksReset(s0: State, s: State, e: Event, live: set<nat>, k: nat, settled: set<nat>, i: nat, d: nat)
    requires Shaped(s0) && Shaped(s) && Progress(s0, s, live, k, settled) && Clear(s, e, live) && k < MAX_NODES
    requires i < MAX_NODES && d in live && Owns(s, d, i)
    ensures UplinkZone(s.gw.slots, Decoded(s, e))[i] == s.gw.slots[i].(missed := if d in settled then 0 else k + 1)
  {
    hide Progress, Clear, UplinkZone;
    ClearShaped(s, e, live);
    WhoSends(s0, s, e, live, k, settled, i, d);
    WindowOutcome(s, e, live, i, d);
  }

  // ----- Contention -----

  ghost function OwnerOf(s: State, live: set<nat>, i: nat): (d: nat)
    requires Roster(s, live) && i < MAX_NODES && KnownOwner(s, live, i)
    ensures d in live && Owns(s, d, i)
  {
    var d :| d in live && Owns(s, d, i);
    d
  }

  lemma {:induction false} DistinctFit(xs: seq<nat>, room: set<nat>)
    requires forall i, j :: 0 <= i < j < |xs| ==> xs[i] != xs[j]
    requires forall x :: x in xs ==> x in room
    ensures |xs| <= |room|
  {
    if xs != [] {
      DistinctFit(xs[1..], room - {xs[0]});
    }
  }

  /** Eight slots cannot all belong to the at most seven other devices. */
  lemma RoomForContender(s: State, live: set<nat>, c: nat)
    requires Shaped(s) && Roster(s, live) && |live| <= MAX_NODES && c in live
    requires forall i :: 0 <= i < MAX_NODES && s.gw.slots[i].active ==> KnownOwner(s, live, i)
    ensures !Full(s.gw.slots) || exists i :: 0 <= i < MAX_NODES && s.gw.slots[i].uid == s.nodes[c].uid
  {
    if Full(s.gw.slots) && forall i :: 0 <= i < MAX_NODES ==> s.gw.slots[i].uid != s.nodes[c].uid {
      var owners := seq(MAX_NODES, i requires 0 <= i < MAX_NODES => OwnerOf(s, live, i));
      DistinctFit(owners, live - {c});
    }
  }

  /** The contender is acked with a slot of its own, and no owner loses its slot to it. */
  lemma ContenderJoins(s0: State, s: State, e: Event, live: set<nat>, k: nat, settled: set<nat>, c: nat)
    requires Shaped(s0) && Shaped(s) && Progress(s0, s, live, k, settled) && Clear(s, e, live)
    requires |live| <= MAX_NODES && c in live
    ensures var r := Join(UplinkZone(s.gw.slots, Decoded(s, e)), s.nodes[c].uid);
      && WellFormed(r.slots)
      && OwnersKept(s.gw.slots, r.slots)
      && 1 <= r.target <= MAX_NODES
      && r.slots[r.target - 1].active
      && r.slots[r.target - 1].uid == s.nodes[c].uid
      && r.slots[r.target - 1].missed == 0
      && forall i :: 0 <= i < MAX_NODES && i != r.target - 1 ==> r.slots[i] == UplinkZone(s.gw.slots, Decoded(s, e))[i]
  {
    var a := UplinkZone(s.gw.slots, Decoded(s, e));
    UplinkKeepsOwners(s.gw.slots, Decoded(s, e));
    RoomForContender(s, live, c);
    JoinKeepsOwners(a, s.nodes[c].uid);
    if Full(a) {
      assert Full(s.gw.slots);
      assert forall i :: 0 <= i < MAX_NODES ==> a[i].uid == s.gw.slots[i].uid;
    }
  }

  /** Slot table at the end of the contention window. */
  function Contended(s: State, e: Event): Slots
    requires Shaped(s) && EventShaped(e)
  {
    ContentionZone(UplinkZone(s.gw.slots, Decoded(s, e)), Request(s, e)).slots
  }

  ghost predicate OwnsAfter(s: State, e: Event, d: nat, i: nat)
    requires Shaped(s) && EventShaped(e) && d < |s.nodes| && i < MAX_NODES
  {
    Contended(s, e)[i].active && Contended(s, e)[i].uid == s.nodes[d].uid
  }

  lemma SomeoneContends(s0: State, s: State, e: Event, live: set<nat>, k: nat, settled: set<nat>) returns (c: nat)
    requires Shaped(s0) && Shaped(s) && Progress(s0, s, live, k, settled) && Clear(s, e, live) && k < |live|
    ensures c in live && c !in settled && Contends(s, e, c)
    ensures e.request == Some(c) && c in e.hearsAck
    ensures Request(s, e) == Some(s.nodes[c].uid)
  {
    OnlySettledTransmit(s0, s, e, live, k, settled);
    if live <= settled {
      SubsetSize(live, settled);
    }
    var d :| d in live && d !in settled;
    assert Contends(s, e, d);
    c := e.request.value;
  }

  /** Owners after contention: the contender has its slot, everybody else the slot of before. */
  lemma OwnersAfter(s0: State, s: State, e: Event, live: set<nat>, k: nat, settled: set<nat>, c: nat, i: nat)
    requires Shaped(s0) && Shaped(s) && Progress(s0, s, live, k, settled) && Clear(s, e, live)
    requires |live| <= MAX_NODES && c in live && Request(s, e) == Some(s.nodes[c].uid)
    requires i < MAX_NODES && Contended(s, e)[i].active
    ensures (OwnsAfter(s, e, c, i) && Contended(s, e)[i].missed == 0)
         || (!OwnsAfter(s, e, c, i) && s.gw.slots[i].active
             && Contended(s, e)[i] == UplinkZone(s.gw.slots, Decoded(s, e))[i])
  {
    ContenderJoins(s0, s, e, live, k, settled, c);
    UplinkKeepsOwners(s.gw.slots, Decoded(s, e));
  }

  /** After contention a slot is clean if its owner is back and one superframe older otherwise. */
  lemma ContendedSlot(s0: State, s: State, e: Event, live: set<nat>, k: nat, settled: set<nat>, c: nat, i: nat, d: nat)
    requires Shaped(s0) && Shaped(s) && Progress(s0, s, live, k, settled) && Clear(s, e, live)
    requires |live| <= MAX_NODES && k < MAX_NODES && c in live && Request(s, e) == Some(s.nodes[c].uid)
    requires i < MAX_NODES && d in live && OwnsAfter(s, e, d, i)
    ensures Contended(s, e)[i].missed == if d in settled + {c} then 0 else k + 1
  {
    OwnersAfter(s0, s, e, live, k, settled, c, i);
    if !OwnsAfter(s, e, c, i) {
      UplinkKeepsOwners(s.gw.slots, Decoded(s, e));
      UplinksReset(s0, s, e, live, k, settled, i, d);
    } else {
      SameUid(s, c, d);
    }
  }

  lemma SameUid(s: State, c: nat, d: nat)
    requires DistinctUids(s.nodes) && c < |s.nodes| && d < |s.nodes| && s.nodes[c].uid == s.nodes[d].uid
    ensures c == d
  {
  }

  lemma ContendedKnown(s0: State, s: State, e: Event, live: set<nat>, k: nat, settled: set<nat>, c: nat, i: nat)
    returns (d: nat)
    requires Shaped(s0) && Shaped(s) && Progress(s0, s, live, k, settled) && Clear(s, e, live)
    requires |live| <= MAX_NODES && c in live && Request(s, e) == Some(s.nodes[c].uid)
    requires i < MAX_NODES && Contended(s, e)[i].active
    ensures d in live && OwnsAfter(s, e, d, i)
  {
    OwnersAfter(s0, s, e, live, k, settled, c, i);
    if OwnsAfter(s, e, c, i) {
      d := c;
    } else {
      assert KnownOwner(s, live, i);
      d := OwnerOf(s, live, i);
      UplinkKeepsOwners(s.gw.slots, Decoded(s, e));
    }
  }

  lemma OneStillMissing(live: set<nat>, settled: set<nat>, c: nat, d: nat)
    requires c in live && c !in settled && settled <= live
    requires d in live && d !in settled + {c}
    ensures |settled| + 1 < |live|
  {
    SubsetSize(settled + {c}, live - {d});
  }

  /** Nobody is evicted: eight misses need an eighth superframe, and by then all are back. */
  lemma NoEviction(s0: State, s: State, e: Event, live: set<nat>, k: nat, settled: set<nat>, c: nat)
    requires Shaped(s0) && Shaped(s) && Progress(s0, s, live, k, settled) && Clear(s, e, live)
    requires |live| <= MAX_NODES && k < |live|
    requires c in live && c !in settled && Request(s, e) == Some(s.nodes[c].uid)
    ensures !AnyStale(Contended(s, e))
  {
    ProgressFacts(s0, s, live, k, settled);
    hide Progress, Clear, Contended, OwnsAfter;
    ClearShaped(s, e, live);
    if AnyStale(Contended(s, e)) {
      var i: nat :| i < MAX_NODES && Stale(Contended(s, e)[i]);
      var d := ContendedKnown(s0, s, e, live, k, settled, c, i);
      ContendedSlot(s0, s, e, live, k, settled, c, i, d);
      if d !in settled + {c} {
        OneStillMissing(live, settled, c, d);
      }
    }
  }

  /** The table after a clear superframe is the one contention left. */
  lemma ClearTable(s0: State, s: State, e: Event, live: set<nat>, k: nat, settled: set<nat>, c: nat)
    requires Shaped(s0) && Shaped(s) && Progress(s0, s, live, k, settled) && Clear(s, e, live)
    requires |live| <= MAX_NODES && k < |live|
    requires c in live && c !in settled && Request(s, e) == Some(s.nodes[c].uid)
    ensures Step(s, e).gw == Table(Contended(s, e), s.gw.epoch)
    ensures OwnersKept(s.gw.slots, Contended(s, e))
  {
    NoEviction(s0, s, e, live, k, settled, c);
    ContenderJoins(s0, s, e, live, k, settled, c);
  }

  /** The nodes after a clear superframe: one more settled, the rest unregistered. */
  lemma ClearNodes(s0: State, s: State, e: Event, live: set<nat>, k: nat, settled: set<nat>, c: nat, d: nat)
    requires Shaped(s0) && Shaped(s) && Progress(s0, s, live, k, settled) && Clear(s, e, live)
    requires |live| <= MAX_NODES && k < |live|
    requires c in live && c !in settled && c in e.hearsAck && Request(s, e) == Some(s.nodes[c].uid)
    requires d in live
    ensures NodeAfter(s, e, d).uid == s.nodes[d].uid
    ensures d !in settled + {c} ==> !NodeAfter(s, e, d).registered
    ensures d in settled ==> NodeAfter(s, e, d) == s.nodes[d].(lastBeaconEpoch := s.gw.epoch) && Settled(s, d)
    ensures d == c ==>
              var n := NodeAfter(s, e, c);
              && n.registered && n.joinEpoch == s.gw.epoch && 1 <= n.slotId <= MAX_NODES
              && OwnsAfter(s, e, c, n.slotId - 1)
  {
    OnlySettledTransmit(s0, s, e, live, k, settled);
    if d == c {
      ContenderJoins(s0, s, e, live, k, settled, c);
    } else if d !in settled {
      if s.nodes[d].uid == s.nodes[c].uid {
        SameUid(s, c, d);
      }
    }
  }

  lemma StepNode(s: State, e: Event, d: nat)
    requires Shaped(s) && EventShaped(e) && d < |s.nodes|
    ensures Shaped(Step(s, e)) && |Step(s, e).nodes| == |s.nodes|
    ensures Step(s, e).nodes[d] == NodeAfter(s, e, d) && Step(s, e).nodes[d].uid == s.nodes[d].uid
  {
    StepShaped(s, e);
  }

  /** The slot a node of `settled + {c}` is registered in is its own, and clean. */
  lemma BackInSlot(s0: State, s: State, e: Event, live: set<nat>, k: nat, settled: set<nat>, c: nat, d: nat)
    requires Shaped(s0) && Shaped(s) && Progress(s0, s, live, k, settled) && Clear(s, e, live)
    requires |live| <= MAX_NODES && k < |live|
    requires c in live && c !in settled && c in e.hearsAck && Request(s, e) == Some(s.nodes[c].uid)
    requires d in settled + {c}
    ensures d < |s.nodes|
    ensures var n := NodeAfter(s, e, d);
      && n.registered && n.joinEpoch == s.gw.epoch && 1 <= n.slotId <= MAX_NODES
      && OwnsAfter(s, e, d, n.slotId - 1) && Contended(s, e)[n.slotId - 1].missed == 0
  {
    hide Progress, Clear, Contended, NodeAfter, Step;
    ClearShaped(s, e, live);
    ProgressFacts(s0, s, live, k, settled);
    ClearTable(s0, s, e, live, k, settled, c);
    ClearNodes(s0, s, e, live, k, settled, c, d);
    ContendedSlot(s0, s, e, live, k, settled, c, NodeAfter(s, e, d).slotId - 1, d);
  }

  /** The others are unregistered, and their slots one superframe older. */
  lemma StillWaiting(s0: State, s: State, e: Event, live: set<nat>, k: nat, settled: set<nat>, c: nat, d: nat)
    requires Shaped(s0) && Shaped(s) && Progress(s0, s, live, k, settled) && Clear(s, e, live)
    requires |live| <= MAX_NODES && k < |live|
    requires c in live && c !in settled && c in e.hearsAck && Request(s, e) == Some(s.nodes[c].uid)
    requires d in live && d !in settled + {c}
    ensures !NodeAfter(s, e, d).registered
    ensures forall i: nat :: i < MAX_NODES && OwnsAfter(s, e, d, i) ==> Contended(s, e)[i].missed == k + 1
  {
    ClearNodes(s0, s, e, live, k, settled, c, d);
    hide Progress, Clear, Contended, NodeAfter;
    ClearShaped(s, e, live);
    forall i: nat | i < MAX_NODES && OwnsAfter(s, e, d, i)
      ensures Contended(s, e)[i].missed == k + 1
    {
      ContendedSlot(s0, s, e, live, k, settled, c, i, d);
    }
  }

  lemma NodeProgress(s0: State, s: State, e: Event, live: set<nat>, k: nat, settled: set<nat>, c: nat, d: nat)
    requires Shaped(s0) && Shaped(s) && Progress(s0, s, live, k, settled) && Clear(s, e, live)
    requires |live| <= MAX_NODES && k < |live|
    requires c in live && c !in settled && c in e.hearsAck && Request(s, e) == Some(s.nodes[c].uid)
    requires d in live
    ensures d < |s.nodes| && Shaped(Step(s, e))
    ensures d in settled + {c} ==> Settled(Step(s, e), d)
    ensures d !in settled + {c} ==> Waiting(Step(s, e), d, k + 1) && !Step(s, e).nodes[d].registered
  {
    hide Progress, Clear, Contended, NodeAfter, Step;
    ClearShaped(s, e, live);
    StepNode(s, e, d);
    ClearTable(s0, s, e, live, k, settled, c);
    assert forall i: nat :: i < MAX_NODES && Owns(Step(s, e), d, i) ==> OwnsAfter(s, e, d, i);
    if d in settled + {c} {
      BackInSlot(s0, s, e, live, k, settled, c, d);
    } else {
      StillWaiting(s0, s, e, live, k, settled, c, d);
    }
  }

  lemma OwnersKnown(s0: State, s: State, e: Event, live: set<nat>, k: nat, settled: set<nat>, c: nat, i: nat)
    requires Shaped(s0) && Shaped(s) && Progress(s0, s, live, k, settled) && Clear(s, e, live)
    requires |live| <= MAX_NODES && k < |live|
    requires c in live && c !in settled && Request(s, e) == Some(s.nodes[c].uid)
    requires i < MAX_NODES && Step(s, e).gw.slots[i].active
    ensures Roster(Step(s, e), live) && KnownOwner(Step(s, e), live, i)
  {
    hide Progress, Clear, Contended;
    ClearShaped(s, e, live);
    StepShaped(s, e);
    ClearTable(s0, s, e, live, k, settled, c);
    var d := ContendedKnown(s0, s, e, live, k, settled, c, i);
    assert Owns(Step(s, e), d, i);
  }

  lemma DevicesStay(s0: State, s: State, e: Event, live: set<nat>, k: nat, settled: set<nat>, c: nat)
    requires Shaped(s0) && Shaped(s) && Progress(s0, s, live, k, settled) && Clear(s, e, live)
    requires |live| <= MAX_NODES && k < |live|
    requires c in live && c !in settled && Request(s, e) == Some(s.nodes[c].uid)
    ensures Shaped(Step(s, e)) && SameDevices(s0, Step(s, e)) && DistinctUids(Step(s, e).nodes)
    ensures Step(s, e).gw.epoch == s0.gw.epoch && OwnersKept(s0.gw.slots, Step(s, e).gw.slots)
    ensures Roster(Step(s, e), live) && settled + {c} <= live && |settled + {c}| == k + 1
  {
    hide Progress, Clear, Step, Contended;
    ClearShaped(s, e, live);
    StepShaped(s, e);
    ProgressFacts(s0, s, live, k, settled);
    ClearTable(s0, s, e, live, k, settled, c);
  }

  lemma NodesProgress(s0: State, s: State, e: Event, live: set<nat>, k: nat, settled: set<nat>, c: nat)
    requires Shaped(s0) && Shaped(s) && Progress(s0, s, live, k, settled) && Clear(s, e, live)
    requires |live| <= MAX_NODES && k < |live|
    requires c in live && c !in settled && c in e.hearsAck && Request(s, e) == Some(s.nodes[c].uid)
    ensures Shaped(Step(s, e)) && Roster(Step(s, e), live)
    ensures forall d :: d in live && d in settled + {c} ==> Settled(Step(s, e), d)
    ensures forall d :: d in live && d !in settled + {c} ==>
              Waiting(Step(s, e), d, k + 1) && !Step(s, e).nodes[d].registered
  {
    hide Progress, Clear, Settled, Waiting, Step;
    ClearShaped(s, e, live);
    StepShaped(s, e);
    forall d | d in live
      ensures d in settled + {c} ==> Settled(Step(s, e), d)
      ensures d !in settled + {c} ==> Waiting(Step(s, e), d, k + 1) && !Step(s, e).nodes[d].registered
    {
      NodeProgress(s0, s, e, live, k, settled, c, d);
    }
  }

  /** One clear superframe brings exactly one more node back. */
  lemma ProgressStep(s0: State, s: State, e: Event, live: set<nat>, k: nat, settled: set<nat>)
    returns (settled': set<nat>)
    requires Shaped(s0) && Shaped(s) && Progress(s0, s, live, k, settled) && Clear(s, e, live)
    requires |live| <= MAX_NODES && k < |live|
    ensures Shaped(Step(s, e)) && Progress(s0, Step(s, e), live, k + 1, settled')
    ensures e.request.Some? && settled' == settled + {e.request.value}
  {
    var c := SomeoneContends(s0, s, e, live, k, settled);
    settled' := settled + {c};
    DevicesStay(s0, s, e, live, k, settled, c);
    NodesProgress(s0, s, e, live, k, settled, c);
    var t := Step(s, e);
    forall i: nat | i < MAX_NODES && t.gw.slots[i].active
      ensures KnownOwner(t, live, i)
    {
      OwnersKnown(s0, s, e, live, k, settled, c, i);
    }
    hide *;
    AssembleProgress(s0, t, live, k + 1, settled');
  }

  lemma AssembleProgress(s0: State, t: State, live: set<nat>, k: nat, settled: set<nat>)
    requires Shaped(s0) && Shaped(t)
    requires SameDevices(s0, t) && DistinctUids(t.nodes) && t.gw.epoch == s0.gw.epoch
    requires OwnersKept(s0.gw.slots, t.gw.slots) && Roster(t, live) && settled <= live && |settled| == k
    requires forall d :: d in live && d in settled ==> Settled(t, d)
    requires forall d :: d in live && d !in settled ==> Waiting(t, d, k) && !t.nodes[d].registered
    requires forall i: nat :: i < MAX_NODES && t.gw.slots[i].active ==> KnownOwner(t, live, i)
    ensures Progress(s0, t, live, k, settled)
  {
  }

  // ----- Runs -----

  lemma ClearPrefix(s0: State, evs: seq<Event>, live: set<nat>)
    requires Shaped(s0) && EventsShaped(evs) && RunClear(s0, evs, live) && evs != []
    ensures var n := |evs| - 1; EventsShaped(evs[..n]) && RunClear(s0, evs[..n], live)
  {
    hide Clear, Run;
    var before := evs[..|evs| - 1];
    forall k | 0 <= k < |before| ensures Clear(Run(s0, before[..k]), before[k], live) {
      assert before[..k] == evs[..k];
    }
  }

  lemma ClearLast(s0: State, evs: seq<Event>, live: set<nat>)
    requires Shaped(s0) && EventsShaped(evs) && RunClear(s0, evs, live) && evs != []
    ensures var n := |evs| - 1;
      && EventsShaped(evs[..n]) && EventShaped(evs[n])
      && Clear(Run(s0, evs[..n]), evs[n], live)
      && Run(s0, evs) == Step(Run(s0, evs[..n]), evs[n])
  {
    hide Clear, Step, Run;
    RunLast(s0, evs);
  }

  lemma NoneSettled(s0: State, live: set<nat>)
    requires Aftermath(s0, live)
    ensures Shaped(s0) && |live| <= MAX_NODES && Progress(s0, s0, live, 0, {})
  {
  }

  lemma {:induction false} RunProgress(s0: State, evs: seq<Event>, live: set<nat>) returns (settled: set<nat>)
    requires Aftermath(s0, live) && EventsShaped(evs) && RunClear(s0, evs, live) && |evs| <= |live|
    ensures Progress(s0, Run(s0, evs), live, |evs|, settled)
    decreases |evs|
  {
    hide Progress, Clear, Step, RunClear, Aftermath;
    NoneSettled(s0, live);
    if evs == [] {
      settled := {};
    } else {
      var n := |evs| - 1;
      ClearPrefix(s0, evs, live);
      ClearLast(s0, evs, live);
      var before := RunProgress(s0, evs[..n], live);
      settled := ProgressStep(s0, Run(s0, evs[..n]), evs[n], live, n, before);
    }
  }

  /** Every live device is registered in the epoch of `s0` and every owner is in its old slot. */
  ghost predicate Healed(s0: State, t: State, live: set<nat>)
    requires Shaped(s0) && Shaped(t) && Roster(s0, live) && Roster(t, live)
  {
    && t.gw.epoch == s0.gw.epoch
    && OwnersKept(s0.gw.slots, t.gw.slots)
    && (forall d :: d in live ==> Settled(t, d))
    && (forall d: nat, i: nat :: d in live && i < MAX_NODES && Owns(s0, d, i) ==> t.nodes[d].slotId == i + 1)
  }

  /**
   * After as many clear superframes as there are live devices, at most eight, every one of
   * them is registered under the epoch of the eviction, no owner has lost its slot, and
   * whoever owned slot i before is registered in slot i again.
   */
  lemma EveryoneRecovers(s0: State, evs: seq<Event>, live: set<nat>)
    requires Aftermath(s0, live) && EventsShaped(evs) && RunClear(s0, evs, live) && |evs| == |live|
    ensures Roster(Run(s0, evs), live) && Healed(s0, Run(s0, evs), live)
  {
    var settled := RunProgress(s0, evs, live);
    hide RunClear, Aftermath, Run;
    AllBack(s0, Run(s0, evs), live, settled);
  }

  lemma AllBack(s0: State, t: State, live: set<nat>, settled: set<nat>)
    requires Shaped(s0) && Shaped(t) && Roster(s0, live) && Progress(s0, t, live, |live|, settled)
    ensures Roster(t, live) && Healed(s0, t, live)
  {
    forall d | d in live
      ensures d in settled
    {
      if d !in settled {
        SubsetSize(settled, live - {d});
      }
    }
    forall d: nat, i: nat | d in live && i < MAX_NODES && Owns(s0, d, i)
      ensures t.nodes[d].slotId == i + 1
    {
      assert Settled(t, d) && t.nodes[d].registered;
      assert N.WellFormed(t.nodes[d]);
      assert s0.nodes[d].uid == t.nodes[d].uid;
      OneSlotEach(t, d, i, t.nodes[d].slotId - 1);
    }
  }

  // ----- Clear superframes are always possible -----

  /** The settled node of slot index i, if there is one. */
  ghost function SettledIn(s: State, settled: set<nat>, i: nat): (u: Option<nat>)
    requires Roster(s, settled)
    ensures u.Some? ==> u.value in settled && s.nodes[u.value].slotId == i + 1
    ensures u.None? ==> forall d :: d in settled ==> s.nodes[d].slotId != i + 1
  {
    if exists d :: d in settled && s.nodes[d].slotId == i + 1
    then var d :| d in settled && s.nodes[d].slotId == i + 1; Some(d)
    else None
  }

  /** A radio that works: every settled node is heard in its slot, one contender gets through. */
  ghost function ClearEvent(s: State, live: set<nat>, settled: set<nat>, c: nat): (e: Event)
    requires Roster(s, settled)
    ensures EventShaped(e)
  {
    Event({}, live, seq(MAX_NODES, i requires 0 <= i < MAX_NODES => SettledIn(s, settled, i)), Some(c), live)
  }

  /** With live nodes hearing an undisturbed beacon, the settled ones transmit and the others contend. */
  lemma WhoHears(s0: State, s: State, e: Event, live: set<nat>, k: nat, settled: set<nat>, d: nat)
    requires Shaped(s0) && Shaped(s) && Progress(s0, s, live, k, settled)
    requires e.reboots == {} && e.hears == live && d < |s.nodes|
    ensures Contends(s, e, d) <==> d in live && d !in settled
    ensures forall i: nat :: i < MAX_NODES && Transmits(s, e, d, i) ==> d in settled && s.nodes[d].slotId == i + 1
  {
    hide Progress, Waiting;
    ProgressFacts(s0, s, live, k, settled);
    assert Restarted(s, e, d) == s.nodes[d];
    if d in live {
      ProgressAt(s0, s, live, k, settled, d);
    }
  }

  lemma ClearEventIsClear(s0: State, s: State, live: set<nat>, k: nat, settled: set<nat>, c: nat)
    requires Shaped(s0) && Shaped(s) && Progress(s0, s, live, k, settled) && c in live && c !in settled
    ensures Roster(s, settled) && Clear(s, ClearEvent(s, live, settled, c), live)
  {
    ProgressFacts(s0, s, live, k, settled);
    hide Progress, Contends, Transmits, Settled;
    var e := ClearEvent(s, live, settled, c);
    WhoHears(s0, s, e, live, k, settled, c);
    forall d: nat, i: nat | d < |s.nodes| && i < MAX_NODES && Transmits(s, e, d, i)
      ensures e.uplinks[i] == Some(d)
    {
      WhoHears(s0, s, e, live, k, settled, d);
      OneSettledPerSlot(s0, s, live, k, settled, d, SettledIn(s, settled, i).value);
    }
  }

  lemma OneSettledPerSlot(s0: State, s: State, live: set<nat>, k: nat, settled: set<nat>, d: nat, u: nat)
    requires Shaped(s0) && Shaped(s) && Progress(s0, s, live, k, settled) && d in settled && u in settled
    requires d < |s.nodes| && u < |s.nodes| && s.nodes[d].slotId == s.nodes[u].slotId
    ensures d == u
  {
    ProgressAt(s0, s, live, k, settled, d);
    ProgressAt(s0, s, live, k, settled, u);
    OneOwnerEach(s, d, u, s.nodes[d].slotId - 1);
  }

  lemma ClearExtends(s0: State, before: seq<Event>, e: Event, live: set<nat>)
    requires Shaped(s0) && EventsShaped(before) && RunClear(s0, before, live)
    requires Clear(Run(s0, before), e, live) && EventShaped(e)
    ensures EventsShaped(before + [e]) && RunClear(s0, before + [e], live)
    ensures Run(s0, before + [e]) == Step(Run(s0, before), e)
  {
    hide Clear, Run, Step;
    var evs := before + [e];
    assert evs[..|before|] == before;
    RunLast(s0, evs);
    assert EventsShaped(evs);
    forall k | 0 <= k < |evs| ensures Clear(Run(s0, evs[..k]), evs[k], live) {
      if k < |before| {
        assert evs[..k] == before[..k];
      } else {
        assert evs[..k] == before;
      }
    }
  }

  /** Clear superframes in which everybody but `spared` may come back. */
  lemma {:induction false} ClearRun(s0: State, live: set<nat>, spared: set<nat>, n: nat)
    returns (evs: seq<Event>, settled: set<nat>)
    requires Aftermath(s0, live) && spared <= live && n + |spared| <= |live|
    ensures |evs| == n && EventsShaped(evs) && RunClear(s0, evs, live)
    ensures Progress(s0, Run(s0, evs), live, n, settled) && settled !! spared
  {
    hide Progress, Clear, Aftermath, Run, RunClear, Step;
    NoneSettled(s0, live);
    if n == 0 {
      evs, settled := [], {};
      RunNone(s0, live);
    } else {
      var before, settled' := ClearRun(s0, live, spared, n - 1);
      var s := Run(s0, before);
      ProgressFacts(s0, s, live, n - 1, settled');
      var c := SomeoneLeft(live, settled', spared);
      ClearEventIsClear(s0, s, live, n - 1, settled', c);
      var e := ClearEvent(s, live, settled', c);
      ClearExtends(s0, before, e, live);
      evs := before + [e];
      settled := ProgressStep(s0, s, e, live, n - 1, settled');
    }
  }

  lemma RunNone(s0: State, live: set<nat>)
    requires Shaped(s0)
    ensures Run(s0, []) == s0 && RunClear(s0, [], live)
  {
  }

  lemma SomeoneLeft(live: set<nat>, settled: set<nat>, spared: set<nat>) returns (c: nat)
    requires settled <= live && spared <= live && settled !! spared && |settled| + |spared| < |live|
    ensures c in live && c !in settled && c !in spared
  {
    if live <= settled + spared {
      SubsetSize(live, settled + spared);
    }
    c :| c in live && c !in settled + spared;
  }

  /** From every aftermath there is a way back, and it takes one superframe per live device. */
  lemma RecoveryPossible(s0: State, live: set<nat>) returns (evs: seq<Event>)
    requires Aftermath(s0, live)
    ensures |evs| == |live| && EventsShaped(evs) && RunClear(s0, evs, live)
    ensures Roster(Run(s0, evs), live) && Healed(s0, Run(s0, evs), live)
  {
    var settled;
    evs, settled := ClearRun(s0, live, {}, |live|);
    hide *;
    EveryoneRecovers(s0, evs, live);
  }

  // ----- How tight it is -----

  lemma SettledOwns(s: State, d: nat)
    requires Shaped(s) && d < |s.nodes| && Settled(s, d)
    ensures 1 <= s.nodes[d].slotId <= MAX_NODES && Owns(s, d, s.nodes[d].slotId - 1)
    ensures s.gw.slots[s.nodes[d].slotId - 1].active
  {
  }

  /** Settled nodes own as many slots. */
  lemma {:induction false} SlotsOfSettled(s: State, ds: set<nat>) returns (owned: set<nat>)
    requires Shaped(s) && Roster(s, ds) && DistinctUids(s.nodes) && forall d :: d in ds ==> Settled(s, d)
    ensures |owned| == |ds|
    ensures forall i :: i in owned ==> i < MAX_NODES && s.gw.slots[i].active && exists d :: d in ds && Owns(s, d, i)
    decreases ds
  {
    if ds == {} {
      owned := {};
    } else {
      hide Settled, Owns;
      var d :| d in ds;
      var others := SlotsOfSettled(s, ds - {d});
      var i := s.nodes[d].slotId - 1;
      SettledOwns(s, d);
      if i in others {
        var c :| c in ds - {d} && Owns(s, c, i);
        OneOwnerEach(s, c, d, i);
      }
      owned := others + {i};
    }
  }

  /** With seven settled and an eighth that owns slot index i, no slot is free. */
  lemma TableIsFull(s: State, settled: set<nat>, c: nat, i: nat)
    requires Shaped(s) && Roster(s, settled) && DistinctUids(s.nodes)
    requires (forall d :: d in settled ==> Settled(s, d)) && |settled| == MAX_NODES - 1
    requires c < |s.nodes| && c !in settled && i < MAX_NODES && Owns(s, c, i)
    ensures Full(s.gw.slots)
  {
    hide Settled, Full;
    var owned := SlotsOfSettled(s, settled);
    if i in owned {
      var d :| d in settled && Owns(s, d, i);
      OneOwnerEach(s, c, d, i);
    }
    EightActive(s.gw.slots, owned + {i});
  }

  lemma EightActive(slots: Slots, all: set<nat>)
    requires |all| == MAX_NODES && forall i :: i in all ==> i < MAX_NODES && slots[i].active
    ensures Full(slots)
  {
    forall j: nat | j < MAX_NODES
      ensures j in all
    {
      if j !in all {
        SubsetSize(all, {0, 1, 2, 3, 4, 5, 6, 7} - {j});
      }
    }
  }

  lemma SettledAll(s0: State, s: State, live: set<nat>, k: nat, settled: set<nat>)
    requires Shaped(s0) && Shaped(s) && Progress(s0, s, live, k, settled)
    ensures Roster(s, settled) && forall d :: d in settled ==> Settled(s, d)
  {
  }

  lemma LastOneStaleInTime(s0: State, s: State, last: Event, live: set<nat>, settled: set<nat>, i: nat)
    requires Shaped(s0) && Shaped(s) && Progress(s0, s, live, MAX_NODES - 1, settled) && Clear(s, last, live)
    requires |live| == MAX_NODES
    requires i < MAX_NODES && s.gw.slots[i].active && Request(s, last) == Some(s.gw.slots[i].uid)
    ensures var a := UplinkZone(s.gw.slots, Decoded(s, last)); Stale(a[i]) && Evicts(a)
    ensures !Stale(Contended(s, last)[i])
    ensures GatewayAfter(s, last).slots[i].active
  {
    hide Progress, Clear, Contended, UplinkZone, Settled;
    ClearShaped(s, last, live);
    ProgressFacts(s0, s, live, MAX_NODES - 1, settled);
    var c := SomeoneContends(s0, s, last, live, MAX_NODES - 1, settled);
    assert Owns(s, c, i);
    UplinksReset(s0, s, last, live, MAX_NODES - 1, settled, i, c);
    SettledAll(s0, s, live, MAX_NODES - 1, settled);
    TableIsFull(s, settled, c, i);
    UplinkKeepsOwners(s.gw.slots, Decoded(s, last));
    assert Stale(UplinkZone(s.gw.slots, Decoded(s, last))[i]);
    NoEviction(s0, s, last, live, MAX_NODES - 1, settled, c);
    ClearTable(s0, s, last, live, MAX_NODES - 1, settled, c);
    assert GatewayAfter(s, last) == Step(s, last).gw;
  }

  /**
   * The last of eight survivors is stale after the uplink windows of its eighth superframe, in
   * a table in which eviction would act: run before contention, eviction would take the slot.
   * Run after it, as it is, it does not.
   */
  lemma LastSurvivorIsStale(s0: State, evs: seq<Event>, last: Event, live: set<nat>, i: nat)
    requires Aftermath(s0, live) && |live| == MAX_NODES
    requires EventsShaped(evs) && RunClear(s0, evs, live) && |evs| == MAX_NODES - 1
    requires Clear(Run(s0, evs), last, live)
    requires i < MAX_NODES && s0.gw.slots[i].active && Request(Run(s0, evs), last) == Some(s0.gw.slots[i].uid)
    ensures var s := Run(s0, evs);
      && (var a := UplinkZone(s.gw.slots, Decoded(s, last)); Evicts(a) && !EvictEntry(a[i]).active)
      && !Stale(Contended(s, last)[i])
      && GatewayAfter(s, last).slots[i].active
  {
    var settled := RunProgress(s0, evs, live);
    var s := Run(s0, evs);
    hide RunClear, Run, Clear;
    LastOneStaleInTime(s0, s, last, live, settled, i);
  }

  /** Any owner among eight survivors can be the last one: here are the superframes. */
  lemma AnyoneCanBeLast(s0: State, live: set<nat>, d: nat, i: nat) returns (evs: seq<Event>, last: Event)
    requires Aftermath(s0, live) && |live| == MAX_NODES && d in live && i < MAX_NODES && Owns(s0, d, i)
    ensures |evs| == MAX_NODES - 1 && EventsShaped(evs) && RunClear(s0, evs, live)
    ensures Clear(Run(s0, evs), last, live) && Request(Run(s0, evs), last) == Some(s0.gw.slots[i].uid)
    ensures var s := Run(s0, evs);
      && (var a := UplinkZone(s.gw.slots, Decoded(s, last)); Evicts(a) && !EvictEntry(a[i]).active)
      && GatewayAfter(s, last).slots[i].active
  {
    var settled;
    evs, settled := ClearRun(s0, live, {d}, MAX_NODES - 1);
    var s := Run(s0, evs);
    NoneSettled(s0, live);
    hide Progress, Clear, Aftermath, Run, RunClear, UplinkZone, Decoded, Contends, Transmits;
    ProgressFacts(s0, s, live, MAX_NODES - 1, settled);
    last := ClearEvent(s, live, settled, d);
    ClearEventIsClear(s0, s, live, MAX_NODES - 1, settled, d);
    WhoHears(s0, s, last, live, MAX_NODES - 1, settled, d);
    LastSurvivorIsStale(s0, evs, last, live, i);
  }
}
