/**
 * Evictions do happen, and they heal: eight devices join one after the other, the first falls
 * silent at once and loses its slot in superframe 8, and all eight are back eight superframes
 * later.
 */
module FirstEviction {
  import opened Protocol
  import opened Words
  import opened SlotTable
  import opened Network
  import opened GhostUplinks
  import opened Recovery
  import opened EvictionCycle
  import N = NodeTask

  const DEVICES: set<nat> := {0, 1, 2, 3, 4, 5, 6, 7}

  function Uid(d: nat): UInt16
    requires d < 8
  {
    d + 1
  }

  function SlotAt(i: nat, r: nat): Entry
    requires i < MAX_NODES && r <= 8
  {
    if r <= i then Entry(false, 0, 0, 0) else Entry(true, i + 1, Uid(i), if i == 0 then r - 1 else 0)
  }

  function DeviceAt(d: nat, r: nat): N.Node
    requires d < 8
  {
    if r <= d then N.Boot(Uid(d)) else N.Node(Uid(d), true, d + 1, 0, 0)
  }

  function LastHeard(d: nat, r: nat): nat {
    if d == 0 || r <= d then 0 else r - 1
  }

  /** State before superframe `r`: devices 0 to r - 1 have joined, device 0 is silent since. */
  ghost function StateAt(r: nat): State
    requires r <= 8
  {
    State(Table(seq(MAX_NODES, i requires 0 <= i < MAX_NODES => SlotAt(i, r)), 0),
          seq(8, d requires 0 <= d < 8 => DeviceAt(d, r)), r,
          seq(r + 1, k => 0),
          seq(8, d requires 0 <= d < 8 => LastHeard(d, r)))
  }

  /** Devices 1 to r - 1 send in their slots, device r joins. */
  function EventAt(r: nat): Event
    requires r <= 8
  {
    Event({}, set d | d in DEVICES && (d == r || 1 <= d < r),
          seq(MAX_NODES, i requires 0 <= i < MAX_NODES => if 1 <= i < r then Some(i) else None),
          if r < 8 then Some(r) else None, {r})
  }

  lemma StateAtShaped(r: nat)
    requires r <= 8
    ensures Shaped(StateAt(r)) && EventShaped(EventAt(r))
    ensures r == 0 ==> Boot(StateAt(r))
  {
  }

  function Received(r: nat): seq<Option<UInt16>> {
    seq(MAX_NODES, i requires 0 <= i < MAX_NODES => if 1 <= i < r then Some(Uid(i)) else None)
  }

  lemma WhatIsDecoded(r: nat)
    requires r <= 8
    ensures Shaped(StateAt(r)) && Decoded(StateAt(r), EventAt(r)) == Received(r)
  {
    StateAtShaped(r);
    var s, e := StateAt(r), EventAt(r);
    forall i: nat | i < MAX_NODES
      ensures Decoded(s, e)[i] == Received(r)[i]
    {
      if 1 <= i < r {
        assert Restarted(s, e, i) == DeviceAt(i, r);
        assert Occupied(s.gw.slots)[i];
      }
    }
  }

  lemma WhoRequests(r: nat)
    requires r <= 8
    ensures Shaped(StateAt(r))
    ensures Request(StateAt(r), EventAt(r)) == if r < 8 then Some(Uid(r)) else None
    ensures r < 8 ==> Contends(StateAt(r), EventAt(r), r)
  {
    StateAtShaped(r);
  }

  /** Slot table after contention: the joiner is in, device 0 has missed one more superframe. */
  function ContentionAt(i: nat, r: nat): Entry
    requires i < MAX_NODES && r <= 8
  {
    if r < 8 then SlotAt(i, r + 1) else Entry(true, i + 1, Uid(i), if i == 0 then 8 else 0)
  }

  lemma TableAfterContention(r: nat)
    requires r <= 8
    ensures var a := UplinkZone(StateAt(r).gw.slots, Received(r));
      var c := ContentionZone(a, if r < 8 then Some(Uid(r)) else None);
      && (forall i :: 0 <= i < MAX_NODES ==> c.slots[i] == ContentionAt(i, r))
      && (r < 8 ==> c.target == r + 1)
  {
    var a := UplinkZone(StateAt(r).gw.slots, Received(r));
    forall i | 0 <= i < MAX_NODES
      ensures a[i] == if i == r then Entry(false, 0, 0, 0) else ContentionAt(i, r)
    {
    }
    if r < 8 {
      JoinTakesFirstFree(a, Uid(r), r);
    }
  }

  function EvictedAt(i: nat): Entry
    requires i < MAX_NODES
  {
    Entry(i != 0, i + 1, Uid(i), 0)
  }

  function TableAfter(r: nat): Table
    requires r <= 8
  {
    if r < 8 then Table(seq(MAX_NODES, i requires 0 <= i < MAX_NODES => SlotAt(i, r + 1)), 0)
    else Table(seq(MAX_NODES, i requires 0 <= i < MAX_NODES => EvictedAt(i)), 1)
  }

  lemma EvictionStep(b: Slots, r: nat)
    requires r <= 8 && forall i :: 0 <= i < MAX_NODES ==> b[i] == ContentionAt(i, r)
    ensures EvictionZone(Table(b, 0)) == TableAfter(r)
  {
    if r < 8 {
      assert !AnyStale(b);
    } else {
      assert Stale(b[0]) && Full(b);
    }
    assert EvictionZone(Table(b, 0)).slots == TableAfter(r).slots;
  }

  lemma GatewayStep(r: nat)
    requires r <= 8
    ensures Shaped(StateAt(r)) && EventShaped(EventAt(r))
    ensures GatewayAfter(StateAt(r), EventAt(r)) == TableAfter(r)
  {
    StateAtShaped(r);
    hide Decoded, Request, UplinkZone, Received, ContentionZone, ContentionAt, EventAt, EvictionZone;
    WhatIsDecoded(r);
    WhoRequests(r);
    TableAfterContention(r);
    var a := UplinkZone(StateAt(r).gw.slots, Received(r));
    EvictionStep(ContentionZone(a, if r < 8 then Some(Uid(r)) else None).slots, r);
  }

  lemma DeviceStep(r: nat, d: nat)
    requires r < 8 && d < 8
    ensures Shaped(StateAt(r)) && NodeAfter(StateAt(r), EventAt(r), d) == DeviceAt(d, r + 1)
    ensures LastHeard(d, r + 1) == if d in EventAt(r).hears then r else LastHeard(d, r)
  {
    StateAtShaped(r);
    var s, e := StateAt(r), EventAt(r);
    assert Restarted(s, e, d) == DeviceAt(d, r);
    if d == r {
      WhatIsDecoded(r);
      WhoRequests(r);
      TableAfterContention(r);
    } else if 1 <= d < r {
      assert Occupied(s.gw.slots)[d];
    }
  }

  lemma RunStep(r: nat)
    requires r < 8
    ensures Shaped(StateAt(r)) && EventShaped(EventAt(r)) && Step(StateAt(r), EventAt(r)) == StateAt(r + 1)
  {
    hide NodeAfter, GatewayAfter, DeviceAt, SlotAt, LastHeard, EventAt;
    StateAtShaped(r);
    GatewayStep(r);
    var s, e, u := StateAt(r), EventAt(r), StateAt(r + 1);
    forall d | 0 <= d < 8
      ensures NodeAfter(s, e, d) == u.nodes[d]
      ensures u.heardAt[d] == if d in e.hears then r else s.heardAt[d]
    {
      DeviceStep(r, d);
    }
    var t := Step(s, e);
    assert t.eras == u.eras && t.nodes == u.nodes && t.heardAt == u.heardAt;
  }

  function Joining(r: nat): (evs: seq<Event>)
    requires r <= 9
    ensures |evs| == r
  {
    seq(r, k requires 0 <= k < r => EventAt(k))
  }

  lemma {:induction false} JoiningStates(r: nat)
    requires r <= 8
    ensures Shaped(StateAt(0)) && EventsShaped(Joining(r)) && Run(StateAt(0), Joining(r)) == StateAt(r)
  {
    hide StateAt, EventAt, Step;
    StateAtShaped(0);
    if r == 0 {
      assert Joining(0) == [];
    } else {
      JoiningStates(r - 1);
      RunStep(r - 1);
      assert Joining(r)[..r - 1] == Joining(r - 1);
    }
  }

  lemma AlwaysRecent(r: nat)
    requires r <= 8
    ensures Shaped(StateAt(r)) && HeardWithin(StateAt(r), EventAt(r), MAX_DEAF_SFS)
  {
    StateAtShaped(r);
    hide SlotAt, DeviceAt, EventAt;
  }

  /** The state after superframe 8: slot 1 is free, the epoch is 1, everybody else was just heard. */
  ghost function Evicted(): (t: State)
    ensures Shaped(t)
  {
    StateAtShaped(8);
    StepShaped(StateAt(8), EventAt(8));
    Step(StateAt(8), EventAt(8))
  }

  lemma EvictedIsSurvivable()
    ensures Evicted().gw == TableAfter(8) && Survivable(Evicted(), DEVICES)
  {
    hide NodeAfter, GatewayAfter, EventAt, Survivable, TableAfter;
    StateAtShaped(8);
    StepShaped(StateAt(8), EventAt(8));
    GatewayStep(8);
    var t := Evicted();
    assert t.sf == 9 && |t.nodes| == 8;
    forall i: nat | i < MAX_NODES
      ensures t.nodes[i].uid == Uid(i)
    {
    }
    SurvivableTable(t);
  }

  lemma SurvivableTable(t: State)
    requires Shaped(t) && t.gw == TableAfter(8) && t.sf <= 9 && |t.nodes| == 8
    requires forall i: nat :: i < MAX_NODES ==> t.nodes[i].uid == Uid(i)
    ensures Survivable(t, DEVICES)
  {
    forall i: nat | i < MAX_NODES && t.gw.slots[i].active
      ensures KnownOwner(t, DEVICES, i) && t.gw.slots[i].missed == 0
    {
      assert t.gw.slots[i] == EvictedAt(i);
      assert Owns(t, i, i);
    }
  }

  lemma JoiningHeard(r: nat)
    requires r <= 9
    ensures Boot(StateAt(0)) && EventsShaped(Joining(r)) && RunHeardWithin(StateAt(0), Joining(r), MAX_DEAF_SFS)
  {
    hide StateAt, EventAt, HeardWithin, Run;
    StateAtShaped(0);
    var evs := Joining(r);
    forall k | 0 <= k < r
      ensures EventShaped(evs[k]) && EventsShaped(evs[..k])
      ensures HeardWithin(Run(StateAt(0), evs[..k]), evs[k], MAX_DEAF_SFS)
    {
      StateAtShaped(k);
      assert evs[..k] == Joining(k);
      JoiningStates(k);
      AlwaysRecent(k);
    }
  }

  lemma EvictedHeals()
    ensures Aftermath(Evicted(), DEVICES)
  {
    hide StateAt, EventAt, Step, Aftermath, Invariant, Survivable, Run, RunHeardWithin, HeardWithin;
    JoiningHeard(8);
    JoiningStates(8);
    RunKeepsInvariant(StateAt(0), Joining(8));
    StateAtShaped(8);
    AlwaysRecent(8);
    EvictedIsSurvivable();
    EpochsDiffer();
    EvictionStartsRecovery(StateAt(8), EventAt(8), DEVICES);
  }

  lemma EpochsDiffer()
    ensures StateAt(8).gw.epoch != TableAfter(8).epoch && !TableAfter(8).slots[0].active
  {
  }

  /** The assumptions of EveryEvictionHeals are met by this run: here is a history that evicts and heals. */
  lemma FirstEvictionHeals() returns (more: seq<Event>)
    ensures var s, evs := StateAt(0), Joining(9);
      && Boot(s) && EventsShaped(evs) && RunHeardWithin(s, evs, MAX_DEAF_SFS)
      && Run(s, evs).gw.epoch != Run(s, evs[..8]).gw.epoch
      && Survivable(Run(s, evs), DEVICES)
      && EventsShaped(more) && |more| == 8 && RunClear(Run(s, evs), more, DEVICES)
      && Healed(Run(s, evs), Run(Run(s, evs), more), DEVICES)
  {
    hide StateAt, EventAt, Step, RunHeardWithin, Survivable, Healed, RunClear, Aftermath, TableAfter, Joining;
    JoiningHeard(9);
    JoiningStates(8);
    LastIsEighth();
    RunLast(StateAt(0), Joining(9));
    EvictedIsSurvivable();
    EvictedHeals();
    EpochsDiffer();
    more := RecoveryPossible(Evicted(), DEVICES);
  }

  lemma LastIsEighth()
    ensures Joining(9)[..8] == Joining(8) && Joining(9)[8] == EventAt(8) && |DEVICES| == 8
  {
  }

  /** And one in which device 7 is the last of the eight to get back, stale before its last contention. */
  lemma LastSurvivorExample() returns (more: seq<Event>, last: Event)
    ensures var s0 := Evicted();
      && Aftermath(s0, DEVICES) && |DEVICES| == MAX_NODES && s0.gw.slots[7].active
      && |more| == MAX_NODES - 1 && EventsShaped(more) && RunClear(s0, more, DEVICES)
      && var s := Run(s0, more);
      && Clear(s, last, DEVICES) && Request(s, last) == Some(s0.gw.slots[7].uid)
      && Evicts(UplinkZone(s.gw.slots, Decoded(s, last)))
      && GatewayAfter(s, last).slots[7].active
  {
    hide Aftermath, RunClear, Run, Clear, Evicted, Evicts, UplinkZone;
    EvictedHeals();
    LastIsEighth();
    OwnerSeven();
    more, last := AnyoneCanBeLast(Evicted(), DEVICES, 7, 7);
  }

  lemma OwnerSeven()
    ensures |Evicted().nodes| == 8 && Owns(Evicted(), 7, 7)
  {
    EvictedIsSurvivable();
    StateAtShaped(8);
    StepShaped(StateAt(8), EventAt(8));
    assert TableAfter(8).slots[7] == EvictedAt(7);
    assert StateAt(8).nodes[7].uid == Uid(7);
    hide Step, StateAt, EventAt, TableAfter;
  }
}
