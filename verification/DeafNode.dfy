/**
 * The 286-superframe bound is exact: a run of nine devices in which a node that stays deaf
 * for 287 superframes wakes up to its own epoch byte again and transmits into a slot that
 * has meanwhile been given to another device.
 *
 * Slot i is refilled in every superframe r with r % 9 == i and evicted at the end of
 * superframe r + 8; so from superframe 8 on, eight superframes in nine raise the epoch.
 */
module DeafNode {
  import opened Protocol
  import opened Words
  import opened SlotTable
  import opened Network
  import opened GhostUplinks
  import N = NodeTask

  const SPARE := 8          // the device that takes slot 1 over from the deaf device 0
  const WAKE_SF := 295      // superframe in which device 0 hears its next beacon

  /** Last superframe before `r` in which slot `i` was filled. */
  function FilledAt(i: nat, r: nat): (f: nat)
    requires i < r && i < MAX_NODES
    ensures f % 9 == i && f < r <= f + 9
  {
    var m := r % 9;
    if i < m then r - m + i else r - m + i - 9
  }

  /** Device that joins slot `i` in superframe `f`. */
  function Joiner(i: nat, f: nat): nat {
    if i == 0 && f >= 9 then SPARE else i
  }

  function Uid(d: nat): UInt16
    requires d < 9
  {
    d + 1
  }

  /** Epoch, counted without wrap, at the start of superframe `r`. */
  function Era(r: nat): nat {
    if r < 8 then 0 else 8 * (r / 9) + (if r % 9 == 8 then 0 else r % 9 - 7)
  }

  function SlotAt(i: nat, r: nat): (e: Entry)
    requires i < MAX_NODES && r <= WAKE_SF
  {
    if r <= i then Entry(false, 0, 0, 0)
    else
      var f := FilledAt(i, r);
      if r == f + 9 then Entry(false, i + 1, Uid(Joiner(i, f)), 0)
      else Entry(true, i + 1, Uid(Joiner(i, f)), r - 1 - f)
  }

  /** Superframe of the last beacon that device `d` heard before superframe `r`. */
  function LastHeard(d: nat, r: nat): nat
    requires d < 9
  {
    if d == 0 then (if r <= 8 then 0 else 8)
    else if d == SPARE then (if r <= 9 then 0 else FilledAt(0, r))
    else if r <= d then 0 else FilledAt(d, r)
  }

  predicate Joined(d: nat, r: nat)
    requires d < 9
  {
    if d == SPARE then r > 9 else r > d
  }

  function DeviceAt(d: nat, r: nat): N.Node
    requires d < 9
  {
    if Joined(d, r) then
      var epoch: UInt8 := Era(LastHeard(d, r)) % 0x100;
      N.Node(Uid(d), true, (if d == SPARE then 1 else d + 1), epoch, epoch)
    else N.Boot(Uid(d))
  }

  function TableAt(r: nat): Table
    requires r <= WAKE_SF
  {
    Table(seq(MAX_NODES, i requires 0 <= i < MAX_NODES => SlotAt(i, r)), Era(r) % 0x100)
  }

  ghost function StateAt(r: nat): State
    requires r <= WAKE_SF
  {
    State(TableAt(r),
          seq(9, d requires 0 <= d < 9 => DeviceAt(d, r)),
          r,
          seq(r + 1, k requires 0 <= k => Era(k)),
          seq(9, d requires 0 <= d < 9 => LastHeard(d, r)))
  }

  const SILENCE: seq<Option<nat>> := [None, None, None, None, None, None, None, None]

  /** Only the joiner of the superframe is heard; device 0 hears in superframes 0, 8 and 295. */
  function EventAt(r: nat): Event {
    if r == WAKE_SF then Event({}, {0}, SILENCE, None, {})
    else if r % 9 == 8 then Event({}, if r == 8 then {0} else {}, SILENCE, None, {})
    else var d := Joiner(r % 9, r); Event({}, {d}, SILENCE, Some(d), {d})
  }

  lemma StateAtShaped(r: nat)
    requires r <= WAKE_SF
    ensures Shaped(StateAt(r))
  {
  }

  lemma BootsAtZero()
    ensures Boot(StateAt(0))
  {
  }

  /** The uplink windows of the run are all silent. */
  lemma SilentSlots(r: nat)
    requires r <= WAKE_SF
    ensures Shaped(StateAt(r))
    ensures Decoded(StateAt(r), EventAt(r)) == SILENCE
  {
    StateAtShaped(r);
    var rx := Decoded(StateAt(r), EventAt(r));
    assert forall i :: 0 <= i < MAX_NODES ==> SILENCE[i].None?;
    assert forall i :: 0 <= i < MAX_NODES ==> rx[i] == None;
  }

  /** The device that joins in superframe `r` is out of date or new, so it contends. */
  lemma JoinerContends(r: nat)
    requires r < WAKE_SF && r % 9 != 8
    ensures Shaped(StateAt(r)) && Contends(StateAt(r), EventAt(r), Joiner(r % 9, r))
    ensures Request(StateAt(r), EventAt(r)) == Some(Uid(Joiner(r % 9, r)))
  {
    StateAtShaped(r);
    var d := Joiner(r % 9, r);
    if Joined(d, r) {
      assert LastHeard(d, r) == r - 9;
      EraOverNine(r);
    }
  }

  lemma EraOverNine(r: nat)
    requires 9 <= r
    ensures Era(r - 9) < Era(r) <= Era(r - 9) + 8
  {
  }

  /** Slot contents after the contention window of superframe `r`. */
  function ContentionAt(i: nat, r: nat): Entry
    requires i < MAX_NODES && r <= WAKE_SF
  {
    if i == r % 9 then Entry(true, i + 1, Uid(Joiner(i, r)), 0) else HearSlot(SlotAt(i, r), None)
  }

  lemma SlotBeforeJoin(i: nat, r: nat)
    requires i < MAX_NODES && r < WAKE_SF
    ensures i == r % 9 ==> !SlotAt(i, r).active
    ensures i < r % 9 ==> SlotAt(i, r).active
    ensures SlotAt(i, r).active && r % 9 != 8 ==> SlotAt(i, r).uid != Uid(Joiner(r % 9, r))
  {
    if r > i {
      FillTimes(i, r);
    }
  }

  lemma JoinFillsSlot(r: nat)
    requires r < WAKE_SF
    ensures Shaped(StateAt(r))
    ensures var b := ContentionZone(UplinkZone(StateAt(r).gw.slots, SILENCE), Request(StateAt(r), EventAt(r))).slots;
            forall i :: 0 <= i < MAX_NODES ==> b[i] == ContentionAt(i, r)
    ensures r % 9 != 8 ==>
              var a := UplinkZone(StateAt(r).gw.slots, SILENCE);
              ContentionZone(a, Request(StateAt(r), EventAt(r))).target == r % 9 + 1
  {
    StateAtShaped(r);
    var a := UplinkZone(StateAt(r).gw.slots, SILENCE);
    forall i | 0 <= i < MAX_NODES
      ensures a[i] == HearSlot(SlotAt(i, r), None)
    {
      assert SILENCE[i] == None;
    }
    if r % 9 != 8 {
      JoinerContends(r);
      forall i | 0 <= i < MAX_NODES
        ensures i == r % 9 ==> !a[i].active
        ensures i < r % 9 ==> a[i].active
        ensures a[i].active ==> a[i].uid != Uid(Joiner(r % 9, r))
      {
        SlotBeforeJoin(i, r);
      }
      JoinTakesFirstFree(a, Uid(Joiner(r % 9, r)), r % 9);
    } else {
      assert Request(StateAt(r), EventAt(r)) == None;
    }
  }

  lemma NextPhase(r: nat)
    ensures (r + 1) % 9 == if r % 9 == 8 then 0 else r % 9 + 1
    ensures (r + 1) / 9 == if r % 9 == 8 then r / 9 + 1 else r / 9
  {
  }

  /** Slot whose owner reaches eight misses in superframe `r`; 8 in the one superframe of nine without any. */
  function StaleIndex(r: nat): nat {
    if r % 9 == 8 then 0 else r % 9 + 1
  }

  lemma FillTimes(i: nat, r: nat)
    requires i < r && i < MAX_NODES
    ensures r == FilledAt(i, r) + 9 <==> i == r % 9
    ensures r == FilledAt(i, r) + 8 <==> i == StaleIndex(r)
    ensures FilledAt(i, r + 1) == if i == r % 9 then r else FilledAt(i, r)
  {
    NextPhase(r);
  }

  lemma SlotStep(i: nat, r: nat)
    requires i < MAX_NODES && r < WAKE_SF
    ensures var c := ContentionAt(i, r);
            SlotAt(i, r + 1) == if r >= 8 then EvictEntry(c) else c
    ensures r >= 8 ==> ContentionAt(i, r).active
    ensures Stale(ContentionAt(i, r)) <==> r >= 8 && i == StaleIndex(r)
  {
    if r > i {
      FillTimes(i, r);
      if i == r % 9 {
        assert i != StaleIndex(r);
      }
    } else {
      assert i == r % 9 <==> i == r;
    }
  }

  /** Who is stale after contention, and what eviction does to each entry. */
  lemma EntriesStep(b: Slots, r: nat)
    requires r < WAKE_SF
    requires forall i :: 0 <= i < MAX_NODES ==> b[i] == ContentionAt(i, r)
    ensures forall i :: 0 <= i < MAX_NODES ==> SlotAt(i, r + 1) == if r >= 8 then EvictEntry(b[i]) else b[i]
    ensures r >= 8 ==> Full(b)
    ensures forall i :: 0 <= i < MAX_NODES ==> (Stale(b[i]) <==> r >= 8 && i == StaleIndex(r))
  {
    hide ContentionAt, SlotAt, EvictEntry, Stale, StaleIndex;
    forall i | 0 <= i < MAX_NODES
      ensures SlotAt(i, r + 1) == if r >= 8 then EvictEntry(b[i]) else b[i]
      ensures r >= 8 ==> b[i].active
      ensures Stale(b[i]) <==> r >= 8 && i == StaleIndex(r)
    {
      SlotStep(i, r);
    }
  }

  lemma EraAdvances(r: nat)
    ensures Era(r + 1) == Era(r) + if r < 8 || r % 9 == 7 then 0 else 1
    ensures StaleIndex(r) < MAX_NODES <==> r % 9 != 7
  {
    NextPhase(r);
  }

  lemma EvictionStep(b: Slots, r: nat)
    requires r < WAKE_SF
    requires forall i :: 0 <= i < MAX_NODES ==> b[i] == ContentionAt(i, r)
    ensures EvictionZone(Table(b, Era(r) % 0x100)) == TableAt(r + 1)
  {
    hide ContentionAt, SlotAt, StaleIndex, Era;
    EntriesStep(b, r);
    EraAdvances(r);
    var t := EvictionZone(Table(b, Era(r) % 0x100));
    if r < 8 || r % 9 == 7 {
      assert !AnyStale(b);
    } else {
      assert Stale(b[StaleIndex(r)]);
    }
    assert t.slots == TableAt(r + 1).slots;
  }

  lemma GatewayStep(r: nat)
    requires r < WAKE_SF
    ensures Shaped(StateAt(r)) && GatewayAfter(StateAt(r), EventAt(r)) == TableAt(r + 1)
  {
    SilentSlots(r);
    JoinFillsSlot(r);
    var b := ContentionZone(UplinkZone(StateAt(r).gw.slots, SILENCE), Request(StateAt(r), EventAt(r))).slots;
    EvictionStep(b, r);
  }

  lemma JoinerStep(r: nat)
    requires r < WAKE_SF && r % 9 != 8
    ensures Shaped(StateAt(r))
    ensures NodeAfter(StateAt(r), EventAt(r), Joiner(r % 9, r)) == DeviceAt(Joiner(r % 9, r), r + 1)
  {
    SilentSlots(r);
    JoinFillsSlot(r);
    JoinerContends(r);
    var d := Joiner(r % 9, r);
    NextPhase(r);
    assert Ack(StateAt(r), EventAt(r)) == N.JoinAck(Uid(d), r % 9 + 1);
    assert LastHeard(d, r + 1) == r;
  }

  /** A device that hears nothing stays as it is. */
  lemma QuietDevice(d: nat, r: nat)
    requires r < WAKE_SF && d < 9 && d !in EventAt(r).hears
    ensures Shaped(StateAt(r)) && NodeAfter(StateAt(r), EventAt(r), d) == DeviceAt(d, r)
  {
    StateAtShaped(r);
    hide SlotAt, DeviceAt;
  }

  lemma LastHeardStays(d: nat, r: nat)
    requires r < WAKE_SF && d < 9 && d !in EventAt(r).hears
    ensures LastHeard(d, r + 1) == LastHeard(d, r) && Joined(d, r + 1) == Joined(d, r)
  {
    NextPhase(r);
    if d == SPARE {
      if r > 9 { FillTimes(0, r); }
    } else if r > d {
      FillTimes(d, r);
    }
  }

  /** Device 0 hears its last beacon for long in superframe 8, just before it loses its slot. */
  lemma DeviceZeroAtEight()
    ensures Shaped(StateAt(8)) && NodeAfter(StateAt(8), EventAt(8), 0) == DeviceAt(0, 9)
    ensures LastHeard(0, 9) == 8
  {
    StateAtShaped(8);
    assert Occupied(TableAt(8).slots)[0];
  }

  lemma DeviceStep(d: nat, r: nat)
    requires r < WAKE_SF && d < 9
    ensures Shaped(StateAt(r))
    ensures NodeAfter(StateAt(r), EventAt(r), d) == DeviceAt(d, r + 1)
    ensures LastHeard(d, r + 1) == if d in EventAt(r).hears then r else LastHeard(d, r)
  {
    if r % 9 != 8 && d == Joiner(r % 9, r) {
      JoinerStep(r);
      NextPhase(r);
    } else {
      if d in EventAt(r).hears {
        DeviceZeroAtEight();
      } else {
        QuietDevice(d, r);
        LastHeardStays(d, r);
      }
    }
  }

  lemma EraStep(r: nat)
    requires r < WAKE_SF
    ensures Era(r + 1) == Era(r) + if Era(r + 1) % 0x100 == Era(r) % 0x100 then 0 else 1
  {
    NextPhase(r);
  }

  lemma RunStep(r: nat)
    requires r < WAKE_SF
    ensures Shaped(StateAt(r)) && Step(StateAt(r), EventAt(r)) == StateAt(r + 1)
  {
    hide EventAt, SlotAt, DeviceAt, LastHeard, Era, NodeAfter, GatewayAfter, Shaped;
    GatewayStep(r);
    EventAtShaped(r);
    EraStep(r);
    var s, e, u := StateAt(r), EventAt(r), StateAt(r + 1);
    forall d | 0 <= d < 9
      ensures NodeAfter(s, e, d) == u.nodes[d]
      ensures u.heardAt[d] == if d in e.hears then r else s.heardAt[d]
    {
      DeviceStep(d, r);
    }
    var t := Step(s, e);
    assert t.eras == u.eras by {
      assert s.gw.epoch == Era(r) % 0x100 && u.gw.epoch == Era(r + 1) % 0x100;
    }
    assert t.nodes == u.nodes;
    assert t.heardAt == u.heardAt;
  }

  lemma EventAtShaped(r: nat)
    ensures EventShaped(EventAt(r))
  {
  }

  const DEAF_RUN: seq<Event> := seq(WAKE_SF + 1, r requires 0 <= r => EventAt(r))

  lemma {:induction false} DeafRunStates(r: nat)
    requires r <= WAKE_SF
    ensures Shaped(StateAt(0)) && EventsShaped(DEAF_RUN)
    ensures Run(StateAt(0), DEAF_RUN[..r]) == StateAt(r)
  {
    BootsAtZero();
    if r > 0 {
      DeafRunStates(r - 1);
      assert DEAF_RUN[..r][..r - 1] == DEAF_RUN[..r - 1];
      RunStep(r - 1);
    }
  }

  lemma GapAt(k: nat)
    requires k <= WAKE_SF
    ensures Shaped(StateAt(k)) && HeardWithin(StateAt(k), EventAt(k), MAX_DEAF_SFS + 1)
  {
    StateAtShaped(k);
    hide SlotAt, Era;
  }

  /** No registered node of the run is silent for longer than 287 superframes. */
  lemma DeafRunGap()
    ensures Boot(StateAt(0)) && EventsShaped(DEAF_RUN)
    ensures RunHeardWithin(StateAt(0), DEAF_RUN, MAX_DEAF_SFS + 1)
  {
    hide HeardWithin, EventAt, StateAt, Run;
    BootsAtZero();
    DeafRunStates(0);
    forall k | 0 <= k < |DEAF_RUN|
      ensures HeardWithin(Run(StateAt(0), DEAF_RUN[..k]), DEAF_RUN[k], MAX_DEAF_SFS + 1)
    {
      DeafRunStates(k);
      GapAt(k);
    }
  }

  /** In superframe 295 device 0 transmits in slot 1, which belongs to the spare device. */
  lemma DeafNodeWakesAsGhost()
    ensures Boot(StateAt(0)) && EventsShaped(DEAF_RUN)
    ensures !Authentic(Run(StateAt(0), DEAF_RUN[..WAKE_SF]), DEAF_RUN[WAKE_SF])
  {
    BootsAtZero();
    DeafRunStates(WAKE_SF);
    StateAtShaped(WAKE_SF);
    GhostAtWake();
  }

  lemma GhostAtWake()
    ensures Shaped(StateAt(WAKE_SF)) && !Authentic(StateAt(WAKE_SF), EventAt(WAKE_SF))
  {
    StateAtShaped(WAKE_SF);
    var s, e := StateAt(WAKE_SF), EventAt(WAKE_SF);
    assert WAKE_SF % 9 == 7 && WAKE_SF / 9 == 32;
    assert SlotAt(0, WAKE_SF) == Entry(true, 1, Uid(SPARE), 6);
    assert Era(WAKE_SF) == 0x100;
    assert s.nodes[0] == N.Node(Uid(0), true, 1, 0, 0);
    assert Occupied(s.gw.slots)[0];
    assert Transmits(s, e, 0, 0);
  }

  /** Safety of the slot epoch as a property of the longest silence `gap` the radio allows. */
  ghost predicate SafeFor(gap: nat) {
    forall s, evs :: Boot(s) && EventsShaped(evs) && RunHeardWithin(s, evs, gap) ==>
      forall k: nat :: k < |evs| ==> Authentic(Run(s, evs[..k]), evs[k])
  }

  /** The epoch byte rules out ghost uplinks exactly up to silences of 286 superframes. */
  lemma SafeExactlyUpTo286(gap: nat)
    ensures SafeFor(gap) <==> gap <= MAX_DEAF_SFS
  {
    if gap <= MAX_DEAF_SFS {
      forall s, evs, k: nat | Boot(s) && EventsShaped(evs) && RunHeardWithin(s, evs, gap) && k < |evs|
        ensures Authentic(Run(s, evs[..k]), evs[k])
      {
        assert RunHeardWithin(s, evs, MAX_DEAF_SFS);
        NoGhostUplinks(s, evs, k);
      }
    } else {
      DeafRunGap();
      assert RunHeardWithin(StateAt(0), DEAF_RUN, gap);
      DeafNodeWakesAsGhost();
    }
  }
}
