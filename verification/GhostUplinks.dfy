/**
 * No ghost uplinks: over every run, an uplink in slot i comes from the device that the
 * gateway records as the active owner of slot i, as long as no registered node goes more
 * than 286 superframes between two beacons it hears.
 */
module GhostUplinks {
  import opened Protocol
  import opened Words
  import opened SlotTable
  import opened Network
  import opened EpochRate
  import N = NodeTask

  /** Largest silence after which the 8-bit epoch comparison is still conclusive. */
  const MAX_DEAF_SFS := 286

  /**
   * Node d's registration is as old as the last beacon it heard, and if no epoch step
   * happened since, its slot is still recorded as its own.
   */
  ghost predicate Registration(s: State, d: nat)
    requires Shaped(s) && d < |s.nodes|
  {
    s.nodes[d].registered ==>
      && s.heardAt[d] < s.sf
      && s.nodes[d].joinEpoch == s.eras[s.heardAt[d]] % 0x100
      && (s.eras[s.heardAt[d]] == s.eras[s.sf] ==>
            var e := s.gw.slots[s.nodes[d].slotId - 1];
            e.active && e.uid == s.nodes[d].uid)
  }

  ghost predicate Invariant(s: State) {
    && PacedState(s)
    && DistinctUids(s.nodes)
    && forall d :: 0 <= d < |s.nodes| ==> Registration(s, d)
  }

  /** A confirmed registration was made in this very epoch, wrap-around or not. */
  lemma ConfirmedIsCurrent(s: State, e: Event, d: nat)
    requires Invariant(s) && HeardWithin(s, e, MAX_DEAF_SFS)
    requires d < |s.nodes| && d in e.hears
    requires N.Confirms(Restarted(s, e, d), s.gw.epoch, Occupied(s.gw.slots))
    ensures d !in e.reboots && s.heardAt[d] < s.sf
    ensures s.eras[s.heardAt[d]] == s.eras[s.sf]
    ensures var o := s.gw.slots[s.nodes[d].slotId - 1]; o.active && o.uid == s.nodes[d].uid
  {
    assert Registration(s, d);
    RateBound(s.eras, s.heardAt[d], s.sf - s.heardAt[d]);
  }

  lemma InvariantGivesAuthentic(s: State, e: Event)
    requires Invariant(s) && EventShaped(e) && HeardWithin(s, e, MAX_DEAF_SFS)
    ensures Authentic(s, e) && CollisionFree(s, e)
  {
    forall d, i | 0 <= d < |s.nodes| && 0 <= i < MAX_NODES && Transmits(s, e, d, i)
      ensures s.gw.slots[i].active && s.gw.slots[i].uid == s.nodes[d].uid
    {
      ConfirmedIsCurrent(s, e, d);
    }
    forall c, d, i | 0 <= c < |s.nodes| && 0 <= d < |s.nodes| && 0 <= i < MAX_NODES
                     && Transmits(s, e, c, i) && Transmits(s, e, d, i)
      ensures c == d
    {
      assert s.nodes[c].uid == s.gw.slots[i].uid == s.nodes[d].uid;
    }
  }

  /** A node whose JoinAck arrives is the one whose request the gateway decoded. */
  lemma AckedOwnsSlot(s: State, e: Event, d: nat)
    requires Invariant(s) && EventShaped(e) && d < |s.nodes|
    requires Contends(s, e, d) && NodeAfter(s, e, d).registered
    ensures d in e.hears && NodeAfter(s, e, d).joinEpoch == s.gw.epoch
    ensures GatewayAfter(s, e).epoch == s.gw.epoch ==>
              var o := GatewayAfter(s, e).slots[NodeAfter(s, e, d).slotId - 1];
              o.active && o.uid == s.nodes[d].uid
  {
    var rx, request := Decoded(s, e), Request(s, e);
    var a := UplinkZone(s.gw.slots, rx);
    UplinkKeepsOwners(s.gw.slots, rx);
    assert request.Some?;
    JoinKeepsOwners(a, request.value);
    var b := ContentionZone(a, request).slots;
    EvictionTakesOwners(Table(b, s.gw.epoch));
  }

  lemma RegistrationOf(s: State, d: nat)
    requires Invariant(s) && d < |s.nodes|
    ensures PacedState(s) && Shaped(s) && Registration(s, d)
  {
  }

  /** The bookkeeping of the step, and that an owner loses its slot only by an epoch step. */
  lemma StepHistory(s: State, e: Event, d: nat)
    requires Shaped(s) && EventShaped(e) && d < |s.nodes|
    ensures var t := Step(s, e);
      && Shaped(t) && |t.nodes| == |s.nodes| && t.sf == s.sf + 1
      && t.nodes[d] == NodeAfter(s, e, d) && t.nodes[d].uid == s.nodes[d].uid && t.gw == GatewayAfter(s, e)
      && t.heardAt[d] == (if d in e.hears then s.sf else s.heardAt[d])
      && (forall k :: 0 <= k <= s.sf ==> t.eras[k] == s.eras[k])
      && t.eras[t.sf] == s.eras[s.sf] + (if t.gw.epoch == s.gw.epoch then 0 else 1)
      && (t.gw.epoch == s.gw.epoch ==> OwnersKept(s.gw.slots, t.gw.slots))
  {
    StepShaped(s, e);
    SuperframeKeepsOwners(s.gw, Decoded(s, e), Request(s, e));
  }

  /** Whoever is still registered without contending was so before, and a beacon it heard confirmed it. */
  lemma StaysRegistered(s: State, e: Event, d: nat)
    requires Shaped(s) && EventShaped(e) && d < |s.nodes|
    requires !Contends(s, e, d) && NodeAfter(s, e, d).registered
    ensures var n := NodeAfter(s, e, d);
      && s.nodes[d].registered && n.slotId == s.nodes[d].slotId && n.joinEpoch == s.nodes[d].joinEpoch
      && n.uid == s.nodes[d].uid
    ensures d in e.hears ==> N.Confirms(Restarted(s, e, d), s.gw.epoch, Occupied(s.gw.slots))
  {
  }

  lemma StepKeepsRegistration(s: State, e: Event, d: nat)
    requires Invariant(s) && EventShaped(e) && HeardWithin(s, e, MAX_DEAF_SFS) && d < |s.nodes|
    ensures Shaped(Step(s, e)) && Registration(Step(s, e), d)
  {
    hide Invariant, HeardWithin, Step, NodeAfter, GatewayAfter, Contends, PacedState;
    RegistrationOf(s, d);
    StepHistory(s, e, d);
    if NodeAfter(s, e, d).registered {
      if Contends(s, e, d) {
        AckedOwnsSlot(s, e, d);
      } else {
        StaysRegistered(s, e, d);
        if d in e.hears {
          ConfirmedIsCurrent(s, e, d);
        } else {
          PacedHistory(s);
          RateBound(s.eras, s.heardAt[d], s.sf - s.heardAt[d]);
        }
      }
    }
  }

  lemma PacedHistory(s: State)
    requires PacedState(s)
    ensures Paced(s.eras)
  {
  }

  lemma StepKeepsInvariant(s: State, e: Event)
    requires Invariant(s) && EventShaped(e) && HeardWithin(s, e, MAX_DEAF_SFS)
    ensures Invariant(Step(s, e))
  {
    StepPaced(s, e);
    StepShaped(s, e);
    forall d | 0 <= d < |s.nodes|
      ensures Registration(Step(s, e), d)
    {
      StepKeepsRegistration(s, e, d);
    }
  }

  lemma BootInvariant(s: State)
    requires Boot(s)
    ensures Invariant(s)
  {
  }

  lemma {:induction false} RunKeepsInvariant(s: State, evs: seq<Event>)
    requires Boot(s) && EventsShaped(evs) && RunHeardWithin(s, evs, MAX_DEAF_SFS)
    ensures Invariant(Run(s, evs))
    decreases |evs|
  {
    hide Invariant, Step, HeardWithin, RunHeardWithin;
    if evs == [] {
      BootInvariant(s);
    } else {
      var n := |evs| - 1;
      RunLast(s, evs);
      HeardPrefix(s, evs, MAX_DEAF_SFS, n);
      RunKeepsInvariant(s, evs[..n]);
      StepKeepsInvariant(Run(s, evs[..n]), evs[n]);
    }
  }

  /** Every uplink of every superframe of every run comes from the owner of its slot, alone in it. */
  lemma NoGhostUplinks(s: State, evs: seq<Event>, k: nat)
    requires Boot(s) && EventsShaped(evs) && RunHeardWithin(s, evs, MAX_DEAF_SFS)
    requires k < |evs|
    ensures Authentic(Run(s, evs[..k]), evs[k])
    ensures CollisionFree(Run(s, evs[..k]), evs[k])
  {
    hide Invariant, Step, HeardWithin, RunHeardWithin, Run, Authentic, CollisionFree;
    HeardPrefix(s, evs, MAX_DEAF_SFS, k);
    RunKeepsInvariant(s, evs[..k]);
    InvariantGivesAuthentic(Run(s, evs[..k]), evs[k]);
  }
}
