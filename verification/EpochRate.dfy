/**
 * How fast the network epoch can move. One superframe can raise it by one, but nine in a
 * row cannot all do so: each increment needs a full table, each eviction empties a slot that
 * only the next join refills, and a refilled slot is immune for eight superframes.
 */
module EpochRate {
  import opened Protocol
  import opened Words
  import opened SlotTable
  import opened Network

  /** Number of consecutive superframes, counted back from now, that raised the epoch. */
  function Streak(eras: seq<nat>): nat {
    if |eras| < 2 || eras[|eras| - 1] == eras[|eras| - 2] then 0
    else 1 + Streak(eras[..|eras| - 1])
  }

  /** Slots that no eviction can hit within the streak: empty, or refilled during it. */
  ghost function Young(slots: Slots, streak: nat): set<nat> {
    set i: nat | i < MAX_NODES && (!slots[i].active || slots[i].missed + 2 <= streak)
  }

  lemma YoungIsSmall(slots: Slots, streak: nat)
    ensures |Young(slots, streak)| <= MAX_NODES
  {
    SubsetSize(Young(slots, streak), {0, 1, 2, 3, 4, 5, 6, 7});
  }

  lemma {:induction false} SubsetSize(a: set<nat>, b: set<nat>)
    requires a <= b
    ensures |a| <= |b|
    decreases a
  {
    if a != {} {
      var x :| x in a;
      SubsetSize(a - {x}, b - {x});
    }
  }

  /** Join and uplinks never age a young slot past the streak. */
  lemma YoungStaysYoung(slots: Slots, rx: seq<Option<UInt16>>, request: Option<UInt16>, streak: nat, i: nat)
    requires |rx| == MAX_NODES && WellFormed(slots)
    requires i in Young(slots, streak) && 1 <= streak
    ensures var b := ContentionZone(UplinkZone(slots, rx), request).slots[i];
      b.active ==> b.missed + 2 <= streak + 1
  {
    var a := UplinkZone(slots, rx);
    assert a[i].active ==> a[i].missed + 2 <= streak + 1;
    hide UplinkZone, Join;
    UplinkKeepsOwners(slots, rx);
    if request.Some? {
      JoinKeepsOwners(a, request.value);
    }
  }

  /** Each further increment of a streak adds at least one young slot. */
  lemma YoungGrows(t: Table, rx: seq<Option<UInt16>>, request: Option<UInt16>, streak: nat)
    requires |rx| == MAX_NODES && WellFormed(t.slots)
    requires streak <= |Young(t.slots, streak)|
    requires Superframe(t, rx, request).epoch != t.epoch
    ensures streak + 1 <= |Young(Superframe(t, rx, request).slots, streak + 1)|
  {
    YoungIsSmall(t.slots, streak);
    var b := ContentionZone(UplinkZone(t.slots, rx), request).slots;
    var t' := Superframe(t, rx, request);
    assert Evicts(b);
    var e: nat :| e < MAX_NODES && Stale(b[e]);
    var young := if streak == 0 then {} else Young(t.slots, streak);
    forall i | i in young
      ensures i != e && i in Young(t'.slots, streak + 1)
    {
      YoungStaysYoung(t.slots, rx, request, streak, i);
    }
    assert e in Young(t'.slots, streak + 1);
    assert young + {e} <= Young(t'.slots, streak + 1);
    SubsetSize(young + {e}, Young(t'.slots, streak + 1));
  }

  /** `eras` is a legal epoch history: steps of at most one, never nine steps in a row. */
  ghost predicate Paced(eras: seq<nat>) {
    && (forall k :: 0 <= k < |eras| - 1 ==> eras[k] <= eras[k + 1] <= eras[k] + 1)
    && (forall k :: 0 <= k < |eras| - 9 ==> eras[k + 9] <= eras[k] + 8)
  }

  /** The invariant of every run: the young slots account for the current streak. */
  ghost predicate PacedState(s: State) {
    && Shaped(s)
    && Paced(s.eras)
    && Streak(s.eras) <= |Young(s.gw.slots, Streak(s.eras))|
  }

  lemma {:induction false} StreakCovers(eras: seq<nat>, n: nat)
    requires n < |eras|
    requires forall k :: 0 <= k < |eras| - 1 ==> eras[k] <= eras[k + 1] <= eras[k] + 1
    ensures eras[|eras| - 1 - n] <= eras[|eras| - 1] <= eras[|eras| - 1 - n] + n
    ensures eras[|eras| - 1] == eras[|eras| - 1 - n] + n ==> n <= Streak(eras)
    decreases n
  {
    if n > 0 {
      var shorter := eras[..|eras| - 1];
      StreakCovers(shorter, n - 1);
      assert shorter[|shorter| - 1 - (n - 1)] == eras[|eras| - 1 - n];
    }
  }

  /** A legal history stays legal when one superframe of rate 0 or 1 is added and no ninth step in a row. */
  lemma PacedGrows(eras: seq<nat>, next: nat)
    requires Paced(eras) && eras != []
    requires eras[|eras| - 1] <= next <= eras[|eras| - 1] + 1
    requires Streak(eras + [next]) <= 8
    ensures Paced(eras + [next])
  {
    var longer := eras + [next];
    forall k | 0 <= k < |longer| - 1
      ensures longer[k] <= longer[k + 1] <= longer[k] + 1
    {
      if k + 1 < |eras| {
        assert eras[k] <= eras[k + 1] <= eras[k] + 1;
      }
    }
    forall k | 0 <= k < |longer| - 9
      ensures longer[k + 9] <= longer[k] + 8
    {
      if k + 9 < |eras| {
        assert eras[k + 9] <= eras[k] + 8;
      } else {
        StreakCovers(longer, 9);
      }
    }
  }

  lemma NextStreak(eras: seq<nat>, next: nat)
    requires eras != []
    ensures Streak(eras + [next]) == if next == eras[|eras| - 1] then 0 else Streak(eras) + 1
  {
    assert (eras + [next])[..|eras|] == eras;
  }

  lemma StepPaced(s: State, e: Event)
    requires PacedState(s) && EventShaped(e)
    ensures PacedState(Step(s, e))
  {
    hide Paced, Streak, Superframe, Decoded, Request;
    StepShaped(s, e);
    var t := Step(s, e);
    var next := t.eras[t.sf];
    assert t.eras == s.eras + [next];
    NextStreak(s.eras, next);
    if t.gw.epoch != s.gw.epoch {
      YoungGrows(s.gw, Decoded(s, e), Request(s, e), Streak(s.eras));
    }
    YoungIsSmall(t.gw.slots, Streak(t.eras));
    PacedGrows(s.eras, next);
  }

  lemma {:induction false} RunPaced(s: State, evs: seq<Event>)
    requires Boot(s) && EventsShaped(evs)
    ensures PacedState(Run(s, evs))
    decreases |evs|
  {
    if evs != [] {
      RunPaced(s, evs[..|evs| - 1]);
      StepPaced(Run(s, evs[..|evs| - 1]), evs[|evs| - 1]);
    }
  }

  /** At most eight increments in any nine superframes: 8/9 of the naive bound. */
  lemma {:induction false} RateBound(eras: seq<nat>, k: nat, w: nat)
    requires Paced(eras) && k + w < |eras|
    ensures eras[k] <= eras[k + w] <= eras[k] + w - w / 9
    decreases w
  {
    if w >= 9 {
      RateBound(eras, k, w - 9);
      assert eras[(k + w - 9) + 9] <= eras[k + w - 9] + 8;
      StreakCovers(eras[..k + w + 1], 9);
    } else if w > 0 {
      RateBound(eras, k, w - 1);
      assert eras[k + w - 1 + 1] <= eras[k + w - 1] + 1;
    }
  }
}
