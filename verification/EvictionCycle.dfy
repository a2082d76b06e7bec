/**
 * From power-up through any history to an eviction and back: the state after an evicting
 * superframe of any run is one from which the survivors recover.
 */
module EvictionCycle {
  import opened Protocol
  import opened Network
  import opened EpochRate
  import opened GhostUplinks
  import opened Recovery

  /** The surviving owners are among at most eight live devices, were just heard, and are not deaf. */
  ghost predicate Survivable(t: State, live: set<nat>)
    requires Shaped(t)
  {
    && Roster(t, live)
    && |live| <= MAX_NODES
    && (forall i :: 0 <= i < MAX_NODES && t.gw.slots[i].active ==> KnownOwner(t, live, i) && t.gw.slots[i].missed == 0)
    && (forall d :: d in live && t.nodes[d].registered ==> t.sf - t.heardAt[d] <= MAX_DEAF_SFS)
  }

  /** Epochs of the last 286 superframes before an epoch step have another byte than the new one. */
  lemma OldEpochsDiffer(eras: seq<nat>, k: nat)
    requires Paced(eras) && k + 1 < |eras| && |eras| - 1 - k <= MAX_DEAF_SFS
    requires eras[|eras| - 1] == eras[|eras| - 2] + 1
    ensures eras[k] % 0x100 != eras[|eras| - 1] % 0x100
  {
    RateBound(eras, k, |eras| - 1 - k);
    RateBound(eras, k, |eras| - 2 - k);
    hide Paced;
    ByteDiffers(eras[k], eras[|eras| - 1]);
  }

  lemma ByteDiffers(a: nat, b: nat)
    requires a < b <= a + 0xFF
    ensures a % 0x100 != b % 0x100
  {
  }

  lemma EvictionStartsRecovery(s: State, e: Event, live: set<nat>)
    requires Invariant(s) && EventShaped(e) && HeardWithin(s, e, MAX_DEAF_SFS)
    requires Step(s, e).gw.epoch != s.gw.epoch && Shaped(Step(s, e)) && Survivable(Step(s, e), live)
    ensures Aftermath(Step(s, e), live)
  {
    hide Invariant, HeardWithin, Step, GatewayAfter, NodeAfter, Paced;
    InvariantFacts(s);
    StepKeepsInvariant(s, e);
    var t := Step(s, e);
    InvariantFacts(t);
    EpochMoved(s, e);
    forall d | d in live && t.nodes[d].registered
      ensures t.nodes[d].joinEpoch != t.gw.epoch
    {
      RegistrationOf(t, d);
      OldEpochsDiffer(t.eras, t.heardAt[d]);
    }
  }

  lemma InvariantFacts(s: State)
    requires Invariant(s)
    ensures Shaped(s) && Paced(s.eras) && DistinctUids(s.nodes)
  {
  }

  lemma EpochMoved(s: State, e: Event)
    requires Shaped(s) && EventShaped(e) && Step(s, e).gw.epoch != s.gw.epoch
    ensures var t := Step(s, e);
      |t.eras| == t.sf + 1 && t.sf == s.sf + 1 && t.eras[t.sf] == t.eras[t.sf - 1] + 1
  {
    hide GatewayAfter, NodeAfter;
  }

  /**
   * In any run from power-up, whenever a superframe evicts, the devices still there all get
   * back, in as many clear superframes as there are of them, every owner in its old slot.
   */
  lemma EveryEvictionHeals(s: State, evs: seq<Event>, live: set<nat>, more: seq<Event>)
    requires Boot(s) && EventsShaped(evs) && RunHeardWithin(s, evs, MAX_DEAF_SFS) && evs != []
    requires Run(s, evs).gw.epoch != Run(s, evs[..|evs| - 1]).gw.epoch
    requires Survivable(Run(s, evs), live)
    requires EventsShaped(more) && RunClear(Run(s, evs), more, live) && |more| == |live|
    ensures Roster(Run(Run(s, evs), more), live) && Healed(Run(s, evs), Run(Run(s, evs), more), live)
  {
    hide Invariant, Step, HeardWithin, RunHeardWithin, RunClear, Run, Healed, Survivable, Aftermath, Roster;
    var n := |evs| - 1;
    HeardPrefix(s, evs, MAX_DEAF_SFS, n);
    RunLast(s, evs);
    RunKeepsInvariant(s, evs[..n]);
    EvictionStartsRecovery(Run(s, evs[..n]), evs[n], live);
    EveryoneRecovers(Run(s, evs), more, live);
  }
}
