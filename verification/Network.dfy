/**
 * Gateway and n nodes over a lossy radio, one superframe at a time.
 *
 * Every loss, collision, reboot and backoff outcome is an input of the step, so a run is a
 * starting state and a sequence of events. `sf`, `eras` and `heardAt` are bookkeeping that
 * the firmware does not have and that no branch reads: `eras[k]` is the epoch at the start
 * of superframe k without the 8-bit wrap, `heardAt[d]` the superframe of node d's last beacon.
 */
module Network {
  import opened Protocol
  import opened Words
  import opened SlotTable
  import N = NodeTask

  datatype State = State(gw: Table, nodes: seq<N.Node>, sf: nat, eras: seq<nat>, heardAt: seq<nat>)

  /**
   * What the radio and the environment do during one superframe.
   *   reboots    nodes that restart before the beacon
   *   hears      nodes that decode the beacon
   *   uplinks    per slot, the transmitter whose packet the gateway decodes, if any
   *   request    the contender whose JoinRequest the gateway decodes, if any
   *   hearsAck   contenders that decode the JoinAck broadcast
   */
  datatype Event = Event(reboots: set<nat>, hears: set<nat>, uplinks: seq<Option<nat>>,
                         request: Option<nat>, hearsAck: set<nat>)

  ghost predicate Shaped(s: State) {
    && |s.heardAt| == |s.nodes|
    && |s.eras| == s.sf + 1
    && WellFormed(s.gw.slots)
    && s.gw.epoch == s.eras[s.sf] % 0x100
    && forall d :: 0 <= d < |s.nodes| ==> N.WellFormed(s.nodes[d])
  }

  predicate EventShaped(e: Event) {
    |e.uplinks| == MAX_NODES
  }

  ghost predicate DistinctUids(nodes: seq<N.Node>) {
    forall c, d :: 0 <= c < d < |nodes| ==> nodes[c].uid != nodes[d].uid
  }

  /** Power-up of the whole network: empty table, random epoch, unregistered nodes. */
  ghost predicate Boot(s: State) {
    && Shaped(s)
    && s.sf == 0
    && DistinctUids(s.nodes)
    && (forall i :: 0 <= i < MAX_NODES ==> !s.gw.slots[i].active)
    && (forall d :: 0 <= d < |s.nodes| ==> s.nodes[d] == N.Boot(s.nodes[d].uid))
    && (forall d :: 0 <= d < |s.nodes| ==> s.heardAt[d] == 0)
  }

  function Occupied(slots: Slots): (r: seq<bool>)
    ensures |r| == MAX_NODES && forall i :: 0 <= i < MAX_NODES ==> r[i] == slots[i].active
  {
    seq(MAX_NODES, i requires 0 <= i < MAX_NODES => slots[i].active)
  }

  // ----- Nodes at the beacon -----

  function Restarted(s: State, e: Event, d: nat): (n: N.Node)
    requires d < |s.nodes|
    ensures N.WellFormed(s.nodes[d]) ==> N.WellFormed(n)
    ensures n.uid == s.nodes[d].uid
  {
    if d in e.reboots then N.Boot(s.nodes[d].uid) else s.nodes[d]
  }

  function AfterBeacon(s: State, e: Event, d: nat): (n: N.Node)
    requires d < |s.nodes| && N.WellFormed(s.nodes[d])
    ensures N.WellFormed(n) && n.uid == s.nodes[d].uid
  {
    if d in e.hears then N.OnBeacon(Restarted(s, e, d), s.gw.epoch, Occupied(s.gw.slots))
    else Restarted(s, e, d)
  }

  predicate Contends(s: State, e: Event, d: nat)
    requires d < |s.nodes| && N.WellFormed(s.nodes[d])
  {
    d in e.hears && !N.Confirms(Restarted(s, e, d), s.gw.epoch, Occupied(s.gw.slots))
  }

  /** Node d sends telemetry in slot index i of this superframe. */
  predicate Transmits(s: State, e: Event, d: nat, i: nat)
    requires d < |s.nodes| && N.WellFormed(s.nodes[d])
  {
    && d in e.hears
    && N.Confirms(Restarted(s, e, d), s.gw.epoch, Occupied(s.gw.slots))
    && Restarted(s, e, d).slotId == i + 1
  }

  /** Nobody sends in a slot that the beacon calls free. */
  lemma SilentInFreeSlots(s: State, e: Event, d: nat, i: nat)
    requires Shaped(s) && d < |s.nodes| && i < MAX_NODES && Transmits(s, e, d, i)
    ensures s.gw.slots[i].active
  {
  }

  /** A node that restarts knows nothing of its slot: it contends at the first beacon that it hears. */
  lemma RestartForgets(s: State, e: Event, d: nat)
    requires Shaped(s) && d < |s.nodes| && d in e.reboots
    ensures d in e.hears ==> Contends(s, e, d)
    ensures !AfterBeacon(s, e, d).registered && forall i :: !Transmits(s, e, d, i)
  {
  }

  /** After a restart of the gateway every node that hears the beacon contends, whatever epoch was drawn. */
  lemma GatewayRestart(s: State, e: Event, epoch: UInt8, d: nat)
    requires Shaped(s) && d < |s.nodes| && d in e.hears
    ensures var s' := s.(gw := Table(seq(MAX_NODES, _ => Entry(false, 0, 0, 0)), epoch));
      Contends(s', e, d) && !AfterBeacon(s', e, d).registered && forall i :: !Transmits(s', e, d, i)
  {
  }

  // ----- What the gateway decodes -----

  function Decoded(s: State, e: Event): (rx: seq<Option<UInt16>>)
    requires Shaped(s) && EventShaped(e)
    ensures |rx| == MAX_NODES
  {
    seq(MAX_NODES, i requires 0 <= i < MAX_NODES =>
      match e.uplinks[i]
      case None => None
      case Some(d) => if d < |s.nodes| && Transmits(s, e, d, i) then Some(s.nodes[d].uid) else None)
  }

  function Request(s: State, e: Event): Option<UInt16>
    requires Shaped(s)
  {
    match e.request
    case None => None
    case Some(d) => if d < |s.nodes| && Contends(s, e, d) then Some(s.nodes[d].uid) else None
  }

  // ----- The step -----

  function GatewayAfter(s: State, e: Event): Table
    requires Shaped(s) && EventShaped(e)
  {
    Superframe(s.gw, Decoded(s, e), Request(s, e))
  }

  /** The JoinAck on air in this superframe; slot number 0 stands for silence. */
  function Ack(s: State, e: Event): N.JoinAck
    requires Shaped(s) && EventShaped(e)
  {
    match Request(s, e)
    case None => N.JoinAck(0, 0)
    case Some(uid) => N.JoinAck(uid, AckTarget(s.gw, Decoded(s, e), Some(uid)))
  }

  function NodeAfter(s: State, e: Event, d: nat): N.Node
    requires Shaped(s) && EventShaped(e) && d < |s.nodes|
  {
    var n := AfterBeacon(s, e, d);
    if Contends(s, e, d) && d in e.hearsAck then N.OnJoinAck(n, Ack(s, e)) else n
  }

  function Step(s: State, e: Event): State
    requires Shaped(s) && EventShaped(e)
  {
    var gw := GatewayAfter(s, e);
    State(gw,
          seq(|s.nodes|, d requires 0 <= d < |s.nodes| => NodeAfter(s, e, d)),
          s.sf + 1,
          s.eras + [s.eras[s.sf] + if gw.epoch == s.gw.epoch then 0 else 1],
          seq(|s.nodes|, d requires 0 <= d < |s.nodes| => if d in e.hears then s.sf else s.heardAt[d]))
  }

  lemma StepShaped(s: State, e: Event)
    requires Shaped(s) && EventShaped(e)
    ensures Shaped(Step(s, e))
    ensures |Step(s, e).nodes| == |s.nodes|
    ensures forall d :: 0 <= d < |s.nodes| ==> Step(s, e).nodes[d].uid == s.nodes[d].uid
    ensures Step(s, e).eras[..s.sf + 1] == s.eras
  {
    SuperframeKeepsOwners(s.gw, Decoded(s, e), Request(s, e));
    var t := Step(s, e);
    assert t.gw.epoch == t.eras[t.sf] % 0x100;
  }

  // ----- Runs -----

  ghost predicate EventsShaped(evs: seq<Event>) {
    forall k :: 0 <= k < |evs| ==> EventShaped(evs[k])
  }

  /** The state after all events of `evs`. */
  ghost function Run(s: State, evs: seq<Event>): (t: State)
    requires Shaped(s) && EventsShaped(evs)
    ensures Shaped(t)
    decreases |evs|
  {
    if evs == [] then s
    else
      var m := Run(s, evs[..|evs| - 1]);
      StepShaped(m, evs[|evs| - 1]);
      Step(m, evs[|evs| - 1])
  }

  /** A registered node that hears this beacon last heard one at most `gap` superframes ago. */
  ghost predicate HeardWithin(s: State, e: Event, gap: nat)
    requires Shaped(s)
  {
    forall d :: 0 <= d < |s.nodes| && d in e.hears && d !in e.reboots && s.nodes[d].registered ==>
      s.sf - s.heardAt[d] <= gap
  }

  ghost predicate RunHeardWithin(s: State, evs: seq<Event>, gap: nat)
    requires Shaped(s) && EventsShaped(evs)
  {
    forall k :: 0 <= k < |evs| ==> HeardWithin(Run(s, evs[..k]), evs[k], gap)
  }

  lemma RunLast(s: State, evs: seq<Event>)
    requires Shaped(s) && EventsShaped(evs) && evs != []
    ensures var n := |evs| - 1;
      EventsShaped(evs[..n]) && EventShaped(evs[n]) && Run(s, evs) == Step(Run(s, evs[..n]), evs[n])
  {
    hide Step;
  }

  lemma HeardPrefix(s: State, evs: seq<Event>, gap: nat, n: nat)
    requires Shaped(s) && EventsShaped(evs) && RunHeardWithin(s, evs, gap) && n <= |evs|
    ensures EventsShaped(evs[..n]) && RunHeardWithin(s, evs[..n], gap)
    ensures n < |evs| ==> HeardWithin(Run(s, evs[..n]), evs[n], gap)
  {
    hide HeardWithin, Run;
    var before := evs[..n];
    forall k | 0 <= k < n ensures HeardWithin(Run(s, before[..k]), before[k], gap) {
      assert before[..k] == evs[..k];
    }
  }

  /** Every uplink of this superframe comes from the active owner of its slot. */
  ghost predicate Authentic(s: State, e: Event)
    requires Shaped(s)
  {
    forall d, i :: 0 <= d < |s.nodes| && 0 <= i < MAX_NODES && Transmits(s, e, d, i) ==>
      s.gw.slots[i].active && s.gw.slots[i].uid == s.nodes[d].uid
  }

  /** No two nodes send in the same slot of this superframe. */
  ghost predicate CollisionFree(s: State, e: Event)
    requires Shaped(s)
  {
    forall c, d, i ::
      (0 <= c < |s.nodes| && 0 <= d < |s.nodes| && 0 <= i < MAX_NODES
       && Transmits(s, e, c, i) && Transmits(s, e, d, i)) ==> c == d
  }
}
