/**
 * The downlink pipeline of one slot over whole runs: queueing by the web task at any moment,
 * failed and lost downlinks, lost uplinks, retransmission, overwriting, schedule ticks and
 * node reboots.
 *
 * `seqNo` numbers the queued commands, `txLog` holds the number of the command of every
 * frame sent and `nodeLog` what reached the node; no branch reads them.
 */
module DownlinkRuns {
  import opened Protocol
  import opened Words
  import opened Mailbox
  import opened RelayNode

  datatype Input =
    | Deliver(seqNo: nat, frame: seq<UInt8>, sec: nat)
    | Clock(sec: nat)
    | Meter
    | Restart

  datatype Event =
    /** tdmaQueueCommand() on an active slot, between any two radio actions. */
    | QueueCmd(cmd: seq<UInt8>, at: UInt32)
    /** Downlink window: did the gateway's transmission work, is the node in its slot, did it decode. */
    | DownlinkWindow(txOk: bool, inSlot: bool, rxOk: bool, at: UInt32, sec: nat)
    /** Uplink window that ends the slot; `rxOk` says whether the gateway decodes the packet. */
    | UplinkWindow(rxOk: bool, at: UInt32)
    | ScheduleTick(sec: nat)
    | MeterTick
    | NodeReboot

  /**
   * `open` lies between a downlink window and its uplink window, `inSlot` says that the node
   * takes part in the slot, `heard` is the command that it decoded in this slot.
   */
  datatype State = State(box: Box, node: Relay, open: bool, inSlot: bool, heard: Option<(nat, seq<UInt8>)>,
                         seqNo: nat, txLog: seq<nat>, nodeLog: seq<Input>)

  predicate EventShaped(e: Event) {
    e.QueueCmd? ==> 0 < |e.cmd| <= MAX_DL_PAYLOAD_LEN
  }

  predicate Shaped(s: State) {
    && Mailbox.WellFormed(s.box)
    && (s.heard.Some? ==> |s.heard.value.1| == MAX_DL_PAYLOAD_LEN)
  }

  function Start(slotId: UInt8, meterThreshold: UInt16): State {
    State(EMPTY, Boot(slotId, meterThreshold), false, false, None, 0, [], [])
  }

  function NodeReport(n: Relay): Report {
    Report(n.dlAck, n.relayState, n.relayMode, n.schedState)
  }

  /** Windows that do not alternate are not possible in a slot and leave the state as it is. */
  function Step(s: State, e: Event): (t: State)
    requires Shaped(s) && EventShaped(e)
    ensures Shaped(t)
  {
    match e
    case QueueCmd(cmd, at) =>
      s.(box := Queue(s.box, cmd, at), seqNo := s.seqNo + 1)
    case DownlinkWindow(txOk, inSlot, rxOk, at, sec) =>
      if s.open then s
      else
        var sent := Sends(s.box) && txOk;
        var s' := s.(box := AfterDownlink(s.box, txOk, at), open := true, inSlot := inSlot, heard := None,
                     txLog := if sent then s.txLog + [s.seqNo] else s.txLog);
        if sent && inSlot && rxOk then
          s'.(node := Handle(s.node, Frame(s.box), sec),
              heard := Some((s.seqNo, Frame(s.box))),
              nodeLog := s.nodeLog + [Deliver(s.seqNo, Frame(s.box), sec)])
        else s'
    case UplinkWindow(rxOk, at) =>
      if !s.open then s
      else if !s.inSlot then s.(open := false, heard := None)
      else s.(box := if rxOk then AfterUplink(s.box, NodeReport(s.node), at) else s.box,
              node := s.node.(dlAck := false), open := false, inSlot := false, heard := None)
    case ScheduleTick(sec) =>
      s.(node := Tick(s.node, sec), nodeLog := s.nodeLog + [Clock(sec)])
    case MeterTick =>
      s.(node := MeterPass(s.node), nodeLog := s.nodeLog + [Meter])
    case NodeReboot =>
      s.(node := Boot(s.node.slotId, s.node.meterThreshold), inSlot := false, heard := None,
         nodeLog := s.nodeLog + [Restart])
  }

  predicate EventsShaped(evs: seq<Event>) {
    forall k :: 0 <= k < |evs| ==> EventShaped(evs[k])
  }

  function Run(s: State, evs: seq<Event>): (t: State)
    requires Shaped(s) && EventsShaped(evs)
    ensures Shaped(t)
    decreases |evs|
  {
    if evs == [] then s else Step(Run(s, evs[..|evs| - 1]), evs[|evs| - 1])
  }

  // ----- Ack soundness -----

  /**
   * An ack bit stands for a frame that the node accepted in this very slot, and that frame
   * is the one in the mailbox unless something was queued after it was sent.
   */
  ghost predicate AckBound(s: State) {
    && Shaped(s)
    && (s.node.dlAck ==> s.open && s.inSlot && s.heard.Some? && Accepts(s.node, s.heard.value.1))
    && (s.heard.Some? ==> s.open && s.inSlot && s.heard.value.0 <= s.seqNo)
    && (s.heard.Some? && s.heard.value.0 == s.seqNo ==> s.heard.value.1 == Frame(s.box))
  }

  lemma StepKeepsAckBound(s: State, e: Event)
    requires AckBound(s) && EventShaped(e)
    ensures AckBound(Step(s, e))
  {
  }

  lemma {:induction false} RunKeepsAckBound(slotId: UInt8, meter: UInt16, evs: seq<Event>)
    requires EventsShaped(evs)
    ensures AckBound(Run(Start(slotId, meter), evs))
    decreases |evs|
  {
    if evs != [] {
      RunKeepsAckBound(slotId, meter, evs[..|evs| - 1]);
      StepKeepsAckBound(Run(Start(slotId, meter), evs[..|evs| - 1]), evs[|evs| - 1]);
    }
  }

  predicate MidSlot(e: Event) {
    !e.DownlinkWindow? && !e.UplinkWindow?
  }

  function Queued(evs: seq<Event>): nat {
    if evs == [] then 0
    else Queued(evs[..|evs| - 1]) + if evs[|evs| - 1].QueueCmd? then 1 else 0
  }

  /** What can be true between the downlink window `dl`, opened in state `s`, and its uplink. */
  ghost predicate SlotFacts(s: State, dl: Event, u: State, queued: nat)
    requires Shaped(s) && Shaped(u) && dl.DownlinkWindow?
  {
    && u.open
    && u.seqNo == s.seqNo + queued
    && (queued == 0 ==> Frame(u.box) == Frame(s.box))
    && (u.heard.Some? ==>
          && Sends(s.box) && dl.txOk && dl.inSlot && dl.rxOk
          && u.heard == Some((s.seqNo, Frame(s.box)))
          && (u.node.dlAck ==> Accepts(s.node, Frame(s.box))))
    && (u.node.dlAck ==> u.heard.Some?)
    && u.node.slotId == s.node.slotId
  }

  lemma SlotFactsStep(s: State, dl: Event, u: State, e: Event, queued: nat)
    requires Shaped(s) && Shaped(u) && dl.DownlinkWindow? && SlotFacts(s, dl, u, queued)
    requires EventShaped(e) && MidSlot(e)
    ensures SlotFacts(s, dl, Step(u, e), queued + if e.QueueCmd? then 1 else 0)
  {
    hide Accepts;
  }

  lemma {:induction false} SlotFactsHold(s: State, dl: Event, mid: seq<Event>)
    requires AckBound(s) && !s.open && dl.DownlinkWindow? && EventsShaped(mid)
    requires forall k :: 0 <= k < |mid| ==> MidSlot(mid[k])
    ensures SlotFacts(s, dl, Run(Step(s, dl), mid), Queued(mid))
    decreases |mid|
  {
    if mid != [] {
      hide SlotFacts, Step;
      var n := |mid| - 1;
      SlotFactsHold(s, dl, mid[..n]);
      SlotFactsStep(s, dl, Run(Step(s, dl), mid[..n]), mid[n], Queued(mid[..n]));
    }
  }

  /**
   * Ack soundness. An uplink with the ack bit ends the pending state, and the node has
   * applied in this same slot exactly the frame that was in the mailbox at the slot's
   * downlink window: the bytes still queued if nothing was queued since, and a command with
   * an older number than the one being confirmed otherwise.
   */
  lemma AckMeansApplied(slotId: UInt8, meter: UInt16, evs: seq<Event>, dl: Event, mid: seq<Event>, ul: Event)
    requires EventsShaped(evs) && EventsShaped(mid)
    requires dl.DownlinkWindow? && ul.UplinkWindow? && ul.rxOk
    requires forall k :: 0 <= k < |mid| ==> MidSlot(mid[k])
    requires !Run(Start(slotId, meter), evs).open
    ensures var s := Run(Start(slotId, meter), evs);
            var u := Run(Step(s, dl), mid);
            u.inSlot && u.node.dlAck && u.box.pending ==>
              && !Step(u, ul).box.pending
              && Sends(s.box) && dl.txOk && dl.rxOk && Accepts(s.node, Frame(s.box))
              && Step(s, dl).node == Handle(s.node, Frame(s.box), dl.sec)
              && (Frame(u.box) == Frame(s.box) || u.seqNo > s.seqNo)
              && (u.seqNo == s.seqNo <==> Queued(mid) == 0)
  {
    var s := Run(Start(slotId, meter), evs);
    RunKeepsAckBound(slotId, meter, evs);
    SlotFactsHold(s, dl, mid);
  }

  /** Outside a slot no ack is armed, so a lost uplink leaves none behind for a later one. */
  lemma NoStaleAck(slotId: UInt8, meter: UInt16, evs: seq<Event>)
    requires EventsShaped(evs)
    ensures !Run(Start(slotId, meter), evs).open ==> !Run(Start(slotId, meter), evs).node.dlAck
  {
    RunKeepsAckBound(slotId, meter, evs);
  }

  // ----- What is lost changes nothing at the gateway -----

  /** The mailbox moves only by a command, a transmission, or a packet of the node that was decoded in the slot. */
  lemma MailboxMoves(s: State, e: Event)
    requires Shaped(s) && EventShaped(e)
    ensures Step(s, e).box != s.box ==>
              || e.QueueCmd?
              || (e.DownlinkWindow? && !s.open && e.txOk && Sends(s.box))
              || (e.UplinkWindow? && s.open && s.inSlot && e.rxOk && s.box.pending)
    ensures Step(s, e).node != s.node ==>
              || e.ScheduleTick? || e.MeterTick? || e.NodeReboot?
              || (e.DownlinkWindow? && !s.open && e.txOk && e.inSlot && e.rxOk && Sends(s.box))
              || (e.UplinkWindow? && s.open && s.inSlot)
  {
    hide Handle, Tick, Confirmed;
  }

  /** A node that restarts in the middle of a slot sends nothing in it. */
  lemma {:induction false} SilentAfterRestart(s: State, mid: seq<Event>, ul: Event)
    requires Shaped(s) && EventsShaped(mid) && ul.UplinkWindow?
    requires forall k :: 0 <= k < |mid| ==> MidSlot(mid[k])
    ensures var t := Run(Step(s, NodeReboot), mid);
      !t.inSlot && t.heard.None? && Step(t, ul).box == t.box && Step(t, ul).node == t.node
    decreases |mid|
  {
    if mid != [] {
      SilentAfterRestart(s, mid[..|mid| - 1], ul);
    }
  }

  // ----- Frames are the commands that were queued -----

  /** The commands of a run, in queueing order. */
  function Commands(evs: seq<Event>): (cmds: seq<seq<UInt8>>)
    requires EventsShaped(evs)
    ensures forall q :: 0 <= q < |cmds| ==> 0 < |cmds[q]| <= MAX_DL_PAYLOAD_LEN
  {
    if evs == [] then []
    else
      var before, e := Commands(evs[..|evs| - 1]), evs[|evs| - 1];
      if e.QueueCmd? then before + [e.cmd] else before
  }

  function Padded(cmd: seq<UInt8>): (f: seq<UInt8>)
    requires |cmd| <= MAX_DL_PAYLOAD_LEN
    ensures |f| == MAX_DL_PAYLOAD_LEN
  {
    cmd + Zeros(MAX_DL_PAYLOAD_LEN - |cmd|)
  }

  predicate PaddedCommand(cmds: seq<seq<UInt8>>, q: nat, frame: seq<UInt8>) {
    1 <= q <= |cmds| && |cmds[q - 1]| <= MAX_DL_PAYLOAD_LEN && frame == Padded(cmds[q - 1])
  }

  /** The mailbox holds the newest command, and every frame delivered carries its own. */
  ghost predicate Carries(s: State, cmds: seq<seq<UInt8>>) {
    && Shaped(s)
    && s.seqNo == |cmds|
    && (cmds == [] ==> !s.box.active && !s.box.pending)
    && (cmds != [] ==> s.box.len == |cmds[|cmds| - 1]| && s.box.data[..s.box.len] == cmds[|cmds| - 1])
    && (forall k :: 0 <= k < |s.nodeLog| && s.nodeLog[k].Deliver? ==>
          PaddedCommand(cmds, s.nodeLog[k].seqNo, s.nodeLog[k].frame))
  }

  lemma StillPadded(cmds: seq<seq<UInt8>>, cmd: seq<UInt8>, q: nat, frame: seq<UInt8>)
    requires PaddedCommand(cmds, q, frame)
    ensures PaddedCommand(cmds + [cmd], q, frame)
  {
  }

  lemma StepCarries(s: State, e: Event, cmds: seq<seq<UInt8>>)
    requires Carries(s, cmds) && EventShaped(e)
    ensures Carries(Step(s, e), if e.QueueCmd? then cmds + [e.cmd] else cmds)
  {
    hide StateMatches, Handle, Tick, PaddedCommand;
    if e.QueueCmd? {
      forall q, frame | PaddedCommand(cmds, q, frame) ensures PaddedCommand(cmds + [e.cmd], q, frame) {
        StillPadded(cmds, e.cmd, q, frame);
      }
      QueuedIsSent(s.box, e.cmd, e.at);
    } else if e.DownlinkWindow? && Sends(s.box) {
      FrameIsCommand(s, cmds);
    }
  }

  lemma FrameIsCommand(s: State, cmds: seq<seq<UInt8>>)
    requires Carries(s, cmds) && cmds != []
    ensures PaddedCommand(cmds, s.seqNo, Frame(s.box))
  {
  }

  lemma {:induction false} RunCarries(slotId: UInt8, meter: UInt16, evs: seq<Event>)
    requires EventsShaped(evs)
    ensures Carries(Run(Start(slotId, meter), evs), Commands(evs))
    decreases |evs|
  {
    hide Carries, Step;
    if evs == [] {
      NothingCarried(slotId, meter);
    } else {
      RunCarries(slotId, meter, evs[..|evs| - 1]);
      StepCarries(Run(Start(slotId, meter), evs[..|evs| - 1]), evs[|evs| - 1], Commands(evs[..|evs| - 1]));
    }
  }

  lemma NothingCarried(slotId: UInt8, meter: UInt16)
    ensures Carries(Start(slotId, meter), [])
  {
  }

  /** Whatever is lost, retried or overwritten: the q-th command reaches the node as the bytes that were queued. */
  lemma DeliveredAsQueued(slotId: UInt8, meter: UInt16, evs: seq<Event>, k: nat)
    requires EventsShaped(evs)
    requires k < |Run(Start(slotId, meter), evs).nodeLog| && Run(Start(slotId, meter), evs).nodeLog[k].Deliver?
    ensures var i := Run(Start(slotId, meter), evs).nodeLog[k];
      1 <= i.seqNo <= |Commands(evs)| && i.frame == Padded(Commands(evs)[i.seqNo - 1])
  {
    RunCarries(slotId, meter, evs);
    hide Run;
  }

  /**
   * After any run, an uplink without ack within the timeout ends the pending state exactly if the
   * node is in the state that the newest command asks for.
   */
  lemma UnackedConfirmation(slotId: UInt8, meter: UInt16, evs: seq<Event>, ul: Event)
    requires EventsShaped(evs) && ul.UplinkWindow? && ul.rxOk
    requires var s := Run(Start(slotId, meter), evs);
      s.open && s.inSlot && s.box.pending && !s.node.dlAck && Sub32(ul.at, s.box.sentAt) < PENDING_TIMEOUT_MS
    ensures Commands(evs) != []
    ensures
      var s, cmd := Run(Start(slotId, meter), evs), Commands(evs)[|Commands(evs)| - 1];
      var still := Step(s, ul).box.pending;
      && (|cmd| >= 3 && cmd[0] == PKT_RELAY_MANUAL ==> (still <==> s.node.relayState != cmd[2]))
      && (|cmd| >= 7 && cmd[0] == PKT_RELAY_SCHEDULE ==> (still <==> s.node.relayMode != 1 || s.node.schedState == 0))
      && (|cmd| >= 2 && cmd[0] == PKT_RELAY_CLEAR ==> (still <==> s.node.relayMode != 0 || s.node.schedState != 0))
      && (cmd[0] !in {PKT_RELAY_MANUAL, PKT_RELAY_SCHEDULE, PKT_RELAY_CLEAR} ==> still)
  {
    RunCarries(slotId, meter, evs);
    hide Run, AfterUplink;
    var s := Run(Start(slotId, meter), evs);
    UnackedUplink(s.box, NodeReport(s.node), ul.at);
  }

  // ----- Transmission budget and order -----

  function Count(xs: seq<nat>, x: nat): nat {
    if xs == [] then 0 else Count(xs[..|xs| - 1], x) + if xs[|xs| - 1] == x then 1 else 0
  }

  predicate Ascending(xs: seq<nat>) {
    forall i, j :: 0 <= i < j < |xs| ==> xs[i] <= xs[j]
  }

  lemma {:induction false} CountAbsent(xs: seq<nat>, x: nat)
    requires forall i :: 0 <= i < |xs| ==> xs[i] < x
    ensures Count(xs, x) == 0
  {
    if xs != [] {
      CountAbsent(xs[..|xs| - 1], x);
    }
  }

  lemma CountAppend(xs: seq<nat>, y: nat, x: nat)
    ensures Count(xs + [y], x) == Count(xs, x) + if x == y then 1 else 0
  {
    assert (xs + [y])[..|xs|] == xs;
  }

  /** `txLog` is in queueing order and no command is in it more than four times. */
  ghost predicate LogWithinBudget(txLog: seq<nat>, seqNo: nat) {
    && Ascending(txLog)
    && (forall i :: 0 <= i < |txLog| ==> txLog[i] <= seqNo)
    && (forall q :: Count(txLog, q) <= MAX_DL_RETRIES + 1)
  }

  /** Frames sent plus the one armed account for the first attempt and the retries. */
  predicate BoxWithinBudget(b: Box, sent: nat) {
    var armed := if b.active then 1 else 0;
    if b.pending then sent + armed == b.retry + 1 && b.retry <= MAX_DL_RETRIES
    else sent + armed <= MAX_DL_RETRIES + 1
  }

  ghost predicate Budget(s: State) {
    && Shaped(s)
    && BoxWithinBudget(s.box, Count(s.txLog, s.seqNo))
    && LogWithinBudget(s.txLog, s.seqNo)
  }

  lemma SendingKeepsBudget(s: State)
    requires Budget(s) && s.box.active
    ensures LogWithinBudget(s.txLog + [s.seqNo], s.seqNo)
    ensures Count(s.txLog + [s.seqNo], s.seqNo) == Count(s.txLog, s.seqNo) + 1
  {
    hide Count;
    forall q
      ensures Count(s.txLog + [s.seqNo], q) == Count(s.txLog, q) + if q == s.seqNo then 1 else 0
    {
      CountAppend(s.txLog, s.seqNo, q);
    }
  }

  lemma BoxStepsKeepBudget(b: Box, sent: nat, r: Report, at: UInt32)
    requires Mailbox.WellFormed(b) && BoxWithinBudget(b, sent)
    ensures BoxWithinBudget(AfterUplink(b, r, at), sent)
    ensures Sends(b) ==> BoxWithinBudget(AfterDownlink(b, true, at), sent + 1)
  {
  }

  lemma StepKeepsBudget(s: State, e: Event)
    requires Budget(s) && EventShaped(e)
    ensures Budget(Step(s, e))
  {
    match e
    case QueueCmd(cmd, at) =>
      CountAbsent(s.txLog, s.seqNo + 1);
      assert LogWithinBudget(s.txLog, s.seqNo + 1);
    case DownlinkWindow(txOk, inSlot, rxOk, at, sec) =>
      if !s.open && Sends(s.box) && txOk {
        SendingKeepsBudget(s);
        BoxStepsKeepBudget(s.box, Count(s.txLog, s.seqNo), NodeReport(s.node), at);
      }
    case UplinkWindow(rxOk, at) =>
      BoxStepsKeepBudget(s.box, Count(s.txLog, s.seqNo), NodeReport(s.node), at);
    case _ =>
  }

  lemma {:induction false} RunKeepsBudget(slotId: UInt8, meter: UInt16, evs: seq<Event>)
    requires EventsShaped(evs)
    ensures Budget(Run(Start(slotId, meter), evs))
    decreases |evs|
  {
    if evs != [] {
      RunKeepsBudget(slotId, meter, evs[..|evs| - 1]);
      StepKeepsBudget(Run(Start(slotId, meter), evs[..|evs| - 1]), evs[|evs| - 1]);
    }
  }

  /** No command goes on air more than 1 + MAX_DL_RETRIES times, and never after a newer one. */
  lemma AtMostFourTransmissions(slotId: UInt8, meter: UInt16, evs: seq<Event>, q: nat)
    requires EventsShaped(evs)
    ensures Count(Run(Start(slotId, meter), evs).txLog, q) <= 4
    ensures Ascending(Run(Start(slotId, meter), evs).txLog)
  {
    RunKeepsBudget(slotId, meter, evs);
  }
}
