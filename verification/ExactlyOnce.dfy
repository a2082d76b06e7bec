/**
 * Retried commands take effect once. The relay, schedule and threshold state after any run
 * of the downlink pipeline equals what the node would have reached had every command been
 * delivered a single time, in queueing order, its repetitions replaced by nothing or, for a
 * schedule, by one tick of the schedule evaluator.
 *
 * The nudge command is the exception: every delivery blinks again.
 */
module ExactlyOnce {
  import opened Protocol
  import opened Words
  import opened Mailbox
  import opened RelayNode
  import opened DownlinkRuns

  /** What a node with some history looks like to its user: outputs, schedule and the
      threshold the meter has or is about to get. */
  datatype View = View(relayState: UInt8, relayMode: UInt8, schedState: UInt8,
                       startH: UInt8, startM: UInt8, endH: UInt8, endM: UInt8,
                       alarmThreshold: UInt16, threshold: UInt16)

  function ViewOf(n: Relay): View {
    View(n.relayState, n.relayMode, n.schedState, n.startH, n.startM, n.endH, n.endM,
         n.alarmThreshold, if n.hasPending then n.pendingThreshold else n.meterThreshold)
  }

  predicate InputShaped(i: Input) {
    i.Deliver? ==> |i.frame| == MAX_DL_PAYLOAD_LEN
  }

  predicate LogShaped(log: seq<Input>) {
    forall k :: 0 <= k < |log| ==> InputShaped(log[k])
  }

  function React(n: Relay, i: Input): Relay
    requires InputShaped(i)
  {
    match i
    case Deliver(_, frame, sec) => Handle(n, frame, sec)
    case Clock(sec) => Tick(n, sec)
    case Meter => MeterPass(n)
    case Restart => Boot(n.slotId, n.meterThreshold)
  }

  /** The node that has received exactly the inputs of `log`, in that order. */
  function Replay(n: Relay, log: seq<Input>): Relay
    requires LogShaped(log)
    decreases |log|
  {
    if log == [] then n else React(Replay(n, log[..|log| - 1]), log[|log| - 1])
  }

  /** Number of the last command delivered since the last restart; 0 if none. */
  function LastSeq(log: seq<Input>): nat {
    if log == [] || log[|log| - 1].Restart? then 0
    else if log[|log| - 1].Deliver? then log[|log| - 1].seqNo
    else LastSeq(log[..|log| - 1])
  }

  /** The log with every repeated delivery taken out; a repeated schedule leaves a tick. */
  function Once(slotId: UInt8, log: seq<Input>): (r: seq<Input>)
    requires LogShaped(log)
    ensures LogShaped(r)
    decreases |log|
  {
    if log == [] then []
    else
      var before, i := log[..|log| - 1], log[|log| - 1];
      if i.Deliver? && i.seqNo == LastSeq(before) then
        if i.frame[0] == PKT_RELAY_SCHEDULE && Reaches(slotId, i.frame)
        then Once(slotId, before) + [Clock(i.sec)]
        else Once(slotId, before)
      else Once(slotId, before) + [i]
  }

  predicate Reaches(slotId: UInt8, frame: seq<UInt8>)
    requires |frame| == MAX_DL_PAYLOAD_LEN
  {
    frame[1] == slotId || frame[1] == BROADCAST_ADDR
  }

  /** Deliveries come in queueing order and one number always carries the same frame. */
  ghost predicate InOrder(log: seq<Input>) {
    && (forall i, j :: 0 <= i < j < |log| && log[i].Deliver? && log[j].Deliver? ==> log[i].seqNo <= log[j].seqNo)
    && (forall i, j :: 0 <= i < j < |log| && log[i].Deliver? && log[j].Deliver? && log[i].seqNo == log[j].seqNo ==>
          log[i].frame == log[j].frame)
    && (forall i :: 0 <= i < |log| && log[i].Deliver? ==> log[i].seqNo > 0)
  }

  // ----- A delivered command stays in effect until the next one -----

  predicate InEffect(n: Relay, frame: seq<UInt8>)
    requires |frame| == MAX_DL_PAYLOAD_LEN
  {
    Addressed(n, frame) ==>
      if frame[0] == PKT_RELAY_MANUAL then n.relayMode == 0 && n.schedState == 0 && n.relayState == frame[2] % 2
      else if frame[0] == PKT_RELAY_SCHEDULE then
        && n.relayMode == 1 && n.schedState != 0
        && n.startH == frame[3] && n.startM == frame[4] && n.endH == frame[5] && n.endM == frame[6]
      else if frame[0] == PKT_RELAY_CLEAR then n.relayMode == 0 && n.schedState == 0
      else if frame[0] == PKT_THRESHOLD then n.alarmThreshold == Watts(frame) && ViewOf(n).threshold == Watts(frame)
      else true
  }

  lemma EffectLasts(n: Relay, frame: seq<UInt8>, i: Input)
    requires |frame| == MAX_DL_PAYLOAD_LEN && InEffect(n, frame) && (i.Clock? || i.Meter?)
    ensures InEffect(React(n, i), frame)
  {
  }

  /**
   * `a` is ahead of `b` by repeated deliveries only: same view, same meter register, and
   * possibly one more pending write of a value that the meter already has.
   */
  predicate SameEffect(a: Relay, b: Relay) {
    && a.slotId == b.slotId
    && ViewOf(a) == ViewOf(b)
    && a.meterThreshold == b.meterThreshold
    && (b.hasPending ==> a.hasPending)
  }

  /** The schedule command before its evaluation. */
  function Scheduled(n: Relay, frame: seq<UInt8>): Relay
    requires |frame| == MAX_DL_PAYLOAD_LEN
  {
    n.(relayMode := 1, schedState := 1, startH := frame[3], startM := frame[4], endH := frame[5], endM := frame[6])
  }

  lemma TickKeepsSameEffect(a: Relay, b: Relay, sec: nat)
    requires SameEffect(a, b)
    ensures SameEffect(Tick(a, sec), Tick(b, sec))
  {
    assert Inside(a, sec / 60) == Inside(b, sec / 60);
    hide Inside;
  }

  lemma ApplyKeepsSameEffect(a: Relay, b: Relay, frame: seq<UInt8>, sec: nat)
    requires SameEffect(a, b) && |frame| == MAX_DL_PAYLOAD_LEN
    ensures SameEffect(Apply(a, frame, sec), Apply(b, frame, sec))
  {
    if frame[0] == PKT_RELAY_SCHEDULE {
      TickKeepsSameEffect(Scheduled(a, frame), Scheduled(b, frame), sec);
    }
    hide Tick, Watts;
  }

  lemma HandledInEffect(n: Relay, frame: seq<UInt8>, sec: nat)
    requires |frame| == MAX_DL_PAYLOAD_LEN
    ensures InEffect(Handle(n, frame, sec), frame)
  {
    hide Inside, Watts;
  }

  lemma ReactKeepsSameEffect(a: Relay, b: Relay, i: Input)
    requires SameEffect(a, b) && InputShaped(i)
    ensures SameEffect(React(a, i), React(b, i)) && React(a, i).slotId == a.slotId
    ensures i.Deliver? ==> InEffect(React(a, i), i.frame)
  {
    hide Apply, Tick, Watts, InEffect;
    match i
    case Deliver(_, frame, sec) =>
      ApplyKeepsSameEffect(a, b, frame, sec);
      HandledInEffect(a, frame, sec);
      KeepsSlotId(a, frame, sec);
    case Clock(sec) =>
      TickKeepsSameEffect(a, b, sec);
      KeepsSlotId(a, Zeros(MAX_DL_PAYLOAD_LEN), sec);
    case Meter =>
    case Restart =>
  }

  lemma KeepsSlotId(n: Relay, frame: seq<UInt8>, sec: nat)
    requires |frame| == MAX_DL_PAYLOAD_LEN
    ensures Tick(n, sec).slotId == n.slotId && Apply(n, frame, sec).slotId == n.slotId
  {
    hide Inside, Watts;
  }

  /** Re-delivery of a command in effect: a tick for a schedule, nothing visible otherwise. */
  lemma Redelivery(a: Relay, b: Relay, frame: seq<UInt8>, sec: nat)
    requires |frame| == MAX_DL_PAYLOAD_LEN && InEffect(a, frame) && SameEffect(a, b)
    ensures InEffect(Handle(a, frame, sec), frame)
    ensures SameEffect(Handle(a, frame, sec),
                       if frame[0] == PKT_RELAY_SCHEDULE && Reaches(a.slotId, frame) then Tick(b, sec) else b)
  {
  }

  // ----- Logs -----

  function LastFrame(log: seq<Input>): (f: seq<UInt8>)
    requires LogShaped(log)
    ensures LastSeq(log) != 0 ==> |f| == MAX_DL_PAYLOAD_LEN
  {
    if log == [] || log[|log| - 1].Restart? then []
    else if log[|log| - 1].Deliver? then log[|log| - 1].frame
    else LastFrame(log[..|log| - 1])
  }

  lemma {:induction false} LastDelivery(log: seq<Input>) returns (k: nat)
    requires LogShaped(log) && LastSeq(log) != 0
    ensures k < |log| && log[k].Deliver? && log[k].seqNo == LastSeq(log) && log[k].frame == LastFrame(log)
    ensures forall j :: k < j < |log| ==> !log[j].Deliver? && !log[j].Restart?
  {
    var n := |log| - 1;
    if log[n].Deliver? {
      k := n;
    } else {
      k := LastDelivery(log[..n]);
    }
  }

  lemma {:induction false} OnceIsEnough(n: Relay, log: seq<Input>)
    requires LogShaped(log) && InOrder(log)
    ensures Replay(n, log).slotId == n.slotId
    ensures SameEffect(Replay(n, log), Replay(n, Once(n.slotId, log)))
    ensures LastSeq(log) != 0 ==> InEffect(Replay(n, log), LastFrame(log))
    decreases |log|
  {
    if log != [] {
      hide InEffect, Apply, Tick, Watts, InOrder, SameEffect;
      var before, i := log[..|log| - 1], log[|log| - 1];
      InOrderPrefix(log);
      OnceIsEnough(n, before);
      var a, b := Replay(n, before), Replay(n, Once(n.slotId, before));
      ReactKeepsSameEffect(a, b, i);
      if i.Deliver? && i.seqNo == LastSeq(before) {
        Redelivery(a, b, i.frame, i.sec);
        ReplayAppend(n, Once(n.slotId, before), Clock(i.sec));
      } else {
        ReplayAppend(n, Once(n.slotId, before), i);
        if LastSeq(before) != 0 && (i.Clock? || i.Meter?) {
          EffectLasts(a, LastFrame(before), i);
        }
      }
    }
  }

  /** A repeated number carries the frame of last time. */
  lemma InOrderPrefix(log: seq<Input>)
    requires LogShaped(log) && InOrder(log) && log != []
    ensures InOrder(log[..|log| - 1])
    ensures var before, i := log[..|log| - 1], log[|log| - 1];
      i.Deliver? && i.seqNo == LastSeq(before) ==> LastSeq(before) != 0 && i.frame == LastFrame(before)
  {
    var before, i := log[..|log| - 1], log[|log| - 1];
    if i.Deliver? && i.seqNo == LastSeq(before) {
      var k := LastDelivery(before);
      assert log[k] == before[k];
    }
  }

  lemma ReplayAppend(n: Relay, log: seq<Input>, i: Input)
    requires LogShaped(log) && InputShaped(i)
    ensures Replay(n, log + [i]) == React(Replay(n, log), i)
  {
    assert (log + [i])[..|log|] == log;
  }

  /** No restart at or after index k, before index n. */
  predicate Uninterrupted(log: seq<Input>, k: nat, n: nat)
    requires k <= n <= |log|
  {
    forall j :: k <= j < n ==> !log[j].Restart?
  }

  /** Between two restarts the log delivers every command at most once, oldest first. */
  ghost predicate StrictlyOnce(log: seq<Input>) {
    forall i, j :: 0 <= i < j < |log| && log[i].Deliver? && log[j].Deliver? && Uninterrupted(log, i, j) ==>
      log[i].seqNo < log[j].seqNo
  }

  /** The deliveries since the last restart have numbers from 1 to `bound`. */
  ghost predicate TailBelow(log: seq<Input>, bound: nat) {
    forall i :: 0 <= i < |log| && log[i].Deliver? && Uninterrupted(log, i, |log|) ==> 0 < log[i].seqNo <= bound
  }

  lemma AppendStrictly(log: seq<Input>, x: Input, bound: nat)
    requires StrictlyOnce(log) && TailBelow(log, bound)
    requires x.Deliver? ==> x.seqNo > bound
    ensures StrictlyOnce(log + [x])
    ensures TailBelow(log + [x], if x.Restart? then 0 else if x.Deliver? then x.seqNo else bound)
  {
    var r := log + [x];
    forall i, j | 0 <= i < j < |r| && r[i].Deliver? && r[j].Deliver? && Uninterrupted(r, i, j)
      ensures r[i].seqNo < r[j].seqNo
    {
      assert forall k :: i <= k < j ==> log[k] == r[k];
      assert Uninterrupted(log, i, j);
    }
    forall i | 0 <= i < |r| && r[i].Deliver? && Uninterrupted(r, i, |r|)
      ensures i == |log| || (0 < r[i].seqNo <= bound && !x.Restart?)
    {
      assert r[|log|] == x;
      if i < |log| {
        assert forall k :: i <= k < |log| ==> log[k] == r[k];
        assert Uninterrupted(log, i, |log|);
      }
    }
  }

  lemma {:induction false} OnceDeliversOnce(slotId: UInt8, log: seq<Input>)
    requires LogShaped(log) && InOrder(log)
    ensures StrictlyOnce(Once(slotId, log)) && TailBelow(Once(slotId, log), LastSeq(log))
    decreases |log|
  {
    if log != [] {
      var before, i := log[..|log| - 1], log[|log| - 1];
      OnceDeliversOnce(slotId, before);
      if i.Deliver? && i.seqNo == LastSeq(before) {
        AppendStrictly(Once(slotId, before), Clock(i.sec), LastSeq(before));
      } else {
        if i.Deliver? && LastSeq(before) != 0 {
          var k := LastDelivery(before);
          assert log[k] == before[k];
        }
        AppendStrictly(Once(slotId, before), i, LastSeq(before));
      }
    }
  }

  /** And it leaves no command out. */
  lemma {:induction false} OnceKeepsEveryCommand(slotId: UInt8, log: seq<Input>, k: nat) returns (j: nat)
    requires LogShaped(log) && InOrder(log)
    requires k < |log| && log[k].Deliver?
    ensures j < |Once(slotId, log)| && Once(slotId, log)[j].Deliver?
    ensures Once(slotId, log)[j].seqNo == log[k].seqNo && Once(slotId, log)[j].frame == log[k].frame
    decreases |log|
  {
    var before, i := log[..|log| - 1], log[|log| - 1];
    if k < |before| {
      j := OnceKeepsEveryCommand(slotId, before, k);
    } else if i.seqNo == LastSeq(before) {
      var m := LastDelivery(before);
      assert log[m] == before[m];
      j := OnceKeepsEveryCommand(slotId, before, m);
    } else {
      j := |Once(slotId, before)|;
    }
  }

  // ----- Runs of the pipeline -----

  /** The log is in order and agrees with the mailbox about the newest command. */
  ghost predicate LogFits(log: seq<Input>, seqNo: nat, frame: seq<UInt8>) {
    && LogShaped(log)
    && InOrder(log)
    && (forall i :: 0 <= i < |log| && log[i].Deliver? ==> log[i].seqNo <= seqNo)
    && (forall i :: 0 <= i < |log| && log[i].Deliver? && log[i].seqNo == seqNo ==> log[i].frame == frame)
  }

  lemma AppendFits(log: seq<Input>, i: Input, seqNo: nat, frame: seq<UInt8>)
    requires LogFits(log, seqNo, frame) && InputShaped(i)
    requires i.Deliver? ==> i.seqNo == seqNo > 0 && i.frame == frame
    ensures LogFits(log + [i], seqNo, frame)
  {
  }

  /** The node is what its inputs made of it. */
  ghost predicate Explained(n0: Relay, s: State) {
    && DownlinkRuns.Shaped(s)
    && LogFits(s.nodeLog, s.seqNo, Frame(s.box))
    && (s.box.active || s.box.pending ==> s.seqNo > 0)
    && s.node == Replay(n0, s.nodeLog).(dlAck := s.node.dlAck)
  }

  lemma AckBitIsInert(n: Relay, ack: bool, i: Input)
    requires InputShaped(i)
    ensures React(n.(dlAck := ack), i) == React(n, i).(dlAck := React(n.(dlAck := ack), i).dlAck)
  {
    var m := n.(dlAck := ack);
    if i.Deliver? {
      TickIgnoresAck(n, ack, i.sec);
      if i.frame[0] == PKT_RELAY_SCHEDULE {
        TickIgnoresAck(Scheduled(n, i.frame), ack, i.sec);
        assert Apply(m, i.frame, i.sec) == Apply(n, i.frame, i.sec).(dlAck := ack);
      } else {
        assert Apply(m, i.frame, i.sec) == Apply(n, i.frame, i.sec).(dlAck := ack);
      }
    } else if i.Clock? {
      TickIgnoresAck(n, ack, i.sec);
    }
  }

  lemma TickIgnoresAck(n: Relay, ack: bool, sec: nat)
    ensures Tick(n.(dlAck := ack), sec) == Tick(n, sec).(dlAck := ack)
  {
  }

  lemma InputExplained(n0: Relay, s: State, t: State, i: Input)
    requires Explained(n0, s) && DownlinkRuns.Shaped(t) && InputShaped(i)
    requires t.nodeLog == s.nodeLog + [i] && t.seqNo == s.seqNo && Frame(t.box) == Frame(s.box)
    requires t.box.active || t.box.pending ==> s.seqNo > 0
    requires i.Deliver? ==> i.seqNo == s.seqNo > 0 && i.frame == Frame(s.box)
    requires t.node == React(s.node, i)
    ensures Explained(n0, t)
  {
    AppendFits(s.nodeLog, i, s.seqNo, Frame(s.box));
    ReplayAppend(n0, s.nodeLog, i);
    AckBitIsInert(Replay(n0, s.nodeLog), s.node.dlAck, i);
  }

  lemma StepExplained(n0: Relay, s: State, e: Event)
    requires Explained(n0, s) && EventShaped(e)
    ensures Explained(n0, Step(s, e))
  {
    var t := Step(s, e);
    match e
    case QueueCmd(cmd, at) =>
      assert LogFits(s.nodeLog, s.seqNo + 1, Frame(t.box));
    case DownlinkWindow(txOk, inSlot, rxOk, at, sec) =>
      if !s.open && Sends(s.box) && txOk && inSlot && rxOk {
        InputExplained(n0, s, t, Deliver(s.seqNo, Frame(s.box), sec));
      }
    case UplinkWindow(rxOk, at) =>
    case ScheduleTick(sec) => InputExplained(n0, s, t, Clock(sec));
    case MeterTick => InputExplained(n0, s, t, Meter);
    case NodeReboot => InputExplained(n0, s, t, Restart);
  }

  lemma {:induction false} RunExplained(slotId: UInt8, meter: UInt16, evs: seq<Event>)
    requires EventsShaped(evs)
    ensures Explained(Boot(slotId, meter), Run(Start(slotId, meter), evs))
    decreases |evs|
  {
    if evs != [] {
      RunExplained(slotId, meter, evs[..|evs| - 1]);
      StepExplained(Boot(slotId, meter), Run(Start(slotId, meter), evs[..|evs| - 1]), evs[|evs| - 1]);
    }
  }

  /**
   * After any run the visible node state is the one that delivering each command once would
   * give, and that reduced history really has no repetition and no reordering.
   */
  lemma CommandsTakeEffectOnce(slotId: UInt8, meter: UInt16, evs: seq<Event>)
    requires EventsShaped(evs)
    ensures var s := Run(Start(slotId, meter), evs);
      && LogShaped(s.nodeLog)
      && InOrder(s.nodeLog)
      && StrictlyOnce(Once(slotId, s.nodeLog))
      && ViewOf(s.node) == ViewOf(Replay(Boot(slotId, meter), Once(slotId, s.nodeLog)))
  {
    RunExplained(slotId, meter, evs);
    var s := Run(Start(slotId, meter), evs);
    OnceIsEnough(Boot(slotId, meter), s.nodeLog);
    OnceDeliversOnce(slotId, s.nodeLog);
  }

  lemma InsideByFields(a: Relay, b: Relay, nowMins: nat)
    requires a.startH == b.startH && a.startM == b.startM && a.endH == b.endH && a.endM == b.endM
    ensures Inside(a, nowMins) == Inside(b, nowMins)
  {
  }

  lemma ApplyTwice(n: Relay, frame: seq<UInt8>, sec: nat)
    requires |frame| == MAX_DL_PAYLOAD_LEN
    ensures Apply(Apply(n, frame, sec), frame, sec) == Apply(n, frame, sec)
       <==> frame[0] != PKT_NUDGE
  {
    hide Watts, Inside;
    if frame[0] == PKT_RELAY_SCHEDULE {
      var once := Scheduled(n, frame);
      InsideByFields(once, Scheduled(Tick(once, sec), frame), sec / 60);
    }
  }

  lemma AckChangesNothing(n: Relay, frame: seq<UInt8>, sec: nat)
    requires |frame| == MAX_DL_PAYLOAD_LEN
    ensures Apply(n.(dlAck := true), frame, sec) == Apply(n, frame, sec).(dlAck := true)
    ensures Accepts(n, frame) ==> Accepts(Apply(n, frame, sec).(dlAck := true), frame)
  {
    KeepsSlotId(n, frame, sec);
    AckBitIsInert(n, true, Deliver(0, frame, sec));
  }

  /** A command may be repeated without any trace if and only if it is not an accepted nudge. */
  lemma RepeatableUnlessNudge(n: Relay, frame: seq<UInt8>, sec: nat)
    requires |frame| == MAX_DL_PAYLOAD_LEN
    ensures Handle(Handle(n, frame, sec), frame, sec) == Handle(n, frame, sec)
       <==> !(Accepts(n, frame) && frame[0] == PKT_NUDGE)
  {
    if Accepts(n, frame) {
      var m := Apply(n, frame, sec);
      AckChangesNothing(n, frame, sec);
      AckChangesNothing(m, frame, sec);
      ApplyTwice(n, frame, sec);
      hide Accepts, Apply;
    }
  }
}
