/**
 * What a node is set to, read off its history: every setting is that of the newest command of
 * its kind that was delivered since the node's last restart, and nothing else moves it.
 */
module NodeSettings {
  import opened Protocol
  import opened Words
  import opened RelayNode
  import opened DownlinkRuns
  import opened ExactlyOnce

  const MODES: set<UInt8> := {PKT_RELAY_MANUAL, PKT_RELAY_SCHEDULE, PKT_RELAY_CLEAR}

  /** A delivery of one of these types, addressed to the node. */
  predicate Takes(slotId: UInt8, i: Input, types: set<UInt8>)
    requires InputShaped(i)
  {
    i.Deliver? && Reaches(slotId, i.frame) && i.frame[0] in types
  }

  /** The newest of them since the last restart. */
  function Last(slotId: UInt8, log: seq<Input>, types: set<UInt8>): (f: Option<seq<UInt8>>)
    requires LogShaped(log)
    ensures f.Some? ==> |f.value| == MAX_DL_PAYLOAD_LEN && f.value[0] in types
  {
    if log == [] || log[|log| - 1].Restart? then None
    else if Takes(slotId, log[|log| - 1], types) then Some(log[|log| - 1].frame)
    else Last(slotId, log[..|log| - 1], types)
  }

  predicate Scheduling(slotId: UInt8, log: seq<Input>)
    requires LogShaped(log)
  {
    var f := Last(slotId, log, MODES);
    f.Some? && f.value[0] == PKT_RELAY_SCHEDULE
  }

  /** The newest input that sets the relay: a manual command, a schedule, or a clock while on schedule. */
  function Decider(slotId: UInt8, log: seq<Input>): (i: Option<Input>)
    requires LogShaped(log)
    ensures i.Some? ==> InputShaped(i.value) && (i.value.Deliver? || i.value.Clock?)
  {
    if log == [] || log[|log| - 1].Restart? then None
    else
      var before, i := log[..|log| - 1], log[|log| - 1];
      if Takes(slotId, i, {PKT_RELAY_MANUAL, PKT_RELAY_SCHEDULE}) || (i.Clock? && Scheduling(slotId, before))
      then Some(i)
      else Decider(slotId, before)
  }

  /** What the meter's register holds: the threshold in force at the last pass over the meter, across restarts. */
  function Written(slotId: UInt8, meter: UInt16, log: seq<Input>): int
    requires LogShaped(log)
  {
    if log == [] then meter
    else
      var before, i := log[..|log| - 1], log[|log| - 1];
      var f := Last(slotId, before, {PKT_THRESHOLD});
      if i.Meter? && f.Some? then (f.value[2] as int) + 0x100 * (f.value[3] as int)
      else Written(slotId, meter, before)
  }

  /** Is there a threshold that no pass over the meter has seen? */
  predicate Unwritten(slotId: UInt8, log: seq<Input>)
    requires LogShaped(log)
  {
    log != [] && !log[|log| - 1].Restart? && !log[|log| - 1].Meter?
    && (Takes(slotId, log[|log| - 1], {PKT_THRESHOLD}) || Unwritten(slotId, log[..|log| - 1]))
  }

  function Nudges(slotId: UInt8, log: seq<Input>): nat
    requires LogShaped(log)
  {
    if log == [] || log[|log| - 1].Restart? then 0
    else Nudges(slotId, log[..|log| - 1]) + if Takes(slotId, log[|log| - 1], {PKT_NUDGE}) then 1 else 0
  }

  // ----- The settings -----

  predicate ModeFollows(n: Relay, last: Option<seq<UInt8>>)
    requires last.Some? ==> |last.value| == MAX_DL_PAYLOAD_LEN
  {
    if last.Some? && last.value[0] == PKT_RELAY_SCHEDULE
    then n.relayMode == 1 && n.schedState == 1 + n.relayState && n.relayState <= 1
    else n.relayMode == 0 && n.schedState == 0
  }

  predicate WindowFollows(n: Relay, last: Option<seq<UInt8>>)
    requires last.Some? ==> |last.value| == MAX_DL_PAYLOAD_LEN
  {
    [n.startH, n.startM, n.endH, n.endM] == if last.Some? then last.value[3..7] else [0, 0, 8, 0]
  }

  predicate ThresholdFollows(n: Relay, last: Option<seq<UInt8>>, unwritten: bool, written: int)
    requires last.Some? ==> |last.value| == MAX_DL_PAYLOAD_LEN
  {
    && n.alarmThreshold == (if last.Some? then (last.value[2] as int) + 0x100 * (last.value[3] as int) else 0)
    && n.hasPending == unwritten
    && (unwritten ==> last.Some? && n.pendingThreshold == n.alarmThreshold)
    && (last.Some? && !unwritten ==> n.meterThreshold == n.alarmThreshold)
    && n.meterThreshold == written
  }

  predicate OutputFollows(n: Relay, decider: Option<Input>)
    requires decider.Some? ==> InputShaped(decider.value) && (decider.value.Deliver? || decider.value.Clock?)
  {
    match decider
    case None => n.relayState == 0
    case Some(i) =>
      if i.Deliver? && i.frame[0] == PKT_RELAY_MANUAL then n.relayState == i.frame[2] % 2
      else
        ProperWindow(n) && i.sec < 86400 ==>
          (n.relayState == 1 <==> OnCircle(n.startH * 60 + n.startM, n.endH * 60 + n.endM, i.sec / 60))
  }

  /** All settings of a node with this history. */
  ghost predicate Follows(slotId: UInt8, meter: UInt16, log: seq<Input>, n: Relay)
    requires LogShaped(log)
  {
    && n.slotId == slotId
    && ModeFollows(n, Last(slotId, log, MODES))
    && WindowFollows(n, Last(slotId, log, {PKT_RELAY_SCHEDULE}))
    && ThresholdFollows(n, Last(slotId, log, {PKT_THRESHOLD}), Unwritten(slotId, log), Written(slotId, meter, log))
    && OutputFollows(n, Decider(slotId, log))
    && n.nudges == Nudges(slotId, log)
  }

  lemma TickFollows(n: Relay, sec: nat)
    requires n.relayMode == 1 && n.schedState != 0
    ensures var t := Tick(n, sec);
      && t == n.(relayState := t.relayState, schedState := 1 + t.relayState) && t.relayState <= 1
      && (ProperWindow(n) && sec < 86400 ==>
            (t.relayState == 1 <==> OnCircle(n.startH * 60 + n.startM, n.endH * 60 + n.endM, sec / 60)))
  {
    if ProperWindow(n) && sec < 86400 {
      InsideIsArc(n, sec / 60);
    }
    hide OnCircle, ProperWindow, Inside;
  }

  /** What one more delivery adds to the history. */
  lemma OneDelivery(slotId: UInt8, meter: UInt16, log: seq<Input>, i: Input)
    requires LogShaped(log) && InputShaped(i) && i.Deliver?
    ensures LogShaped(log + [i])
    ensures forall types :: Last(slotId, log + [i], types)
                            == if Takes(slotId, i, types) then Some(i.frame) else Last(slotId, log, types)
    ensures Decider(slotId, log + [i])
         == if Takes(slotId, i, {PKT_RELAY_MANUAL, PKT_RELAY_SCHEDULE}) then Some(i) else Decider(slotId, log)
    ensures Written(slotId, meter, log + [i]) == Written(slotId, meter, log)
    ensures Unwritten(slotId, log + [i]) <==> Takes(slotId, i, {PKT_THRESHOLD}) || Unwritten(slotId, log)
    ensures Nudges(slotId, log + [i]) == Nudges(slotId, log) + if Takes(slotId, i, {PKT_NUDGE}) then 1 else 0
  {
    hide Reaches;
    assert (log + [i])[..|log|] == log;
  }

  lemma Delivered(n: Relay, i: Input)
    requires InputShaped(i) && i.Deliver?
    ensures React(n, i).slotId == n.slotId
    ensures !Reaches(n.slotId, i.frame) || !KnownType(i.frame[0]) ==> React(n, i) == n
    ensures Reaches(n.slotId, i.frame) && KnownType(i.frame[0]) ==>
              React(n, i) == Apply(n, i.frame, i.sec).(dlAck := true)
  {
    hide Apply, Tick, KnownType;
    if Accepts(n, i.frame) {
      KeepsSlotId(n, i.frame, i.sec);
    }
  }

  lemma DeliverFollows(slotId: UInt8, meter: UInt16, log: seq<Input>, i: Input, n: Relay)
    requires LogShaped(log) && InputShaped(i) && i.Deliver? && Follows(slotId, meter, log, n)
    ensures Follows(slotId, meter, log + [i], React(n, i))
  {
    hide Follows, React, Reaches;
    if Takes(slotId, i, {PKT_RELAY_SCHEDULE}) {
      ScheduleFollows(slotId, meter, log, i, n);
    } else {
      CommandFollows(slotId, meter, log, i, n);
    }
  }

  lemma ScheduleFollows(slotId: UInt8, meter: UInt16, log: seq<Input>, i: Input, n: Relay)
    requires LogShaped(log) && InputShaped(i) && i.Deliver? && Follows(slotId, meter, log, n)
    requires Takes(slotId, i, {PKT_RELAY_SCHEDULE})
    ensures Follows(slotId, meter, log + [i], React(n, i))
  {
    hide Last, Decider, Written, Unwritten, Nudges, React, Tick, OnCircle, Reaches, Inside;
    OneDelivery(slotId, meter, log, i);
    Delivered(n, i);
    TickFollows(Scheduled(n, i.frame), i.sec);
    assert i.frame[3..7] == [i.frame[3], i.frame[4], i.frame[5], i.frame[6]];
  }

  lemma CommandFollows(slotId: UInt8, meter: UInt16, log: seq<Input>, i: Input, n: Relay)
    requires LogShaped(log) && InputShaped(i) && i.Deliver? && Follows(slotId, meter, log, n)
    requires !Takes(slotId, i, {PKT_RELAY_SCHEDULE})
    ensures Follows(slotId, meter, log + [i], React(n, i))
  {
    hide Last, Decider, Written, Unwritten, Nudges, React, Tick, OnCircle, Reaches, Inside;
    OneDelivery(slotId, meter, log, i);
    Delivered(n, i);
  }

  /** What an input that is no delivery adds to the history. */
  lemma OneInput(slotId: UInt8, meter: UInt16, log: seq<Input>, i: Input)
    requires LogShaped(log) && InputShaped(i) && !i.Deliver?
    ensures LogShaped(log + [i])
    ensures forall types :: Last(slotId, log + [i], types) == if i.Restart? then None else Last(slotId, log, types)
    ensures Decider(slotId, log + [i])
         == if i.Restart? then None else if i.Clock? && Scheduling(slotId, log) then Some(i) else Decider(slotId, log)
    ensures Written(slotId, meter, log + [i])
         == var f := Last(slotId, log, {PKT_THRESHOLD});
            if i.Meter? && f.Some? then (f.value[2] as int) + 0x100 * (f.value[3] as int)
            else Written(slotId, meter, log)
    ensures Unwritten(slotId, log + [i]) <==> i.Clock? && Unwritten(slotId, log)
    ensures Nudges(slotId, log + [i]) == if i.Restart? then 0 else Nudges(slotId, log)
  {
    hide Reaches;
    assert (log + [i])[..|log|] == log;
  }

  lemma OtherFollows(slotId: UInt8, meter: UInt16, log: seq<Input>, i: Input, n: Relay)
    requires LogShaped(log) && InputShaped(i) && !i.Deliver? && Follows(slotId, meter, log, n)
    ensures Follows(slotId, meter, log + [i], React(n, i))
  {
    hide Last, Decider, Written, Unwritten, Nudges, OnCircle, Inside;
    OneInput(slotId, meter, log, i);
    if i.Clock? && Scheduling(slotId, log) {
      TickFollows(n, i.sec);
    }
    hide Tick;
  }

  lemma {:induction false} ReplayFollows(slotId: UInt8, meter: UInt16, log: seq<Input>)
    requires LogShaped(log)
    ensures Follows(slotId, meter, log, Replay(Boot(slotId, meter), log))
    decreases |log|
  {
    if log != [] {
      hide Follows, React;
      var before, i := log[..|log| - 1], log[|log| - 1];
      ReplayFollows(slotId, meter, before);
      assert before + [i] == log;
      if i.Deliver? {
        DeliverFollows(slotId, meter, before, i, Replay(Boot(slotId, meter), before));
      } else {
        OtherFollows(slotId, meter, before, i, Replay(Boot(slotId, meter), before));
      }
    }
  }

  lemma AckAside(slotId: UInt8, meter: UInt16, log: seq<Input>, n: Relay, ack: bool)
    requires LogShaped(log) && Follows(slotId, meter, log, n)
    ensures Follows(slotId, meter, log, n.(dlAck := ack))
  {
    hide Last, Decider, Written, Unwritten, Nudges, OnCircle;
  }

  /**
   * After any run of the downlink pipeline every setting of the node is that of the newest command
   * of its kind that got through, as the bytes that were queued.
   */
  lemma SettingsAfterRun(slotId: UInt8, meter: UInt16, evs: seq<Event>)
    requires EventsShaped(evs)
    ensures LogShaped(Run(Start(slotId, meter), evs).nodeLog)
    ensures var s := Run(Start(slotId, meter), evs);
      && Follows(slotId, meter, s.nodeLog, s.node)
      && forall k :: 0 <= k < |s.nodeLog| && s.nodeLog[k].Deliver? ==>
           PaddedCommand(Commands(evs), s.nodeLog[k].seqNo, s.nodeLog[k].frame)
  {
    RunExplained(slotId, meter, evs);
    RunCarries(slotId, meter, evs);
    hide Follows, Run;
    var s := Run(Start(slotId, meter), evs);
    ReplayFollows(slotId, meter, s.nodeLog);
    AckAside(slotId, meter, s.nodeLog, Replay(Boot(slotId, meter), s.nodeLog), s.node.dlAck);
  }

  // ----- On the wire -----

  /** The commands as the web handlers build them (src/gateway_web.cpp), with the numbers of src/tdma_protocol.h. */
  lemma CommandsOnTheWire(n: Relay, state: UInt8, window: seq<UInt8>, watts: UInt16, onState: UInt8, sec: nat)
    requires |window| == 4
    ensures var t := HandleAny(n, [0x02, n.slotId, state], sec);
      t == n.(relayMode := 0, schedState := 0, relayState := state % 2, dlAck := true)
    ensures var t := HandleAny(n, [0x03, n.slotId, onState] + window, sec);
      && t.relayMode == 1 && [t.startH, t.startM, t.endH, t.endM] == window && t.dlAck
      && t == HandleAny(n, [0x03, n.slotId, 1] + window, sec)
    ensures HandleAny(n, [0x05, n.slotId], sec) == n.(relayMode := 0, schedState := 0, dlAck := true)
    ensures HandleAny(n, [0x06, n.slotId, watts % 0x100, watts / 0x100], sec)
         == n.(alarmThreshold := watts, pendingThreshold := watts, hasPending := true, dlAck := true)
    ensures HandleAny(n, [0x07, n.slotId], sec) == n.(nudges := n.nudges + 1, dlAck := true)
  {
    hide Inside;
  }
}
