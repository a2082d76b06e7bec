/**
 * Relay, schedule and alarm-threshold state of a node, and the downlink commands that set
 * it (src/node_tdma_task.cpp).
 */
module RelayNode {
  import opened Protocol
  import opened Words

  /**
   * `alarmThreshold`, `pendingThreshold` and `hasPending` are the g_pzem fields,
   * `meterThreshold` the power meter's own register, `nudges` the notifications given to
   * the LED task.
   */
  datatype Relay = Relay(slotId: UInt8,
                         relayState: UInt8, relayMode: UInt8, schedState: UInt8,
                         startH: UInt8, startM: UInt8, endH: UInt8, endM: UInt8,
                         alarmThreshold: UInt16, pendingThreshold: UInt16, hasPending: bool, meterThreshold: UInt16,
                         nudges: nat, dlAck: bool)

  /** State after power-up; the meter keeps its threshold register. */
  function Boot(slotId: UInt8, meterThreshold: UInt16): Relay {
    Relay(slotId, 0, 0, 0, 0, 0, 8, 0, 0, 0, false, meterThreshold, 0, false)
  }

  /** Is minute `now` of the day inside the schedule window, which may wrap midnight? */
  predicate Inside(n: Relay, nowMins: nat) {
    var startMins := n.startH * 60 + n.startM;
    var endMins := n.endH * 60 + n.endM;
    if startMins <= endMins then startMins <= nowMins < endMins
    else nowMins >= startMins || nowMins < endMins
  }

  /** A schedule made of times of day. */
  predicate ProperWindow(n: Relay) {
    n.startH < 24 && n.startM < 60 && n.endH < 24 && n.endM < 60
  }

  /** On the circle of the day: `now` comes no later after the start than the end does. */
  predicate OnCircle(start: nat, end: nat, now: nat) {
    (now - start) % 1440 < (end - start) % 1440
  }

  /** The window is the arc from start to end, over midnight if need be; it is empty if they are equal. */
  lemma InsideIsArc(n: Relay, now: nat)
    requires ProperWindow(n) && now < 1440
    ensures Inside(n, now) <==> OnCircle(n.startH * 60 + n.startM, n.endH * 60 + n.endM, now)
  {
  }

  /** Of times past the end of the day, a late end means until midnight and a late start from midnight on. */
  lemma InsideBeyondDay(n: Relay, now: nat)
    requires now < 1440
    ensures var start, end := n.startH * 60 + n.startM, n.endH * 60 + n.endM;
      && (start < 1440 <= end ==> (Inside(n, now) <==> start <= now))
      && (end < 1440 <= start ==> (Inside(n, now) <==> now < end))
      && (start >= 1440 && end >= 1440 ==> (Inside(n, now) <==> end < start))
  {
  }

  /** evaluateSchedule() at `sec` seconds since midnight. */
  function Tick(n: Relay, sec: nat): Relay {
    if n.relayMode != 1 || n.schedState == 0 then n
    else if Inside(n, sec / 60) then n.(schedState := 2, relayState := 1)
    else n.(schedState := 1, relayState := 0)
  }

  predicate Addressed(n: Relay, frame: seq<UInt8>)
    requires |frame| == MAX_DL_PAYLOAD_LEN
  {
    frame[1] == n.slotId || frame[1] == BROADCAST_ADDR
  }

  function Watts(frame: seq<UInt8>): UInt16
    requires |frame| == MAX_DL_PAYLOAD_LEN
  {
    (frame[2] as int) + 0x100 * (frame[3] as int)
  }

  predicate KnownType(t: UInt8) {
    t == PKT_RELAY_MANUAL || t == PKT_RELAY_SCHEDULE || t == PKT_RELAY_CLEAR || t == PKT_THRESHOLD || t == PKT_NUDGE
  }

  /** The effect of a command frame on the state, ack bit aside. */
  function Apply(n: Relay, frame: seq<UInt8>, sec: nat): Relay
    requires |frame| == MAX_DL_PAYLOAD_LEN
  {
    if frame[0] == PKT_RELAY_MANUAL then n.(relayMode := 0, schedState := 0, relayState := frame[2] % 2)
    else if frame[0] == PKT_RELAY_SCHEDULE then
      Tick(n.(relayMode := 1, schedState := 1,
              startH := frame[3], startM := frame[4], endH := frame[5], endM := frame[6]), sec)
    else if frame[0] == PKT_RELAY_CLEAR then n.(relayMode := 0, schedState := 0)
    else if frame[0] == PKT_THRESHOLD then
      n.(alarmThreshold := Watts(frame), pendingThreshold := Watts(frame), hasPending := true)
    else if frame[0] == PKT_NUDGE then n.(nudges := n.nudges + 1)
    else n
  }

  predicate Accepts(n: Relay, frame: seq<UInt8>)
    requires |frame| == MAX_DL_PAYLOAD_LEN
  {
    Addressed(n, frame) && KnownType(frame[0])
  }

  /** The effect of a full-size frame: one for another node or of unknown type changes nothing and is not acked. */
  function Handle(n: Relay, frame: seq<UInt8>, sec: nat): Relay
    requires |frame| == MAX_DL_PAYLOAD_LEN
  {
    if Accepts(n, frame) then Apply(n, frame, sec).(dlAck := true) else n
  }

  /** Bytes that a command of type `t` needs. */
  function NeededLen(t: UInt8): nat {
    if t == PKT_RELAY_MANUAL then 3
    else if t == PKT_RELAY_SCHEDULE then 7
    else if t == PKT_THRESHOLD then 4
    else 2
  }

  /** `frame` cut or zero-padded to the size of a downlink frame. */
  function FullSize(frame: seq<UInt8>): (f: seq<UInt8>)
    ensures |f| == MAX_DL_PAYLOAD_LEN
    ensures forall i :: 0 <= i < |frame| && i < MAX_DL_PAYLOAD_LEN ==> f[i] == frame[i]
  {
    if |frame| >= MAX_DL_PAYLOAD_LEN then frame[..MAX_DL_PAYLOAD_LEN]
    else frame + Zeros(MAX_DL_PAYLOAD_LEN - |frame|)
  }

  /** handleDownlink() on any frame: one that is too short for its type is acked without effect. */
  function HandleAny(n: Relay, frame: seq<UInt8>, sec: nat): Relay {
    if |frame| < 2 || !Accepts(n, FullSize(frame)) then n
    else if |frame| < NeededLen(frame[0]) then n.(dlAck := true)
    else Handle(n, FullSize(frame), sec)
  }

  /** Shorter ones: only a frame for this node with a known type counts, and only the ack if it is too short. */
  lemma ShortFrames(n: Relay, frame: seq<UInt8>, sec: nat)
    requires 0 < |frame| < MAX_DL_PAYLOAD_LEN
    ensures |frame| < 2 || frame[1] !in {n.slotId, 0xFF} || frame[0] !in {0x02, 0x03, 0x05, 0x06, 0x07} ==>
              HandleAny(n, frame, sec) == n
    ensures |frame| >= 2 && frame[1] in {n.slotId, 0xFF} ==>
      && (frame[0] == 0x03 ==> HandleAny(n, frame, sec) == n.(dlAck := true))
      && (frame[0] == 0x02 && |frame| < 3 ==> HandleAny(n, frame, sec) == n.(dlAck := true))
      && (frame[0] == 0x06 && |frame| < 4 ==> HandleAny(n, frame, sec) == n.(dlAck := true))
  {
    hide Apply;
  }

  /** Frames on air are full-size, so there every acked command has been applied. */
  lemma FullFramesApplied(n: Relay, frame: seq<UInt8>, sec: nat)
    requires |frame| == MAX_DL_PAYLOAD_LEN
    ensures HandleAny(n, frame, sec) == Handle(n, frame, sec)
    ensures Accepts(n, frame) ==> HandleAny(n, frame, sec) == Apply(n, frame, sec).(dlAck := true)
  {
    assert FullSize(frame) == frame;
  }

  /** One pass of pzemTask over a pending threshold write. */
  function MeterPass(n: Relay): Relay {
    if n.hasPending then n.(meterThreshold := n.pendingThreshold, hasPending := false) else n
  }

  /** The same state as the node's globals. */
  class Controller {
    const slotId: UInt8
    var relayState: UInt8
    var relayMode: UInt8
    var schedState: UInt8
    var startH: UInt8
    var startM: UInt8
    var endH: UInt8
    var endM: UInt8
    var alarmThreshold: UInt16
    var pendingThreshold: UInt16
    var hasPending: bool
    var meterThreshold: UInt16
    var nudges: nat
    var dlAck: bool
    var seqCounter: UInt8

    ghost function Abstract(): Relay
      reads this
    {
      Relay(slotId, relayState, relayMode, schedState, startH, startM, endH, endM,
            alarmThreshold, pendingThreshold, hasPending, meterThreshold, nudges, dlAck)
    }

    constructor (slot: UInt8, meter: UInt16)
      ensures Abstract() == Boot(slot, meter) && seqCounter == 0
    {
      slotId := slot;
      relayState, relayMode, schedState := 0, 0, 0;
      startH, startM, endH, endM := 0, 0, 8, 0;
      alarmThreshold, pendingThreshold, hasPending, meterThreshold := 0, 0, false, meter;
      nudges, dlAck := 0, false;
      seqCounter := 0;
    }

    method SetRelay(state: UInt8)
      modifies this`relayState
      ensures relayState == state % 2
    {
      relayState := state % 2;
    }

    method EvaluateSchedule(sec: nat)
      modifies this
      ensures Abstract() == Tick(old(Abstract()), sec) && seqCounter == old(seqCounter)
      ensures old(relayMode == 1 && schedState != 0) && ProperWindow(Abstract()) && sec < 86400 ==>
                var on := OnCircle(startH * 60 + startM, endH * 60 + endM, sec / 60);
                relayState == (if on then 1 else 0) && schedState == if on then 2 else 1
    {
      if ProperWindow(Abstract()) && sec < 86400 {
        InsideIsArc(Abstract(), sec / 60);
      }
      hide OnCircle;
      if relayMode != 1 || schedState == 0 {
        return;
      }
      var nowMins := sec / 60;
      var startMins := startH * 60 + startM;
      var endMins := endH * 60 + endM;
      var inside: bool;
      if startMins <= endMins {
        inside := nowMins >= startMins && nowMins < endMins;
      } else {
        inside := nowMins >= startMins || nowMins < endMins;
      }
      var newSchedState: UInt8 := if inside then 2 else 1;
      if newSchedState != schedState {
        schedState := newSchedState;
      }
      SetRelay(if inside then 1 else 0);
    }

    method SetSchedule(sH: UInt8, sM: UInt8, eH: UInt8, eM: UInt8, sec: nat)
      modifies this
      ensures Abstract() == Tick(old(Abstract()).(relayMode := 1, schedState := 1,
                                                  startH := sH, startM := sM, endH := eH, endM := eM), sec)
      ensures seqCounter == old(seqCounter)
    {
      hide Tick;
      relayMode := 1;
      startH, startM, endH, endM := sH, sM, eH, eM;
      schedState := 1; // WAITING until evaluated
      EvaluateSchedule(sec);
    }

    method HandleDownlink(frame: seq<UInt8>, sec: nat)
      modifies this
      ensures Abstract() == HandleAny(old(Abstract()), frame, sec) && seqCounter == old(seqCounter)
    {
      hide Tick, Inside, FullSize;
      var len := |frame|;
      if len < 2 {
        return;
      }
      ghost var full := FullSize(frame);
      assert full[0] == frame[0] && full[1] == frame[1];
      if frame[1] != slotId && frame[1] != BROADCAST_ADDR {
        return;
      }
      if frame[0] == PKT_RELAY_MANUAL {
        if len >= 3 {
          relayMode := 0;
          schedState := 0;
          SetRelay(frame[2]);
        }
      } else if frame[0] == PKT_RELAY_SCHEDULE {
        if len >= 7 {
          SetSchedule(frame[3], frame[4], frame[5], frame[6], sec);
        }
      } else if frame[0] == PKT_RELAY_CLEAR {
        relayMode := 0;
        schedState := 0;
      } else if frame[0] == PKT_THRESHOLD {
        if len >= 4 {
          var watts := (frame[2] as int) + 0x100 * (frame[3] as int);
          alarmThreshold := watts;
          pendingThreshold := watts;
          hasPending := true;
        }
      } else if frame[0] == PKT_NUDGE {
        nudges := nudges + 1;
      } else {
        return;
      }
      dlAck := true;
    }

    /**
     * The command-related fields of the telemetry packet. The sequence byte carries the
     * one-shot ack in bit 7 and the rolling 7-bit counter below it.
     */
    method TakeReport()
      returns (seqByte: UInt8, relay: UInt8, mode: UInt8, sched: UInt8, window: (UInt8, UInt8, UInt8, UInt8))
      modifies this`dlAck, this`seqCounter
      ensures seqCounter == Inc8(old(seqCounter))
      ensures seqByte / 0x80 == (if old(dlAck) then 1 else 0) && seqByte % 0x80 == seqCounter % 0x80
      ensures relay == relayState && mode == relayMode && sched == schedState
      ensures window == (startH, startM, endH, endM)
      ensures Abstract() == old(Abstract()).(dlAck := false)
    {
      relay, mode, sched, window := relayState, relayMode, schedState, (startH, startM, endH, endM);
      seqCounter := Inc8(seqCounter);
      seqByte := (if dlAck then 0x80 else 0) + seqCounter % 0x80;
      dlAck := false;
    }
  }
}
