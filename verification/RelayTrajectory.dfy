/**
 * The relay in schedule mode over any stretch of time: the node evaluates its schedule at every
 * beacon and in a separate task every ten seconds, on its own clock. Nothing else moves the
 * relay while no command arrives.
 */
module RelayTrajectory {
  import opened Words
  import opened RelayNode
  import opened ScheduleClock

  /** An evaluation at node millis() `now`, at a beacon with the time `h:m:s` or by the schedule task. */
  datatype Moment =
    | Beacon(now: UInt32, h: UInt8, m: UInt8, s: UInt8)
    | ScheduleTick(now: UInt32)

  datatype Node = Node(relay: Relay, rtc: Clock)

  /** A beacon synchronises the RTC first; then, as on a tick, the schedule is evaluated. */
  function OnMoment(n: Node, b: Moment): Node {
    var rtc := if b.Beacon? then Sync(n.rtc, b.h, b.m, b.s, b.now) else n.rtc;
    Node(Tick(n.relay, Seconds(rtc, b.now)), rtc)
  }

  function Run(n: Node, moments: seq<Moment>): Node {
    if moments == [] then n else OnMoment(Run(n, moments[..|moments| - 1]), moments[|moments| - 1])
  }

  /** The relay outputs after each evaluation. */
  function Outputs(n: Node, moments: seq<Moment>): (r: seq<UInt8>)
    ensures |r| == |moments|
  {
    seq(|moments|, k requires 0 <= k < |moments| => Run(n, moments[..k + 1]).relay.relayState)
  }

  ghost predicate Valid(b: Moment) {
    b.Beacon? ==> OfHms(b.h, b.m, b.s) < 86400
  }

  ghost predicate Close(rtc: Clock, b: Moment) {
    b.Beacon? ==> Apart(Seconds(rtc, b.now), OfHms(b.h, b.m, b.s)) <= 2
  }

  /** The schedule alone decides: relay output at time of day `sec`. */
  function Scheduled(n: Relay, sec: nat): UInt8 {
    if Inside(n, sec / 60) then 1 else 0
  }

  /** For a schedule made of times of day that is the arc from its start to its end. */
  lemma ScheduledOnCircle(n: Relay, sec: nat)
    requires ProperWindow(n) && sec < 86400
    ensures Scheduled(n, sec) == if OnCircle(Start(n), End(n), sec / 60) then 1 else 0
  {
    InsideIsArc(n, sec / 60);
  }

  ghost predicate OnSchedule(n: Relay) {
    n.relayMode == 1 && n.schedState != 0
  }

  ghost predicate SameSchedule(a: Relay, b: Relay) {
    a.startH == b.startH && a.startM == b.startM && a.endH == b.endH && a.endM == b.endM
  }

  lemma MomentTouches(n: Node, b: Moment)
    requires n.rtc.running && Valid(b)
    ensures OnMoment(n, b).rtc == n.rtc <==> Close(n.rtc, b)
  {
    hide Sync, Seconds, Apart, OfHms, Tick;
    if b.Beacon? {
      TouchedExactlyBeyondTwo(n.rtc, b.h, b.m, b.s, b.now);
    }
  }

  /**
   * At a beacon the schedule is evaluated on the clock as just corrected: whatever the RTC showed,
   * the relay is where the schedule has it within two seconds of the gateway's time.
   */
  lemma AtBeacon(n: Node, b: Moment)
    requires OnSchedule(n.relay) && b.Beacon?
    ensures exists sec: nat :: sec < 86400 && Apart(sec, OfHms(b.h, b.m, b.s)) <= 2
                            && OnMoment(n, b).relay.relayState == Scheduled(n.relay, sec)
  {
    hide Sync, Seconds, Apart, OfHms, Inside;
    WithinTwoSeconds(n.rtc, b.h, b.m, b.s, b.now);
    var sec := Seconds(Sync(n.rtc, b.h, b.m, b.s, b.now), b.now);
    assert OnMoment(n, b).relay.relayState == Scheduled(n.relay, sec);
  }

  lemma RunLast(n: Node, moments: seq<Moment>)
    requires moments != []
    ensures var last := |moments| - 1; Run(n, moments) == OnMoment(Run(n, moments[..last]), moments[last])
  {
  }

  /** The RTC is never touched exactly when every beacon is within two seconds of the free-running clock. */
  lemma {:induction false} UntouchedExactlyIfClose(n: Node, moments: seq<Moment>)
    requires n.rtc.running && forall b :: b in moments ==> Valid(b)
    ensures (forall k :: 0 <= k <= |moments| ==> Run(n, moments[..k]).rtc == n.rtc)
            <==> (forall b :: b in moments ==> Close(n.rtc, b))
  {
    if moments == [] {
      assert moments[..0] == [];
    } else {
      hide OnMoment, Run, Valid, Close;
      var last := |moments| - 1;
      var before, b := moments[..last], moments[last];
      UntouchedExactlyIfClose(n, before);
      RunLast(n, moments);
      assert forall k :: 0 <= k <= last ==> moments[..k] == before[..k];
      assert moments[..|moments|] == moments && before[..last] == before;
      assert forall c :: c in moments <==> c in before || c == b;
      assert b in moments;
      if Run(n, before).rtc == n.rtc {
        MomentTouches(Run(n, before), b);
        CloseByClock(n, Run(n, before), b);
      }
    }
  }

  lemma CloseByClock(n: Node, m: Node, b: Moment)
    requires n.rtc == m.rtc
    ensures Close(n.rtc, b) == Close(m.rtc, b)
  {
  }

  lemma {:induction false} StaysOnSchedule(n: Node, moments: seq<Moment>)
    requires OnSchedule(n.relay)
    ensures var r := Run(n, moments).relay; OnSchedule(r) && SameSchedule(r, n.relay)
  {
    hide Sync, Seconds, Inside;
    if moments != [] {
      StaysOnSchedule(n, moments[..|moments| - 1]);
    }
  }

  /** While the beacons stay close, the relay does what the free-running clock and the schedule say. */
  lemma FreeRunning(n: Node, moments: seq<Moment>, k: nat)
    requires n.rtc.running && OnSchedule(n.relay) && k < |moments|
    requires forall b :: b in moments ==> Valid(b) && Close(n.rtc, b)
    ensures Outputs(n, moments)[k] == Scheduled(n.relay, Seconds(n.rtc, moments[k].now))
    ensures ProperWindow(n.relay) ==>
              (Outputs(n, moments)[k] == 1 <==>
               OnCircle(Start(n.relay), End(n.relay), Seconds(n.rtc, moments[k].now) / 60))
  {
    if ProperWindow(n.relay) {
      ScheduledOnCircle(n.relay, Seconds(n.rtc, moments[k].now));
    }
    hide OnCircle, Scheduled;
    UntouchedExactlyIfClose(n, moments);
    var before := moments[..k];
    assert moments[..k + 1][..k] == before && moments[..k + 1][k] == moments[k];
    assert Run(n, before).rtc == n.rtc && Run(n, moments[..k + 1]).rtc == n.rtc;
    StaysOnSchedule(n, before);
    hide Sync, Seconds, Run;
    assert Run(n, moments[..k + 1]) == OnMoment(Run(n, before), moments[k]);
  }

  function Changes(s: seq<UInt8>): nat {
    if |s| < 2 then 0
    else Changes(s[..|s| - 1]) + if s[|s| - 1] != s[|s| - 2] then 1 else 0
  }

  // ----- Boundaries passed -----

  /** How many times minute-of-day `x` has come round by minute `m` of an unbounded count. */
  function Passed(m: nat, x: nat): int
    requires x <= 1440
  {
    (m - x + 1440) / 1440
  }

  function Clamp(x: nat): (r: nat)
    ensures r <= 1440
  {
    if x <= 1440 then x else 1440
  }

  function Start(n: Relay): nat { n.startH * 60 + n.startM }

  function End(n: Relay): nat { n.endH * 60 + n.endM }

  lemma PassedAt(m: nat, x: nat)
    requires x <= 1440
    ensures Passed(m, x) == m / 1440 + if m % 1440 >= x then 1 else 0
  {
  }

  lemma PassedGrows(m: nat, m': nat, x: nat, days: nat)
    requires x <= 1440 && m <= m' <= m + 1440 * days
    ensures Passed(m, x) <= Passed(m', x) <= Passed(m, x) + days
  {
    assert (m + 1440 * days - x + 1440) / 1440 == (m - x + 1440) / 1440 + days;
  }

  /** The window switches only when its start or its end is passed. */
  lemma SwitchNeedsBoundary(n: Relay, m: nat, m': nat)
    requires m <= m'
    ensures Inside(n, m % 1440) != Inside(n, m' % 1440) ==>
              Passed(m, Clamp(Start(n))) < Passed(m', Clamp(Start(n)))
              || Passed(m, Clamp(End(n))) < Passed(m', Clamp(End(n)))
  {
    var s, e := Clamp(Start(n)), Clamp(End(n));
    PassedAt(m, s);
    PassedAt(m', s);
    PassedAt(m, e);
    PassedAt(m', e);
    assert m / 1440 <= m' / 1440;
  }

  /** The relay outputs at a series of minutes. */
  function Window(n: Relay, ms: seq<nat>): (r: seq<UInt8>)
    ensures |r| == |ms|
  {
    seq(|ms|, k requires 0 <= k < |ms| => if Inside(n, ms[k] % 1440) then 1 else 0)
  }

  function Boundaries(n: Relay, m: nat): int {
    Passed(m, Clamp(Start(n))) + Passed(m, Clamp(End(n)))
  }

  lemma {:induction false} ChangesAreBoundaries(n: Relay, ms: seq<nat>)
    requires ms != [] && forall k :: 0 < k < |ms| ==> ms[k - 1] <= ms[k]
    ensures Changes(Window(n, ms)) <= Boundaries(n, ms[|ms| - 1]) - Boundaries(n, ms[0])
  {
    hide Passed, Clamp, Inside;
    if |ms| > 1 {
      var last := |ms| - 1;
      ChangesAreBoundaries(n, ms[..last]);
      assert Window(n, ms)[..last] == Window(n, ms[..last]);
      assert ms[last - 1] <= ms[last];
      SwitchNeedsBoundary(n, ms[last - 1], ms[last]);
      PassedGrows(ms[last - 1], ms[last], Clamp(Start(n)), ms[last]);
      PassedGrows(ms[last - 1], ms[last], Clamp(End(n)), ms[last]);
    }
  }

  // ----- In real time -----

  const TURN: nat := 0x1_0000_0000

  /**
   * Seconds on the free-running clock, `ms` after it was set and not folded into the day. A turn
   * of millis() takes 4294967.296 seconds and leaves the clock where it was set: the reading of a
   * clock that has come to the end of its fiftieth day.
   */
  function SecondCount(base: nat, ms: nat): nat {
    base + ms % TURN / 1000 + 50 * 86400 * (ms / TURN)
  }

  function MinuteCount(base: nat, ms: nat): nat {
    SecondCount(base, ms) / 60
  }

  /** Whole days that hold what `turns` turns of millis() make the clock skip, at most 25033 seconds each. */
  function DaysSkipped(turns: nat): nat {
    (25033 * turns + 86399) / 86400
  }

  lemma MinutesAndDays(x: nat)
    ensures x % 86400 / 60 == x / 60 % 1440
  {
    var day, rest := x / 86400, x % 86400;
    assert x / 60 == 1440 * day + rest / 60;
  }

  lemma MinuteOfDay(base: nat, at: nat, ms: nat)
    ensures Seconds(Clock(true, base, Millis(at)), Millis(at + ms)) / 60 == MinuteCount(base, ms) % 1440
  {
    hide Seconds, Millis, SecondCount, TimeOfDay;
    ReadingAfterTurns(base, at, at + ms);
    assert ms - Turns(at, at + ms) * TURN == ms % TURN;
    SecondOfDay(base, ms);
    MinutesAndDays(SecondCount(base, ms));
  }

  lemma SecondOfDay(base: nat, ms: nat)
    ensures SecondCount(base, ms) % 86400 == TimeOfDay(base, ms % TURN)
  {
    Cycle(SecondCount(base, ms), 50 * (ms / TURN));
  }

  lemma SecondSpan(base: nat, t: nat, t': nat, days: nat)
    requires t <= t' <= t + 86400000 * days
    ensures var turns := t' / TURN - t / TURN;
      && turns >= 0
      && SecondCount(base, t) <= SecondCount(base, t') <= SecondCount(base, t) + 86400 * days + 25033 * turns
  {
    var turns := t' / TURN - t / TURN;
    var a, a' := t % TURN, t' % TURN;
    assert a' + TURN * turns == t' - t + a;
    if turns == 0 {
      Thousands(a, a', days, 0);
    } else {
      Thousands(a, a', days, turns);
    }
  }

  /** The same, from the milliseconds since the last turn. */
  lemma Thousands(a: nat, a': nat, days: nat, turns: nat)
    requires a < TURN && a <= a' + TURN * turns <= a + 86400000 * days
    ensures a / 1000 <= a' / 1000 + 4320000 * turns <= a / 1000 + 86400 * days + 25033 * turns
  {
  }

  lemma MinuteSpan(base: nat, t: nat, t': nat, days: nat)
    requires t <= t' <= t + 86400000 * days
    ensures t / TURN <= t' / TURN
    ensures MinuteCount(base, t) <= MinuteCount(base, t')
         <= MinuteCount(base, t) + 1440 * (days + DaysSkipped(t' / TURN - t / TURN))
  {
    SecondSpan(base, t, t', days);
    var x, all := SecondCount(base, t), days + DaysSkipped(t' / TURN - t / TURN);
    hide SecondCount;
    assert SecondCount(base, t') <= x + 86400 * all;
    assert (x + 86400 * all) / 60 == x / 60 + 1440 * all;
  }

  /** Evaluation k takes place `times[k]` ms after the RTC was set. */
  ghost predicate EvaluatedAt(moments: seq<Moment>, at: nat, times: seq<nat>) {
    && |times| == |moments|
    && (forall k :: 0 <= k < |times| ==> moments[k].now == Millis(at + times[k]))
    && (forall k :: 0 < k < |times| ==> times[k - 1] <= times[k])
  }

  function MinuteCounts(base: nat, times: seq<nat>): (r: seq<nat>)
    ensures |r| == |times|
  {
    seq(|times|, k requires 0 <= k < |times| => MinuteCount(base, times[k]))
  }

  lemma OutputsAreWindow(n: Node, moments: seq<Moment>, base: nat, at: nat, times: seq<nat>)
    requires n.rtc == Clock(true, base, Millis(at)) && OnSchedule(n.relay)
    requires EvaluatedAt(moments, at, times)
    requires forall b :: b in moments ==> Valid(b) && Close(n.rtc, b)
    ensures Outputs(n, moments) == Window(n.relay, MinuteCounts(base, times))
  {
    hide Seconds, Inside, MinuteCount, Millis, Outputs, Close;
    forall k | 0 <= k < |times|
      ensures Outputs(n, moments)[k] == Window(n.relay, MinuteCounts(base, times))[k]
    {
      FreeRunning(n, moments, k);
      MinuteOfDay(base, at, times[k]);
    }
  }

  /** Turns of millis() during the evaluations, counted from the setting of the RTC. */
  function TurnsWithin(times: seq<nat>): int {
    if times == [] then 0 else times[|times| - 1] / TURN - times[0] / TURN
  }

  /**
   * In schedule mode, with close beacons or none at all, the relay switches at most twice in any
   * 24 hours, and twice more for each day that turns of millis() make the clock skip.
   */
  lemma TwiceADay(n: Node, moments: seq<Moment>, base: nat, at: nat, times: seq<nat>, days: nat)
    requires n.rtc == Clock(true, base, Millis(at)) && OnSchedule(n.relay)
    requires EvaluatedAt(moments, at, times) && moments != []
    requires forall b :: b in moments ==> Valid(b) && Close(n.rtc, b)
    requires times[|times| - 1] <= times[0] + 86400000 * days
    ensures TurnsWithin(times) >= 0
    ensures Changes(Outputs(n, moments)) <= 2 * (days + DaysSkipped(TurnsWithin(times)))
  {
    hide Outputs, Window, MinuteCount, Passed, Clamp, Changes, OnSchedule, Valid, Close, DaysSkipped;
    var ms, last := MinuteCounts(base, times), |times| - 1;
    OutputsAreWindow(n, moments, base, at, times);
    Minutes(moments, base, at, times, days);
    ChangesAreBoundaries(n.relay, ms);
    var all := days + DaysSkipped(TurnsWithin(times));
    PassedGrows(ms[0], ms[last], Clamp(Start(n.relay)), all);
    PassedGrows(ms[0], ms[last], Clamp(End(n.relay)), all);
  }

  lemma Minutes(moments: seq<Moment>, base: nat, at: nat, times: seq<nat>, days: nat)
    requires EvaluatedAt(moments, at, times) && times != []
    requires times[|times| - 1] <= times[0] + 86400000 * days
    ensures TurnsWithin(times) >= 0
    ensures var ms := MinuteCounts(base, times);
      && (forall k :: 0 < k < |ms| ==> ms[k - 1] <= ms[k])
      && ms[0] <= ms[|ms| - 1] <= ms[0] + 1440 * (days + DaysSkipped(TurnsWithin(times)))
  {
    hide MinuteCount, DaysSkipped;
    var ms, last := MinuteCounts(base, times), |times| - 1;
    forall k | 0 < k < |ms| ensures ms[k - 1] <= ms[k] {
      MinuteSpan(base, times[k - 1], times[k], times[k]);
    }
    Ascending(times, last);
    MinuteSpan(base, times[0], times[last], days);
  }

  // ----- Four switches in a day -----

  const DAY_49 := 49 * 86400000

  /** A node with the window 16:00 to 17:00 whose clock was set to midnight at power-up. */
  const AFTERNOON := Node(Relay(1, 0, 1, 1, 16, 0, 17, 0, 0, 0, false, 0, 0, false), Clock(true, 0, 0))

  /** 15:59, 16:30 and 17:01 of its fiftieth day, and 16:30 and 17:01 hours after the turn that follows. */
  const AROUND_A_TURN: seq<nat> :=
    [DAY_49 + 57540000, DAY_49 + 59400000, DAY_49 + 61260000, TURN + 59400000, TURN + 61260000]

  function Ticks(times: seq<nat>): (moments: seq<Moment>)
    ensures |moments| == |times|
  {
    seq(|times|, k requires 0 <= k < |times| => ScheduleTick(Millis(times[k])))
  }

  /** The bound of TwiceADay is met: these five evaluations lie within 24 hours and switch the relay four times. */
  lemma FourInADay()
    ensures var n, times := AFTERNOON, AROUND_A_TURN;
      && OnSchedule(n.relay) && n.rtc == Clock(true, 0, Millis(0)) && EvaluatedAt(Ticks(times), 0, times)
      && times[4] <= times[0] + 86400000
      && Outputs(n, Ticks(times)) == [0, 1, 0, 1, 0]
      && Changes(Outputs(n, Ticks(times))) == 4 == 2 * (1 + DaysSkipped(TurnsWithin(times)))
  {
    hide Outputs, Changes, Run, Seconds, Scheduled, Valid, Close;
    var n, moments := AFTERNOON, Ticks(AROUND_A_TURN);
    forall k | 0 <= k < 5 ensures Outputs(n, moments)[k] == [0, 1, 0, 1, 0][k] {
      OnlyTicks(n, AROUND_A_TURN);
      FreeRunning(n, moments, k);
      ReadAt(k);
    }
    assert Outputs(n, moments) == [0, 1, 0, 1, 0];
    FourChanges();
  }

  lemma OnlyTicks(n: Node, times: seq<nat>)
    ensures forall b :: b in Ticks(times) ==> Valid(b) && Close(n.rtc, b)
  {
  }

  lemma ReadAt(k: nat)
    requires k < 5
    ensures Scheduled(AFTERNOON.relay, Seconds(AFTERNOON.rtc, Millis(AROUND_A_TURN[k]))) == [0, 1, 0, 1, 0][k]
  {
  }

  lemma FourChanges()
    ensures Changes([0, 1, 0, 1, 0]) == 4
  {
    var s := [0, 1, 0, 1, 0];
    assert s[..4] == [0, 1, 0, 1] && s[..4][..3] == [0, 1, 0] && s[..4][..3][..2] == [0, 1] && [0, 1][..1] == [0];
    assert Changes([0, 1]) == 1;
    assert Changes([0, 1, 0]) == 2;
    assert Changes([0, 1, 0, 1]) == 3;
  }

  lemma {:induction false} Ascending(times: seq<nat>, k: nat)
    requires k < |times| && forall i :: 0 < i < |times| ==> times[i - 1] <= times[i]
    ensures times[0] <= times[k]
  {
    if k > 0 {
      Ascending(times, k - 1);
    }
  }
}
