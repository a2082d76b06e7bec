/**
 * The two wall clocks: the gateway's (src/gateway_state.h), sent in every beacon, and the
 * node's schedule RTC (src/node_tdma_task.cpp), which follows it only when it is off by
 * more than two seconds.
 */
module ScheduleClock {
  import opened Words

  const THRESHOLD_MS := 2000
  const HALF_DAY_MS := 43200000
  const DAY_MS := 86400000

  /** Either clock: `baseSec` seconds since midnight when millis() read `baseMs`. */
  datatype Clock = Clock(running: bool, baseSec: nat, baseMs: UInt32)

  /** Time of day `ms` milliseconds after second `base`. */
  function TimeOfDay(base: nat, ms: nat): (s: nat)
    ensures s < 86400
  {
    (base + ms / 1000) % 86400
  }

  /** rtcGetSec(), getGwTimeSec(). */
  function Seconds(c: Clock, now: UInt32): (s: nat)
    ensures s < 86400
  {
    if !c.running then 0 else TimeOfDay(c.baseSec, Sub32(now, c.baseMs))
  }

  function OfHms(h: UInt8, m: UInt8, s: UInt8): nat {
    h * 3600 + m * 60 + s
  }

  function Set(h: UInt8, m: UInt8, s: UInt8, now: UInt32): Clock {
    Clock(true, OfHms(h, m, s), now)
  }

  /** Distance on the circle of the day. */
  function Apart(a: int, b: int): (d: nat)
    ensures d <= 43200
  {
    var d := (a - b) % 86400;
    if d <= 43200 then d else 86400 - d
  }

  /** The signed difference in milliseconds, folded once around midnight. */
  function Delta(local: nat, beacon: nat): int {
    var raw := (local - beacon) * 1000;
    var folded := if raw > HALF_DAY_MS then raw - DAY_MS else raw;
    if folded < -HALF_DAY_MS then folded + DAY_MS else folded
  }

  predicate Corrects(c: Clock, beacon: nat, now: UInt32) {
    !c.running || var d := Delta(Seconds(c, now), beacon); d > THRESHOLD_MS || -d > THRESHOLD_MS
  }

  /** rtcConditionalSync(). */
  function Sync(c: Clock, h: UInt8, m: UInt8, s: UInt8, now: UInt32): Clock {
    if Corrects(c, OfHms(h, m, s), now) then Set(h, m, s, now) else c
  }

  /** The folded difference is the distance on the circle, for times of day. */
  lemma DeltaIsDistance(local: nat, beacon: nat)
    requires local < 86400 && beacon < 86400
    ensures var d := Delta(local, beacon); d == 1000 * Apart(local, beacon) || d == -1000 * Apart(local, beacon)
  {
  }

  lemma DeltaBounds(local: nat, beacon: nat)
    requires local < 86400 && -THRESHOLD_MS <= Delta(local, beacon) <= THRESHOLD_MS
    ensures Apart(local, beacon) <= 2
  {
    var x := local - beacon;
    assert -2 <= x <= 2 || -2 <= x - 86400 <= 2 || -2 <= x + 86400 <= 2;
  }

  lemma JustSet(h: UInt8, m: UInt8, s: UInt8, now: UInt32)
    ensures Seconds(Set(h, m, s, now), now) == OfHms(h, m, s) % 86400
  {
  }

  /** After every beacon, whatever its time bytes, the RTC is within two seconds of it on the circle. */
  lemma WithinTwoSeconds(c: Clock, h: UInt8, m: UInt8, s: UInt8, now: UInt32)
    ensures Apart(Seconds(Sync(c, h, m, s, now), now), OfHms(h, m, s)) <= 2
  {
    hide Seconds, OfHms, Apart, Delta, Set;
    var beacon := OfHms(h, m, s);
    SelfDistance(beacon);
    if Corrects(c, beacon, now) {
      JustSet(h, m, s, now);
    } else {
      DeltaBounds(Seconds(c, now), beacon);
    }
  }

  /** A running RTC is touched exactly by a beacon more than two seconds away. */
  lemma TouchedExactlyBeyondTwo(c: Clock, h: UInt8, m: UInt8, s: UInt8, now: UInt32)
    requires c.running && OfHms(h, m, s) < 86400
    ensures Sync(c, h, m, s, now) == c <==> Apart(Seconds(c, now), OfHms(h, m, s)) <= 2
  {
    hide Seconds, OfHms, Apart, Corrects, Set;
    CorrectsBeyondTwo(c, OfHms(h, m, s), now);
    JustSet(h, m, s, now);
    SelfDistance(OfHms(h, m, s));
  }

  lemma CorrectsBeyondTwo(c: Clock, beacon: nat, now: UInt32)
    requires c.running && beacon < 86400
    ensures Corrects(c, beacon, now) <==> Apart(Seconds(c, now), beacon) > 2
  {
    hide Delta, Apart, Seconds;
    DeltaIsDistance(Seconds(c, now), beacon);
  }

  lemma SelfDistance(x: nat)
    ensures Apart(x % 86400, x) == 0
  {
    Cycle(x, x / 86400);
  }

  /** A clock that is not set shows midnight, and any beacon sets it. */
  lemma UnsetClock(c: Clock, h: UInt8, m: UInt8, s: UInt8, now: UInt32)
    requires !c.running
    ensures Seconds(c, now) == 0
    ensures Sync(c, h, m, s, now).running && Seconds(Sync(c, h, m, s, now), now) == ((h * 60 + m) * 60 + s) % 86400
  {
    JustSet(h, m, s, now);
  }

  // ----- The gateway's side -----

  function Hour(sec: nat): nat { sec / 3600 }

  function Minute(sec: nat): nat { sec % 3600 / 60 }

  function Second(sec: nat): nat { sec % 60 }

  /** getGwHMS() loses nothing, and its bytes are a valid time of day. */
  lemma HmsRoundTrip(sec: nat)
    requires sec < 86400
    ensures Hour(sec) < 24 && Minute(sec) < 60 && Second(sec) < 60
    ensures OfHms(Hour(sec), Minute(sec), Second(sec)) == sec
    ensures (Hour(sec) * 60 + Minute(sec)) * 60 + Second(sec) == sec
  {
  }

  /** A superframe in which the node hears the gateway's time, each by its own millis(). */
  function Hear(node: Clock, nodeNow: UInt32, gw: Clock, gwNow: UInt32): Clock {
    var sec := Seconds(gw, gwNow);
    HmsRoundTrip(sec);
    Sync(node, Hour(sec), Minute(sec), Second(sec), nodeNow)
  }

  lemma FloorSum(a: nat, b: nat)
    ensures a / 1000 + b / 1000 <= (a + b) / 1000 <= a / 1000 + b / 1000 + 1
  {
  }

  lemma ApartByOne(x: nat, y: nat)
    requires x <= y <= x + 1
    ensures Apart(x % 86400, y % 86400) <= 1
  {
    assert (x % 86400 - y % 86400) % 86400 == (x - y) % 86400 by {
      var q := x / 86400 - y / 86400;
      assert x % 86400 - y % 86400 == x - y - 86400 * q;
      Cycle(x - y, q);
    }
  }

  lemma Cycle(x: int, q: int)
    ensures (x - 86400 * q) % 86400 == x % 86400
  {
  }

  /**
   * An RTC set from a beacon at `t0` stays within one second of a gateway clock that runs at
   * the same rate and is not set again, until the gateway's 32-bit count since its own setting
   * wraps (49.7 days); no beacon in between touches it. Times are on the gateway's uptime: its
   * clock was set at `g0`, and the node's uptime is ahead by `skew`.
   */
  lemma NeverCorrectedWithoutDrift(gwBase: nat, g0: nat, t0: nat, t: nat, skew: nat)
    requires g0 <= t0 <= t < g0 + 0x1_0000_0000
    ensures
      var gw := Clock(true, gwBase, Millis(g0));
      var node := Hear(Clock(false, 0, 0), Millis(t0 + skew), gw, Millis(t0));
      Hear(node, Millis(t + skew), gw, Millis(t)) == node
  {
    hide Sync, Seconds, OfHms, Hour, Minute, Second, Millis, TimeOfDay, Apart;
    var gw := Clock(true, gwBase, Millis(g0));
    var unset := Clock(false, 0, 0);
    var sec0, sec := Seconds(gw, Millis(t0)), Seconds(gw, Millis(t));
    HmsRoundTrip(sec0);
    HmsRoundTrip(sec);
    var node := Clock(true, sec0, Millis(t0 + skew));
    FirstHeard(unset, Millis(t0 + skew), gw, Millis(t0));
    Reading(gwBase, g0, t0);
    Reading(gwBase, g0, t);
    Reading(sec0, t0 + skew, t + skew);
    InStep(gwBase, t0 - g0, t - t0);
    TouchedExactlyBeyondTwo(node, Hour(sec), Minute(sec), Second(sec), Millis(t + skew));
  }

  lemma FirstHeard(unset: Clock, nodeNow: UInt32, gw: Clock, gwNow: UInt32)
    requires !unset.running
    ensures Hear(unset, nodeNow, gw, gwNow) == Clock(true, Seconds(gw, gwNow), nodeNow)
  {
    hide Seconds, OfHms, Hour, Minute, Second;
    HmsRoundTrip(Seconds(gw, gwNow));
  }

  lemma Reading(base: nat, at: nat, now: nat)
    requires at <= now < at + 0x1_0000_0000
    ensures Seconds(Clock(true, base, Millis(at)), Millis(now)) == TimeOfDay(base, now - at)
  {
    ElapsedMillis(now, at);
  }

  // ----- Once millis() has gone round -----

  lemma Multiple(x: int, q: int)
    requires x == 84375 * q
    ensures x % 84375 == 0
  {
  }

  /** 2^22 has the inverse 55669 modulo 84375: 2^22 * 55669 == 84375 * 2767321 + 1. */
  lemma OddTurns(turns: nat)
    ensures turns % 84375 == 0 <==> turns * 0x40_0000 % 84375 == 0
  {
    if turns * 0x40_0000 % 84375 == 0 {
      var days := turns * 0x40_0000 / 84375;
      Multiple(turns, days * 55669 - turns * 2767321);
    }
    if turns % 84375 == 0 {
      Multiple(turns * 0x40_0000, turns / 84375 * 0x40_0000);
    }
  }

  lemma CommonFactor(a: nat)
    ensures 1024 * a % 86400000 == 1024 * (a % 84375)
  {
    var q := a / 84375;
    assert 1024 * a == 86400000 * q + 1024 * (a % 84375);
  }

  /** 84375 turns of millis() are exactly 4194304 days; numbers of turns in between are no whole days. */
  lemma TurnsInDays(turns: nat)
    ensures turns % 84375 == 0 ==> turns * 0x1_0000_0000 % 86400000 == 0
    ensures turns % 84375 != 0 ==> 1024 <= turns * 0x1_0000_0000 % 86400000 <= 86400000 - 1024
  {
    OddTurns(turns);
    CommonFactor(turns * 0x40_0000);
  }

  /** Time of day after `whole` more milliseconds: unchanged only for whole days, give or take less than 1024 ms. */
  lemma SameTimeOfDay(base: nat, ms: nat, whole: nat)
    requires whole % 86400000 == 0 || 1024 <= whole % 86400000 <= 86400000 - 1024
    ensures TimeOfDay(base, ms + whole) == TimeOfDay(base, ms) <==> whole % 86400000 == 0
  {
    var days, rest := whole / 86400000, whole % 86400000;
    var gain := (ms + rest) / 1000 - ms / 1000;
    FloorSum(ms, rest);
    WholeDays(ms + rest, days);
    SameResidue(base + ms / 1000, days, gain);
  }

  lemma WholeDays(ms: nat, days: nat)
    ensures (ms + 86400000 * days) / 1000 == ms / 1000 + 86400 * days
  {
  }

  lemma SameResidue(x: nat, days: nat, gain: nat)
    requires gain < 86400
    ensures (x + 86400 * days + gain) % 86400 == x % 86400 <==> gain == 0
  {
    Cycle(x + gain + 86400 * days, days);
    var q := (x + gain) / 86400 - x / 86400;
    assert gain == 86400 * q + ((x + gain) % 86400 - x % 86400);
  }

  function Turns(at: nat, now: nat): nat
    requires at <= now
  {
    (now - at) / 0x1_0000_0000
  }

  /** What a clock shows that was set at `at` and never again: the elapsed time without the turns of millis(). */
  lemma ReadingAfterTurns(base: nat, at: nat, now: nat)
    requires at <= now
    ensures Turns(at, now) * 0x1_0000_0000 <= now - at
    ensures Seconds(Clock(true, base, Millis(at)), Millis(now))
         == TimeOfDay(base, now - at - Turns(at, now) * 0x1_0000_0000)
  {
    var earlier := now - Turns(at, now) * 0x1_0000_0000;
    SameMillis(earlier, Turns(at, now));
    hide Seconds, Millis;
    Reading(base, at, earlier);
  }

  lemma SameMillis(t: nat, turns: nat)
    ensures Millis(t + turns * 0x1_0000_0000) == Millis(t)
  {
    var total := t + turns * 0x1_0000_0000;
    var q := total / 0x1_0000_0000 - t / 0x1_0000_0000 - turns;
    assert Millis(total) - Millis(t) == -0x1_0000_0000 * q;
  }

  /**
   * A clock that is never set again shows the right time exactly while the turns that millis()
   * has made since are a multiple of 84375: for the first 49.7 days, and again after 4194304 days.
   */
  lemma RightExactlyInCycle(base: nat, at: nat, now: nat)
    requires at <= now
    ensures Seconds(Clock(true, base, Millis(at)), Millis(now)) == TimeOfDay(base, now - at)
            <==> Turns(at, now) % 84375 == 0
  {
    hide Seconds, Millis, TimeOfDay, Turns;
    var turns := Turns(at, now);
    ReadingAfterTurns(base, at, now);
    TurnsInDays(turns);
    SameTimeOfDay(base, now - at - turns * 0x1_0000_0000, turns * 0x1_0000_0000);
  }

  /** Rounding down before adding costs at most a second. */
  lemma InStep(base: nat, before: nat, after: nat)
    ensures Apart(TimeOfDay(TimeOfDay(base, before), after), TimeOfDay(base, before + after)) <= 1
  {
    FloorSum(before, after);
    var x := base + before / 1000 + after / 1000;
    ApartByOne(x, base + (before + after) / 1000);
    Cycle(x, (base + before / 1000) / 86400);
  }

  // ----- The clocks as the firmware's globals -----

  class NodeRtc {
    var rtcBaseSec: nat
    var rtcBaseMs: UInt32
    var rtcSet: bool

    ghost function Abstract(): Clock
      reads this
    {
      Clock(rtcSet, rtcBaseSec, rtcBaseMs)
    }

    constructor ()
      ensures !Abstract().running
    {
      rtcBaseSec, rtcBaseMs, rtcSet := 0, 0, false;
    }

    method GetSec(now: UInt32) returns (s: nat)
      ensures s == Seconds(Abstract(), now)
    {
      if !rtcSet {
        return 0;
      }
      s := TimeOfDay(rtcBaseSec, Sub32(now, rtcBaseMs));
    }

    method SetTo(h: UInt8, m: UInt8, s: UInt8, now: UInt32)
      modifies this
      ensures Abstract() == Set(h, m, s, now)
    {
      rtcBaseSec := OfHms(h, m, s);
      rtcBaseMs := now;
      rtcSet := true;
    }

    method ConditionalSync(h: UInt8, m: UInt8, s: UInt8, now: UInt32)
      modifies this
      ensures Abstract() == Sync(old(Abstract()), h, m, s, now)
      ensures Apart(Seconds(Abstract(), now), OfHms(h, m, s)) <= 2
    {
      WithinTwoSeconds(Abstract(), h, m, s, now);
      var beaconSec := OfHms(h, m, s);
      if !rtcSet {
        SetTo(h, m, s, now);
        return;
      }
      var localSec := GetSec(now);
      var deltaMs := (localSec as int - beaconSec as int) * 1000;
      assert -0x8000_0000 <= deltaMs < 0x8000_0000;
      if deltaMs > HALF_DAY_MS {
        deltaMs := deltaMs - DAY_MS;
      }
      if deltaMs < -HALF_DAY_MS {
        deltaMs := deltaMs + DAY_MS;
      }
      if (if deltaMs < 0 then -deltaMs else deltaMs) > THRESHOLD_MS {
        SetTo(h, m, s, now);
      }
    }
  }

  class GatewayClock {
    var gwHour: UInt8
    var gwMinute: UInt8
    var gwSecond: UInt8
    var gwTimeAt: UInt32
    var timeSet: bool

    ghost function Abstract(): Clock
      reads this
    {
      Clock(timeSet, OfHms(gwHour, gwMinute, gwSecond), gwTimeAt)
    }

    method SetGatewayTime(h: UInt8, m: UInt8, s: UInt8, now: UInt32)
      modifies this
      ensures Abstract() == Set(h, m, s, now)
    {
      gwHour, gwMinute, gwSecond := h, m, s;
      gwTimeAt := now;
      timeSet := true;
    }

    method GetTimeSec(now: UInt32) returns (t: nat)
      ensures t == Seconds(Abstract(), now)
    {
      if !timeSet {
        return 0;
      }
      hide OfHms, Sub32, TimeOfDay;
      t := TimeOfDay(OfHms(gwHour, gwMinute, gwSecond), Sub32(now, gwTimeAt));
    }

    method GetHMS(now: UInt32) returns (h: UInt8, m: UInt8, s: UInt8)
      ensures OfHms(h, m, s) == Seconds(Abstract(), now)
      ensures h < 24 && m < 60 && s < 60
    {
      var t := GetTimeSec(now);
      HmsRoundTrip(t);
      hide OfHms, Seconds, Hour, Minute, Second;
      h, m, s := Hour(t), Minute(t), Second(t);
    }
  }
}
