/**
 * Energy deltas: the node turns its meter's wrapping counter into increments
 * (src/node_tdma_task.cpp), the gateway adds up the increments that arrive
 * (src/gateway_tdma_task.cpp).
 */
module Energy {
  import opened Words

  /** Wh after which the meter's register starts again at 0. */
  const PZEM_ENERGY_MAX_WH := 9999990
  const WRAP := 0x1_0000_0000

  datatype Base = Base(last: UInt32, isSet: bool)

  /** The `energy` field of the next packet, with 32-bit wrap-around arithmetic. */
  function Increment(b: Base, raw: UInt32): UInt32 {
    if !b.isSet then 0
    else if raw >= b.last then raw - b.last
    else (Sub32(PZEM_ENERGY_MAX_WH, b.last) + raw) % WRAP
  }

  class MeterBase {
    var lastPzemEnergy: UInt32
    var pzemEnergyBaseSet: bool

    constructor ()
      ensures Base(lastPzemEnergy, pzemEnergyBaseSet) == Base(0, false)
    {
      lastPzemEnergy, pzemEnergyBaseSet := 0, false;
    }

    method TakeDelta(rawEnergy: UInt32) returns (energyDelta: UInt32)
      modifies this
      ensures energyDelta == Increment(old(Base(lastPzemEnergy, pzemEnergyBaseSet)), rawEnergy)
      ensures Base(lastPzemEnergy, pzemEnergyBaseSet) == Base(rawEnergy, true)
    {
      if !pzemEnergyBaseSet {
        lastPzemEnergy := rawEnergy;
        pzemEnergyBaseSet := true;
        energyDelta := 0;
      } else if rawEnergy >= lastPzemEnergy {
        energyDelta := rawEnergy - lastPzemEnergy;
      } else {
        energyDelta := (Sub32(PZEM_ENERGY_MAX_WH, lastPzemEnergy) + rawEnergy) % WRAP;
      }
      lastPzemEnergy := rawEnergy;
    }
  }

  /**
   * One telemetry packet: the meter's true, never wrapping count when it is sampled, and
   * whether the gateway receives the packet.
   */
  datatype Packet = Packet(count: nat, received: bool)

  function Register(count: nat): UInt32 { count % PZEM_ENERGY_MAX_WH }

  ghost predicate Increasing(ps: seq<Packet>) {
    forall k :: 0 <= k < |ps| - 1 ==> ps[k].count <= ps[k + 1].count
  }

  /** Less than one full turn of the meter between two packets. */
  ghost predicate AtMostOneRollover(ps: seq<Packet>) {
    forall k :: 0 <= k < |ps| - 1 ==> ps[k + 1].count - ps[k].count < PZEM_ENERGY_MAX_WH
  }

  function BaseAfter(ps: seq<Packet>): Base {
    if ps == [] then Base(0, false) else Base(Register(ps[|ps| - 1].count), true)
  }

  /** The increment carried by the last packet of `ps`. */
  function LastDelta(ps: seq<Packet>): UInt32
    requires ps != []
  {
    Increment(BaseAfter(ps[..|ps| - 1]), Register(ps[|ps| - 1].count))
  }

  function SentSum(ps: seq<Packet>): nat {
    if ps == [] then 0 else SentSum(ps[..|ps| - 1]) + LastDelta(ps)
  }

  function LostSum(ps: seq<Packet>): nat {
    if ps == [] then 0
    else LostSum(ps[..|ps| - 1]) + if ps[|ps| - 1].received then 0 else LastDelta(ps)
  }

  /** accumEnergy after the packets, starting from `start` at the last clear or restore. */
  function Accumulated(start: UInt32, ps: seq<Packet>): UInt32 {
    if ps == [] then start
    else if ps[|ps| - 1].received then (Accumulated(start, ps[..|ps| - 1]) + LastDelta(ps)) % WRAP
    else Accumulated(start, ps[..|ps| - 1])
  }

  function Travel(ps: seq<Packet>): int {
    if ps == [] then 0 else ps[|ps| - 1].count - ps[0].count
  }

  /** A delta is the true travel, short of whole turns of the meter. */
  lemma DeltaIsTravel(from: nat, to: nat)
    requires from <= to
    ensures Increment(Base(Register(from), true), Register(to)) == (to - from) % PZEM_ENERGY_MAX_WH
  {
    var m := PZEM_ENERGY_MAX_WH;
    var q := to / m - from / m;
    assert to - from == m * q + (Register(to) - Register(from));
    if Register(to) >= Register(from) {
      ModUnique(to - from, q, Register(to) - Register(from));
    } else {
      ModUnique(to - from, q - 1, m + Register(to) - Register(from));
    }
  }

  lemma ModUnique(x: int, q: int, r: int)
    requires x == PZEM_ENERGY_MAX_WH * q + r && 0 <= r < PZEM_ENERGY_MAX_WH
    ensures x % PZEM_ENERGY_MAX_WH == r
  {
  }

  /** The transmitted deltas never exceed the true travel, and miss it only after a full turn. */
  lemma {:induction false} DeltasConserve(ps: seq<Packet>)
    requires Increasing(ps)
    ensures SentSum(ps) <= Travel(ps)
    ensures SentSum(ps) == Travel(ps) <==> AtMostOneRollover(ps)
  {
    if |ps| >= 2 {
      var before := ps[..|ps| - 1];
      DeltasConserve(before);
      var from, to := ps[|ps| - 2].count, ps[|ps| - 1].count;
      assert ps[|ps| - 2 + 1].count == to;
      DeltaIsTravel(from, to);
      TurnsLost(to - from);
      assert AtMostOneRollover(ps) <==> AtMostOneRollover(before) && to - from < PZEM_ENERGY_MAX_WH;
    } else if |ps| == 1 {
      assert ps[..0] == [];
    }
  }

  lemma TurnsLost(x: nat)
    ensures x % PZEM_ENERGY_MAX_WH <= x
    ensures x % PZEM_ENERGY_MAX_WH == x <==> x < PZEM_ENERGY_MAX_WH
  {
  }

  lemma WholeTurns(x: int, y: int, k: int)
    requires x == y + k * WRAP
    ensures x % WRAP == y % WRAP
  {
  }

  lemma {:induction false} AccumulatedCounts(start: UInt32, ps: seq<Packet>)
    ensures LostSum(ps) <= SentSum(ps)
    ensures Accumulated(start, ps) == (start + SentSum(ps) - LostSum(ps)) % WRAP
  {
    if ps != [] {
      var before := ps[..|ps| - 1];
      AccumulatedCounts(start, before);
      var x := start + SentSum(before) - LostSum(before);
      WholeTurns(x + LastDelta(ps), x % WRAP + LastDelta(ps), x / WRAP);
    }
  }

  /** What the gateway gained plus what got lost on air is the meter's travel, modulo 2^32. */
  lemma EnergyConserved(start: UInt32, ps: seq<Packet>)
    requires Increasing(ps) && AtMostOneRollover(ps)
    ensures (Accumulated(start, ps) - start + LostSum(ps)) % WRAP == Travel(ps) % WRAP
  {
    DeltasConserve(ps);
    AccumulatedCounts(start, ps);
    var x := start + SentSum(ps) - LostSum(ps);
    WholeTurns(x - start + LostSum(ps), x % WRAP - start + LostSum(ps), x / WRAP);
  }

  // ----- A meter that is reset -----

  function Sum(xs: seq<nat>): nat {
    if xs == [] then 0 else Sum(xs[..|xs| - 1]) + xs[|xs| - 1]
  }

  lemma {:induction false} SumAtLeastFirst(xs: seq<nat>)
    requires xs != []
    ensures Sum(xs) >= xs[0]
  {
    if |xs| > 1 {
      SumAtLeastFirst(xs[..|xs| - 1]);
    }
  }

  /**
   * What happens to the meter between two packets: it runs on, perhaps past its end, or it goes
   * back to 0 once or more, with its register at `peaks` each time, and then reaches `raw`. A
   * peak at the end of the range is a rollover, any other a reset.
   */
  datatype Gap = Runs(travel: nat) | Resets(peaks: seq<nat>, raw: nat)

  predicate Possible(last: nat, g: Gap) {
    && last < PZEM_ENERGY_MAX_WH
    && (g.Resets? ==>
          && g.peaks != [] && last <= g.peaks[0]
          && (forall k :: 0 <= k < |g.peaks| ==> g.peaks[k] <= PZEM_ENERGY_MAX_WH)
          && g.raw < PZEM_ENERGY_MAX_WH)
  }

  function RegisterAfter(last: nat, g: Gap): (r: UInt32)
    requires Possible(last, g)
    ensures r < PZEM_ENERGY_MAX_WH
  {
    match g
    case Runs(travel) => (last + travel) % PZEM_ENERGY_MAX_WH
    case Resets(_, raw) => raw
  }

  function TrueTravel(last: nat, g: Gap): int
    requires Possible(last, g)
  {
    match g
    case Runs(travel) => travel
    case Resets(peaks, raw) => Sum(peaks) - last + raw
  }

  function Reported(last: nat, g: Gap): UInt32
    requires Possible(last, g)
  {
    Increment(Base(last, true), RegisterAfter(last, g))
  }

  /** By how much the reported increment is off: the peaks are forgotten, a fall reads as one rollover. */
  function Error(last: nat, g: Gap): int
    requires Possible(last, g)
  {
    match g
    case Runs(travel) => travel % PZEM_ENERGY_MAX_WH - travel
    case Resets(peaks, raw) => (if raw < last then PZEM_ENERGY_MAX_WH else 0) - Sum(peaks)
  }

  /** A fall reads as one rollover, without overflow. */
  lemma IncrementCases(last: nat, raw: nat)
    requires last < PZEM_ENERGY_MAX_WH && raw < PZEM_ENERGY_MAX_WH
    ensures Increment(Base(last, true), raw) == if raw < last then PZEM_ENERGY_MAX_WH - last + raw else raw - last
  {
  }

  lemma ReportedIsOff(last: nat, g: Gap)
    requires Possible(last, g)
    ensures Reported(last, g) == TrueTravel(last, g) + Error(last, g)
  {
    IncrementCases(last, RegisterAfter(last, g));
    if g.Runs? {
      DeltaIsTravel(last, last + g.travel);
    }
    hide Increment, Sum;
  }

  /**
   * The gaps whose increment is right: no full turn, and no reset of a meter that had counted anything. Several
   * resets can also cancel: the counts lost add up to one full turn, and the last reading shows a rollover.
   */
  predicate RightlyRead(last: nat, g: Gap)
    requires Possible(last, g)
  {
    match g
    case Runs(travel) => travel < PZEM_ENERGY_MAX_WH
    case Resets(peaks, raw) => Sum(peaks) == 0 || (raw < last && Sum(peaks) == PZEM_ENERGY_MAX_WH)
  }

  lemma RightExactly(last: nat, g: Gap)
    requires Possible(last, g)
    ensures Reported(last, g) == TrueTravel(last, g) <==> RightlyRead(last, g)
  {
    ReportedIsOff(last, g);
    if g.Runs? {
      TurnsLost(g.travel);
    } else {
      SumAtLeastFirst(g.peaks);
    }
  }

  /** One reset between two packets is read rightly only if the meter stood at 0 anyway. */
  lemma OneResetMisread(last: nat, peak: nat, raw: nat)
    requires last <= peak < PZEM_ENERGY_MAX_WH && raw < PZEM_ENERGY_MAX_WH
    ensures Increment(Base(last, true), raw) == peak - last + raw <==> peak == 0
  {
    var g := Resets([peak], raw);
    assert g.peaks[..0] == [] && Sum([]) == 0;
    assert Sum(g.peaks) == peak;
    RightExactly(last, g);
  }

  /** A meter at 5 kWh that loses its count: nothing consumed reads as 9,994,990 Wh, 6 kWh read as 1 kWh. */
  lemma PowerCycleExample()
    ensures Increment(Base(5000, true), 0) == 9994990
    ensures Increment(Base(5000, true), 6000) == 1000
  {
    OneResetMisread(5000, 5000, 0);
    OneResetMisread(5000, 5000, 6000);
  }

  // ----- Sequences of packets with resets in between -----

  /** The register at the packet after the gaps, starting from `first`. */
  function RegisterAt(first: nat, gaps: seq<Gap>): (r: nat)
    requires first < PZEM_ENERGY_MAX_WH && AllPossible(first, gaps)
    ensures r < PZEM_ENERGY_MAX_WH
    decreases |gaps|, 1
  {
    if gaps == [] then first
    else RegisterAfter(RegisterAt(first, gaps[..|gaps| - 1]), gaps[|gaps| - 1])
  }

  predicate AllPossible(first: nat, gaps: seq<Gap>)
    requires first < PZEM_ENERGY_MAX_WH
    decreases |gaps|, 0
  {
    gaps != [] ==>
      && AllPossible(first, gaps[..|gaps| - 1])
      && Possible(RegisterAt(first, gaps[..|gaps| - 1]), gaps[|gaps| - 1])
  }

  function ReportedTotal(first: nat, gaps: seq<Gap>): nat
    requires first < PZEM_ENERGY_MAX_WH && AllPossible(first, gaps)
  {
    if gaps == [] then 0
    else
      var before, g := gaps[..|gaps| - 1], gaps[|gaps| - 1];
      ReportedTotal(first, before) + Reported(RegisterAt(first, before), g)
  }

  function TrueTotal(first: nat, gaps: seq<Gap>): int
    requires first < PZEM_ENERGY_MAX_WH && AllPossible(first, gaps)
  {
    if gaps == [] then 0
    else
      var before, g := gaps[..|gaps| - 1], gaps[|gaps| - 1];
      TrueTotal(first, before) + TrueTravel(RegisterAt(first, before), g)
  }

  function ErrorTotal(first: nat, gaps: seq<Gap>): int
    requires first < PZEM_ENERGY_MAX_WH && AllPossible(first, gaps)
  {
    if gaps == [] then 0
    else
      var before, g := gaps[..|gaps| - 1], gaps[|gaps| - 1];
      ErrorTotal(first, before) + Error(RegisterAt(first, before), g)
  }

  /** Is every packet's increment right? */
  predicate AllRight(first: nat, gaps: seq<Gap>)
    requires first < PZEM_ENERGY_MAX_WH && AllPossible(first, gaps)
  {
    gaps != [] ==>
      var before, g := gaps[..|gaps| - 1], gaps[|gaps| - 1];
      && AllRight(first, before)
      && Reported(RegisterAt(first, before), g) == TrueTravel(RegisterAt(first, before), g)
  }

  predicate AllRightlyRead(first: nat, gaps: seq<Gap>)
    requires first < PZEM_ENERGY_MAX_WH && AllPossible(first, gaps)
  {
    gaps != [] ==>
      var before, g := gaps[..|gaps| - 1], gaps[|gaps| - 1];
      && AllRightlyRead(first, before)
      && RightlyRead(RegisterAt(first, before), g)
  }

  /**
   * Over any life of the meter: the reported energy is off by exactly the errors of its gaps,
   * so it is the true energy if and only if they cancel; and every single increment is right
   * if and only if no gap holds a full turn or a reset of a meter that had counted.
   */
  lemma {:induction false} ResetsCost(first: nat, gaps: seq<Gap>)
    requires first < PZEM_ENERGY_MAX_WH && AllPossible(first, gaps)
    ensures ReportedTotal(first, gaps) == TrueTotal(first, gaps) + ErrorTotal(first, gaps)
    ensures ReportedTotal(first, gaps) == TrueTotal(first, gaps) <==> ErrorTotal(first, gaps) == 0
    ensures AllRight(first, gaps) <==> AllRightlyRead(first, gaps)
    decreases |gaps|
  {
    if gaps != [] {
      var before, g := gaps[..|gaps| - 1], gaps[|gaps| - 1];
      ResetsCost(first, before);
      ReportedIsOff(RegisterAt(first, before), g);
      RightExactly(RegisterAt(first, before), g);
    }
  }
}
