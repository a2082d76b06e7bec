/**
 * Waiting on the 32-bit millisecond clock, and the windows a superframe is cut into
 * (src/tdma_protocol.h). Times are true milliseconds; a device that was switched on `c`
 * milliseconds before time 0 reads Millis(t + c) at time t, and every device has its own c.
 */
module SlotTiming {
  import opened Protocol
  import opened Words

  const HALF := 0x8000_0000
  const WRAP := 0x1_0000_0000

  /** TelemetryPacket and JoinRequestPacket on air. */
  const UL_AIR_MS := 34
  const JOIN_AIR_MS := 16

  /** esp_random() % 25. */
  const BACKOFFS := 25

  function ToInt32(x: UInt32): int {
    if x < HALF then x else x - WRAP
  }

  /** (int32_t)(target - now) */
  function Gap(target: UInt32, now: UInt32): int {
    ToInt32(Sub32(target, now))
  }

  /** The wrapped difference is the true one up to 2^31; a longer wait looks overdue. */
  lemma GapMeaning(target: nat, now: nat)
    ensures -HALF <= target - now < HALF ==> Gap(Millis(target), Millis(now)) == target - now
    ensures HALF <= target - now < WRAP ==> Gap(Millis(target), Millis(now)) < 0
  {
    var d := target / WRAP - now / WRAP;
    assert Millis(target) - Millis(now) == target - now - WRAP * d;
    Residue(target - now, d);
  }

  lemma Residue(x: int, d: int)
    ensures (x - WRAP * d) % WRAP == x % WRAP
    ensures 0 <= x < WRAP ==> x % WRAP == x
    ensures -HALF <= x < 0 ==> x % WRAP == x + WRAP
  {
  }

  /** A wait is taken for over before its time exactly when the gap is 2^31 ms or more. */
  lemma EarlyExactlyBeyondHalf(target: nat, now: nat)
    requires now < target < now + WRAP
    ensures Gap(Millis(target), Millis(now)) <= 0 <==> target - now >= HALF
  {
    GapMeaning(target, now);
  }

  /**
   * waitUntilMs(). `readings` are the true times at which it gets to call millis(): coarse waits
   * until two milliseconds before the target, then a spin that reads again. The index of the
   * reading that ends the wait is returned, or a value past the end if none does.
   */
  method WaitUntil(target: UInt32, readings: seq<nat>, ghost deadline: nat) returns (n: nat)
    requires target == Millis(deadline)
    requires forall i :: 0 <= i < |readings| ==> -HALF <= deadline - readings[i] < HALF
    requires forall i, j :: 0 <= i <= j < |readings| ==> readings[i] <= readings[j]
    // never early
    ensures n < |readings| ==> readings[n] >= deadline
    // only the last reading before it can already have reached the deadline
    ensures forall i :: 0 <= i < n - 1 && i < |readings| ==> readings[i] < deadline
  {
    forall i | 0 <= i < |readings| ensures Gap(target, Millis(readings[i])) == deadline - readings[i] {
      GapMeaning(deadline, readings[i]);
    }
    hide Gap, Millis;
    n := 0;
    while n < |readings| && Gap(target, Millis(readings[n])) > 2
      invariant n <= |readings|
      invariant forall i :: 0 <= i < n ==> readings[i] < deadline
    {
      n := n + 1;
    }
    ghost var coarse := n;
    n := n + 1;
    while n < |readings| && Gap(target, Millis(readings[n])) > 0
      invariant coarse < n && (n <= |readings| || n == coarse + 1)
      invariant forall i :: 0 <= i < n && i != coarse && i < |readings| ==> readings[i] < deadline
    {
      n := n + 1;
    }
    if coarse + 1 < n && coarse + 1 < |readings| {
      assert readings[coarse] <= readings[coarse + 1] < deadline;
    }
  }

  // ----- Wake-up instants -----

  function Plus32(base: UInt32, ms: nat): UInt32 {
    (base + ms) % WRAP
  }

  predicate Due(c: nat, target: UInt32, t: nat) {
    Gap(target, Millis(t + c)) <= 0
  }

  /** `wake` is the first instant from `from` on at which device `c` sees `target` reached. */
  ghost predicate WakesAt(c: nat, target: UInt32, from: nat, wake: nat) {
    && from <= wake
    && Due(c, target, wake)
    && forall t :: from <= t < wake ==> !Due(c, target, t)
  }

  /** A wait for `ms` after the instant `base` ends just then, wherever the 32-bit clock wraps. */
  lemma Wakes(c: nat, base: nat, ms: nat, from: nat, wake: nat)
    requires base <= from <= base + ms < from + HALF
    requires WakesAt(c, Plus32(Millis(base + c), ms), from, wake)
    ensures wake == base + ms
  {
    var target := base + c + ms;
    assert Plus32(Millis(base + c), ms) == Millis(target) by {
      Residue(target, (base + c) / WRAP);
    }
    GapMeaning(target, target);
    assert Due(c, Millis(target), base + ms);
    GapMeaning(target, wake + c);
  }

  // ----- Where everything falls -----

  type Slot = s: int | 1 <= s <= MAX_NODES witness 1

  predicate Contained(start: nat, air: nat, open: nat, window: nat) {
    open <= start && start + air <= open + window
  }

  /** Offsets from the gateway's superframe start, and from a node's beacon reception. */
  function SlotBase(slot: Slot): nat { BEACON_MS + (slot - 1) * SLOT_PAIR_MS }

  function ContentionBase(): nat { BEACON_MS + MAX_NODES * SLOT_PAIR_MS }

  function FromBeacon(offset: nat): nat
    requires offset >= BEACON_AIR_MS
  {
    offset - BEACON_AIR_MS
  }

  /** When a node hears the beacon of superframe start `sf` with latency `j`. */
  function HeardAt(sf: nat, j: nat): nat { sf + BEACON_AIR_MS + j }

  /** Window openings and transmission starts as the devices' own clocks produce them. */
  lemma SlotWakes(gw: nat, node: nat, sf: nat, j: nat, slot: Slot, open: nat, wake: nat)
    requires j < HALF / 2
    requires WakesAt(gw, Plus32(Millis(sf + gw), SlotBase(slot) + SLOT_DL_MS), sf, open)
    requires WakesAt(node, Plus32(Millis(HeardAt(sf, j) + node), FromBeacon(SlotBase(slot)) + SLOT_DL_MS),
                     HeardAt(sf, j), wake)
    ensures open == sf + SlotBase(slot) + SLOT_DL_MS
    ensures wake == open + j
  {
    Wakes(gw, sf, SlotBase(slot) + SLOT_DL_MS, sf, open);
    Wakes(node, HeardAt(sf, j), FromBeacon(SlotBase(slot)) + SLOT_DL_MS, HeardAt(sf, j), wake);
  }

  /**
   * A node that transmits `late` ms after its wait ends stays inside its receive window
   * exactly when beacon latency and lateness together are at most 66 ms.
   */
  lemma UplinkInWindow(gw: nat, node: nat, sf: nat, j: nat, late: nat, slot: Slot, open: nat, wake: nat)
    requires j < HALF / 2
    requires WakesAt(gw, Plus32(Millis(sf + gw), SlotBase(slot) + SLOT_DL_MS), sf, open)
    requires WakesAt(node, Plus32(Millis(HeardAt(sf, j) + node), FromBeacon(SlotBase(slot)) + SLOT_DL_MS),
                     HeardAt(sf, j), wake)
    ensures Contained(wake + late, UL_AIR_MS, open, SLOT_UL_MS) <==> j + late <= 66
  {
    SlotWakes(gw, node, sf, j, slot, open, wake);
  }

  /**
   * Uplinks of different slots never share the air, for any pair of slots, exactly when the
   * node in the earlier slot is at most 131 ms later than the other.
   */
  lemma UplinksDisjoint(sf: nat, j: nat, j': nat)
    ensures (forall a: Slot, b: Slot :: a < b ==> UplinkAt(sf, j, a) + UL_AIR_MS <= UplinkAt(sf, j', b))
            <==> j <= j' + 131
  {
    var first: Slot, second: Slot := 1, 2;
    if j > j' + 131 {
      assert UplinkAt(sf, j, first) + UL_AIR_MS > UplinkAt(sf, j', second);
    }
  }

  /** The transmission start SlotWakes derives. */
  function UplinkAt(sf: nat, j: nat, slot: Slot): nat {
    sf + SlotBase(slot) + SLOT_DL_MS + j
  }

  lemma ContentionWakes(gw: nat, node: nat, sf: nat, j: nat, open: nat, ackAt: nat, wake: nat)
    requires j < HALF / 2
    requires WakesAt(gw, Plus32(Millis(sf + gw), ContentionBase()), sf, open)
    requires WakesAt(gw, Plus32(Millis(sf + gw), ContentionBase() + CONTENTION_UL_MS), sf, ackAt)
    requires WakesAt(node, Plus32(Millis(HeardAt(sf, j) + node), FromBeacon(ContentionBase())), HeardAt(sf, j), wake)
    ensures open == sf + SlotBase(MAX_NODES) + SLOT_PAIR_MS
    ensures ackAt == open + CONTENTION_UL_MS && wake == open + j
  {
    Wakes(gw, sf, ContentionBase(), sf, open);
    Wakes(gw, sf, ContentionBase() + CONTENTION_UL_MS, sf, ackAt);
    Wakes(node, HeardAt(sf, j), FromBeacon(ContentionBase()), HeardAt(sf, j), wake);
  }

  /**
   * The zones tile the superframe: beacon, eight slot pairs back to back, contention, idle, end
   * guard. Three seconds in all, contention from 1360 ms on.
   */
  lemma ZonesTile(slot: Slot)
    ensures BEACON_AIR_MS <= BEACON_MS == SlotBase(1)
    ensures slot < MAX_NODES ==> SlotBase(slot + 1) == SlotBase(slot) + SLOT_PAIR_MS
    ensures SlotBase(MAX_NODES) + SLOT_PAIR_MS == ContentionBase() == 1360
    ensures ContentionBase() + CONTENTION_UL_MS + CONTENTION_DL_MS + IDLE_MS + END_GUARD_MS == SUPERFRAME_MS == 3000
  {
  }

  /** Two transmissions overlap in time. */
  predicate ShareAir(start: nat, air: nat, start': nat, air': nat) {
    start < start' + air' && start' < start + air
  }

  predicate ClearOf(sf: nat, late: nat, slot: Slot, wake: nat, backoff: nat) {
    !ShareAir(UplinkAt(sf, late, slot), UL_AIR_MS, wake + backoff, JOIN_AIR_MS)
  }

  /**
   * Reporting and joining never share the air: with every uplink inside its receive window
   * (UplinkInWindow), each is over before any contender sends, in every slot and for every backoff.
   * Up to the length of a pair the bound is exact: a node is clear of every contender if and only if
   * it is at most 81 ms later than the contender. The ack of the gateway is over before the idle zone.
   */
  lemma ContentionClear(gw: nat, node: nat, sf: nat, j: nat, open: nat, ackAt: nat, wake: nat, late: nat)
    requires j < HALF / 2 && late <= j + SLOT_PAIR_MS - SLOT_DL_MS
    requires WakesAt(gw, Plus32(Millis(sf + gw), ContentionBase()), sf, open)
    requires WakesAt(gw, Plus32(Millis(sf + gw), ContentionBase() + CONTENTION_UL_MS), sf, ackAt)
    requires WakesAt(node, Plus32(Millis(HeardAt(sf, j) + node), FromBeacon(ContentionBase())), HeardAt(sf, j), wake)
    ensures (forall slot: Slot, backoff: nat :: backoff < BACKOFFS ==> ClearOf(sf, late, slot, wake, backoff))
            <==> late <= j + 81
    ensures late <= 66 ==> forall slot: Slot :: UplinkAt(sf, late, slot) + UL_AIR_MS <= wake
    ensures ackAt + JOIN_AIR_MS <= sf + SUPERFRAME_MS - END_GUARD_MS - IDLE_MS
  {
    hide WakesAt, UplinkAt, Millis, Plus32;
    ContentionWakes(gw, node, sf, j, open, ackAt, wake);
    assert open == sf + ContentionBase();
    LastUplinkEnds(sf, late, wake, j);
    hide SlotBase, ContentionBase;
    var last: Slot, now: nat := MAX_NODES, 0;
    if late > j + 81 {
      assert !ClearOf(sf, late, last, wake, now);
    }
  }

  /** Slot 8 is the last to be clear of a contender that wakes `j` ms into the contention window. */
  lemma LastUplinkEnds(sf: nat, late: nat, wake: nat, j: nat)
    requires wake == sf + ContentionBase() + j && late <= j + SLOT_PAIR_MS - SLOT_DL_MS
    ensures forall slot: Slot :: UplinkAt(sf, late, slot) <= UplinkAt(sf, late, MAX_NODES) < wake + JOIN_AIR_MS
    ensures UplinkAt(sf, late, MAX_NODES) + UL_AIR_MS == wake + late - j - 81
    ensures wake + CONTENTION_UL_MS + JOIN_AIR_MS <= sf + j + SUPERFRAME_MS - END_GUARD_MS - IDLE_MS
  {
  }

  predicate RequestFits(wake: nat, backoff: nat, open: nat) {
    Contained(wake + backoff, JOIN_AIR_MS, open, CONTENTION_UL_MS)
  }

  /** The ack airs between the end of the node's request and its deadline. */
  predicate AckHeard(wake: nat, backoff: nat, ackAt: nat) {
    && wake + backoff + JOIN_AIR_MS <= ackAt
    && ackAt + JOIN_AIR_MS <= wake + CONTENTION_UL_MS + CONTENTION_DL_MS
  }

  /**
   * A join request fits the contention window for every random backoff exactly when the beacon
   * latency is at most 20 ms, which is also when the node is already listening as the ack goes out.
   */
  lemma JoinInWindow(gw: nat, node: nat, sf: nat, j: nat, open: nat, ackAt: nat, wake: nat)
    requires j < HALF / 2
    requires WakesAt(gw, Plus32(Millis(sf + gw), ContentionBase()), sf, open)
    requires WakesAt(gw, Plus32(Millis(sf + gw), ContentionBase() + CONTENTION_UL_MS), sf, ackAt)
    requires WakesAt(node, Plus32(Millis(HeardAt(sf, j) + node), FromBeacon(ContentionBase())), HeardAt(sf, j), wake)
    ensures (forall backoff: nat :: backoff < BACKOFFS ==> RequestFits(wake, backoff, open)) <==> j <= 20
    ensures (forall backoff: nat :: backoff < BACKOFFS ==> AckHeard(wake, backoff, ackAt)) <==> j <= 20
  {
    ContentionWakes(gw, node, sf, j, open, ackAt, wake);
    hide WakesAt;
    if j > 20 {
      assert !RequestFits(wake, 24, open) && !AckHeard(wake, 24, ackAt);
    }
  }
}
