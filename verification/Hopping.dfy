/** The hop sequence of src/tdma_protocol.h. */
module Hopping {
  import opened Protocol
  import opened Words

  const N_CHANNELS := 8

  type Slot = s: int | 1 <= s <= MAX_NODES witness 1

  /** Channel of a slot; sfCount * 7 + slotId does not overflow 32 bits. */
  function HopChannel(sfCount: UInt16, slot: Slot): (ch: UInt8)
    ensures ch < N_CHANNELS
  {
    (sfCount * 7 + slot) % N_CHANNELS
  }

  /** Every slot moves one channel down per superframe, from the channel of its own number: 7 is -1 modulo 8. */
  lemma HopsDown(sfCount: UInt16, slot: Slot)
    ensures HopChannel(sfCount, slot) == (slot - sfCount) % N_CHANNELS
  {
    ModShift(slot - sfCount, sfCount);
  }

  /** The superframe count `k` superframes later, in its 16-bit field. */
  function Later(sfCount: UInt16, k: nat): UInt16 {
    (sfCount + k) % 0x1_0000
  }

  /** 65536 is a multiple of 8, so the wrap of the count is invisible to the sequence. */
  lemma HopLater(sfCount: UInt16, k: nat, slot: Slot)
    ensures HopChannel(Later(sfCount, k), slot) == (HopChannel(sfCount, slot) - k) % N_CHANNELS
  {
    var now := sfCount + k;
    var wraps := now / 0x1_0000;
    assert Later(sfCount, k) == now - 0x1_0000 * wraps;
    assert Later(sfCount, k) * 7 + slot == (sfCount * 7 + slot) - k + 8 * (k - 57344 * wraps);
    ModShift((sfCount * 7 + slot) - k, k - 57344 * wraps);
    ModDiff(sfCount * 7 + slot, k);
  }

  lemma ModShift(x: int, q: int)
    ensures (x + 8 * q) % 8 == x % 8
  {
  }

  lemma ModDiff(x: int, k: int)
    ensures (x - k) % 8 == (x % 8 - k) % 8
  {
    ModShift(x % 8 - k, x / 8);
  }

  /** Latin square, rows: in every superframe the slots use distinct channels. */
  lemma SlotsOnDistinctChannels(sfCount: UInt16, a: Slot, b: Slot)
    ensures HopChannel(sfCount, a) == HopChannel(sfCount, b) <==> a == b
  {
    if HopChannel(sfCount, a) == HopChannel(sfCount, b) {
      var x := sfCount * 7;
      assert (x + a) / 8 * 8 - (x + b) / 8 * 8 == a - b;
    }
  }

  lemma Solve(first: nat, ch: nat, j: nat)
    requires first < 8 && ch < 8 && j < 8
    ensures (first - j) % 8 == ch <==> j == (first - ch) % 8
  {
  }

  /** Latin square, columns: in any eight consecutive superframes a slot meets every channel exactly once. */
  lemma EveryChannelOnce(sfCount: UInt16, slot: Slot, ch: nat) returns (k: nat)
    requires ch < N_CHANNELS
    ensures k < 8
    ensures forall j: nat :: j < 8 ==> (HopChannel(Later(sfCount, j), slot) == ch <==> j == k)
  {
    var first := HopChannel(sfCount, slot);
    k := (first - ch) % 8;
    hide HopChannel, Later;
    forall j: nat | j < 8 ensures HopChannel(Later(sfCount, j), slot) == ch <==> j == k {
      HopLater(sfCount, j, slot);
      Solve(first, ch, j);
    }
  }

  lemma SameResidue(first: nat, k: nat)
    requires first < 8
    ensures (first - k) % 8 == first <==> k % 8 == 0
  {
    var q := (first - k) / 8;
    assert first - k == 8 * q + (first - k) % 8;
  }

  /** The sequence of a slot repeats after eight superframes and never sooner. */
  lemma PeriodIsEight(sfCount: UInt16, k: nat, slot: Slot)
    ensures HopChannel(Later(sfCount, k), slot) == HopChannel(sfCount, slot) <==> k % 8 == 0
  {
    HopLater(sfCount, k, slot);
    SameResidue(HopChannel(sfCount, slot), k);
  }
}
