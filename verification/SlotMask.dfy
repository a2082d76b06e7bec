/** The 8-bit occupancy mask: bit N stands for slot N + 1 (src/tdma_protocol.h, BeaconPacket). */
module SlotMask {

  /** `1u << i`. */
  function OneShl(i: nat): bv8
    requires i < 8
  {
    match i
    case 0 => 1
    case 1 => 2
    case 2 => 4
    case 3 => 8
    case 4 => 16
    case 5 => 32
    case 6 => 64
    case _ => 128
  }

  predicate Bit(mask: bv8, i: nat)
    requires i < 8
  {
    mask & OneShl(i) != 0
  }

  function Bits(mask: bv8): (r: seq<bool>)
    ensures |r| == 8 && forall i :: 0 <= i < 8 ==> r[i] == Bit(mask, i)
  {
    seq(8, i requires 0 <= i < 8 => Bit(mask, i))
  }

  /** Bit N is the N-th binary digit, the lowest first. */
  lemma BitIsDigit(mask: bv8, i: nat)
    requires i < 8
    ensures Bit(mask, i) <==> (mask >> i) & 1 == 1
  {
    match i
    case 0 => case 1 => case 2 => case 3 => case 4 => case 5 => case 6 => case _ =>
  }

  lemma SetBit(mask: bv8, i: nat)
    requires i < 8
    ensures forall j: nat :: j < 8 ==> (Bit(mask | OneShl(i), j) <==> j == i || Bit(mask, j))
  {
    forall j: nat | j < 8
      ensures Bit(mask | OneShl(i), j) <==> j == i || Bit(mask, j)
    {
      assert (mask | OneShl(i)) & OneShl(j) == (mask & OneShl(j)) | (OneShl(i) & OneShl(j));
    }
  }

  lemma ClearBit(mask: bv8, i: nat)
    requires i < 8
    ensures forall j: nat :: j < 8 ==> (Bit(mask & !OneShl(i), j) <==> j != i && Bit(mask, j))
  {
    forall j: nat | j < 8
      ensures Bit(mask & !OneShl(i), j) <==> j != i && Bit(mask, j)
    {
      assert (mask & !OneShl(i)) & OneShl(j) == (mask & OneShl(j)) & !OneShl(i);
    }
  }

  lemma AllBits(mask: bv8)
    ensures mask == 0xFF <==> forall i: nat :: i < 8 ==> Bit(mask, i)
  {
    if forall i: nat :: i < 8 ==> Bit(mask, i) {
      assert Bit(mask, 0) && Bit(mask, 1) && Bit(mask, 2) && Bit(mask, 3);
      assert Bit(mask, 4) && Bit(mask, 5) && Bit(mask, 6) && Bit(mask, 7);
    }
  }
}
