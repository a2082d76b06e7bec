// Machine integers of the firmware and the option type used for radio outcomes.
module Words {

  type UInt8 = x: int | 0 <= x < 0x100
  type UInt16 = x: int | 0 <= x < 0x1_0000
  type UInt32 = x: int | 0 <= x < 0x1_0000_0000

  datatype Option<+T> = None | Some(value: T)

  /** `x + 1` in an 8-bit or 16-bit field. */
  function Inc8(x: UInt8): UInt8 { (x + 1) % 0x100 }

  function Inc16(x: UInt16): UInt16 { (x + 1) % 0x1_0000 }

  /** The 32-bit millis() reading at true time `t`. */
  function Millis(t: nat): UInt32 { t % 0x1_0000_0000 }

  lemma ElapsedMillis(now: nat, then_: nat)
    requires then_ <= now < then_ + 0x1_0000_0000
    ensures Sub32(Millis(now), Millis(then_)) == now - then_
  {
    var w := 0x1_0000_0000;
    assert Millis(now) - Millis(then_) == now - then_ - w * (now / w - then_ / w);
    assert now / w - then_ / w == 0 || now / w - then_ / w == 1;
  }

  /** `a - b` in a 32-bit field: the elapsed time between two millis() readings. */
  function Sub32(a: UInt32, b: UInt32): UInt32 { (a - b) % 0x1_0000_0000 }

  function Zeros(n: nat): (r: seq<UInt8>)
    ensures |r| == n
  {
    seq(n, i => 0)
  }
}
