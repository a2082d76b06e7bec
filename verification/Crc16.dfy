/**
 * CRC-16/CCITT as the firmware computes it (src/tdma_protocol.h): the two-byte device UID
 * is the CRC of the six-byte MAC address.
 */
module Crc16 {

  const INIT: bv16 := 0xFFFF

  /** The data byte enters at the top of the register. */
  function Mix(crc: bv16, b: bv8): bv16 {
    crc ^ ((b as bv16) << 8)
  }

  /** The polynomial, when a one leaves the register. */
  function Feedback(crc: bv16): bv16 {
    if crc & 0x8000 != 0 then 0x1021 else 0
  }

  /** One turn of the inner loop. */
  function Shift(crc: bv16): bv16 {
    (crc << 1) ^ Feedback(crc)
  }

  function ShiftN(crc: bv16, n: nat): bv16 {
    if n == 0 then crc else Shift(ShiftN(crc, n - 1))
  }

  /** The register after `data`, starting from `crc`. */
  function Crc(crc: bv16, data: seq<bv8>): bv16 {
    if data == [] then crc
    else ShiftN(Mix(Crc(crc, data[..|data| - 1]), data[|data| - 1]), 8)
  }

  lemma ShiftHigh(crc: bv16)
    requires crc & 0x8000 != 0
    ensures Shift(crc) == (crc << 1) ^ 0x1021
  {
  }

  lemma ShiftLow(crc: bv16)
    requires crc & 0x8000 == 0
    ensures Shift(crc) == crc << 1
  {
    XorZero(crc << 1);
  }

  lemma XorZero(x: bv16)
    ensures x ^ 0 == x
  {
  }

  method Crc16ccitt(data: seq<bv8>) returns (crc: bv16)
    ensures crc == Crc(INIT, data)
  {
    hide Mix, Shift;
    crc := INIT;
    for i := 0 to |data|
      invariant crc == Crc(INIT, data[..i])
    {
      crc := Mix(crc, data[i]);
      ghost var mixed := crc;
      for j := 0 to 8
        invariant crc == ShiftN(mixed, j)
      {
        if crc & 0x8000 != 0 {
          ShiftHigh(crc);
          crc := (crc << 1) ^ 0x1021;
        } else {
          ShiftLow(crc);
          crc := crc << 1;
        }
      }
      assert data[..i + 1][..i] == data[..i];
    }
    assert data[..|data|] == data;
  }

  // ----- Bit-vector facts -----

  /** Addition of registers as polynomials over GF(2). */
  function Xor(x: bv16, y: bv16): bv16 {
    x ^ y
  }

  lemma XorSwap(a: bv16, b: bv16, p: bv16, q: bv16)
    ensures (a ^ b) ^ (p ^ q) == (a ^ p) ^ (b ^ q)
  {
  }

  lemma ShlXor(x: bv16, y: bv16)
    ensures (x ^ y) << 1 == (x << 1) ^ (y << 1)
  {
  }

  lemma FeedbackXor(x: bv16, y: bv16)
    ensures Feedback(x ^ y) == Feedback(x) ^ Feedback(y)
  {
  }

  // ----- One step is linear, and only 0 goes to 0 -----

  lemma ShiftLinear(x: bv16, y: bv16)
    ensures Shift(Xor(x, y)) == Xor(Shift(x), Shift(y))
  {
    FeedbackXor(x, y);
    hide Feedback;
    ShlXor(x, y);
    XorSwap(x << 1, y << 1, Feedback(x), Feedback(y));
  }

  lemma ShiftKernel(x: bv16)
    ensures Shift(x) == 0 <==> x == 0
  {
  }

  lemma {:induction false} ShiftNLinear(x: bv16, y: bv16, n: nat)
    ensures ShiftN(Xor(x, y), n) == Xor(ShiftN(x, n), ShiftN(y, n))
  {
    hide Shift, Xor;
    if n > 0 {
      ShiftNLinear(x, y, n - 1);
      ShiftLinear(ShiftN(x, n - 1), ShiftN(y, n - 1));
    }
  }

  lemma {:induction false} ShiftNKernel(x: bv16, n: nat)
    ensures ShiftN(x, n) == 0 <==> x == 0
  {
    hide Shift;
    if n > 0 {
      ShiftNKernel(x, n - 1);
      ShiftKernel(ShiftN(x, n - 1));
    }
  }

  lemma {:induction false} ShiftNSum(x: bv16, m: nat, n: nat)
    ensures ShiftN(ShiftN(x, m), n) == ShiftN(x, m + n)
  {
    hide Shift;
    if n > 0 {
      ShiftNSum(x, m, n - 1);
    }
  }

  // ----- The checksum is affine -----

  function XorAll(a: seq<bv8>, b: seq<bv8>): (r: seq<bv8>)
    requires |a| == |b|
    ensures |r| == |a|
  {
    seq(|a|, i requires 0 <= i < |a| => a[i] ^ b[i])
  }

  lemma MixLinear(x: bv16, y: bv16, a: bv8, b: bv8)
    ensures Mix(Xor(x, y), a ^ b) == Xor(Mix(x, a), Mix(y, b))
  {
  }

  lemma {:induction false} CrcLinear(x: bv16, y: bv16, a: seq<bv8>, b: seq<bv8>)
    requires |a| == |b|
    ensures Crc(Xor(x, y), XorAll(a, b)) == Xor(Crc(x, a), Crc(y, b))
  {
    hide Mix, Xor, ShiftN;
    if a != [] {
      var n := |a| - 1;
      CrcLinear(x, y, a[..n], b[..n]);
      assert XorAll(a, b)[..n] == XorAll(a[..n], b[..n]);
      MixLinear(Crc(x, a[..n]), Crc(y, b[..n]), a[n], b[n]);
      ShiftNLinear(Mix(Crc(x, a[..n]), a[n]), Mix(Crc(y, b[..n]), b[n]), 8);
    }
  }

  lemma XorCancel(x: bv16, y: bv16)
    ensures Xor(Xor(x, x), x) == x
    ensures Xor(x, y) == 0 <==> x == y
    ensures Xor(x, x) == 0 && Xor(0, x) == x
  {
  }

  /** For equal lengths the checksum is affine over bytewise exclusive or. */
  lemma CrcAffine(a: seq<bv8>, b: seq<bv8>, c: seq<bv8>)
    requires |a| == |b| == |c|
    ensures Xor(Xor(Crc(INIT, a), Crc(INIT, b)), Crc(INIT, c)) == Crc(INIT, XorAll(XorAll(a, b), c))
  {
    hide Xor, Mix, ShiftN, Crc;
    CrcLinear(INIT, INIT, a, b);
    CrcLinear(Xor(INIT, INIT), INIT, XorAll(a, b), c);
    XorCancel(INIT, INIT);
  }

  /** Two strings of one length share a checksum exactly when their difference has remainder 0. */
  lemma SameCrc(a: seq<bv8>, b: seq<bv8>)
    requires |a| == |b|
    ensures Crc(INIT, a) == Crc(INIT, b) <==> Crc(0, XorAll(a, b)) == 0
  {
    hide Xor, Mix, ShiftN, Crc;
    CrcLinear(INIT, INIT, a, b);
    XorCancel(INIT, INIT);
    XorCancel(Crc(INIT, a), Crc(INIT, b));
  }

  // ----- A difference inside two adjacent bytes is always seen -----

  lemma MixZero(x: bv16)
    ensures Mix(x, 0) == x
  {
  }

  /** Zero bytes keep a zero register zero and a nonzero one nonzero. */
  lemma {:induction false} ZerosKeep(x: bv16, data: seq<bv8>)
    requires forall i :: 0 <= i < |data| ==> data[i] == 0
    ensures Crc(x, data) == 0 <==> x == 0
  {
    hide Mix, ShiftN;
    if data != [] {
      var n := |data| - 1;
      ZerosKeep(x, data[..n]);
      MixZero(Crc(x, data[..n]));
      ShiftNKernel(Crc(x, data[..n]), 8);
    }
  }

  lemma AllZero(a: seq<bv8>)
    ensures forall i :: 0 <= i < |a| ==> XorAll(a, a)[i] == 0
  {
    forall i | 0 <= i < |a| ensures XorAll(a, a)[i] == 0 {
      XorSame(a[i], a[i]);
    }
  }

  /** The bytes still to come never make two different register states equal. */
  lemma RegisterInjective(x: bv16, y: bv16, data: seq<bv8>)
    ensures Crc(x, data) == Crc(y, data) <==> x == y
  {
    hide Crc, Xor, XorAll;
    CrcLinear(x, y, data, data);
    AllZero(data);
    ZerosKeep(Xor(x, y), XorAll(data, data));
    XorCancel(x, y);
    XorCancel(Crc(x, data), Crc(y, data));
  }

  lemma {:induction false} CrcConcat(x: bv16, a: seq<bv8>, b: seq<bv8>)
    ensures Crc(x, a + b) == Crc(Crc(x, a), b)
  {
    hide Mix, ShiftN;
    if b == [] {
      assert a + b == a;
    } else {
      var n := |b| - 1;
      CrcConcat(x, a, b[..n]);
      assert (a + b)[..|a + b| - 1] == a + b[..n];
    }
  }

  lemma LowByte(q: bv16)
    requires q & 0xFF00 == 0
    ensures Shift(q) == q << 1
    ensures Shift(q << 1) == q << 2
    ensures Shift(q << 2) == q << 3
    ensures Shift(q << 3) == q << 4
    ensures Shift(q << 4) == q << 5
    ensures Shift(q << 5) == q << 6
    ensures Shift(q << 6) == q << 7
    ensures Shift(q << 7) == q << 8
  {
  }

  lemma LowByteShifts(q: bv16)
    requires q & 0xFF00 == 0
    ensures ShiftN(q, 8) == q << 8
  {
    LowByte(q);
    hide Shift;
    assert ShiftN(q, 1) == q << 1;
    assert ShiftN(q, 2) == q << 2;
    assert ShiftN(q, 3) == q << 3;
    assert ShiftN(q, 4) == q << 4;
    assert ShiftN(q, 5) == q << 5;
    assert ShiftN(q, 6) == q << 6;
    assert ShiftN(q, 7) == q << 7;
  }

  lemma MixIsXor(r: bv16, b: bv8)
    ensures Mix(r, b) == Xor(r, (b as bv16) << 8)
  {
  }

  lemma TwoBytes(p: bv8, q: bv8)
    ensures Crc(0, [p, q]) == ShiftN(Xor((p as bv16) << 8, q as bv16), 16)
  {
    var high, low := (p as bv16) << 8, q as bv16;
    assert low & 0xFF00 == 0;
    hide Shift, ShiftN;
    MixIsXor(0, p);
    MixIsXor(ShiftN(high, 8), q);
    XorCancel(0, high);
    XorCancel(high, 0);
    LowByteShifts(low);
    hide Mix, Xor;
    assert [p, q][..1] == [p] && [p][..0] == [];
    assert Crc(0, [p]) == ShiftN(high, 8);
    ShiftNLinear(high, low, 8);
    ShiftNSum(Xor(high, low), 8, 8);
  }

  lemma TwoBytesKernel(p: bv8, q: bv8)
    ensures Crc(0, [p, q]) == 0 <==> p == 0 && q == 0
  {
    hide Crc, ShiftN;
    TwoBytes(p, q);
    ShiftNKernel(Xor((p as bv16) << 8, q as bv16), 16);
    Split(p, q);
  }

  lemma Split(p: bv8, q: bv8)
    ensures Xor((p as bv16) << 8, q as bv16) == 0 <==> p == 0 && q == 0
  {
  }

  lemma XorSame(a: bv8, b: bv8)
    ensures a ^ b == 0 <==> a == b
  {
  }

  predicate DifferOnlyAt(a: seq<bv8>, b: seq<bv8>, k: nat) {
    && |a| == |b|
    && k + 2 <= |a|
    && (forall i :: 0 <= i < |a| && i != k && i != k + 1 ==> a[i] == b[i])
  }

  lemma DifferenceAt(a: seq<bv8>, b: seq<bv8>, i: nat)
    requires |a| == |b| && i < |a|
    ensures XorAll(a, b)[i] == 0 <==> a[i] == b[i]
  {
    XorSame(a[i], b[i]);
  }

  /** The remainder of a string that is zero outside two adjacent bytes. */
  lemma TwoByteRemainder(d: seq<bv8>, k: nat)
    requires k + 2 <= |d| && forall i :: 0 <= i < |d| && i != k && i != k + 1 ==> d[i] == 0
    ensures Crc(0, d) == 0 <==> d[k] == 0 && d[k + 1] == 0
  {
    hide Crc;
    var pair, tail := [d[k], d[k + 1]], d[k + 2..];
    assert d == d[..k] + pair + tail;
    CrcConcat(0, d[..k] + pair, tail);
    CrcConcat(0, d[..k], pair);
    ZerosKeep(0, d[..k]);
    ZerosKeep(Crc(0, pair), tail);
    TwoBytesKernel(d[k], d[k + 1]);
  }

  /** Strings that differ only inside two adjacent bytes share a checksum only if they are equal. */
  lemma AdjacentBytesSeen(a: seq<bv8>, b: seq<bv8>, k: nat)
    requires DifferOnlyAt(a, b, k)
    ensures Crc(INIT, a) == Crc(INIT, b) <==> a == b
  {
    forall i | 0 <= i < |a| ensures XorAll(a, b)[i] == 0 <==> a[i] == b[i] {
      DifferenceAt(a, b, i);
    }
    hide Crc, XorAll;
    SameCrc(a, b);
    TwoByteRemainder(XorAll(a, b), k);
    if a[k] == b[k] && a[k + 1] == b[k + 1] {
      assert forall i :: 0 <= i < |a| ==> a[i] == b[i];
    }
  }

  /** The initial value tells a string from the same string behind a zero byte. */
  lemma LeadingZeroSeen(data: seq<bv8>)
    ensures Crc(INIT, [0] + data) != Crc(INIT, data)
  {
    FirstZero();
    hide Crc;
    CrcConcat(INIT, [0], data);
    RegisterInjective(Crc(INIT, [0]), INIT, data);
  }

  lemma FirstZero()
    ensures Crc(INIT, [0]) == 0xE1F0
  {
    MixZero(INIT);
    assert ShiftN(INIT, 2) == 0xCF9F;
    assert ShiftN(INIT, 4) == 0x0E1F;
    assert ShiftN(INIT, 6) == 0x387C;
    hide ShiftN;
    assert [0][..0] == [];
  }

  // ----- Device UIDs -----

  function DeviceUid(mac: seq<bv8>): bv16
    requires |mac| == 6
  {
    Crc(INIT, mac)
  }

  /** Eight turns in four pairs. */
  lemma ZeroByte(crc: bv16, a: bv16, b: bv16, c: bv16, d: bv16)
    requires Shift(Shift(crc)) == a && Shift(Shift(a)) == b && Shift(Shift(b)) == c && Shift(Shift(c)) == d
    ensures ShiftN(Mix(crc, 0), 8) == d
  {
    assert Mix(crc, 0) == crc;
    hide Shift;
    TwoTurns(crc, 0);
    TwoTurns(crc, 2);
    TwoTurns(crc, 4);
    TwoTurns(crc, 6);
  }

  lemma TwoTurns(x: bv16, n: nat)
    ensures ShiftN(x, 0) == x
    ensures ShiftN(x, n + 2) == Shift(Shift(ShiftN(x, n)))
  {
    hide Shift;
    assert ShiftN(x, n + 1) == Shift(ShiftN(x, n));
  }

  /** The UID of the address 00:00:00:00:00:00. */
  lemma ZeroAddressUid()
    ensures DeviceUid([0, 0, 0, 0, 0, 0]) == 0x0E10
  {
    ZeroByte(0xFFFF, 0xCF9F, 0x0E1F, 0x387C, 0xE1F0);
    ZeroByte(0xE1F0, 0xB7A3, 0xFECE, 0xCB5B, 0x1D0F);
    ZeroByte(0x1D0F, 0x743C, 0xC0D1, 0x3327, 0xCC9C);
    ZeroByte(0xCC9C, 0x0213, 0x084C, 0x2130, 0x84C0);
    ZeroByte(0x84C0, 0x3342, 0xCD08, 0x0443, 0x110C);
    ZeroByte(0x110C, 0x4430, 0x00E1, 0x0384, 0x0E10);
    hide Shift, ShiftN, Mix;
    ghost var mac: seq<bv8> := [0, 0, 0, 0, 0, 0];
    assert mac[..5] == [0, 0, 0, 0, 0] && mac[..5][..4] == [0, 0, 0, 0] && mac[..5][..4][..3] == [0, 0, 0];
    assert [0 as bv8, 0, 0][..2] == [0, 0] && [0 as bv8, 0][..1] == [0] && [0 as bv8][..0] == [];
    assert Crc(INIT, [0]) == 0xE1F0;
    assert Crc(INIT, [0, 0]) == 0x1D0F;
    assert Crc(INIT, [0, 0, 0]) == 0xCC9C;
    assert Crc(INIT, [0, 0, 0, 0]) == 0x84C0;
    assert Crc(INIT, [0, 0, 0, 0, 0]) == 0x110C;
  }

  /** Boards of one batch, whose addresses differ only in the last two bytes, get distinct UIDs. */
  lemma BatchUidsDistinct(a: seq<bv8>, b: seq<bv8>)
    requires |a| == |b| == 6 && a[..4] == b[..4]
    ensures DeviceUid(a) == DeviceUid(b) <==> a == b
  {
    assert forall i :: 0 <= i < 4 ==> a[i] == a[..4][i] && b[i] == b[..4][i];
    hide Crc;
    AdjacentBytesSeen(a, b, 4);
  }

  /** Two bytes is the limit: these addresses differ in three adjacent bytes and collide. */
  lemma ThreeBytesCollide()
    ensures DeviceUid([0, 0, 0, 0, 0, 0]) == DeviceUid([0, 0, 0, 1, 0x10, 0x21])
  {
    var a: seq<bv8> := [0, 0, 0, 0, 0, 0];
    var b: seq<bv8> := [0, 0, 0, 1, 0x10, 0x21];
    var d: seq<bv8> := [0, 0, 0] + [1, 0x10] + [0x21];
    assert XorAll(a, b) == d;
    hide Crc;
    SameCrc(a, b);
    CrcConcat(0, [0, 0, 0] + [1, 0x10], [0x21]);
    CrcConcat(0, [0, 0, 0], [1, 0x10]);
    ZerosKeep(0, [0, 0, 0]);
    PolyHasRemainderZero();
  }

  /** The three bytes spell the polynomial, whose remainder is 0. */
  lemma PolyHasRemainderZero()
    ensures Crc(Crc(0, [1, 0x10]), [0x21]) == 0
  {
    TwoBytes(1, 0x10);
    assert Xor(((1 as bv8) as bv16) << 8, (0x10 as bv8) as bv16) == 0x110;
    EightTurns();
    ShiftNSum(0x110, 8, 8);
    LowByteShifts(0x21);
    ShiftNKernel(0, 8);
    hide ShiftN;
    assert [0x21][..0] == [];
    assert Mix(0x2100, 0x21) == 0;
  }

  lemma EightTurns()
    ensures ShiftN(0x110, 8) == 0x21
  {
    assert ShiftN(0x110, 2) == 0x440;
    assert ShiftN(0x110, 4) == 0x1100;
    assert ShiftN(0x110, 6) == 0x4400;
  }
}
