/**
 * The encryption layer between packet structs and the radio (src/pkt_crypto.h, src/crypto.cpp):
 * AES-128 in counter mode, with the block cipher left as an arbitrary function on blocks.
 */
module PacketCrypto {
  import opened Words

  type Bytes = seq<bv8>
  type Block = b: Bytes | |b| == 16 witness [0, 0, 0, 0, 0, 0, 0, 0, 0, 0, 0, 0, 0, 0, 0, 0]
  type Cipher = Block -> Block

  const DIR_BEACON: bv8 := 0x04
  const DIR_UL: bv8 := 0x01
  const DIR_DL: bv8 := 0x02
  const DIR_JOIN_RQ: bv8 := 0xA0
  const DIR_JOIN_AK: bv8 := 0xA1

  function Low(x: bv16): bv8 { (x & 0xFF) as bv8 }

  function High(x: bv16): bv8 { (x >> 8) as bv8 }

  function Word(lo: bv8, hi: bv8): bv16 { (lo as bv16) | ((hi as bv16) << 8) }

  lemma WordRoundTrip(x: bv16)
    ensures Word(Low(x), High(x)) == x
  {
  }

  // ----- Counter mode -----

  /** The first counter block of a transmission; never sent. */
  function Nonce(sf: bv16, slot: bv8, dir: bv8): Block {
    [Low(sf), High(sf), slot, dir, 0, 0, 0, 0, 0, 0, 0, 0, 0, 0, 0, 0]
  }

  /** Big-endian increment of the first `i` bytes. */
  function Bump(c: Block, i: nat): Block
    requires i <= 16
    decreases i
  {
    if i == 0 then c
    else if c[i - 1] != 0xFF then c[i - 1 := c[i - 1] + 1]
    else Bump(c[i - 1 := 0], i - 1)
  }

  /** The counter block for the n-th block of the key stream. */
  function Counter(start: Block, n: nat): Block {
    if n == 0 then start else Bump(Counter(start, n - 1), 16)
  }

  lemma CounterNext(start: Block, n: nat)
    ensures Counter(start, 0) == start && Counter(start, n + 1) == Bump(Counter(start, n), 16)
  {
  }

  function KeyByte(aes: Cipher, start: Block, i: nat): bv8 {
    aes(Counter(start, i / 16))[i % 16]
  }

  lemma KeyByteAt(aes: Cipher, start: Block, q: nat, n: nat)
    requires n < 16
    ensures KeyByte(aes, start, 16 * q + n) == aes(Counter(start, q))[n]
  {
    assert (16 * q + n) / 16 == q && (16 * q + n) % 16 == n;
  }

  function Xor(x: bv8, k: bv8): bv8 { x ^ k }

  function Ctr(aes: Cipher, start: Block, data: Bytes): (r: Bytes)
    ensures |r| == |data|
  {
    seq(|data|, i requires 0 <= i < |data| => Xor(data[i], KeyByte(aes, start, i)))
  }

  /** A plain build, an encrypted build before a key exists, and one with a key. */
  datatype Layer = Plain | Keyless | Keyed(aes: Cipher)

  function Process(layer: Layer, data: Bytes, sf: bv16, slot: bv8, dir: bv8): (r: Bytes)
    ensures |r| == |data|
  {
    if layer.Keyed? then Ctr(layer.aes, Nonce(sf, slot, dir), data) else data
  }

  lemma XorTwice(x: bv8, k: bv8)
    ensures Xor(Xor(x, k), k) == x
  {
  }

  /** Decryption is encryption again. */
  lemma ProcessTwice(layer: Layer, data: Bytes, sf: bv16, slot: bv8, dir: bv8)
    ensures Process(layer, Process(layer, data, sf, slot, dir), sf, slot, dir) == data
  {
    if layer.Keyed? {
      var start := Nonce(sf, slot, dir);
      var once := Ctr(layer.aes, start, data);
      hide KeyByte, Nonce, Xor;
      forall i | 0 <= i < |data| ensures Ctr(layer.aes, start, once)[i] == data[i] {
        XorTwice(data[i], KeyByte(layer.aes, start, i));
      }
    }
  }

  // ----- No counter block serves two purposes -----

  /** Everything the network sends in one superframe. */
  datatype Transmission = Beacon | Downlink(slot: bv8) | Uplink(slot: bv8) | JoinRequest | JoinAck

  predicate InNetwork(t: Transmission) {
    (t.Downlink? || t.Uplink?) ==> 1 <= t.slot <= 8
  }

  function SlotByte(t: Transmission): bv8 {
    if t.Downlink? || t.Uplink? then t.slot else 0
  }

  function DirByte(t: Transmission): bv8 {
    match t
    case Beacon => DIR_BEACON
    case Downlink(_) => DIR_DL
    case Uplink(_) => DIR_UL
    case JoinRequest => DIR_JOIN_RQ
    case JoinAck => DIR_JOIN_AK
  }

  function NonceOf(sf: bv16, t: Transmission): Block {
    Nonce(sf, SlotByte(t), DirByte(t))
  }

  lemma NonceInjective(sf: bv16, slot: bv8, dir: bv8, sf': bv16, slot': bv8, dir': bv8)
    ensures Nonce(sf, slot, dir) == Nonce(sf', slot', dir') <==> sf == sf' && slot == slot' && dir == dir'
  {
    var a, b := Nonce(sf, slot, dir), Nonce(sf', slot', dir');
    if a == b {
      assert a[0] == b[0] && a[1] == b[1] && a[2] == b[2] && a[3] == b[3];
      WordRoundTrip(sf);
      WordRoundTrip(sf');
    }
  }

  /** The nonce on the wire: count, little-endian, then slot and direction; the rest counts blocks. */
  lemma NonceLayout(sf: bv16, t: Transmission)
    ensures var b := NonceOf(sf, t);
      && Word(b[0], b[1]) == sf
      && b[2] == (if t.Downlink? || t.Uplink? then t.slot else 0)
      && b[3] == (match t case Uplink(_) => 0x01 case Downlink(_) => 0x02 case Beacon => 0x04
                          case JoinRequest => 0xA0 case JoinAck => 0xA1)
      && forall k :: 4 <= k < 16 ==> b[k] == 0
  {
    WordRoundTrip(sf);
  }

  lemma NextByte(b: bv8)
    ensures b != 0xFF ==> (b + 1) as int == b as int + 1
    ensures b == 0xFF <==> b as int == 255
  {
  }

  /** Below 256 blocks only the last byte of the counter moves. */
  lemma {:induction false} CounterForm(start: Block, n: nat)
    requires start[15] == 0 && n < 256
    ensures Counter(start, n)[..15] == start[..15]
    ensures Counter(start, n)[15] as int == n
  {
    if n > 0 {
      CounterForm(start, n - 1);
      var before := Counter(start, n - 1);
      NextByte(before[15]);
      assert Bump(before, 16) == before[15 := before[15] + 1];
    }
  }

  lemma CounterInjective(a: Block, n: nat, b: Block, n': nat)
    requires a[15] == b[15] == 0 && n < 256 && n' < 256
    ensures Counter(a, n) == Counter(b, n') <==> a == b && n == n'
  {
    CounterForm(a, n);
    CounterForm(b, n');
    hide Counter;
    if Counter(a, n) == Counter(b, n') {
      assert a == a[..15] + [0] && b == b[..15] + [0];
    }
  }

  /**
   * Two key-stream blocks of messages up to 4096 bytes come from one counter block exactly
   * when superframe count, transmission and position in the message all agree.
   */
  lemma CounterBlocksDistinct(sf: bv16, t: Transmission, n: nat, sf': bv16, t': Transmission, n': nat)
    requires InNetwork(t) && InNetwork(t') && n < 256 && n' < 256
    ensures Counter(NonceOf(sf, t), n) == Counter(NonceOf(sf', t'), n') <==> sf == sf' && t == t' && n == n'
  {
    CounterInjective(NonceOf(sf, t), n, NonceOf(sf', t'), n');
    NonceInjective(sf, SlotByte(t), DirByte(t), sf', SlotByte(t'), DirByte(t'));
  }

  // ----- The counter as a number -----

  function Num(b: bv8): (n: nat)
    ensures n < 0x100
  {
    b as int
  }

  lemma NextNum(b: bv8)
    ensures Num(b + 1) == if b == 0xFF then 0 else Num(b) + 1
    ensures b == 0xFF <==> Num(b) == 0xFF
  {
    NextByte(b);
  }

  function Pow256(i: nat): nat {
    if i == 0 then 1 else 0x100 * Pow256(i - 1)
  }

  /** The first `i` bytes, most significant first. */
  function BigEndian(c: Block, i: nat): nat
    requires i <= 16
  {
    if i == 0 then 0 else 0x100 * BigEndian(c, i - 1) + Num(c[i - 1])
  }

  lemma {:induction false} BigEndianBound(c: Block, i: nat)
    requires i <= 16
    ensures BigEndian(c, i) < Pow256(i)
  {
    if i > 0 {
      BigEndianBound(c, i - 1);
    }
  }

  lemma {:induction false} SameBytes(c: Block, d: Block, i: nat)
    requires i <= 16 && c[..i] == d[..i]
    ensures BigEndian(c, i) == BigEndian(d, i)
  {
    if i > 0 {
      assert c[..i - 1] == c[..i][..i - 1] == d[..i][..i - 1] == d[..i - 1];
      assert c[i - 1] == c[..i][i - 1] == d[..i][i - 1] == d[i - 1];
      SameBytes(c, d, i - 1);
    }
  }

  predicate AddsOne(before: nat, after: nat, range: nat) {
    after == if before + 1 == range then 0 else before + 1
  }

  lemma NoCarry(c: Block, e: Block, i: nat)
    requires 0 < i <= 16 && c[i - 1] != 0xFF && e == c[i - 1 := c[i - 1] + 1]
    ensures AddsOne(BigEndian(c, i), BigEndian(e, i), Pow256(i)) && e[i..] == c[i..]
  {
    hide Num;
    NextNum(c[i - 1]);
    assert e[..i - 1] == c[..i - 1];
    SameBytes(c, e, i - 1);
    BigEndianBound(e, i);
  }

  lemma Carry(c: Block, e: Block, i: nat)
    requires 0 < i <= 16 && c[i - 1] == 0xFF
    requires AddsOne(BigEndian(c, i - 1), BigEndian(e, i - 1), Pow256(i - 1))
    requires e[i - 1] == 0 && e[i..] == c[i..]
    ensures AddsOne(BigEndian(c, i), BigEndian(e, i), Pow256(i))
  {
    hide Num;
    NumEnds();
    BigEndianBound(c, i - 1);
  }

  lemma Suffix(a: Block, b: Block, i: nat)
    requires 0 < i <= 16 && a[i - 1..] == b[i - 1..]
    ensures a[i - 1] == b[i - 1] && a[i..] == b[i..]
  {
    assert a[i - 1] == a[i - 1..][0] == b[i - 1..][0];
    assert a[i..] == a[i - 1..][1..] && b[i..] == b[i - 1..][1..];
  }

  /** One step of the counter adds one, modulo 2^(8 i), and touches nothing behind the first `i` bytes. */
  lemma {:induction false} BumpAddsOne(c: Block, i: nat)
    requires i <= 16
    ensures AddsOne(BigEndian(c, i), BigEndian(Bump(c, i), i), Pow256(i))
    ensures Bump(c, i)[i..] == c[i..]
    decreases i
  {
    hide Num, AddsOne, BigEndian, Pow256;
    if i == 0 {
      EmptyCount(c);
    } else if c[i - 1] != 0xFF {
      NoCarry(c, Bump(c, i), i);
    } else {
      var d: Block := c[i - 1 := 0];
      BumpAddsOne(d, i - 1);
      assert c[..i - 1] == d[..i - 1];
      SameBytes(c, d, i - 1);
      Suffix(Bump(d, i - 1), d, i);
      Carry(c, Bump(c, i), i);
    }
  }

  lemma EmptyCount(c: Block)
    ensures AddsOne(BigEndian(c, 0), BigEndian(c, 0), Pow256(0))
  {
  }

  lemma NumEnds()
    ensures Num(0) == 0 && Num(0xFF) == 0xFF
  {
  }

  /** g_sfCount after `k` more superframes. */
  function Later(sf: bv16, k: nat): bv16 {
    if k == 0 then sf else Later(sf, k - 1) + 1
  }

  /** The count as a number, from its two bytes. */
  function Value(x: bv16): (n: nat)
    ensures n < 0x1_0000
  {
    Num(Low(x)) + 0x100 * Num(High(x))
  }

  lemma NextBytes(x: bv16)
    ensures Low(x + 1) == Low(x) + 1
    ensures High(x + 1) == if Low(x) == 0xFF then High(x) + 1 else High(x)
  {
  }

  lemma NextValue(x: bv16)
    ensures Value(x + 1) == (Value(x) + 1) % 0x1_0000
  {
    hide Low, High, Num;
    NextBytes(x);
    NextNum(Low(x));
    NextNum(High(x));
  }

  lemma NumInjective(a: bv8, b: bv8)
    ensures a == b <==> Num(a) == Num(b)
  {
    assert (a as int) as bv8 == a && (b as int) as bv8 == b;
  }

  lemma ValueInjective(x: bv16, y: bv16)
    ensures x == y <==> Value(x) == Value(y)
  {
    hide Low, High, Num, Word;
    NumInjective(Low(x), Low(y));
    NumInjective(High(x), High(y));
    WordRoundTrip(x);
    WordRoundTrip(y);
  }

  lemma {:induction false} LaterIs(sf: bv16, k: nat)
    ensures Value(Later(sf, k)) == (Value(sf) + k) % 0x1_0000
  {
    hide Value;
    if k > 0 {
      LaterIs(sf, k - 1);
      NextValue(Later(sf, k - 1));
      CountUp(Value(sf) + k - 1);
    }
  }

  lemma CountUp(n: nat)
    ensures (n + 1) % 0x1_0000 == (n % 0x1_0000 + 1) % 0x1_0000
  {
  }

  /** The period of the key stream: a transmission finds its nonce again after 65536 superframes and not before. */
  lemma NoncePeriod(sf: bv16, k: nat, t: Transmission)
    ensures NonceOf(Later(sf, k), t) == NonceOf(sf, t) <==> k % 0x1_0000 == 0
  {
    NonceInjective(Later(sf, k), SlotByte(t), DirByte(t), sf, SlotByte(t), DirByte(t));
    LaterIs(sf, k);
    ValueInjective(Later(sf, k), sf);
    hide Later, Nonce, Value;
    SameResidue(Value(sf), k);
  }

  lemma SameResidue(n: nat, k: nat)
    requires n < 0x1_0000
    ensures (n + k) % 0x1_0000 == n <==> k % 0x1_0000 == 0
  {
    var q := (n + k) / 0x1_0000;
    assert n + k == 0x1_0000 * q + (n + k) % 0x1_0000;
  }

  // ----- Receiving -----

  /** pktReceive(): too short is refused, trailing bytes are ignored. */
  function Receive(layer: Layer, raw: Bytes, size: nat, sf: bv16, slot: bv8, dir: bv8): Option<Bytes> {
    if |raw| < size then None else Some(Process(layer, raw[..size], sf, slot, dir))
  }

  /** pktReceiveBeacon(): the nonce comes from the two leading bytes, which travel in the clear. */
  function ReceiveBeacon(layer: Layer, raw: Bytes, size: nat): Option<Bytes>
    requires size >= 2
  {
    if |raw| < size then None
    else Some(raw[..2] + Process(layer, raw[2..size], Word(raw[0], raw[1]), 0, DIR_BEACON))
  }

  function SendBeacon(layer: Layer, packet: Bytes, sf: bv16): Bytes
    requires |packet| >= 2
  {
    packet[..2] + Process(layer, packet[2..], sf, 0, DIR_BEACON)
  }

  /** The nonces that the layer uses are those of CounterBlocksDistinct: what each transmission sends under a key. */
  lemma NoncesInUse(aes: Cipher, sf: bv16, slot: bv8, packet: Bytes)
    requires |packet| >= 2
    ensures SendBeacon(Keyed(aes), packet, sf) == packet[..2] + Ctr(aes, NonceOf(sf, Beacon), packet[2..])
    ensures Process(Keyed(aes), packet, sf, slot, DIR_DL) == Ctr(aes, NonceOf(sf, Downlink(slot)), packet)
    ensures Process(Keyed(aes), packet, sf, slot, DIR_UL) == Ctr(aes, NonceOf(sf, Uplink(slot)), packet)
    ensures Process(Keyed(aes), packet, sf, 0, DIR_JOIN_RQ) == Ctr(aes, NonceOf(sf, JoinRequest), packet)
    ensures Process(Keyed(aes), packet, sf, 0, DIR_JOIN_AK) == Ctr(aes, NonceOf(sf, JoinAck), packet)
    ensures Process(Plain, packet, sf, slot, DIR_DL) == packet == Process(Keyless, packet, sf, slot, DIR_DL)
  {
    hide Ctr, Nonce;
  }

  /** What was encrypted is received, whatever the radio appends. */
  lemma ReceiveProcessed(layer: Layer, packet: Bytes, sf: bv16, slot: bv8, dir: bv8, noise: Bytes)
    ensures Receive(layer, Process(layer, packet, sf, slot, dir) + noise, |packet|, sf, slot, dir) == Some(packet)
  {
    hide Process;
    var sent := Process(layer, packet, sf, slot, dir);
    assert (sent + noise)[..|packet|] == sent;
    ProcessTwice(layer, packet, sf, slot, dir);
  }

  lemma ReceiveSentBeacon(layer: Layer, packet: Bytes, sf: bv16, noise: Bytes)
    requires |packet| >= 2 && packet[0] == Low(sf) && packet[1] == High(sf)
    ensures ReceiveBeacon(layer, SendBeacon(layer, packet, sf) + noise, |packet|) == Some(packet)
  {
    hide Process, Word, Low, High;
    var sealed := Process(layer, packet[2..], sf, 0, DIR_BEACON);
    var raw := SendBeacon(layer, packet, sf) + noise;
    assert raw[..2] == packet[..2] && raw[2..|packet|] == sealed;
    assert raw[0] == packet[0] && raw[1] == packet[1];
    WordRoundTrip(sf);
    ProcessTwice(layer, packet[2..], sf, 0, DIR_BEACON);
    assert packet[..2] + packet[2..] == packet;
  }

  /** mbedtls_aes_crypt_ctr() from a fresh counter block. */
  method CryptCtr(aes: Cipher, start: Block, buf: array<bv8>, off: nat, len: nat)
    requires off + len <= buf.Length
    modifies buf
    ensures forall k :: 0 <= k < buf.Length && !(off <= k < off + len) ==> buf[k] == old(buf[k])
    ensures forall k :: off <= k < off + len ==> buf[k] == Xor(old(buf[k]), KeyByte(aes, start, k - off))
  {
    hide Bump, KeyByte, Xor, Counter;
    var counter, stream, n := start, start, 0;
    ghost var q := 0;
    CounterNext(start, 0);
    for i := 0 to len
      invariant i == 16 * q + n && 0 <= n < 16
      invariant counter == Counter(start, if n == 0 then q else q + 1)
      invariant n != 0 ==> stream == aes(Counter(start, q))
      invariant forall k :: 0 <= k < buf.Length && !(off <= k < off + i) ==> buf[k] == old(buf[k])
      invariant forall k :: off <= k < off + i ==> buf[k] == Xor(old(buf[k]), KeyByte(aes, start, k - off))
    {
      if n == 0 {
        CounterNext(start, q);
        stream := aes(counter);
        counter := Bump(counter, 16);
      }
      KeyByteAt(aes, start, q, n);
      buf[off + i] := Xor(buf[off + i], stream[n]);
      n := (n + 1) % 16;
      q := if n == 0 then q + 1 else q;
    }
  }

  /** The layer as the firmware runs it: on byte buffers, in place. */
  class PacketLayer {
    const encrypted: bool
    var hasKey: bool
    var aes: Cipher

    ghost function Abstract(): Layer
      reads this
    {
      if !encrypted then Plain else if !hasKey then Keyless else Keyed(aes)
    }

    constructor (build: bool, keyLoaded: bool, cipher: Cipher)
      ensures Abstract() == if !build then Plain else if !keyLoaded then Keyless else Keyed(cipher)
    {
      encrypted, hasKey, aes := build, keyLoaded, cipher;
    }

    /** cryptoProcess() on the `len` bytes of `buf` from `off`. */
    method CryptoProcess(buf: array<bv8>, off: nat, len: nat, sf: bv16, slot: bv8, dir: bv8)
      requires off + len <= buf.Length
      modifies buf
      ensures buf[..] == old(buf[..off])
                + (if hasKey then Ctr(aes, Nonce(sf, slot, dir), old(buf[off..off + len]))
                   else old(buf[off..off + len]))
                + old(buf[off + len..])
    {
      if !hasKey || len == 0 {
        return;
      }
      hide Nonce, KeyByte, Xor;
      CryptCtr(aes, Nonce(sf, slot, dir), buf, off, len);
      assert buf[off..off + len] == Ctr(aes, Nonce(sf, slot, dir), old(buf[off..off + len]));
      assert buf[..] == old(buf[..off]) + buf[off..off + len] + old(buf[off + len..]);
    }

    /** pktEncrypt() and pktDecrypt() are the same operation. */
    method PktEncrypt(buf: array<bv8>, off: nat, len: nat, sf: bv16, slot: bv8, dir: bv8)
      requires off + len <= buf.Length
      modifies buf
      ensures buf[..] == old(buf[..off]) + Process(Abstract(), old(buf[off..off + len]), sf, slot, dir)
                + old(buf[off + len..])
    {
      if encrypted {
        CryptoProcess(buf, off, len, sf, slot, dir);
      }
    }

    method PktReceive(raw: array<bv8>, rxLen: nat, out: array<bv8>, sf: bv16, slot: bv8, dir: bv8)
      returns (ok: bool)
      requires rxLen <= raw.Length && raw != out
      modifies out
      ensures var result := Receive(Abstract(), raw[..rxLen], out.Length, sf, slot, dir);
        ok == result.Some? && out[..] == if ok then result.value else old(out[..])
    {
      hide Process;
      if rxLen < out.Length {
        return false;
      }
      ghost var heard := raw[..rxLen][..out.Length];
      var tmp := CopyOf(raw, out.Length);
      assert tmp[..0] == [] && tmp[0..tmp.Length] == heard && tmp[tmp.Length..] == [];
      PktEncrypt(tmp, 0, tmp.Length, sf, slot, dir);
      Enclosed([], Process(Abstract(), heard, sf, slot, dir));
      CopyInto(out, tmp);
      return true;
    }

    method PktReceiveBeacon(raw: array<bv8>, rxLen: nat, out: array<bv8>) returns (ok: bool)
      requires rxLen <= raw.Length && raw != out && out.Length >= 2
      modifies out
      ensures var result := ReceiveBeacon(Abstract(), raw[..rxLen], out.Length);
        ok == result.Some? && out[..] == if ok then result.value else old(out[..])
    {
      hide Process, Word;
      if rxLen < out.Length {
        return false;
      }
      ghost var heard := raw[..rxLen];
      var tmp := CopyOf(raw, out.Length);
      ghost var copy := tmp[..];
      assert copy == heard[..out.Length];
      assert tmp[..2] == copy[..2] == heard[..2] && tmp[2 + (tmp.Length - 2)..] == [];
      assert tmp[2..2 + (tmp.Length - 2)] == copy[2..] == heard[2..out.Length];
      var sf := Word(tmp[0], tmp[1]);
      assert tmp[0] == copy[0] == heard[0] && tmp[1] == copy[1] == heard[1];
      PktEncrypt(tmp, 2, tmp.Length - 2, sf, 0, DIR_BEACON);
      Enclosed(heard[..2], Process(Abstract(), heard[2..out.Length], sf, 0, DIR_BEACON));
      CopyInto(out, tmp);
      return true;
    }
  }

  lemma Enclosed(before: Bytes, part: Bytes)
    ensures before + part + [] == before + part
    ensures [] + part + [] == part
  {
  }

  /** memcpy() to a fresh buffer and into an existing one. */
  method CopyOf(src: array<bv8>, n: nat) returns (dst: array<bv8>)
    requires n <= src.Length
    ensures fresh(dst) && dst.Length == n && dst[..] == src[..n]
  {
    dst := new bv8[n];
    forall i | 0 <= i < n {
      dst[i] := src[i];
    }
  }

  method CopyInto(dst: array<bv8>, src: array<bv8>)
    requires dst.Length == src.Length
    modifies dst
    ensures dst[..] == old(src[..])
  {
    forall i | 0 <= i < dst.Length {
      dst[i] := src[i];
    }
  }
}
