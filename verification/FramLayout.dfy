/**
 * Byte layout of the FRAM chip (src/fram_store.h): a 16-byte header and eight node blocks of
 * 1968 bytes each, little-endian fields.
 */
module FramLayout {
  import opened Protocol
  import opened Words
  import opened HistoryRing

  const FRAM_BYTES := 32768
  const FRAM_VERSION_OFF := 4
  const FRAM_NEXT_WRITE_OFF := 5
  const FRAM_NODES_BASE := 0x10

  const OFF_UID := 0
  const OFF_ENERGY := 4
  const OFF_HIST_HEAD := 8
  const OFF_HIST_COUNT := 12
  const OFF_LABEL := 16
  const OFF_HISTORY := 48

  const LABEL_BYTES := 30
  const POINT_BYTES := 16
  const HISTORY_BYTES := HISTORY_MAX_POINTS * POINT_BYTES
  const NODE_BLOCK_SIZE := OFF_HISTORY + HISTORY_BYTES

  function NodeBase(k: nat): nat {
    FRAM_NODES_BASE + k * NODE_BLOCK_SIZE
  }

  /** The layout in numbers: block k starts at 16 + 1968 k. */
  lemma LayoutNumbers(k: nat)
    ensures NodeBase(k) == 16 + 1968 * k
    ensures FieldOff(Uid) == 0 && FieldOff(Energy) == 4 && FieldOff(HistHead) == 8 && FieldOff(HistCount) == 12
    ensures FieldOff(Label) == 16 && FieldOff(History) == 48
    ensures FieldBytes(Label) == 30 && FieldBytes(History) == 1920
    ensures FRAM_VERSION_OFF == 4 && FRAM_NEXT_WRITE_OFF == 5
  {
  }

  // ----- Little-endian fields -----

  function Bytes16(x: UInt16): (b: seq<UInt8>)
    ensures |b| == 2
  {
    [x % 0x100, x / 0x100]
  }

  function Word16(b: seq<UInt8>): UInt16
    requires |b| == 2
  {
    (b[0] as int) + 0x100 * (b[1] as int)
  }

  function Bytes32(x: UInt32): (b: seq<UInt8>)
    ensures |b| == 4
  {
    Bytes16(x % 0x1_0000) + Bytes16(x / 0x1_0000)
  }

  function Word32(b: seq<UInt8>): UInt32
    requires |b| == 4
  {
    (Word16(b[..2]) as int) + 0x1_0000 * (Word16(b[2..]) as int)
  }

  lemma WordRoundTrip(x: UInt32)
    ensures Word32(Bytes32(x)) == x
    ensures x < 0x1_0000 ==> Word16(Bytes16(x)) == x
  {
    assert Bytes32(x)[..2] == Bytes16(x % 0x1_0000);
    assert Bytes32(x)[2..] == Bytes16(x / 0x1_0000);
  }

  /** Least significant byte first. */
  lemma LittleEndian(b: seq<UInt8>)
    ensures |b| == 2 ==> Word16(b) == (b[0] as int) + 0x100 * (b[1] as int)
    ensures |b| == 4 ==> Word32(b) == (b[0] as int) + 0x100 * (b[1] as int)
                                      + 0x1_0000 * (b[2] as int) + 0x100_0000 * (b[3] as int)
  {
  }

  function PointBytes(p: Point): (b: seq<UInt8>)
    ensures |b| == POINT_BYTES
  {
    Bytes32(p.t) + Bytes32(p.v) + Bytes32(p.i) + Bytes32(p.p)
  }

  function PointOf(b: seq<UInt8>): Point
    requires |b| == POINT_BYTES
  {
    Point(Word32(b[..4]), Word32(b[4..8]), Word32(b[8..12]), Word32(b[12..]))
  }

  /** As the struct lies in memory: time, voltage, current, power. */
  lemma PointLayout(p: Point)
    ensures var b := PointBytes(p);
      b[..4] == Bytes32(p.t) && b[4..8] == Bytes32(p.v) && b[8..12] == Bytes32(p.i) && b[12..] == Bytes32(p.p)
  {
  }

  lemma PointRoundTrip(p: Point)
    ensures PointOf(PointBytes(p)) == p
  {
    var b := PointBytes(p);
    assert b[..4] == Bytes32(p.t) && b[4..8] == Bytes32(p.v);
    assert b[8..12] == Bytes32(p.i) && b[12..] == Bytes32(p.p);
    WordRoundTrip(p.t);
    WordRoundTrip(p.v);
    WordRoundTrip(p.i);
    WordRoundTrip(p.p);
  }

  function HistoryBytes(ps: seq<Point>): (b: seq<UInt8>)
    ensures |b| == POINT_BYTES * |ps|
  {
    if ps == [] then [] else HistoryBytes(ps[..|ps| - 1]) + PointBytes(ps[|ps| - 1])
  }

  function HistoryOf(b: seq<UInt8>): (ps: seq<Point>)
    requires |b| % POINT_BYTES == 0
    ensures |ps| == |b| / POINT_BYTES
  {
    seq(|b| / POINT_BYTES, i requires 0 <= i < |b| / POINT_BYTES =>
      PointOf(b[POINT_BYTES * i..POINT_BYTES * i + POINT_BYTES]))
  }

  lemma {:induction false} HistoryRoundTrip(ps: seq<Point>)
    ensures HistoryOf(HistoryBytes(ps)) == ps
  {
    forall i | 0 <= i < |ps|
      ensures HistoryOf(HistoryBytes(ps))[i] == ps[i]
    {
      HistoryBytesAt(ps, i);
      PointRoundTrip(ps[i]);
    }
  }

  lemma {:induction false} HistoryBytesAt(ps: seq<Point>, i: nat)
    requires i < |ps|
    ensures HistoryBytes(ps)[POINT_BYTES * i..POINT_BYTES * i + POINT_BYTES] == PointBytes(ps[i])
  {
    var before := ps[..|ps| - 1];
    if i < |before| {
      HistoryBytesAt(before, i);
      assert HistoryBytes(ps)[POINT_BYTES * i..POINT_BYTES * i + POINT_BYTES]
          == HistoryBytes(before)[POINT_BYTES * i..POINT_BYTES * i + POINT_BYTES];
    }
  }

  // ----- Blocks -----

  datatype Block = Block(uid: UInt16, energy: UInt32, histHead: UInt32, histCount: UInt32,
                         nodeLabel: seq<UInt8>, history: seq<UInt8>)

  type Memory = m: seq<UInt8> | |m| == FRAM_BYTES witness seq(FRAM_BYTES, i => 0)

  function Slice(m: Memory, at: nat, n: nat): (b: seq<UInt8>)
    requires at + n <= FRAM_BYTES
    ensures |b| == n
  {
    m[at..at + n]
  }

  predicate BlockShaped(b: Block) {
    |b.nodeLabel| == LABEL_BYTES && |b.history| == HISTORY_BYTES
  }

  function BlockAt(m: Memory, k: nat): (b: Block)
    requires k < MAX_NODES
    ensures BlockShaped(b)
  {
    var base := NodeBase(k);
    Block(Word16(Slice(m, base + OFF_UID, 2)),
          Word32(Slice(m, base + OFF_ENERGY, 4)),
          Word32(Slice(m, base + OFF_HIST_HEAD, 4)),
          Word32(Slice(m, base + OFF_HIST_COUNT, 4)),
          Slice(m, base + OFF_LABEL, LABEL_BYTES),
          Slice(m, base + OFF_HISTORY, HISTORY_BYTES))
  }

  function Overwrite(m: Memory, at: nat, data: seq<UInt8>): Memory
    requires at + |data| <= FRAM_BYTES
  {
    m[..at] + data + m[at + |data|..]
  }

  lemma OverwriteSlice(m: Memory, at: nat, data: seq<UInt8>, lo: nat, n: nat)
    requires at + |data| <= FRAM_BYTES && lo + n <= FRAM_BYTES
    ensures lo + n <= at || at + |data| <= lo ==> Slice(Overwrite(m, at, data), lo, n) == Slice(m, lo, n)
    ensures lo == at && n == |data| ==> Slice(Overwrite(m, at, data), lo, n) == data
  {
  }

  /** A write outside block j leaves it alone. */
  lemma BlockKept(m: Memory, at: nat, data: seq<UInt8>, j: nat)
    requires at + |data| <= FRAM_BYTES && j < MAX_NODES
    requires at + |data| <= NodeBase(j) || NodeBase(j) + NODE_BLOCK_SIZE <= at
    ensures BlockAt(Overwrite(m, at, data), j) == BlockAt(m, j)
  {
    hide Overwrite, Word16, Word32, Slice;
    var b := NodeBase(j);
    OverwriteSlice(m, at, data, b + OFF_UID, 2);
    OverwriteSlice(m, at, data, b + OFF_ENERGY, 4);
    OverwriteSlice(m, at, data, b + OFF_HIST_HEAD, 4);
    OverwriteSlice(m, at, data, b + OFF_HIST_COUNT, 4);
    OverwriteSlice(m, at, data, b + OFF_LABEL, LABEL_BYTES);
    OverwriteSlice(m, at, data, b + OFF_HISTORY, HISTORY_BYTES);
  }

  /** The eight blocks lie behind the header, side by side, inside the chip. */
  lemma BlocksDisjoint(j: nat, k: nat)
    requires j < k < MAX_NODES
    ensures FRAM_NODES_BASE <= NodeBase(j)
    ensures NodeBase(j) + NODE_BLOCK_SIZE <= NodeBase(k)
    ensures NodeBase(k) + NODE_BLOCK_SIZE <= FRAM_BYTES
  {
  }

  datatype Field = Uid | Energy | HistHead | HistCount | Label | History

  function FieldOff(f: Field): nat {
    match f
    case Uid => OFF_UID
    case Energy => OFF_ENERGY
    case HistHead => OFF_HIST_HEAD
    case HistCount => OFF_HIST_COUNT
    case Label => OFF_LABEL
    case History => OFF_HISTORY
  }

  function FieldBytes(f: Field): nat {
    match f
    case Uid => 2
    case Energy => 4
    case HistHead => 4
    case HistCount => 4
    case Label => LABEL_BYTES
    case History => HISTORY_BYTES
  }

  function SetField(b: Block, f: Field, data: seq<UInt8>): Block
    requires |data| == FieldBytes(f)
  {
    match f
    case Uid => b.(uid := Word16(data))
    case Energy => b.(energy := Word32(data))
    case HistHead => b.(histHead := Word32(data))
    case HistCount => b.(histCount := Word32(data))
    case Label => b.(nodeLabel := data)
    case History => b.(history := data)
  }

  /** A field write changes that field of its block and no other byte of the layout. */
  lemma FieldWritten(m: Memory, k: nat, f: Field, data: seq<UInt8>)
    requires k < MAX_NODES && |data| == FieldBytes(f)
    ensures NodeBase(k) + FieldOff(f) + |data| <= FRAM_BYTES
    ensures BlockAt(Overwrite(m, NodeBase(k) + FieldOff(f), data), k) == SetField(BlockAt(m, k), f, data)
  {
    hide Overwrite, Word16, Word32, Slice;
    var at, b := NodeBase(k) + FieldOff(f), NodeBase(k);
    OverwriteSlice(m, at, data, b + OFF_UID, 2);
    OverwriteSlice(m, at, data, b + OFF_ENERGY, 4);
    OverwriteSlice(m, at, data, b + OFF_HIST_HEAD, 4);
    OverwriteSlice(m, at, data, b + OFF_HIST_COUNT, 4);
    OverwriteSlice(m, at, data, b + OFF_LABEL, LABEL_BYTES);
    OverwriteSlice(m, at, data, b + OFF_HISTORY, HISTORY_BYTES);
  }

  // ----- The whole chip as a value -----

  datatype Store = Store(magic: UInt32, version: UInt8, next: UInt8, blocks: seq<Block>)

  function StoreOf(m: Memory): (s: Store)
    ensures |s.blocks| == MAX_NODES && forall k :: 0 <= k < MAX_NODES ==> BlockShaped(s.blocks[k])
  {
    Store(Word32(Slice(m, 0, 4)), m[FRAM_VERSION_OFF], m[FRAM_NEXT_WRITE_OFF],
          seq(MAX_NODES, k requires 0 <= k < MAX_NODES => BlockAt(m, k)))
  }

  lemma HeaderKept(m: Memory, at: nat, data: seq<UInt8>)
    requires FRAM_NODES_BASE <= at && at + |data| <= FRAM_BYTES
    ensures StoreOf(Overwrite(m, at, data)) == StoreOf(m).(blocks := StoreOf(Overwrite(m, at, data)).blocks)
  {
    OverwriteSlice(m, at, data, 0, 4);
  }

  lemma FieldWriteOther(m: Memory, k: nat, f: Field, data: seq<UInt8>, j: nat)
    requires k < MAX_NODES && |data| == FieldBytes(f) && j < MAX_NODES && j != k
    ensures NodeBase(k) + FieldOff(f) + |data| <= FRAM_BYTES
    ensures BlockAt(Overwrite(m, NodeBase(k) + FieldOff(f), data), j) == BlockAt(m, j)
  {
    hide Overwrite, BlockAt;
    if j < k { BlocksDisjoint(j, k); } else { BlocksDisjoint(k, j); }
    BlockKept(m, NodeBase(k) + FieldOff(f), data, j);
  }

  /** Writing a field of a block at byte level is updating that field of that record. */
  lemma FieldWriteRefines(m: Memory, k: nat, f: Field, data: seq<UInt8>)
    requires k < MAX_NODES && |data| == FieldBytes(f)
    ensures NodeBase(k) + FieldOff(f) + |data| <= FRAM_BYTES
    ensures StoreOf(Overwrite(m, NodeBase(k) + FieldOff(f), data))
         == StoreOf(m).(blocks := StoreOf(m).blocks[k := SetField(StoreOf(m).blocks[k], f, data)])
  {
    hide BlockAt, SetField, Overwrite;
    FieldWritten(m, k, f, data);
    HeaderKept(m, NodeBase(k) + FieldOff(f), data);
    var s, s' := StoreOf(m), StoreOf(Overwrite(m, NodeBase(k) + FieldOff(f), data));
    forall j | 0 <= j < MAX_NODES && j != k
      ensures s'.blocks[j] == s.blocks[j]
    {
      FieldWriteOther(m, k, f, data, j);
    }
    assert s'.blocks == s.blocks[k := SetField(s.blocks[k], f, data)];
  }

  /** Header fields: the write index, the version and the magic number. */
  lemma HeaderWriteRefines(m: Memory, at: nat, data: seq<UInt8>)
    requires at + |data| <= FRAM_NODES_BASE
    ensures StoreOf(Overwrite(m, at, data)).blocks == StoreOf(m).blocks
  {
    var m' := Overwrite(m, at, data);
    forall j | 0 <= j < MAX_NODES
      ensures BlockAt(m', j) == BlockAt(m, j)
    {
      BlockKept(m, at, data, j);
    }
  }
}
