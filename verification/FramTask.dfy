/**
 * The FRAM driver and its background task (src/fram_store.cpp): bytes on the chip, the
 * request queue, the snapshot buffer, and the records they come down to.
 */
module FramTask {
  import opened Protocol
  import opened Words
  import opened HistoryRing
  import opened FramLayout
  import opened FramStore

  const FRAM_MAGIC: UInt32 := 0xDEADF00D
  const FRAM_VERSION: UInt8 := 2
  const QUEUE_DEPTH := 16

  // ----- Strings in fixed buffers -----

  function StrLen(b: seq<UInt8>): (n: nat)
    ensures n <= |b|
    ensures n < |b| ==> b[n] == 0
    ensures forall i :: 0 <= i < n ==> b[i] != 0
  {
    if b == [] || b[0] == 0 then 0 else 1 + StrLen(b[1..])
  }

  function CStr(b: seq<UInt8>): seq<UInt8> {
    b[..StrLen(b)]
  }

  predicate Terminated(text: seq<UInt8>) {
    |text| == LABEL_BYTES && StrLen(text) < LABEL_BYTES
  }

  /** strlcpy(): what lies behind the terminator in `dst` stays there. */
  function StrLCpy(dst: seq<UInt8>, src: seq<UInt8>): (r: seq<UInt8>)
    requires |dst| == LABEL_BYTES && Terminated(src)
    ensures |r| == LABEL_BYTES
  {
    CStr(src) + [0] + dst[StrLen(src) + 1..]
  }

  lemma {:induction false} StrLenIs(b: seq<UInt8>, n: nat)
    requires n < |b| && b[n] == 0 && forall i :: 0 <= i < n ==> b[i] != 0
    ensures StrLen(b) == n
  {
  }

  lemma CopyKeepsString(dst: seq<UInt8>, src: seq<UInt8>)
    requires |dst| == LABEL_BYTES && Terminated(src)
    ensures Terminated(StrLCpy(dst, src)) && CStr(StrLCpy(dst, src)) == CStr(src)
    ensures StrLCpy(dst, src)[StrLen(src) + 1..] == dst[StrLen(src) + 1..]
  {
    StrLenIs(StrLCpy(dst, src), StrLen(src));
  }

  // ----- Integers as the firmware casts them -----

  function AsInt32(x: UInt32): int {
    if x < 0x8000_0000 then x else x - 0x1_0000_0000
  }

  function AsUInt32(x: int): UInt32 {
    x % 0x1_0000_0000
  }

  // ----- The part of NodeState that is persisted -----

  datatype Hint = Hint(uid: UInt16, energy: UInt32, text: seq<UInt8>,
                       histHead: int, histCount: int, history: seq<Point>)

  predicate HintShaped(h: Hint) {
    && Terminated(h.text)
    && |h.history| == HISTORY_MAX_POINTS
    && -0x8000_0000 <= h.histHead < 0x8000_0000
    && -0x8000_0000 <= h.histCount < 0x8000_0000
  }

  /** The text that a save writes, given what the snapshot buffer held before. */
  function EnergyOp(h: Hint, scratch: seq<UInt8>): (op: Op)
    requires HintShaped(h) && |scratch| == LABEL_BYTES
    ensures OpShaped(op)
  {
    Op.SaveEnergy(h.uid, h.energy, StrLCpy(scratch, h.text))
  }

  function HistoryOp(h: Hint, scratch: seq<UInt8>): (op: Op)
    requires HintShaped(h) && |scratch| == LABEL_BYTES
    ensures OpShaped(op)
  {
    Op.SaveHistory(h.uid, AsUInt32(h.histHead), AsUInt32(h.histCount),
                   StrLCpy(scratch, h.text), HistoryBytes(h.history))
  }

  function RestoreOp(h: Hint): (op: Op)
    requires HintShaped(h)
    ensures OpShaped(op)
  {
    Op.Restore(h.uid, StrLCpy(Zeros(LABEL_BYTES), h.text))
  }

  /** A label read from the chip, its last byte forced to zero. */
  function Closed(text: seq<UInt8>): (r: seq<UInt8>)
    requires |text| == LABEL_BYTES
    ensures Terminated(r)
  {
    var r := text[..LABEL_BYTES - 1] + [0];
    StrLenBound(r);
    r
  }

  /** A stored record as it comes back into memory, the last label byte forced to zero. */
  function Restored(h: Hint, b: Block): Hint
    requires HintShaped(h) && BlockShaped(b)
  {
    var text := Closed(b.nodeLabel);
    Hint(h.uid, b.energy, if text[0] != 0 then StrLCpy(h.text, text) else h.text,
         AsInt32(b.histHead), AsInt32(b.histCount), HistoryOf(b.history))
  }

  lemma {:induction false} StrLenBound(text: seq<UInt8>)
    requires |text| > 0 && text[|text| - 1] == 0
    ensures StrLen(text) < |text|
  {
  }

  // ----- Messages -----

  const SAVE_ENERGY := 0x10
  const SAVE_HISTORY := 0x20
  const RESTORE := 0x40

  function SaveMessage(idx: nat, energy: bool, history: bool): UInt8 {
    idx % 0x10 + (if energy then SAVE_ENERGY else 0) + (if history then SAVE_HISTORY else 0)
  }

  function RestoreMessage(idx: nat): UInt8 {
    idx % 0x10 + RESTORE
  }

  predicate Flag(msg: UInt8, bit: nat)
    requires bit > 0
  {
    msg / bit % 2 == 1
  }

  lemma MessageRoundTrip(idx: nat, energy: bool, history: bool)
    requires idx < MAX_NODES
    ensures var m := SaveMessage(idx, energy, history);
      m % 0x10 == idx && Flag(m, SAVE_ENERGY) == energy && Flag(m, SAVE_HISTORY) == history && !Flag(m, RESTORE)
    ensures var m := RestoreMessage(idx); m % 0x10 == idx && Flag(m, RESTORE)
    ensures RestoreMessage(idx) == 0x40 + idx && SaveMessage(idx, true, true) == 0x30 + idx
  {
  }

  // ----- Records as sequences of field writes -----

  function WithField(s: Store, k: nat, f: Field, data: seq<UInt8>): (t: Store)
    requires |s.blocks| == MAX_NODES && k < MAX_NODES && |data| == FieldBytes(f)
    ensures |t.blocks| == MAX_NODES
  {
    s.(blocks := s.blocks[k := SetField(s.blocks[k], f, data)])
  }

  /** The write index after a write for `uid` to block k. */
  function Advanced(s: Store, uid: UInt16, k: nat): (t: Store)
    requires |s.blocks| == MAX_NODES && k < MAX_NODES
    ensures t.blocks == s.blocks
  {
    s.(next := if Has(s, uid) then s.next else (k + 1) % MAX_NODES)
  }

  function WithLabel(s: Store, k: nat, text: seq<UInt8>): (t: Store)
    requires |s.blocks| == MAX_NODES && k < MAX_NODES && |text| == LABEL_BYTES
    ensures |t.blocks| == MAX_NODES
  {
    if text[0] != 0 then WithField(s, k, Label, text) else s
  }

  function EnergyWrites(s: Store, op: Op): (t: Store)
    requires |s.blocks| == MAX_NODES && OpShaped(op) && op.SaveEnergy?
  {
    var k := Target(s, op.uid);
    var a := WithField(Advanced(s, op.uid, k), k, Uid, Bytes16(op.uid));
    WithLabel(WithField(a, k, Energy, Bytes32(op.energy)), k, op.text)
  }

  function HistoryWrites(s: Store, op: Op): (t: Store)
    requires |s.blocks| == MAX_NODES && OpShaped(op) && op.SaveHistory?
  {
    var k := Target(s, op.uid);
    var a := WithField(Advanced(s, op.uid, k), k, Uid, Bytes16(op.uid));
    var b := WithField(WithField(a, k, HistHead, Bytes32(op.head)), k, HistCount, Bytes32(op.count));
    WithField(WithLabel(b, k, op.text), k, History, op.history)
  }

  function StampWrites(s: Store, op: Op): (t: Store)
    requires |s.blocks| == MAX_NODES && OpShaped(op) && op.Restore?
  {
    var k := Target(s, op.uid);
    var a := WithField(Advanced(s, op.uid, k), k, Uid, Bytes16(op.uid));
    var b := WithField(WithField(a, k, Label, op.text), k, Energy, Bytes32(0));
    WithField(WithField(b, k, HistHead, Bytes32(0)), k, HistCount, Bytes32(0))
  }

  function LabelWrites(s: Store, op: Op): (t: Store)
    requires |s.blocks| == MAX_NODES && OpShaped(op) && op.SaveLabel?
  {
    var k := Target(s, op.uid);
    WithField(WithField(Advanced(s, op.uid, k), k, Uid, Bytes16(op.uid)), k, Label, op.text)
  }

  lemma LabelWritesApply(s: Store, op: Op)
    requires |s.blocks| == MAX_NODES && OpShaped(op) && op.SaveLabel? && !Blank(op.uid)
    ensures LabelWrites(s, op) == Apply(s, op)
  {
    WordRoundTrip(op.uid);
  }

  lemma EnergyWritesApply(s: Store, op: Op)
    requires |s.blocks| == MAX_NODES && OpShaped(op) && op.SaveEnergy? && !Blank(op.uid)
    ensures EnergyWrites(s, op) == Apply(s, op)
  {
    WordRoundTrip(op.uid);
    WordRoundTrip(op.energy);
  }

  lemma HistoryWritesApply(s: Store, op: Op)
    requires |s.blocks| == MAX_NODES && OpShaped(op) && op.SaveHistory? && !Blank(op.uid)
    ensures HistoryWrites(s, op) == Apply(s, op)
  {
    WordRoundTrip(op.uid);
    WordRoundTrip(op.head);
    WordRoundTrip(op.count);
  }

  lemma StampWritesApply(s: Store, op: Op)
    requires |s.blocks| == MAX_NODES && OpShaped(op) && op.Restore? && !Blank(op.uid) && !Has(s, op.uid)
    ensures StampWrites(s, op) == Apply(s, op)
  {
    WordRoundTrip(op.uid);
    WordRoundTrip(0);
  }

  // ----- Header -----

  function HeaderSet(s: Store, at: nat, data: seq<UInt8>): Store
    requires (at == 0 && |data| == 4) || (at != 0 && |data| == 1)
  {
    if at == 0 then s.(magic := Word32(data))
    else if at == FRAM_VERSION_OFF then s.(version := data[0])
    else s.(next := data[0])
  }

  function Booted(s: Store): (r: Store)
    ensures r.magic == FRAM_MAGIC && r.version == FRAM_VERSION && r.blocks == s.blocks
    ensures r.next == if s.magic == FRAM_MAGIC && s.version == FRAM_VERSION then s.next else 0
  {
    if s.magic == FRAM_MAGIC && s.version == FRAM_VERSION then s
    else s.(magic := FRAM_MAGIC, version := FRAM_VERSION, next := 0)
  }

  // ----- The chip -----

  class Chip {
    const mem: array<UInt8>

    ghost predicate Valid()
      reads this
    {
      mem.Length == FRAM_BYTES
    }

    ghost function Contents(): (s: Store)
      reads this, mem
      requires Valid()
      ensures |s.blocks| == MAX_NODES && forall k :: 0 <= k < MAX_NODES ==> BlockShaped(s.blocks[k])
    {
      StoreOf(mem[..])
    }

    constructor (bytes: Memory)
      ensures Valid() && fresh(mem) && mem[..] == bytes
    {
      mem := new UInt8[FRAM_BYTES](i requires 0 <= i < FRAM_BYTES => bytes[i]);
    }

    method Write(at: nat, data: seq<UInt8>)
      requires Valid() && at + |data| <= FRAM_BYTES
      modifies mem
      ensures mem[..] == Overwrite(old(mem[..]), at, data)
    {
      var i := 0;
      while i < |data|
        invariant 0 <= i <= |data|
        invariant mem[..] == Overwrite(old(mem[..]), at, data[..i])
      {
        mem[at + i] := data[i];
        i := i + 1;
      }
      assert data[..i] == data;
    }

    method WriteField(k: nat, f: Field, data: seq<UInt8>)
      requires Valid() && k < MAX_NODES && |data| == FieldBytes(f)
      modifies mem
      ensures Contents() == WithField(old(Contents()), k, f, data)
    {
      hide StoreOf, Overwrite, SetField;
      FieldWriteRefines(mem[..], k, f, data);
      Write(NodeBase(k) + FieldOff(f), data);
    }

    /** framFindSlot() */
    method FindUid(uid: UInt16) returns (k: nat)
      requires Valid()
      ensures k == FindSlot(Contents().blocks, uid, 0)
    {
      hide StoreOf, FindSlot;
      k := 0;
      while k < MAX_NODES
        invariant k <= MAX_NODES
        invariant forall i :: 0 <= i < k ==> Contents().blocks[i].uid != uid
      {
        var stamp := ReadUid(k);
        if stamp == uid {
          break;
        }
        k := k + 1;
      }
      FindSlotIs(Contents().blocks, uid, k);
    }

    method ReadUid(k: nat) returns (uid: UInt16)
      requires Valid() && k < MAX_NODES
      ensures uid == Contents().blocks[k].uid
    {
      var at := NodeBase(k) + OFF_UID;
      uid := Word16([mem[at], mem[at + 1]]);
      assert [mem[at], mem[at + 1]] == Slice(mem[..], at, 2);
    }

    /**
     * framInit() on a chip that answers: a blank chip gets a header, an older layout a new
     * version byte. Either way only the write index starts over; no record is wiped.
     */
    method InitHeader()
      requires Valid()
      modifies mem
      ensures Contents() == Booted(old(Contents()))
    {
      ghost var s := Contents();
      var magic := Word32(mem[0..4]);
      assert mem[0..4] == Slice(mem[..], 0, 4);
      if magic != FRAM_MAGIC {
        WriteHeader(0, Bytes32(FRAM_MAGIC));
        WriteHeader(FRAM_VERSION_OFF, [FRAM_VERSION]);
        WriteHeader(FRAM_NEXT_WRITE_OFF, [0]);
      } else if mem[FRAM_VERSION_OFF] != FRAM_VERSION {
        WriteHeader(FRAM_VERSION_OFF, [FRAM_VERSION]);
        WriteHeader(FRAM_NEXT_WRITE_OFF, [0]);
      }
      WordRoundTrip(FRAM_MAGIC);
    }

    /** framErase() */
    method Erase()
      requires Valid()
      modifies mem
      ensures Contents() == old(Contents()).(magic := 0)
    {
      WriteHeader(0, Bytes32(0));
      WordRoundTrip(0);
    }

    method WriteHeader(at: nat, data: seq<UInt8>)
      requires Valid()
      requires (at == 0 && |data| == 4) || ((at == FRAM_VERSION_OFF || at == FRAM_NEXT_WRITE_OFF) && |data| == 1)
      modifies mem
      ensures Contents() == HeaderSet(old(Contents()), at, data)
    {
      ghost var m := mem[..];
      HeaderWriteRefines(m, at, data);
      OverwriteSlice(m, at, data, 0, 4);
      Write(at, data);
    }

    method ReadRecord(k: nat) returns (b: Block)
      requires Valid() && k < MAX_NODES
      ensures b == Contents().blocks[k] && BlockShaped(b)
    {
      var base := NodeBase(k);
      var uid := ReadUid(k);
      var text := mem[base + OFF_LABEL..base + OFF_LABEL + LABEL_BYTES];
      var energy := Word32(mem[base + OFF_ENERGY..base + OFF_ENERGY + 4]);
      var head := Word32(mem[base + OFF_HIST_HEAD..base + OFF_HIST_HEAD + 4]);
      var count := Word32(mem[base + OFF_HIST_COUNT..base + OFF_HIST_COUNT + 4]);
      var history := mem[base + OFF_HISTORY..base + OFF_HISTORY + HISTORY_BYTES];
      b := Block(uid, energy, head, count, text, history);
      ghost var m := mem[..];
      assert text == Slice(m, base + OFF_LABEL, LABEL_BYTES);
      assert mem[base + OFF_ENERGY..base + OFF_ENERGY + 4] == Slice(m, base + OFF_ENERGY, 4);
      assert mem[base + OFF_HIST_HEAD..base + OFF_HIST_HEAD + 4] == Slice(m, base + OFF_HIST_HEAD, 4);
      assert mem[base + OFF_HIST_COUNT..base + OFF_HIST_COUNT + 4] == Slice(m, base + OFF_HIST_COUNT, 4);
      assert history == Slice(m, base + OFF_HISTORY, HISTORY_BYTES);
    }

    /** framAllocFifoSlot() */
    method AllocFifoSlot() returns (k: nat)
      requires Valid()
      modifies mem
      ensures k == WriteIndex(old(Contents()))
      ensures Contents() == old(Contents()).(next := (k + 1) % MAX_NODES)
    {
      k := mem[FRAM_NEXT_WRITE_OFF] % MAX_NODES;
      ghost var before := mem[..];
      HeaderWriteRefines(before, FRAM_NEXT_WRITE_OFF, [(k + 1) % MAX_NODES]);
      Write(FRAM_NEXT_WRITE_OFF, [(k + 1) % MAX_NODES]);
      assert Slice(mem[..], 0, 4) == Slice(before, 0, 4);
    }

    method AllocForNovel(uid: UInt16) returns (k: nat)
      requires Valid() && !Has(Contents(), uid)
      modifies mem
      ensures k == Target(old(Contents()), uid)
      ensures Contents() == Advanced(old(Contents()), uid, k)
    {
      hide FindSlot, StoreOf;
      k := AllocFifoSlot();
    }

    /** Where a record for `uid` goes, the write index moved if it is new. */
    method Place(uid: UInt16) returns (k: nat)
      requires Valid()
      modifies mem
      ensures k == Target(old(Contents()), uid)
      ensures Contents() == Advanced(old(Contents()), uid, k)
    {
      k := FindUid(uid);
      if k == MAX_NODES {
        k := AllocFifoSlot();
      }
    }

    method PutEnergy(uid: UInt16, energy: UInt32, text: seq<UInt8>)
      requires Valid() && |text| == LABEL_BYTES && !Blank(uid)
      modifies mem
      ensures Contents() == Apply(old(Contents()), Op.SaveEnergy(uid, energy, text))
    {
      hide Apply, WithField, StoreOf, Has, Target, Advanced;
      EnergyWritesApply(Contents(), Op.SaveEnergy(uid, energy, text));
      var k := Place(uid);
      WriteField(k, Uid, Bytes16(uid));
      WriteField(k, Energy, Bytes32(energy));
      if text[0] != 0 {
        WriteField(k, Label, text);
      }
    }

    method PutHistory(uid: UInt16, head: UInt32, count: UInt32, text: seq<UInt8>, history: seq<UInt8>)
      requires Valid() && |text| == LABEL_BYTES && |history| == HISTORY_BYTES && !Blank(uid)
      modifies mem
      ensures Contents() == Apply(old(Contents()), Op.SaveHistory(uid, head, count, text, history))
    {
      hide Apply, WithField, StoreOf, Has, Target, Advanced;
      HistoryWritesApply(Contents(), Op.SaveHistory(uid, head, count, text, history));
      var k := Place(uid);
      WriteField(k, Uid, Bytes16(uid));
      WriteField(k, HistHead, Bytes32(head));
      WriteField(k, HistCount, Bytes32(count));
      if text[0] != 0 {
        WriteField(k, Label, text);
      }
      WriteField(k, History, history);
    }

    method PutLabel(uid: UInt16, text: seq<UInt8>)
      requires Valid() && |text| == LABEL_BYTES && !Blank(uid)
      modifies mem
      ensures Contents() == Apply(old(Contents()), Op.SaveLabel(uid, text))
    {
      hide Apply, WithField, StoreOf, Has, Target, Advanced;
      LabelWritesApply(Contents(), Op.SaveLabel(uid, text));
      var k := Place(uid);
      WriteField(k, Uid, Bytes16(uid));
      WriteField(k, Label, text);
    }

    /** Stamp of a novel node: its block is allocated here, with the given label and zero totals. */
    method Stamp(uid: UInt16, text: seq<UInt8>)
      requires Valid() && |text| == LABEL_BYTES && !Blank(uid) && !Has(Contents(), uid)
      modifies mem
      ensures Contents() == Apply(old(Contents()), Op.Restore(uid, text))
    {
      hide Apply, WithField, StoreOf, Has, Target, Advanced;
      StampWritesApply(Contents(), Op.Restore(uid, text));
      var k := AllocForNovel(uid);
      WriteField(k, Uid, Bytes16(uid));
      WriteField(k, Label, text);
      WriteField(k, Energy, Bytes32(0));
      WriteField(k, HistHead, Bytes32(0));
      WriteField(k, HistCount, Bytes32(0));
    }
  }

  // ----- What one message does -----

  datatype Persist = Persist(store: Store, hint: Hint, scratch: seq<UInt8>)

  ghost predicate PersistShaped(m: Persist) {
    && |m.store.blocks| == MAX_NODES
    && (forall k :: 0 <= k < MAX_NODES ==> BlockShaped(m.store.blocks[k]))
    && HintShaped(m.hint)
    && |m.scratch| == LABEL_BYTES
  }

  /** Chip, node state and snapshot label after a restore message for the node `m.hint`. */
  ghost function AfterRestore(m: Persist): Persist
    requires PersistShaped(m)
  {
    if Blank(m.hint.uid) then m
    else if Has(m.store, m.hint.uid) then
      var b := Record(m.store, m.hint.uid);
      Persist(m.store, Restored(m.hint, b), Closed(b.nodeLabel))
    else m.(store := Apply(m.store, RestoreOp(m.hint)))
  }

  ghost function AfterEnergy(m: Persist): Persist
    requires PersistShaped(m)
  {
    Persist(Apply(m.store, EnergyOp(m.hint, m.scratch)), m.hint, StrLCpy(m.scratch, m.hint.text))
  }

  ghost function AfterHistory(m: Persist): Persist
    requires PersistShaped(m)
  {
    Persist(Apply(m.store, HistoryOp(m.hint, m.scratch)), m.hint, StrLCpy(m.scratch, m.hint.text))
  }

  ghost function AfterLabel(m: Persist): Persist
    requires PersistShaped(m)
  {
    m.(store := Apply(m.store, Op.SaveLabel(m.hint.uid, m.hint.text)))
  }

  lemma ApplyShaped(s: Store, op: Op)
    requires |s.blocks| == MAX_NODES && OpShaped(op)
    requires forall k :: 0 <= k < MAX_NODES ==> BlockShaped(s.blocks[k])
    ensures forall k :: 0 <= k < MAX_NODES ==> BlockShaped(Apply(s, op).blocks[k])
  {
  }

  /** A save message with both flags: energy first; a blank UID ends it there. */
  ghost function AfterSave(m: Persist, energy: bool, history: bool): Persist
    requires PersistShaped(m)
  {
    ApplyShaped(m.store, EnergyOp(m.hint, m.scratch));
    var m' := if energy then AfterEnergy(m) else m;
    if history && !(energy && Blank(m.hint.uid)) then AfterHistory(m') else m'
  }

  /** The background task: its queue, its snapshot buffer, the chip and g_nodes[]. */
  class Task {
    const chip: Chip
    const nodes: array<Hint>
    var queue: seq<UInt8>
    var snapText: seq<UInt8>

    ghost predicate Valid()
      reads this, chip, nodes
    {
      && chip.Valid()
      && nodes.Length == MAX_NODES
      && (forall i :: 0 <= i < MAX_NODES ==> HintShaped(nodes[i]))
      && |queue| <= QUEUE_DEPTH
      && |snapText| == LABEL_BYTES
    }

    ghost function View(idx: nat): (m: Persist)
      reads this, chip, chip.mem, nodes
      requires Valid() && idx < MAX_NODES
      ensures PersistShaped(m)
    {
      Persist(chip.Contents(), nodes[idx], snapText)
    }

    constructor (c: Chip, hints: seq<Hint>)
      requires c.Valid() && |hints| == MAX_NODES && forall i :: 0 <= i < MAX_NODES ==> HintShaped(hints[i])
      ensures Valid() && chip == c && fresh(nodes) && nodes[..] == hints && queue == []
    {
      chip := c;
      nodes := new Hint[MAX_NODES](i requires 0 <= i < MAX_NODES => hints[i]);
      queue := [];
      snapText := Zeros(LABEL_BYTES);
    }

    /** xQueueSend() without waiting: a full queue drops the message. */
    method Send(msg: UInt8)
      requires Valid()
      modifies this`queue
      ensures Valid()
      ensures queue == if |old(queue)| < QUEUE_DEPTH then old(queue) + [msg] else old(queue)
    {
      if |queue| < QUEUE_DEPTH {
        queue := queue + [msg];
      }
    }

    method QueueSave(idx: nat, energy: bool, history: bool)
      requires Valid()
      modifies this`queue
      ensures Valid()
      ensures queue == if |old(queue)| < 16 then old(queue) + [SaveMessage(idx, energy, history)]
                       else old(queue)
    {
      Send(SaveMessage(idx, energy, history));
    }

    method QueueRestore(idx: nat)
      requires Valid()
      modifies this`queue
      ensures Valid()
      ensures queue == if |old(queue)| < 16 then old(queue) + [RestoreMessage(idx)] else old(queue)
    {
      Send(RestoreMessage(idx));
    }

    /** framSaveLabel(): straight to the chip, past queue and snapshot. */
    method SaveLabel(idx: nat)
      requires Valid() && idx < MAX_NODES
      modifies chip.mem
      ensures Valid() && View(idx) == AfterLabel(old(View(idx)))
    {
      if !Blank(nodes[idx].uid) {
        chip.PutLabel(nodes[idx].uid, nodes[idx].text);
      }
    }

    method SaveNodeEnergy(idx: nat)
      requires Valid() && idx < MAX_NODES
      modifies chip.mem, this`snapText
      ensures Valid() && View(idx) == AfterEnergy(old(View(idx)))
    {
      var ns := nodes[idx];
      snapText := StrLCpy(snapText, ns.text);
      if !Blank(ns.uid) {
        chip.PutEnergy(ns.uid, ns.energy, snapText);
      }
    }

    method SaveNodeHistory(idx: nat)
      requires Valid() && idx < MAX_NODES
      modifies chip.mem, this`snapText
      ensures Valid() && View(idx) == AfterHistory(old(View(idx)))
    {
      var ns := nodes[idx];
      snapText := StrLCpy(snapText, ns.text);
      if !Blank(ns.uid) {
        chip.PutHistory(ns.uid, AsUInt32(ns.histHead), AsUInt32(ns.histCount), snapText, HistoryBytes(ns.history));
      }
    }

    method RestoreNode(idx: nat)
      requires Valid() && idx < MAX_NODES
      modifies chip.mem, nodes, this`snapText
      ensures Valid() && View(idx) == AfterRestore(old(View(idx)))
      ensures forall i :: 0 <= i < MAX_NODES && i != idx ==> nodes[i] == old(nodes[i])
    {
      hide StoreOf, FindSlot, Apply, StrLCpy, AsInt32, HistoryOf;
      var ns := nodes[idx];
      var initLabel := StrLCpy(Zeros(LABEL_BYTES), ns.text);
      if Blank(ns.uid) {
        return;
      }
      var k := chip.FindUid(ns.uid);
      if k == MAX_NODES {
        chip.Stamp(ns.uid, initLabel);
        return;
      }
      var b := chip.ReadRecord(k);
      RestoredShaped(ns, b);
      snapText := Closed(b.nodeLabel);
      var text := if snapText[0] != 0 then StrLCpy(ns.text, snapText) else ns.text;
      nodes[idx] := Hint(ns.uid, b.energy, text, AsInt32(b.histHead), AsInt32(b.histCount), HistoryOf(b.history));
    }

    /** One pass of framTask()'s loop over the next message. */
    method ProcessNext()
      requires Valid() && queue != []
      modifies chip.mem, nodes, this`snapText, this`queue
      ensures Valid() && queue == old(queue)[1..]
      ensures var msg := old(queue)[0];
              var idx := msg % 0x10;
              idx < MAX_NODES ==>
                && View(idx) == (if Flag(msg, RESTORE) then AfterRestore(old(View(idx)))
                                 else AfterSave(old(View(idx)), Flag(msg, SAVE_ENERGY), Flag(msg, SAVE_HISTORY)))
                && forall i :: 0 <= i < MAX_NODES && i != idx ==> nodes[i] == old(nodes[i])
      ensures old(queue)[0] % 0x10 >= MAX_NODES ==> nodes[..] == old(nodes[..]) && chip.mem[..] == old(chip.mem[..])
    {
      var msg := queue[0];
      queue := queue[1..];
      var idx := msg % 0x10;
      if idx >= MAX_NODES {
        return;
      }
      if Flag(msg, RESTORE) {
        RestoreNode(idx);
        return;
      }
      if Flag(msg, SAVE_ENERGY) {
        SaveNodeEnergy(idx);
        if Blank(nodes[idx].uid) {
          return;
        }
      }
      if Flag(msg, SAVE_HISTORY) {
        SaveNodeHistory(idx);
      }
    }
  }

  lemma RestoredShaped(h: Hint, b: Block)
    requires HintShaped(h) && BlockShaped(b)
    ensures HintShaped(Restored(h, b))
  {
    CopyKeepsString(h.text, Closed(b.nodeLabel));
  }

  // ----- Saving and restoring -----

  lemma {:induction false} RunShaped(s: Store, ops: seq<Op>)
    requires |s.blocks| == MAX_NODES && OpsShaped(ops)
    requires forall k :: 0 <= k < MAX_NODES ==> BlockShaped(s.blocks[k])
    ensures forall k :: 0 <= k < MAX_NODES ==> BlockShaped(Run(s, ops).blocks[k])
    decreases |ops|
  {
    if ops != [] {
      RunShaped(s, ops[..|ops| - 1]);
      ApplyShaped(Run(s, ops[..|ops| - 1]), ops[|ops| - 1]);
    }
  }

  lemma CastRoundTrip(x: int)
    requires -0x8000_0000 <= x < 0x8000_0000
    ensures AsInt32(AsUInt32(x)) == x
  {
  }

  /** A record that holds all of a node: every field, and the label if there is one. */
  ghost predicate Mirrors(b: Block, h: Hint)
    requires HintShaped(h)
  {
    && BlockShaped(b)
    && b.energy == h.energy
    && b.histHead == AsUInt32(h.histHead)
    && b.histCount == AsUInt32(h.histCount)
    && b.history == HistoryBytes(h.history)
    && (h.text[0] != 0 ==> CStr(b.nodeLabel) == CStr(h.text) && Terminated(b.nodeLabel))
  }

  /** What a full save leaves. */
  lemma SavedRecord(m: Persist)
    requires PersistShaped(m) && DistinctStamps(m.store) && !Blank(m.hint.uid)
    ensures var t := AfterSave(m, true, true).store;
      && DistinctStamps(t)
      && Has(t, m.hint.uid)
      && Mirrors(Record(t, m.hint.uid), m.hint)
  {
    var op1 := EnergyOp(m.hint, m.scratch);
    var scratch := StrLCpy(m.scratch, m.hint.text);
    var op2 := HistoryOp(m.hint, scratch);
    var s1 := Apply(m.store, op1);
    ApplyKeepsDistinct(m.store, op1);
    ApplyKeepsDistinct(s1, op2);
    ApplyWrites(m.store, op1);
    ApplyWrites(s1, op2);
    ApplyShaped(m.store, op1);
    ApplyShaped(s1, op2);
    CopyKeepsString(m.scratch, m.hint.text);
    CopyKeepsString(scratch, m.hint.text);
  }

  lemma EnergySaved(s: Store, op: Op)
    requires |s.blocks| == MAX_NODES && OpShaped(op) && op.SaveEnergy? && DistinctStamps(s) && !Blank(op.uid)
    ensures Has(Apply(s, op), op.uid) && DistinctStamps(Apply(s, op))
    ensures var b, b' := s.blocks[Target(s, op.uid)], Record(Apply(s, op), op.uid);
      && b'.energy == op.energy
      && b'.histHead == b.histHead && b'.histCount == b.histCount && b'.history == b.history
      && b'.nodeLabel == if op.text[0] == 0 then b.nodeLabel else op.text
  {
    ApplyWrites(s, op);
    ApplyKeepsDistinct(s, op);
    hide Has, Record, DistinctStamps, Apply, Target;
  }

  lemma HistorySaved(s: Store, op: Op)
    requires |s.blocks| == MAX_NODES && OpShaped(op) && op.SaveHistory? && DistinctStamps(s) && !Blank(op.uid)
    ensures Has(Apply(s, op), op.uid) && DistinctStamps(Apply(s, op))
    ensures var b, b' := s.blocks[Target(s, op.uid)], Record(Apply(s, op), op.uid);
      && b'.energy == b.energy
      && b'.histHead == op.head && b'.histCount == op.count && b'.history == op.history
      && b'.nodeLabel == if op.text[0] == 0 then b.nodeLabel else op.text
  {
    ApplyWrites(s, op);
    ApplyKeepsDistinct(s, op);
    hide Has, Record, DistinctStamps, Apply, Target;
  }

  lemma RecordIsTarget(s: Store, uid: UInt16)
    requires |s.blocks| == MAX_NODES && Has(s, uid)
    ensures Record(s, uid) == s.blocks[Target(s, uid)]
  {
  }

  /** An empty string has no text. */
  lemma CopiedEmpty(dst: seq<UInt8>, src: seq<UInt8>)
    requires |dst| == LABEL_BYTES && Terminated(src)
    ensures StrLCpy(dst, src)[0] == 0 <==> src[0] == 0
    ensures CStr(StrLCpy(dst, src)) == CStr(src)
  {
    CopyKeepsString(dst, src);
    if src[0] == 0 {
      StrLenIs(src, 0);
    }
  }

  /**
   * Every field after a save with any flags, against the block that the device had before or that it
   * takes over: energy and history as asked for, and the label unless the entry's is empty.
   */
  lemma SavedFields(m: Persist, energy: bool, history: bool)
    requires PersistShaped(m) && DistinctStamps(m.store) && !Blank(m.hint.uid) && (energy || history)
    ensures PersistShaped(AfterSave(m, energy, history)) && Has(AfterSave(m, energy, history).store, m.hint.uid)
    ensures
      var b, h := m.store.blocks[Target(m.store, m.hint.uid)], m.hint;
      var b' := Record(AfterSave(m, energy, history).store, h.uid);
      && b'.energy == (if energy then h.energy else b.energy)
      && b'.histHead == (if history then AsUInt32(h.histHead) else b.histHead)
      && b'.histCount == (if history then AsUInt32(h.histCount) else b.histCount)
      && b'.history == (if history then HistoryBytes(h.history) else b.history)
      && (h.text[0] == 0 ==> b'.nodeLabel == b.nodeLabel)
      && (h.text[0] != 0 ==> Terminated(b'.nodeLabel) && CStr(b'.nodeLabel) == CStr(h.text))
  {
    hide Apply, Has, Record, DistinctStamps, Target, StrLCpy, HistoryBytes, AsUInt32, CStr, FindSlot;
    var m' := AfterEnergy(m);
    EnergySaved(m.store, EnergyOp(m.hint, m.scratch));
    HistorySaved(m.store, HistoryOp(m.hint, m.scratch));
    HistorySaved(m'.store, HistoryOp(m.hint, m'.scratch));
    RecordIsTarget(m'.store, m.hint.uid);
    CopiedEmpty(m.scratch, m.hint.text);
    CopiedEmpty(m'.scratch, m.hint.text);
    CopyKeepsString(m.scratch, m.hint.text);
    CopyKeepsString(m'.scratch, m.hint.text);
    ApplyShaped(m.store, EnergyOp(m.hint, m.scratch));
    ApplyShaped(m.store, HistoryOp(m.hint, m.scratch));
    ApplyShaped(m'.store, HistoryOp(m'.hint, m'.scratch));
  }

  /** A label read from the chip is the string stored there, cut to 29 characters. */
  lemma ClosedIs(text: seq<UInt8>)
    requires |text| == LABEL_BYTES
    ensures CStr(Closed(text)) == CStr(text)[..if StrLen(text) < LABEL_BYTES then StrLen(text) else LABEL_BYTES - 1]
  {
    StrLenIs(Closed(text), if StrLen(text) < LABEL_BYTES then StrLen(text) else LABEL_BYTES - 1);
  }

  lemma RecordShaped(s: Store, uid: UInt16)
    requires |s.blocks| == MAX_NODES && Has(s, uid) && forall k :: 0 <= k < MAX_NODES ==> BlockShaped(s.blocks[k])
    ensures BlockShaped(Record(s, uid))
  {
  }

  /** What a restore brings to the entry of a known device: the record, and its label unless that is empty. */
  lemma KnownRestored(m: Persist)
    requires PersistShaped(m) && !Blank(m.hint.uid) && Has(m.store, m.hint.uid)
    ensures BlockShaped(Record(m.store, m.hint.uid))
    ensures var h, out, b := m.hint, AfterRestore(m).hint, Record(m.store, m.hint.uid);
      && AfterRestore(m).store == m.store
      && out.uid == h.uid && out.energy == b.energy
      && AsUInt32(out.histHead) == b.histHead && AsUInt32(out.histCount) == b.histCount
      && out.history == HistoryOf(b.history)
      && (b.nodeLabel[0] == 0 ==> out.text == h.text)
      && (b.nodeLabel[0] != 0 ==> CStr(out.text) == CStr(Closed(b.nodeLabel)))
  {
    RecordShaped(m.store, m.hint.uid);
    hide FindSlot, StrLCpy, CStr, HistoryOf, AsInt32, AsUInt32, Has, Record, Terminated;
    var b := Record(m.store, m.hint.uid);
    CopyKeepsString(m.hint.text, Closed(b.nodeLabel));
    CastBack(b.histHead);
    CastBack(b.histCount);
  }

  /** A device without a record gets one, with zero totals and the label of its entry; the entry stays. */
  lemma NovelStamped(m: Persist)
    requires PersistShaped(m) && DistinctStamps(m.store) && !Blank(m.hint.uid) && !Has(m.store, m.hint.uid)
    ensures |AfterRestore(m).store.blocks| == MAX_NODES && Has(AfterRestore(m).store, m.hint.uid)
    ensures var b := Record(AfterRestore(m).store, m.hint.uid);
      && AfterRestore(m).hint == m.hint
      && b.energy == 0 && b.histHead == 0 && b.histCount == 0
      && Terminated(b.nodeLabel) && CStr(b.nodeLabel) == CStr(m.hint.text)
  {
    hide Apply, FindSlot, StrLCpy, CStr, Has, Record, Target, DistinctStamps, Terminated;
    CopyKeepsString(Zeros(LABEL_BYTES), m.hint.text);
    ApplyWrites(m.store, RestoreOp(m.hint));
  }

  lemma CastBack(x: UInt32)
    ensures AsUInt32(AsInt32(x)) == x
  {
  }

  /** A rename writes the label and nothing else. */
  lemma RenamedFields(m: Persist)
    requires PersistShaped(m) && DistinctStamps(m.store) && !Blank(m.hint.uid)
    ensures |AfterLabel(m).store.blocks| == MAX_NODES && Has(AfterLabel(m).store, m.hint.uid)
    ensures Record(AfterLabel(m).store, m.hint.uid)
         == m.store.blocks[Target(m.store, m.hint.uid)].(uid := m.hint.uid, nodeLabel := m.hint.text)
  {
    ApplyWrites(m.store, Op.SaveLabel(m.hint.uid, m.hint.text));
    hide Apply, Has, Record, Target, DistinctStamps;
  }

  lemma LabelReturns(before: seq<UInt8>, stored: seq<UInt8>, text: seq<UInt8>)
    requires Terminated(before) && Terminated(stored) && CStr(stored) == CStr(text)
    requires Terminated(text) && text[0] != 0
    ensures Closed(stored)[0] != 0
    ensures CStr(StrLCpy(before, Closed(stored))) == CStr(text)
  {
    StrLenIs(Closed(stored), StrLen(stored));
    CopyKeepsString(before, Closed(stored));
    assert CStr(text)[0] == text[0];
  }

  lemma RestoreMirror(saved: Hint, b: Block, h: Hint)
    requires HintShaped(saved) && HintShaped(h) && h.uid == saved.uid && Mirrors(b, saved)
    ensures Restored(h, b).(text := saved.text) == saved
    ensures saved.text[0] != 0 ==> CStr(Restored(h, b).text) == CStr(saved.text)
  {
    hide AsInt32, AsUInt32, HistoryOf, HistoryBytes, StrLCpy, CStr, Closed;
    CastRoundTrip(saved.histHead);
    CastRoundTrip(saved.histCount);
    HistoryRoundTrip(saved.history);
    if saved.text[0] != 0 {
      LabelReturns(h.text, b.nodeLabel, saved.text);
    }
  }

  /**
   * Persistence end to end: what a full save stored comes back into any node entry with the
   * same UID, unless newer devices have pushed the record out in between.
   */
  lemma SaveThenRestore(m: Persist, ops: seq<Op>, i: nat, h: Hint, scratch: seq<UInt8>)
    requires PersistShaped(m) && DistinctStamps(m.store) && !Blank(m.hint.uid)
    requires HintShaped(h) && h.uid == m.hint.uid && |scratch| == LABEL_BYTES
    requires OpsShaped(ops) && !Concerns(ops, h.uid)
    requires i < MAX_NODES && Fifo(AfterSave(m, true, true).store)[i] == h.uid
    requires Allocations(AfterSave(m, true, true).store, ops) <= i
    ensures PersistShaped(Persist(Run(AfterSave(m, true, true).store, ops), h, scratch))
    ensures var r := Run(AfterSave(m, true, true).store, ops);
            var out := AfterRestore(Persist(r, h, scratch));
      && out.store == r
      && out.hint.(text := m.hint.text) == m.hint
      && (m.hint.text[0] != 0 ==> CStr(out.hint.text) == CStr(m.hint.text))
  {
    hide AfterSave, Run, Mirrors, Record, Has, Restored, Fifo;
    SavedRecord(m);
    var t := AfterSave(m, true, true).store;
    ApplyAllShaped(m);
    RunShaped(t, ops);
    RecordSurvives(t, ops, h.uid, i);
    RestoreMirror(m.hint, Record(t, h.uid), h);
  }

  lemma ApplyAllShaped(m: Persist)
    requires PersistShaped(m)
    ensures PersistShaped(AfterSave(m, true, true))
  {
    hide Apply;
    var m' := AfterEnergy(m);
    ApplyShaped(m.store, EnergyOp(m.hint, m.scratch));
    ApplyShaped(m'.store, HistoryOp(m'.hint, m'.scratch));
  }

  /** In particular the history the web page shows is the same before and after. */
  lemma HistoryViewPersists(m: Persist, log: seq<Point>, ops: seq<Op>, i: nat, h: Hint, scratch: seq<UInt8>)
    requires PersistShaped(m) && DistinctStamps(m.store) && !Blank(m.hint.uid)
    requires Holds(m.hint.history, m.hint.histHead, m.hint.histCount, log)
    requires HintShaped(h) && h.uid == m.hint.uid && |scratch| == LABEL_BYTES
    requires OpsShaped(ops) && !Concerns(ops, h.uid)
    requires i < MAX_NODES && Fifo(AfterSave(m, true, true).store)[i] == h.uid
    requires Allocations(AfterSave(m, true, true).store, ops) <= i
    ensures PersistShaped(Persist(Run(AfterSave(m, true, true).store, ops), h, scratch))
    ensures var out := AfterRestore(Persist(Run(AfterSave(m, true, true).store, ops), h, scratch)).hint;
      && Holds(out.history, out.histHead, out.histCount, log)
      && Walk(out.history, out.histHead, out.histCount) == LastN(log, HISTORY_MAX_POINTS)
  {
    SaveThenRestore(m, ops, i, h, scratch);
    WalkIsChronological(m.hint.history, m.hint.histHead, m.hint.histCount, log);
  }
}
