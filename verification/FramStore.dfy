/**
 * The FRAM contents as eight records keyed by device UID with FIFO replacement: what the
 * save and restore messages of src/fram_store.cpp do to them, and why that is a bounded
 * first-in-first-out map.
 */
module FramStore {
  import opened Protocol
  import opened Words
  import opened FramLayout

  /** UIDs that the store refuses to keep; they mark a block as empty. */
  predicate Blank(uid: UInt16) {
    uid == 0 || uid == 0xFFFF
  }

  type Blocks = b: seq<Block> | |b| == MAX_NODES
    witness seq(MAX_NODES, i => Block(0, 0, 0, 0, [], []))

  /** First block at or after `k` stamped with `uid`, or MAX_NODES. */
  function FindSlot(blocks: Blocks, uid: UInt16, k: nat): (r: nat)
    requires k <= MAX_NODES
    ensures k <= r <= MAX_NODES
    ensures r < MAX_NODES ==> blocks[r].uid == uid
    ensures forall i :: k <= i < r ==> blocks[i].uid != uid
    decreases MAX_NODES - k
  {
    if k == MAX_NODES || blocks[k].uid == uid then k else FindSlot(blocks, uid, k + 1)
  }

  lemma FindSlotIs(blocks: Blocks, uid: UInt16, k: nat)
    requires k <= MAX_NODES && (k < MAX_NODES ==> blocks[k].uid == uid)
    requires forall i :: 0 <= i < k ==> blocks[i].uid != uid
    ensures FindSlot(blocks, uid, 0) == k
  {
  }

  predicate Has(s: Store, uid: UInt16)
    requires |s.blocks| == MAX_NODES
  {
    FindSlot(s.blocks, uid, 0) < MAX_NODES
  }

  function WriteIndex(s: Store): nat {
    s.next % MAX_NODES
  }

  /** Block that a write for `uid` goes to: its own, or the oldest one. */
  function Target(s: Store, uid: UInt16): (k: nat)
    requires |s.blocks| == MAX_NODES
    ensures k < MAX_NODES
  {
    if Has(s, uid) then FindSlot(s.blocks, uid, 0) else WriteIndex(s)
  }

  function Put(s: Store, uid: UInt16, b: Block): (r: Store)
    requires |s.blocks| == MAX_NODES
    ensures |r.blocks| == MAX_NODES
  {
    s.(next := if Has(s, uid) then s.next else (WriteIndex(s) + 1) % MAX_NODES,
       blocks := s.blocks[Target(s, uid) := b])
  }

  /** Everything that writes records; `history` is the raw bytes of the ring. */
  datatype Op =
    | SaveEnergy(uid: UInt16, energy: UInt32, text: seq<UInt8>)
    | SaveHistory(uid: UInt16, head: UInt32, count: UInt32, text: seq<UInt8>, history: seq<UInt8>)
    | Restore(uid: UInt16, text: seq<UInt8>)
    | SaveLabel(uid: UInt16, text: seq<UInt8>)

  predicate OpShaped(op: Op) {
    |op.text| == LABEL_BYTES && (op.SaveHistory? ==> |op.history| == HISTORY_BYTES)
  }

  /** An empty label, as left by an eviction, does not erase a stored one. */
  function KeepLabel(kept: seq<UInt8>, text: seq<UInt8>): seq<UInt8>
    requires |text| == LABEL_BYTES
  {
    if text[0] != 0 then text else kept
  }

  function Written(b: Block, op: Op): Block
    requires OpShaped(op)
  {
    match op
    case SaveEnergy(uid, energy, text) =>
      b.(uid := uid, energy := energy, nodeLabel := KeepLabel(b.nodeLabel, text))
    case SaveHistory(uid, head, count, text, history) =>
      b.(uid := uid, histHead := head, histCount := count, nodeLabel := KeepLabel(b.nodeLabel, text),
         history := history)
    case Restore(uid, text) =>
      b.(uid := uid, nodeLabel := text, energy := 0, histHead := 0, histCount := 0)
    case SaveLabel(uid, text) => b.(uid := uid, nodeLabel := text)
  }

  /** A restore of a known UID only reads; blank UIDs are refused. */
  function Apply(s: Store, op: Op): (r: Store)
    requires |s.blocks| == MAX_NODES && OpShaped(op)
    ensures |r.blocks| == MAX_NODES
  {
    if Blank(op.uid) || (op.Restore? && Has(s, op.uid)) then s
    else Put(s, op.uid, Written(s.blocks[Target(s, op.uid)], op))
  }

  predicate Allocates(s: Store, op: Op)
    requires |s.blocks| == MAX_NODES
  {
    !Blank(op.uid) && !Has(s, op.uid)
  }

  // ----- First in, first out -----

  /** The eight UID stamps, oldest allocation first. */
  function Fifo(s: Store): (q: seq<UInt16>)
    requires |s.blocks| == MAX_NODES
    ensures |q| == MAX_NODES
  {
    seq<UInt16>(MAX_NODES, i requires 0 <= i < MAX_NODES => s.blocks[Around(WriteIndex(s), i)].uid)
  }

  /** `(w + i) % MAX_NODES` */
  function Around(w: nat, i: nat): (k: nat)
    requires w < MAX_NODES && i < MAX_NODES
    ensures k < MAX_NODES
  {
    if w + i < MAX_NODES then w + i else w + i - MAX_NODES
  }

  /** A bounded queue of keys: a new key pushes the oldest one out. */
  function Push(q: seq<UInt16>, uid: UInt16): seq<UInt16>
    requires |q| == MAX_NODES
  {
    if uid in q then q else q[1..] + [uid]
  }

  lemma HasIsMembership(s: Store, uid: UInt16)
    requires |s.blocks| == MAX_NODES
    ensures Has(s, uid) <==> uid in Fifo(s)
  {
    var w := WriteIndex(s);
    if Has(s, uid) {
      var k := FindSlot(s.blocks, uid, 0);
      var i := if k >= w then k - w else k + MAX_NODES - w;
      assert Around(w, i) == k;
      assert Fifo(s)[i] == uid;
    }
  }

  /** Refinement: every message is a push of its UID on the queue of stamps. */
  lemma ApplyIsPush(s: Store, op: Op)
    requires |s.blocks| == MAX_NODES && OpShaped(op) && !Blank(op.uid)
    ensures Fifo(Apply(s, op)) == Push(Fifo(s), op.uid)
  {
    HasIsMembership(s, op.uid);
    PutStamps(s, op);
    var t := Apply(s, op);
    var w := WriteIndex(s);
    hide Apply;
    if Has(s, op.uid) {
      assert Fifo(t) == Fifo(s);
    } else {
      assert WriteIndex(t) == Around(w, 1);
      forall i | 0 <= i < MAX_NODES
        ensures Fifo(t)[i] == (Fifo(s)[1..] + [op.uid])[i]
      {
        if i < MAX_NODES - 1 {
          assert Around(WriteIndex(t), i) == Around(w, i + 1);
        } else {
          assert Around(WriteIndex(t), i) == w;
        }
      }
    }
  }

  lemma PutStamps(s: Store, op: Op)
    requires |s.blocks| == MAX_NODES && OpShaped(op) && !Blank(op.uid)
    ensures var t := Apply(s, op);
      && WriteIndex(t) == (if Has(s, op.uid) then WriteIndex(s) else Around(WriteIndex(s), 1))
      && forall k :: 0 <= k < MAX_NODES ==>
           t.blocks[k].uid == if !Has(s, op.uid) && k == WriteIndex(s) then op.uid else s.blocks[k].uid
  {
  }

  /** Stamps in use are pairwise distinct. */
  ghost predicate DistinctStamps(s: Store)
    requires |s.blocks| == MAX_NODES
  {
    forall i, j :: 0 <= i < j < MAX_NODES && !Blank(s.blocks[i].uid) ==> s.blocks[i].uid != s.blocks[j].uid
  }

  lemma ApplyKeepsDistinct(s: Store, op: Op)
    requires |s.blocks| == MAX_NODES && OpShaped(op) && DistinctStamps(s)
    ensures DistinctStamps(Apply(s, op))
  {
  }

  /** The record kept for `uid`. */
  function Record(s: Store, uid: UInt16): Block
    requires |s.blocks| == MAX_NODES && Has(s, uid)
  {
    s.blocks[FindSlot(s.blocks, uid, 0)]
  }

  /**
   * A message changes only the record of its own UID; the one other record that can go is
   * the oldest, when a new UID comes in.
   */
  lemma ApplyIsLocal(s: Store, op: Op, uid: UInt16)
    requires |s.blocks| == MAX_NODES && OpShaped(op) && DistinctStamps(s)
    requires Has(s, uid) && uid != op.uid && !Blank(uid)
    ensures Has(Apply(s, op), uid) <==> !(Allocates(s, op) && Fifo(s)[0] == uid)
    ensures Has(Apply(s, op), uid) ==> Record(Apply(s, op), uid) == Record(s, uid)
  {
    var k := FindSlot(s.blocks, uid, 0);
    var t := Apply(s, op);
    assert Fifo(s)[0] == s.blocks[WriteIndex(s)].uid;
    OthersKept(s, op, uid);
    if Allocates(s, op) && Fifo(s)[0] == uid {
      assert k == WriteIndex(s);
    } else {
      assert FindSlot(t.blocks, uid, 0) == k;
    }
  }

  lemma OthersKept(s: Store, op: Op, uid: UInt16)
    requires |s.blocks| == MAX_NODES && OpShaped(op) && uid != op.uid
    ensures var t := Apply(s, op);
      forall k :: 0 <= k < MAX_NODES && !(Allocates(s, op) && k == WriteIndex(s)) ==>
        (t.blocks[k].uid == uid <==> s.blocks[k].uid == uid) && (s.blocks[k].uid == uid ==> t.blocks[k] == s.blocks[k])
    ensures Allocates(s, op) ==> Apply(s, op).blocks[WriteIndex(s)].uid != uid
  {
  }

  /** And its own record is the one written, whether found or newly allocated. */
  lemma ApplyWrites(s: Store, op: Op)
    requires |s.blocks| == MAX_NODES && OpShaped(op) && DistinctStamps(s) && !Blank(op.uid)
    ensures Has(Apply(s, op), op.uid)
    ensures !(op.Restore? && Has(s, op.uid)) ==>
              Record(Apply(s, op), op.uid) == Written(s.blocks[Target(s, op.uid)], op)
    ensures op.Restore? && Has(s, op.uid) ==> Apply(s, op) == s
  {
    var t := Apply(s, op);
    var k := Target(s, op.uid);
    assert t.blocks[k].uid == op.uid;
    assert forall i :: 0 <= i < k ==> t.blocks[i].uid != op.uid;
    assert FindSlot(t.blocks, op.uid, 0) == k;
  }

  // ----- Runs -----

  ghost predicate OpsShaped(ops: seq<Op>) {
    forall k :: 0 <= k < |ops| ==> OpShaped(ops[k])
  }

  function Run(s: Store, ops: seq<Op>): (t: Store)
    requires |s.blocks| == MAX_NODES && OpsShaped(ops)
    ensures |t.blocks| == MAX_NODES
    decreases |ops|
  {
    if ops == [] then s else Apply(Run(s, ops[..|ops| - 1]), ops[|ops| - 1])
  }

  function Allocations(s: Store, ops: seq<Op>): nat
    requires |s.blocks| == MAX_NODES && OpsShaped(ops)
    decreases |ops|
  {
    if ops == [] then 0
    else Allocations(s, ops[..|ops| - 1]) + if Allocates(Run(s, ops[..|ops| - 1]), ops[|ops| - 1]) then 1 else 0
  }

  lemma {:induction false} RunKeepsDistinct(s: Store, ops: seq<Op>)
    requires |s.blocks| == MAX_NODES && OpsShaped(ops) && DistinctStamps(s)
    ensures DistinctStamps(Run(s, ops))
    decreases |ops|
  {
    if ops != [] {
      RunKeepsDistinct(s, ops[..|ops| - 1]);
      ApplyKeepsDistinct(Run(s, ops[..|ops| - 1]), ops[|ops| - 1]);
    }
  }

  /** A run shifts the queue by one position per allocation. */
  lemma {:induction false} RunShifts(s: Store, ops: seq<Op>, i: nat)
    requires |s.blocks| == MAX_NODES && OpsShaped(ops)
    requires Allocations(s, ops) <= i < MAX_NODES
    ensures Fifo(Run(s, ops))[i - Allocations(s, ops)] == Fifo(s)[i]
    decreases |ops|
  {
    if ops != [] {
      var before, op := ops[..|ops| - 1], ops[|ops| - 1];
      RunShifts(s, before, i);
      if !Blank(op.uid) {
        ApplyIsPush(Run(s, before), op);
        HasIsMembership(Run(s, before), op.uid);
      }
    }
  }

  predicate Concerns(ops: seq<Op>, uid: UInt16) {
    exists k :: 0 <= k < |ops| && ops[k].uid == uid
  }

  /**
   * Lifetime of a record. With `uid` at position `i` of the queue, messages for other
   * devices leave its record untouched through i allocations; the next one replaces it.
   */
  lemma {:induction false} RecordSurvives(s: Store, ops: seq<Op>, uid: UInt16, i: nat)
    requires |s.blocks| == MAX_NODES && OpsShaped(ops) && DistinctStamps(s)
    requires i < MAX_NODES && Fifo(s)[i] == uid && !Blank(uid) && !Concerns(ops, uid)
    ensures Allocations(s, ops) <= i ==>
              Has(s, uid) && Has(Run(s, ops), uid) && Record(Run(s, ops), uid) == Record(s, uid)
    ensures Allocations(s, ops) > i ==> !Has(Run(s, ops), uid)
    decreases |ops|
  {
    HasIsMembership(s, uid);
    if ops != [] {
      var before, op := ops[..|ops| - 1], ops[|ops| - 1];
      var m := Run(s, before);
      RunKeepsDistinct(s, before);
      assert op.uid != uid;
      assert !Concerns(before, uid) by {
        assert forall k :: 0 <= k < |before| ==> before[k] == ops[k];
      }
      RecordSurvives(s, before, uid, i);
      if Allocations(s, before) <= i {
        ApplyIsLocal(m, op, uid);
        RunShifts(s, before, i);
        FrontIsOldest(m, uid, i - Allocations(s, before));
      } else {
        StaysAway(m, op, uid);
      }
    }
  }

  lemma FrontIsOldest(s: Store, uid: UInt16, i: nat)
    requires |s.blocks| == MAX_NODES && DistinctStamps(s) && i < MAX_NODES && Fifo(s)[i] == uid && !Blank(uid)
    ensures Fifo(s)[0] == uid <==> i == 0
  {
  }

  lemma StaysAway(s: Store, op: Op, uid: UInt16)
    requires |s.blocks| == MAX_NODES && OpShaped(op) && !Has(s, uid) && op.uid != uid
    ensures !Has(Apply(s, op), uid)
  {
  }

  /** A freshly allocated record survives exactly the next seven allocations. */
  lemma SevenThenGone(s: Store, op: Op, ops: seq<Op>)
    requires |s.blocks| == MAX_NODES && DistinctStamps(s) && OpShaped(op) && OpsShaped(ops)
    requires Allocates(s, op) && !Concerns(ops, op.uid)
    ensures var t := Apply(s, op);
      && (Allocations(t, ops) <= 7 ==>
            Has(Run(t, ops), op.uid) && Has(t, op.uid) && Record(Run(t, ops), op.uid) == Record(t, op.uid))
      && (Allocations(t, ops) >= 8 ==> !Has(Run(t, ops), op.uid))
  {
    HasIsMembership(s, op.uid);
    ApplyIsPush(s, op);
    ApplyKeepsDistinct(s, op);
    RecordSurvives(Apply(s, op), ops, op.uid, 7);
  }
}
