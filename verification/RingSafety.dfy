/**
 * The write index of the history ring comes back from the chip unchecked (src/fram_store.cpp),
 * and addHistory() writes where it points. Here is for which chips every run keeps it inside the
 * ring.
 */
module RingSafety {
  import opened Protocol
  import opened Words
  import opened HistoryRing
  import opened FramLayout
  import opened FramStore
  import opened FramTask
  import opened CrashLoss

  predicate InRing(h: Hint) {
    0 <= h.histHead < HISTORY_MAX_POINTS && 0 <= h.histCount <= HISTORY_MAX_POINTS
  }

  ghost predicate AllInRing(s: State)
    requires Shaped(s)
  {
    forall i :: 0 <= i < MAX_NODES ==> InRing(s.nodes[i])
  }

  predicate SoundBlock(b: Block) {
    b.histHead < HISTORY_MAX_POINTS && b.histCount <= HISTORY_MAX_POINTS
  }

  /** All eight blocks, those without a stamp as well. */
  ghost predicate SoundChip(s: Store)
    requires |s.blocks| == MAX_NODES
  {
    forall k :: 0 <= k < MAX_NODES ==> SoundBlock(s.blocks[k])
  }

  /** What addHistory() does to write index and count. */
  predicate Appends(before: Hint, after: Hint) {
    && after.histHead == (before.histHead + 1) % HISTORY_MAX_POINTS
    && after.histCount == Min(before.histCount + 1, HISTORY_MAX_POINTS)
  }

  /** Every packet goes through addHistory(), as long as its write stays inside the ring. */
  ghost predicate Recording(s: State, evs: seq<Event>)
    requires Shaped(s) && Fitting(s, evs)
    decreases |evs|
  {
    evs != [] ==>
      var before, e := evs[..|evs| - 1], evs[|evs| - 1];
      && Recording(s, before)
      && (e.Accept? && InRing(CrashLoss.Run(s, before).nodes[e.i]) ==>
            Appends(CrashLoss.Run(s, before).nodes[e.i], e.after))
  }

  // ----- A sound chip stays sound -----

  lemma ApplySound(s: Store, op: Op)
    requires |s.blocks| == MAX_NODES && OpShaped(op) && SoundChip(s)
    requires op.SaveHistory? ==> op.head < HISTORY_MAX_POINTS && op.count <= HISTORY_MAX_POINTS
    ensures SoundChip(Apply(s, op))
  {
  }

  lemma RecordSound(s: Store, uid: UInt16)
    requires |s.blocks| == MAX_NODES && Has(s, uid)
    ensures SoundChip(s) ==> SoundBlock(Record(s, uid))
    ensures (forall k :: 0 <= k < MAX_NODES ==> BlockShaped(s.blocks[k])) ==> BlockShaped(Record(s, uid))
  {
  }

  lemma RestoredInRing(h: Hint, b: Block)
    requires HintShaped(h) && BlockShaped(b)
    ensures InRing(Restored(h, b)) <==> SoundBlock(b)
  {
    hide StrLCpy, Closed, HistoryOf, HintShaped, BlockShaped;
  }

  lemma HandledSound(s: State, msg: UInt8)
    requires Shaped(s) && msg % 0x10 < MAX_NODES && SoundChip(s.store) && InRing(s.nodes[msg % 0x10])
    ensures SoundChip(Handled(s, msg).store) && InRing(Handled(s, msg).hint)
  {
    hide Apply, Has, Record, SoundChip, SoundBlock, StrLCpy, HistoryBytes, Restored, Flag;
    var h := s.nodes[msg % 0x10];
    ApplySound(s.store, RestoreOp(h));
    ApplySound(s.store, EnergyOp(h, s.scratch));
    ApplySound(s.store, HistoryOp(h, s.scratch));
    var m := AfterEnergy(Persist(s.store, h, s.scratch));
    ApplySound(m.store, HistoryOp(h, m.scratch));
    if Has(s.store, h.uid) {
      RecordSound(s.store, h.uid);
      RestoredInRing(h, Record(s.store, h.uid));
    }
  }

  lemma StepSound(s: State, e: Event)
    requires Shaped(s) && Possible(s, e) && AllInRing(s) && SoundChip(s.store)
    requires e.Accept? && InRing(s.nodes[e.i]) ==> Appends(s.nodes[e.i], e.after)
    ensures AllInRing(Step(s, e)) && SoundChip(Step(s, e).store)
  {
    hide Apply, SoundChip, DrainStep, Books, StrLCpy, Messages, HintShaped, BlockShaped;
    if e.Rename? {
      ApplySound(s.store, Op.SaveLabel(s.nodes[e.i].uid, Relabelled(s.nodes[e.i], e.text).text));
    } else if e.Drain? {
      DrainSound(s);
    }
  }

  lemma DrainSound(s: State)
    requires Shaped(s) && AllInRing(s) && SoundChip(s.store)
    ensures AllInRing(DrainStep(s)) && SoundChip(DrainStep(s).store)
  {
    hide SoundChip, Handled, Books, OwnBook, HintShaped, BlockShaped;
    if s.queue != [] && s.queue[0] % 0x10 < MAX_NODES {
      HandledSound(s, s.queue[0]);
    }
  }

  lemma {:induction false} RunSound(s: State, evs: seq<Event>)
    requires Shaped(s) && Fitting(s, evs) && Recording(s, evs) && AllInRing(s) && SoundChip(s.store)
    ensures AllInRing(CrashLoss.Run(s, evs)) && SoundChip(CrashLoss.Run(s, evs).store)
    decreases |evs|
  {
    hide Step, Possible, Fits, SoundChip, Appends;
    if evs != [] {
      var before, e := evs[..|evs| - 1], evs[|evs| - 1];
      RunSound(s, before);
      StepSound(CrashLoss.Run(s, before), e);
    }
  }

  // ----- Any other chip does not -----

  /** Some number of `from, ..., from + |q|` is not in `q`. */
  lemma {:induction false} Unused(q: seq<UInt16>, from: nat) returns (u: nat)
    ensures from <= u <= from + |q| && forall k :: 0 <= k < |q| ==> q[k] != u
    decreases |q|
  {
    if k :| 0 <= k < |q| && q[k] == from {
      var rest := q[..k] + q[k + 1..];
      u := Unused(rest, from + 1);
      forall j | 0 <= j < |q| ensures q[j] != u {
        if j < k {
          assert rest[j] == q[j];
        } else if j > k {
          assert rest[j - 1] == q[j];
        }
      }
    } else {
      u := from;
    }
  }

  lemma NewUid(s: Store) returns (u: UInt16)
    requires |s.blocks| == MAX_NODES
    ensures !Blank(u) && !Has(s, u)
  {
    u := Unused(Fifo(s), 1);
    HasIsMembership(s, u);
  }

  /** A new device joins slot i and is renamed before the restore of its join. */
  function Probe(i: nat, uid: UInt16): seq<Event> {
    [Join(i, uid, NO_LABEL), Rename(i, NO_LABEL), Drain]
  }

  /** The block that the renaming stamps keeps the write index of its last owner. */
  lemma RecycledBlock(s: Store, op: Op)
    requires |s.blocks| == MAX_NODES && OpShaped(op) && op.SaveLabel? && DistinctStamps(s)
    requires !Blank(op.uid) && !Has(s, op.uid)
    ensures var t, w := Apply(s, op), WriteIndex(s);
      && DistinctStamps(t) && Has(t, op.uid) && WriteIndex(t) == Around(w, 1)
      && (SoundBlock(Record(t, op.uid)) <==> SoundBlock(s.blocks[w]))
      && forall k :: 0 <= k < MAX_NODES && k != w ==> t.blocks[k] == s.blocks[k]
  {
    ApplyWrites(s, op);
    ApplyKeepsDistinct(s, op);
    hide Has, Record, DistinctStamps, FindSlot;
  }

  ghost predicate Idle(s: State, i: nat) {
    Shaped(s) && DistinctStamps(s.store) && s.queue == [] && forall j :: i <= j < MAX_NODES ==> !s.active[j]
  }

  lemma ProbeRead(s: State, i: nat, uid: UInt16)
    requires Idle(s, i) && i < MAX_NODES && !Blank(uid) && !Has(s.store, uid)
    ensures Fitting(s, Probe(i, uid))
    ensures var t, w := CrashLoss.Run(s, Probe(i, uid)), WriteIndex(s.store);
      && Idle(t, i + 1) && WriteIndex(t.store) == Around(w, 1)
      && (InRing(t.nodes[i]) <==> SoundBlock(s.store.blocks[w]))
      && forall k :: 0 <= k < MAX_NODES && k != w ==> t.store.blocks[k] == s.store.blocks[k]
  {
    hide Step, Has, Record, SoundBlock, DistinctStamps, Fitting, CrashLoss.Run, RestoreMessage, InRing, Around;
    hide WriteIndex;
    var join, rename := Join(i, uid, NO_LABEL), Rename(i, NO_LABEL);
    Joins(s, join);
    var a := Step(s, join);
    Renames(a, i);
    var b := Step(a, rename);
    RecycledBlock(a.store, Op.SaveLabel(uid, NewText(a, i)));
    Restores(b, i);
    RunTwo(s, join, rename);
    RunOneMore(s, [join, rename], Drain);
    assert [join, rename] + [Drain] == Probe(i, uid);
  }

  lemma Joins(s: State, join: Event)
    requires Shaped(s) && s.queue == []
    requires join.Join? && join.i < MAX_NODES && !s.active[join.i] && join.text == NO_LABEL
    ensures Possible(s, join) && Fits(s, join)
    ensures var a, i := Step(s, join), join.i;
      && a.nodes[i].uid == join.uid && a.store == s.store && a.queue == [RestoreMessage(i)]
      && a.active == s.active[i := true]
  {
    hide RestoreMessage;
    StrLenIs(NO_LABEL, 0);
  }

  function NewText(a: State, i: nat): (text: seq<UInt8>)
    requires Shaped(a) && i < MAX_NODES
    ensures |text| == LABEL_BYTES
  {
    StrLenIs(NO_LABEL, 0);
    Relabelled(a.nodes[i], NO_LABEL).text
  }

  lemma Renames(a: State, i: nat)
    requires Shaped(a) && i < MAX_NODES && a.active[i] && a.queue == [RestoreMessage(i)]
    ensures var rename := Rename(i, NO_LABEL);
      && Possible(a, rename) && Fits(a, rename)
      && var b := Step(a, rename);
      && b.store == Apply(a.store, Op.SaveLabel(a.nodes[i].uid, NewText(a, i)))
      && b.nodes[i].uid == a.nodes[i].uid && b.active == a.active && b.queue == a.queue
  {
    hide RestoreMessage, Apply, Books, StrLCpy;
    StrLenIs(NO_LABEL, 0);
  }

  lemma Restores(b: State, i: nat)
    requires Shaped(b) && i < MAX_NODES && b.queue == [RestoreMessage(i)]
    requires !Blank(b.nodes[i].uid) && Has(b.store, b.nodes[i].uid)
    ensures Possible(b, Drain) && Fits(b, Drain)
    ensures var t := Step(b, Drain);
      && t.store == b.store && t.queue == [] && t.active == b.active
      && (InRing(t.nodes[i]) <==> SoundBlock(Record(b.store, b.nodes[i].uid)))
  {
    MessageRoundTrip(i, true, true);
    RestoredInRing(b.nodes[i], Record(b.store, b.nodes[i].uid));
    hide RestoreMessage, Has, Record, Restored, Books, OwnBook, InRing, SoundBlock, Flag, Closed;
  }

  lemma {:induction false} NothingToRecord(s: State, evs: seq<Event>)
    requires Shaped(s) && Fitting(s, evs) && forall k :: 0 <= k < |evs| ==> !evs[k].Accept?
    ensures Recording(s, evs)
    decreases |evs|
  {
    if evs != [] {
      NothingToRecord(s, evs[..|evs| - 1]);
    }
  }

  /** A block `d` allocations ahead is reached by that many new devices, each in a slot of its own. */
  lemma {:induction false} Scan(s: State, i: nat, d: nat) returns (evs: seq<Event>)
    requires Idle(s, i) && i + d < MAX_NODES
    requires !SoundBlock(s.store.blocks[Around(WriteIndex(s.store), d)])
    ensures Fitting(s, evs) && !AllInRing(CrashLoss.Run(s, evs))
    ensures forall k :: 0 <= k < |evs| ==> !evs[k].Accept?
    decreases d
  {
    hide Step, Fitting, CrashLoss.Run, Has, SoundBlock, InRing;
    var uid := NewUid(s.store);
    evs := Probe(i, uid);
    ProbeRead(s, i, uid);
    if d > 0 {
      var t := CrashLoss.Run(s, evs);
      var w := WriteIndex(s.store);
      assert Around(WriteIndex(t.store), d - 1) == Around(w, d) != w;
      var rest := Scan(t, i + 1, d - 1);
      RunAppend(s, evs, rest);
      evs := evs + rest;
    }
  }

  /**
   * From power-up, every run keeps all write indices inside the ring if and only if every block
   * of the chip has a write index inside the ring, and likewise for the counts.
   */
  lemma RingSafeExactly(s: State)
    requires PowerUp(s) && AllInRing(s)
    ensures (forall evs :: Fitting(s, evs) && Recording(s, evs) ==> AllInRing(CrashLoss.Run(s, evs)))
            <==> SoundChip(s.store)
  {
    hide CrashLoss.Run, Fitting, Recording, AllInRing, SoundBlock;
    if SoundChip(s.store) {
      forall evs | Fitting(s, evs) && Recording(s, evs) ensures AllInRing(CrashLoss.Run(s, evs)) {
        RunSound(s, evs);
      }
    } else {
      var k :| 0 <= k < MAX_NODES && !SoundBlock(s.store.blocks[k]);
      var w := WriteIndex(s.store);
      var d := if k >= w then k - w else k + MAX_NODES - w;
      assert Around(w, d) == k;
      var evs := Scan(s, 0, d);
      NothingToRecord(s, evs);
    }
  }
}
