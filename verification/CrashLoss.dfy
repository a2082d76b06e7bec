/**
 * What a gateway crash can cost: energy is written to the FRAM once per ten accepted packets
 * of a slot (src/gateway_tdma_task.cpp), by a queued message that the background task turns
 * into a snapshot of the total at that later moment (src/fram_store.cpp).
 */
module CrashLoss {
  import opened Protocol
  import opened Words
  import opened HistoryRing
  import opened FramLayout
  import opened FramStore
  import opened FramTask
  import opened Energy

  /** accumulateEnergy() and its dirty counter; the message goes to the FRAM task. */
  class Accumulator {
    const accumEnergy: array<UInt32>
    const energyDirty: array<nat>

    ghost predicate Valid()
      reads this, energyDirty
    {
      && accumEnergy.Length == energyDirty.Length == MAX_NODES
      && forall i :: 0 <= i < MAX_NODES ==> energyDirty[i] < FRAM_WRITE_N
    }

    constructor ()
      ensures Valid() && fresh(accumEnergy) && fresh(energyDirty)
    {
      accumEnergy := new UInt32[MAX_NODES](i => 0);
      energyDirty := new nat[MAX_NODES](i => 0);
    }

    method AccumulateEnergy(idx: nat, deltaWh: UInt32) returns (message: Option<UInt8>)
      requires Valid() && idx < MAX_NODES
      modifies accumEnergy, energyDirty
      ensures Valid()
      ensures accumEnergy[..] == old(accumEnergy[..])[idx := Add(old(accumEnergy[idx]), deltaWh)]
      ensures energyDirty[..] == old(energyDirty[..])[idx := NextDirty(old(energyDirty[idx]))]
      ensures message == if NextDirty(old(energyDirty[idx])) == 0 then Some(SaveMessage(idx, true, false)) else None
    {
      accumEnergy[idx] := Add(accumEnergy[idx], deltaWh);
      energyDirty[idx] := energyDirty[idx] + 1;
      if energyDirty[idx] >= FRAM_WRITE_N {
        energyDirty[idx] := 0;
        return Some(SaveMessage(idx, true, false));
      }
      return None;
    }
  }

  function Add(total: UInt32, delta: UInt32): UInt32 {
    (total + delta) % WRAP
  }

  function NextDirty(d: nat): nat {
    if d + 1 >= FRAM_WRITE_N then 0 else d + 1
  }

  // ----- The gateway's side of persistence -----

  /**
   * Bookkeeping of a slot that no branch reads. `filed`: the device has a record whose energy
   * was last written or read on behalf of this slot. `since` and `sinceWh` count the packets
   * accepted, and their energy, after that; `carry` is what else the running total holds
   * beyond the record, by a join into a used slot or a clearing of the total. `dirty` is the
   * dirty counter at that moment, `asked` the energy saves that the packets since then asked for.
   */
  datatype Book = Book(filed: bool, carry: int, since: nat, sinceWh: nat, dirty: nat, asked: nat)

  datatype State = State(nodes: seq<Hint>, active: seq<bool>, energyDirty: seq<nat>, histDirty: seq<nat>,
                         queue: seq<UInt8>, store: Store, scratch: seq<UInt8>, books: seq<Book>)

  datatype Event =
    /** A packet of slot i is processed; `after` is the node entry with the new point in its history. */
    | Accept(i: nat, deltaWh: UInt32, after: Hint)
    /** A new device gets the free slot i; `text` is the default label. */
    | Join(i: nat, uid: UInt16, text: seq<UInt8>)
    | Evict(i: nat)
    /** Web commands: a new label for a device, a total set back to 0, be the slot in use or not. */
    | Rename(i: nat, text: seq<UInt8>)
    | Clear(i: nat)
    /** framTask() takes the next message. */
    | Drain

  predicate Shaped(s: State) {
    && |s.nodes| == |s.active| == |s.energyDirty| == |s.histDirty| == |s.books| == MAX_NODES
    && (forall i :: 0 <= i < MAX_NODES ==> HintShaped(s.nodes[i]))
    && (forall i :: 0 <= i < MAX_NODES ==> s.energyDirty[i] < FRAM_WRITE_N && s.histDirty[i] < FRAM_WRITE_N)
    && |s.store.blocks| == MAX_NODES
    && (forall k :: 0 <= k < MAX_NODES ==> BlockShaped(s.store.blocks[k]))
    && |s.scratch| == LABEL_BYTES
  }

  predicate Possible(s: State, e: Event)
    requires Shaped(s)
  {
    match e
    case Accept(i, deltaWh, after) =>
      && i < MAX_NODES && s.active[i] && HintShaped(after)
      && after.uid == s.nodes[i].uid && after.text == s.nodes[i].text
      && after.energy == Add(s.nodes[i].energy, deltaWh)
    case Join(i, uid, text) => i < MAX_NODES && !s.active[i] && Terminated(text)
    case Evict(i) => i < MAX_NODES && s.active[i]
    case Rename(i, text) => i < MAX_NODES && s.active[i] && Terminated(text)
    case Clear(i) => i < MAX_NODES
    case Drain => true
  }

  /** Messages that an event sends; of an accepted packet, energy before history. */
  function Messages(s: State, e: Event): seq<UInt8>
    requires Shaped(s) && Possible(s, e)
  {
    match e
    case Accept(i, _, _) =>
      (if NextDirty(s.energyDirty[i]) == 0 then [SaveMessage(i, true, false)] else [])
      + (if NextDirty(s.histDirty[i]) == 0 then [SaveMessage(i, false, true)] else [])
    case Join(i, _, _) => [RestoreMessage(i)]
    case Evict(i) => [SaveMessage(i, true, true)]
    case _ => []
  }

  /** The queue takes every message of the event. */
  predicate Fits(s: State, e: Event)
    requires Shaped(s) && Possible(s, e)
  {
    |s.queue + Messages(s, e)| <= QUEUE_DEPTH
  }

  function Unlabelled(h: Hint): (r: Hint)
    requires HintShaped(h)
    ensures HintShaped(r) && r.uid == h.uid && r.energy == h.energy
  {
    var r := h.(text := [0] + h.text[1..]);
    StrLenIs(r.text, 0);
    r
  }

  function Joined(h: Hint, uid: UInt16, text: seq<UInt8>): (r: Hint)
    requires HintShaped(h) && Terminated(text)
    ensures HintShaped(r) && r.uid == uid && r.energy == h.energy
  {
    h.(uid := uid, text := if h.text[0] == 0 then text else h.text)
  }

  function Relabelled(h: Hint, text: seq<UInt8>): (r: Hint)
    requires HintShaped(h) && Terminated(text)
    ensures HintShaped(r) && r.uid == h.uid && r.energy == h.energy
  {
    CopyKeepsString(h.text, text);
    h.(text := StrLCpy(h.text, text))
  }

  // ----- Bookkeeping when a record may change -----

  function Stored(s: State, i: nat): nat
    requires Shaped(s) && i < MAX_NODES
  {
    if s.books[i].filed && Has(s.store, s.nodes[i].uid) then Record(s.store, s.nodes[i].uid).energy else 0
  }

  /** Slot j after slot i's device was served: its record counts no more if it is gone or was the same device's. */
  function BookOf(s: State, i: nat, store: Store, j: nat): Book
    requires Shaped(s) && i < MAX_NODES && j < MAX_NODES && |store.blocks| == MAX_NODES
  {
    var b := s.books[j];
    if b.filed && (s.nodes[j].uid == s.nodes[i].uid || !Has(store, s.nodes[j].uid))
    then b.(filed := false, carry := b.carry + Stored(s, j))
    else b
  }

  function Books(s: State, i: nat, store: Store, own: Book): (bs: seq<Book>)
    requires Shaped(s) && i < MAX_NODES && |store.blocks| == MAX_NODES
    ensures |bs| == MAX_NODES && bs[i] == own
    ensures forall j :: 0 <= j < MAX_NODES && j != i ==> bs[j] == BookOf(s, i, store, j)
  {
    seq(MAX_NODES, j requires 0 <= j < MAX_NODES => if j == i then own else BookOf(s, i, store, j))
  }

  function Flushed(dirty: nat): Book {
    Book(true, 0, 0, 0, dirty, 0)
  }

  /** The node entry, chip and snapshot after framTask() handled `msg` for a slot. */
  ghost function Handled(s: State, msg: UInt8): (m: Persist)
    requires Shaped(s) && msg % 0x10 < MAX_NODES
    ensures PersistShaped(m)
  {
    var p := Persist(s.store, s.nodes[msg % 0x10], s.scratch);
    HandledShaped(p, Flag(msg, SAVE_ENERGY), Flag(msg, SAVE_HISTORY));
    if Flag(msg, RESTORE) then AfterRestore(p)
    else AfterSave(p, Flag(msg, SAVE_ENERGY), Flag(msg, SAVE_HISTORY))
  }

  lemma HandledShaped(p: Persist, energy: bool, history: bool)
    requires PersistShaped(p)
    ensures PersistShaped(AfterRestore(p)) && PersistShaped(AfterSave(p, energy, history))
    ensures AfterSave(p, energy, history).hint == p.hint
  {
    hide Apply, StrLCpy, Closed, HistoryOf, AsInt32;
    ApplyShaped(p.store, RestoreOp(p.hint));
    ApplyShaped(p.store, EnergyOp(p.hint, p.scratch));
    ApplyShaped(p.store, HistoryOp(p.hint, p.scratch));
    var m := AfterEnergy(p);
    ApplyShaped(m.store, HistoryOp(m.hint, m.scratch));
    if Has(p.store, p.hint.uid) {
      RestoredShaped(p.hint, Record(p.store, p.hint.uid));
    }
  }

  function OwnBook(s: State, msg: UInt8): Book
    requires Shaped(s) && msg % 0x10 < MAX_NODES
  {
    var i := msg % 0x10;
    var b := s.books[i];
    if Blank(s.nodes[i].uid) then b
    else if Flag(msg, RESTORE) then
      if Has(s.store, s.nodes[i].uid) then Flushed(s.energyDirty[i]) else b.(filed := true)
    else if Flag(msg, SAVE_ENERGY) then Flushed(s.energyDirty[i])
    else b
  }

  ghost function DrainStep(s: State): (t: State)
    requires Shaped(s)
    ensures Shaped(t)
  {
    if s.queue == [] then s
    else
      var msg, s' := s.queue[0], s.(queue := s.queue[1..]);
      var i := msg % 0x10;
      if i >= MAX_NODES then s'
      else
        var m := Handled(s, msg);
        s'.(nodes := s.nodes[i := m.hint], store := m.store, scratch := m.scratch,
            books := Books(s, i, m.store, OwnBook(s, msg)))
  }

  ghost function RenameStep(s: State, i: nat, text: seq<UInt8>): (t: State)
    requires Shaped(s) && i < MAX_NODES && Terminated(text)
    ensures Shaped(t)
  {
    var h := Relabelled(s.nodes[i], text);
    var op := Op.SaveLabel(h.uid, h.text);
    ApplyShaped(s.store, op);
    s.(nodes := s.nodes[i := h], store := Apply(s.store, op), books := Books(s, i, Apply(s.store, op), s.books[i]))
  }

  ghost function Step(s: State, e: Event): (t: State)
    requires Shaped(s) && Possible(s, e)
    ensures Shaped(t)
  {
    var queue := s.queue + Messages(s, e);
    match e
    case Accept(i, deltaWh, after) =>
      var b := s.books[i];
      var asked := b.asked + if NextDirty(s.energyDirty[i]) == 0 then 1 else 0;
      s.(nodes := s.nodes[i := after], queue := queue,
         energyDirty := s.energyDirty[i := NextDirty(s.energyDirty[i])],
         histDirty := s.histDirty[i := NextDirty(s.histDirty[i])],
         books := s.books[i := b.(since := b.since + 1, sinceWh := b.sinceWh + deltaWh, asked := asked)])
    case Join(i, uid, text) =>
      s.(nodes := s.nodes[i := Joined(s.nodes[i], uid, text)], active := s.active[i := true], queue := queue,
         books := s.books[i := Book(false, s.nodes[i].energy, 0, 0, s.energyDirty[i], 0)])
    case Evict(i) =>
      s.(nodes := s.nodes[i := Unlabelled(s.nodes[i])], active := s.active[i := false], queue := queue)
    case Rename(i, text) => RenameStep(s, i, text)
    case Clear(i) =>
      s.(nodes := s.nodes[i := s.nodes[i].(energy := 0)],
         books := s.books[i := s.books[i].(carry := -(Stored(s, i) + s.books[i].sinceWh))])
    case Drain => DrainStep(s)
  }

  // ----- The accounts -----

  predicate SavesEnergy(msg: UInt8, i: nat) {
    msg % 0x10 == i && !Flag(msg, RESTORE) && Flag(msg, SAVE_ENERGY)
  }

  /** Energy saves of slot i still waiting in the queue. */
  function Waiting(queue: seq<UInt8>, i: nat): nat {
    if queue == [] then 0
    else (if SavesEnergy(queue[0], i) then 1 else 0) + Waiting(queue[1..], i)
  }

  /**
   * The total is record, carry and packets since. Those packets moved the dirty counter and
   * asked for a save at each tenth step; what was asked for is still to come. The two blank
   * UIDs are never saved.
   */
  ghost predicate SlotAccounted(s: State, i: nat)
    requires Shaped(s) && i < MAX_NODES
  {
    var b, uid := s.books[i], s.nodes[i].uid;
    && (b.filed ==> !Blank(uid) && Has(s.store, uid))
    && s.nodes[i].energy == (Stored(s, i) + b.carry + b.sinceWh) % WRAP
    && b.dirty < FRAM_WRITE_N && b.since + b.dirty == s.energyDirty[i] + FRAM_WRITE_N * b.asked
    && (!Blank(uid) ==> b.asked <= Waiting(s.queue, i))
  }

  ghost predicate Accounted(s: State) {
    && Shaped(s)
    && DistinctStamps(s.store)
    && forall i :: 0 <= i < MAX_NODES ==> SlotAccounted(s, i)
  }

  /** Power-up of the gateway with any chip whose stamps are distinct or blank: a fresh or a used one. */
  ghost predicate PowerUp(s: State): (b: bool)
    ensures b ==> Accounted(s)
  {
    && Shaped(s)
    && DistinctStamps(s.store)
    && s.queue == []
    && (forall i :: 0 <= i < MAX_NODES ==>
          && s.nodes[i].uid == 0 && s.nodes[i].energy == 0 && !s.active[i]
          && s.energyDirty[i] == 0 && s.histDirty[i] == 0 && s.books[i] == Book(false, 0, 0, 0, 0, 0))
  }

  lemma AccountedAt(s: State, j: nat)
    requires Accounted(s) && j < MAX_NODES
    ensures Shaped(s) && DistinctStamps(s.store) && SlotAccounted(s, j)
  {
  }

  lemma {:induction false} WaitingAppend(a: seq<UInt8>, b: seq<UInt8>, i: nat)
    ensures Waiting(a + b, i) == Waiting(a, i) + Waiting(b, i)
  {
    if a == [] {
      assert a + b == b;
    } else {
      assert (a + b)[1..] == a[1..] + b;
      WaitingAppend(a[1..], b, i);
    }
  }

  lemma MessageKinds(i: nat, j: nat)
    requires i < MAX_NODES && j < MAX_NODES
    ensures SavesEnergy(SaveMessage(i, true, false), j) <==> i == j
    ensures SavesEnergy(SaveMessage(i, true, true), j) <==> i == j
    ensures !SavesEnergy(SaveMessage(i, false, true), j)
    ensures !SavesEnergy(RestoreMessage(i), j)
  {
    MessageRoundTrip(i, true, false);
    MessageRoundTrip(i, true, true);
    MessageRoundTrip(i, false, true);
  }

  /** An event never takes energy saves of a slot away, and brings one when it resets the counter. */
  lemma MessagesWaiting(s: State, e: Event, j: nat)
    requires Shaped(s) && Possible(s, e) && j < MAX_NODES
    ensures Waiting(s.queue + Messages(s, e), j) >= Waiting(s.queue, j)
    ensures e.Accept? && e.i == j && NextDirty(s.energyDirty[j]) == 0 ==>
              Waiting(s.queue + Messages(s, e), j) >= Waiting(s.queue, j) + 1
  {
    var msgs := Messages(s, e);
    WaitingAppend(s.queue, msgs, j);
    if e.Accept? && e.i == j && NextDirty(s.energyDirty[j]) == 0 {
      MessageKinds(j, j);
      assert msgs[0] == SaveMessage(j, true, false);
      hide SaveMessage;
    }
  }

  /** The tenth packet since the last request asks for an energy save, the tenth point for a history save. */
  lemma AcceptAsks(s: State, e: Event)
    requires Shaped(s) && Possible(s, e) && e.Accept?
    ensures Step(s, e).queue == s.queue
      + (if s.energyDirty[e.i] == 9 then [0x10 + e.i] else []) + (if s.histDirty[e.i] == 9 then [0x20 + e.i] else [])
    ensures Step(s, e).histDirty[e.i] == (s.histDirty[e.i] + 1) % 10
    ensures Step(s, e).energyDirty[e.i] == (s.energyDirty[e.i] + 1) % 10
  {
  }

  // ----- Events that leave the chip alone -----

  predicate OnChip(e: Event) {
    e.Rename? || e.Drain?
  }

  lemma Steady(s: State, t: State, j: nat)
    requires Shaped(s) && Shaped(t) && j < MAX_NODES && SlotAccounted(s, j)
    requires t.nodes[j].uid == s.nodes[j].uid && t.nodes[j].energy == s.nodes[j].energy
    requires t.books[j] == s.books[j] && t.store == s.store
    requires t.energyDirty[j] == s.energyDirty[j] && Waiting(t.queue, j) >= Waiting(s.queue, j)
    ensures SlotAccounted(t, j)
  {
    hide Waiting, Has, Record;
  }

  lemma AcceptKeepsSlot(s: State, e: Event)
    requires Shaped(s) && Possible(s, e) && e.Accept? && SlotAccounted(s, e.i)
    ensures SlotAccounted(Step(s, e), e.i)
  {
    MessagesWaiting(s, e, e.i);
    hide Waiting, Has, Record, Messages;
    var w := Stored(s, e.i) + s.books[e.i].carry + s.books[e.i].sinceWh;
    assert Stored(Step(s, e), e.i) == Stored(s, e.i);
    hide Stored;
    WholeTurns(w + e.deltaWh, w % WRAP + e.deltaWh, w / WRAP);
  }

  lemma JoinKeepsSlot(s: State, e: Event)
    requires Shaped(s) && Possible(s, e) && e.Join?
    ensures SlotAccounted(Step(s, e), e.i)
  {
    hide Waiting, Has, Record, Messages;
  }

  lemma ClearKeepsSlot(s: State, e: Event)
    requires Shaped(s) && Possible(s, e) && e.Clear? && SlotAccounted(s, e.i)
    ensures SlotAccounted(Step(s, e), e.i)
  {
    hide Waiting, Has, Record, Messages;
    assert Stored(Step(s, e), e.i) == Stored(s, e.i);
    hide Stored;
  }

  lemma OffChipKeepsSlot(s: State, e: Event, j: nat)
    requires Accounted(s) && Possible(s, e) && !OnChip(e) && j < MAX_NODES
    ensures SlotAccounted(Step(s, e), j) && Step(s, e).store == s.store
  {
    hide Accounted, SlotAccounted, Messages, Waiting, Joined, Unlabelled;
    AccountedAt(s, j);
    MessagesWaiting(s, e, j);
    if e.i != j || e.Evict? {
      Steady(s, Step(s, e), j);
    } else if e.Accept? {
      AcceptKeepsSlot(s, e);
    } else if e.Join? {
      JoinKeepsSlot(s, e);
    } else {
      ClearKeepsSlot(s, e);
    }
  }

  // ----- What an operation for one device does to the records of others -----

  ghost predicate LeavesOthers(a: Store, b: Store, uid: UInt16)
    requires |a.blocks| == MAX_NODES && |b.blocks| == MAX_NODES
  {
    forall u: UInt16 :: u != uid && !Blank(u) && Has(b, u) ==>
      Has(a, u) && Record(b, u) == Record(a, u)
  }

  lemma ApplyLeavesOthers(a: Store, op: Op)
    requires |a.blocks| == MAX_NODES && OpShaped(op) && DistinctStamps(a)
    ensures LeavesOthers(a, Apply(a, op), op.uid) && DistinctStamps(Apply(a, op))
  {
    ApplyKeepsDistinct(a, op);
    hide Apply, DistinctStamps, Has;
    forall u: UInt16 | u != op.uid && !Blank(u) && Has(Apply(a, op), u)
      ensures Has(a, u) && Record(Apply(a, op), u) == Record(a, u)
    {
      if Has(a, u) {
        ApplyIsLocal(a, op, u);
      } else {
        StaysAway(a, op, u);
      }
    }
  }

  lemma LeavesTwice(a: Store, b: Store, c: Store, uid: UInt16)
    requires |a.blocks| == MAX_NODES && |b.blocks| == MAX_NODES && |c.blocks| == MAX_NODES
    requires LeavesOthers(a, b, uid) && LeavesOthers(b, c, uid)
    ensures LeavesOthers(a, c, uid)
  {
    hide Has, Record;
  }

  lemma HandledLeavesOthers(s: State, msg: UInt8)
    requires Shaped(s) && DistinctStamps(s.store) && msg % 0x10 < MAX_NODES
    ensures LeavesOthers(s.store, Handled(s, msg).store, s.nodes[msg % 0x10].uid)
    ensures DistinctStamps(Handled(s, msg).store)
  {
    hide Apply, DistinctStamps, LeavesOthers, Has;
    var h := s.nodes[msg % 0x10];
    var p := Persist(s.store, h, s.scratch);
    LeavesItself(s.store, h.uid);
    ApplyLeavesOthers(s.store, RestoreOp(h));
    ApplyLeavesOthers(s.store, HistoryOp(h, s.scratch));
    ApplyLeavesOthers(s.store, EnergyOp(h, s.scratch));
    var m := AfterEnergy(p);
    ApplyLeavesOthers(m.store, HistoryOp(h, m.scratch));
    LeavesTwice(s.store, m.store, Apply(m.store, HistoryOp(h, m.scratch)), h.uid);
  }

  lemma LeavesItself(a: Store, uid: UInt16)
    requires |a.blocks| == MAX_NODES
    ensures LeavesOthers(a, a, uid)
  {
  }

  /** A slot other than the served one: its record is the same, or its book says that it counts no more. */
  lemma OtherSlotKept(s: State, t: State, i: nat, j: nat)
    requires Shaped(s) && Shaped(t) && i < MAX_NODES && j < MAX_NODES && i != j && SlotAccounted(s, j)
    requires LeavesOthers(s.store, t.store, s.nodes[i].uid)
    requires t.nodes[j] == s.nodes[j] && t.books[j] == BookOf(s, i, t.store, j)
    requires t.energyDirty[j] == s.energyDirty[j] && Waiting(t.queue, j) == Waiting(s.queue, j)
    ensures SlotAccounted(t, j)
  {
    hide Has, Record, Waiting;
  }

  // ----- What it does to its own -----

  lemma OwnRecord(a: Store, op: Op)
    requires |a.blocks| == MAX_NODES && OpShaped(op) && DistinctStamps(a) && !Blank(op.uid)
    ensures Has(Apply(a, op), op.uid)
    ensures op.SaveEnergy? ==> Record(Apply(a, op), op.uid).energy == op.energy
    ensures Has(a, op.uid) && !op.SaveEnergy? ==> Record(Apply(a, op), op.uid).energy == Record(a, op.uid).energy
    ensures !Has(a, op.uid) && op.Restore? ==> Record(Apply(a, op), op.uid).energy == 0
  {
    ApplyWrites(a, op);
    hide Apply;
  }

  /** Record and entry of the served device after a message with its book. */
  lemma OwnHandled(s: State, msg: UInt8)
    requires Shaped(s) && DistinctStamps(s.store) && msg % 0x10 < MAX_NODES
    requires SlotAccounted(s, msg % 0x10)
    ensures var i, m, b := msg % 0x10, Handled(s, msg), OwnBook(s, msg);
      && m.hint.uid == s.nodes[i].uid
      && (b.filed ==> !Blank(m.hint.uid) && Has(m.store, m.hint.uid))
      && m.hint.energy == ((if b.filed then Record(m.store, m.hint.uid).energy else 0) + b.carry + b.sinceWh) % WRAP
  {
    hide Handled, Has, Record, Waiting, DistinctStamps, Flag;
    if Blank(s.nodes[msg % 0x10].uid) {
      BlankUntouched(s, msg);
    } else if Flag(msg, RESTORE) {
      OwnRestored(s, msg);
    } else {
      OwnSaved(s, msg);
    }
  }

  lemma OwnRestored(s: State, msg: UInt8)
    requires Shaped(s) && DistinctStamps(s.store) && msg % 0x10 < MAX_NODES
    requires !Blank(s.nodes[msg % 0x10].uid) && Flag(msg, RESTORE)
    ensures var h, m := s.nodes[msg % 0x10], Handled(s, msg);
      && m.hint.uid == h.uid && Has(m.store, h.uid) && m.hint.energy == (if Has(s.store, h.uid)
                                                                         then Record(m.store, h.uid).energy
                                                                         else h.energy)
      && (!Has(s.store, h.uid) ==> Record(m.store, h.uid).energy == 0)
      && (Has(s.store, h.uid) ==> m.store == s.store)
  {
    hide AfterRestore, AfterSave, Has, Record, DistinctStamps, Flag, CStr, Closed, HistoryOf, AsUInt32, Terminated;
    var p := Persist(s.store, s.nodes[msg % 0x10], s.scratch);
    if Has(s.store, p.hint.uid) {
      KnownRestored(p);
    } else {
      NovelStamped(p);
    }
  }

  lemma OwnSaved(s: State, msg: UInt8)
    requires Shaped(s) && DistinctStamps(s.store) && msg % 0x10 < MAX_NODES
    requires !Blank(s.nodes[msg % 0x10].uid) && !Flag(msg, RESTORE)
    ensures var h, m := s.nodes[msg % 0x10], Handled(s, msg);
      && m.hint == h
      && (Flag(msg, SAVE_ENERGY) ==> Has(m.store, h.uid) && Record(m.store, h.uid).energy == h.energy)
      && (!Flag(msg, SAVE_ENERGY) && Has(s.store, h.uid) ==>
            Has(m.store, h.uid) && Record(m.store, h.uid).energy == Record(s.store, h.uid).energy)
  {
    hide AfterRestore, AfterSave, Has, Record, DistinctStamps, Flag, CStr, HistoryBytes, AsUInt32, Terminated, Target;
    var p := Persist(s.store, s.nodes[msg % 0x10], s.scratch);
    var energy, history := Flag(msg, SAVE_ENERGY), Flag(msg, SAVE_HISTORY);
    HandledShaped(p, energy, history);
    if energy || history {
      SavedFields(p, energy, history);
      if Has(s.store, p.hint.uid) {
        RecordIsTarget(s.store, p.hint.uid);
      }
    } else {
      NothingSaved(p);
    }
  }

  lemma NothingSaved(p: Persist)
    requires PersistShaped(p)
    ensures AfterSave(p, false, false) == p
  {
  }

  lemma BlankUntouched(s: State, msg: UInt8)
    requires Shaped(s) && msg % 0x10 < MAX_NODES && Blank(s.nodes[msg % 0x10].uid)
    ensures Handled(s, msg).store == s.store && Handled(s, msg).hint == s.nodes[msg % 0x10]
  {
    hide StrLCpy, Has, HistoryBytes;
  }

  /** The served slot, from what OwnHandled and BlankUntouched say. */
  lemma OwnSlotKept(s: State, t: State, msg: UInt8)
    requires Shaped(s) && Shaped(t) && s.queue != [] && msg == s.queue[0] && msg % 0x10 < MAX_NODES
    requires SlotAccounted(s, msg % 0x10)
    requires var i := msg % 0x10;
      && t.nodes[i].uid == s.nodes[i].uid && t.queue == s.queue[1..] && t.energyDirty[i] == s.energyDirty[i]
      && t.books[i] == OwnBook(s, msg)
      && (t.books[i].filed ==> !Blank(t.nodes[i].uid) && Has(t.store, t.nodes[i].uid))
      && t.nodes[i].energy == (Stored(t, i) + t.books[i].carry + t.books[i].sinceWh) % WRAP
    ensures SlotAccounted(t, msg % 0x10)
  {
    var i := msg % 0x10;
    assert Waiting(s.queue, i) == (if SavesEnergy(msg, i) then 1 else 0) + Waiting(t.queue, i);
    hide Waiting, Has, Record, Flag, Stored;
  }

  lemma DrainKeepsOwnSlot(s: State)
    requires Shaped(s) && DistinctStamps(s.store)
    requires s.queue != [] && s.queue[0] % 0x10 < MAX_NODES && SlotAccounted(s, s.queue[0] % 0x10)
    ensures SlotAccounted(Step(s, Drain), s.queue[0] % 0x10)
  {
    var msg := s.queue[0];
    hide Handled, Has, Record, DistinctStamps, Waiting, Flag, SlotAccounted, OwnBook;
    OwnHandled(s, msg);
    OwnSlotKept(s, Step(s, Drain), msg);
  }

  lemma DrainKeepsSlot(s: State, j: nat)
    requires Accounted(s) && s.queue != [] && j < MAX_NODES
    ensures SlotAccounted(Step(s, Drain), j)
  {
    hide Handled, Has, Record, Accounted, LeavesOthers, SlotAccounted, DistinctStamps;
    AccountedAt(s, j);
    var msg := s.queue[0];
    var i := msg % 0x10;
    if i < MAX_NODES {
      AccountedAt(s, i);
    }
    if i == j {
      DrainKeepsOwnSlot(s);
    } else {
      assert !SavesEnergy(msg, j);
      assert Waiting(s.queue, j) == Waiting(s.queue[1..], j);
      if i < MAX_NODES {
        HandledLeavesOthers(s, msg);
        OtherSlotKept(s, Step(s, Drain), i, j);
      } else {
        SameSlot(s, Step(s, Drain), j);
      }
    }
  }

  lemma SameSlot(s: State, t: State, j: nat)
    requires Shaped(s) && Shaped(t) && j < MAX_NODES && SlotAccounted(s, j)
    requires t.nodes == s.nodes && t.books == s.books && t.store == s.store
    requires t.energyDirty[j] == s.energyDirty[j] && Waiting(t.queue, j) == Waiting(s.queue, j)
    ensures SlotAccounted(t, j)
  {
  }

  lemma RenameKeepsSlot(s: State, i: nat, text: seq<UInt8>, j: nat)
    requires Accounted(s) && i < MAX_NODES && j < MAX_NODES && Terminated(text)
    ensures SlotAccounted(RenameStep(s, i, text), j) && DistinctStamps(RenameStep(s, i, text).store)
  {
    hide Has, Record, Accounted, LeavesOthers, DistinctStamps, Apply, StrLCpy, Waiting;
    AccountedAt(s, j);
    var h := Relabelled(s.nodes[i], text);
    var op := Op.SaveLabel(h.uid, h.text);
    ApplyLeavesOthers(s.store, op);
    if i != j {
      OtherSlotKept(s, RenameStep(s, i, text), i, j);
    } else if Blank(h.uid) {
      BlankApplied(s.store, op);
    } else {
      OwnRecord(s.store, op);
    }
  }

  lemma BlankApplied(a: Store, op: Op)
    requires |a.blocks| == MAX_NODES && OpShaped(op) && Blank(op.uid)
    ensures Apply(a, op) == a
  {
  }

  /** The accounts hold after every event: packets, joins, evictions, web commands and messages. */
  lemma StepKeepsAccounts(s: State, e: Event)
    requires Accounted(s) && Possible(s, e)
    ensures Accounted(Step(s, e))
  {
    hide SlotAccounted, DistinctStamps, Step;
    AccountedAt(s, 0);
    var t := Step(s, e);
    StepKeepsSlot(s, e, 0);
    forall j: nat | j < MAX_NODES
      ensures SlotAccounted(t, j)
    {
      StepKeepsSlot(s, e, j);
    }
  }

  lemma StepKeepsSlot(s: State, e: Event, j: nat)
    requires Accounted(s) && Possible(s, e) && j < MAX_NODES
    ensures SlotAccounted(Step(s, e), j) && DistinctStamps(Step(s, e).store)
  {
    hide SlotAccounted, DistinctStamps, Accounted, Handled, RenameStep;
    AccountedAt(s, j);
    if e.Rename? {
      RenameKeepsSlot(s, e.i, e.text, j);
    } else if e.Drain? {
      if s.queue != [] {
        DrainKeepsSlot(s, j);
        if s.queue[0] % 0x10 < MAX_NODES {
          HandledLeavesOthers(s, s.queue[0]);
        }
      }
    } else {
      OffChipKeepsSlot(s, e, j);
    }
  }

  // ----- Runs -----

  /** Every event of the run is possible when it comes, and the queue never overflows. */
  ghost predicate Fitting(s: State, evs: seq<Event>)
    requires Shaped(s)
    decreases |evs|, 0
  {
    evs != [] ==>
      var before, e := evs[..|evs| - 1], evs[|evs| - 1];
      && Fitting(s, before)
      && Possible(Run(s, before), e)
      && Fits(Run(s, before), e)
  }

  ghost function Run(s: State, evs: seq<Event>): (t: State)
    requires Shaped(s) && Fitting(s, evs)
    ensures Shaped(t)
    decreases |evs|, 1
  {
    if evs == [] then s else Step(Run(s, evs[..|evs| - 1]), evs[|evs| - 1])
  }

  lemma {:induction false} RunKeepsAccounts(s: State, evs: seq<Event>)
    requires Accounted(s) && Fitting(s, evs)
    ensures Accounted(Run(s, evs))
    decreases |evs|
  {
    hide Accounted, Step, Possible, Fits;
    AccountedAt(s, 0);
    if evs != [] {
      var before, e := evs[..|evs| - 1], evs[|evs| - 1];
      RunKeepsAccounts(s, before);
      StepKeepsAccounts(Run(s, before), e);
    }
  }

  /**
   * What a crash costs slot i: a restore would find the record of the last flush; the total
   * differs from it by the carry and by the packets accepted since. Those are fewer than ten,
   * plus ten for each energy save of the slot that is still in the queue.
   */
  ghost predicate LossBounded(s: State, i: nat)
    requires Shaped(s) && i < MAX_NODES
  {
    var uid := s.nodes[i].uid;
    && Has(s.store, uid)
    && s.nodes[i].energy == (Record(s.store, uid).energy + s.books[i].carry + s.books[i].sinceWh) % WRAP
    && s.books[i].since < FRAM_WRITE_N * (1 + Waiting(s.queue, i))
    && AfterRestore(Persist(s.store, s.nodes[i], s.scratch)).hint.energy == Record(s.store, uid).energy
  }

  lemma AccountedBoundsLoss(s: State, i: nat)
    requires Shaped(s) && i < MAX_NODES && SlotAccounted(s, i) && s.books[i].filed
    ensures LossBounded(s, i)
  {
    hide Waiting, HistoryOf, StrLCpy;
  }

  /**
   * Whenever the gateway dies, after any run from power-up with any number of devices, joins,
   * evictions and restores in which the queue never overflowed: for every device that has been
   * flushed or restored the loss is bounded.
   */
  lemma CrashLosesFewPackets(s: State, evs: seq<Event>, i: nat)
    requires PowerUp(s) && Fitting(s, evs) && i < MAX_NODES
    ensures Run(s, evs).books[i].filed ==> LossBounded(Run(s, evs), i)
  {
    RunKeepsAccounts(s, evs);
    hide Accounted, PowerUp, Run, LossBounded, SlotAccounted;
    AccountedAt(Run(s, evs), i);
    if Run(s, evs).books[i].filed {
      AccountedBoundsLoss(Run(s, evs), i);
    }
  }

  /** Ten or more packets are missing exactly while a save they asked for is late. */
  predicate FlushedInTime(s: State, i: nat)
    requires Shaped(s) && i < MAX_NODES
  {
    var b := s.books[i];
    b.asked == 0 || (b.asked == 1 && s.energyDirty[i] < b.dirty)
  }

  /**
   * Fewer than ten packets are missing exactly if none of the saves that were asked for is late,
   * or a single one is and the dirty counter is still below where it was at the last flush.
   */
  lemma FewerThanTenExactly(s: State, evs: seq<Event>, i: nat)
    requires PowerUp(s) && Fitting(s, evs) && i < MAX_NODES
    ensures Run(s, evs).books[i].since < FRAM_WRITE_N <==> FlushedInTime(Run(s, evs), i)
  {
    RunKeepsAccounts(s, evs);
    hide Accounted, PowerUp, Run;
    AccountedAt(Run(s, evs), i);
  }

  // ----- When a device is filed -----

  /** The slot whose device an event serves on the chip. */
  function Served(s: State, e: Event): Option<nat>
    requires Shaped(s)
  {
    if e.Rename? then Some(e.i)
    else if e.Drain? && s.queue != [] && s.queue[0] % 0x10 < MAX_NODES then Some(s.queue[0] % 0x10)
    else None
  }

  /** An energy save or a restore files the device; only after the stamp of a new device is anything carried. */
  lemma MessageFiles(s: State)
    requires Accounted(s) && s.queue != [] && s.queue[0] % 0x10 < MAX_NODES
    requires Flag(s.queue[0], RESTORE) || Flag(s.queue[0], SAVE_ENERGY)
    ensures var i, t := s.queue[0] % 0x10, Step(s, Drain);
      !Blank(s.nodes[i].uid) ==>
        && t.books[i].filed
        && (!Flag(s.queue[0], RESTORE) || Has(s.store, s.nodes[i].uid) ==> t.books[i] == Flushed(s.energyDirty[i]))
        && (!Flag(s.queue[0], RESTORE) ==> Has(t.store, s.nodes[i].uid)
                                           && Record(t.store, s.nodes[i].uid).energy == s.nodes[i].energy)
  {
    hide Accounted, SlotAccounted, Handled, Has, Record, DistinctStamps, Flag;
    var i := s.queue[0] % 0x10;
    AccountedAt(s, i);
    if !Blank(s.nodes[i].uid) {
      OwnHandled(s, s.queue[0]);
      if !Flag(s.queue[0], RESTORE) {
        SavedHint(s, s.queue[0]);
      }
    }
  }

  lemma SavedHint(s: State, msg: UInt8)
    requires Shaped(s) && msg % 0x10 < MAX_NODES && !Flag(msg, RESTORE)
    ensures Handled(s, msg).hint == s.nodes[msg % 0x10]
  {
    HandledShaped(Persist(s.store, s.nodes[msg % 0x10], s.scratch), Flag(msg, SAVE_ENERGY), Flag(msg, SAVE_HISTORY));
    hide AfterSave, AfterRestore;
  }

  /**
   * It stays filed until another device joins in the slot, another slot with the same UID is
   * served, or newer devices push the record out; and the carry changes only by a clearing.
   */
  lemma FiledUntil(s: State, e: Event, j: nat)
    requires Accounted(s) && Possible(s, e) && j < MAX_NODES && s.books[j].filed
    ensures var t, served := Step(s, e), Served(s, e);
      && (t.books[j].filed <==>
            && !(e.Join? && e.i == j)
            && !(served.Some? && served.value != j && s.nodes[served.value].uid == s.nodes[j].uid)
            && Has(t.store, s.nodes[j].uid))
      && (t.books[j].filed && !(e.Clear? && e.i == j) ==>
            t.books[j].carry == s.books[j].carry || t.books[j] == Flushed(s.energyDirty[j]))
  {
    AccountedAt(s, j);
    StepKeepsSlot(s, e, j);
    hide Accounted, Handled, Has, Record, DistinctStamps, Flag, Waiting, Apply, Stored, Relabelled;
  }

  // ----- The bound is met -----

  const NO_LABEL := Zeros(LABEL_BYTES)

  function NewEntry(uid: UInt16, energy: UInt32): (h: Hint)
    ensures HintShaped(h)
  {
    StrLenIs(NO_LABEL, 0);
    Hint(uid, energy, NO_LABEL, 0, 0, seq(HISTORY_MAX_POINTS, _ => Point(0, 0, 0, 0)))
  }

  /** A gateway that powers up with a fresh chip. */
  function FreshGateway(): (s: State)
    ensures Shaped(s) && PowerUp(s)
  {
    var block := Block(0, 0, 0, 0, NO_LABEL, Zeros(HISTORY_BYTES));
    State(seq(MAX_NODES, _ => NewEntry(0, 0)), seq(MAX_NODES, _ => false),
          seq(MAX_NODES, _ => 0), seq(MAX_NODES, _ => 0), [],
          Store(0, 0, 0, seq(MAX_NODES, _ => block)), NO_LABEL,
          seq(MAX_NODES, _ => Book(false, 0, 0, 0, 0, 0)))
  }

  const DEVICE: UInt16 := 5

  /** Its first device has joined, been stamped, and sent n packets of 1 Wh; nothing was saved yet. */
  ghost function SentState(n: nat): State
    requires n < 20
  {
    var s := FreshGateway();
    State(s.nodes[0 := NewEntry(DEVICE, n)], s.active[0 := true], s.energyDirty[0 := n % 10], s.histDirty[0 := n % 10],
          if n < 10 then [] else [SaveMessage(0, true, false), SaveMessage(0, false, true)],
          Apply(s.store, RestoreOp(NewEntry(DEVICE, 0))), s.scratch, s.books[0 := Book(true, 0, n, n, 0, n / 10)])
  }

  function SentEvents(n: nat): (evs: seq<Event>)
    requires n < 20
    ensures |evs| == n + 2
  {
    seq(n + 2, k requires 0 <= k < n + 2 =>
      if k == 0 then Join(0, DEVICE, NO_LABEL) else if k == 1 then Drain else Accept(0, 1, NewEntry(DEVICE, k - 1)))
  }

  lemma SentShaped(n: nat)
    requires n < 20
    ensures Shaped(SentState(n)) && |SentState(n).queue| <= 2
  {
    ApplyShaped(FreshGateway().store, RestoreOp(NewEntry(DEVICE, 0)));
    hide Apply, StrLCpy;
  }

  lemma SendOne(n: nat)
    requires n < 19
    ensures Shaped(SentState(n)) && Possible(SentState(n), Accept(0, 1, NewEntry(DEVICE, n + 1)))
    ensures Fits(SentState(n), Accept(0, 1, NewEntry(DEVICE, n + 1)))
    ensures Step(SentState(n), Accept(0, 1, NewEntry(DEVICE, n + 1))) == SentState(n + 1)
  {
    SentShaped(n);
    hide Apply, SaveMessage;
    assert NextDirty(n % 10) == (n + 1) % 10;
  }

  lemma JoinAndStamp()
    ensures var s, join := FreshGateway(), Join(0, DEVICE, NO_LABEL);
      && Possible(s, join) && Fits(s, join)
      && Possible(Step(s, join), Drain) && Fits(Step(s, join), Drain)
      && Step(Step(s, join), Drain) == SentState(0)
  {
    var s := FreshGateway();
    var t := Step(s, Join(0, DEVICE, NO_LABEL));
    MessageRoundTrip(0, false, false);
    assert t.queue == [RestoreMessage(0)];
    assert !Has(t.store, DEVICE);
    hide Apply, RestoreMessage, Flag, StrLCpy;
    assert Handled(t, t.queue[0]).store == SentState(0).store;
    assert Step(t, Drain).books == SentState(0).books;
    assert Step(t, Drain).nodes == SentState(0).nodes;
  }

  lemma {:induction false} SentRun(n: nat)
    requires n < 20
    ensures Fitting(FreshGateway(), SentEvents(n)) && Run(FreshGateway(), SentEvents(n)) == SentState(n)
    decreases n
  {
    hide FreshGateway, SentState, Step, Possible, Fits, SentEvents;
    if n == 0 {
      JoinAndStamp();
      FirstEvents();
      RunTwo(FreshGateway(), Join(0, DEVICE, NO_LABEL), Drain);
    } else {
      SentRun(n - 1);
      SendOne(n - 1);
      LastSent(n);
      RunOneMore(FreshGateway(), SentEvents(n - 1), Accept(0, 1, NewEntry(DEVICE, n)));
    }
  }

  lemma FirstEvents()
    ensures SentEvents(0) == [Join(0, DEVICE, NO_LABEL), Drain]
  {
  }

  lemma LastSent(n: nat)
    requires 0 < n < 20
    ensures SentEvents(n) == SentEvents(n - 1) + [Accept(0, 1, NewEntry(DEVICE, n))]
  {
  }

  lemma RunOneMore(s: State, before: seq<Event>, e: Event)
    requires Shaped(s) && Fitting(s, before) && Possible(Run(s, before), e) && Fits(Run(s, before), e)
    ensures Fitting(s, before + [e]) && Run(s, before + [e]) == Step(Run(s, before), e)
  {
    hide Step, Possible, Fits;
    assert (before + [e])[..|before|] == before;
  }

  lemma {:induction false} RunAppend(s: State, a: seq<Event>, b: seq<Event>)
    requires Shaped(s) && Fitting(s, a) && Fitting(Run(s, a), b)
    ensures Fitting(s, a + b) && Run(s, a + b) == Run(Run(s, a), b)
    decreases |b|
  {
    hide Step, Possible, Fits;
    if b == [] {
      assert a + b == a;
    } else {
      var before, e := b[..|b| - 1], b[|b| - 1];
      RunAppend(s, a, before);
      RunOneMore(s, a + before, e);
      assert a + before + [e] == a + b;
    }
  }

  lemma RunTwo(s: State, a: Event, b: Event)
    requires Shaped(s) && Possible(s, a) && Fits(s, a) && Possible(Step(s, a), b) && Fits(Step(s, a), b)
    ensures Fitting(s, [a, b]) && Run(s, [a, b]) == Step(Step(s, a), b)
  {
    hide Step, Possible, Fits;
    assert [] + [a] == [a] && [a] + [b] == [a, b];
    RunOneMore(s, [], a);
    RunOneMore(s, [a], b);
  }

  /**
   * The bound of CrashLosesFewPackets is met: in this run nineteen packets are missing from the
   * record of a device while one energy save waits, so flushes are not every ten packets.
   */
  lemma NineteenMissing()
    ensures var s, evs := FreshGateway(), SentEvents(19);
      && PowerUp(s) && Fitting(s, evs)
      && var t := Run(s, evs);
      && t.books[0].filed && Waiting(t.queue, 0) == 1
      && t.nodes[0].energy == 19 && Has(t.store, DEVICE) && Record(t.store, DEVICE).energy == 0
      && t.books[0].since == 19 == FRAM_WRITE_N * (1 + Waiting(t.queue, 0)) - 1
  {
    hide Run, Fitting, Waiting, Has, Record, SentState, PowerUp;
    SentRun(19);
    SentShaped(19);
    LastState();
  }

  lemma OneWaiting()
    ensures Waiting([SaveMessage(0, true, false), SaveMessage(0, false, true)], 0) == 1
  {
    MessageKinds(0, 0);
    hide SaveMessage, SavesEnergy;
    var q := [SaveMessage(0, true, false), SaveMessage(0, false, true)];
    assert q[1..] == [SaveMessage(0, false, true)] && q[1..][1..] == [];
  }

  lemma LastState()
    ensures var t := SentState(19);
      && t.books[0] == Book(true, 0, 19, 19, 0, 1) && Waiting(t.queue, 0) == 1 && t.nodes[0].energy == 19
      && |t.store.blocks| == MAX_NODES && Has(t.store, DEVICE) && Record(t.store, DEVICE).energy == 0
  {
    OneWaiting();
    assert !Has(FreshGateway().store, DEVICE);
    OwnRecord(FreshGateway().store, RestoreOp(NewEntry(DEVICE, 0)));
    hide Apply, Has, Record, Waiting, StrLCpy, SaveMessage;
  }
}
