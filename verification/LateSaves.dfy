/**
 * The save of an eviction (src/gateway_tdma_task.cpp). Its message names a slot, not a device,
 * and is carried out later: by then the slot may belong to another device, or a restore that
 * waited ahead may have changed the total. Here is exactly when the total of the evicted
 * device reaches its own record.
 */
module LateSaves {
  import opened Protocol
  import opened Words
  import opened FramLayout
  import opened FramStore
  import opened FramTask
  import opened CrashLoss

  /** The record of a device holds a total. */
  ghost predicate Filed(s: Store, uid: UInt16, total: UInt32)
    requires |s.blocks| == MAX_NODES
  {
    Has(s, uid) && Record(s, uid).energy == total
  }

  function Drains(evs: seq<Event>): nat {
    if evs == [] then 0 else Drains(evs[..|evs| - 1]) + if evs[|evs| - 1].Drain? then 1 else 0
  }

  /** No packet of slot i is accepted and its total is not cleared. */
  predicate Untouched(evs: seq<Event>, i: nat) {
    forall k :: 0 <= k < |evs| ==> !((evs[k].Accept? || evs[k].Clear?) && evs[k].i == i)
  }

  /** The device that joined slot i last. */
  function Occupant(evs: seq<Event>, i: nat, uid: UInt16): UInt16 {
    if evs == [] then uid
    else
      var e := evs[|evs| - 1];
      if e.Join? && e.i == i then e.uid else Occupant(evs[..|evs| - 1], i, uid)
  }

  /** The next message is a restore of slot i, for a device with a record. */
  predicate Overwrites(s: State, i: nat)
    requires Shaped(s) && i < MAX_NODES
  {
    && s.queue != [] && s.queue[0] % 0x10 == i && Flag(s.queue[0], RESTORE)
    && !Blank(s.nodes[i].uid) && Has(s.store, s.nodes[i].uid)
  }

  /** What the last restore of slot i that found a record read from it. */
  ghost function LastRead(s: State, evs: seq<Event>, i: nat): Option<UInt32>
    requires Shaped(s) && Fitting(s, evs) && i < MAX_NODES
    decreases |evs|
  {
    if evs == [] then None
    else
      var before := evs[..|evs| - 1];
      var m := CrashLoss.Run(s, before);
      if evs[|evs| - 1].Drain? && Overwrites(m, i) then Some(Record(m.store, m.nodes[i].uid).energy)
      else LastRead(s, before, i)
  }

  function Shown(total: UInt32, read: Option<UInt32>): UInt32 {
    match read
    case None => total
    case Some(x) => x
  }

  // ----- The entry of the slot -----

  lemma DrainEntry(s: State, i: nat)
    requires Shaped(s) && i < MAX_NODES
    ensures Step(s, Drain).nodes[i].uid == s.nodes[i].uid
    ensures Step(s, Drain).nodes[i].energy ==
            if Overwrites(s, i) then Record(s.store, s.nodes[i].uid).energy else s.nodes[i].energy
  {
    if s.queue != [] && s.queue[0] % 0x10 == i {
      var msg := s.queue[0];
      if Flag(msg, RESTORE) {
        hide Has, Record, Apply, StrLCpy, Closed, HistoryOf, Flag;
      } else {
        SavedHint(s, msg);
        hide Has, Record, Handled, Flag;
      }
    } else {
      hide Has, Record, Handled, Flag;
    }
  }

  lemma StepEntry(s: State, e: Event, i: nat)
    requires Shaped(s) && Possible(s, e) && i < MAX_NODES
    ensures Step(s, e).nodes[i].uid == if e.Join? && e.i == i then e.uid else s.nodes[i].uid
    ensures Untouched([e], i) ==>
              (Step(s, e).nodes[i].energy ==
               if e.Drain? && Overwrites(s, i) then Record(s.store, s.nodes[i].uid).energy else s.nodes[i].energy)
  {
    hide Has, Record, Handled, Flag, Apply;
    assert [e][0] == e;
    if e.Drain? {
      hide Step, Overwrites;
      DrainEntry(s, i);
    }
  }

  lemma {:induction false} RunEntry(s: State, evs: seq<Event>, i: nat)
    requires Shaped(s) && Fitting(s, evs) && Untouched(evs, i) && i < MAX_NODES
    ensures CrashLoss.Run(s, evs).nodes[i].uid == Occupant(evs, i, s.nodes[i].uid)
    ensures CrashLoss.Run(s, evs).nodes[i].energy == Shown(s.nodes[i].energy, LastRead(s, evs, i))
    decreases |evs|
  {
    hide Step, Possible, Fits, Overwrites, Has, Record;
    if evs != [] {
      var before, e := evs[..|evs| - 1], evs[|evs| - 1];
      RunEntry(s, before, i);
      StepEntry(CrashLoss.Run(s, before), e, i);
    }
  }

  // ----- The queue -----

  lemma StepQueue(s: State, e: Event)
    requires Shaped(s) && Possible(s, e)
    ensures !e.Drain? ==> s.queue <= Step(s, e).queue
    ensures e.Drain? && s.queue != [] ==> Step(s, e).queue == s.queue[1..]
  {
    hide Messages, Handled, Apply, Joined, Unlabelled, Relabelled;
  }

  /** Messages leave in the order in which they came. */
  lemma {:induction false} RunQueue(s: State, evs: seq<Event>)
    requires Shaped(s) && Fitting(s, evs) && Drains(evs) <= |s.queue|
    ensures s.queue[Drains(evs)..] <= CrashLoss.Run(s, evs).queue
    decreases |evs|
  {
    hide Step, Possible, Fits;
    if evs != [] {
      var before, e := evs[..|evs| - 1], evs[|evs| - 1];
      RunQueue(s, before);
      StepQueue(CrashLoss.Run(s, before), e);
    }
  }

  // ----- Another device's save -----

  /** A new device takes the block of `uid`. */
  predicate PushedOut(s: Store, uid: UInt16, newcomer: UInt16)
    requires |s.blocks| == MAX_NODES
  {
    !Blank(newcomer) && !Has(s, newcomer) && Fifo(s)[0] == uid
  }

  lemma OtherApplied(a: Store, op: Op, uid: UInt16, total: UInt32)
    requires |a.blocks| == MAX_NODES && OpShaped(op) && DistinctStamps(a) && !Blank(uid) && uid != op.uid
    ensures Filed(Apply(a, op), uid, total) <==> Filed(a, uid, total) && !PushedOut(a, uid, op.uid)
    ensures DistinctStamps(Apply(a, op)) && (!Blank(op.uid) ==> Has(Apply(a, op), op.uid))
  {
    ApplyKeepsDistinct(a, op);
    if !Blank(op.uid) {
      ApplyWrites(a, op);
    }
    hide Apply, Has, Record, DistinctStamps, Fifo, Written;
    if Has(a, uid) {
      ApplyIsLocal(a, op, uid);
    } else {
      StaysAway(a, op, uid);
    }
  }

  lemma OtherSaved(m: Persist, uid: UInt16, total: UInt32)
    requires PersistShaped(m) && DistinctStamps(m.store) && !Blank(uid) && uid != m.hint.uid
    ensures |AfterSave(m, true, true).store.blocks| == MAX_NODES
    ensures Filed(AfterSave(m, true, true).store, uid, total)
            <==> Filed(m.store, uid, total) && !PushedOut(m.store, uid, m.hint.uid)
  {
    hide Apply, Has, Filed, DistinctStamps, Fifo, StrLCpy, HistoryBytes;
    OtherApplied(m.store, EnergyOp(m.hint, m.scratch), uid, total);
    var m' := AfterEnergy(m);
    OtherApplied(m'.store, HistoryOp(m.hint, m'.scratch), uid, total);
  }

  // ----- The save of an eviction -----

  /** The eviction of slot i, the events until its save is the next message, and the handling of that. */
  ghost predicate SaveComes(s: State, i: nat, between: seq<Event>)
    requires Shaped(s)
  {
    && i < MAX_NODES && s.active[i] && !Blank(s.nodes[i].uid) && Fits(s, Evict(i))
    && Fitting(Step(s, Evict(i)), between)
    && Drains(between) == |s.queue|
  }

  /** The gateway when the save is the next message, and after it. */
  ghost function AtSave(s: State, i: nat, between: seq<Event>): (b: State)
    requires Shaped(s) && SaveComes(s, i, between)
    ensures Shaped(b)
  {
    CrashLoss.Run(Step(s, Evict(i)), between)
  }

  ghost function AfterSaving(s: State, i: nat, between: seq<Event>): (t: State)
    requires Shaped(s) && SaveComes(s, i, between)
    ensures Shaped(t)
  {
    Step(AtSave(s, i, between), Drain)
  }

  /** What a restore of the slot has read in the meantime. */
  ghost function ReadMeanwhile(s: State, i: nat, between: seq<Event>): Option<UInt32>
    requires Shaped(s) && SaveComes(s, i, between)
  {
    LastRead(Step(s, Evict(i)), between, i)
  }

  lemma SaveIsNext(s: State, i: nat, between: seq<Event>)
    requires Shaped(s) && SaveComes(s, i, between)
    ensures var b := AtSave(s, i, between); b.queue != [] && b.queue[0] == SaveMessage(i, true, true)
  {
    var a := Step(s, Evict(i));
    hide Step, SaveMessage, CrashLoss.Run, Fitting;
    EvictedEntry(s, i);
    RunQueue(a, between);
    assert a.queue[|s.queue|..] == [SaveMessage(i, true, true)];
  }

  /**
   * Whatever happens in the meantime, packets and clearings of the slot apart: if the evicted
   * device is (again) the last to have joined, its record holds its total after the save exactly
   * if no restore in between read anything else. If another device is there, its save files the
   * entry's total under that one, and the evicted device has what earlier saves left it.
   */
  lemma EvictionFiledExactly(s: State, i: nat, between: seq<Event>)
    requires Accounted(s) && SaveComes(s, i, between) && Untouched(between, i)
    ensures
      var b, t, read := AtSave(s, i, between), AfterSaving(s, i, between), ReadMeanwhile(s, i, between);
      var uid, total, occupant := s.nodes[i].uid, s.nodes[i].energy, Occupant(between, i, s.nodes[i].uid);
      && (Filed(t.store, uid, total) <==>
            if occupant == uid then read in {None, Some(total)}
            else Filed(b.store, uid, total) && !PushedOut(b.store, uid, occupant))
      && (!Blank(occupant) ==> Filed(t.store, occupant, Shown(total, read)))
  {
    hide Accounted, Filed, ReadMeanwhile, PushedOut, Occupant, Step, SaveMessage, AtSave, Fits, Fitting;
    AccountedAt(s, i);
    AtTheSave(s, i, between);
    SaveFiles(AtSave(s, i, between), i, s.nodes[i].uid, s.nodes[i].energy);
  }

  lemma AtTheSave(s: State, i: nat, between: seq<Event>)
    requires Accounted(s) && SaveComes(s, i, between) && Untouched(between, i)
    ensures
      var b := AtSave(s, i, between);
      && Accounted(b)
      && b.queue != [] && b.queue[0] == SaveMessage(i, true, true)
      && b.nodes[i].uid == Occupant(between, i, s.nodes[i].uid)
      && b.nodes[i].energy == Shown(s.nodes[i].energy, ReadMeanwhile(s, i, between))
  {
    hide Accounted, CrashLoss.Run, Fitting, LastRead, Occupant, Step, SaveMessage;
    AccountedAt(s, i);
    var a := Step(s, Evict(i));
    SaveIsNext(s, i, between);
    StepKeepsAccounts(s, Evict(i));
    RunKeepsAccounts(a, between);
    RunEntry(a, between, i);
    EvictedEntry(s, i);
  }

  /** A save of slot i, and the record of any device. */
  lemma SaveFiles(b: State, i: nat, uid: UInt16, total: UInt32)
    requires Accounted(b) && i < MAX_NODES && !Blank(uid)
    requires b.queue != [] && b.queue[0] == SaveMessage(i, true, true)
    ensures Filed(Step(b, Drain).store, uid, total) <==>
            if b.nodes[i].uid == uid then b.nodes[i].energy == total
            else Filed(b.store, uid, total) && !PushedOut(b.store, uid, b.nodes[i].uid)
    ensures !Blank(b.nodes[i].uid) ==> Filed(Step(b, Drain).store, b.nodes[i].uid, b.nodes[i].energy)
  {
    hide Accounted, Has, Record, Step, Flag, SaveMessage, PushedOut, DistinctStamps, SlotAccounted;
    AccountedAt(b, i);
    MessageRoundTrip(i, true, true);
    MessageFiles(b);
    SavedStore(b, i);
    if b.nodes[i].uid != uid {
      OtherSaved(Persist(b.store, b.nodes[i], b.scratch), uid, total);
    }
  }

  lemma EvictedEntry(s: State, i: nat)
    requires Shaped(s) && i < MAX_NODES && s.active[i]
    ensures var a := Step(s, Evict(i));
      && a.nodes[i].uid == s.nodes[i].uid && a.nodes[i].energy == s.nodes[i].energy && !a.active[i]
      && a.store == s.store && a.queue == s.queue + [SaveMessage(i, true, true)]
  {
  }

  lemma SavedStore(b: State, i: nat)
    requires Shaped(b) && i < MAX_NODES && b.queue != [] && b.queue[0] == SaveMessage(i, true, true)
    ensures Step(b, Drain).store == AfterSave(Persist(b.store, b.nodes[i], b.scratch), true, true).store
  {
    hide AfterSave, Handled, Flag, SaveMessage, Step;
    HandledSave(b, i);
    DrainStore(b);
  }

  lemma DrainStore(b: State)
    requires Shaped(b) && b.queue != [] && b.queue[0] % 0x10 < MAX_NODES
    ensures Step(b, Drain).store == Handled(b, b.queue[0]).store
  {
    hide Handled, Books, OwnBook;
  }

  lemma HandledSave(b: State, i: nat)
    requires Shaped(b) && i < MAX_NODES
    ensures SaveMessage(i, true, true) % 0x10 == i
    ensures Handled(b, SaveMessage(i, true, true)) == AfterSave(Persist(b.store, b.nodes[i], b.scratch), true, true)
  {
    MessageRoundTrip(i, true, true);
    hide AfterSave, AfterRestore, Flag, SaveMessage;
  }

  /** So the save reaches a record that is behind if and only if two things hold. */
  lemma FiledByEviction(s: State, i: nat, between: seq<Event>)
    requires Accounted(s) && SaveComes(s, i, between) && Untouched(between, i)
    requires !Filed(AtSave(s, i, between).store, s.nodes[i].uid, s.nodes[i].energy)
    ensures
      var uid, total := s.nodes[i].uid, s.nodes[i].energy;
      Filed(AfterSaving(s, i, between).store, uid, total)
      <==> Occupant(between, i, uid) == uid && ReadMeanwhile(s, i, between) in {None, Some(total)}
  {
    hide Accounted, Filed, ReadMeanwhile, PushedOut, Occupant, AfterSaving, AtSave, SaveComes;
    EvictionFiledExactly(s, i, between);
  }

  predicate RestoreWaits(queue: seq<UInt8>, i: nat) {
    exists k :: 0 <= k < |queue| && queue[k] % 0x10 == i && Flag(queue[k], RESTORE)
  }

  /** Nothing is read in between if no restore of the slot was waiting at the eviction. */
  lemma {:induction false} NothingRead(s: State, i: nat, queue: seq<UInt8>, evs: seq<Event>)
    requires Shaped(s) && Fitting(s, evs) && i < MAX_NODES
    requires queue <= s.queue && Drains(evs) <= |queue| && !RestoreWaits(queue, i)
    ensures LastRead(s, evs, i) == None
    decreases |evs|
  {
    hide Step, Possible, Fits, Has, Record, Flag;
    if evs != [] {
      var before := evs[..|evs| - 1];
      NothingRead(s, i, queue, before);
      if evs[|evs| - 1].Drain? {
        RunQueue(s, before);
        assert CrashLoss.Run(s, before).queue[0] == queue[Drains(before)];
      }
    }
  }

  /** With no restore of the slot waiting at the eviction, only the occupant of the slot matters. */
  lemma FiledWithoutRestore(s: State, i: nat, between: seq<Event>)
    requires Accounted(s) && SaveComes(s, i, between) && Untouched(between, i) && !RestoreWaits(s.queue, i)
    ensures
      var b, uid, total := AtSave(s, i, between), s.nodes[i].uid, s.nodes[i].energy;
      var occupant := Occupant(between, i, uid);
      Filed(AfterSaving(s, i, between).store, uid, total) <==>
        occupant == uid || (Filed(b.store, uid, total) && !PushedOut(b.store, uid, occupant))
  {
    hide Accounted, Fitting, Filed, PushedOut, Occupant, Step, LastRead, RestoreWaits, SaveMessage, AtSave, AfterSaving;
    AccountedAt(s, i);
    EvictionFiledExactly(s, i, between);
    EvictedEntry(s, i);
    NothingRead(Step(s, Evict(i)), i, s.queue, between);
  }

  // ----- The two ways to fail -----

  /**
   * A message names a slot, not a device. If another device joins in an evicted slot before the
   * eviction's save is carried out, the total of the evicted device is filed under the new UID,
   * and its own record stays without it.
   */
  lemma LateSaveMisfiled(s: State, i: nat, uid: UInt16, text: seq<UInt8>)
    requires Accounted(s) && i < MAX_NODES && s.active[i] && s.queue == []
    requires !Blank(uid) && uid != s.nodes[i].uid && !Blank(s.nodes[i].uid) && Terminated(text)
    ensures Fitting(s, [Evict(i), Join(i, uid, text), Drain])
    ensures var t := CrashLoss.Run(s, [Evict(i), Join(i, uid, text), Drain]);
      && t.nodes[i].uid == uid
      && Has(t.store, uid) && Record(t.store, uid).energy == s.nodes[i].energy
      && (Has(t.store, s.nodes[i].uid) ==>
            Has(s.store, s.nodes[i].uid)
            && Record(t.store, s.nodes[i].uid).energy == Record(s.store, s.nodes[i].uid).energy)
  {
    hide Accounted, Step, Handled, Has, Record, SaveMessage, RestoreMessage, Flag, DistinctStamps, SlotAccounted;
    AccountedAt(s, i);
    var join := Join(i, uid, text);
    var a := Step(s, Evict(i));
    EvictedEntry(s, i);
    var b := Step(a, join);
    JoinedEntry(a, join);
    StepKeepsAccounts(s, Evict(i));
    StepKeepsAccounts(a, join);
    RunTwo(s, Evict(i), join);
    RunOneMore(s, [Evict(i), join], Drain);
    assert [Evict(i), join] + [Drain] == [Evict(i), join, Drain];
    MessageRoundTrip(i, true, true);
    AccountedAt(b, i);
    SaveFiles(b, i, uid, s.nodes[i].energy);
    HandledLeavesOthers(b, b.queue[0]);
    DrainStore(b);
    StepEntry(b, Drain, i);
  }

  lemma JoinedEntry(a: State, join: Event)
    requires Shaped(a) && join.Join? && Possible(a, join)
    ensures var b, i := Step(a, join), join.i;
      && b.nodes[i].uid == join.uid && b.nodes[i].energy == a.nodes[i].energy
      && b.store == a.store && b.queue == a.queue + [RestoreMessage(i)]
  {
    hide RestoreMessage;
  }

  /** A restore that waits ahead of the save puts the stored total back, and the save stores that again. */
  lemma RestoreOvertakes(s: State, i: nat)
    requires Accounted(s) && i < MAX_NODES && s.active[i] && s.queue == [RestoreMessage(i)]
    requires !Blank(s.nodes[i].uid) && Has(s.store, s.nodes[i].uid)
    ensures Fitting(s, [Evict(i), Drain, Drain])
    ensures Filed(CrashLoss.Run(s, [Evict(i), Drain, Drain]).store, s.nodes[i].uid,
                  Record(s.store, s.nodes[i].uid).energy)
  {
    hide Accounted, Step, RestoreMessage, SaveMessage, Has, Record, Filed, LastRead, Overwrites;
    AccountedAt(s, i);
    EvictedEntry(s, i);
    EvictThenDrain(s, i);
    OneDrain(Step(s, Evict(i)));
    RestoreRead(s, i);
    EvictionFiledExactly(s, i, [Drain]);
  }

  lemma OneDrain(a: State)
    requires Shaped(a) && |a.queue| <= QUEUE_DEPTH
    ensures Fitting(a, [Drain]) && CrashLoss.Run(a, [Drain]) == Step(a, Drain)
    ensures Drains([Drain]) == 1
  {
    hide Step;
    assert [] + [Drain] == [Drain];
    RunOneMore(a, [], Drain);
    assert [Drain][..0] == [];
  }

  lemma EvictThenDrain(s: State, i: nat)
    requires Shaped(s) && i < MAX_NODES && s.active[i] && s.queue == [RestoreMessage(i)]
    ensures Fitting(s, [Evict(i), Drain, Drain]) && Fits(s, Evict(i))
    ensures CrashLoss.Run(s, [Evict(i), Drain, Drain]) == Step(Step(Step(s, Evict(i)), Drain), Drain)
  {
    hide Step, RestoreMessage, SaveMessage;
    var a := Step(s, Evict(i));
    EvictedEntry(s, i);
    StepQueue(a, Drain);
    RunTwo(s, Evict(i), Drain);
    RunOneMore(s, [Evict(i), Drain], Drain);
    assert [Evict(i), Drain] + [Drain] == [Evict(i), Drain, Drain];
  }

  lemma RestoreRead(s: State, i: nat)
    requires Shaped(s) && i < MAX_NODES && s.active[i] && s.queue == [RestoreMessage(i)]
    requires !Blank(s.nodes[i].uid) && Has(s.store, s.nodes[i].uid)
    ensures var a := Step(s, Evict(i));
      Fitting(a, [Drain]) && LastRead(a, [Drain], i) == Some(Record(s.store, s.nodes[i].uid).energy)
  {
    hide Step, RestoreMessage, SaveMessage, Has, Record, Flag;
    EvictedEntry(s, i);
    MessageRoundTrip(i, true, true);
    OneDrain(Step(s, Evict(i)));
    OneRead(Step(s, Evict(i)), i);
  }

  lemma OneRead(a: State, i: nat)
    requires Shaped(a) && i < MAX_NODES && Overwrites(a, i) && Fitting(a, [Drain])
    ensures LastRead(a, [Drain], i) == Some(Record(a.store, a.nodes[i].uid).energy)
  {
    hide Overwrites, Has, Record, Step;
    assert [Drain][..0] == [];
    assert CrashLoss.Run(a, []) == a;
  }

  // ----- Both from power-up -----

  const NEWCOMER: UInt16 := 7

  /** One packet of 1 Wh, an eviction, and a new device before the save: the 1 Wh is the new device's. */
  lemma LateSaveExample()
    ensures var s, evs := FreshGateway(), SentEvents(1) + [Evict(0), Join(0, NEWCOMER, NO_LABEL), Drain];
      && PowerUp(s) && Fitting(s, evs)
      && Filed(CrashLoss.Run(s, evs).store, NEWCOMER, 1) && !Filed(CrashLoss.Run(s, evs).store, DEVICE, 1)
  {
    hide FreshGateway, SentState, CrashLoss.Run, Fitting, Accounted, PowerUp, Has, Record, SentEvents;
    var s, m := FreshGateway(), SentState(1);
    SentRun(1);
    RunKeepsAccounts(s, SentEvents(1));
    OneSent();
    LateSaveMisfiled(m, 0, NEWCOMER, NO_LABEL);
    RunAppend(s, SentEvents(1), [Evict(0), Join(0, NEWCOMER, NO_LABEL), Drain]);
  }

  lemma OneSent()
    ensures var m := SentState(1);
      && Shaped(m) && m.active[0] && m.queue == [] && m.nodes[0].uid == DEVICE && m.nodes[0].energy == 1
      && Has(m.store, DEVICE) && Record(m.store, DEVICE).energy == 0
      && Terminated(NO_LABEL)
  {
    SentShaped(1);
    assert !Has(FreshGateway().store, DEVICE);
    OwnRecord(FreshGateway().store, RestoreOp(NewEntry(DEVICE, 0)));
    hide Apply, Has, Record, StrLCpy, SaveMessage;
    StrLenIs(NO_LABEL, 0);
  }

  /** A join and a renaming, which makes the record, then one packet; the restore of the join still waits. */
  const RENAMED: seq<Event> := [Join(0, DEVICE, NO_LABEL), Rename(0, NO_LABEL), Accept(0, 1, NewEntry(DEVICE, 1))]

  /** Evicted like that, the device loses the packet: its record says 0 Wh. */
  lemma RestoreOvertakesExample()
    ensures var s, evs := FreshGateway(), RENAMED + [Evict(0), Drain, Drain];
      && PowerUp(s) && Fitting(s, evs) && Fitting(s, RENAMED)
      && CrashLoss.Run(s, RENAMED).nodes[0].energy == 1
      && Filed(CrashLoss.Run(s, evs).store, DEVICE, 0)
  {
    hide FreshGateway, CrashLoss.Run, Fitting, Accounted, PowerUp, Has, Record, RestoreMessage, Step;
    var s := FreshGateway();
    RenamedRun();
    RunKeepsAccounts(s, RENAMED);
    RestoreOvertakes(CrashLoss.Run(s, RENAMED), 0);
    RunAppend(s, RENAMED, [Evict(0), Drain, Drain]);
  }

  lemma RenamedRun()
    ensures Shaped(FreshGateway()) && Fitting(FreshGateway(), RENAMED)
    ensures var m := CrashLoss.Run(FreshGateway(), RENAMED);
      && m.active[0] && m.queue == [RestoreMessage(0)] && m.nodes[0].uid == DEVICE && m.nodes[0].energy == 1
      && Has(m.store, DEVICE) && Record(m.store, DEVICE).energy == 0
  {
    hide Apply, Has, Record, RestoreMessage, StrLCpy, Fitting, CrashLoss.Run, Step, FreshGateway, HintShaped;
    var s, join, packet := FreshGateway(), Join(0, DEVICE, NO_LABEL), Accept(0, 1, NewEntry(DEVICE, 1));
    var rename := Rename(0, NO_LABEL);
    assert RENAMED == [join, rename] + [packet];
    FirstJoin();
    RenamedEntry(Step(s, join));
    LastPacket(Step(Step(s, join), rename));
    RunTwo(s, join, rename);
    RunOneMore(s, [join, rename], packet);
  }

  lemma FirstJoin()
    ensures var s, join := FreshGateway(), Join(0, DEVICE, NO_LABEL);
      && Terminated(NO_LABEL) && Possible(s, join) && Fits(s, join)
      && var a := Step(s, join);
      && a.nodes[0] == NewEntry(DEVICE, 0) && a.active[0] && a.energyDirty[0] == a.histDirty[0] == 0
      && a.queue == [RestoreMessage(0)]
  {
    hide RestoreMessage;
    StrLenIs(NO_LABEL, 0);
  }

  lemma LastPacket(m: State)
    requires Shaped(m) && m.nodes[0] == NewEntry(DEVICE, 0) && m.active[0] && m.queue == [RestoreMessage(0)]
    requires m.energyDirty[0] == m.histDirty[0] == 0
    ensures var packet := Accept(0, 1, NewEntry(DEVICE, 1));
      && Possible(m, packet) && Fits(m, packet)
      && var t := Step(m, packet);
      && t.active == m.active && t.queue == m.queue && t.store == m.store && t.nodes[0] == NewEntry(DEVICE, 1)
  {
    hide RestoreMessage;
  }

  /** A renaming before the restore: a record without history or energy. */
  lemma RenamedEntry(a: State)
    requires Terminated(NO_LABEL)
    requires a == Step(FreshGateway(), Join(0, DEVICE, NO_LABEL))
    ensures var b := Step(a, Rename(0, NO_LABEL));
      && b == a.(store := b.store, nodes := b.nodes, books := b.books)
      && b.nodes[0] == a.nodes[0]
      && Has(b.store, DEVICE) && Record(b.store, DEVICE).energy == 0
  {
    var op := Op.SaveLabel(DEVICE, NO_LABEL);
    assert !Has(a.store, DEVICE);
    ApplyWrites(a.store, op);
    hide Apply, Has, Record, Books;
    assert StrLCpy(NO_LABEL, NO_LABEL) == NO_LABEL;
  }
}
