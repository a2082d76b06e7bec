/**
 * The names that users give to nodes. An eviction empties the label of the slot and saves the
 * device; the name lives on in its record, and is to come back with the device.
 */
module NodeNames {
  import opened Protocol
  import opened Words
  import opened FramLayout
  import opened FramStore
  import opened FramTask
  import opened CrashLoss
  import opened LateSaves

  /** The name in a device's record, as a restore reads it. */
  function NameOf(s: Store, uid: UInt16): seq<UInt8>
    requires |s.blocks| == MAX_NODES && Has(s, uid) && |Record(s, uid).nodeLabel| == LABEL_BYTES
  {
    CStr(Closed(Record(s, uid).nodeLabel))
  }

  predicate Named(s: Store, uid: UInt16)
    requires |s.blocks| == MAX_NODES
  {
    Has(s, uid) && |Record(s, uid).nodeLabel| == LABEL_BYTES && Record(s, uid).nodeLabel[0] != 0
  }

  // ----- Records of devices that nobody serves -----

  /** No event of the run serves a slot that shows `uid`. */
  ghost predicate Quiet(s: State, evs: seq<Event>, uid: UInt16)
    requires Shaped(s) && Fitting(s, evs)
    decreases |evs|
  {
    evs != [] ==>
      var m, e := CrashLoss.Run(s, evs[..|evs| - 1]), evs[|evs| - 1];
      && Quiet(s, evs[..|evs| - 1], uid)
      && (Served(m, e).Some? && Served(m, e).value < MAX_NODES ==> m.nodes[Served(m, e).value].uid != uid)
  }

  lemma StepLeavesRecord(s: State, e: Event, uid: UInt16)
    requires Shaped(s) && DistinctStamps(s.store) && Possible(s, e) && !Blank(uid)
    requires Served(s, e).Some? && Served(s, e).value < MAX_NODES ==> s.nodes[Served(s, e).value].uid != uid
    ensures Has(Step(s, e).store, uid) ==> Has(s.store, uid) && Record(Step(s, e).store, uid) == Record(s.store, uid)
  {
    hide Has, Record, Apply, Handled, DistinctStamps, Messages, Relabelled;
    if e.Rename? {
      ApplyLeavesOthers(s.store, Op.SaveLabel(s.nodes[e.i].uid, Relabelled(s.nodes[e.i], e.text).text));
    } else if e.Drain? && Served(s, e).Some? {
      HandledLeavesOthers(s, s.queue[0]);
    }
  }

  /** Such a run leaves the record of the device exactly as it was, as long as it is there. */
  lemma {:induction false} QuietKeepsRecord(s: State, evs: seq<Event>, uid: UInt16)
    requires Accounted(s) && Fitting(s, evs) && Quiet(s, evs, uid) && !Blank(uid)
    ensures var t := CrashLoss.Run(s, evs);
      Has(t.store, uid) ==> Has(s.store, uid) && Record(t.store, uid) == Record(s.store, uid)
    decreases |evs|
  {
    hide Accounted, Step, Possible, Fits, Has, Record, Served;
    AccountedAt(s, 0);
    if evs != [] {
      var before := evs[..|evs| - 1];
      QuietKeepsRecord(s, before, uid);
      RunKeepsAccounts(s, before);
      AccountedAt(CrashLoss.Run(s, before), 0);
      StepLeavesRecord(CrashLoss.Run(s, before), evs[|evs| - 1], uid);
    }
  }

  // ----- What can change an entry -----

  lemma DrainMoves(s: State, j: nat)
    requires Shaped(s) && j < MAX_NODES
    ensures Step(s, Drain).nodes[j] != s.nodes[j] ==> Overwrites(s, j)
  {
    if s.queue != [] && s.queue[0] % 0x10 == j {
      if !Flag(s.queue[0], RESTORE) {
        SavedHint(s, s.queue[0]);
      }
    }
    hide Has, Record, Apply, StrLCpy, Closed, HistoryOf, Flag, AfterSave, Books, OwnBook, Restored;
  }

  /**
   * A restore of a known device may change all of an entry but its UID. Else the UID changes by a join
   * only, the label by a join, an eviction or a renaming, the total by a packet or a clearing, and the
   * history by a packet.
   */
  lemma EntryMoves(s: State, e: Event, j: nat)
    requires Shaped(s) && Possible(s, e) && j < MAX_NODES
    ensures var n, n', own := s.nodes[j], Step(s, e).nodes[j], !e.Drain? && e.i == j;
      && (n'.uid != n.uid ==> own && e.Join?)
      && (e.Drain? && n' != n ==> Overwrites(s, j))
      && (!e.Drain? && n'.text != n.text ==> own && (e.Join? || e.Evict? || e.Rename?))
      && (!e.Drain? && n'.energy != n.energy ==> own && (e.Accept? || e.Clear?))
      && (!e.Drain? && (n'.histHead, n'.histCount, n'.history) != (n.histHead, n.histCount, n.history) ==>
            own && e.Accept?)
    ensures e.Clear? ==> Step(s, e).nodes[e.i].energy == 0 && Step(s, e).store == s.store
  {
    if e.Drain? {
      hide Step, Overwrites;
      DrainMoves(s, j);
      DrainEntry(s, j);
    }
    hide Apply, StrLCpy, Books, Handled, Messages, Overwrites, Has;
  }

  // ----- The save of an eviction -----

  lemma SaveLabels(b: State, i: nat)
    requires Accounted(b) && i < MAX_NODES && !Blank(b.nodes[i].uid)
    requires b.queue != [] && b.queue[0] == SaveMessage(i, true, true)
    ensures var uid, text, t := b.nodes[i].uid, b.nodes[i].text, Step(b, Drain);
      && Has(t.store, uid)
      && (text[0] == 0 && Has(b.store, uid) ==> Record(t.store, uid).nodeLabel == Record(b.store, uid).nodeLabel)
      && (text[0] != 0 ==> Named(t.store, uid) && NameOf(t.store, uid) == CStr(text))
  {
    hide Accounted, Has, Record, Step, Flag, SaveMessage, DistinctStamps, SlotAccounted, AfterSave, Target, StrLCpy;
    AccountedAt(b, i);
    SavedStore(b, i);
    var m := Persist(b.store, b.nodes[i], b.scratch);
    SavedFields(m, true, true);
    RecordShaped(AfterSave(m, true, true).store, m.hint.uid);
    ClosedTerminated(Record(AfterSave(m, true, true).store, m.hint.uid).nodeLabel);
    if Has(b.store, m.hint.uid) {
      RecordIsTarget(b.store, m.hint.uid);
    }
  }

  lemma ClosedTerminated(text: seq<UInt8>)
    requires |text| == LABEL_BYTES
    ensures Terminated(text) ==> CStr(Closed(text)) == CStr(text)
    ensures Terminated(text) && CStr(text) != [] ==> text[0] != 0
  {
    if Terminated(text) {
      StrLenIs(Closed(text), StrLen(text));
    }
  }

  /**
   * The save of an eviction leaves the stored name alone exactly if the entry of the slot has no
   * label then, or the same one; otherwise the entry's label takes its place.
   */
  lemma NameAfterEviction(s: State, i: nat, between: seq<Event>)
    requires Accounted(s) && SaveComes(s, i, between)
    requires var b := AtSave(s, i, between); b.nodes[i].uid == s.nodes[i].uid && Named(b.store, s.nodes[i].uid)
    ensures
      var b, t, uid := AtSave(s, i, between), AfterSaving(s, i, between), s.nodes[i].uid;
      && Named(t.store, uid)
      && (NameOf(t.store, uid) == NameOf(b.store, uid)
          <==> b.nodes[i].text[0] == 0 || CStr(b.nodes[i].text) == NameOf(b.store, uid))
      && (b.nodes[i].text[0] != 0 ==> NameOf(t.store, uid) == CStr(b.nodes[i].text))
  {
    hide Accounted, Has, Record, Step, SaveMessage, AtSave, Fits, Fitting, CStr, Closed;
    AccountedAt(s, i);
    EvictionAccounts(s, i, between);
    SaveIsNext(s, i, between);
    SaveLabels(AtSave(s, i, between), i);
  }

  lemma EvictionAccounts(s: State, i: nat, between: seq<Event>)
    requires Accounted(s) && SaveComes(s, i, between)
    ensures Accounted(AtSave(s, i, between))
  {
    hide Accounted, CrashLoss.Run, Fitting, Step;
    AccountedAt(s, 0);
    StepKeepsAccounts(s, Evict(i));
    RunKeepsAccounts(Step(s, Evict(i)), between);
  }

  // ----- From eviction to return -----

  lemma EvictedLabel(s: State, i: nat)
    requires Shaped(s) && i < MAX_NODES && s.active[i]
    ensures Step(s, Evict(i)).nodes[i].text[0] == 0
  {
    hide SaveMessage;
  }

  /** Saved at once, a named device that is evicted keeps the name in its record. */
  lemma EvictionKeepsName(s: State, i: nat)
    requires Accounted(s) && i < MAX_NODES && s.active[i] && s.queue == [] && !Blank(s.nodes[i].uid)
    requires Named(s.store, s.nodes[i].uid)
    ensures var t, uid := Step(Step(s, Evict(i)), Drain), s.nodes[i].uid;
      && Accounted(t) && Named(t.store, uid) && NameOf(t.store, uid) == NameOf(s.store, uid)
  {
    hide Accounted, Has, Record, Step, SaveMessage, CStr, Closed;
    AccountedAt(s, i);
    EvictedEntry(s, i);
    EvictedLabel(s, i);
    StepKeepsAccounts(s, Evict(i));
    StepKeepsAccounts(Step(s, Evict(i)), Drain);
    SaveLabels(Step(s, Evict(i)), i);
  }

  lemma RestoreNames(p: State, j: nat)
    requires Accounted(p) && j < MAX_NODES && p.queue != [] && p.queue[0] == RestoreMessage(j)
    requires !Blank(p.nodes[j].uid) && Named(p.store, p.nodes[j].uid)
    ensures CStr(Step(p, Drain).nodes[j].text) == NameOf(p.store, p.nodes[j].uid)
  {
    hide Accounted, Has, Record, RestoreMessage, Flag, CStr, Closed, Books, OwnBook, AfterRestore, AfterSave;
    AccountedAt(p, j);
    MessageRoundTrip(j, false, false);
    KnownRestored(Persist(p.store, p.nodes[j], p.scratch));
  }

  /**
   * The name comes back: a named device is evicted and saved; whatever happens to others, it joins
   * again in any slot with any default label, and its restore is carried out before anything else is
   * done for it. Then its entry shows the name, unless newer devices have pushed the record out.
   */
  lemma NameReturns(s: State, i: nat, evs: seq<Event>, j: nat, text: seq<UInt8>, later: seq<Event>)
    requires Accounted(s) && i < MAX_NODES && s.active[i] && s.queue == [] && !Blank(s.nodes[i].uid)
    requires Named(s.store, s.nodes[i].uid)
    requires
      var a, uid := Step(Step(s, Evict(i)), Drain), s.nodes[i].uid;
      && Fitting(a, evs) && Quiet(a, evs, uid)
      && Possible(CrashLoss.Run(a, evs), Join(j, uid, text))
      && var n := Step(CrashLoss.Run(a, evs), Join(j, uid, text));
      && Fitting(n, later) && Quiet(n, later, uid)
      && var p := CrashLoss.Run(n, later);
      && p.queue != [] && p.queue[0] == RestoreMessage(j) && p.nodes[j].uid == uid && Has(p.store, uid)
    ensures
      var a, uid := Step(Step(s, Evict(i)), Drain), s.nodes[i].uid;
      var p := CrashLoss.Run(Step(CrashLoss.Run(a, evs), Join(j, uid, text)), later);
      CStr(Step(p, Drain).nodes[j].text) == NameOf(s.store, uid)
  {
    hide Accounted, Has, Record, Step, RestoreMessage, CStr, Closed, Quiet, Fitting, CrashLoss.Run, Blank;
    AccountedAt(s, i);
    EvictionKeepsName(s, i);
    var a, uid, join := Step(Step(s, Evict(i)), Drain), s.nodes[i].uid, Join(j, s.nodes[i].uid, text);
    var m := CrashLoss.Run(a, evs);
    RunKeepsAccounts(a, evs);
    QuietKeepsRecord(a, evs, uid);
    StepKeepsAccounts(m, join);
    JoinedEntry(m, join);
    var n := Step(m, join);
    RunKeepsAccounts(n, later);
    QuietKeepsRecord(n, later, uid);
    RestoreNames(CrashLoss.Run(n, later), j);
  }

  /**
   * But a device that is back in its slot before the eviction's save is carried out loses its name:
   * the save finds the default label, and stores that.
   */
  lemma QuickReturn(s: State, i: nat, text: seq<UInt8>)
    requires Accounted(s) && i < MAX_NODES && s.active[i] && s.queue == [] && !Blank(s.nodes[i].uid)
    requires Terminated(text) && text[0] != 0
    ensures Fitting(s, [Evict(i), Join(i, s.nodes[i].uid, text), Drain])
    ensures var t, uid := CrashLoss.Run(s, [Evict(i), Join(i, s.nodes[i].uid, text), Drain]), s.nodes[i].uid;
      && Named(t.store, uid) && NameOf(t.store, uid) == CStr(text)
  {
    hide Accounted, Step, SaveMessage, RestoreMessage, Has, Record, CStr, Closed;
    AccountedAt(s, i);
    var join := Join(i, s.nodes[i].uid, text);
    var a := Step(s, Evict(i));
    EvictedEntry(s, i);
    EvictedLabel(s, i);
    var b := Step(a, join);
    JoinedEntry(a, join);
    DefaultLabel(a, join);
    StepKeepsAccounts(s, Evict(i));
    StepKeepsAccounts(a, join);
    RunTwo(s, Evict(i), join);
    RunOneMore(s, [Evict(i), join], Drain);
    assert [Evict(i), join] + [Drain] == [Evict(i), join, Drain];
    SaveLabels(b, i);
  }

  /** The default label is for entries without one. */
  lemma DefaultLabel(a: State, join: Event)
    requires Shaped(a) && join.Join? && Possible(a, join)
    ensures Step(a, join).nodes[join.i].text == if a.nodes[join.i].text[0] == 0 then join.text else a.nodes[join.i].text
  {
    hide RestoreMessage;
  }

  /** A renaming is in the record at once, and in the entry. */
  lemma RenameSticks(s: State, i: nat, text: seq<UInt8>)
    requires Accounted(s) && Possible(s, Rename(i, text)) && !Blank(s.nodes[i].uid) && text[0] != 0
    ensures var t, uid := Step(s, Rename(i, text)), s.nodes[i].uid;
      && t.nodes[i].uid == uid && CStr(t.nodes[i].text) == CStr(text)
      && Named(t.store, uid) && NameOf(t.store, uid) == CStr(text)
  {
    hide Accounted, Has, Record, CStr, Closed, StrLCpy, Apply, Books, DistinctStamps, Target;
    AccountedAt(s, i);
    CopyKeepsString(s.nodes[i].text, text);
    CopiedEmpty(s.nodes[i].text, text);
    var h := Relabelled(s.nodes[i], text);
    ClosedTerminated(h.text);
    RenamedFields(Persist(s.store, h, s.scratch));
  }

  // ----- Both from power-up -----

  /** A label of one letter. */
  function Letter(c: UInt8): (text: seq<UInt8>)
    requires c != 0
    ensures Terminated(text) && CStr(text) == [c] && text[0] != 0
  {
    var text := [c] + Zeros(LABEL_BYTES - 1);
    StrLenIs(text, 1);
    text
  }

  /** A device joins, is named A, is evicted, and is back before the save. */
  function Hasty(): seq<Event> {
    SentEvents(0) + ([Rename(0, Letter(0x41))] + [Evict(0), Join(0, DEVICE, Letter(0x4E)), Drain])
  }

  /** Its record then holds the default label, N. */
  lemma QuickReturnExample()
    ensures var s, evs := FreshGateway(), Hasty();
      && PowerUp(s) && Fitting(s, evs)
      && (var before := SentEvents(0) + [Rename(0, Letter(0x41))];
          Fitting(s, before) && Named(CrashLoss.Run(s, before).store, DEVICE)
          && NameOf(CrashLoss.Run(s, before).store, DEVICE) == [0x41])
      && Named(CrashLoss.Run(s, evs).store, DEVICE) && NameOf(CrashLoss.Run(s, evs).store, DEVICE) == [0x4E]
  {
    hide FreshGateway, SentState, CrashLoss.Run, Fitting, Accounted, PowerUp, Has, Record, SentEvents, Step, Letter;
    hide Named, NameOf, Possible, Fits;
    var s, m, rename := FreshGateway(), SentState(0), Rename(0, Letter(0x41));
    SentRun(0);
    RunKeepsAccounts(s, SentEvents(0));
    NoneSent();
    RenameRuns(m, 0, Letter(0x41));
    var r := Step(m, rename);
    StepKeepsAccounts(m, rename);
    RenameSticks(m, 0, Letter(0x41));
    QuickReturn(r, 0, Letter(0x4E));
    var hasty := [Evict(0), Join(0, DEVICE, Letter(0x4E)), Drain];
    RunAppend(m, [rename], hasty);
    RunAppend(s, SentEvents(0), [rename]);
    RunAppend(s, SentEvents(0), [rename] + hasty);
  }

  lemma NoneSent()
    ensures var m := SentState(0); Shaped(m) && m.active[0] && m.queue == [] && m.nodes[0].uid == DEVICE
  {
    SentShaped(0);
    hide Apply, StrLCpy;
  }

  lemma RenameRuns(m: State, i: nat, text: seq<UInt8>)
    requires Shaped(m) && i < MAX_NODES && m.active[i] && m.queue == [] && Terminated(text)
    ensures Possible(m, Rename(i, text)) && Fits(m, Rename(i, text)) && Fitting(m, [Rename(i, text)])
    ensures var r := Step(m, Rename(i, text));
      && CrashLoss.Run(m, [Rename(i, text)]) == r
      && r.active == m.active && r.queue == [] && r.nodes[i].uid == m.nodes[i].uid
  {
    hide Step, Fits;
    OneRename(m, i, text);
    assert [] + [Rename(i, text)] == [Rename(i, text)];
    RunOneMore(m, [], Rename(i, text));
  }

  lemma OneRename(m: State, i: nat, text: seq<UInt8>)
    requires Shaped(m) && i < MAX_NODES && m.active[i] && m.queue == [] && Terminated(text)
    ensures Possible(m, Rename(i, text)) && Fits(m, Rename(i, text))
    ensures var r := Step(m, Rename(i, text));
      r.active == m.active && r.queue == [] && r.nodes[i].uid == m.nodes[i].uid
  {
    hide Apply, Books, StrLCpy;
  }
}
