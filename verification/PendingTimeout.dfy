/**
 * How long a command stays pending when every downlink goes out and the gateway decodes an
 * uplink in every superframe: three retries, then the 15 s timeout counted from the last of
 * them, nine superframes in all.
 */
module PendingTimeout {
  import opened Protocol
  import opened Words
  import opened Mailbox

  /** Slot start, end of the downlink transmission and processing of the uplink, in true time. */
  datatype Slot = Slot(base: nat, sent: nat, heard: nat)

  /** waitUntilMs() never returns early, so superframes are at least SUPERFRAME_MS apart. */
  ghost predicate Timed(slots: seq<Slot>) {
    && (forall k :: 0 <= k < |slots| ==>
          slots[k].base <= slots[k].sent <= slots[k].base + SLOT_DL_MS <= slots[k].heard)
    && (forall k :: 0 <= k < |slots| - 1 ==> slots[k + 1].base >= slots[k].base + SUPERFRAME_MS)
    && (forall k :: 0 <= k < |slots| ==> slots[k].heard < slots[0].sent + 0x1_0000_0000)
  }

  /** Superframes of exactly the nominal length, uplinks processed within their window. */
  ghost predicate Punctual(slots: seq<Slot>) {
    && Timed(slots)
    && (forall k :: 0 <= k < |slots| - 1 ==> slots[k + 1].base == slots[k].base + SUPERFRAME_MS)
    && (forall k :: 0 <= k < |slots| ==> slots[k].heard <= slots[k].base + SLOT_DL_MS + SLOT_UL_MS)
  }

  function After(b: Box, slots: seq<Slot>, reports: seq<Report>, k: nat): (r: Box)
    requires WellFormed(b) && k <= |slots| && k <= |reports|
    ensures WellFormed(r) && r.data == b.data && r.len == b.len
  {
    if k == 0 then b
    else AfterUplink(AfterDownlink(After(b, slots, reports, k - 1), true, Millis(slots[k - 1].sent)),
                     reports[k - 1], Millis(slots[k - 1].heard))
  }

  ghost predicate Queued(b: Box) {
    WellFormed(b) && b.len >= 2 && b.active && b.pending && b.retry == 0
  }

  lemma {:induction false} BasesApart(slots: seq<Slot>, i: nat, k: nat)
    requires Timed(slots) && i <= k < |slots|
    ensures slots[k].base >= slots[i].base + SUPERFRAME_MS * (k - i)
    ensures Punctual(slots) ==> slots[k].base == slots[i].base + SUPERFRAME_MS * (k - i)
  {
    if i < k {
      BasesApart(slots, i, k - 1);
      assert slots[k - 1 + 1].base >= slots[k - 1].base + SUPERFRAME_MS;
      assert Punctual(slots) ==> slots[k - 1 + 1].base == slots[k - 1].base + SUPERFRAME_MS;
    }
  }

  lemma NominalEnd(slots: seq<Slot>, k: nat)
    requires Timed(slots) && k < |slots|
    ensures Punctual(slots) ==> slots[k].heard <= slots[k].base + SLOT_DL_MS + SLOT_UL_MS
  {
  }

  /** Time since the last transmission, as the gateway's 32-bit clock sees it in superframe k. */
  lemma SinceSent(slots: seq<Slot>, i: nat, k: nat)
    requires Timed(slots) && i <= k < |slots|
    ensures Sub32(Millis(slots[k].heard), Millis(slots[i].sent)) == slots[k].heard - slots[i].sent
    ensures slots[k].heard - slots[i].sent >= SUPERFRAME_MS * (k - i)
    ensures Punctual(slots) ==>
              slots[k].heard - slots[i].sent <= SUPERFRAME_MS * (k - i) + SLOT_DL_MS + SLOT_UL_MS
  {
    hide Punctual, Sub32, Millis;
    BasesApart(slots, i, k);
    BasesApart(slots, 0, i);
    NominalEnd(slots, k);
    ElapsedMillis(slots[k].heard, slots[i].sent);
  }

  /** A box that is still pending after k superframes has used min(k, 3) retries. */
  lemma {:induction false} WhilePending(b: Box, slots: seq<Slot>, reports: seq<Report>, k: nat)
    requires Queued(b) && Timed(slots) && 1 <= k <= |slots| == |reports|
    requires After(b, slots, reports, k).pending
    ensures var r := After(b, slots, reports, k);
      && r.active == (k <= MAX_DL_RETRIES)
      && r.retry == (if k <= MAX_DL_RETRIES then k else MAX_DL_RETRIES)
      && r.sentAt == Millis(slots[if k <= MAX_DL_RETRIES then k - 1 else MAX_DL_RETRIES].sent)
      && k <= 8
  {
    hide Timed, Millis, Sub32, StateMatches;
    if k > 1 {
      WhilePending(b, slots, reports, k - 1);
    }
    if k > 8 {
      SinceSent(slots, 3, 8);
    }
  }

  /** Nine superframes after the first downlink the command is no longer pending. */
  lemma ClearsWithinNine(b: Box, slots: seq<Slot>, reports: seq<Report>)
    requires Queued(b) && Timed(slots) && |slots| == |reports| == 9
    ensures !After(b, slots, reports, 9).pending
  {
    if After(b, slots, reports, 9).pending {
      WhilePending(b, slots, reports, 9);
    }
  }

  /** An unconfirmed uplink less than 15 s after the last transmission leaves the command pending. */
  lemma StaysPending(b: Box, txOk: bool, sentAt: UInt32, r: Report, at: UInt32)
    requires WellFormed(b) && b.pending && !Confirmed(b, r)
    requires Sub32(at, if Sends(b) && txOk then sentAt else b.sentAt) < PENDING_TIMEOUT_MS
    ensures AfterUplink(AfterDownlink(b, txOk, sentAt), r, at).pending
  {
  }

  lemma SameCommand(a: Box, b: Box, r: Report)
    requires WellFormed(a) && WellFormed(b) && a.data == b.data && a.len == b.len
    ensures Confirmed(a, r) == Confirmed(b, r)
  {
  }

  lemma PunctualIsTimed(slots: seq<Slot>)
    requires Punctual(slots)
    ensures Timed(slots)
  {
  }

  /** Index of the last transmission by the end of superframe k: the first four superframes each send. */
  function LastSent(k: nat): nat
    requires k > 0
  {
    if k <= MAX_DL_RETRIES + 1 then k - 1 else MAX_DL_RETRIES
  }

  lemma LastSentIs(b: Box, slots: seq<Slot>, reports: seq<Report>, k: nat)
    requires Queued(b) && Timed(slots) && 1 <= k <= |slots| == |reports|
    requires After(b, slots, reports, k - 1).pending
    ensures var before := After(b, slots, reports, k - 1);
      (if Sends(before) then Millis(slots[k - 1].sent) else before.sentAt) == Millis(slots[LastSent(k)].sent)
  {
    hide AfterUplink, AfterDownlink, Millis, Timed;
    if k > 1 {
      WhilePending(b, slots, reports, k - 1);
    }
  }

  lemma SentRecently(slots: seq<Slot>, k: nat)
    requires Punctual(slots) && 1 <= k <= 8 == |slots|
    ensures Sub32(Millis(slots[k - 1].heard), Millis(slots[LastSent(k)].sent)) < PENDING_TIMEOUT_MS
  {
    SinceSent(slots, LastSent(k), k - 1);
  }

  /** Nine is exact: unconfirmed, with nominal timing, it is still pending after eight. */
  lemma {:induction false} PendingForEight(b: Box, slots: seq<Slot>, reports: seq<Report>, k: nat)
    requires Queued(b) && Punctual(slots) && k <= |slots| == |reports| == 8
    requires forall j :: 0 <= j < 8 ==> !Confirmed(b, reports[j])
    ensures After(b, slots, reports, k).pending
  {
    if k > 0 {
      hide AfterUplink, AfterDownlink, Sub32, Millis, Confirmed, Punctual, Timed, Sends, LastSent;
      PunctualIsTimed(slots);
      PendingForEight(b, slots, reports, k - 1);
      var before := After(b, slots, reports, k - 1);
      LastSentIs(b, slots, reports, k);
      SentRecently(slots, k);
      SameCommand(before, b, reports[k - 1]);
      StaysPending(before, true, Millis(slots[k - 1].sent), reports[k - 1], Millis(slots[k - 1].heard));
    }
  }
}
