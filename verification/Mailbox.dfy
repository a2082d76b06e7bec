/**
 * The gateway's one-cell downlink mailbox of a slot: NodeState.queuedCmd and the pending
 * flags, written by the web task, sent in the slot's downlink window and confirmed, re-armed
 * or timed out when the slot's uplink is processed (src/gateway_tdma_task.cpp).
 */
module Mailbox {
  import opened Protocol
  import opened Words

  const CMD_BYTES := 8

  datatype Box = Box(active: bool, data: seq<UInt8>, len: nat, pending: bool, sentAt: UInt32, retry: nat)

  /** What processUplink() reads from the telemetry packet. */
  datatype Report = Report(dlAck: bool, relayState: UInt8, relayMode: UInt8, schedState: UInt8)

  /** The callers never queue more than seven bytes, the size of the transmit buffer. */
  predicate WellFormed(b: Box) {
    |b.data| == CMD_BYTES && b.len <= MAX_DL_PAYLOAD_LEN
  }

  /** What tdmaQueueCommand() may leave behind: up to eight bytes. */
  predicate Stored(b: Box) {
    |b.data| == CMD_BYTES && b.len <= CMD_BYTES
  }

  const EMPTY := Box(false, Zeros(CMD_BYTES), 0, false, 0, 0)

  function Queue(b: Box, cmd: seq<UInt8>, now: UInt32): Box
    requires |b.data| == CMD_BYTES && 0 < |cmd| <= CMD_BYTES
  {
    Box(true, cmd + b.data[|cmd|..], |cmd|, true, now, 0)
  }

  /** The frame on air: the queued bytes, zero-padded. */
  function Frame(b: Box): (f: seq<UInt8>)
    requires WellFormed(b)
    ensures |f| == MAX_DL_PAYLOAD_LEN
  {
    b.data[..b.len] + Zeros(MAX_DL_PAYLOAD_LEN - b.len)
  }

  /** What is queued is what goes on air, whatever the cell held before. */
  lemma QueuedIsSent(b: Box, cmd: seq<UInt8>, now: UInt32)
    requires |b.data| == CMD_BYTES && 0 < |cmd| <= MAX_DL_PAYLOAD_LEN
    ensures var q := Queue(b, cmd, now);
      && WellFormed(q) && Frame(q) == cmd + Zeros(MAX_DL_PAYLOAD_LEN - |cmd|)
      && q.active && q.pending && q.retry == 0 && q.sentAt == now
  {
    assert Queue(b, cmd, now).data[..|cmd|] == cmd;
  }

  predicate Sends(b: Box) {
    b.active && b.len >= 2
  }

  function AfterDownlink(b: Box, txOk: bool, now: UInt32): Box {
    if Sends(b) && txOk then b.(sentAt := now, active := false) else b
  }

  /** The state match used besides the ack bit, for nodes with older firmware. */
  predicate StateMatches(b: Box, r: Report)
    requires Stored(b)
  {
    if b.len >= 3 && b.data[0] == PKT_RELAY_MANUAL then r.relayState == b.data[2]
    else if b.len >= 7 && b.data[0] == PKT_RELAY_SCHEDULE then r.relayMode == 1 && r.schedState > 0
    else if b.len >= 2 && b.data[0] == PKT_RELAY_CLEAR then r.relayMode == 0 && r.schedState == 0
    else false
  }

  predicate Confirmed(b: Box, r: Report)
    requires Stored(b)
  {
    r.dlAck || StateMatches(b, r)
  }

  function Settle(b: Box, r: Report): Box
    requires Stored(b)
  {
    if !b.pending then b
    else if Confirmed(b, r) then b.(pending := false, retry := 0)
    else if !b.active && b.retry < MAX_DL_RETRIES then b.(active := true, retry := b.retry + 1)
    else b
  }

  function AfterUplink(b: Box, r: Report, now: UInt32): Box
    requires Stored(b)
  {
    var b' := Settle(b, r);
    if b'.pending && Sub32(now, b'.sentAt) >= PENDING_TIMEOUT_MS then b'.(pending := false, retry := 0) else b'
  }

  /**
   * Without the ack bit, and within the timeout, a report ends the pending state exactly if it
   * shows what the command asked for; a threshold or a nudge never shows in one. If it does not,
   * the command is sent again, at most three times.
   */
  lemma UnackedUplink(b: Box, r: Report, now: UInt32)
    requires Stored(b) && b.pending && !r.dlAck && Sub32(now, b.sentAt) < 15000
    ensures var cmd, still := b.data[..b.len], AfterUplink(b, r, now).pending;
      && (|cmd| >= 3 && cmd[0] == PKT_RELAY_MANUAL ==> (still <==> r.relayState != cmd[2]))
      && (|cmd| >= 7 && cmd[0] == PKT_RELAY_SCHEDULE ==> (still <==> r.relayMode != 1 || r.schedState == 0))
      && (|cmd| >= 2 && cmd[0] == PKT_RELAY_CLEAR ==> (still <==> r.relayMode != 0 || r.schedState != 0))
      && (|cmd| >= 1 && cmd[0] !in {PKT_RELAY_MANUAL, PKT_RELAY_SCHEDULE, PKT_RELAY_CLEAR} ==> still)
    ensures AfterUplink(b, r, now).pending ==>
              AfterUplink(b, r, now) == if !b.active && b.retry < MAX_DL_RETRIES
                                        then b.(active := true, retry := b.retry + 1) else b
  {
    if b.len > 0 {
      assert b.data[..b.len][0] == b.data[0];
    }
  }

  /**
   * The ack bit ends the pending state whatever else is reported, and so does the timeout, whatever is
   * not; a command still armed at the timeout goes out once more all the same.
   */
  lemma PendingEnds(b: Box, r: Report, now: UInt32)
    requires Stored(b) && b.pending
    ensures r.dlAck ==> AfterUplink(b, r, now) == b.(pending := false, retry := 0)
    ensures Sub32(now, b.sentAt) >= 15000 ==>
              AfterUplink(b, r, now) == b.(pending := false, retry := 0, active := AfterUplink(b, r, now).active)
              && (AfterUplink(b, r, now).active <==>
                  b.active || (!Confirmed(b, r) && b.retry < MAX_DL_RETRIES))
    ensures !AfterUplink(b, r, now).pending ==>
              r.dlAck || Sub32(now, b.sentAt) >= 15000
              || (b.len >= 2 && b.data[0] in {PKT_RELAY_MANUAL, PKT_RELAY_SCHEDULE, PKT_RELAY_CLEAR})
  {
  }

  /** Command and pending fields of one NodeState, with the fixed eight-byte buffer. */
  class Slot {
    var nodeActive: bool
    var active: bool
    const data: array<UInt8>
    var len: nat
    var pending: bool
    var pendingSentAt: UInt32
    var pendingRetry: nat

    ghost function Abstract(): Box
      reads this, data
    {
      Box(active, data[..], len, pending, pendingSentAt, pendingRetry)
    }

    constructor ()
      ensures Abstract() == EMPTY && fresh(data)
    {
      nodeActive := false;
      active := false;
      data := new UInt8[CMD_BYTES](i => 0);
      len := 0;
      pending := false;
      pendingSentAt := 0;
      pendingRetry := 0;
      new;
      assert data[..] == Zeros(CMD_BYTES);
    }

    /** tdmaQueueCommand() on this slot: refuses empty, oversized and unaddressed commands. */
    method QueueCommand(cmd: seq<UInt8>, now: UInt32) returns (ok: bool)
      requires data.Length == CMD_BYTES
      modifies this, data
      ensures nodeActive == old(nodeActive)
      ensures ok == (nodeActive && 0 < |cmd| <= CMD_BYTES)
      ensures Abstract() == if ok then Queue(old(Abstract()), cmd, now) else old(Abstract())
      ensures ok ==> len == |cmd| && data[..|cmd|] == cmd && data[|cmd|..] == old(data[|cmd|..])
    {
      if |cmd| == 0 || |cmd| > CMD_BYTES {
        return false;
      }
      ok := nodeActive;
      if ok {
        CopyIn(cmd);
        len := |cmd|;
        active := true;
        pending := true;
        pendingSentAt := now;
        pendingRetry := 0;
      }
    }

    /** memcpy() into the cell. */
    method CopyIn(cmd: seq<UInt8>)
      requires data.Length == CMD_BYTES && |cmd| <= CMD_BYTES
      modifies data
      ensures data[..] == cmd + old(data[..])[|cmd|..]
      ensures data[..|cmd|] == cmd && data[|cmd|..] == old(data[|cmd|..])
    {
      var i := 0;
      while i < |cmd|
        invariant 0 <= i <= |cmd|
        invariant forall k :: 0 <= k < i ==> data[k] == cmd[k]
        invariant forall k :: i <= k < CMD_BYTES ==> data[k] == old(data[k])
      {
        data[i] := cmd[i];
        i := i + 1;
      }
    }

    /** The slot's downlink window; `frame` is what goes on air, if anything does. */
    method SendDownlink(txOk: bool, now: UInt32) returns (frame: Option<seq<UInt8>>)
      requires WellFormed(Abstract())
      modifies this
      ensures nodeActive == old(nodeActive)
      ensures frame.Some? <==> old(active && len >= 2) && txOk
      ensures frame.Some? ==> len == old(len) <= |frame.value| == MAX_DL_PAYLOAD_LEN
      ensures frame.Some? ==> frame.value[..len] == old(data[..len])
      ensures frame == if Sends(old(Abstract())) && txOk then Some(Frame(old(Abstract()))) else None
      ensures Abstract() == AfterDownlink(old(Abstract()), txOk, now)
    {
      if !active || len < 2 {
        return None;
      }
      var txBuf := new UInt8[MAX_DL_PAYLOAD_LEN](i => 0);
      var i := 0;
      while i < len
        invariant 0 <= i <= len
        invariant txBuf[..] == data[..i] + Zeros(MAX_DL_PAYLOAD_LEN - i)
        modifies txBuf
      {
        txBuf[i] := data[i];
        i := i + 1;
      }
      if txOk {
        pendingSentAt := now;
        active := false;
        frame := Some(txBuf[..]);
      } else {
        frame := None;
      }
    }

    /** The mailbox part of processUplink(). */
    method ProcessUplink(r: Report, now: UInt32)
      requires Stored(Abstract())
      modifies this
      ensures nodeActive == old(nodeActive)
      ensures Abstract() == AfterUplink(old(Abstract()), r, now)
    {
      if pending {
        var confirmed := r.dlAck;
        if !confirmed {
          if len >= 3 && data[0] == PKT_RELAY_MANUAL {
            confirmed := r.relayState == data[2];
          } else if len >= 7 && data[0] == PKT_RELAY_SCHEDULE {
            confirmed := r.relayMode == 1 && r.schedState > 0;
          } else if len >= 2 && data[0] == PKT_RELAY_CLEAR {
            confirmed := r.relayMode == 0 && r.schedState == 0;
          }
        }
        if confirmed {
          pending := false;
          pendingRetry := 0;
        } else if !active && pendingRetry < MAX_DL_RETRIES {
          active := true;
          pendingRetry := pendingRetry + 1;
        }
      }
      if pending && Sub32(now, pendingSentAt) >= PENDING_TIMEOUT_MS {
        pending := false;
        pendingRetry := 0;
      }
    }
  }
}
