/**
 * The asynchronous log (src/log_async.cpp): a 1024-byte ring with free-running 16-bit
 * indices between logAsync() and the drain task.
 */
module LogRing {
  import opened Words

  const LOG_BUF_SIZE := 1024
  const LOG_MSG_MAX := 128
  const DRAIN_CHUNK := 64

  /** What vsnprintf() leaves of a formatted message in the stack buffer. */
  function Clipped(msg: string): (r: string)
    ensures r <= msg && |r| == if |msg| < 128 then |msg| else 127
  {
    if |msg| < LOG_MSG_MAX then msg else msg[..LOG_MSG_MAX - 1]
  }

  function Concat(msgs: seq<string>): string {
    if msgs == [] then [] else Concat(msgs[..|msgs| - 1]) + msgs[|msgs| - 1]
  }

  /** Bytes between the free-running indices. */
  function Used(head: UInt16, tail: UInt16): nat {
    (head - tail) % 0x1_0000
  }

  /** Buffer position `k` places after index `tail`; the mask `& 1023` is `% 1024`. */
  function At(tail: nat, k: nat): (i: nat)
    ensures i < LOG_BUF_SIZE
  {
    (tail + k) % LOG_BUF_SIZE
  }

  /** Oldest byte first. */
  function Queued(buf: seq<char>, tail: UInt16, n: nat): (q: string)
    requires |buf| == LOG_BUF_SIZE
    ensures |q| == n
  {
    seq(n, k requires 0 <= k => buf[At(tail, k)])
  }

  /** 1024 divides 2^16, so masking an index survives its wrap-around. */
  lemma ModShift(x: int, q: int)
    ensures (x - LOG_BUF_SIZE * q) % LOG_BUF_SIZE == x % LOG_BUF_SIZE
  {
  }

  /** `free_space`: the difference of the indices is masked, not the indices. */
  function FreeSpace(head: UInt16, tail: UInt16): nat {
    LOG_BUF_SIZE - (head - tail) % LOG_BUF_SIZE - 1
  }

  lemma FreeSpaceIsRest(head: UInt16, tail: UInt16)
    requires Used(head, tail) < LOG_BUF_SIZE
    ensures FreeSpace(head, tail) == LOG_BUF_SIZE - 1 - Used(head, tail)
  {
    if head < tail {
      ModShift(head - tail + 0x1_0000, 64);
    }
  }

  lemma UsedCases(head: UInt16, tail: UInt16)
    ensures Used(head, tail) == if tail <= head then head - tail else head - tail + 0x1_0000
  {
  }

  lemma HeadIndex(head: UInt16, tail: UInt16)
    ensures At(tail, Used(head, tail)) == head % LOG_BUF_SIZE
    ensures Used(head, tail) < 0xFFFF ==> Used(Inc16(head), tail) == Used(head, tail) + 1
    ensures Used(head, tail) > 0 ==> Used(head, Inc16(tail)) == Used(head, tail) - 1
  {
    UsedCases(head, tail);
    UsedCases(Inc16(head), tail);
    UsedCases(head, Inc16(tail));
    ModShift(head + 0x1_0000, 64);
    hide Used;
  }

  class Ring {
    const buf: array<char>
    var head: UInt16
    var tail: UInt16
    ghost var accepted: seq<string>
    ghost var drained: string

    ghost function Contents(): string
      reads this, buf
      requires buf.Length == LOG_BUF_SIZE
    {
      Queued(buf[..], tail, Used(head, tail))
    }

    /** Output so far and queue together are the accepted messages, whole and in order. */
    ghost predicate Valid()
      reads this, buf
    {
      && buf.Length == LOG_BUF_SIZE
      && Used(head, tail) < LOG_BUF_SIZE
      && drained + Contents() == Concat(accepted)
    }

    constructor ()
      ensures Valid() && Contents() == [] && accepted == [] && drained == [] && fresh(buf)
    {
      buf := new char[LOG_BUF_SIZE](_ => '\0');
      head, tail, accepted, drained := 0, 0, [], [];
    }

    method Put(c: char)
      requires buf.Length == LOG_BUF_SIZE && Used(head, tail) < LOG_BUF_SIZE - 1
      modifies buf, this`head
      ensures Used(head, tail) == old(Used(head, tail)) + 1
      ensures Contents() == old(Contents()) + [c]
    {
      HeadIndex(head, tail);
      QueuedAppend(buf[..], tail, Used(head, tail), c);
      buf[head % LOG_BUF_SIZE] := c;
      head := Inc16(head);
    }

    /** The copy loop of logAsync(). */
    method Append(tmp: string)
      requires buf.Length == LOG_BUF_SIZE && Used(head, tail) + |tmp| < LOG_BUF_SIZE
      modifies buf, this`head
      ensures Used(head, tail) == old(Used(head, tail)) + |tmp|
      ensures Contents() == old(Contents()) + tmp
    {
      hide Queued, Used, At;
      for i := 0 to |tmp|
        invariant Used(head, tail) == old(Used(head, tail)) + i
        invariant Contents() == old(Contents()) + tmp[..i]
      {
        Put(tmp[i]);
        assert tmp[..i + 1] == tmp[..i] + [tmp[i]];
      }
      assert tmp[..|tmp|] == tmp;
    }

    /** logAsync() with its formatted text: enqueued whole, or not at all when it does not fit. */
    method LogAsync(msg: string) returns (ok: bool)
      requires Valid()
      modifies this, buf
      ensures Valid() && drained == old(drained)
      ensures ok == (0 < |msg| && |old(Contents())| + |Clipped(msg)| < 1024)
      ensures Contents() == if ok then old(Contents()) + Clipped(msg) else old(Contents())
      ensures accepted == if ok then old(accepted) + [Clipped(msg)] else old(accepted)
    {
      hide Queued, Used, FreeSpace;
      if |msg| == 0 {
        return false;
      }
      var tmp := Clipped(msg);
      FreeSpaceIsRest(head, tail);
      ok := |tmp| <= FreeSpace(head, tail);
      if ok {
        Append(tmp);
        accepted := accepted + [tmp];
        assert drained + Contents() == Concat(accepted) by {
          assert accepted[..|accepted| - 1] == old(accepted);
          assert drained + (old(Contents()) + tmp) == (drained + old(Contents())) + tmp;
        }
      }
    }

    method Get() returns (c: char)
      requires buf.Length == LOG_BUF_SIZE && head != tail
      modifies this`tail
      ensures Used(head, tail) == old(Used(head, tail)) - 1
      ensures [c] + Contents() == old(Contents())
    {
      HeadIndex(head, tail);
      TailShift(buf[..], tail, Used(head, tail) - 1);
      c := buf[tail % LOG_BUF_SIZE];
      assert c == Contents()[0];
      tail := Inc16(tail);
    }

    /** The copy loop of the drain task: up to 64 of the oldest bytes. */
    method TakeChunk() returns (out: string)
      requires buf.Length == LOG_BUF_SIZE && Used(head, tail) < LOG_BUF_SIZE
      modifies this`tail
      ensures Used(head, tail) < LOG_BUF_SIZE
      ensures out + Contents() == old(Contents())
      ensures |out| == if |old(Contents())| < DRAIN_CHUNK then |old(Contents())| else DRAIN_CHUNK
    {
      out := [];
      ghost var all := Contents();
      hide Queued;
      hide At;
      while head != tail && |out| < DRAIN_CHUNK
        invariant Used(head, tail) < LOG_BUF_SIZE && |out| <= DRAIN_CHUNK
        invariant out + Contents() == all
        decreases DRAIN_CHUNK - |out|
      {
        ghost var rest, was := Contents(), out;
        var c := Get();
        out := out + [c];
        Regroup(was, c, Contents(), rest);
      }
    }

    /** The critical section of the drain task. */
    method Drain() returns (out: string)
      requires Valid()
      modifies this`tail, this`drained
      ensures Valid() && accepted == old(accepted)
      ensures out + Contents() == old(Contents()) && drained == old(drained) + out
      ensures |out| == if |old(Contents())| < 64 then |old(Contents())| else 64
    {
      out := TakeChunk();
      ghost var rest := Contents();
      hide Queued;
      drained := drained + out;
      assert old(drained) + (out + rest) == drained + rest;
    }
  }

  lemma Regroup(out: string, c: char, rest': string, rest: string)
    requires [c] + rest' == rest
    ensures (out + [c]) + rest' == out + rest
  {
  }

  lemma Apart(tail: nat, k: nat, n: nat)
    requires k < n < LOG_BUF_SIZE
    ensures At(tail, k) != At(tail, n)
  {
    var m := LOG_BUF_SIZE;
    assert n - k == m * ((tail + n) / m - (tail + k) / m) + (At(tail, n) - At(tail, k));
  }

  lemma QueuedAppend(buf: seq<char>, tail: UInt16, n: nat, c: char)
    requires |buf| == LOG_BUF_SIZE && n < LOG_BUF_SIZE
    ensures Queued(buf[At(tail, n) := c], tail, n + 1) == Queued(buf, tail, n) + [c]
  {
    forall k: nat | k < n
      ensures At(tail, k) != At(tail, n)
    {
      Apart(tail, k, n);
    }
  }

  lemma AtNext(tail: UInt16, k: nat)
    ensures At(Inc16(tail), k) == At(tail, k + 1)
  {
    ModShift(tail + k + 1, 64);
  }

  lemma TailShift(buf: seq<char>, tail: UInt16, n: nat)
    requires |buf| == LOG_BUF_SIZE
    ensures Queued(buf, Inc16(tail), n) == Queued(buf, tail, n + 1)[1..]
  {
    hide At, Inc16;
    forall k: nat | k < n
      ensures At(Inc16(tail), k) == At(tail, k + 1)
    {
      AtNext(tail, k);
    }
  }
}
