/**
 * The 120-point history ring of a node: written by addHistory() (src/gateway_tdma_task.cpp),
 * walked by handleGetNodeHistory() (src/gateway_web.cpp).
 */
module HistoryRing {
  import opened Protocol
  import opened Words

  /** The three readings are kept as the bit patterns of their floats. */
  datatype Point = Point(t: UInt32, v: UInt32, i: UInt32, p: UInt32)

  function Min(a: int, b: int): int { if a < b then a else b }

  function LastN(log: seq<Point>, n: nat): seq<Point> {
    if |log| <= n then log else log[|log| - n..]
  }

  /** The reader's walk: from index 0 until the ring is full, from the write index after that. */
  function Walk(points: seq<Point>, head: int, count: int): seq<Point>
    requires |points| == HISTORY_MAX_POINTS && 0 <= head < HISTORY_MAX_POINTS && 0 <= count <= HISTORY_MAX_POINTS
  {
    var start := if count < HISTORY_MAX_POINTS then 0 else head;
    seq(count, i requires 0 <= i => points[(start + i) % HISTORY_MAX_POINTS])
  }

  /** The ring holds the tail of `log`: point n sits at index n % 120. */
  ghost predicate Holds(points: seq<Point>, head: int, count: int, log: seq<Point>) {
    && |points| == HISTORY_MAX_POINTS
    && head == |log| % HISTORY_MAX_POINTS
    && count == Min(|log|, HISTORY_MAX_POINTS)
    && forall n :: |log| - count <= n < |log| ==> points[n % HISTORY_MAX_POINTS] == log[n]
  }

  /** Whatever happened before, the reader sees exactly the newest points, oldest first. */
  lemma WalkIsChronological(points: seq<Point>, head: int, count: int, log: seq<Point>)
    requires Holds(points, head, count, log)
    ensures Walk(points, head, count) == LastN(log, HISTORY_MAX_POINTS)
  {
    var first := |log| - count;
    forall i | 0 <= i < count
      ensures Walk(points, head, count)[i] == log[first + i]
    {
      if count == HISTORY_MAX_POINTS {
        assert (head + i) % HISTORY_MAX_POINTS == (first + i) % HISTORY_MAX_POINTS by {
          WrapShift(|log|, i);
        }
      }
    }
  }

  lemma WrapShift(n: nat, i: nat)
    requires n >= HISTORY_MAX_POINTS && i < HISTORY_MAX_POINTS
    ensures (n % HISTORY_MAX_POINTS + i) % HISTORY_MAX_POINTS == (n - HISTORY_MAX_POINTS + i) % HISTORY_MAX_POINTS
  {
    var q := n / HISTORY_MAX_POINTS;
    assert n - HISTORY_MAX_POINTS + i == (n % HISTORY_MAX_POINTS + i) + HISTORY_MAX_POINTS * (q - 1);
  }

  /** history[], histHead and histCount of one NodeState. */
  class Ring {
    const points: array<Point>
    var histHead: int
    var histCount: int
    ghost var log: seq<Point>

    ghost predicate Valid()
      reads this, points
    {
      points.Length == HISTORY_MAX_POINTS && Holds(points[..], histHead, histCount, log)
    }

    constructor (zero: Point)
      ensures Valid() && log == [] && fresh(points)
    {
      points := new Point[HISTORY_MAX_POINTS](_ => zero);
      histHead, histCount, log := 0, 0, [];
    }

    method AddHistory(hp: Point)
      requires Valid()
      modifies this, points
      ensures Valid() && log == old(log) + [hp]
    {
      ghost var n := |log|;
      points[histHead] := hp;
      histHead := (histHead + 1) % HISTORY_MAX_POINTS;
      if histCount < HISTORY_MAX_POINTS {
        histCount := histCount + 1;
      }
      log := log + [hp];
      assert n % HISTORY_MAX_POINTS == old(histHead);
      forall k | n + 1 - histCount <= k < n
        ensures k % HISTORY_MAX_POINTS != n % HISTORY_MAX_POINTS
      {
        DistinctResidues(k, n);
      }
    }

    method ReadHistory() returns (out: seq<Point>)
      requires Valid()
      ensures out == LastN(log, HISTORY_MAX_POINTS)
    {
      var start := if histCount < HISTORY_MAX_POINTS then 0 else histHead;
      out := [];
      var i := 0;
      while i < histCount
        invariant 0 <= i <= histCount
        invariant out == Walk(points[..], histHead, histCount)[..i]
      {
        var cidx := (start + i) % HISTORY_MAX_POINTS;
        out := out + [points[cidx]];
        i := i + 1;
      }
      WalkIsChronological(points[..], histHead, histCount, log);
    }
  }

  lemma DistinctResidues(k: nat, n: nat)
    requires k < n < k + HISTORY_MAX_POINTS
    ensures k % HISTORY_MAX_POINTS != n % HISTORY_MAX_POINTS
  {
    var m := HISTORY_MAX_POINTS;
    assert n - k == m * (n / m - k / m) + (n % m - k % m);
  }
}
