/**
 * The line splitter of the log drain task (src/log_async.cpp): the drained bytes, chunk by
 * chunk, are cut into the lines offered to the WebSocket relay queue.
 */
module LineRelay {
  const LOG_LINE_MAX := 96

  /** The accumulator and the lines offered so far. */
  datatype Relay = Relay(acc: string, lines: seq<string>)

  function Take(r: Relay, c: char): Relay {
    if c == '\n' || |r.acc| >= LOG_LINE_MAX - 1
    then Relay([], if |r.acc| > 0 then r.lines + [r.acc] else r.lines)
    else Relay(r.acc + [c], r.lines)
  }

  function Feed(r: Relay, bytes: string): Relay {
    if bytes == [] then r else Take(Feed(r, bytes[..|bytes| - 1]), bytes[|bytes| - 1])
  }

  /** s_lineAcc, s_lineAccLen and the relay queue (without its capacity limit). */
  class Splitter {
    const lineAcc: array<char>
    var lineAccLen: nat
    var offered: seq<string>

    ghost predicate Valid()
      reads this
    {
      lineAcc.Length == LOG_LINE_MAX && lineAccLen < LOG_LINE_MAX
    }

    ghost function Abstract(): Relay
      reads this, lineAcc
      requires Valid()
    {
      Relay(lineAcc[..lineAccLen], offered)
    }

    constructor ()
      ensures Valid() && Abstract() == Relay([], []) && fresh(lineAcc)
    {
      lineAcc := new char[LOG_LINE_MAX](_ => '\0');
      lineAccLen, offered := 0, [];
    }

    method RelayChunk(buf: string)
      requires Valid()
      modifies this, lineAcc
      ensures Valid() && Abstract() == Feed(old(Abstract()), buf)
    {
      var k := 0;
      while k < |buf|
        invariant 0 <= k <= |buf|
        invariant Valid() && Abstract() == Feed(old(Abstract()), buf[..k])
      {
        assert buf[..k + 1][..k] == buf[..k];
        var c := buf[k];
        if c == '\n' || lineAccLen >= LOG_LINE_MAX - 1 {
          if lineAccLen > 0 {
            lineAcc[lineAccLen] := '\0';
            offered := offered + [lineAcc[..lineAccLen]];
          }
          lineAccLen := 0;
        } else {
          lineAcc[lineAccLen] := c;
          lineAccLen := lineAccLen + 1;
        }
        k := k + 1;
      }
      assert buf[..k] == buf;
    }
  }

  // ----- Chunking does not matter -----

  lemma {:induction false} FeedConcat(r: Relay, a: string, b: string)
    ensures Feed(r, a + b) == Feed(Feed(r, a), b)
  {
    if b == [] {
      assert a + b == a;
    } else {
      assert (a + b)[..|a + b| - 1] == a + b[..|b| - 1];
      FeedConcat(r, a, b[..|b| - 1]);
    }
  }

  function FeedAll(r: Relay, chunks: seq<string>): Relay
    decreases |chunks|
  {
    if chunks == [] then r else FeedAll(Feed(r, chunks[0]), chunks[1..])
  }

  function Joined(chunks: seq<string>): string {
    if chunks == [] then [] else chunks[0] + Joined(chunks[1..])
  }

  /** However the drain task happens to cut the stream, the lines are the same. */
  lemma {:induction false} ChunkingIrrelevant(r: Relay, chunks: seq<string>)
    ensures FeedAll(r, chunks) == Feed(r, Joined(chunks))
    decreases |chunks|
  {
    if chunks != [] {
      ChunkingIrrelevant(Feed(r, chunks[0]), chunks[1..]);
      FeedConcat(r, chunks[0], Joined(chunks[1..]));
    }
  }

  // ----- When the relay is lossless -----

  /** The newline-separated text: its complete lines and what follows the last newline. */
  datatype Text = Text(complete: seq<string>, rest: string)

  function SplitLines(bytes: string): Text {
    if bytes == [] then Text([], [])
    else
      var t, c := SplitLines(bytes[..|bytes| - 1]), bytes[|bytes| - 1];
      if c == '\n' then Text(t.complete + [t.rest], []) else Text(t.complete, t.rest + [c])
  }

  function NonEmpty(lines: seq<string>): seq<string> {
    if lines == [] then []
    else NonEmpty(lines[..|lines| - 1]) + if lines[|lines| - 1] == [] then [] else [lines[|lines| - 1]]
  }

  ghost predicate AllShort(t: Text) {
    && (forall i :: 0 <= i < |t.complete| ==> |t.complete[i]| < LOG_LINE_MAX)
    && |t.rest| < LOG_LINE_MAX
  }

  /** Everything the relay holds or has offered is at most 95 characters long. */
  lemma {:induction false} RelayIsBounded(bytes: string)
    ensures |Feed(Relay([], []), bytes).acc| < LOG_LINE_MAX
    ensures forall i :: 0 <= i < |Feed(Relay([], []), bytes).lines| ==>
              |Feed(Relay([], []), bytes).lines[i]| < LOG_LINE_MAX
  {
    if bytes != [] {
      RelayIsBounded(bytes[..|bytes| - 1]);
    }
  }

  lemma {:induction false} NonEmptyKeeps(lines: seq<string>, i: nat)
    requires i < |lines| && lines[i] != []
    ensures lines[i] in NonEmpty(lines)
  {
    if i < |lines| - 1 {
      NonEmptyKeeps(lines[..|lines| - 1], i);
    }
  }

  lemma NonEmptyAppend(lines: seq<string>, line: string)
    ensures NonEmpty(lines + [line]) == NonEmpty(lines) + if line == [] then [] else [line]
  {
    assert (lines + [line])[..|lines|] == lines;
  }

  lemma {:induction false} ShortLinesRelayed(bytes: string)
    requires AllShort(SplitLines(bytes))
    ensures Feed(Relay([], []), bytes) == Relay(SplitLines(bytes).rest, NonEmpty(SplitLines(bytes).complete))
  {
    if bytes != [] {
      var before := bytes[..|bytes| - 1];
      var t, t' := SplitLines(before), SplitLines(bytes);
      assert forall i :: 0 <= i < |t.complete| ==> t.complete[i] == t'.complete[i];
      if bytes[|bytes| - 1] == '\n' {
        assert t'.complete[|t.complete|] == t.rest;
        NonEmptyAppend(t.complete, t.rest);
      }
      ShortLinesRelayed(before);
    }
  }

  /**
   * The relay offers exactly the non-empty lines of the stream, and holds exactly its
   * unfinished rest, if and only if none of them is longer than 95 characters.
   */
  lemma RelayLossless(bytes: string)
    ensures Feed(Relay([], []), bytes) == Relay(SplitLines(bytes).rest, NonEmpty(SplitLines(bytes).complete))
       <==> AllShort(SplitLines(bytes))
  {
    var t := SplitLines(bytes);
    if AllShort(t) {
      ShortLinesRelayed(bytes);
    } else if Feed(Relay([], []), bytes) == Relay(t.rest, NonEmpty(t.complete)) {
      RelayIsBounded(bytes);
      var i: nat :| i < |t.complete| && |t.complete[i]| >= LOG_LINE_MAX;
      NonEmptyKeeps(t.complete, i);
      assert false;
    }
  }

  // ----- What becomes of long lines -----

  /** Of every 96 characters of a line the first 95 are a piece of their own; the 96th is dropped. */
  function FullPieces(line: string): (ps: seq<string>) {
    seq(|line| / 96, k requires 0 <= k < |line| / 96 => line[96 * k..96 * k + 95])
  }

  function Tail(line: string): (t: string)
    ensures |t| == |line| % 96
  {
    line[96 * (|line| / 96)..]
  }

  function Offered(lines: seq<string>): seq<string> {
    if lines == [] then []
    else
      var line := lines[|lines| - 1];
      Offered(lines[..|lines| - 1]) + FullPieces(line) + if Tail(line) == [] then [] else [Tail(line)]
  }

  lemma OneMore(line: string, c: char)
    ensures |line| % 96 < 95 ==> Tail(line + [c]) == Tail(line) + [c] && FullPieces(line + [c]) == FullPieces(line)
    ensures |line| % 96 == 95 ==> Tail(line + [c]) == [] && FullPieces(line + [c]) == FullPieces(line) + [Tail(line)]
  {
    var n := |line| / 96;
    assert forall k :: 0 <= k < n ==> (line + [c])[96 * k..96 * k + 95] == line[96 * k..96 * k + 95];
    if |line| % 96 == 95 {
      assert |line + [c]| / 96 == n + 1;
      assert (line + [c])[96 * n..96 * n + 95] == Tail(line);
    }
  }

  lemma OfferedAppend(lines: seq<string>, line: string)
    ensures Offered(lines + [line])
         == Offered(lines) + FullPieces(line) + if Tail(line) == [] then [] else [Tail(line)]
  {
    assert (lines + [line])[..|lines|] == lines;
  }

  /** The relay after a text. */
  function Relayed(t: Text): Relay {
    Relay(Tail(t.rest), Offered(t.complete) + FullPieces(t.rest))
  }

  lemma LineEnds(t: Text)
    ensures Take(Relayed(t), '\n') == Relayed(Text(t.complete + [t.rest], []))
  {
    hide Tail, FullPieces, Offered;
    OfferedAppend(t.complete, t.rest);
    EmptyLine();
  }

  lemma LineGrows(t: Text, c: char)
    requires c != '\n'
    ensures Take(Relayed(t), c) == Relayed(Text(t.complete, t.rest + [c]))
  {
    hide Tail, FullPieces, Offered;
    OneMore(t.rest, c);
  }

  /** The relay on any stream, long lines included. */
  lemma {:induction false} RelayExactly(bytes: string)
    ensures Feed(Relay([], []), bytes) == Relayed(SplitLines(bytes))
  {
    if bytes == [] {
      EmptyLine();
    } else {
      hide Relayed, Take;
      var before, c := bytes[..|bytes| - 1], bytes[|bytes| - 1];
      RelayExactly(before);
      if c == '\n' {
        LineEnds(SplitLines(before));
      } else {
        LineGrows(SplitLines(before), c);
      }
    }
  }

  lemma EmptyLine()
    ensures FullPieces([]) == [] && Tail([]) == []
  {
  }

  /** A line of 96 characters between newlines loses its last one. */
  lemma LongLineExample(line: string)
    requires |line| == 96 && '\n' !in line
    ensures Feed(Relay([], []), line + ['\n']) == Relay([], [line[..95]])
  {
    OneLine(line);
    FeedConcat(Relay([], []), line, ['\n']);
    assert ['\n'][..0] == [];
    RelayExactly(line);
  }

  lemma {:induction false} OneLine(line: string)
    requires '\n' !in line
    ensures SplitLines(line) == Text([], line)
  {
    if line != [] {
      OneLine(line[..|line| - 1]);
    }
  }
}
