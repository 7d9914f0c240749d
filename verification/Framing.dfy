/**
 Newline-delimited framing: one message per line, whatever chunks the bytes arrive in.
 A std::string of bytes is a `string` here.
 */
module Framing {
  /** The position of the first newline of `b`, or its length when there is none. */
  function FindNewline(b: string): (n: nat)
    ensures n <= |b|
    ensures '\n' !in b[..n]
    ensures n < |b| ==> b[n] == '\n'
  {
    if b == "" || b[0] == '\n' then 0
    else
      assert b[..1 + FindNewline(b[1..])] == [b[0]] + b[1..][..FindNewline(b[1..])];
      1 + FindNewline(b[1..])
  }

  predicate OneLine(s: string) {
    '\n' !in s
  }

  predicate AllOneLine(lines: seq<string>) {
    forall i :: 0 <= i < |lines| ==> OneLine(lines[i])
  }

  /** The complete lines of `b`, without their newlines. */
  function RawLines(b: string): (lines: seq<string>)
    ensures AllOneLine(lines)
    decreases |b|
  {
    var n := FindNewline(b);
    if n == |b| then [] else [b[..n]] + RawLines(b[n + 1..])
  }

  /** What follows the last newline of `b`. */
  function Rest(b: string): (rest: string)
    ensures OneLine(rest)
    decreases |b|
  {
    var n := FindNewline(b);
    if n == |b| then b else Rest(b[n + 1..])
  }

  /** Each line followed by a newline. */
  function Join(lines: seq<string>): string {
    if lines == [] then "" else lines[0] + "\n" + Join(lines[1..])
  }

  function StripCR(line: string): string {
    if line != "" && line[|line| - 1] == '\r' then line[..|line| - 1] else line
  }

  function StripAll(lines: seq<string>): seq<string> {
    seq(|lines|, i requires 0 <= i < |lines| => StripCR(lines[i]))
  }

  /** The lines the reader dispatches: complete lines with one trailing carriage return dropped. */
  function Lines(b: string): seq<string> {
    StripAll(RawLines(b))
  }

  function Concat(chunks: seq<string>): string {
    if chunks == [] then "" else chunks[0] + Concat(chunks[1..])
  }

  // ---------- Splitting undoes joining, and joining undoes splitting ----------

  lemma FindNewlineUnique(b: string, n: nat)
    requires n <= |b| && '\n' !in b[..n] && (n < |b| ==> b[n] == '\n')
    ensures FindNewline(b) == n
  {
    var k := FindNewline(b);
    assert forall i :: 0 <= i < n ==> b[..n][i] == b[i];
    assert forall i :: 0 <= i < k ==> b[..k][i] == b[i];
  }

  lemma JoinCons(line: string, lines: seq<string>)
    ensures Join([line] + lines) == line + "\n" + Join(lines)
  {
    assert ([line] + lines)[1..] == lines;
  }

  lemma Pieces(b: string, n: nat)
    requires n < |b| && b[n] == '\n'
    ensures b == b[..n] + "\n" + b[n + 1..]
  {
  }

  lemma StripAllCons(line: string, lines: seq<string>)
    ensures StripAll([line] + lines) == [StripCR(line)] + StripAll(lines)
  {
    hide StripCR;
  }

  lemma SplitStep(b: string)
    requires FindNewline(b) < |b|
    ensures var n := FindNewline(b);
            && b == b[..n] + "\n" + b[n + 1..]
            && RawLines(b) == [b[..n]] + RawLines(b[n + 1..])
            && Rest(b) == Rest(b[n + 1..])
            && Lines(b) == [StripCR(b[..n])] + Lines(b[n + 1..])
  {
    hide FindNewline, StripCR, StripAll;
    var n := FindNewline(b);
    Pieces(b, n);
    StripAllCons(b[..n], RawLines(b[n + 1..]));
  }

  lemma SplitNothing(b: string)
    requires OneLine(b)
    ensures RawLines(b) == [] && Lines(b) == [] && Rest(b) == b && FindNewline(b) == |b|
  {
    FindNewlineUnique(b, |b|);
  }

  lemma SplitFirst(line: string, b: string)
    requires OneLine(line)
    ensures RawLines(line + "\n" + b) == [line] + RawLines(b) && Rest(line + "\n" + b) == Rest(b)
  {
    var all := line + "\n" + b;
    assert all[..|line|] == line && all[|line| + 1..] == b;
    FindNewlineUnique(all, |line|);
  }

  lemma {:induction false} SplitJoin(lines: seq<string>, rest: string)
    requires AllOneLine(lines) && OneLine(rest)
    ensures RawLines(Join(lines) + rest) == lines && Rest(Join(lines) + rest) == rest
  {
    hide RawLines, Rest, OneLine;
    if lines == [] {
      assert Join(lines) + rest == rest;
      SplitNothing(rest);
    } else {
      SplitJoin(lines[1..], rest);
      SplitFirst(lines[0], Join(lines[1..]) + rest);
      assert Join(lines) + rest == lines[0] + "\n" + (Join(lines[1..]) + rest);
    }
  }

  lemma {:induction false} JoinSplit(b: string)
    ensures b == Join(RawLines(b)) + Rest(b)
    decreases |b|
  {
    hide RawLines, Rest, Join;
    var n := FindNewline(b);
    if n < |b| {
      SplitStep(b);
      JoinSplit(b[n + 1..]);
      JoinCons(b[..n], RawLines(b[n + 1..]));
    } else {
      assert b[..n] == b;
      SplitNothing(b);
      assert Join([]) + b == b by { JoinNothing(); }
    }
  }

  lemma JoinNothing()
    ensures Join([]) == ""
  {
  }

  lemma {:induction false} JoinConcat(a: seq<string>, b: seq<string>)
    ensures Join(a + b) == Join(a) + Join(b)
  {
    if a == [] {
      assert a + b == b;
    } else {
      JoinConcat(a[1..], b);
      assert (a + b)[1..] == a[1..] + b;
    }
  }

  // ---------- Chunks ----------

  /** Splitting after an append is splitting what was left over plus the new bytes. */
  lemma SplitAppend(a: string, b: string)
    ensures RawLines(a + b) == RawLines(a) + RawLines(Rest(a) + b)
    ensures Rest(a + b) == Rest(Rest(a) + b)
  {
    hide RawLines, Rest, Join;
    var c := Rest(a) + b;
    JoinSplit(a);
    JoinSplit(c);
    JoinConcat(RawLines(a), RawLines(c));
    assert a + b == Join(RawLines(a)) + c;
    assert a + b == Join(RawLines(a) + RawLines(c)) + Rest(c);
    SplitJoin(RawLines(a) + RawLines(c), Rest(c));
  }

  lemma LinesAppend(a: string, b: string)
    ensures Lines(a + b) == Lines(a) + Lines(Rest(a) + b)
  {
    SplitAppend(a, b);
    hide RawLines, Rest;
  }

  /** The lines dispatched, and the buffer left, after reading `chunks` one after the other. */
  function Feed(buffer: string, chunks: seq<string>): (seq<string>, string)
    decreases |chunks|
  {
    if chunks == [] then ([], buffer)
    else
      var b := buffer + chunks[0];
      var (lines, buffer') := Feed(Rest(b), chunks[1..]);
      (Lines(b) + lines, buffer')
  }

  /** Framing does not depend on the chunks: only the concatenated bytes matter. */
  lemma {:induction false} FeedIsChunkIndependent(buffer: string, chunks: seq<string>)
    requires OneLine(buffer)
    ensures Feed(buffer, chunks) == (Lines(buffer + Concat(chunks)), Rest(buffer + Concat(chunks)))
    decreases |chunks|
  {
    hide Lines, Rest, OneLine;
    if chunks == [] {
      assert buffer + Concat(chunks) == buffer;
      SplitNothing(buffer);
      assert Feed(buffer, chunks) == ([], buffer);
    } else {
      var b := buffer + chunks[0];
      FeedIsChunkIndependent(Rest(b), chunks[1..]);
      LinesAppend(b, Concat(chunks[1..]));
      SplitAppend(b, Concat(chunks[1..]));
      assert buffer + Concat(chunks) == b + Concat(chunks[1..]);
    }
  }

  lemma SameBytesSameLines(chunks: seq<string>, chunks': seq<string>)
    requires Concat(chunks) == Concat(chunks')
    ensures Feed("", chunks) == Feed("", chunks')
  {
    FeedIsChunkIndependent("", chunks);
    FeedIsChunkIndependent("", chunks');
  }

  // ---------- Carriage returns ----------

  /** A carriage return before the newline is dropped, one only; a line without one is dispatched as it is. */
  lemma OneReturnDropped(line: string, b: string)
    requires OneLine(line)
    ensures Lines(line + "\r\n" + b) == [line] + Lines(b)
    ensures line == "" || line[|line| - 1] != '\r' ==> Lines(line + "\n" + b) == [line] + Lines(b)
  {
    hide RawLines, Rest;
    var returned := line + "\r";
    assert returned[..|line|] == line;
    assert line + "\r\n" + b == returned + "\n" + b;
    SplitFirst(returned, b);
    SplitFirst(line, b);
    StripAllCons(returned, RawLines(b));
    StripAllCons(line, RawLines(b));
  }

  // ---------- Truncated output ----------

  /**
   A prefix of a joined sequence of lines is some of the lines whole, in order, and then at most a
   part of the next one.
   */
  lemma {:induction false} PrefixOfJoin(p: string, lines: seq<string>)
    requires AllOneLine(lines) && p <= Join(lines)
    ensures RawLines(p) <= lines
    ensures Rest(p) == "" || (|RawLines(p)| < |lines| && Rest(p) <= lines[|RawLines(p)|])
  {
    hide RawLines, Rest;
    if lines == [] {
      SplitNothing(p);
    } else {
      var line := lines[0];
      var n := |line|;
      var whole := Join(lines);
      assert OneLine(line) && whole[..n] == line && whole[n] == '\n';
      if |p| <= n {
        assert p == whole[..n][..|p|];
        SplitNothing(p);
      } else {
        assert p[..n] == line && p[n] == '\n';
        assert p == line + "\n" + p[n + 1..];
        SplitFirst(line, p[n + 1..]);
        assert whole[n + 1..] == Join(lines[1..]);
        PrefixOfJoin(p[n + 1..], lines[1..]);
        assert lines == [line] + lines[1..];
      }
    }
  }

  // ---------- The reader's loop ----------

  /** Appends a chunk to the buffer, then takes complete lines off its front. */
  method TakeLines(buffer: string, chunk: string) returns (lines: seq<string>, buffer': string)
    ensures lines == Lines(buffer + chunk)
    ensures buffer' == Rest(buffer + chunk)
  {
    hide FindNewline, Lines, Rest;
    buffer' := buffer + chunk;
    lines := [];
    var newlinePosition := FindNewline(buffer');
    while newlinePosition < |buffer'|
      invariant newlinePosition == FindNewline(buffer')
      invariant lines + Lines(buffer') == Lines(buffer + chunk)
      invariant Rest(buffer') == Rest(buffer + chunk)
      decreases |buffer'|
    {
      SplitStep(buffer');
      var line := buffer'[..newlinePosition];
      if line != "" && line[|line| - 1] == '\r' {
        line := line[..|line| - 1];
      }
      buffer' := buffer'[newlinePosition + 1..];
      lines := lines + [line];
      newlinePosition := FindNewline(buffer');
    }
    assert buffer'[..newlinePosition] == buffer';
    SplitNothing(buffer');
  }
}
