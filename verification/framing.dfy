/**
 * Inbound line framing: the engine appends what it reads from the socket to a
 * buffer and, while the buffer holds a CRLF, cuts the line before the first
 * CRLF off the front (`bytearray.partition(b'\r\n')`). What is left is an
 * unfinished line kept for the next read.
 */
module Framing {
  import opened Bytes
  import opened Transmit
  import opened Wrappers
  import opened Seqs

  /** Lines, each followed by CRLF, as they travel on the wire. */
  function Join(lines: seq<seq<Byte>>): (r: seq<Byte>)
  {
    if lines == [] then [] else lines[0] + CRLF + Join(lines[1..])
  }

  /** The complete lines cut off a buffer, and the unfinished tail kept. */
  datatype Framed = Framed(lines: seq<seq<Byte>>, rest: seq<Byte>)

  /**
   * Repeated `partition(b'\r\n')` while the buffer contains CRLF: the lines
   * cut off the front, in order, and the unfinished tail (SplitLinesJoin and
   * SplitLinesClean state what they are).
   */
  function SplitLines(buffer: seq<Byte>): Framed
    decreases |buffer|
  {
    var p := Partition(buffer, CRLF);
    if p.sep == [] then Framed([], buffer)
    else
      var f := SplitLines(p.after);
      Framed([p.before] + f.lines, f.rest)
  }

  /** The lines, each with its CRLF, and the kept tail put back together give the buffer. */
  lemma {:induction false} SplitLinesJoin(buffer: seq<Byte>)
    ensures Join(SplitLines(buffer).lines) + SplitLines(buffer).rest == buffer
    decreases |buffer|
  {
    var p := Partition(buffer, CRLF);
    if p.sep != [] {
      var f := SplitLines(p.after);
      assert SplitLines(buffer) == Framed([p.before] + f.lines, f.rest);
      SplitLinesJoin(p.after);
      assert Join([p.before] + f.lines) == p.before + CRLF + Join(f.lines) by {
        assert ([p.before] + f.lines)[1..] == f.lines;
      }
      AppendAssoc(p.before + CRLF, Join(f.lines), f.rest);
    } else {
      assert SplitLines(buffer) == Framed([], buffer);
    }
  }

  /** After framing, neither a line nor the kept tail contains CRLF. */
  lemma {:induction false} SplitLinesClean(buffer: seq<Byte>)
    ensures Lacks(SplitLines(buffer).rest, CRLF)
    ensures forall l | l in SplitLines(buffer).lines :: Lacks(l, CRLF)
    decreases |buffer|
  {
    var p := Partition(buffer, CRLF);
    PartitionBefore(buffer, CRLF);
    if p.sep != [] {
      SplitLinesClean(p.after);
    }
  }

  /** One step of the framing loop: a buffer with CRLF loses its first line. */
  lemma {:induction false} SplitLinesStep(buffer: seq<Byte>, line: seq<Byte>, after: seq<Byte>)
    requires Partition(buffer, CRLF) == Parts(line, CRLF, after)
    ensures SplitLines(buffer) == Framed([line] + SplitLines(after).lines, SplitLines(after).rest)
  {
  }

  /** Appending bytes after a CRLF leaves the first line alone. */
  lemma {:induction false} PartitionExtend(b: seq<Byte>, d: seq<Byte>)
    requires Partition(b, CRLF).sep != []
    ensures var p := Partition(b, CRLF);
            Partition(b + d, CRLF) == Parts(p.before, CRLF, p.after + d)
  {
    var i := IndexOf(b, CRLF).value;
    IndexOfExtend(b, d, CRLF);
    PartitionAt(b, CRLF, i);
    PartitionAt(b + d, CRLF, i);
    SlicesOfAppend(b, d, i, i + 2);
  }

  /** A chunk without CRLF is simply kept for the next read. */
  lemma {:induction false} ChunkedWithoutCrLf(b: seq<Byte>, d: seq<Byte>)
    requires Partition(b, CRLF).sep == []
    ensures SplitLines(b) == Framed([], b)
  {
  }

  /** A chunk with CRLF: its first line comes first either way. */
  lemma {:induction false} ChunkedWithCrLf(b: seq<Byte>, d: seq<Byte>, line: seq<Byte>, after: seq<Byte>)
    requires Partition(b, CRLF) == Parts(line, CRLF, after)
    ensures SplitLines(b) == Framed([line] + SplitLines(after).lines, SplitLines(after).rest)
    ensures SplitLines(b + d) == Framed([line] + SplitLines(after + d).lines, SplitLines(after + d).rest)
  {
    SplitLinesStep(b, line, after);
    PartitionExtend(b, d);
    SplitLinesStep(b + d, line, after + d);
  }

  /**
   * Framing does not depend on how the byte stream is cut into reads: framing
   * the first chunk, then the kept tail with the next chunk, gives the lines of
   * framing both chunks at once.
   */
  lemma {:induction false} SplitLinesChunked(b: seq<Byte>, d: seq<Byte>)
    ensures var f := SplitLines(b);
            var g := SplitLines(f.rest + d);
            SplitLines(b + d) == Framed(f.lines + g.lines, g.rest)
    decreases |b|
  {
    var p := Partition(b, CRLF);
    if p.sep != [] {
      var f := SplitLines(p.after);
      var g := SplitLines(f.rest + d);
      assert SplitLines(p.after + d) == Framed(f.lines + g.lines, g.rest) by {
        SplitLinesChunked(p.after, d);
      }
      assert SplitLines(b) == Framed([p.before] + f.lines, f.rest)
          && SplitLines(b + d) == Framed([p.before] + (f.lines + g.lines), g.rest) by {
        ChunkedWithCrLf(b, d, p.before, p.after);
      }
      AppendAssoc([p.before], f.lines, g.lines);
    } else {
      ChunkedWithoutCrLf(b, d);
      assert SplitLines(b + d) == Framed([] + SplitLines(b + d).lines, SplitLines(b + d).rest);
    }
  }

  /** In a line without CRLF followed by CRLF, the first CRLF is the terminator. */
  lemma {:induction false} FirstCrLfEndsLine(l: seq<Byte>, r: seq<Byte>)
    requires Lacks(l, CRLF)
    ensures IndexOf(l + CRLF + r, CRLF) == Some(|l|)
  {
    var s := l + CRLF + r;
    assert s[|l|..|l| + 2] == CRLF;
    assert Occurs(s, CRLF, |l|);
    var k := IndexOf(s, CRLF).value;
    assert s == l + (CRLF + r);
    forall j | 0 <= j < |l| ensures !Occurs(s, CRLF, j) {
      if j + 2 <= |l| {
        OccursInPrefix(l, CRLF + r, CRLF, j);
      } else {
        assert s[j..j + 2][1] == s[j + 1] == CR;
      }
    }
  }

  /** Framing a line without CRLF, its CRLF and more cuts exactly that line. */
  lemma {:induction false} PartitionJoined(l: seq<Byte>, tail: seq<Byte>)
    requires Lacks(l, CRLF)
    ensures Partition(l + CRLF + tail, CRLF) == Parts(l, CRLF, tail)
  {
    FirstCrLfEndsLine(l, tail);
    assert (l + CRLF + tail)[..|l|] == l;
    assert (l + CRLF + tail)[|l| + 2..] == tail;
  }

  /**
   * The converse of SplitLines: lines without CRLF, joined with CRLF and
   * followed by a tail without CRLF, are framed back into exactly those lines
   * and that tail.
   */
  lemma {:induction false} SplitJoin(lines: seq<seq<Byte>>, rest: seq<Byte>)
    requires forall l | l in lines :: Lacks(l, CRLF)
    requires Lacks(rest, CRLF)
    ensures SplitLines(Join(lines) + rest) == Framed(lines, rest)
  {
    if lines == [] {
      assert Join(lines) + rest == rest;
    } else {
      var l := lines[0];
      var tail := Join(lines[1..]) + rest;
      assert Join(lines) + rest == l + CRLF + tail by {
        AppendAssoc(l + CRLF, Join(lines[1..]), rest);
      }
      assert SplitLines(l + CRLF + tail) == Framed([l] + SplitLines(tail).lines, SplitLines(tail).rest) by {
        assert l in lines;
        PartitionJoined(l, tail);
        SplitLinesStep(l + CRLF + tail, l, tail);
      }
      assert SplitLines(tail) == Framed(lines[1..], rest) by {
        assert forall m | m in lines[1..] :: m in lines;
        SplitJoin(lines[1..], rest);
      }
      assert lines == [l] + lines[1..];
    }
  }

  /** A sanitised line has no CR, so it cannot contain CRLF. */
  lemma {:induction false} SanitizedLacksCrLf(x: seq<Byte>)
    ensures Lacks(Sanitize(x), CRLF)
  {
    var s := Sanitize(x);
    forall j | 0 <= j <= |s| ensures !Occurs(s, CRLF, j) {
      if j + 2 <= |s| {
        assert s[j] != CR;
        assert s[j..j + 2][0] == s[j];
      }
    }
  }

  /** The wire form of the given lines, one after another. */
  function WireStream(xs: seq<seq<Byte>>): seq<Byte>
  {
    if xs == [] then [] else Wire(xs[0]) + WireStream(xs[1..])
  }

  /** The lines as the transmit path cleans them. */
  function SanitizeAll(xs: seq<seq<Byte>>): (r: seq<seq<Byte>>)
    ensures |r| == |xs|
    ensures forall i | 0 <= i < |xs| :: r[i] == Sanitize(xs[i])
  {
    if xs == [] then [] else [Sanitize(xs[0])] + SanitizeAll(xs[1..])
  }

  /**
   * What the transmit path writes, framed by the receive path, gives back the
   * sanitised lines one for one, with nothing left over.
   */
  lemma {:induction false} WireStreamFrames(xs: seq<seq<Byte>>)
    ensures SplitLines(WireStream(xs)) == Framed(SanitizeAll(xs), [])
  {
    var lines := SanitizeAll(xs);
    assert forall l | l in lines :: Lacks(l, CRLF) by {
      forall l | l in lines ensures Lacks(l, CRLF) {
        var i :| 0 <= i < |lines| && lines[i] == l;
        SanitizedLacksCrLf(xs[i]);
      }
    }
    assert WireStream(xs) == Join(lines) + [] by {
      JoinSanitized(xs);
    }
    SplitJoin(lines, []);
  }

  lemma {:induction false} JoinSanitized(xs: seq<seq<Byte>>)
    ensures WireStream(xs) == Join(SanitizeAll(xs))
  {
    if xs != [] {
      JoinSanitized(xs[1..]);
      assert SanitizeAll(xs)[1..] == SanitizeAll(xs[1..]);
    }
  }
}
