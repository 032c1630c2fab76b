/**
 * Byte strings as the IRC engine handles them. The socket, the receive buffer and
 * every protocol line are Python `bytes`/`bytearray` values; here they are
 * sequences of `Byte`. The functions below are the few `bytes` methods the
 * engine relies on: `find`/`in`, `partition`, `split`, `replace` of one byte by
 * nothing, and `upper`.
 */
module Bytes {
  import opened Wrappers
  import opened Seqs

  newtype Byte = b: int | 0 <= b < 256

  const CR: Byte := 13
  const LF: Byte := 10
  const SP: Byte := 32
  const COLON: Byte := 58
  const CRLF: seq<Byte> := [CR, LF]

  /** The bytes of a 7-bit ASCII text (used for the engine's fixed protocol words). */
  function Ascii(s: string): seq<Byte>
    requires forall i | 0 <= i < |s| :: s[i] as int < 128
  {
    seq(|s|, i requires 0 <= i < |s| && s[i] as int < 128 => s[i] as int as Byte)
  }

  /** An ASCII lower-case letter, the only bytes `bytes.upper()` changes. */
  predicate IsLower(b: Byte)
  {
    97 <= b <= 122
  }

  /** `bytes.upper()` on one byte: a lower-case letter becomes its capital. */
  function UpperByte(b: Byte): (r: Byte)
    ensures !IsLower(r)
    ensures r != b ==> IsLower(b) && r as int == b as int - 32
  {
    if IsLower(b) then b - 32 else b
  }

  /** `bytes.upper()`. */
  function Upper(s: seq<Byte>): seq<Byte>
  {
    seq(|s|, i requires 0 <= i < |s| => UpperByte(s[i]))
  }

  /** Uppercasing twice is uppercasing once. */
  lemma UpperIdempotent(s: seq<Byte>)
    ensures Upper(Upper(s)) == Upper(s)
  {
    assert forall i | 0 <= i < |s| :: UpperByte(UpperByte(s[i])) == UpperByte(s[i]);
  }

  /**
   * Comparing `t.upper()` with a word that has no lower-case letter (such as
   * PING or PONG) is a case-insensitive comparison: same length, and each byte
   * either equal or the lower-case form of a capital letter of the word.
   */
  lemma UpperMatches(t: seq<Byte>, w: seq<Byte>)
    requires forall i | 0 <= i < |w| :: !IsLower(w[i])
    ensures Upper(t) == w <==>
              |t| == |w| && forall i | 0 <= i < |t| :: t[i] == w[i] || (65 <= w[i] <= 90 && t[i] as int == w[i] as int + 32)
  {
    if |t| == |w| && forall i | 0 <= i < |t| :: t[i] == w[i] || (65 <= w[i] <= 90 && t[i] as int == w[i] as int + 32) {
      assert forall i | 0 <= i < |t| :: Upper(t)[i] == w[i];
    }
  }

  /** `sep` occurs in `s` at index `i`. */
  predicate Occurs(s: seq<Byte>, sep: seq<Byte>, i: int)
  {
    0 <= i && i + |sep| <= |s| && s[i..i + |sep|] == sep
  }

  /** `sep` occurs nowhere in `s`. */
  predicate Lacks(s: seq<Byte>, sep: seq<Byte>)
  {
    forall j | 0 <= j <= |s| :: !Occurs(s, sep, j)
  }

  /** An occurrence in the tail of `s` is one in `s`, one place further on. */
  lemma {:induction false} OccursShift(s: seq<Byte>, sep: seq<Byte>, j: nat)
    requires |s| > 0
    ensures Occurs(s[1..], sep, j) <==> Occurs(s, sep, j + 1)
  {
    if j + |sep| <= |s| - 1 {
      assert s[1..][j..j + |sep|] == s[j + 1..j + 1 + |sep|];
    }
  }

  /** The index of the first occurrence of `sep` in `s` (`bytes.find`, and `sep in s`). */
  function IndexOf(s: seq<Byte>, sep: seq<Byte>): (r: Option<nat>)
    requires sep != []
    ensures r.Some? ==> Occurs(s, sep, r.value)
    ensures r.Some? ==> forall j :: 0 <= j < r.value ==> !Occurs(s, sep, j)
    ensures r.None? <==> Lacks(s, sep)
    decreases |s|
  {
    if |s| < |sep| then None
    else if s[..|sep|] == sep then Some(0)
    else
      assert !Occurs(s, sep, 0) by { assert s[0..|sep|] == s[..|sep|]; }
      match IndexOf(s[1..], sep)
      case None =>
        assert Lacks(s, sep) by {
          forall j | 1 <= j <= |s| ensures !Occurs(s, sep, j) {
            OccursShift(s, sep, j - 1);
          }
        }
        None
      case Some(k) =>
        OccursShift(s, sep, k);
        assert forall j :: 0 <= j < k + 1 ==> !Occurs(s, sep, j) by {
          forall j | 1 <= j < k + 1 ensures !Occurs(s, sep, j) {
            OccursShift(s, sep, j - 1);
          }
        }
        Some(k + 1)
  }

  /** Python's `sep in s` for byte strings. */
  predicate Contains(s: seq<Byte>, sep: seq<Byte>)
    requires sep != []
  {
    IndexOf(s, sep).Some?
  }

  /** An occurrence of `sep` wholly inside `a` is one in `a + b`, and conversely. */
  lemma {:induction false} OccursInPrefix(a: seq<Byte>, b: seq<Byte>, sep: seq<Byte>, j: int)
    requires 0 <= j && j + |sep| <= |a|
    ensures Occurs(a + b, sep, j) <==> Occurs(a, sep, j)
  {
    assert (a + b)[j..j + |sep|] == a[j..j + |sep|];
  }

  /** Appending bytes never moves the first occurrence already present. */
  lemma {:induction false} IndexOfExtend(a: seq<Byte>, b: seq<Byte>, sep: seq<Byte>)
    requires sep != [] && IndexOf(a, sep).Some?
    ensures IndexOf(a + b, sep) == IndexOf(a, sep)
  {
    var i := IndexOf(a, sep).value;
    OccursInPrefix(a, b, sep, i);
    assert !Lacks(a + b, sep) by {
      assert Occurs(a + b, sep, i);
    }
    var k := IndexOf(a + b, sep).value;
    assert i <= k by {
      if k < i {
        OccursInPrefix(a, b, sep, k);
      }
    }
    assert k <= i;
  }

  /** The three parts of `bytes.partition(sep)`. */
  datatype Parts = Parts(before: seq<Byte>, sep: seq<Byte>, after: seq<Byte>)

  /**
   * `bytes.partition(sep)`: cut at the first occurrence of `sep`; when there is
   * none, the whole input is `before` and the other two parts are empty.
   */
  function Partition(s: seq<Byte>, sep: seq<Byte>): (p: Parts)
    requires sep != []
    ensures p.before + p.sep + p.after == s
    ensures p.sep == [] <==> IndexOf(s, sep).None?
    ensures p.sep != [] ==> p.sep == sep
  {
    match IndexOf(s, sep)
    case None => Parts(s, [], [])
    case Some(i) =>
      assert s[..i] + sep + s[i + |sep|..] == s by {
        assert s[i..i + |sep|] == sep;
        assert s == s[..i] + s[i..i + |sep|] + s[i + |sep|..];
      }
      Parts(s[..i], sep, s[i + |sep|..])
  }

  /** Proof helper: cutting `a + b` at two places inside `a`. */
  lemma SlicesOfAppend(a: seq<Byte>, b: seq<Byte>, i: nat, j: nat)
    requires i <= j <= |a|
    ensures (a + b)[..i] == a[..i]
    ensures (a + b)[j..] == a[j..] + b
  {
  }

  /** Where `sep` first occurs at `i`, `partition` cuts there. */
  lemma PartitionAt(s: seq<Byte>, sep: seq<Byte>, i: nat)
    requires sep != [] && IndexOf(s, sep) == Some(i)
    ensures i + |sep| <= |s|
    ensures Partition(s, sep) == Parts(s[..i], sep, s[i + |sep|..])
  {
  }

  /**
   * What `partition` puts before the separator never contains it, and the
   * separator is found exactly when the input contains it.
   */
  lemma {:induction false} PartitionBefore(s: seq<Byte>, sep: seq<Byte>)
    requires sep != []
    ensures Lacks(Partition(s, sep).before, sep)
    ensures Partition(s, sep).sep == [] <==> Lacks(s, sep)
  {
    match IndexOf(s, sep)
    case None =>
    case Some(i) =>
      assert s[..i] + s[i..] == s;
      forall j | 0 <= j <= i
        ensures !Occurs(s[..i], sep, j)
      {
        if j + |sep| <= i {
          OccursInPrefix(s[..i], s[i..], sep, j);
        }
      }
  }

  /** Partitioning at a one-byte separator that the front part lacks cuts right after that part. */
  lemma {:induction false} PartitionAtByte(l: seq<Byte>, b: Byte, r: seq<Byte>)
    requires b !in l
    ensures Partition(l + [b] + r, [b]) == Parts(l, [b], r)
  {
    var s := l + [b] + r;
    assert Occurs(s, [b], |l|) by {
      assert s[|l|..|l| + 1] == [b];
    }
    forall j | 0 <= j < |l|
      ensures !Occurs(s, [b], j)
    {
      assert s[j..j + 1] == [l[j]];
    }
    assert s[..|l|] == l;
    assert s[|l| + 1..] == r;
  }

  /** `bytes.split(sep)`: the pieces between the occurrences of `sep`, in order. */
  function Split(s: seq<Byte>, sep: seq<Byte>): (r: seq<seq<Byte>>)
    requires sep != []
    ensures |r| >= 1
    decreases |s|
  {
    var p := Partition(s, sep);
    if p.sep == [] then [s] else [p.before] + Split(p.after, sep)
  }

  /**
   * The first two pieces of `split` are what two successive `partition`s give,
   * and there is a second piece exactly when the separator occurs.
   */
  lemma {:induction false} SplitFirstPieces(s: seq<Byte>, sep: seq<Byte>)
    requires sep != []
    ensures Split(s, sep)[0] == Partition(s, sep).before
    ensures |Split(s, sep)| >= 2 <==> Contains(s, sep)
    ensures |Split(s, sep)| >= 2 ==>
      Split(s, sep)[1] == Partition(Partition(s, sep).after, sep).before
  {
    var p := Partition(s, sep);
    if p.sep != [] {
      assert Split(s, sep) == [p.before] + Split(p.after, sep);
    }
  }

  /** `bytes.replace(bytes([b]), b'')`: every `b` dropped, the order of the rest kept. */
  function Remove(s: seq<Byte>, b: Byte): (r: seq<Byte>)
    ensures b !in r
    ensures multiset(r) == multiset(s)[b := 0]
  {
    if s == [] then []
    else
      assert s == [s[0]] + s[1..];
      (if s[0] == b then [] else [s[0]]) + Remove(s[1..], b)
  }

  /** Removing a byte distributes over concatenation. */
  lemma {:induction false} RemoveAppend(s: seq<Byte>, t: seq<Byte>, b: Byte)
    ensures Remove(s + t, b) == Remove(s, b) + Remove(t, b)
  {
    if s != [] {
      var head: seq<Byte> := if s[0] == b then [] else [s[0]];
      assert (s + t)[0] == s[0] && (s + t)[1..] == s[1..] + t;
      calc {
        Remove(s + t, b);
        head + Remove(s[1..] + t, b);
        { RemoveAppend(s[1..], t, b); }
        head + (Remove(s[1..], b) + Remove(t, b));
        { AppendAssoc(head, Remove(s[1..], b), Remove(t, b)); }
        (head + Remove(s[1..], b)) + Remove(t, b);
        Remove(s, b) + Remove(t, b);
      }
    } else {
      assert s + t == t;
    }
  }

  /** Removing a byte that does not occur changes nothing. */
  lemma {:induction false} RemoveAbsent(s: seq<Byte>, b: Byte)
    requires b !in s
    ensures Remove(s, b) == s
  {
    if s != [] {
      RemoveAbsent(s[1..], b);
    }
  }
}
