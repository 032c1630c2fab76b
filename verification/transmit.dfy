/**
 * The outbound path of the engine (`ServerThread.send_line_raw`): the line is
 * cleaned of CR and LF, cut to the protocol's line length, terminated by CRLF,
 * and sent at a reserved slot at least one second after the previous reserved
 * slot (`last_send`). Lines that start with "PING " or "PONG " are written but
 * not logged.
 */
module Transmit {
  import opened Bytes

  /**
   * Longest line content the engine writes: 512 bytes per message (section 2.3
   * of RFC 2812) less the two bytes of CRLF.
   */
  const MAX_LINE: nat := 510

  /** Longest byte string ever written for one line. */
  const MAX_WIRE: nat := 512

  const PING: seq<Byte> := Ascii("PING")
  const PONG: seq<Byte> := Ascii("PONG")
  const PING_SP: seq<Byte> := PING + [SP]
  const PONG_SP: seq<Byte> := PONG + [SP]

  /** The line with every CR and then every LF deleted. */
  function Stripped(line: seq<Byte>): (r: seq<Byte>)
    ensures CR !in r && LF !in r
    ensures |r| <= |line|
  {
    var noCr := Remove(line, CR);
    assert CR !in multiset(Remove(noCr, LF));
    assert |multiset(noCr)| <= |multiset(line)|;
    Remove(noCr, LF)
  }

  /** `line.replace(b'\r', b'').replace(b'\n', b'')[:510]`. */
  function Sanitize(line: seq<Byte>): (r: seq<Byte>)
    ensures CR !in r && LF !in r
    ensures |r| <= MAX_LINE
  {
    var s := Stripped(line);
    if |s| <= MAX_LINE then s else s[..MAX_LINE]
  }

  /** The bytes handed to `sendall` for one line: the sanitised line and CRLF. */
  function Wire(line: seq<Byte>): (w: seq<Byte>)
    ensures |w| <= MAX_WIRE
    ensures |w| >= 2 && w[|w| - 2..] == CRLF
    ensures forall i | 0 <= i < |w| - 2 :: w[i] != CR && w[i] != LF
  {
    var s := Sanitize(line);
    assert forall i | 0 <= i < |s| :: s[i] != CR && s[i] != LF;
    s + CRLF
  }

  /** A line that is a keep-alive: it starts with "PING " or "PONG ". */
  predicate IsKeepAlive(s: seq<Byte>)
  {
    |s| >= 5 && (s[..5] == PING_SP || s[..5] == PONG_SP)
  }

  /** A line without CR or LF of at most 510 bytes is exactly what sanitising leaves alone. */
  lemma {:induction false} SanitizeFixpoint(x: seq<Byte>)
    ensures Sanitize(x) == x <==> CR !in x && LF !in x && |x| <= MAX_LINE
  {
    if CR !in x && LF !in x && |x| <= MAX_LINE {
      RemoveAbsent(x, CR);
      RemoveAbsent(x, LF);
    }
  }

  /** Sanitising twice is sanitising once. */
  lemma {:induction false} SanitizeIdempotent(x: seq<Byte>)
    ensures Sanitize(Sanitize(x)) == Sanitize(x)
  {
    SanitizeFixpoint(Sanitize(x));
  }

  /**
   * A clean prefix survives sanitising: the sanitised line starts with it.
   * (This is why the replies "PONG ..." and "PING :foo" are never logged.)
   */
  lemma {:induction false} SanitizeKeepsPrefix(p: seq<Byte>, y: seq<Byte>)
    requires CR !in p && LF !in p && |p| <= MAX_LINE
    ensures |Sanitize(p + y)| >= |p|
    ensures Sanitize(p + y)[..|p|] == p
  {
    var stripped := Stripped(p + y);
    calc {
      stripped;
      Remove(Remove(p + y, CR), LF);
      { RemoveAppend(p, y, CR); RemoveAbsent(p, CR); }
      Remove(p + Remove(y, CR), LF);
      { RemoveAppend(p, Remove(y, CR), LF); RemoveAbsent(p, LF); }
      p + Remove(Remove(y, CR), LF);
    }
    var r := Sanitize(p + y);
    assert r == if |stripped| <= MAX_LINE then stripped else stripped[..MAX_LINE];
    assert stripped[..|p|] == p;
  }

  /** A keep-alive prefix makes the whole sanitised line a keep-alive. */
  lemma {:induction false} KeepAliveSurvivesSanitize(p: seq<Byte>, y: seq<Byte>)
    requires p == PING_SP || p == PONG_SP
    ensures IsKeepAlive(Sanitize(p + y))
  {
    SanitizeKeepsPrefix(p, y);
  }

  /**
   * The send slot reserved for a write, from the last reserved slot and the
   * current time: the current time if at least a second has passed since the
   * last slot, otherwise exactly one second after the last slot.
   */
  function NextSlot(last: real, now: real): (slot: real)
    ensures slot >= last + 1.0
    ensures slot >= now
    ensures slot == now <==> now - last >= 1.0
    ensures slot != now ==> slot == last + 1.0
  {
    if now - last < 1.0 then last + 1.0 else now
  }

  /** Successive reserved send slots are at least one second apart. */
  ghost predicate Spaced(slots: seq<real>)
  {
    forall i | 0 < i < |slots| :: slots[i - 1] + 1.0 <= slots[i]
  }

  /** Reserving the next slot after the last one keeps the reserved slots spaced. */
  lemma {:induction false} SpacedExtend(slots: seq<real>, last: real, now: real)
    requires Spaced(slots)
    requires |slots| > 0 ==> slots[|slots| - 1] == last
    ensures Spaced(slots + [NextSlot(last, now)])
  {
  }

  /** Any two reserved slots `k` places apart are at least `k` seconds apart. */
  lemma {:induction false} SpacedGap(slots: seq<real>, i: nat, j: nat)
    requires Spaced(slots)
    requires i <= j < |slots|
    ensures slots[i] + (j - i) as real <= slots[j]
    decreases j - i
  {
    if i < j {
      SpacedGap(slots, i, j - 1);
    }
  }
}
