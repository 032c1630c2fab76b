/**
 * The server thread (`ServerThread`) and the facade handed to bot code
 * (`API`), as classes whose methods perform the thread's steps one at a time.
 * Every observable step is appended to `trace`; every socket write also
 * records, in `slots`, the send slot reserved for it (`last_send`). Each
 * method is proved to produce exactly the actions the Protocol functions
 * describe, and `Valid` keeps two facts about the whole history: every write
 * is one well-formed IRC line, and the reserved send slots are at least one
 * second apart.
 */
module Engine {
  import opened Wrappers
  import opened Bytes
  import opened Transmit
  import opened Framing
  import opened Messages
  import opened Protocol
  import opened Seqs

  /** The number of socket writes among some actions. */
  function WriteCount(actions: seq<Action>): nat
  {
    if actions == [] then 0 else (if actions[0].Write? then 1 else 0) + WriteCount(actions[1..])
  }

  lemma {:induction false} WriteCountAppend(a: seq<Action>, b: seq<Action>)
    ensures WriteCount(a + b) == WriteCount(a) + WriteCount(b)
  {
    if a == [] {
      assert a + b == b;
    } else {
      assert (a + b)[1..] == a[1..] + b;
      WriteCountAppend(a[1..], b);
    }
  }

  /** One IRC line as written: at most 512 bytes, ending in CRLF, with no CR or LF before. */
  predicate WireLine(w: seq<Byte>)
  {
    2 <= |w| <= MAX_WIRE && w[|w| - 2..] == CRLF
    && forall i | 0 <= i < |w| - 2 :: w[i] != CR && w[i] != LF
  }

  /** Every socket write among the actions is one IRC line. */
  predicate WritesAreLines(actions: seq<Action>)
  {
    forall i | 0 <= i < |actions| :: actions[i].Write? ==> WireLine(actions[i].bytes)
  }

  /**
   * What holds of the thread's history at all times: successive reserved
   * send slots are at least a second apart, there is one slot per write, the
   * latest is `last_send`, and every write is one IRC line.
   */
  ghost predicate History(trace: seq<Action>, slots: seq<real>, lastSend: real)
  {
    && Spaced(slots)
    && |slots| == WriteCount(trace)
    && (|slots| > 0 ==> slots[|slots| - 1] == lastSend)
    && WritesAreLines(trace)
  }

  lemma {:induction false} WritesAreLinesAppend(a: seq<Action>, b: seq<Action>)
    requires WritesAreLines(a) && WritesAreLines(b)
    ensures WritesAreLines(a + b)
  {
    forall i | 0 <= i < |a + b| && (a + b)[i].Write?
      ensures WireLine((a + b)[i].bytes)
    {
      if i >= |a| {
        assert (a + b)[i] == b[i - |a|];
      } else {
        assert (a + b)[i] == a[i];
      }
    }
  }

  /** `send_line_raw` writes once, and what it writes is one IRC line. */
  lemma SendActionsWrite(line: seq<Byte>)
    ensures WriteCount(SendActions(line)) == 1
    ensures WritesAreLines(SendActions(line))
  {
    var acts := SendActions(line);
    assert WireLine(Wire(line));
    assert WriteCount(acts[1..]) == 0 by {
      if |acts| == 2 {
        assert !acts[1].Write?;
        assert acts[1..][1..] == [];
      } else {
        assert acts[1..] == [];
      }
    }
  }

  /** Sending a line at the next slot keeps the history invariant. */
  lemma HistorySend(trace: seq<Action>, slots: seq<real>, lastSend: real, now: real, line: seq<Byte>)
    requires History(trace, slots, lastSend)
    ensures History(trace + SendActions(line), slots + [NextSlot(lastSend, now)], NextSlot(lastSend, now))
  {
    SpacedExtend(slots, lastSend, now);
    SendActionsWrite(line);
    WriteCountAppend(trace, SendActions(line));
    WritesAreLinesAppend(trace, SendActions(line));
  }

  /** Any other step keeps the history invariant. */
  lemma HistoryEmit(trace: seq<Action>, slots: seq<real>, lastSend: real, a: Action)
    requires History(trace, slots, lastSend) && !a.Write?
    ensures History(trace + [a], slots, lastSend)
  {
    WriteCountAppend(trace, [a]);
    WritesAreLinesAppend(trace, [a]);
  }

  /** The batch loop from its `j`-th descriptor on: that descriptor's step, then the rest unless it abandons the batch. */
  lemma BatchUnfold(t: LoopState, ready: seq<Ready>, j: nat)
    requires j < |ready|
    ensures var r := ReadyStep(t, ready[j]);
            var rest := BatchSpec(r.state, ready[j + 1..]);
            BatchSpec(t, ready[j..])
            == if r.abandon then Steps(r.state, r.actions) else Steps(rest.state, r.actions + rest.actions)
  {
    assert ready[j..][0] == ready[j];
    assert ready[j..][1..] == ready[j + 1..];
  }

  /** `mainloop` from its `i`-th `poll` result on, with no flag set yet: that batch, then the rest. */
  lemma MainloopUnfold(s: LoopState, polls: seq<Poll>, i: nat)
    requires i < |polls| && !s.quitting && !s.reconnecting
    ensures var b := BatchSpec(s, polls[i].ready);
            var rest := MainloopSpec(b.state, polls[i + 1..]);
            MainloopSpec(s, polls[i..]) == LoopRun(rest.result, b.actions + rest.actions)
  {
    assert polls[i..][0] == polls[i];
    assert polls[i..][1..] == polls[i + 1..];
  }

  /** One `poll` result of `mainloop`, against what is left of the whole loop. */
  lemma MainloopStep(total: LoopRun, s: LoopState, polls: seq<Poll>, i: nat, done: seq<Action>, t: LoopState, actions: seq<Action>)
    requires i < |polls| && !s.quitting && !s.reconnecting
    requires total.result == MainloopSpec(s, polls[i..]).result
    requires total.actions == done + MainloopSpec(s, polls[i..]).actions
    requires t == BatchSpec(s, polls[i].ready).state && actions == BatchSpec(s, polls[i].ready).actions
    ensures total.result == MainloopSpec(t, polls[i + 1..]).result
    ensures total.actions == (done + actions) + MainloopSpec(t, polls[i + 1..]).actions
  {
    MainloopUnfold(s, polls, i);
    AppendAssoc(done, actions, MainloopSpec(t, polls[i + 1..]).actions);
  }

  /** Once a flag is set, `mainloop` returns whether it is reconnecting and does nothing more. */
  lemma MainloopDone(total: LoopRun, s: LoopState, polls: seq<Poll>, i: nat, done: seq<Action>)
    requires i <= |polls| && (s.quitting || s.reconnecting)
    requires total.result == MainloopSpec(s, polls[i..]).result
    requires total.actions == done + MainloopSpec(s, polls[i..]).actions
    ensures total.result == Some(s.reconnecting) && total.actions == done
  {
    AppendEmpty(done);
  }

  /** The disconnected wait from its `k`-th control message on. */
  lemma AwaitUnfold(msgs: seq<ControlMessage>, k: nat)
    requires k < |msgs|
    ensures var rest := AwaitSpec(msgs[k + 1..]);
            AwaitSpec(msgs[k..])
            == if msgs[k] == Reconnect then LoopRun(Some(true), [])
               else if msgs[k] == Quit then LoopRun(Some(false), [])
               else LoopRun(rest.result, [Log(InternalError(NotWhenDisconnected(msgs[k])))] + rest.actions)
  {
    assert msgs[k..][0] == msgs[k];
    assert msgs[k..][1..] == msgs[k + 1..];
  }

  /** The JOIN lines of the configured channels: those sent before the `k`-th, its own, then the rest. */
  lemma JoinUnfold(channels: seq<seq<Byte>>, k: nat, done: seq<Action>)
    requires k < |channels|
    requires JoinActions(channels) == done + JoinActions(channels[k..])
    ensures JoinActions(channels) == (done + SendActions(JOIN_SP + channels[k])) + JoinActions(channels[k + 1..])
  {
    assert channels[k..][0] == channels[k];
    assert channels[k..][1..] == channels[k + 1..];
    AppendAssoc(done, SendActions(JOIN_SP + channels[k]), JoinActions(channels[k + 1..]));
  }

  /** The channels among the first `k + 1` configured ones. */
  lemma ChannelSetGrows(channels: seq<seq<Byte>>, k: nat)
    requires k < |channels|
    ensures ChannelSet(channels[..k + 1]) == ChannelSet(channels[..k]) + {channels[k]}
  {
    assert channels[..k + 1] == channels[..k] + [channels[k]];
  }

  /** One pass of the join loop: the JOIN line for the `k`-th channel is sent and the channel tracked. */
  lemma JoinStep(t0: seq<Action>, done: seq<Action>, c0: set<seq<Byte>>, channels: seq<seq<Byte>>, k: nat,
                 trace: seq<Action>, tracked: set<seq<Byte>>)
    requires k < |channels|
    requires JoinActions(channels) == done + JoinActions(channels[k..])
    requires trace == t0 + done + SendActions(JOIN_SP + channels[k])
    requires tracked == c0 + ChannelSet(channels[..k]) + {channels[k]}
    ensures trace == t0 + (done + SendActions(JOIN_SP + channels[k]))
    ensures JoinActions(channels) == (done + SendActions(JOIN_SP + channels[k])) + JoinActions(channels[k + 1..])
    ensures tracked == c0 + ChannelSet(channels[..k + 1])
  {
    JoinUnfold(channels, k, done);
    AppendAssoc(t0, done, SendActions(JOIN_SP + channels[k]));
    ChannelSetGrows(channels, k);
  }

  /** When the join loop ends, every JOIN line has been sent and every channel tracked. */
  lemma JoinDone(channels: seq<seq<Byte>>, done: seq<Action>)
    requires JoinActions(channels) == done + JoinActions(channels[|channels|..])
    ensures done == JoinActions(channels)
  {
    assert channels[|channels|..] == [];
  }

  lemma ChannelSetAll(channels: seq<seq<Byte>>)
    ensures ChannelSet(channels[..|channels|]) == ChannelSet(channels)
  {
    assert channels[..|channels|] == channels;
  }

  /** The connect loop of `run` from its `i`-th attempt on: that attempt, then the rest if it asks to go round again. */
  lemma RunUnfold(cfg: ServerConfig, attempts: seq<Attempt>, i: nat, nick: Option<seq<Byte>>, channels: set<seq<Byte>>)
    requires i < |attempts|
    ensures var e := AttemptSpec(cfg, attempts[i]);
            var nick' := if attempts[i].Connected? then Some(cfg.nick) else nick;
            var channels' := if attempts[i].Connected? then channels + ChannelSet(cfg.channels) else channels;
            RunSpec(cfg, attempts[i..], nick, channels)
            == match e.result
               case None => RunEnd(e.actions, nick', channels', false)
               case Some(again) =>
                 if again then Then(e.actions, RunSpec(cfg, attempts[i + 1..], nick', channels'))
                 else RunEnd(e.actions + Final, nick', channels', true)
  {
    assert attempts[i..][0] == attempts[i];
    assert attempts[i..][1..] == attempts[i + 1..];
    var passes := Passes(cfg, attempts[i..]);
    assert passes == [AttemptSpec(cfg, attempts[i])] + Passes(cfg, attempts[i + 1..]);
    assert passes[0] == AttemptSpec(cfg, attempts[i]) && passes[1..] == Passes(cfg, attempts[i + 1..]);
  }

  /** The outputs of a failed connect, put together from its stages; `w` is how the wait for a control message ended. */
  lemma RefusalTrace(cfg: ServerConfig, w: LoopRun, t0: seq<Action>, t1: seq<Action>, t2: seq<Action>, t3: seq<Action>)
    requires t1 == t0 + [Log(InternalError(CantConnect(cfg.host, cfg.port)))] + [Cron(Reschedule(RECONNECT_DELAY, Reconnect))]
    requires t2 == t1 + w.actions
    requires t3 == if w.result.Some? then t2 + [Cron(Delete(Reconnect))] else t2
    ensures t3 == t0 + (RefusedStart(cfg) + w.actions + (if w.result.Some? then [Cron(Delete(Reconnect))] else []))
  {
    var cancel: seq<Action> := if w.result.Some? then [Cron(Delete(Reconnect))] else [];
    assert t1 == t0 + RefusedStart(cfg);
    assert t3 == t2 + cancel by {
      AppendEmpty(t2);
    }
    ThreeStages(t0, RefusedStart(cfg), w.actions, cancel, t1, t2, t3);
  }

  /** A trace extended three times holds the three extensions, in order. */
  lemma ThreeStages(t0: seq<Action>, a: seq<Action>, b: seq<Action>, c: seq<Action>, t1: seq<Action>, t2: seq<Action>, t3: seq<Action>)
    requires t1 == t0 + a && t2 == t1 + b && t3 == t2 + c
    ensures t3 == t0 + (a + b + c)
  {
    AppendAssoc(t0, a, b);
    AppendAssoc(t0, a + b, c);
  }

  /** One pass of the framing loop: the first line is cut off and handled. */
  lemma ExtractStep(t0: seq<Action>, done: seq<Action>, buffer: seq<Byte>, rest: seq<Byte>, line: seq<Byte>, after: seq<Byte>,
                    trace: seq<Action>)
    requires Contains(rest, CRLF) && Partition(rest, CRLF) == Parts(line, CRLF, after)
    requires done + LinesActions(SplitLines(rest).lines) == LinesActions(SplitLines(buffer).lines)
    requires SplitLines(rest).rest == SplitLines(buffer).rest
    requires trace == t0 + done + LineActions(line)
    ensures trace == t0 + (done + LineActions(line))
    ensures (done + LineActions(line)) + LinesActions(SplitLines(after).lines) == LinesActions(SplitLines(buffer).lines)
    ensures SplitLines(after).rest == SplitLines(buffer).rest
  {
    LinesActionsStep(rest, line, after);
    AppendAssoc(t0, done, LineActions(line));
    AppendAssoc(done, LineActions(line), LinesActions(SplitLines(after).lines));
  }

  /** When no CRLF is left, every line has been handled and what is left is the kept tail. */
  lemma ExtractDone(done: seq<Action>, buffer: seq<Byte>, rest: seq<Byte>)
    requires !Contains(rest, CRLF)
    requires done + LinesActions(SplitLines(rest).lines) == LinesActions(SplitLines(buffer).lines)
    requires SplitLines(rest).rest == SplitLines(buffer).rest
    ensures done == LinesActions(SplitLines(buffer).lines)
    ensures rest == SplitLines(buffer).rest && Lacks(rest, CRLF)
    ensures Join(SplitLines(buffer).lines) + rest == buffer
  {
    assert SplitLines(rest) == Framed([], rest);
    assert done + [] == done;
    SplitLinesClean(buffer);
    SplitLinesJoin(buffer);
  }

  /** The prefix `bot_response` puts before the message: U+200B ZERO WIDTH SPACE in UTF-8 (ircbot.py:88). */
  const ZWSP: seq<Byte> := [0xE2, 0x80, 0x8B]

  class ServerThread {
    /** The `Server` record the thread was started with. */
    const config: ServerConfig
    /** `time.monotonic()`. */
    var clock: real
    /** `self.last_send`: the time reserved for the latest write. */
    var lastSend: real
    /** `self.nick`. */
    var nick: Option<seq<Byte>>
    /** `self.channels`. */
    var channels: set<seq<Byte>>
    /** Everything the thread has done that others can observe, in order. */
    var trace: seq<Action>
    /** The send slot reserved for each socket write in `trace`, in order. */
    var slots: seq<real>

    ghost predicate Valid()
      reads this
    {
      History(trace, slots, lastSend)
    }

    /**
     * Compared with an earlier state whose reserved slots, clock and last
     * slot were `s0`, `c0` and `l0`: slots were only added after the earlier
     * ones, and neither the clock nor the last reserved slot went back.
     */
    ghost predicate AdvancedFrom(s0: seq<real>, c0: real, l0: real)
      reads this
    {
      s0 <= slots && c0 <= clock && l0 <= lastSend
    }

    /** `ServerThread.__init__`, at time `now`. */
    constructor (config: ServerConfig, now: real)
      ensures Valid()
      ensures this.config == config && clock == now && lastSend == 0.0
      ensures nick == None && channels == {} && trace == [] && slots == []
    {
      this.config := config;
      clock := now;
      lastSend := 0.0;
      nick := None;
      channels := {};
      trace := [];
      slots := [];
    }

    /** The environment: time passes while the thread is blocked. */
    method Elapse(t: Duration)
      modifies this
      ensures clock == old(clock) + t
      ensures lastSend == old(lastSend) && nick == old(nick) && channels == old(channels)
      ensures trace == old(trace) && slots == old(slots)
    {
      clock := clock + t;
    }

    /** An observable step other than a socket write. */
    method Emit(a: Action)
      requires Valid() && !a.Write?
      modifies this
      ensures Valid()
      ensures trace == old(trace) + [a]
      ensures clock == old(clock) && lastSend == old(lastSend) && slots == old(slots)
      ensures nick == old(nick) && channels == old(channels)
    {
      HistoryEmit(trace, slots, lastSend, a);
      trace := trace + [a];
    }

    /**
     * The `with self.last_send_lock:` block of `send_line_raw`: less than a
     * second after the last slot, the next slot is exactly one second after
     * it and the wait until then is positive; otherwise the slot is now and
     * there is no wait.
     */
    method ReserveSlot() returns (wait: real)
      modifies this
      ensures old(clock) - old(lastSend) < 1.0 ==>
                lastSend == old(lastSend) + 1.0 && wait == lastSend - old(clock) && wait > 0.0
      ensures old(clock) - old(lastSend) >= 1.0 ==> lastSend == old(clock) && wait == 0.0
      ensures lastSend == NextSlot(old(lastSend), old(clock))
      ensures clock == old(clock) && nick == old(nick) && channels == old(channels)
      ensures trace == old(trace) && slots == old(slots)
    {
      var now := clock;
      if now - lastSend < 1.0 {
        lastSend := lastSend + 1.0;
        wait := lastSend - now;
      } else {
        lastSend := now;
        wait := 0.0;
      }
    }

    /**
     * `send_line_raw(line)`: sanitise, reserve a slot, sleep until it, write
     * the line and CRLF, and log it unless it is a keep-alive.
     */
    method SendLineRaw(line: seq<Byte>)
      requires Valid()
      modifies this
      ensures Valid()
      ensures trace == old(trace) + SendActions(line)
      ensures lastSend == NextSlot(old(lastSend), old(clock)) && clock == lastSend
      ensures slots == old(slots) + [lastSend]
      ensures nick == old(nick) && channels == old(channels)
    {
      var clean := Sanitize(line);
      ghost var t0 := trace;
      var wait := ReserveSlot();
      if wait > 0.0 {
        clock := clock + wait;
      }
      HistorySend(trace, slots, old(lastSend), old(clock), line);
      trace := trace + [Write(clean + CRLF)];
      slots := slots + [lastSend];
      if !IsKeepAlive(clean) {
        trace := trace + [Log(Sent(clean))];
      }
      assert trace == t0 + SendActions(line);
    }

    /** `handle_line(line)`: answer a PING, ignore a PONG reply, log and dispatch anything else. */
    method HandleLine(line: seq<Byte>)
      requires Valid()
      modifies this
      ensures Valid()
      ensures trace == old(trace) + LineActions(line)
      ensures nick == old(nick) && channels == old(channels)
      ensures AdvancedFrom(old(slots), old(clock), old(lastSend))
    {
      var arguments := Partition(line, SPACE).after;
      var split := Split(line, SPACE);
      if |split| >= 1 && Upper(split[0]) == PING {
        SendLineRaw(PONG_SP + arguments);
      } else if |split| >= 2 && |split[0]| >= 1 && split[0][0] == COLON && Upper(split[1]) == PONG {
      } else {
        Emit(Log(Received(line)));
        Emit(Dispatch(line));
      }
    }

    /**
     * The `while b'\r\n' in server_input_buffer` loop: handle every complete
     * line at the front of the buffer, in order, and return what is left,
     * which holds no CRLF. The handled lines, each with its CRLF, followed by
     * what is left, are the buffer.
     */
    method ExtractLines(buffer: seq<Byte>) returns (rest: seq<Byte>)
      requires Valid()
      modifies this
      ensures Valid()
      ensures rest == SplitLines(buffer).rest && Lacks(rest, CRLF)
      ensures Join(SplitLines(buffer).lines) + rest == buffer
      ensures trace == old(trace) + LinesActions(SplitLines(buffer).lines)
      ensures nick == old(nick) && channels == old(channels)
      ensures AdvancedFrom(old(slots), old(clock), old(lastSend))
    {
      rest := buffer;
      ghost var done: seq<Action> := [];
      assert [] + LinesActions(SplitLines(buffer).lines) == LinesActions(SplitLines(buffer).lines);
      while Contains(rest, CRLF)
        invariant Valid()
        invariant trace == old(trace) + done
        invariant done + LinesActions(SplitLines(rest).lines) == LinesActions(SplitLines(buffer).lines)
        invariant SplitLines(rest).rest == SplitLines(buffer).rest
        invariant nick == old(nick) && channels == old(channels)
        invariant AdvancedFrom(old(slots), old(clock), old(lastSend))
        decreases |rest|
      {
        var parts := Partition(rest, CRLF);
        var line := parts.before;
        HandleLine(line);
        ExtractStep(old(trace), done, buffer, rest, line, parts.after, trace);
        done := done + LineActions(line);
        rest := parts.after;
      }
      ExtractDone(done, buffer, rest);
    }

    /** One control message in `mainloop`. */
    method HandleControl(s: LoopState, msg: ControlMessage) returns (t: LoopState)
      requires Valid()
      modifies this
      ensures Valid()
      ensures t == ControlStep(s, msg).state
      ensures trace == old(trace) + ControlStep(s, msg).actions
      ensures nick == old(nick) && channels == old(channels)
      ensures AdvancedFrom(old(slots), old(clock), old(lastSend))
    {
      t := s;
      match msg
      case Quit =>
        t := t.(quitting := true);
      case SendLine(text) =>
        var parts := Partition(text, SPACE);
        SendLineRaw(Upper(parts.before) + parts.sep + parts.after);
      case Ping =>
        SendLineRaw(PING_FOO);
        Emit(Cron(Reschedule(PING_TIMEOUT_DELAY, PingTimeout)));
      case PingTimeout =>
        Emit(Log(InternalError(PingTimeoutError)));
        t := t.(reconnecting := true);
      case Reconnect =>
        t := t.(reconnecting := true);
      case Unknown(_) =>
        Emit(Log(InternalError(UnknownControl(msg))));
    }

    /**
     * Data read from the server socket in `mainloop`: an empty read logs an
     * error, sets `reconnecting` and abandons the rest of the batch; anything
     * else is framed into lines, which are handled, and the ping timers are
     * reset.
     */
    method HandleRead(s: LoopState, data: seq<Byte>) returns (t: LoopState, abandon: bool)
      requires Valid()
      modifies this
      ensures Valid()
      ensures t == ReadStep(s, data).state && abandon == ReadStep(s, data).abandon
      ensures trace == old(trace) + ReadStep(s, data).actions
      ensures nick == old(nick) && channels == old(channels)
      ensures AdvancedFrom(old(slots), old(clock), old(lastSend))
    {
      if data == [] {
        Emit(Log(InternalError(EmptyRead)));
        return s.(reconnecting := true), true;
      }
      ghost var lines := SplitLines(s.buffer + data).lines;
      ghost var t0 := trace;
      var rest := ExtractLines(s.buffer + data);
      Emit(Cron(Delete(PingTimeout)));
      Emit(Cron(Reschedule(PING_DELAY, Ping)));
      assert trace == t0 + LinesActions(lines) + ReadTimers;
      AppendAssoc(t0, LinesActions(lines), ReadTimers);
      t, abandon := s.(buffer := rest), false;
    }

    /** The body of the `for fd, event in poll.poll()` loop: one ready descriptor. */
    method HandleReady(s: LoopState, ready: Ready) returns (t: LoopState, abandon: bool)
      requires Valid()
      modifies this
      ensures Valid()
      ensures t == ReadyStep(s, ready).state && abandon == ReadyStep(s, ready).abandon
      ensures trace == old(trace) + ReadyStep(s, ready).actions
      ensures nick == old(nick) && channels == old(channels)
      ensures AdvancedFrom(old(slots), old(clock), old(lastSend))
    {
      match ready
      case ServerReady(data) =>
        t, abandon := HandleRead(s, data);
      case ControlReady(msg) =>
        t := HandleControl(s, msg);
        abandon := false;
    }

    /** The `for fd, event in poll.poll()` loop over one result of `poll`. */
    method ProcessBatch(s: LoopState, ready: seq<Ready>) returns (t: LoopState)
      requires Valid()
      modifies this
      ensures Valid()
      ensures t == BatchSpec(s, ready).state
      ensures trace == old(trace) + BatchSpec(s, ready).actions
      ensures nick == old(nick) && channels == old(channels)
      ensures AdvancedFrom(old(slots), old(clock), old(lastSend))
    {
      t := s;
      var j := 0;
      ghost var done: seq<Action> := [];
      while j < |ready|
        invariant 0 <= j <= |ready|
        invariant Valid()
        invariant trace == old(trace) + done
        invariant BatchSpec(s, ready).state == BatchSpec(t, ready[j..]).state
        invariant BatchSpec(s, ready).actions == done + BatchSpec(t, ready[j..]).actions
        invariant nick == old(nick) && channels == old(channels)
        invariant AdvancedFrom(old(slots), old(clock), old(lastSend))
      {
        ghost var step := ReadyStep(t, ready[j]);
        BatchUnfold(t, ready, j);
        var abandon;
        t, abandon := HandleReady(t, ready[j]);
        AppendAssoc(old(trace), done, step.actions);
        if abandon {
          return;
        }
        AppendAssoc(done, step.actions, BatchSpec(t, ready[j + 1..]).actions);
        done := done + step.actions;
        j := j + 1;
      }
    }

    /**
     * `mainloop`: handle `poll` results until a flag is set, then return
     * `reconnecting`. `None` when `poll` never returns again.
     */
    method Mainloop(polls: seq<Poll>) returns (result: Option<bool>)
      requires Valid()
      modifies this
      ensures Valid()
      ensures result == MainloopSpec(Start, polls).result
      ensures trace == old(trace) + MainloopSpec(Start, polls).actions
      ensures nick == old(nick) && channels == old(channels)
      ensures AdvancedFrom(old(slots), old(clock), old(lastSend))
    {
      var s := Start;
      var i := 0;
      ghost var done: seq<Action> := [];
      ghost var total := MainloopSpec(Start, polls);
      AppendEmpty(total.actions);
      while !s.quitting && !s.reconnecting
        invariant 0 <= i <= |polls|
        invariant Valid()
        invariant trace == old(trace) + done
        invariant total.result == MainloopSpec(s, polls[i..]).result
        invariant total.actions == done + MainloopSpec(s, polls[i..]).actions
        invariant nick == old(nick) && channels == old(channels)
        invariant AdvancedFrom(old(slots), old(clock), old(lastSend))
        decreases |polls| - i
      {
        if i == |polls| {
          assert polls[i..] == [];
          return None;
        }
        ghost var b := BatchSpec(s, polls[i].ready);
        ghost var s0 := s;
        Elapse(polls[i].blocked);
        s := ProcessBatch(s, polls[i].ready);
        MainloopStep(total, s0, polls, i, done, s, b.actions);
        AppendAssoc(old(trace), done, b.actions);
        done := done + b.actions;
        i := i + 1;
      }
      MainloopDone(total, s, polls, i, done);
      if s.reconnecting {
        result := Some(true);
      } else {
        result := Some(false);
      }
    }

    /**
     * The loop of `run` after a failed connect: `Some(true)` on a reconnect
     * message, `Some(false)` on a quit message, every other message logged;
     * `None` if neither ever comes.
     */
    method AwaitControl(msgs: seq<ControlMessage>) returns (result: Option<bool>)
      requires Valid()
      modifies this
      ensures Valid()
      ensures result == AwaitSpec(msgs).result
      ensures trace == old(trace) + AwaitSpec(msgs).actions
      ensures nick == old(nick) && channels == old(channels)
      ensures slots == old(slots) && clock == old(clock) && lastSend == old(lastSend)
    {
      var k := 0;
      ghost var done: seq<Action> := [];
      while k < |msgs|
        invariant 0 <= k <= |msgs|
        invariant Valid()
        invariant trace == old(trace) + done
        invariant AwaitSpec(msgs).result == AwaitSpec(msgs[k..]).result
        invariant AwaitSpec(msgs).actions == done + AwaitSpec(msgs[k..]).actions
        invariant nick == old(nick) && channels == old(channels)
        invariant slots == old(slots) && clock == old(clock) && lastSend == old(lastSend)
      {
        var msg := msgs[k];
        AwaitUnfold(msgs, k);
        if msg == Reconnect {
          assert done + [] == done;
          return Some(true);
        } else if msg == Quit {
          assert done + [] == done;
          return Some(false);
        }
        var logged := Log(InternalError(NotWhenDisconnected(msg)));
        Emit(logged);
        AppendAssoc(old(trace), done, [logged]);
        AppendAssoc(done, [logged], AwaitSpec(msgs[k + 1..]).actions);
        done := done + [logged];
        k := k + 1;
      }
      assert msgs[k..] == [];
      result := None;
    }

    /** A failed connect: log it, schedule a retry, wait, cancel the retry. */
    method Refusal(msgs: seq<ControlMessage>) returns (result: Option<bool>)
      requires Valid()
      modifies this
      ensures Valid()
      ensures result == AttemptSpec(config, Refused(msgs)).result
      ensures trace == old(trace) + AttemptSpec(config, Refused(msgs)).actions
      ensures nick == old(nick) && channels == old(channels)
      ensures slots == old(slots) && clock == old(clock) && lastSend == old(lastSend)
    {
      ghost var t0 := trace;
      Emit(Log(InternalError(CantConnect(config.host, config.port))));
      Emit(Cron(Reschedule(RECONNECT_DELAY, Reconnect)));
      ghost var t1 := trace;
      result := AwaitControl(msgs);
      ghost var t2 := trace;
      if result.Some? {
        Emit(Cron(Delete(Reconnect)));
      }
      RefusalTrace(config, AwaitSpec(msgs), t0, t1, t2, trace);
    }

    /** `for channel in self.server.channels: self.api.join(...)`: join every configured channel, in order. */
    method JoinChannels(api: Api)
      requires Valid() && api.server == this
      modifies this
      ensures Valid()
      ensures trace == old(trace) + JoinActions(config.channels)
      ensures channels == old(channels) + ChannelSet(config.channels) && nick == old(nick)
      ensures AdvancedFrom(old(slots), old(clock), old(lastSend))
    {
      ghost var done: seq<Action> := [];
      var k := 0;
      AppendEmpty(JoinActions(config.channels));
      assert config.channels[k..] == config.channels;
      while k < |config.channels|
        invariant 0 <= k <= |config.channels|
        invariant Valid()
        invariant trace == old(trace) + done
        invariant JoinActions(config.channels) == done + JoinActions(config.channels[k..])
        invariant channels == old(channels) + ChannelSet(config.channels[..k])
        invariant nick == old(nick)
        invariant AdvancedFrom(old(slots), old(clock), old(lastSend))
      {
        var channel := config.channels[k];
        api.Join(channel);
        JoinStep(old(trace), done, old(channels), config.channels, k, trace, channels);
        done := done + SendActions(JOIN_SP + channel);
        k := k + 1;
      }
      JoinDone(config.channels, done);
      ChannelSetAll(config.channels);
    }

    /**
     * The start of a connection: send USER, set the nick through the API,
     * run the connect hook, join the configured channels in order through
     * the API, and schedule the first ping.
     */
    method Login() returns (api: Api)
      requires Valid()
      modifies this
      ensures Valid() && fresh(api) && api.server == this
      ensures trace == old(trace) + Handshake(config)
      ensures nick == Some(config.nick) && channels == old(channels) + ChannelSet(config.channels)
      ensures AdvancedFrom(old(slots), old(clock), old(lastSend))
    {
      ghost var start := trace;
      api := new Api(this);
      SendLineRaw(UserLine(config));
      api.Nick(config.nick);
      Emit(CallHook(OnConnect));
      ghost var greeting := SendActions(UserLine(config)) + SendActions(NICK_SP + config.nick) + [CallHook(OnConnect)];
      AppendAssoc(start, SendActions(UserLine(config)), SendActions(NICK_SP + config.nick));
      AppendAssoc(start, SendActions(UserLine(config)) + SendActions(NICK_SP + config.nick), [CallHook(OnConnect)]);
      JoinChannels(api);
      Emit(Cron(Reschedule(PING_DELAY, Ping)));
      AppendAssoc(start, greeting, JoinActions(config.channels));
      AppendAssoc(start, greeting + JoinActions(config.channels), [Cron(Reschedule(PING_DELAY, Ping))]);
    }

    /**
     * After `mainloop`: on `Some(false)` run the quit hook, send QUIT and
     * close the socket; on `Some(true)` send QUIT and close it.
     */
    method Goodbye(result: Option<bool>)
      requires Valid()
      modifies this
      ensures Valid()
      ensures trace == old(trace) + Closing(config, result)
      ensures nick == old(nick) && channels == old(channels)
      ensures AdvancedFrom(old(slots), old(clock), old(lastSend))
    {
      ghost var t0 := trace;
      if result == Some(false) {
        var quit := QUIT_COLON + config.username + EXITING;
        Emit(CallHook(OnQuit));
        SendLineRaw(quit);
        Emit(Close);
        AppendAssoc(t0, [CallHook(OnQuit)], SendActions(quit));
        AppendAssoc(t0, [CallHook(OnQuit)] + SendActions(quit), [Close]);
      } else if result == Some(true) {
        SendLineRaw(QUIT_RECONNECTING);
        Emit(Close);
        AppendAssoc(t0, SendActions(QUIT_RECONNECTING), [Close]);
      } else {
        assert t0 + [] == t0;
      }
    }

    /**
     * A connection: log in, join the configured channels, run `mainloop`, and
     * say goodbye to the server as `mainloop`'s result asks.
     */
    method Session(polls: seq<Poll>) returns (result: Option<bool>)
      requires Valid()
      modifies this
      ensures Valid()
      ensures result == AttemptSpec(config, Connected(polls)).result
      ensures trace == old(trace) + AttemptSpec(config, Connected(polls)).actions
      ensures nick == Some(config.nick) && channels == old(channels) + ChannelSet(config.channels)
      ensures AdvancedFrom(old(slots), old(clock), old(lastSend))
    {
      var api := Login();
      result := Mainloop(polls);
      Goodbye(result);
      AppendAssoc(old(trace) + Handshake(config), MainloopSpec(Start, polls).actions, Closing(config, result));
      AppendAssoc(old(trace), Handshake(config), MainloopSpec(Start, polls).actions + Closing(config, result));
      AppendAssoc(Handshake(config), MainloopSpec(Start, polls).actions, Closing(config, result));
    }

    /** One pass of the `while True` loop of `run`, up to the decision to go round again or leave. */
    method Connect(attempt: Attempt) returns (result: Option<bool>)
      requires Valid()
      modifies this
      ensures Valid()
      ensures result == AttemptSpec(config, attempt).result
      ensures trace == old(trace) + AttemptSpec(config, attempt).actions
      ensures nick == (if attempt.Connected? then Some(config.nick) else old(nick))
      ensures channels == (if attempt.Connected? then old(channels) + ChannelSet(config.channels) else old(channels))
      ensures AdvancedFrom(old(slots), old(clock), old(lastSend))
    {
      match attempt
      case Refused(msgs) =>
        result := Refusal(msgs);
      case Connected(polls) =>
        result := Session(polls);
    }

    /** The end of `run`: tell the logger and cron to quit. */
    method Shutdown()
      requires Valid()
      modifies this
      ensures Valid()
      ensures trace == old(trace) + Final
      ensures nick == old(nick) && channels == old(channels)
      ensures slots == old(slots) && clock == old(clock) && lastSend == old(lastSend)
    {
      Emit(Log(InternalQuit));
      Emit(Cron(CronQuit));
    }

    /**
     * `run`: connect, and on failure wait for a reconnect or quit message;
     * once connected, run the session; go round again on a reconnect, and on
     * a quit tell the logger and cron to quit and return.
     */
    method Run(attempts: seq<Attempt>) returns (stopped: bool)
      requires Valid()
      modifies this
      ensures Valid()
      ensures var r := RunSpec(config, attempts, old(nick), old(channels));
              trace == old(trace) + r.actions && nick == r.nick && channels == r.channels && stopped == r.stopped
      ensures AdvancedFrom(old(slots), old(clock), old(lastSend))
    {
      var i := 0;
      ghost var done: seq<Action> := [];
      assert attempts[i..] == attempts;
      while i < |attempts|
        invariant 0 <= i <= |attempts|
        invariant Valid()
        invariant trace == old(trace) + done
        invariant RunSpec(config, attempts, old(nick), old(channels)) == Then(done, RunSpec(config, attempts[i..], nick, channels))
        invariant AdvancedFrom(old(slots), old(clock), old(lastSend))
        decreases |attempts| - i
      {
        ghost var e := AttemptSpec(config, attempts[i]);
        RunUnfold(config, attempts, i, nick, channels);
        var result := Connect(attempts[i]);
        AppendAssoc(old(trace), done, e.actions);
        if result.None? {
          return false;
        } else if !result.value {
          Shutdown();
          AppendAssoc(old(trace), done + e.actions, Final);
          AppendAssoc(done, e.actions, Final);
          return true;
        }
        AppendAssoc(done, e.actions, RunSpec(config, attempts[i + 1..], nick, channels).actions);
        done := done + e.actions;
        i := i + 1;
      }
      assert attempts[i..] == [];
      assert done + [] == done;
      stopped := false;
    }
  }

  /** An exception raised by an API method. */
  datatype ApiError = AttributeError(name: string)

  /** `API(serverthread_object)`: what bot code uses to act on the connection. */
  class Api {
    const server: ServerThread

    constructor (server: ServerThread)
      ensures this.server == server
    {
      this.server := server;
    }

    /** `send_raw(line)`. */
    method SendRaw(line: seq<Byte>)
      requires server.Valid()
      modifies server
      ensures server.Valid()
      ensures server.trace == old(server.trace) + SendActions(line)
      ensures server.nick == old(server.nick) && server.channels == old(server.channels)
      ensures server.lastSend == NextSlot(old(server.lastSend), old(server.clock)) && server.clock == server.lastSend
      ensures server.slots == old(server.slots) + [server.lastSend]
    {
      server.SendLineRaw(line);
    }

    /** `msg(recipient, message)`: a PRIVMSG. */
    method Msg(recipient: seq<Byte>, message: seq<Byte>)
      requires server.Valid()
      modifies server
      ensures server.Valid()
      ensures server.trace == old(server.trace) + SendActions(PRIVMSG_SP + recipient + SP_COLON + message)
      ensures server.nick == old(server.nick) && server.channels == old(server.channels)
      ensures server.lastSend == NextSlot(old(server.lastSend), old(server.clock)) && server.clock == server.lastSend
      ensures server.slots == old(server.slots) + [server.lastSend]
    {
      server.SendLineRaw(PRIVMSG_SP + recipient + SP_COLON + message);
    }

    /** `bot_response(recipient, message)`: a PRIVMSG whose text starts with a zero-width space. */
    method BotResponse(recipient: seq<Byte>, message: seq<Byte>)
      requires server.Valid()
      modifies server
      ensures server.Valid()
      ensures server.trace == old(server.trace) + SendActions(PRIVMSG_SP + recipient + SP_COLON + ZWSP + message)
      ensures server.nick == old(server.nick) && server.channels == old(server.channels)
      ensures server.lastSend == NextSlot(old(server.lastSend), old(server.clock)) && server.clock == server.lastSend
      ensures server.slots == old(server.slots) + [server.lastSend]
    {
      Msg(recipient, ZWSP + message);
      assert PRIVMSG_SP + recipient + SP_COLON + (ZWSP + message) == PRIVMSG_SP + recipient + SP_COLON + ZWSP + message;
    }

    /** `nick(n)`: send NICK and track the new nick; the channels stay as they are. */
    method Nick(n: seq<Byte>)
      requires server.Valid()
      modifies server
      ensures server.Valid()
      ensures server.trace == old(server.trace) + SendActions(NICK_SP + n)
      ensures server.nick == Some(n) && server.channels == old(server.channels)
      ensures server.lastSend == NextSlot(old(server.lastSend), old(server.clock)) && server.clock == server.lastSend
      ensures server.slots == old(server.slots) + [server.lastSend]
    {
      server.SendLineRaw(NICK_SP + n);
      server.nick := Some(n);
    }

    /** `get_nick()`. */
    method GetNick() returns (n: Option<seq<Byte>>)
      ensures n == server.nick
    {
      n := server.nick;
    }

    /** `set_nick(n)`: track a nick without telling the server. */
    method SetNick(n: Option<seq<Byte>>)
      requires server.Valid()
      modifies server
      ensures server.Valid()
      ensures server.nick == n
      ensures server.trace == old(server.trace) && server.channels == old(server.channels)
      ensures server.slots == old(server.slots) && server.clock == old(server.clock) && server.lastSend == old(server.lastSend)
    {
      server.nick := n;
    }

    /** `join(channel)`: send JOIN and track the channel; the nick stays as it is. */
    method Join(channel: seq<Byte>)
      requires server.Valid()
      modifies server
      ensures server.Valid()
      ensures server.trace == old(server.trace) + SendActions(JOIN_SP + channel)
      ensures server.channels == old(server.channels) + {channel} && server.nick == old(server.nick)
      ensures server.lastSend == NextSlot(old(server.lastSend), old(server.clock)) && server.clock == server.lastSend
      ensures server.slots == old(server.slots) + [server.lastSend]
    {
      server.SendLineRaw(JOIN_SP + channel);
      server.channels := server.channels + {channel};
    }

    /** The PART line: `b'PART %s :%s' % (channel, message)`. */
    function PartLine(channel: seq<Byte>, message: seq<Byte>): seq<Byte>
    {
      PART_SP + channel + SP_COLON + message
    }

    /**
     * `part(channel, message)` as written: the PART line is sent, then
     * `channels.removeadd(channel)` raises AttributeError (a set has no such
     * method), so the channel stays tracked.
     */
    method PartAsWritten(channel: seq<Byte>, message: seq<Byte>) returns (outcome: Outcome<ApiError>)
      requires server.Valid()
      modifies server
      ensures server.Valid()
      ensures server.trace == old(server.trace) + SendActions(PartLine(channel, message))
      ensures outcome == Fail(AttributeError("removeadd"))
      ensures server.channels == old(server.channels) && server.nick == old(server.nick)
      ensures server.lastSend == NextSlot(old(server.lastSend), old(server.clock)) && server.clock == server.lastSend
      ensures server.slots == old(server.slots) + [server.lastSend]
    {
      server.SendLineRaw(PartLine(channel, message));
      outcome := Fail(AttributeError("removeadd"));
    }

    /** `part(channel, message)` as intended: send PART and stop tracking the channel. */
    method Part(channel: seq<Byte>, message: seq<Byte>)
      requires server.Valid()
      modifies server
      ensures server.Valid()
      ensures server.trace == old(server.trace) + SendActions(PartLine(channel, message))
      ensures server.channels == old(server.channels) - {channel} && server.nick == old(server.nick)
      ensures server.lastSend == NextSlot(old(server.lastSend), old(server.clock)) && server.clock == server.lastSend
      ensures server.slots == old(server.slots) + [server.lastSend]
    {
      server.SendLineRaw(PartLine(channel, message));
      server.channels := server.channels - {channel};
    }

    /** `get_channels()`. */
    method GetChannels() returns (channels: set<seq<Byte>>)
      ensures channels == server.channels
    {
      channels := server.channels;
    }

    /** `set_channels(channels)`: replace the tracked channels without telling the server. */
    method SetChannels(channels: set<seq<Byte>>)
      requires server.Valid()
      modifies server
      ensures server.Valid()
      ensures server.channels == channels
      ensures server.trace == old(server.trace) && server.nick == old(server.nick)
      ensures server.slots == old(server.slots) && server.clock == old(server.clock) && server.lastSend == old(server.lastSend)
    {
      server.channels := channels;
    }

    /** `quit()`: ask the thread to quit, and tell the logger and cron to quit. */
    method Quit()
      requires server.Valid()
      modifies server
      ensures server.Valid()
      ensures server.trace == old(server.trace) + [Control(ControlMessage.Quit)] + Final
      ensures server.nick == old(server.nick) && server.channels == old(server.channels)
      ensures server.slots == old(server.slots) && server.clock == old(server.clock) && server.lastSend == old(server.lastSend)
    {
      server.Emit(Control(ControlMessage.Quit));
      server.Emit(Action.Log(InternalQuit));
      server.Emit(Cron(CronQuit));
    }

    /** `log(...)`: a status message for the logger. */
    method Log(text: string)
      requires server.Valid()
      modifies server
      ensures server.Valid()
      ensures server.trace == old(server.trace) + [Action.Log(Status(text))]
      ensures server.nick == old(server.nick) && server.channels == old(server.channels)
      ensures server.slots == old(server.slots) && server.clock == old(server.clock) && server.lastSend == old(server.lastSend)
    {
      server.Emit(Action.Log(Status(text)));
    }

    /** `error(message)`: an error for the logger. */
    method Error(message: string)
      requires server.Valid()
      modifies server
      ensures server.Valid()
      ensures server.trace == old(server.trace) + [Action.Log(InternalError(BotError(message)))]
      ensures server.nick == old(server.nick) && server.channels == old(server.channels)
      ensures server.slots == old(server.slots) && server.clock == old(server.clock) && server.lastSend == old(server.lastSend)
    {
      server.Emit(Action.Log(InternalError(BotError(message))));
    }
  }

  /**
   * Joining a channel and then leaving it with `part` as written leaves the
   * channel tracked, and the call fails.
   */
  method PartKeepsChannel(config: ServerConfig, channel: seq<Byte>) returns (tracked: bool, outcome: Outcome<ApiError>)
    ensures tracked && outcome.Fail?
  {
    var thread := new ServerThread(config, 0.0);
    var api := new Api(thread);
    api.Join(channel);
    outcome := api.PartAsWritten(channel, []);
    tracked := channel in thread.channels;
  }

  /** With the intended `part`, joining a channel and leaving it leaves it untracked. */
  method PartForgetsChannel(config: ServerConfig, channel: seq<Byte>) returns (tracked: bool)
    ensures !tracked
  {
    var thread := new ServerThread(config, 0.0);
    var api := new Api(thread);
    api.Join(channel);
    api.Part(channel, []);
    tracked := channel in thread.channels;
  }
}
