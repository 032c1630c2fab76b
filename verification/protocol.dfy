/**
 * The protocol logic of the server thread as pure functions: what one line
 * sent or received produces, how a control message or a socket read changes
 * the `quitting`/`reconnecting` flags and the input buffer, what one return of
 * `poll` and the whole main loop produce, the loop that waits for a control
 * message while disconnected, and the connect loop of `run`. The class in the
 * Engine module performs these steps one at a time and is proved to produce
 * exactly the actions these functions describe.
 */
module Protocol {
  import opened Wrappers
  import opened Bytes
  import opened Transmit
  import opened Framing
  import opened Messages

  const SPACE: seq<Byte> := [SP]

  /** Everything the engine sends on its own, as byte strings. */
  const PING_FOO: seq<Byte> := PING_SP + Ascii(":foo")
  const NICK_SP: seq<Byte> := Ascii("NICK ")
  const JOIN_SP: seq<Byte> := Ascii("JOIN ")
  const PART_SP: seq<Byte> := Ascii("PART ")
  const PRIVMSG_SP: seq<Byte> := Ascii("PRIVMSG ")
  const SP_COLON: seq<Byte> := Ascii(" :")
  const USER_SP: seq<Byte> := Ascii("USER ")
  const USER_MODES: seq<Byte> := Ascii(" a a :")
  const QUIT_COLON: seq<Byte> := Ascii("QUIT :")
  const EXITING: seq<Byte> := Ascii(" exiting normally")
  const QUIT_RECONNECTING: seq<Byte> := Ascii("QUIT :Reconnecting")

  /** Seconds before the next keep-alive PING, the ping timeout, and the reconnect retry. */
  const PING_DELAY: nat := 180
  const PING_TIMEOUT_DELAY: nat := 120
  const RECONNECT_DELAY: nat := 60

  /** The errors among some actions, in order. */
  function Errors(actions: seq<Action>): (r: seq<ErrorMessage>)
    ensures |r| <= |actions|
  {
    if actions == [] then []
    else
      var a := actions[0];
      (if a.Log? && a.event.InternalError? then [a.event.error] else []) + Errors(actions[1..])
  }

  lemma {:induction false} ErrorsAppend(a: seq<Action>, b: seq<Action>)
    ensures Errors(a + b) == Errors(a) + Errors(b)
  {
    if a != [] {
      assert (a + b)[1..] == a[1..] + b;
      ErrorsAppend(a[1..], b);
    } else {
      assert a + b == b;
    }
  }

  // ---------------------------------------------------------------- sending

  /**
   * The outputs of `send_line_raw(line)`: the write of the sanitised line and
   * CRLF and, unless the sanitised line is a keep-alive, its `sent` log event.
   */
  function SendActions(line: seq<Byte>): seq<Action>
  {
    var s := Sanitize(line);
    [Write(Wire(line))] + (if IsKeepAlive(s) then [] else [Log(Sent(s))])
  }

  /**
   * `send_line_raw` writes first, then at most logs the sanitised line; it
   * logs exactly when that line is not a keep-alive, and it reports no error.
   */
  lemma SendActionsShape(line: seq<Byte>)
    ensures var r := SendActions(line);
            && 1 <= |r| <= 2 && r[0] == Write(Wire(line))
            && (forall i | 1 <= i < |r| :: r[i] == Log(Sent(Sanitize(line))))
            && (Log(Sent(Sanitize(line))) in r <==> !IsKeepAlive(Sanitize(line)))
            && Errors(r) == []
  {
    var r := SendActions(line);
    if |r| == 2 {
      assert r[1..][1..] == [];
    } else {
      assert r[1..] == [];
    }
  }

  // ---------------------------------------------------------- line handling

  /** What `handle_line` makes of a received line. */
  datatype LineKind =
    | PingRequest(arguments: seq<Byte>)   // answered with "PONG " and the arguments
    | PongReply                           // ":server PONG ...": ignored
    | Forwarded                           // logged and handed to the bot

  /**
   * The classification of `handle_line`: the first space-separated token,
   * uppercased, is "PING"; or there are two tokens, the first starting with
   * ':' and the second, uppercased, being "PONG"; or neither.
   */
  function Classify(line: seq<Byte>): LineKind
  {
    var arguments := Partition(line, SPACE).after;
    var split := Split(line, SPACE);
    if Upper(split[0]) == PING then PingRequest(arguments)
    else if |split| >= 2 && |split[0]| >= 1 && split[0][0] == COLON && Upper(split[1]) == PONG then PongReply
    else Forwarded
  }

  /** The outputs of `handle_line(line)`. */
  function LineActions(line: seq<Byte>): seq<Action>
  {
    match Classify(line)
    case PingRequest(arguments) => SendActions(PONG_SP + arguments)
    case PongReply => []
    case Forwarded => [Log(Received(line)), Dispatch(line)]
  }

  /**
   * The classification in terms of two `partition`s: a PING request is a line
   * whose text before the first space, uppercased, is "PING", and its
   * arguments are the text after that space; a PONG reply has a first token
   * starting with ':' followed by a token that, uppercased, is "PONG".
   */
  lemma {:induction false} ClassifyByTokens(line: seq<Byte>)
    ensures var p := Partition(line, SPACE);
            Classify(line).PingRequest? <==> Upper(p.before) == PING
    ensures var p := Partition(line, SPACE);
            Classify(line).PingRequest? ==> Classify(line).arguments == p.after
    ensures var p := Partition(line, SPACE);
            Classify(line).PongReply? <==>
              Upper(p.before) != PING && p.sep != [] && |p.before| >= 1 && p.before[0] == COLON
              && Upper(Partition(p.after, SPACE).before) == PONG
  {
    SplitFirstPieces(line, SPACE);
  }

  /**
   * The effects of each kind of line: a PING request only writes the PONG
   * reply (a keep-alive, so not logged); a PONG reply does nothing; any other
   * line gives exactly one `received` log event and one dispatch, and nothing
   * else.
   */
  lemma {:induction false} LineEffects(line: seq<Byte>)
    ensures Classify(line).PingRequest? ==>
              LineActions(line) == [Write(Wire(PONG_SP + Classify(line).arguments))]
    ensures Classify(line).PongReply? ==> LineActions(line) == []
    ensures Log(Received(line)) in LineActions(line) <==> Classify(line).Forwarded?
    ensures Dispatch(line) in LineActions(line) <==> Classify(line).Forwarded?
    ensures Classify(line).Forwarded? ==> |LineActions(line)| == 2
    ensures Errors(LineActions(line)) == []
  {
    match Classify(line)
    case PingRequest(arguments) =>
      KeepAliveSurvivesSanitize(PONG_SP, arguments);
    case PongReply =>
    case Forwarded =>
  }

  lemma UpperPing()
    ensures Upper(PING) == PING
    ensures SP !in PING
  {
    assert PING == [80, 73, 78, 71];
  }

  /** A line "PING " followed by anything is answered with "PONG " followed by the same text. */
  lemma {:induction false} PingAnswered(arguments: seq<Byte>)
    ensures Classify(PING_SP + arguments) == PingRequest(arguments)
    ensures LineActions(PING_SP + arguments) == [Write(Wire(PONG_SP + arguments))]
  {
    UpperPing();
    PartitionAtByte(PING, SP, arguments);
    ClassifyByTokens(PING_SP + arguments);
    LineEffects(PING_SP + arguments);
  }

  /** `PING :abc` is answered by writing exactly `PONG :abc` and CRLF, with no log and no dispatch. */
  lemma PingAbc()
    ensures LineActions(Ascii("PING :abc")) == [Write(Ascii("PONG :abc") + CRLF)]
  {
    var abc := Ascii(":abc");
    assert Ascii("PING :abc") == PING_SP + abc by {
      assert abc == [58, 97, 98, 99];
      assert PING == [80, 73, 78, 71];
    }
    PongAbc();
    PingAnswered(abc);
  }

  lemma PongAbc()
    ensures Wire(PONG_SP + Ascii(":abc")) == Ascii("PONG :abc") + CRLF
  {
    var pong := PONG_SP + Ascii(":abc");
    assert PONG == [80, 79, 78, 71];
    assert pong == [80, 79, 78, 71, 32, 58, 97, 98, 99];
    assert pong == Ascii("PONG :abc");
    assert CR !in pong && LF !in pong;
    assert Sanitize(pong) == pong by {
      SanitizeFixpoint(pong);
    }
  }

  /** The outputs of handling the given lines one after another. */
  function LinesActions(lines: seq<seq<Byte>>): seq<Action>
  {
    if lines == [] then [] else LineActions(lines[0]) + LinesActions(lines[1..])
  }

  /** Handling the lines of a buffer is handling its first line, then the lines of the rest. */
  lemma {:induction false} LinesActionsStep(buffer: seq<Byte>, line: seq<Byte>, after: seq<Byte>)
    requires Partition(buffer, CRLF) == Parts(line, CRLF, after)
    ensures LinesActions(SplitLines(buffer).lines) == LineActions(line) + LinesActions(SplitLines(after).lines)
    ensures SplitLines(buffer).rest == SplitLines(after).rest
  {
    SplitLinesStep(buffer, line, after);
    var lines := SplitLines(after).lines;
    assert ([line] + lines)[1..] == lines;
  }

  lemma {:induction false} LinesActionsErrors(lines: seq<seq<Byte>>)
    ensures Errors(LinesActions(lines)) == []
  {
    if lines != [] {
      LineEffects(lines[0]);
      LinesActionsErrors(lines[1..]);
      ErrorsAppend(LineActions(lines[0]), LinesActions(lines[1..]));
    }
  }

  // ------------------------------------------------------ control messages

  /**
   * The line sent for a console `send_line` message: the command word before
   * the first space uppercased, the space and the rest as they are.
   */
  function UpperVerb(text: seq<Byte>): (r: seq<Byte>)
    ensures |r| == |text|
  {
    var p := Partition(text, SPACE);
    Upper(p.before) + p.sep + p.after
  }

  /**
   * Only the verb changes: every byte before the first space is uppercased,
   * and from the first space on (if there is one) every byte is kept.
   */
  lemma {:induction false} UpperVerbOnlyVerb(text: seq<Byte>)
    ensures var r, k := UpperVerb(text), |Partition(text, SPACE).before|;
            (forall i | 0 <= i < k :: text[i] != SP && r[i] == UpperByte(text[i]))
            && (k < |text| ==> text[k] == SP)
            && (forall i | k <= i < |text| :: r[i] == text[i])
  {
    var p := Partition(text, SPACE);
    var rest := p.sep + p.after;
    assert UpperVerb(text) == Upper(p.before) + rest;
    assert text == p.before + rest;
    PartitionBefore(text, SPACE);
    LacksByte(p.before, SP);
    UpperFront(p.before, rest);
    assert |p.before| < |text| ==> text[|p.before|] == SP by {
      if |p.before| < |text| {
        assert rest[0] == SP;
      }
    }
  }

  /** A byte string without the one-byte separator `[b]` does not contain `b`. */
  lemma LacksByte(s: seq<Byte>, b: Byte)
    requires Lacks(s, [b])
    ensures forall i | 0 <= i < |s| :: s[i] != b
  {
    forall i | 0 <= i < |s|
      ensures s[i] != b
    {
      assert !Occurs(s, [b], i);
      assert s[i..i + 1] == [s[i]];
    }
  }

  /** Uppercasing the front of a byte string changes that front byte by byte and keeps the rest. */
  lemma UpperFront(front: seq<Byte>, rest: seq<Byte>)
    ensures forall i | 0 <= i < |front| :: (Upper(front) + rest)[i] == UpperByte(front[i])
    ensures forall i | |front| <= i < |front| + |rest| :: (Upper(front) + rest)[i] == (front + rest)[i]
  {
  }

  /** The state of `mainloop`: its two flags and the unfinished input line. */
  datatype LoopState = LoopState(quitting: bool, reconnecting: bool, buffer: seq<Byte>)

  const Start: LoopState := LoopState(false, false, [])

  /**
   * The result of handling one ready descriptor: the new state, the outputs,
   * and whether the rest of this `poll` result is abandoned (`break`).
   */
  datatype StepResult = StepResult(state: LoopState, actions: seq<Action>, abandon: bool)

  /** A control message that makes `mainloop` reconnect. */
  predicate ReconnectsLoop(msg: ControlMessage)
  {
    msg.PingTimeout? || msg.Reconnect?
  }

  /** Handling one control message in `mainloop`. */
  function ControlStep(s: LoopState, msg: ControlMessage): (r: StepResult)
    ensures r.state.quitting == (s.quitting || msg.Quit?)
    ensures r.state.reconnecting == (s.reconnecting || ReconnectsLoop(msg))
    ensures r.state.buffer == s.buffer && !r.abandon
  {
    match msg
    case Quit => StepResult(s.(quitting := true), [], false)
    case SendLine(text) => StepResult(s, SendActions(UpperVerb(text)), false)
    case Ping =>
      StepResult(s, SendActions(PING_FOO) + [Cron(Reschedule(PING_TIMEOUT_DELAY, PingTimeout))], false)
    case PingTimeout => StepResult(s.(reconnecting := true), [Log(InternalError(PingTimeoutError))], false)
    case Reconnect => StepResult(s.(reconnecting := true), [], false)
    case Unknown(_) => StepResult(s, [Log(InternalError(UnknownControl(msg)))], false)
  }

  /**
   * A ping timeout and an unknown control message each log exactly one error;
   * every other control message logs none.
   */
  lemma {:induction false} ControlErrors(s: LoopState, msg: ControlMessage)
    ensures |Errors(ControlStep(s, msg).actions)| == (if msg.PingTimeout? || msg.Unknown? then 1 else 0)
  {
    match msg
    case SendLine(text) =>
      SendActionsShape(UpperVerb(text));
    case Ping =>
      SendActionsShape(PING_FOO);
      ErrorsAppend(SendActions(PING_FOO), [Cron(Reschedule(PING_TIMEOUT_DELAY, PingTimeout))]);
    case _ =>
  }

  /** The timer requests after every non-empty read: cancel the ping timeout, ping in 3 minutes. */
  const ReadTimers: seq<Action> :=
    [Cron(Delete(PingTimeout)), Cron(Reschedule(PING_DELAY, Ping))]

  /** Handling data read from the server socket in `mainloop`. */
  function ReadStep(s: LoopState, data: seq<Byte>): (r: StepResult)
    ensures r.abandon <==> data == []
    ensures r.state.quitting == s.quitting
    ensures r.state.reconnecting == (s.reconnecting || data == [])
    ensures |Errors(r.actions)| == (if data == [] then 1 else 0)
  {
    if data == [] then
      StepResult(s.(reconnecting := true), [Log(InternalError(EmptyRead))], true)
    else
      var f := SplitLines(s.buffer + data);
      LinesActionsErrors(f.lines);
      ErrorsAppend(LinesActions(f.lines), ReadTimers);
      StepResult(s.(buffer := f.rest), LinesActions(f.lines) + ReadTimers, false)
  }

  /**
   * A read keeps the buffer free of CRLF, and the lines it handles, each with
   * its CRLF, followed by the new buffer are the old buffer followed by the
   * data read.
   */
  lemma {:induction false} ReadStepFraming(s: LoopState, data: seq<Byte>)
    requires data != []
    ensures Lacks(ReadStep(s, data).state.buffer, CRLF)
    ensures var f := SplitLines(s.buffer + data);
            ReadStep(s, data).actions == LinesActions(f.lines) + ReadTimers
            && Join(f.lines) + ReadStep(s, data).state.buffer == s.buffer + data
  {
    SplitLinesClean(s.buffer + data);
    SplitLinesJoin(s.buffer + data);
  }

  /** Handling one ready descriptor. */
  function ReadyStep(s: LoopState, ready: Ready): StepResult
  {
    match ready
    case ServerReady(data) => ReadStep(s, data)
    case ControlReady(msg) => ControlStep(s, msg)
  }

  /** A ready descriptor that sets `quitting`. */
  predicate QuitCause(r: Ready)
  {
    r == ControlReady(Quit)
  }

  /** A ready descriptor that sets `reconnecting`: an empty read, a ping timeout, a reconnect request. */
  predicate ReconnectCause(r: Ready)
  {
    r == ServerReady([]) || (r.ControlReady? && ReconnectsLoop(r.msg))
  }

  /** The state and outputs after handling some descriptors. */
  datatype Steps = Steps(state: LoopState, actions: seq<Action>)

  /** The `for fd, event in poll.poll()` loop over one result of `poll`. */
  function BatchSpec(s: LoopState, ready: seq<Ready>): Steps
    decreases |ready|
  {
    if ready == [] then Steps(s, [])
    else
      var r := ReadyStep(s, ready[0]);
      if r.abandon then Steps(r.state, r.actions)
      else
        var rest := BatchSpec(r.state, ready[1..]);
        Steps(rest.state, r.actions + rest.actions)
  }

  /** Some descriptor of the batch sets a flag. */
  predicate BatchStops(ready: seq<Ready>)
  {
    exists j | 0 <= j < |ready| :: QuitCause(ready[j]) || ReconnectCause(ready[j])
  }

  /**
   * The flags after a batch: `quitting` is set only if it was or the batch
   * holds a quit message, `reconnecting` only if it was or the batch holds an
   * empty read, a ping timeout or a reconnect request; and a batch that holds
   * any of these leaves one of the flags set.
   */
  lemma {:induction false} BatchFlags(s: LoopState, ready: seq<Ready>)
    ensures var t := BatchSpec(s, ready).state;
            t.quitting ==> s.quitting || exists j | 0 <= j < |ready| :: QuitCause(ready[j])
    ensures var t := BatchSpec(s, ready).state;
            t.reconnecting ==> s.reconnecting || exists j | 0 <= j < |ready| :: ReconnectCause(ready[j])
    ensures var t := BatchSpec(s, ready).state;
            (s.quitting ==> t.quitting) && (s.reconnecting ==> t.reconnecting)
    ensures var t := BatchSpec(s, ready).state;
            BatchStops(ready) ==> t.quitting || t.reconnecting
    decreases |ready|
  {
    if ready != [] {
      var r := ReadyStep(s, ready[0]);
      if !r.abandon {
        BatchFlags(r.state, ready[1..]);
        forall j | 0 <= j < |ready| - 1
          ensures ready[1..][j] == ready[j + 1]
        {
        }
        if !BatchStops(ready[1..]) {
          forall j | 1 <= j < |ready|
            ensures !QuitCause(ready[j]) && !ReconnectCause(ready[j])
          {
            assert ready[j] == ready[1..][j - 1];
          }
        }
      }
    }
  }

  /** What `mainloop` ends with: `Some(reconnecting)` once a flag is set, `None` if `poll` never returns again. */
  datatype LoopRun = LoopRun(result: Option<bool>, actions: seq<Action>)

  /** `while not quitting and not reconnecting:` one `poll` result after another. */
  function MainloopSpec(s: LoopState, polls: seq<Poll>): LoopRun
    decreases |polls|
  {
    if s.quitting || s.reconnecting then LoopRun(Some(s.reconnecting), [])
    else if polls == [] then LoopRun(None, [])
    else
      var b := BatchSpec(s, polls[0].ready);
      var rest := MainloopSpec(b.state, polls[1..]);
      LoopRun(rest.result, b.actions + rest.actions)
  }

  /** Some ready descriptor of some `poll` result sets a flag. */
  predicate AnyStops(polls: seq<Poll>)
  {
    exists i | 0 <= i < |polls| :: BatchStops(polls[i].ready)
  }

  /**
   * `mainloop` returns exactly when some `poll` result holds a quit message,
   * an empty read, a ping timeout or a reconnect request; it returns true only
   * after one of the last three, and false only after a quit message.
   */
  lemma {:induction false} MainloopStops(s: LoopState, polls: seq<Poll>)
    requires !s.quitting && !s.reconnecting
    ensures MainloopSpec(s, polls).result.Some? <==> AnyStops(polls)
    ensures MainloopSpec(s, polls).result == Some(true) ==>
              exists i, j | 0 <= i < |polls| && 0 <= j < |polls[i].ready| :: ReconnectCause(polls[i].ready[j])
    ensures MainloopSpec(s, polls).result == Some(false) ==>
              exists i, j | 0 <= i < |polls| && 0 <= j < |polls[i].ready| :: QuitCause(polls[i].ready[j])
    decreases |polls|
  {
    if polls != [] {
      var b := BatchSpec(s, polls[0].ready);
      BatchFlags(s, polls[0].ready);
      if !b.state.quitting && !b.state.reconnecting {
        MainloopStops(b.state, polls[1..]);
        assert forall i | 0 <= i < |polls| - 1 :: polls[1..][i] == polls[i + 1];
        assert !BatchStops(polls[0].ready);
        if AnyStops(polls) {
          var i :| 0 <= i < |polls| && BatchStops(polls[i].ready);
          assert i > 0;
          assert BatchStops(polls[1..][i - 1].ready);
        }
        if MainloopSpec(s, polls).result == Some(true) {
          var i, j :| 0 <= i < |polls[1..]| && 0 <= j < |polls[1..][i].ready| && ReconnectCause(polls[1..][i].ready[j]);
          assert ReconnectCause(polls[i + 1].ready[j]);
        }
        if MainloopSpec(s, polls).result == Some(false) {
          var i, j :| 0 <= i < |polls[1..]| && 0 <= j < |polls[1..][i].ready| && QuitCause(polls[1..][i].ready[j]);
          assert QuitCause(polls[i + 1].ready[j]);
        }
      } else {
        assert BatchStops(polls[0].ready) by {
          if !BatchStops(polls[0].ready) {
            BatchQuiet(s, polls[0].ready);
          }
        }
      }
    }
  }

  /** A batch with nothing that sets a flag leaves both flags as they were. */
  lemma {:induction false} BatchQuiet(s: LoopState, ready: seq<Ready>)
    requires !BatchStops(ready)
    ensures BatchSpec(s, ready).state.quitting == s.quitting
    ensures BatchSpec(s, ready).state.reconnecting == s.reconnecting
    decreases |ready|
  {
    if ready != [] {
      assert !QuitCause(ready[0]) && !ReconnectCause(ready[0]);
      var r := ReadyStep(s, ready[0]);
      assert !BatchStops(ready[1..]) by {
        forall j | 0 <= j < |ready| - 1
          ensures !QuitCause(ready[1..][j]) && !ReconnectCause(ready[1..][j])
        {
          assert ready[1..][j] == ready[j + 1];
        }
      }
      BatchQuiet(r.state, ready[1..]);
    }
  }

  /**
   * A quit message followed by an empty read in the same `poll` result makes
   * `mainloop` return true (reconnect), not false: the rest of the batch is
   * still handled after `quitting` is set.
   */
  lemma QuitThenEmptyRead(blocked: Duration, later: seq<Poll>)
    ensures MainloopSpec(Start, [Poll(blocked, [ControlReady(Quit), ServerReady([])])] + later).result == Some(true)
  {
    var polls := [Poll(blocked, [ControlReady(Quit), ServerReady([])])] + later;
    var ready := polls[0].ready;
    assert ready[1..] == [ServerReady([])];
    var b := BatchSpec(Start, ready);
    assert b.state.quitting && b.state.reconnecting;
  }

  // ----------------------------------------------------- while disconnected

  /** The log event for a control message that is refused while disconnected. */
  function Unsupported(msgs: seq<ControlMessage>): (r: seq<Action>)
  {
    seq(|msgs|, k requires 0 <= k < |msgs| => Log(InternalError(NotWhenDisconnected(msgs[k]))))
  }

  /**
   * The loop of `run` after a failed connect: wait for control messages until
   * a reconnect (`Some(true)`, retry) or a quit (`Some(false)`, stop); log
   * anything else. `None` if no such message ever comes.
   */
  function AwaitSpec(msgs: seq<ControlMessage>): LoopRun
  {
    if msgs == [] then LoopRun(None, [])
    else match msgs[0]
      case Reconnect => LoopRun(Some(true), [])
      case Quit => LoopRun(Some(false), [])
      case _ =>
        var rest := AwaitSpec(msgs[1..]);
        LoopRun(rest.result, [Log(InternalError(NotWhenDisconnected(msgs[0])))] + rest.actions)
  }

  /** A message that ends the disconnected wait. */
  predicate EndsWait(msg: ControlMessage)
  {
    msg.Reconnect? || msg.Quit?
  }

  /**
   * While disconnected, the first reconnect or quit message decides: retry on
   * reconnect, stop on quit; every message before it is logged as unsupported
   * and nothing else happens.
   */
  lemma {:induction false} AwaitFirst(msgs: seq<ControlMessage>, i: nat)
    requires i < |msgs| && EndsWait(msgs[i])
    requires forall k | 0 <= k < i :: !EndsWait(msgs[k])
    ensures AwaitSpec(msgs) == LoopRun(Some(msgs[i].Reconnect?), Unsupported(msgs[..i]))
  {
    if i > 0 {
      assert !EndsWait(msgs[0]);
      AwaitFirst(msgs[1..], i - 1);
      assert msgs[1..][..i - 1] == msgs[1..i];
      assert Unsupported(msgs[..i]) == [Log(InternalError(NotWhenDisconnected(msgs[0])))] + Unsupported(msgs[1..i]);
    }
  }

  /** Without a reconnect or quit message the wait never ends, and every message is logged. */
  lemma {:induction false} AwaitNone(msgs: seq<ControlMessage>)
    requires forall k | 0 <= k < |msgs| :: !EndsWait(msgs[k])
    ensures AwaitSpec(msgs) == LoopRun(None, Unsupported(msgs))
  {
    if msgs != [] {
      assert !EndsWait(msgs[0]);
      AwaitNone(msgs[1..]);
      assert Unsupported(msgs) == [Log(InternalError(NotWhenDisconnected(msgs[0])))] + Unsupported(msgs[1..]);
    }
  }

  // ---------------------------------------------------------------- run

  /** The channels named in the configuration. */
  function ChannelSet(channels: seq<seq<Byte>>): set<seq<Byte>>
  {
    set c | c in channels
  }

  /** `b'USER %s a a :%s' % (username, realname)`. */
  function UserLine(cfg: ServerConfig): seq<Byte>
  {
    USER_SP + cfg.username + USER_MODES + cfg.realname
  }

  /** The JOIN lines sent for the configured channels, in order. */
  function JoinActions(channels: seq<seq<Byte>>): seq<Action>
  {
    if channels == [] then [] else SendActions(JOIN_SP + channels[0]) + JoinActions(channels[1..])
  }

  /** What `run` does right after connecting, before `mainloop`. */
  function Handshake(cfg: ServerConfig): seq<Action>
  {
    SendActions(UserLine(cfg)) + SendActions(NICK_SP + cfg.nick) + [CallHook(OnConnect)]
    + JoinActions(cfg.channels) + [Cron(Reschedule(PING_DELAY, Ping))]
  }

  /** After `mainloop` returned false: the quit hook, the QUIT line, closing the socket. */
  function QuitEnd(cfg: ServerConfig): seq<Action>
  {
    [CallHook(OnQuit)] + SendActions(QUIT_COLON + cfg.username + EXITING) + [Close]
  }

  /** After `mainloop` returned true. */
  function ReconnectEnd(): seq<Action>
  {
    SendActions(QUIT_RECONNECTING) + [Close]
  }

  /** What follows `mainloop`, by its result. */
  function Closing(cfg: ServerConfig, result: Option<bool>): seq<Action>
  {
    match result
    case None => []
    case Some(reconnecting) => if reconnecting then ReconnectEnd() else QuitEnd(cfg)
  }

  /** After a failed connect, before waiting: the error log and the retry timer. */
  function RefusedStart(cfg: ServerConfig): seq<Action>
  {
    [Log(InternalError(CantConnect(cfg.host, cfg.port))), Cron(Reschedule(RECONNECT_DELAY, Reconnect))]
  }

  /** What `run` does when it leaves its loop: tell the logger and cron to quit. */
  const Final: seq<Action> := [Log(InternalQuit), Cron(CronQuit)]

  /** The outcome of the connect loop: outputs, tracked nick and channels, and whether `run` returned. */
  datatype RunEnd = RunEnd(actions: seq<Action>, nick: Option<seq<Byte>>, channels: set<seq<Byte>>, stopped: bool)

  function Then(done: seq<Action>, r: RunEnd): RunEnd
  {
    r.(actions := done + r.actions)
  }

  /**
   * One pass of the `while True` loop of `run`: its outputs, what the pass
   * ends with (`Some(true)`: go round again, `Some(false)`: leave the loop,
   * `None`: it never ends), and whether it got a connection.
   */
  datatype AttemptEnd = AttemptEnd(actions: seq<Action>, result: Option<bool>, connected: bool)

  function AttemptSpec(cfg: ServerConfig, attempt: Attempt): AttemptEnd
  {
    match attempt
    case Refused(msgs) =>
      var w := AwaitSpec(msgs);
      var cancel := if w.result.Some? then [Cron(Delete(Reconnect))] else [];
      AttemptEnd(RefusedStart(cfg) + w.actions + cancel, w.result, false)
    case Connected(polls) =>
      var m := MainloopSpec(Start, polls);
      AttemptEnd(Handshake(cfg) + m.actions + Closing(cfg, m.result), m.result, true)
  }

  /** Every attempt's pass, in order. */
  function Passes(cfg: ServerConfig, attempts: seq<Attempt>): seq<AttemptEnd>
    decreases |attempts|
  {
    if attempts == [] then [] else [AttemptSpec(cfg, attempts[0])] + Passes(cfg, attempts[1..])
  }

  /**
   * The connect loop driven by given passes: a connection sets the tracked
   * nick and adds the configured channels; the loop goes on while a pass asks
   * to go round again.
   */
  function RunFrom(cfg: ServerConfig, passes: seq<AttemptEnd>, nick: Option<seq<Byte>>, channels: set<seq<Byte>>): RunEnd
    decreases |passes|
  {
    if passes == [] then RunEnd([], nick, channels, false)
    else
      var e := passes[0];
      var nick' := if e.connected then Some(cfg.nick) else nick;
      var channels' := if e.connected then channels + ChannelSet(cfg.channels) else channels;
      match e.result
      case None => RunEnd(e.actions, nick', channels', false)
      case Some(again) =>
        if again then Then(e.actions, RunFrom(cfg, passes[1..], nick', channels'))
        else RunEnd(e.actions + Final, nick', channels', true)
  }

  /** The connect loop of `run`, one connection attempt after another. */
  function RunSpec(cfg: ServerConfig, attempts: seq<Attempt>, nick: Option<seq<Byte>>, channels: set<seq<Byte>>): RunEnd
  {
    RunFrom(cfg, Passes(cfg, attempts), nick, channels)
  }

  /** Proof helper: the last two elements of a concatenation come from its second part when that has two. */
  lemma LastTwo<T>(a: seq<T>, b: seq<T>)
    requires |b| >= 2
    ensures (a + b)[|a + b| - 2..] == b[|b| - 2..]
  {
    assert (a + b)[|a + b| - 2..] == [b[|b| - 2], b[|b| - 1]];
  }

  lemma {:induction false} RunFromEndsWithFinal(cfg: ServerConfig, passes: seq<AttemptEnd>, nick: Option<seq<Byte>>, channels: set<seq<Byte>>)
    ensures var r := RunFrom(cfg, passes, nick, channels);
            r.stopped ==> |r.actions| >= 2 && r.actions[|r.actions| - 2..] == Final
    decreases |passes|
  {
    if passes != [] {
      var e := passes[0];
      var nick' := if e.connected then Some(cfg.nick) else nick;
      var channels' := if e.connected then channels + ChannelSet(cfg.channels) else channels;
      if e.result == Some(true) {
        RunFromEndsWithFinal(cfg, passes[1..], nick', channels');
        var next := RunFrom(cfg, passes[1..], nick', channels');
        if next.stopped {
          LastTwo(e.actions, next.actions);
        }
      } else if e.result == Some(false) {
        LastTwo(e.actions, Final);
      }
    }
  }

  /** When `run` returns, its last outputs tell the logger and cron to quit. */
  lemma {:induction false} RunEndsWithFinal(cfg: ServerConfig, attempts: seq<Attempt>, nick: Option<seq<Byte>>, channels: set<seq<Byte>>)
    ensures var r := RunSpec(cfg, attempts, nick, channels);
            r.stopped ==> |r.actions| >= 2 && r.actions[|r.actions| - 2..] == Final
  {
    RunFromEndsWithFinal(cfg, Passes(cfg, attempts), nick, channels);
  }

  lemma {:induction false} RunFromTracking(cfg: ServerConfig, passes: seq<AttemptEnd>, nick: Option<seq<Byte>>, channels: set<seq<Byte>>)
    ensures channels <= RunFrom(cfg, passes, nick, channels).channels
    ensures var r := RunFrom(cfg, passes, nick, channels);
            r.nick == nick || r.nick == Some(cfg.nick)
    decreases |passes|
  {
    if passes != [] {
      var e := passes[0];
      var nick' := if e.connected then Some(cfg.nick) else nick;
      var channels' := if e.connected then channels + ChannelSet(cfg.channels) else channels;
      RunFromTracking(cfg, passes[1..], nick', channels');
    }
  }

  /**
   * The tracked channels only ever grow, and the tracked nick is either what
   * it was or, after a connection, the configured one.
   */
  lemma {:induction false} RunTracking(cfg: ServerConfig, attempts: seq<Attempt>, nick: Option<seq<Byte>>, channels: set<seq<Byte>>)
    ensures channels <= RunSpec(cfg, attempts, nick, channels).channels
    ensures var r := RunSpec(cfg, attempts, nick, channels);
            r.nick == nick || r.nick == Some(cfg.nick)
  {
    RunFromTracking(cfg, Passes(cfg, attempts), nick, channels);
  }

  /**
   * A refused connection followed by a reconnect message (after any number of
   * other messages) retries: its outputs are the error log, the retry timer,
   * a log line per refused message and the cancelled retry timer, and then
   * the next attempt runs as if from the start.
   */
  lemma {:induction false} RefusedThenRetry(cfg: ServerConfig, msgs: seq<ControlMessage>, i: nat, later: seq<Attempt>,
                                            nick: Option<seq<Byte>>, channels: set<seq<Byte>>)
    requires i < |msgs| && msgs[i] == Reconnect
    requires forall k | 0 <= k < i :: !EndsWait(msgs[k])
    ensures RunSpec(cfg, [Refused(msgs)] + later, nick, channels)
         == Then(RefusedStart(cfg) + Unsupported(msgs[..i]) + [Cron(Delete(Reconnect))], RunSpec(cfg, later, nick, channels))
  {
    AwaitFirst(msgs, i);
    var attempts := [Refused(msgs)] + later;
    assert attempts[0] == Refused(msgs) && attempts[1..] == later;
    var e := AttemptSpec(cfg, Refused(msgs));
    assert e == AttemptEnd(RefusedStart(cfg) + Unsupported(msgs[..i]) + [Cron(Delete(Reconnect))], Some(true), false);
    var passes := Passes(cfg, attempts);
    assert passes[0] == e && passes[1..] == Passes(cfg, later);
  }

  /** A refused connection followed by a quit message stops `run`, whatever would come next. */
  lemma {:induction false} RefusedThenQuit(cfg: ServerConfig, msgs: seq<ControlMessage>, i: nat, later: seq<Attempt>,
                                           nick: Option<seq<Byte>>, channels: set<seq<Byte>>)
    requires i < |msgs| && msgs[i] == Quit
    requires forall k | 0 <= k < i :: !EndsWait(msgs[k])
    ensures RunSpec(cfg, [Refused(msgs)] + later, nick, channels)
         == RunEnd(RefusedStart(cfg) + Unsupported(msgs[..i]) + [Cron(Delete(Reconnect))] + Final, nick, channels, true)
  {
    AwaitFirst(msgs, i);
    var attempts := [Refused(msgs)] + later;
    assert attempts[0] == Refused(msgs);
    var e := AttemptSpec(cfg, Refused(msgs));
    assert e == AttemptEnd(RefusedStart(cfg) + Unsupported(msgs[..i]) + [Cron(Delete(Reconnect))], Some(false), false);
    assert Passes(cfg, attempts)[0] == e;
  }
}
