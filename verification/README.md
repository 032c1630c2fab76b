# IRC server thread — a Dafny model

This project models the connection engine of a small IRC bot (`ircbot.py`):
the `ServerThread` that connects to one IRC server, sends lines through a
rate-limited transmit path, frames the bytes it receives into lines, answers
keep-alive PINGs, hands every other line to the bot, reacts to control
messages (quit, send a raw line, ping, ping timeout, reconnect), and
reconnects or shuts down; and the `API` object through which bot code sends
lines and tracks the bot's nick and joined channels.

Everything the thread does that another party can observe is one `Action`
in an ordered `trace`:
- a write to the server socket;
- a message on the logging channel;
- a call into the bot's line handler or its `on_connect`/`on_quit` hooks;
- a request to the timer thread;
- a message on the thread's own control channel;
- closing the socket.

The modules are:

- `Bytes`: the `bytes` operations the engine relies on (`find`/`in`,
  `partition`, `split`, `replace`, `upper`).
- `Transmit`: sanitising an outgoing line, its wire form, the keep-alive test
  and the one-second send spacing.
- `Framing`: cutting CRLF-terminated lines off the receive buffer.
- `Messages`: control messages, log events, timer requests, actions, the
  server configuration, and what `poll` and `create_connection` report.
- `Protocol`: pure functions that say what each step of the thread produces:
  - a received line;
  - a control message;
  - a socket read;
  - one `poll` result;
  - the whole main loop;
  - the wait while disconnected;
  - the connect loop of `run`.

  It also holds the lemmas about those steps.
- `Engine`: the classes `ServerThread` and `Api`. Their methods update the
  fields in place: the clock, `last_send`, `nick`, `channels`, the trace and
  the send slot reserved for each write. Each method is proved to produce
  exactly what the matching `Protocol` function describes. Every method also
  preserves `Valid()`, which holds when:
  - each socket write is one sanitised line ending in CRLF, at most 512 bytes;
  - the reserved send slots are at least one second apart.

  Every method also says what it does to the slots and the clock:
  - a method that calls `send_line_raw` once reserves exactly the next slot;
  - a method that sends nothing leaves the slots, `last_send` and the clock as
    they were;
  - any other method keeps the earlier slots and only adds to them, and moves
    neither the clock nor `last_send` back (`AdvancedFrom`).

The environment is given as parameters:
- `poll` results, as the time spent blocked plus the ready descriptors with
  what reading them gives;
- the outcome of each connection attempt;
- the control messages that arrive while disconnected.

`time.sleep` advances the thread's clock.

## Model

| member | source | states |
|---|---|---|
| Bytes.UpperByte | ircbot.py:195 | `upper()` on one byte never leaves a lower-case letter, and changes a byte only when it is a lower-case letter, to its capital |
| Bytes.UpperIdempotent | ircbot.py:195 | uppercasing twice is uppercasing once |
| Bytes.UpperMatches | ircbot.py:195-197 | `t.upper() == w`, for a word with no lower-case letter such as PING or PONG, holds exactly when `t` has the same length and each byte equals the word's or is the lower-case form of its capital letter (a case-insensitive match) |
| Bytes.IndexOf | ircbot.py:237 | the first occurrence of the separator; `None` exactly when it occurs nowhere |
| Bytes.IndexOfExtend | ircbot.py:233-237 | appending data never moves the first CRLF already in the buffer |
| Bytes.Partition | ircbot.py:239 | `partition`: before + separator + after is the input; the separator part is empty exactly when the separator is absent |
| Bytes.PartitionBefore | ircbot.py:193 | the part before the separator never contains it; the separator is found exactly when the input contains it |
| Bytes.Split | ircbot.py:194 | `split` always yields at least one piece, so the `len(split) >= 1` test always holds |
| Bytes.SplitFirstPieces | ircbot.py:194-197 | the first two pieces of `split` are what two successive `partition`s give; a second piece exists exactly when a space occurs |
| Bytes.Remove | ircbot.py:169 | `replace(b, b'')`: no `b` is left, and every other byte is kept with its count |
| Transmit.Stripped | ircbot.py:169 | the stripped line has no CR or LF and is no longer than the input |
| Transmit.Sanitize | ircbot.py:169 | the sanitised line has no CR or LF and is at most 510 bytes |
| Transmit.Wire | ircbot.py:186 | the bytes written end in CRLF, hold no other CR or LF, and are at most 512 bytes |
| Transmit.SanitizeFixpoint | ircbot.py:169 | sanitising leaves a line unchanged exactly when it has no CR or LF and is at most 510 bytes |
| Transmit.SanitizeIdempotent | ircbot.py:169 | sanitising twice is sanitising once |
| Transmit.SanitizeKeepsPrefix | ircbot.py:169 | a clean prefix of at most 510 bytes survives sanitising |
| Transmit.KeepAliveSurvivesSanitize | ircbot.py:188-189 | a line built as "PING " or "PONG " plus anything is still a keep-alive after sanitising, so it is never logged |
| Transmit.NextSlot | ircbot.py:171-180 | the reserved send time is at least one second after the previous one and not before now; it is now exactly when a second has passed |
| Transmit.SpacedExtend | ircbot.py:171-180 | reserving the next slot keeps all reserved send slots at least one second apart |
| Transmit.SpacedGap | ircbot.py:171-180 | of spaced reserved slots, the j-th is at least j - i seconds after the i-th |
| Framing.SplitLinesJoin | ircbot.py:233-241 | the lines cut off, each with its CRLF, followed by the kept tail, give back the buffer |
| Framing.SplitLinesClean | ircbot.py:237-239 | no line cut off and not the kept tail contains CRLF |
| Framing.SplitLinesChunked | ircbot.py:233-241 | the lines handled do not depend on how the byte stream is split into reads |
| Framing.SplitJoin | ircbot.py:237-239 | CRLF-free lines joined with CRLF, followed by a CRLF-free tail, are framed back into exactly those lines and that tail |
| Framing.SanitizedLacksCrLf | ircbot.py:169 | a sanitised line contains no CRLF |
| Framing.WireStreamFrames | ircbot.py:186 | what the transmit path writes is framed by the receive path into the sanitised lines, one for one, with nothing left over |
| Protocol.SendActionsShape | ircbot.py:167-190 | `send_line_raw` writes the line and CRLF first, then logs the sanitised line exactly when it is not a keep-alive, and logs no error |
| Protocol.ClassifyByTokens | ircbot.py:193-197 | a line is a PING request exactly when its first token, uppercased, is PING, and its arguments follow the first space; a line is a PONG reply exactly when its first token starts with ':' and its second, uppercased, is PONG |
| Protocol.LineEffects | ircbot.py:195-204 | a PING request only writes the PONG, a PONG reply does nothing, and any other line is logged as received and dispatched, in that order; no errors |
| Protocol.PingAnswered | ircbot.py:195-196 | "PING " plus any arguments is answered by writing "PONG " plus the same arguments |
| Protocol.PingAbc | ircbot.py:195-196 | "PING :abc" produces exactly the write "PONG :abc" + CRLF |
| Protocol.LinesActionsStep | ircbot.py:237-241 | handling the framed lines of a buffer is handling its first line, then the framed lines after it |
| Protocol.LinesActionsErrors | ircbot.py:237-241 | handling received lines logs no error |
| Protocol.UpperVerbOnlyVerb | ircbot.py:259-260 | a console line has only its command uppercased: up to the first space each byte is uppercased; from the space on, every byte is unchanged |
| Protocol.ControlStep | ircbot.py:253-278 | quit sets `quitting`; ping timeout and reconnect set `reconnecting`; the buffer is untouched and the batch is never abandoned |
| Protocol.ControlErrors | ircbot.py:253-278 | a ping timeout and an unknown control message log exactly one error each; the others log none |
| Protocol.ReadStep | ircbot.py:224-245 | an empty read logs one error, sets `reconnecting` and abandons the batch; any other read logs no error and leaves the flags |
| Protocol.ReadStepFraming | ircbot.py:233-245 | after a read, the buffer holds no CRLF; the actions are those of the framed lines followed by the two timer requests; the lines handled and the new buffer are the old buffer plus the data |
| Protocol.BatchFlags | ircbot.py:217-281 | after one `poll` result, `quitting` is set only if a quit message came and `reconnecting` only if an empty read, a ping timeout or a reconnect came; flags never clear; a batch with such an event sets a flag |
| Protocol.BatchQuiet | ircbot.py:219-281 | a batch with no flag-setting event leaves both flags as they were |
| Protocol.MainloopStops | ircbot.py:206-286 | `mainloop` returns exactly when some `poll` result holds a flag-setting event; True only after a reconnect cause, False only after a quit |
| Protocol.QuitThenEmptyRead | ircbot.py:217-286 | a quit followed by an empty read in the same `poll` result makes `mainloop` return True (reconnect), because the rest of the batch is still handled |
| Protocol.AwaitFirst | ircbot.py:303-315 | while disconnected, the first reconnect or quit decides (retry or stop), and each message before it is logged as unsupported |
| Protocol.AwaitNone | ircbot.py:303-315 | without a reconnect or quit, the wait never ends and every message is logged |
| Protocol.RunFromEndsWithFinal | ircbot.py:288-372 | of the connect loop driven by any passes: when `run` returns, its last two actions tell the logger and the timer thread to quit |
| Protocol.RunEndsWithFinal | ircbot.py:368-372 | when `run` returns, its last two actions tell the logger and the timer thread to quit |
| Protocol.RunFromTracking | ircbot.py:288-361 | of the connect loop driven by any passes: the tracked channels only grow, and the tracked nick is the old one or the configured one |
| Protocol.RunTracking | ircbot.py:325-341 | across all connection attempts, the tracked channels only grow, and the tracked nick is the old one or the configured one |
| Protocol.RefusedThenRetry | ircbot.py:292-321 | a refused connect, then a reconnect message: log the error, schedule the retry, log each earlier message, cancel the retry, then go on with the next attempt |
| Protocol.RefusedThenQuit | ircbot.py:292-323 | a refused connect, then a quit message: the same outputs, then the final quit messages, and `run` returns |
| Engine.ServerThread.constructor | ircbot.py:148-165 | a fresh thread: `last_send` 0, no nick, no channels, nothing done yet |
| Engine.ServerThread.ReserveSlot | ircbot.py:171-180 | within a second of the last send, the slot moves one second on and the wait is positive; otherwise the slot is now and the wait is zero |
| Engine.ServerThread.SendLineRaw | ircbot.py:167-190 | appends the write and log of `send_line_raw`; reserves the next slot and sleeps until it; keeps the reserved slots spaced and every write one line |
| Engine.ServerThread.HandleLine | ircbot.py:192-204 | appends exactly the outputs of handling the line; earlier slots are kept, and neither the clock nor the last slot goes back |
| Engine.ServerThread.ExtractLines | ircbot.py:237-241 | the framing loop: handles the framed lines in order; the kept tail has no CRLF, and lines plus tail give back the buffer; earlier slots are kept, and neither the clock nor the last slot goes back |
| Engine.ServerThread.HandleControl | ircbot.py:253-278 | the state and outputs of one control message, as ControlStep; earlier slots are kept, and neither the clock nor the last slot goes back |
| Engine.ServerThread.HandleRead | ircbot.py:224-245 | the state, outputs and break of one socket read, as ReadStep; earlier slots are kept, and neither the clock nor the last slot goes back |
| Engine.ServerThread.HandleReady | ircbot.py:221-281 | one ready descriptor, dispatched by kind; earlier slots are kept, and neither the clock nor the last slot goes back |
| Engine.ServerThread.ProcessBatch | ircbot.py:219-281 | the `for fd, event in poll.poll()` loop: the state and outputs of BatchSpec; earlier slots are kept, and neither the clock nor the last slot goes back |
| Engine.ServerThread.Mainloop | ircbot.py:206-286 | `mainloop`: the result and outputs of MainloopSpec from the start state; earlier slots are kept, and neither the clock nor the last slot goes back |
| Engine.ServerThread.AwaitControl | ircbot.py:303-315 | the disconnected wait loop: the result and outputs of AwaitSpec; no slot is reserved and the clock stays put |
| Engine.ServerThread.Refusal | ircbot.py:294-323 | a failed connect: the error, the retry timer, the wait, and the cancelled retry timer; no slot is reserved and the clock stays put |
| Engine.ServerThread.JoinChannels | ircbot.py:339-340 | joins every configured channel in order; adds them all to the tracked set; earlier slots are kept, and neither the clock nor the last slot goes back |
| Engine.ServerThread.Login | ircbot.py:326-343 | USER, NICK, the connect hook, the JOINs and the ping timer; sets the nick and adds the channels; earlier slots are kept, and neither the clock nor the last slot goes back |
| Engine.ServerThread.Goodbye | ircbot.py:348-361 | after `mainloop`: on False the quit hook, QUIT and close; on True the reconnect QUIT and close; earlier slots are kept, and neither the clock nor the last slot goes back |
| Engine.ServerThread.Session | ircbot.py:325-361 | a connected pass of `run`, as AttemptSpec; earlier slots are kept, and neither the clock nor the last slot goes back |
| Engine.ServerThread.Connect | ircbot.py:289-361 | one pass of the `while True` loop of `run`, either way, with the nick and channel updates; earlier slots are kept, and neither the clock nor the last slot goes back |
| Engine.ServerThread.Shutdown | ircbot.py:368-372 | tells the logger and the timer thread to quit; no slot is reserved and the clock stays put |
| Engine.ServerThread.Run | ircbot.py:288-372 | `run`: the outputs, tracked nick and channels, and whether it returns, as RunSpec; earlier slots are kept, and neither the clock nor the last slot goes back |
| Engine.Api.constructor | ircbot.py:66-71 | the API is bound to its server thread |
| Engine.Api.SendRaw | ircbot.py:73-76 | sends the line unchanged; reserves exactly the next slot, as `send_line_raw` |
| Engine.Api.Msg | ircbot.py:78-81 | sends `PRIVMSG <recipient> :<message>`; reserves exactly the next slot, as `send_line_raw` |
| Engine.Api.BotResponse | ircbot.py:83-88 | sends the PRIVMSG with the message prefixed by a UTF-8 zero-width space; reserves exactly the next slot, as `send_line_raw` |
| Engine.Api.Nick | ircbot.py:90-95 | sends `NICK <nick>` and tracks the new nick; channels unchanged; reserves exactly the next slot, as `send_line_raw` |
| Engine.Api.GetNick | ircbot.py:97-100 | returns the tracked nick |
| Engine.Api.SetNick | ircbot.py:102-105 | sets the tracked nick and sends nothing; the slots, `last_send` and the clock are unchanged |
| Engine.Api.Join | ircbot.py:107-112 | sends `JOIN <channel>` and adds the channel to the tracked set; reserves exactly the next slot, as `send_line_raw` |
| Engine.Api.PartAsWritten | ircbot.py:114-119 | as written: sends the PART line, then fails on the missing set method; the channel stays tracked; reserves exactly the next slot, as `send_line_raw` |
| Engine.Api.Part | ircbot.py:114-119 | as intended: sends the PART line and removes the channel from the tracked set; reserves exactly the next slot, as `send_line_raw` |
| Engine.Api.GetChannels | ircbot.py:121-124 | returns the tracked channels |
| Engine.Api.SetChannels | ircbot.py:126-129 | replaces the tracked channels and sends nothing; the slots, `last_send` and the clock are unchanged |
| Engine.Api.Quit | ircbot.py:131-134 | puts quit on the control channel, tells the logger to quit, then tells the timer thread to quit; the slots, `last_send` and the clock are unchanged |
| Engine.Api.Log | ircbot.py:136-138 | puts one status message on the logging channel; the slots, `last_send` and the clock are unchanged |
| Engine.Api.Error | ircbot.py:140-142 | puts one error on the logging channel; the slots, `last_send` and the clock are unchanged |
| Engine.PartKeepsChannel | ircbot.py:107-119 | join then `part` as written: the call fails and the channel is still tracked |
| Engine.PartForgetsChannel | ircbot.py:107-119 | join then the intended `part`: the channel is no longer tracked |

## Left out

- Sockets, `poll`, the control, logging and timer channels, and the threads
  behind them are not modelled as processes. What the thread reads comes in as
  parameters, and what it sends out is recorded in the trace.
- The timer thread (`cron`), the `channel` module, `line_handling` and the
  `botcmd` hooks are not part of this model. Calls into them are recorded as
  actions, and their effects are not modelled.
- `LoggerThread`, `spawn_serverthread`, reading the configuration and the
  program entry point are not part of this model.
- Locks are not modelled: every method runs alone, one after another.
  Interleavings with bot code on other threads are not modelled.
- `time.monotonic` and `time.sleep` are a real-valued clock field.
  - The environment advances the clock by the time each `poll` blocks.
  - A sleep advances it by exactly the wait, and the write follows at once.
    This is why, in the model, a write happens at its reserved slot. In the
    source, `time.sleep` may oversleep and `sendall` may wait for the write
    lock (ircbot.py:182-186). A real write can then come later than its slot,
    and the next slot, computed from `last_send`, can be less than a second
    after it. What is proved is the spacing of the reserved slots.
- `Engine.ServerThread.Refusal`: the disconnected wait, the connect attempt
  and the hook calls take no time in the model. Only `poll` and send sleeps
  move the clock. In the source, the wait for the retry after a refused
  connect (ircbot.py:299, 303-304) takes real time, up to the 60-second
  reconnect delay. After a reconnect the model's clock is therefore behind the
  source's. A line sent then can get a later slot than in the source: within
  one second of the last slot the model waits for `last_send + 1`, where the
  source, a minute later, would send at once (ircbot.py:173-180).
- `poll` results over-approximate `poll.poll()`. A modelled batch may list the
  same descriptor more than once and in any order. The real call reports each
  registered descriptor at most once, in an order the source does not fix.
  Lemmas about a given order, such as `Protocol.QuitThenEmptyRead` (the
  control channel before the socket), hold for that order only.
- UTF-8 encoding and decoding are not modelled. Configuration strings and
  console lines arrive already encoded as bytes, and log events carry the
  bytes themselves.
- The text of error and log messages is modelled as structured values, such
  as `CantConnect(host, port)`, instead of formatted strings.
- The chunk size of `recv(1024)` is not modelled: a read may deliver any
  non-empty chunk. `Framing.SplitLinesChunked` shows that chunking does not
  change the lines handled.
- The `BrokenPipeError`/`TimeoutError` handler (ircbot.py:363-366) is not
  modelled. Writes never fail in this model.
- `Engine.ServerThread.Run`: every attempt is either refused or connected,
  every read yields bytes and the bot code never raises. The failures that
  end the thread uncaught, with no reconnect and without the final quit
  messages, are not modelled:
  - any `OSError` from `create_connection` other than `ConnectionRefusedError`
    and `socket.gaierror` (ircbot.py:293-294), such as a timeout or an
    unreachable network;
  - a `recv` that raises, such as `ConnectionResetError` (ircbot.py:224),
    which the handler at ircbot.py:363 does not catch;
  - an exception raised by the dispatched bot code (ircbot.py:204) or by the
    `on_connect`/`on_quit` hooks.
- The `else` branch at ircbot.py:247-249 is not modelled: `event | POLLIN` is
  always non-zero, so that branch can never run. A server-socket event is
  always handled as a read.
- The `assert False` branch at ircbot.py:280-281 is not modelled: a ready
  descriptor is always the socket or the control channel.
- `cron.quit(cron_control_channel)` (ircbot.py:372) names a module-level
  global, not the thread's own timer channel. `Engine.ServerThread.Shutdown`
  sends the quit request to the timer thread as if it named the thread's own
  channel; a missing global is not modelled.
- `Engine.Api.GetChannels`: the source returns the live set object
  (ircbot.py:124), not a copy. The model returns the set as a value, so later
  mutation through that reference is not captured.
- `Engine.Api.SetChannels`: the source stores the caller's set object itself
  (ircbot.py:129). If the caller mutates that set later, the tracked channels
  change with it. The model copies the set as a value, so later mutation
  through the caller's reference is not captured.
- `Engine.ServerThread.Mainloop`: a `None` result means the given `poll`
  results ran out while both flags were still clear, i.e. `poll` never
  returns again. Likewise `None` from `AwaitControl` and `Run` means the
  messages or attempts ran out.
- A `SendLine` control message carries bytes. The source's `assert len(arguments) == 1`
  and `assert len(arguments) == 0` checks on control-message arity (ircbot.py:258, 264)
  hold by construction of the `ControlMessage` datatype.

## Findings

| source | as written | input that shows it | evidently intended | confidence | as-written member | corrected member |
|---|---|---|---|---|---|---|
| ircbot.py:119 | `part` calls `channels.removeadd(channel)`. Python's `set` has no such method, so the call raises `AttributeError` after the PART line was already sent, and the channel stays in the tracked set | `join(b'#c')` then `part(b'#c')`: PART is sent, the call fails, and `#c` is still tracked | remove the channel from the tracked set (`channels.discard(channel)`) | not executed | Engine.Api.PartAsWritten | Engine.Api.Part |
