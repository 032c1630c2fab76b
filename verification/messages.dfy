/**
 * The messages that flow between the server thread and the rest of the bot,
 * and the observable outputs the thread produces. The channels (control,
 * logging, cron) are queues owned by other threads; here every message the
 * thread puts on one of them, every write to the socket and every call into
 * bot code is one `Action`, in the order the thread performs them.
 */
module Messages {
  import opened Bytes

  /** A message on the server thread's control channel. */
  datatype ControlMessage =
    | Quit
    | SendLine(text: seq<Byte>)   // the console's raw line, already UTF-8 encoded
    | Ping
    | PingTimeout
    | Reconnect
    | Unknown(kind: string)       // any other message type

  /** The error payloads the thread logs (`internal_submessage_types.error`). */
  datatype ErrorMessage =
    | EmptyRead
    | PingTimeoutError
    | UnknownControl(msg: ControlMessage)
    | CantConnect(host: string, port: int)
    | NotWhenDisconnected(msg: ControlMessage)
    | BotError(message: string)

  /** A message on the logging channel. */
  datatype LogEvent =
    | Sent(line: seq<Byte>)
    | Received(line: seq<Byte>)
    | InternalQuit
    | InternalError(error: ErrorMessage)
    | Status(text: string)

  /** A request to the cron thread about a timed control message. */
  datatype CronRequest =
    | Reschedule(delay: nat, msg: ControlMessage)
    | Delete(msg: ControlMessage)
    | CronQuit

  /** The hooks of the bot code that the thread calls. */
  datatype Hook = OnConnect | OnQuit

  /** One observable step of the thread. */
  datatype Action =
    | Write(bytes: seq<Byte>)        // `sendall` on the server socket
    | Log(event: LogEvent)           // a message on the logging channel
    | Dispatch(line: seq<Byte>)      // `line_handling.handle_line(line, irc = api)`
    | Cron(request: CronRequest)     // a message to the cron thread
    | Control(msg: ControlMessage)   // a message on the thread's own control channel
    | Close                          // the server socket is closed
    | CallHook(hook: Hook)           // `botcmd.on_connect` / `botcmd.on_quit`

  /** The `Server` record of the configuration; the byte fields are the UTF-8 encodings. */
  datatype ServerConfig = ServerConfig(
    host: string,
    port: int,
    nick: seq<Byte>,
    username: seq<Byte>,
    realname: seq<Byte>,
    channels: seq<seq<Byte>>)

  /** Time spent blocked in a system call; never negative. */
  type Duration = r: real | 0.0 <= r

  /** One descriptor reported ready by `poll`, with what reading it gives. */
  datatype Ready =
    | ServerReady(data: seq<Byte>)    // the server socket; `data` is what `recv(1024)` returns (it never raises here)
    | ControlReady(msg: ControlMessage)

  /** One return of `poll.poll()`: the time it blocked and the ready descriptors, in order. */
  datatype Poll = Poll(blocked: Duration, ready: seq<Ready>)

  /** One pass of the connect loop in `run`. */
  datatype Attempt =
    | Refused(messages: seq<ControlMessage>)   // refused, or name resolution failed; the control messages that follow
    | Connected(polls: seq<Poll>)              // connected; what `poll` then reports
}
