/** The HLTV command API (hltv-api.py): an HTTP handler that, after checking
    a shared key, a path `/hltv/<port>/<action>` and the port range, writes a
    console command into the FIFO of one HLTV instance or restarts it, plus a
    health check. The handler's I/O (the pipe's existence, the write, the
    `systemctl` run) is handed in as an `Io` value; the model says which I/O
    the request performs and which response it sends. */
module HltvApi {
  import opened Options
  import opened Text

  const AuthKey: string := "KTPVPS2026"
  const PipeDir: string := "/home/hltvserver/cmdpipes"

  /** `range(27020, 27045)`: the lower bound is in, the upper one is not. */
  const FirstPort: int := 27020
  const PastLastPort: int := 27045

  predicate ValidPort(port: int) {
    FirstPort <= port < PastLastPort
  }

  /** A request body after UTF-8 decoding and `json.loads`: an object with
      or without a string `command` member, text that is not JSON at all, or
      `OtherJson` for every body the handler raises on: a JSON value that is
      not an object, a `command` that is not a string, or bytes that are not
      valid UTF-8. */
  datatype Body = JsonObject(command: Option<string>) | OtherJson | NotJson(text: string)

  /** A POST request: the `X-Auth-Key` and `Content-Length` headers (`None`
      when absent), the path and the decoded body. */
  datatype PostRequest = PostRequest(authKey: Option<string>, path: string, contentLength: Option<string>, body: Body)

  /** The JSON object sent back. */
  datatype Reply =
    | Failure(error: string)
    | CommandSent(port: int, command: string)
    | Restarted(port: int, message: string)
    | RestartFailed(port: int, reason: string)
    | Healthy

  datatype Response = Response(code: int, reply: Reply)

  /** The outside effect of a request: nothing, one attempt to open a pipe
      and write `data` into it, or one attempt to `systemctl restart` a
      service. */
  datatype Effect = NoEffect | PipeWrite(pipe: string, data: string) | Restart(service: string)

  /** How the attempt to write into a pipe ended: the data was written, or
      opening or writing the pipe raised (then nothing may have reached it). */
  datatype WriteResult = Written | WriteRaised(message: string)

  /** What `subprocess.run` gave: an exit status with its standard error,
      the 30-second timeout, or another exception. */
  datatype RestartResult = Exited(status: int, stderr: string) | TimedOut | RunRaised(message: string)

  datatype Io = Io(pipeExists: string -> bool, write: WriteResult, restart: RestartResult)

  /** The handling of one request: the response, or `None` when an
      exception escapes the handler and no response is sent, and the effect
      performed. */
  datatype Outcome = Outcome(response: Option<Response>, effect: Effect)

  function Send(code: int, reply: Reply): Outcome {
    Outcome(Some(Response(code, reply)), NoEffect)
  }

  // ---------------------------------------------------------------------
  // Routing
  // ---------------------------------------------------------------------

  datatype Route = BadPath | BadPort | PortOutOfRange | Target(port: int, action: string)

  /** The path checks of `do_POST`, in their order: three `/`-separated
      segments starting with `hltv` once outer slashes are stripped, an
      integer port, a port in range. */
  function RouteOf(path: string): (r: Route)
    ensures var parts := Split(StripChar(path, '/'), '/');
      && (r.BadPath? <==> |parts| != 3 || parts[0] != "hltv")
      && (!r.BadPath? ==> (r.BadPort? <==> ParseInt(parts[1]).None?))
      && (!r.BadPath? && ParseInt(parts[1]).Some? ==>
            && (r.PortOutOfRange? <==> !ValidPort(ParseInt(parts[1]).value))
            && (ValidPort(ParseInt(parts[1]).value) ==> r == Target(ParseInt(parts[1]).value, parts[2])))
    ensures r.Target? ==> ValidPort(r.port) && '/' !in r.action
  {
    var parts := Split(StripChar(path, '/'), '/');
    if |parts| != 3 || parts[0] != "hltv" then BadPath
    else
      match ParseInt(parts[1])
      case None => BadPort
      case Some(port) => if !ValidPort(port) then PortOutOfRange else Target(port, parts[2])
  }

  /** `/hltv/<port>/<action>` splits into its three segments once the
      outer slashes are stripped. */
  lemma RouteParts(portText: string, action: string)
    requires portText != [] && '/' !in portText
    requires action != [] && '/' !in action
    ensures Split(StripChar("/hltv/" + portText + "/" + action, '/'), '/') == ["hltv", portText, action]
  {
    var s := "hltv/" + portText + "/" + action;
    var path := "/hltv/" + portText + "/" + action;
    assert path == "/" + s;
    assert TrimStart(path, Only('/')) == TrimStart(s, Only('/')) by {
      assert path[1..] == s;
    }
    assert StripChar(path, '/') == s by {
      StripCharKeeps(s, '/');
    }
    var parts := ["hltv", portText, action];
    assert Join(parts, "/") == s by {
      assert Join(parts[2..], "/") == action;
      assert Join(parts[1..], "/") == portText + "/" + action;
    }
    assert '/' !in "hltv";
    SplitJoin(parts, '/');
  }

  /** The path a client builds for a port and an action is routed back to
      that port and action. */
  lemma RouteRoundTrip(port: int, action: string)
    requires ValidPort(port)
    requires action != [] && '/' !in action
    ensures RouteOf("/hltv/" + IntToString(port) + "/" + action) == Target(port, action)
  {
    RouteParts(IntToString(port), action);
    ParseIntToString(port);
  }

  /** A well-formed path naming an integer port outside 27020..27044 is
      rejected for its range, whatever the action. */
  lemma RouteRejectsOutOfRange(port: int, action: string)
    requires !ValidPort(port)
    requires action != [] && '/' !in action
    ensures RouteOf("/hltv/" + IntToString(port) + "/" + action) == PortOutOfRange
  {
    RouteParts(IntToString(port), action);
    ParseIntToString(port);
  }

  /** A well-formed path whose port segment is not an integer is rejected
      as an invalid port. */
  lemma RouteRejectsNonInteger(portText: string, action: string)
    requires portText != [] && '/' !in portText && ParseInt(portText).None?
    requires action != [] && '/' !in action
    ensures RouteOf("/hltv/" + portText + "/" + action) == BadPort
  {
    RouteParts(portText, action);
  }

  // ---------------------------------------------------------------------
  // Handlers
  // ---------------------------------------------------------------------

  /** `f"{PIPE_DIR}/hltv-{port}.pipe"` */
  function PipePath(port: int): string {
    PipeDir + "/hltv-" + IntToString(port) + ".pipe"
  }

  /** `f"hltv@{port}"` */
  function ServiceName(port: int): string {
    "hltv@" + IntToString(port)
  }

  /** The command carried by a body: the stripped `command` member of a
      JSON object (empty when missing), or the stripped text of a body that
      is not JSON. Any other JSON value makes `.get` or `.strip` raise. */
  function CommandOf(body: Body): (r: Option<string>)
    ensures body.JsonObject? && body.command.Some? ==> r == Some(Strip(body.command.value))
    ensures body == JsonObject(None) ==> r == Some("")
    ensures body.NotJson? ==> r == Some(Strip(body.text))
    ensures body.OtherJson? <==> r.None?
    ensures r.Some? ==> r.value == Strip(r.value)
  {
    match body
    case JsonObject(None) => Some("")
    case JsonObject(Some(c)) => StripIdempotent(c); Some(Strip(c))
    case OtherJson => None
    case NotJson(t) => StripIdempotent(t); Some(Strip(t))
  }

  /** `handle_command(port)`. A `Content-Length` that is not an integer
      makes `int()` raise. */
  function HandleCommand(port: int, contentLength: Option<string>, body: Body, io: Io): (r: Outcome)
    ensures var length := if contentLength.None? then Some(0) else ParseInt(contentLength.value);
      r.response.None? <==> length.None? || (length != Some(0) && CommandOf(body).None?)
    ensures r.response.Some? ==> r.response.value.code in {200, 400, 500}
    ensures r.effect != NoEffect ==> r.effect.PipeWrite? && r.effect.pipe == PipePath(port) && io.pipeExists(PipePath(port))
    ensures r.response.Some? && r.response.value.code == 200 ==> r.effect.PipeWrite? && io.write == Written
    ensures var length := if contentLength.None? then Some(0) else ParseInt(contentLength.value);
      length.Some? && length.value != 0 && CommandOf(body).Some? && CommandOf(body).value != "" ==>
        var command := CommandOf(body).value;
        var pipe := PipePath(port);
        && (!io.pipeExists(pipe) ==> r == Send(500, Failure("Pipe not found: " + pipe)))
        && (io.pipeExists(pipe) ==>
              && r.effect == PipeWrite(pipe, command + "\n")
              && r.response == Some(match io.write
                   case Written => Response(200, CommandSent(port, command))
                   case WriteRaised(m) => Response(500, Failure(m))))
  {
    var length := if contentLength.None? then Some(0) else ParseInt(contentLength.value);
    if length.None? then Outcome(None, NoEffect)
    else if length.value == 0 then Send(400, Failure("No command provided"))
    else
      match CommandOf(body)
      case None => Outcome(None, NoEffect)
      case Some(command) =>
        if command == "" then Send(400, Failure("Empty command"))
        else
          var pipe := PipePath(port);
          if !io.pipeExists(pipe) then Send(500, Failure("Pipe not found: " + pipe))
          else
            var response := match io.write
              case Written => Response(200, CommandSent(port, command))
              case WriteRaised(m) => Response(500, Failure(m));
            Outcome(Some(response), PipeWrite(pipe, command + "\n"))
  }

  /** `handle_restart(port)`: always runs `systemctl restart`, then maps its
      result to the response. */
  function HandleRestart(port: int, result: RestartResult): (r: Outcome)
    ensures r.effect == Restart(ServiceName(port))
    ensures r.response.Some? && r.response.value.code in {200, 500}
  {
    var response := match result
      case Exited(0, _) => Response(200, Restarted(port, "HLTV " + IntToString(port) + " restarted successfully"))
      case Exited(_, stderr) =>
        Response(500, RestartFailed(port, if Strip(stderr) == "" then "Unknown error" else Strip(stderr)))
      case TimedOut => Response(500, Failure("Restart timed out"))
      case RunRaised(m) => Response(500, Failure(m));
    Outcome(Some(response), Restart(ServiceName(port)))
  }

  /** `do_POST`: the key first, then the path, then the action. */
  function HandlePost(req: PostRequest, io: Io): (r: Outcome)
    ensures r.response.Some? ==> r.response.value.code in {200, 400, 401, 500}
    ensures r.response.None? ==>
      req.authKey == Some(AuthKey) && RouteOf(req.path).Target? && RouteOf(req.path).action == "command"
    ensures req.authKey == Some(AuthKey) && RouteOf(req.path).Target? && RouteOf(req.path).action == "command" ==>
      r == HandleCommand(RouteOf(req.path).port, req.contentLength, req.body, io)
    ensures req.authKey == Some(AuthKey) && RouteOf(req.path).Target? && RouteOf(req.path).action == "restart" ==>
      r == HandleRestart(RouteOf(req.path).port, io.restart)
  {
    if req.authKey != Some(AuthKey) then Send(401, Failure("Unauthorized"))
    else
      match RouteOf(req.path)
      case BadPath => Send(400, Failure("Invalid path. Use /hltv/<port>/command or /hltv/<port>/restart"))
      case BadPort => Send(400, Failure("Invalid port number"))
      case PortOutOfRange => Send(400, Failure("Port must be 27020-27044"))
      case Target(port, action) =>
        if action == "command" then HandleCommand(port, req.contentLength, req.body, io)
        else if action == "restart" then HandleRestart(port, io.restart)
        else Send(400, Failure("Unknown action: " + action))
  }

  /** `do_GET` */
  function HandleGet(path: string): (r: Response)
    ensures r.code == 200 <==> path == "/health"
    ensures r.code == 200 ==> r.reply == Healthy
    ensures r.code != 200 ==> r == Response(404, Failure("Not found"))
  {
    if path == "/health" then Response(200, Healthy) else Response(404, Failure("Not found"))
  }

  // ---------------------------------------------------------------------
  // Properties
  // ---------------------------------------------------------------------

  /** A wrong or missing key is answered 401 and nothing else happens, and
      401 is never sent for any other reason. */
  lemma AuthChecked(req: PostRequest, io: Io)
    ensures var o := HandlePost(req, io);
      (o.response.Some? && o.response.value.code == 401) <==> req.authKey != Some(AuthKey)
    ensures req.authKey != Some(AuthKey) ==> HandlePost(req, io) == Send(401, Failure("Unauthorized"))
  {
  }

  /** The key is checked before anything else: with a wrong key, neither
      the path, the headers, the body nor the outside world matter. */
  lemma AuthBeforeEverything(req: PostRequest, other: PostRequest, io: Io, io2: Io)
    requires req.authKey != Some(AuthKey) && other.authKey == req.authKey
    ensures HandlePost(req, io) == HandlePost(other, io2)
  {
  }

  /** The path is checked before the body: a request whose path is not
      routed to a valid port gets a 400 that does not depend on its body,
      its length header or the outside world. */
  lemma PathBeforeBody(req: PostRequest, other: PostRequest, io: Io, io2: Io)
    requires req.authKey == Some(AuthKey) && other.authKey == req.authKey && other.path == req.path
    requires !RouteOf(req.path).Target?
    ensures HandlePost(req, io) == HandlePost(other, io2)
    ensures HandlePost(req, io).response.value.code == 400 && HandlePost(req, io).effect == NoEffect
  {
  }

  /** Something happens outside only for an authorized request on a valid
      port with the matching action: a pipe write for `command`, a restart
      for `restart`, each on that port's pipe or service. */
  lemma EffectsNeedValidRequest(req: PostRequest, io: Io)
    ensures var o := HandlePost(req, io);
      o.effect != NoEffect ==>
        && req.authKey == Some(AuthKey)
        && RouteOf(req.path).Target?
        && ValidPort(RouteOf(req.path).port)
        && (o.effect.PipeWrite? ==> RouteOf(req.path).action == "command" && o.effect.pipe == PipePath(RouteOf(req.path).port))
        && (o.effect.Restart? ==> RouteOf(req.path).action == "restart" && o.effect.service == ServiceName(RouteOf(req.path).port))
  {
  }

  /** Only `command` and `restart` are dispatched; any other action of a
      valid route is answered 400 without effect. */
  lemma UnknownActionRejected(req: PostRequest, io: Io)
    requires req.authKey == Some(AuthKey) && RouteOf(req.path).Target?
    requires RouteOf(req.path).action != "command" && RouteOf(req.path).action != "restart"
    ensures HandlePost(req, io) == Send(400, Failure("Unknown action: " + RouteOf(req.path).action))
  {
  }

  /** A write to the pipe is attempted exactly when the length is a
      non-zero integer, the body carries a non-empty command and the port's
      pipe exists; the attempt carries that command with a newline added, to
      that pipe, and a successful write echoes the port and the command. */
  lemma CommandWritten(port: int, contentLength: Option<string>, body: Body, io: Io)
    ensures var o := HandleCommand(port, contentLength, body, io);
      var length := if contentLength.None? then Some(0) else ParseInt(contentLength.value);
      o.effect.PipeWrite? <==>
        && length.Some? && length.value != 0
        && CommandOf(body).Some? && CommandOf(body).value != ""
        && io.pipeExists(PipePath(port))
    ensures var o := HandleCommand(port, contentLength, body, io);
      o.effect.PipeWrite? ==>
        && CommandOf(body).Some? && CommandOf(body).value != ""
        && o.effect == PipeWrite(PipePath(port), CommandOf(body).value + "\n")
        && (io.write == Written ==> o.response == Some(Response(200, CommandSent(port, CommandOf(body).value))))
  {
  }

  /** A stripped, non-empty command followed by a newline ends in exactly
      one newline, and dropping that newline gives the command back. */
  lemma NewlineTerminated(command: string)
    requires command != "" && Strip(command) == command
    ensures var data := command + "\n";
      && |data| >= 2
      && data[|data| - 1] == '\n' && data[|data| - 2] != '\n'
      && data[..|data| - 1] == command
  {
    assert !IsSpace(command[|command| - 1]) && IsSpace('\n');
    assert (command + "\n")[|command| - 1] == command[|command| - 1];
  }

  /** The body rules of `handle_command`: a zero (or missing) length and an
      empty command are answered 400 without effect, whatever the pipe. */
  lemma EmptyCommandRejected(port: int, contentLength: Option<string>, body: Body, io: Io)
    requires contentLength.None? || ParseInt(contentLength.value) == Some(0) || CommandOf(body) == Some("")
    requires contentLength.Some? ==> ParseInt(contentLength.value).Some?
    ensures var o := HandleCommand(port, contentLength, body, io);
      o.effect == NoEffect && o.response.Some? && o.response.value.code == 400
  {
  }

  /** A restart answers 200 exactly when `systemctl` exited with status 0;
      a failure reports the trimmed standard error, or "Unknown error" when
      that is blank. The service is always that of the port. */
  lemma RestartOutcome(port: int, result: RestartResult)
    ensures var o := HandleRestart(port, result);
      && o.effect == Restart(ServiceName(port))
      && o.response.Some?
      && (o.response.value.code == 200 <==> result.Exited? && result.status == 0)
      && (o.response.value.code != 200 ==> o.response.value.code == 500)
      && (result.Exited? && result.status == 0 ==>
            o.response.value.reply == Restarted(port, "HLTV " + IntToString(port) + " restarted successfully"))
      && (result.Exited? && result.status != 0 ==>
            && o.response.value.reply.RestartFailed?
            && o.response.value.reply.port == port
            && o.response.value.reply.reason != ""
            && (Strip(result.stderr) != "" ==> o.response.value.reply.reason == Strip(result.stderr))
            && (Strip(result.stderr) == "" ==> o.response.value.reply.reason == "Unknown error"))
      && (result.TimedOut? ==> o.response.value == Response(500, Failure("Restart timed out")))
      && (result.RunRaised? ==> o.response.value == Response(500, Failure(result.message)))
  {
  }
}
