/** The Linux variant (slm-linux.go): flag and environment resolution, the
    history wrappers, the status/error/choices ladder of sendChat, and main. */
module SlmLinux {
  import opened Wrappers
  import opened Platform
  import opened Messages
  import opened History
  import Session

  const AppName := "slm"
  const HistFile := "history.ndb"

  /** histDir: the `slm` directory under the user's configuration directory
      (what os.UserConfigDir returned, None when it failed), or under
      `<home>/.config` when that lookup failed. */
  function HistDirPath(configDir: Option<string>, home: string): (dir: string)
    ensures configDir.Some? && configDir.value != "" ==> dir == configDir.value + "/" + AppName
    ensures configDir.None? && home != "" ==> dir == home + "/.config/" + AppName
    ensures configDir.None? && home == "" ==> dir == ".config/" + AppName
    ensures dir != ""
  {
    var base := if configDir.Some? then configDir.value else Join([home, ".config"]);
    JoinSmall(home, ".config", "");
    JoinSmall(base, AppName, "");
    Join([base, AppName])
  }

  /** histPath: the history file inside the directory ensureHistDir creates. */
  function HistPath(configDir: Option<string>, home: string): (path: string)
    ensures path == HistDirPath(configDir, home) + "/" + HistFile
  {
    JoinSmall(HistDirPath(configDir, home), HistFile, "");
    Join([HistDirPath(configDir, home), HistFile])
  }

  const MissingKey := "[ERROR] OPENAI_API_KEY not set"
  const PromptUnreadable := "[ERROR] prompt could not be read: "
  const AppendUnopenable := "[ERROR] opening history file: "

  /** The resolved options of one run. */
  datatype Opts = Opts(model: string, temp: real, sysPrompt: string, userPrompt: string,
                       cont: bool, apiKey: string)

  /** The user's prompt: the first positional argument when there is one,
      otherwise all of standard input; a failed read is fatal. */
  function Prompt(args: seq<string>, stdin: StdinResult): (r: Result<string, string>)
    ensures |args| > 0 ==> r == Success(args[0])
    ensures |args| == 0 ==> (r.Success? <==> stdin.err.None?)
    ensures |args| == 0 && r.Success? ==> r.value == stdin.data
    ensures |args| == 0 && stdin.err.Some? ==> r == Failure(PromptUnreadable + stdin.err.value)
  {
    if |args| > 0 then Success(args[0])
    else if stdin.err.Some? then Failure(PromptUnreadable + stdin.err.value)
    else Success(stdin.data)
  }

  /** parseFlags: an empty API key is fatal before the prompt is looked at;
      otherwise the options carry the flags, the key and the prompt. */
  function ParseFlags(flags: Flags, args: seq<string>, env: Env, stdin: StdinResult): (r: Result<Opts, string>)
    ensures Getenv(env, ApiKeyVar) == "" ==> r == Failure(MissingKey)
    ensures r.Success? <==> Getenv(env, ApiKeyVar) != "" && Prompt(args, stdin).Success?
    ensures r.Success? ==> r.value.apiKey == Getenv(env, ApiKeyVar) && r.value.apiKey != ""
    ensures r.Success? ==> r.value.userPrompt == Prompt(args, stdin).value
    ensures r.Success? ==> r.value.model == flags.model && r.value.temp == flags.temp
                           && r.value.sysPrompt == flags.sysPrompt && r.value.cont == flags.cont
  {
    var apiKey := Getenv(env, ApiKeyVar);
    if apiKey == "" then Failure(MissingKey)
    else
      var userPrompt := Prompt(args, stdin);
      if userPrompt.Failure? then Failure(userPrompt.error)
      else Success(Opts(flags.model, flags.temp, flags.sysPrompt, userPrompt.value, flags.cont, apiKey))
  }

  const ApiErrorPrefix := "OpenAI API error: "
  const ClientErrorPrefix := "[ERROR] "

  /** Why sendChat failed. */
  datatype ChatError =
    | RequestFailed(cause: string)
    | ReadFailed(cause: string)
    | StatusNotOK(status: int, body: string)
    | ApiError(message: string)
    | DecodeFailed(cause: string)
    | NoChoices
  {
    /** The text log.Fatal prints for this error: the service's own refusals
        read "OpenAI API error: ...", every other failure "[ERROR] ...", and the
        underlying error or the service's message closes the text. */
    function Text(): (t: string)
      ensures (StatusNotOK? || ApiError?) <==> |t| >= |ApiErrorPrefix| && t[..|ApiErrorPrefix|] == ApiErrorPrefix
      ensures !(StatusNotOK? || ApiError?) <==> |t| >= |ClientErrorPrefix| && t[..|ClientErrorPrefix|] == ClientErrorPrefix
      ensures (RequestFailed? || ReadFailed? || DecodeFailed?) ==> |t| >= |cause| && t[|t| - |cause|..] == cause
      ensures ApiError? ==> t[|ApiErrorPrefix|..] == message
      ensures StatusNotOK? ==> |t| >= |body| && t[|t| - |body|..] == body
    {
      var t := match this
        case RequestFailed(c) => "[ERROR] request error: " + c
        case ReadFailed(c) => "[ERROR] reading response body: " + c
        case StatusNotOK(s, b) => "OpenAI API error: status " + DecimalText(s) + ", body: " + b
        case ApiError(m) => "OpenAI API error: " + m
        case DecodeFailed(c) => "[ERROR] decoding response: " + c
        case NoChoices => "[ERROR] no choices in response";
      // The two prefixes differ in their first character, so no text has both.
      assert t[0] == (if StatusNotOK? || ApiError? then ApiErrorPrefix[0] else ClientErrorPrefix[0]);
      t
    }
  }

  /** The request sendChat posts for these options and messages. */
  function Request(opts: Opts, msgs: seq<Message>): ChatRequest
  {
    MakeRequest(opts.model, opts.temp, msgs, opts.apiKey)
  }

  /** The ladder sendChat applies once the body has been read: the status
      first, then an error message embedded in the body, then the choices. */
  function Classify(reply: HttpReply): (r: Result<string, ChatError>)
    ensures r.Success? <==>
              && reply.Received? && reply.status == StatusOK
              && (reply.errorMessage.None? || reply.errorMessage.value == "")
              && reply.choices.Success? && |reply.choices.value| > 0
    ensures r.Success? ==> r.value == reply.choices.value[0].message.content
    ensures reply.Received? && reply.status != StatusOK ==> r == Failure(StatusNotOK(reply.status, reply.body))
    ensures reply.Received? && reply.status == StatusOK && reply.errorMessage.Some? && reply.errorMessage.value != ""
            ==> r == Failure(ApiError(reply.errorMessage.value))
    ensures reply.Received? && reply.status == StatusOK
            && (reply.errorMessage.None? || reply.errorMessage.value == "") && reply.choices.Failure?
            ==> r == Failure(DecodeFailed(reply.choices.error))
    ensures reply.TransportFailed? ==> r == Failure(RequestFailed(reply.cause))
    ensures reply.BodyUnreadable? ==> r == Failure(ReadFailed(reply.cause))
    ensures r == Failure(NoChoices) <==>
              && reply.Received? && reply.status == StatusOK
              && (reply.errorMessage.None? || reply.errorMessage.value == "")
              && reply.choices == Success([])
  {
    match reply
    case TransportFailed(c) => Failure(RequestFailed(c))
    case BodyUnreadable(c) => Failure(ReadFailed(c))
    case Received(status, body, errorMessage, choices) =>
      if status != StatusOK then Failure(StatusNotOK(status, body))
      else if errorMessage.Some? && errorMessage.value != "" then Failure(ApiError(errorMessage.value))
      else if choices.Failure? then Failure(DecodeFailed(choices.error))
      else if |choices.value| == 0 then Failure(NoChoices)
      else Success(choices.value[0].message.content)
  }

  /** appendHist: the two records are written, or the failed open is fatal
      and nothing is written. */
  method AppendHist(file: HistoryFile, userPrompt: string, reply: string) returns (fatal: Option<string>)
    requires file.Valid()
    modifies file
    ensures file.Valid()
    ensures file.appendError == old(file.appendError)
    ensures fatal.None? <==> old(file.appendError).None?
    ensures fatal.Some? ==> fatal.value == AppendUnopenable + old(file.appendError).value
    ensures file.records == if fatal.None? then old(file.records) + TurnRecords(userPrompt, reply)
                            else old(file.records)
    ensures fatal.None? ==> file.present
    ensures fatal.Some? ==> file.present == old(file.present)
  {
    var err := file.Append(userPrompt, reply);
    if err.Some? {
      return Some(AppendUnopenable + err.value);
    }
    return None;
  }

  /** main: resolve the options, create the history directory, send the
      assembled conversation, print the reply, and with -c append the turn.
      `mkdirError` is what os.MkdirAll reports, `file` the file at
      HistPath(configDir, home), `server` the service's answer
      to a request, and `sent` the request that was posted, if any. */
  method Run(flags: Flags, args: seq<string>, env: Env, stdin: StdinResult, mkdirError: Option<string>,
             file: HistoryFile, server: ChatRequest -> HttpReply)
    returns (out: Outcome, ghost sent: Option<ChatRequest>)
    requires file.Valid()
    modifies file
    ensures file.Valid()
    ensures var p := ParseFlags(flags, args, env, stdin);
            p.Failure? ==> out == Outcome("", Some(p.error)) && sent.None?
    ensures ParseFlags(flags, args, env, stdin).Success? && mkdirError.Some? ==>
              out == Outcome("", mkdirError) && sent.None?
    ensures var p := ParseFlags(flags, args, env, stdin);
            p.Success? && mkdirError.None? ==>
              sent == Some(Request(p.value, Conversation(if p.value.cont then old(file.Messages()) else [],
                                                         p.value.sysPrompt, p.value.userPrompt)))
    ensures sent.Some? && Classify(server(sent.value)).Failure? ==>
              out == Outcome("", Some(Classify(server(sent.value)).error.Text()))
    ensures sent.Some? && Classify(server(sent.value)).Success? ==>
              out.stdout == Classify(server(sent.value)).value + "\n"
              && (out.fatal.Some? <==> flags.cont && old(file.appendError).Some?)
    ensures if sent.Some? && Classify(server(sent.value)).Success? && flags.cont && old(file.appendError).None?
            then file.records == old(file.records)
                                 + TurnRecords(ParseFlags(flags, args, env, stdin).value.userPrompt,
                                               Classify(server(sent.value)).value)
            else file.records == old(file.records)
    ensures file.appendError == old(file.appendError)
    ensures file.present == (old(file.present) || (sent.Some? && Classify(server(sent.value)).Success?
                                                   && flags.cont && old(file.appendError).None?))
    ensures sent.Some? && Classify(server(sent.value)).Success? && flags.cont && old(file.appendError).Some? ==>
              out.fatal == Some(AppendUnopenable + old(file.appendError).value)
  {
    sent := None;
    var parsed := ParseFlags(flags, args, env, stdin);
    if parsed.Failure? {
      return Outcome("", Some(parsed.error)), sent;
    }
    var opts := parsed.value;
    if mkdirError.Some? {
      return Outcome("", mkdirError), sent;
    }
    var msgs := Session.Assemble(opts.cont, file, opts.sysPrompt, opts.userPrompt);
    var req := Request(opts, msgs);
    sent := Some(req);
    var reply := Classify(server(req));
    if reply.Failure? {
      return Outcome("", Some(reply.error.Text())), sent;
    }
    out := Outcome(reply.value + "\n", None);
    if opts.cont {
      var fatal := AppendHist(file, opts.userPrompt, reply.value);
      out := out.(fatal := fatal);
    }
  }
}
