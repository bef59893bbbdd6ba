/** The 9front variant (slm.go): CLIError and its helpers, option
    resolution with the `home` fallback, the history wrappers, the
    decode/choices ladder of sendchat, and main. */
module Slm9front {
  import opened Wrappers
  import opened Platform
  import opened Messages
  import opened History
  import Session

  const HistDir := "lib/llm"
  const HistFile := "llm.history"

  /** The directory ensurehistdir creates: lib/llm under the home directory,
      or the relative lib/llm when the home directory is empty. */
  function HistDirPath(home: string): (dir: string)
    ensures home != "" ==> dir == home + "/" + HistDir
    ensures home == "" ==> dir == HistDir
    ensures dir != ""
  {
    JoinSmall(home, HistDir, "");
    Join([home, HistDir])
  }

  /** histpath: the history file inside the directory ensurehistdir creates. */
  function HistPath(home: string): (path: string)
    ensures path == HistDirPath(home) + "/" + HistFile
  {
    JoinSmall(home, HistDir, HistFile);
    Join([home, HistDir, HistFile])
  }

  const MissingKey := "[ERROR]: OPENAI_API_KEY not set"
  const PromptUnreadable := "[ERROR]: prompt could not be read"
  const DirUncreatable := "[ERROR]: creating history dir:"
  const NoHistory := "no history file or ndb parse error"
  const AppendUnopenable := "[ERROR] open history src: "
  const RequestFailedContext := "[ERROR]: request error: "
  const DecodeFailedContext := "[ERROR]: decode response: "
  const NoChoicesContext := "[ERROR]: no choices in response"

  /** An error with its context; `err` is the text of the wrapped error, None for nil. */
  datatype CLIError = CLIError(context: string, err: Option<string>)
  {
    /** The text the error prints as. */
    function Error(): string
    {
      if err.Some? then context + ": " + err.value else context
    }
  }

  /** wrap: the error prints with its context in front, and the wrapped
      error's text stays recoverable from what is printed. */
  function Wrap(context: string, e: Option<string>): (w: CLIError)
    ensures |w.Error()| >= |context| && w.Error()[..|context|] == context
    ensures Cause(context, w.Error()) == e
  {
    ErrorTextRoundTrip(CLIError(context, e));
    CLIError(context, e)
  }

  /** The wrapped error's text, read back from an error text whose context is known. */
  function Cause(context: string, text: string): Option<string>
  {
    if |text| < |context| + 2 then None else Some(text[|context| + 2..])
  }

  /** An error's text starts with its context, and the wrapped error can be
      read back from the rest: the text loses nothing. */
  lemma ErrorTextRoundTrip(e: CLIError)
    ensures |e.Error()| >= |e.context| && e.Error()[..|e.context|] == e.context
    ensures Cause(e.context, e.Error()) == e.err
  {
    if e.err.Some? {
      var text := e.context + ": " + e.err.value;
      assert text[..|e.context|] == e.context;
      assert text[|e.context| + 2..] == e.err.value;
    }
  }

  /** What a helper asks of the run: carry on, or stop through log.Fatal with a message. */
  datatype Control = Proceed | Exit(message: string)

  /** logit: format the message and stop; it never returns. */
  function Logit(msg: string): (c: Control)
    ensures c.Exit? && c.message == msg
  {
    Exit(Wrap(msg, None).Error())
  }

  /** checkit: the wrapped error is built and dropped; the run carries on
      whatever `err` is. */
  function Checkit(err: Option<string>, context: string): (c: Control)
    ensures c.Proceed?
  {
    Proceed
  }

  /** The directory holding the history file: $home, or $HOME when $home is empty. */
  function Home(env: Env): (h: string)
    ensures Getenv(env, "home") != "" ==> h == Getenv(env, "home")
    ensures Getenv(env, "home") == "" ==> h == Getenv(env, "HOME")
    ensures h == "" <==> Getenv(env, "home") == "" && Getenv(env, "HOME") == ""
  {
    var home := Getenv(env, "home");
    if home == "" then Getenv(env, "HOME") else home
  }

  /** The prompt selection as written: the stdin data is assigned only inside
      the error branch, after a checkit that does not stop the run. */
  function PromptAsWritten(args: seq<string>, stdin: StdinResult): (p: string)
    ensures |args| > 0 ==> p == args[0]
    ensures |args| == 0 && stdin.err.None? ==> p == ""
    ensures |args| == 0 && stdin.err.Some? ==> p == stdin.data
  {
    if |args| > 0 then args[0]
    else if stdin.err.Some? then
      stdin.data
    else ""
  }

  /** With no argument, a successful read of standard input is discarded: the
      prompt sent is empty whatever was read. */
  lemma PromptLostAfterRead(data: string)
    requires data != ""
    ensures PromptAsWritten([], StdinResult(data, None)) == ""
    ensures PromptAsWritten([], StdinResult(data, None)) != data
  {
  }

  /** The prompt selection as intended: the positional argument, otherwise what
      standard input held; a failed read stops the run. */
  function Prompt(args: seq<string>, stdin: StdinResult): (r: Result<string, string>)
    ensures |args| > 0 ==> r == Success(args[0])
    ensures |args| == 0 && stdin.err.None? ==> r == Success(stdin.data)
    ensures |args| == 0 && stdin.err.Some? ==>
              r.Failure? && Cause(PromptUnreadable, r.error) == stdin.err
  {
    if |args| > 0 then Success(args[0])
    else if stdin.err.Some? then
      ErrorTextRoundTrip(Wrap(PromptUnreadable, stdin.err));
      Failure(Wrap(PromptUnreadable, stdin.err).Error())
    else Success(stdin.data)
  }

  /** The resolved options of one run. */
  datatype Opts = Opts(model: string, temp: real, sysPrompt: string, userPrompt: string,
                       cont: bool, apiKey: string, home: string)

  /** parseflags: an empty API key stops the run through logit; otherwise the
      options carry the flags, the key, the prompt and the home directory. */
  function ParseFlags(flags: Flags, args: seq<string>, env: Env, stdin: StdinResult): (r: Result<Opts, string>)
    ensures Getenv(env, ApiKeyVar) == "" ==> r == Failure(MissingKey)
    ensures r.Success? <==> Getenv(env, ApiKeyVar) != "" && Prompt(args, stdin).Success?
    ensures r.Success? ==> r.value.apiKey == Getenv(env, ApiKeyVar) && r.value.apiKey != ""
    ensures r.Success? ==> r.value.userPrompt == Prompt(args, stdin).value && r.value.home == Home(env)
    ensures r.Success? ==> r.value.model == flags.model && r.value.temp == flags.temp
                           && r.value.sysPrompt == flags.sysPrompt && r.value.cont == flags.cont
  {
    var apiKey := Getenv(env, ApiKeyVar);
    if apiKey == "" then Failure(Logit(MissingKey).message)
    else
      var userPrompt := Prompt(args, stdin);
      if userPrompt.Failure? then Failure(userPrompt.error)
      else Success(Opts(flags.model, flags.temp, flags.sysPrompt, userPrompt.value, flags.cont,
                        apiKey, Home(env)))
  }

  /** ensurehistdir: a failure of os.MkdirAll goes to checkit, so the run goes on. */
  function EnsureHistDir(mkdirError: Option<string>): (c: Control)
    ensures c == Proceed
  {
    if mkdirError.Some? then Checkit(mkdirError, DirUncreatable) else Proceed
  }

  /** What loadhist reaches: the scanned messages, or db.Search on the nil
      handle of a failed ndb.Open, whose effect lies in ndb. */
  datatype Loaded = Loaded(msgs: seq<Message>) | SearchedUnopened

  /** loadhist as written: after a failed open, checkit lets the run go on to
      search the database that was never opened. */
  method LoadHistAsWritten(file: HistoryFile) returns (r: Loaded)
    ensures file.present ==> r == Loaded(Kept(file.records))
    ensures !file.present ==> r == SearchedUnopened
  {
    var db := file.Open();
    if db.Failure? {
      var c := Checkit(Some(db.error), NoHistory);
      assert c.Proceed?;
      return SearchedUnopened;
    }
    var msgs := ScanRecords(db.value);
    return Loaded(msgs);
  }

  /** The request sendchat posts for these options and messages. */
  function Request(opts: Opts, msgs: seq<Message>): ChatRequest
  {
    MakeRequest(opts.model, opts.temp, msgs, opts.apiKey)
  }

  /** sendchat's ladder: neither the status nor an embedded error message is
      looked at; the body must decode and hold a choice. */
  function Classify(reply: HttpReply): (r: Result<string, CLIError>)
    ensures r.Success? <==> reply.Received? && reply.choices.Success? && |reply.choices.value| > 0
    ensures r.Success? ==> r.value == reply.choices.value[0].message.content
    ensures reply.Received? && reply.choices == Success([]) ==> r == Failure(Wrap(NoChoicesContext, None))
    ensures reply.Received? && reply.choices.Failure? ==>
              r == Failure(Wrap(DecodeFailedContext, Some(reply.choices.error)))
    ensures reply.TransportFailed? ==> r == Failure(Wrap(RequestFailedContext, Some(reply.cause)))
    ensures reply.BodyUnreadable? ==> r == Failure(Wrap(DecodeFailedContext, Some(reply.cause)))
  {
    match reply
    case TransportFailed(c) => Failure(Wrap(RequestFailedContext, Some(c)))
    case BodyUnreadable(c) => Failure(Wrap(DecodeFailedContext, Some(c)))
    case Received(_, _, _, choices) =>
      if choices.Failure? then Failure(Wrap(DecodeFailedContext, Some(choices.error)))
      else if |choices.value| == 0 then Failure(Wrap(NoChoicesContext, None))
      else Success(choices.value[0].message.content)
  }

  /** appendhist: the two records are written, or the failed open stops the
      run through logit and nothing is written. */
  method AppendHist(file: HistoryFile, userPrompt: string, reply: string) returns (fatal: Option<string>)
    requires file.Valid()
    modifies file
    ensures file.Valid()
    ensures file.appendError == old(file.appendError)
    ensures fatal.None? <==> old(file.appendError).None?
    ensures fatal.Some? ==> fatal.value == AppendUnopenable
    ensures file.records == if fatal.None? then old(file.records) + TurnRecords(userPrompt, reply)
                            else old(file.records)
    ensures fatal.None? ==> file.present
    ensures fatal.Some? ==> file.present == old(file.present)
  {
    var err := file.Append(userPrompt, reply);
    if err.Some? {
      return Some(Logit(AppendUnopenable).message);
    }
    return None;
  }

  /** main: resolve the options, try to create the history directory, send
      the assembled conversation, print the reply, and with -c append the
      turn. `file` is the file at HistPath(Home(env)). */
  method Run(flags: Flags, args: seq<string>, env: Env, stdin: StdinResult, mkdirError: Option<string>,
             file: HistoryFile, server: ChatRequest -> HttpReply)
    returns (out: Outcome, ghost sent: Option<ChatRequest>)
    requires file.Valid()
    modifies file
    ensures file.Valid()
    ensures var p := ParseFlags(flags, args, env, stdin);
            p.Failure? ==> out == Outcome("", Some(p.error)) && sent.None?
    ensures var p := ParseFlags(flags, args, env, stdin);
            p.Success? ==>
              sent == Some(Request(p.value, Conversation(if p.value.cont then old(file.Messages()) else [],
                                                         p.value.sysPrompt, p.value.userPrompt)))
    ensures sent.Some? && Classify(server(sent.value)).Failure? ==>
              out == Outcome("", Some(Classify(server(sent.value)).error.Error()))
    ensures sent.Some? && Classify(server(sent.value)).Success? ==>
              out.stdout == Classify(server(sent.value)).value + "\n"
              && (out.fatal.Some? <==> flags.cont && old(file.appendError).Some?)
    ensures if sent.Some? && Classify(server(sent.value)).Success? && flags.cont && old(file.appendError).None?
            then file.records == old(file.records)
                                 + TurnRecords(ParseFlags(flags, args, env, stdin).value.userPrompt,
                                               Classify(server(sent.value)).value)
            else file.records == old(file.records)
    ensures file.appendError == old(file.appendError)
    ensures file.present == (old(file.present) || (sent.Some? && Classify(server(sent.value)).Success?
                                                   && flags.cont && old(file.appendError).None?))
    ensures sent.Some? && Classify(server(sent.value)).Success? && flags.cont && old(file.appendError).Some? ==>
              out.fatal == Some(AppendUnopenable)
  {
    sent := None;
    var parsed := ParseFlags(flags, args, env, stdin);
    if parsed.Failure? {
      return Outcome("", Some(parsed.error)), sent;
    }
    var opts := parsed.value;
    var c := EnsureHistDir(mkdirError);
    var msgs := Session.Assemble(opts.cont, file, opts.sysPrompt, opts.userPrompt);
    var req := Request(opts, msgs);
    sent := Some(req);
    var reply := Classify(server(req));
    if reply.Failure? {
      return Outcome("", Some(reply.error.Error())), sent;
    }
    out := Outcome(reply.value + "\n", None);
    if opts.cont {
      var fatal := AppendHist(file, opts.userPrompt, reply.value);
      out := out.(fatal := fatal);
    }
  }
}
