# slm — a Dafny model of the chat CLI's sequential core

`slm` is a small command-line client for a chat-completion service, in two
near-identical variants: a Linux build (`slm-linux.go`) and a 9front build
(`slm.go`). One run resolves its options from flags, the environment and
standard input, optionally loads earlier turns from an ndb history file,
posts one request, prints the first choice of the reply and, when `-c` is
set, appends the prompt and the reply to the history file.

This project models the parts of that run with behaviour worth stating,
over abstract inputs: the environment as a map, standard input as the
result of one read, the history file as the records ndb parses out of it,
and the service's answer as an already-decoded reply.

- `wrappers.dfy` — `Option` and `Result`.
- `platform.dfy` — environment lookup, the stdin result, the parsed flags
  with their defaults, the run's outcome (what is printed, and the message
  of a `log.Fatal`), and `%d` rendering.
- `messages.dfy` — messages, choices, the request with its
  `Authorization: Bearer <key>` value (section 2.1 of RFC 6750), the
  decoded reply, and the conversation sent to the service.
- `history.dfy` — the record scan (last `role` and last `content` win; a
  record counts only when both are non-empty; order is kept), the history
  file as a class whose `records` only grow by appends, and the round trip
  of append then load.
- `session.dfy` — the message assembly both `main` functions share.
- `slm_linux.dfy`, `slm_9front.dfy` — each variant's option resolution,
  history wrappers, `sendChat`/`sendchat` ladder and `main`.
- `variants.dfy` — how the two ladders and prompt choices relate, and the
  three representative service answers (a 500 with `{"error":{}}`, a 200
  with `hello`, a 200 with no choices) worked through both ladders.

Behaviour of the code worth noting:
- Messages loaded from history carry whatever non-empty role the record
  holds, not only `system`, `user` or `assistant`.
- Neither variant checks that the user prompt is non-empty.
- In the 9front variant `checkit` (slm.go:76-80) never stops the run. A
  failed `os.MkdirAll` in `ensurehistdir` is therefore ignored rather than
  fatal (`Slm9front.EnsureHistDir`).
- The 9front `loadhist` does not recover from a missing history file. This
  is listed under Findings.

`Slm9front.ParseFlags` and `Slm9front.Run` use the corrected members of the
two findings below. The as-written members sit beside them, with what they
do stated.

## Model

| member | source | states |
|---|---|---|
| Messages.MakeRequest | slm-linux.go:166-177 | The request goes to the fixed API URL, carries the model, the temperature and the messages unchanged, and its Authorization value is exactly "Bearer " followed by the API key |
| Messages.Conversation | slm-linux.go:60-67 | The message list is the history, then a system message only when a system prompt was given, then the user's prompt last; its length is history + (1 if system prompt) + 1, and everything after the history has role system or user |
| History.LastValueIsLast | slm-linux.go:138-146 | Within a record, the value kept for an attribute is that of its last tuple with the attribute; it is "" when no tuple has the attribute |
| History.Kept | slm-linux.go:136-151 | The scan yields at most one message per record, and every message it yields has a non-empty role and a non-empty content |
| History.KeptIsSubsequence | slm-linux.go:135-151 | The loaded messages are a subsequence of the records: record j contributes if and only if its final role and final content are both non-empty, contributions keep record order (strictly increasing positions), and each is that record's final (role, content) |
| History.KeptAppend | slm-linux.go:137-150 | Scanning records a ++ b gives the scan of a followed by the scan of b (each record is judged on its own) |
| History.TurnRoundTrip | slm-linux.go:154-163 | Appending a turn and loading again gives the earlier messages, then {user, prompt}, then {assistant, reply}; a part that is empty is not read back |
| History.ScanRecords | slm-linux.go:135-151 | The nested tuple loop of loadHist/loadhist computes exactly the scan: last-wins values per record, both non-empty, in record order |
| History.HistoryFile.Append | slm-linux.go:155-162 | When the file opens for append, exactly two records are added, user then assistant, after the unchanged earlier records (none when the file was missing, since O_CREATE makes it empty); when it does not, nothing changes. It keeps `Valid()`: a file that is not there holds no records |
| History.Load | slm-linux.go:130-152 | A history file ndb cannot open yields no messages, without stopping the run; otherwise the scan of its records |
| Session.Assemble | slm-linux.go:60-67 | The list main builds equals the conversation over the loaded history (History.Load, which returns no history when the file cannot be opened) when -c is set and over nothing otherwise; it ends with {user, prompt}. The 9front main (slm.go:86-93) uses it with that corrected load |
| Session.NextRunSeesTurn | slm-linux.go:60-77 | After a continued run appends a non-empty prompt and reply, the next continued run sends the earlier history, then that prompt and reply, before anything new |
| SlmLinux.Prompt | slm-linux.go:92-101 | A positional argument wins over standard input; without one the prompt is all of standard input, and a failed read is fatal with the read error in the message |
| SlmLinux.ParseFlags | slm-linux.go:80-111 | An empty OPENAI_API_KEY is fatal before the prompt is looked at; otherwise the options carry the flags, the non-empty key and the prompt |
| SlmLinux.Classify | slm-linux.go:179-212 | Success exactly when the status is 200, no non-empty embedded error message is present, the body decodes and has a choice, and then it is the first choice's content; a transport or body-read failure gives its error first; a non-200 status gives the status and body before any JSON is looked at; a non-empty embedded message is an error even on 200; a body that does not decode gives the decode error with its cause; empty choices give the no-choices error |
| SlmLinux.ChatError.Text | slm-linux.go:179-211 | The text log.Fatal prints for a sendChat failure: a non-200 status and an embedded error message read "OpenAI API error: ", every other failure "[ERROR] ", and it ends with the underlying error, the response body or the service's message |
| SlmLinux.AppendHist | slm-linux.go:154-163 | Either the two records are appended and the file exists afterwards, or opening the file fails, the run stops with "[ERROR] opening history file: " and the cause, and nothing is written |
| SlmLinux.Run | slm-linux.go:54-78 | A resolution or directory failure stops the run before any request; otherwise the request carries the conversation over the history (only with -c); a ladder failure prints nothing and writes nothing; a success prints the reply and, only with -c, appends exactly that prompt and reply, after which the file exists; a failed append stops the run with "[ERROR] opening history file: " and the cause, after the reply was printed |
| SlmLinux.HistDirPath | slm-linux.go:113-120 | The directory ensureHistDir creates is <config dir>/slm, or <home>/.config/slm when the configuration directory cannot be found (the relative .config/slm when home is empty too); it is never empty |
| SlmLinux.HistPath | slm-linux.go:122-124 | The history file is history.ndb inside that directory |
| Slm9front.HistDirPath | slm.go:145-147 | The directory ensurehistdir creates is <home>/lib/llm, and the relative lib/llm when the home directory is empty; it is never empty |
| Slm9front.HistPath | slm.go:152-154 | The history file is llm.history inside that directory |
| Slm9front.ErrorTextRoundTrip | slm.go:60-65 | A CLIError prints as its context, followed by ": " and the wrapped error's text when there is one; the wrapped text can be read back, so nothing is lost |
| Slm9front.Wrap | slm.go:60-69 | wrap's error prints as its context followed by the wrapped error's text, and that text can be read back from the printed one |
| Slm9front.Logit | slm.go:71-74 | logit always stops the run, and the message printed is the formatted message itself |
| Slm9front.Checkit | slm.go:76-80 | checkit never stops the run, whatever error it is given |
| Slm9front.Home | slm.go:129-132 | The home directory is $home when non-empty, else $HOME; it is empty only when both are |
| Slm9front.PromptAsWritten | slm.go:118-127 | As written: a positional argument is the prompt; without one, a successful read gives the empty prompt, and only a failed read gives the data read |
| Slm9front.PromptLostAfterRead | slm.go:118-127 | As written, a successful read of non-empty standard input still yields the empty prompt |
| Slm9front.Prompt | slm.go:118-127 | Corrected: a positional argument wins; otherwise the prompt is what standard input held, and a failed read stops the run with the read error recoverable from the message |
| Slm9front.ParseFlags | slm.go:106-143 | Corrected: built on the corrected prompt choice. An empty OPENAI_API_KEY stops the run through logit; otherwise the options carry the flags, the non-empty key, the prompt and the home directory |
| Slm9front.EnsureHistDir | slm.go:145-150 | A failure to create the history directory does not stop the run |
| Slm9front.LoadHistAsWritten | slm.go:156-179 | As written: a readable file yields the scan of its records; a file ndb cannot open leads on to a search of the unopened database instead of an empty history |
| Slm9front.Classify | slm.go:207-221 | Success exactly when a reply was received whose body decodes with a non-empty choice list, whatever its status or embedded error; then it is the first choice's content; a transport failure, a decode failure and empty choices are errors with their contexts |
| Slm9front.AppendHist | slm.go:181-191 | Either the two records are appended and the file exists afterwards, or opening the file fails, the run stops through logit and nothing is written |
| Slm9front.Run | slm.go:82-104 | Corrected: built on the corrected prompt choice and History.Load. Same shape as the Linux main, but a directory failure is ignored and the request goes out after any resolution success; the fatal message of a ladder failure is the CLIError's text; a successful append leaves the file existing, and a failed one stops the run with "[ERROR] open history src: " |
| Variants.LinuxAcceptsLess | slm-linux.go:191-212 | Every reply the Linux ladder accepts, the 9front ladder accepts with the same content |
| Variants.LaddersAgreeOnCleanOK | slm.go:213-220 | On a 200 reply with no embedded error message both ladders agree on success and on the content |
| Variants.NineFrontIgnoresFailures | slm.go:213-220 | A non-200 status or a non-empty embedded error, with choices present, fails in the Linux ladder and succeeds in the 9front one |
| Variants.ServerErrorReply | slm-linux.go:192-194 | A 500 with body {"error":{}} is reported by the Linux ladder with its status and body; the 9front ladder reports no choices |
| Variants.HelloAndEmptyReplies | slm-linux.go:205-212 | A 200 whose one choice says "hello" yields "hello" in both variants; a 200 with no choices fails in both |
| Variants.PromptsAgree | slm.go:118-127 | The corrected 9front prompt choice succeeds exactly when the Linux one does, with the same prompt |

## Left out

- HTTP transport: `http.NewRequest`, `http.DefaultClient.Do` and reading the body are network I/O. Their results are inputs: a transport failure, an unreadable body, or a received status and body. `http.NewRequest` with the constant URL cannot fail and is not modelled.
- JSON encoding and decoding (`encoding/json`) is library code. A decoded reply is given as its two decodings, the embedded `error.message` and the choice list. `json.Marshal` of the request fails only for a non-finite temperature, which the real-valued temperature cannot express, so that error path is absent. The difference between `json.Unmarshal` (Linux) and `json.NewDecoder(...).Decode` (9front), such as trailing data after the first value, is not modelled.
- ndb parsing and `db.Search("role", "")` are foreign library code. The search is taken to return the database's records in file order. A record without a `role` tuple contributes nothing to the scan either way.
- The `%q` quoting of the appended lines, and ndb's reading of them, are library code. A written line is taken to read back as the record `message= role=<role> content=<text>`.
- A history file that exists but does not parse is not modelled: `ndb.Open` fails only when the file is absent.
- Paths: `os.UserConfigDir`, `os.UserHomeDir` and `os.MkdirAll` are filesystem calls. What `os.UserConfigDir` and `os.UserHomeDir` return are parameters of `SlmLinux.HistDirPath`. `Platform.Join` skips empty elements and joins the others with "/", as `filepath.Join` does. It does not clean the result: repeated or trailing slashes, `.` and `..` inside an element are kept as given. The directory call's result is an input, and the history file is given as the object at the path, which `Run` does not tie to `HistPath`.
- The `flag` package: parsed flags and the positional arguments are inputs. The flag defaults are recorded only in the `Flags` doc comment. The temperature is a `real` that is only passed through, with no floating-point rounding.
- `log.Fatal` is not a real exit: it is the run's `fatal` message. The timestamp prefix `log` adds is not modelled. `fmt.Println` is the reply followed by a newline in `stdout`.
- Slm9front.AppendHist: the fatal message is only the format string. The `%!(EXTRA …)` suffix that `fmt.Sprintf` adds for the error argument the format has no verb for is not modelled.
- Slm9front.ParseFlags: uses the corrected prompt choice, not slm.go:118-127 as written. With no argument and a successful stdin read of "hi", the code's prompt is "" and the model's is "hi". On a failed read the code carries on with the partial data, while the model stops with "[ERROR]: prompt could not be read: " and the cause. The as-written choice is `Slm9front.PromptAsWritten`.
- Slm9front.Run: uses the corrected members, so it differs from slm.go:82-104 as written in three cases. The two prompt cases are those of `Slm9front.ParseFlags` above. With `-c` and no history file, the code goes on to call `db.Search` on the database that never opened (slm.go:158-162), while the model sends an empty history. The as-written load is `Slm9front.LoadHistAsWritten`.
- History.HistoryFile.Append: assumes that the writes succeed once the file is open. `appendHist` and `appendhist` ignore what `fmt.Fprintf` returns, so a write error after a successful open can leave fewer than two records, or a partial one. Such write errors are not modelled.
- Slm9front.Logit: takes the already formatted message. `fmt.Sprintf` formatting of its arguments is not modelled.
- Concurrent runs writing the same history file are not modelled. The program does no locking.

## Findings

| source | as written | input that shows it | evidently intended | confidence | as-written member | corrected member |
|---|---|---|---|---|---|---|
| slm.go:118-127 | `userp = string(data)` sits inside `if err != nil`, after a `checkit` that does not stop the run | no positional argument, and standard input reads "hi" without error: the prompt sent is "" | the prompt is what was read, and a failed read stops the run, as in slm-linux.go:96-100 | high (not executed) | Slm9front.PromptLostAfterRead | Slm9front.Prompt |
| slm.go:158-162 | a failed `ndb.Open` goes to `checkit`, which returns, and `db.Search` is then called on the unopened database | `-c` on a first run, when the history file does not exist yet | no history, with the run going on, as in slm-linux.go:131-134 | high (not executed) | Slm9front.LoadHistAsWritten | History.Load |
