/** The values exchanged with the chat-completion service: messages, the
    request built from them, and the reply as far as the program looks at it. */
module Messages {
  import opened Wrappers

  const System := "system"
  const User := "user"
  const Assistant := "assistant"

  const ApiUrl := "https://api.openai.com/v1/chat/completions"

  /** The HTTP status the Linux variant treats as success (http.StatusOK). */
  const StatusOK := 200

  /** One conversation turn. History records may carry any non-empty role. */
  datatype Message = Message(role: string, content: string)

  /** One candidate reply of a chat-completion response. */
  datatype Choice = Choice(message: Message)

  /** The POST the program sends: JSON body fields and the Authorization
      header value (bearer form of section 2.1 of RFC 6750). */
  datatype ChatRequest = ChatRequest(
    url: string,
    model: string,
    temperature: real,
    messages: seq<Message>,
    authorization: string)

  /** A request carrying `messages` for the given model, temperature and key. */
  function MakeRequest(model: string, temp: real, msgs: seq<Message>, apiKey: string): (req: ChatRequest)
    ensures req.url == ApiUrl && req.messages == msgs
    ensures req.model == model && req.temperature == temp
    ensures |req.authorization| == 7 + |apiKey|
    ensures req.authorization[..7] == "Bearer " && req.authorization[7..] == apiKey
  {
    ChatRequest(ApiUrl, model, temp, msgs, "Bearer " + apiKey)
  }

  /** What came back from the service, already decoded.
      `errorMessage` is the body decoded as `{"error":{"message":…}}`: None when
      that decoding fails, Some("") when the field is absent.
      `choices` is the body decoded as `{"choices":[…]}`, or the decoder's error. */
  datatype HttpReply =
    | TransportFailed(cause: string)
    | BodyUnreadable(cause: string)
    | Received(status: int, body: string, errorMessage: Option<string>,
               choices: Result<seq<Choice>, string>)

  /** The message list sent to the service: the history, then the system
      prompt when one was given, then the user's prompt. */
  function Conversation(history: seq<Message>, sysPrompt: string, userPrompt: string): (msgs: seq<Message>)
    ensures |msgs| == |history| + (if sysPrompt != "" then 1 else 0) + 1
    ensures msgs[..|history|] == history
    ensures msgs[|msgs| - 1] == Message(User, userPrompt)
    ensures sysPrompt != "" ==> msgs[|history|] == Message(System, sysPrompt)
    ensures forall k :: |history| <= k < |msgs| ==> msgs[k].role in {System, User}
  {
    history + (if sysPrompt != "" then [Message(System, sysPrompt)] else []) + [Message(User, userPrompt)]
  }
}
