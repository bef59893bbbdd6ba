/** How the two variants' sendChat ladders and prompt choices relate, and
    three representative service answers worked through both ladders. */
module Variants {
  import opened Wrappers
  import opened Platform
  import opened Messages
  import SlmLinux
  import Slm9front

  /** Whenever the Linux ladder accepts a reply, the 9front ladder accepts it
      too, with the same content: the Linux checks only add failures. */
  lemma LinuxAcceptsLess(reply: HttpReply)
    ensures SlmLinux.Classify(reply).Success? ==>
              Slm9front.Classify(reply) == Success(SlmLinux.Classify(reply).value)
  {
  }

  /** On a 200 reply with no embedded error message the two ladders agree on
      success and on the content returned. */
  lemma LaddersAgreeOnCleanOK(reply: HttpReply)
    requires reply.Received? && reply.status == StatusOK
    requires reply.errorMessage.None? || reply.errorMessage.value == ""
    ensures SlmLinux.Classify(reply).Success? <==> Slm9front.Classify(reply).Success?
    ensures SlmLinux.Classify(reply).Success? ==>
              SlmLinux.Classify(reply).value == Slm9front.Classify(reply).value
  {
  }

  /** The 9front ladder returns a choice's content from a failed status or an
      error-carrying body, where the Linux ladder reports the failure. */
  lemma NineFrontIgnoresFailures(status: int, body: string, errorMessage: Option<string>, cs: seq<Choice>)
    requires |cs| > 0
    requires status != StatusOK || (errorMessage.Some? && errorMessage.value != "")
    ensures SlmLinux.Classify(Received(status, body, errorMessage, Success(cs))).Failure?
    ensures Slm9front.Classify(Received(status, body, errorMessage, Success(cs))) == Success(cs[0].message.content)
  {
  }

  /** A 500 whose body `{"error":{}}` decodes to an empty message and no
      choices: the Linux ladder reports the status and body; the 9front ladder,
      which never looks at the status, reports that there were no choices. */
  lemma ServerErrorReply(body: string)
    ensures SlmLinux.Classify(Received(500, body, Some(""), Success([])))
            == Failure(SlmLinux.StatusNotOK(500, body))
    ensures Slm9front.Classify(Received(500, body, Some(""), Success([])))
            == Failure(Slm9front.Wrap(Slm9front.NoChoicesContext, None))
  {
  }

  /** A 200 whose single choice says "hello" yields "hello" in both variants;
      a 200 with an empty choice list is the empty-response error in both. */
  lemma HelloAndEmptyReplies(body: string)
    ensures SlmLinux.Classify(Received(200, body, Some(""), Success([Choice(Message(Assistant, "hello"))])))
            == Success("hello")
    ensures Slm9front.Classify(Received(200, body, Some(""), Success([Choice(Message(Assistant, "hello"))])))
            == Success("hello")
    ensures SlmLinux.Classify(Received(200, body, Some(""), Success([]))) == Failure(SlmLinux.NoChoices)
    ensures Slm9front.Classify(Received(200, body, Some(""), Success([]))).Failure?
  {
  }

  /** The corrected 9front prompt choice is the Linux one: same prompt, same
      cases of failure. */
  lemma PromptsAgree(args: seq<string>, stdin: StdinResult)
    ensures SlmLinux.Prompt(args, stdin).Success? <==> Slm9front.Prompt(args, stdin).Success?
    ensures SlmLinux.Prompt(args, stdin).Success? ==>
              SlmLinux.Prompt(args, stdin).value == Slm9front.Prompt(args, stdin).value
  {
  }
}
