/** The part of main both variants share: the message list sent to the
    service, and what a continued conversation carries into the next run. */
module Session {
  import opened Messages
  import opened History

  /** main's assembly: the history only when -c is set, then the system
      prompt when one was given, then the user's prompt. */
  method Assemble(cont: bool, file: HistoryFile, sysPrompt: string, userPrompt: string)
    returns (msgs: seq<Message>)
    ensures msgs == Conversation(if cont then file.Messages() else [], sysPrompt, userPrompt)
    ensures |msgs| == (if cont then |file.Messages()| else 0) + (if sysPrompt != "" then 1 else 0) + 1
    ensures msgs[|msgs| - 1] == Message(User, userPrompt)
  {
    msgs := [];
    if cont {
      msgs := Load(file);
    }
    if sysPrompt != "" {
      msgs := msgs + [Message(System, sysPrompt)];
    }
    msgs := msgs + [Message(User, userPrompt)];
  }

  /** After a continued run has appended its turn, the next continued run sends
      the earlier history, then that prompt and reply, before anything new. */
  lemma NextRunSeesTurn(recs: seq<Record>, userPrompt: string, reply: string,
                        sysPrompt: string, nextPrompt: string)
    requires userPrompt != "" && reply != ""
    ensures var msgs := Conversation(Kept(recs + TurnRecords(userPrompt, reply)), sysPrompt, nextPrompt);
            |msgs| >= |Kept(recs)| + 3 &&
            msgs[..|Kept(recs)| + 2] == Kept(recs) + [Message(User, userPrompt), Message(Assistant, reply)]
  {
    TurnRoundTrip(recs, userPrompt, reply);
  }
}
