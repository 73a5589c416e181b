/** How the browser and the server fit together over one turn and one whole
    conversation: the browser resends its whole transcript with each turn,
    and the server keeps whatever it is sent. */
module Conversation {
  import opened Wrappers
  import opened Text
  import opened Sessions
  import opened ChatForm
  import Companies
  import Timestamps

  /** Opening a chat end to end. The browser's new line is the server's
      greeting and reads back as such, while the new session starts with an
      empty history: the greeting reaches the server only with the first
      submitted turn. When the call raised, the built-in welcome is shown. */
  lemma OpeningGreeting(st: ChatState, store: Store, leadSource: string, company: string,
                        sessionId: string, configs: Companies.Configs, now: Timestamps.DateTime,
                        greeting: string)
    ensures var server := InitConversation(store, leadSource, company, sessionId, configs, now, greeting);
            var after := StartConversation(st, Returned(server.response));
            && server.store[sessionId].history == []
            && after.history == st.history + [Line(Agent, greeting)]
            && ParseLine(after.history[|st.history|]) == Some((Agent, greeting))
    ensures StartConversation(st, Raised).history == st.history + [Line(Agent, Welcome)]
  {
    var server := InitConversation(store, leadSource, company, sessionId, configs, now, greeting);
    var after := StartConversation(st, Returned(server.response));
    assert after.history[|st.history|] == Line(Agent, greeting);
    LineRoundTrip(Agent, greeting);
  }

  /** One turn end to end. On a known session the server ends up holding the
      browser's transcript minus the agent's newest line, which is the
      model's reply. On an unknown session the server changes nothing and
      the browser shows its own apology: the server's advice to refresh the
      page never reaches the applicant. */
  lemma TurnRoundTrip(st: ChatState, store: Store, sessionId: string, reply: string)
    requires WillSubmit(st)
    ensures var server := ProcessPrompt(store, Strip(st.input), Posted(st), sessionId, reply);
            var after := SubmitQuery(st, Returned(server.response));
            && |after.history| == |st.history| + 2
            && (sessionId in store ==>
                  && server.store[sessionId].history == after.history[..|after.history| - 1]
                  && after.history[|after.history| - 1] == Line(Agent, reply))
            && (sessionId !in store ==>
                  && server.store == store
                  && after.history[|after.history| - 1] == Line(Agent, ProcessError)
                  && after.history[|after.history| - 1] != Line(Agent, NotFoundMessage))
  {
    ApologyIsNotAdvice();
  }

  lemma ApologyIsNotAdvice()
    ensures Line(Agent, ProcessError) != Line(Agent, NotFoundMessage)
  {
    assert |ProcessError| == 52 && |NotFoundMessage| == 53;
  }

  /** A transcript line written by the browser reads back as the speaker and
      message it was written with, so every line of a submitted turn names
      who said it. */
  lemma SubmittedLinesReadBack(st: ChatState, outcome: CallOutcome)
    requires WillSubmit(st)
    ensures var after := SubmitQuery(st, outcome);
            && ParseLine(after.history[|st.history|]) == Some((Trucker, Strip(st.input)))
            && ParseLine(after.history[|st.history| + 1]) == Some((Agent, ReplyText(outcome)))
  {
    var after := SubmitQuery(st, outcome);
    var said, reply := Strip(st.input), ReplyText(outcome);
    assert after.history[|st.history|] == Line(Trucker, said);
    assert after.history[|st.history| + 1] == Line(Agent, reply);
    LineRoundTrip(Trucker, said);
    LineRoundTrip(Agent, reply);
  }
}
