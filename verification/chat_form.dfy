/** The browser side of a chat (ChatForm/__init__.py): the transcript kept
    in `conversation_history`, the input box with its character counter, and
    the `conversation_active` flag. Server calls are represented by what they
    returned, or by `Raised` when the call itself failed; the confirmation
    dialog is represented by the applicant's answer. */
module ChatForm {
  import opened Wrappers
  import opened Text
  import opened Decimal
  import Sessions

  const MaxChars := 1000
  const CounterSuffix := "/1000 characters"

  const Trucker := "Trucker"
  const Agent := "Screenpass"

  const Welcome := "Welcome! I'm here to help you with your trucking career."
  const ProcessError := "I'm sorry, I encountered an error. Please try again."
  const Farewell := "Thank you for your time! The conversation has been saved and analyzed."
  const SaveError := "Chat ended, but there was an error saving the summary."

  /** The result of one `anvil.server.call`. */
  datatype CallOutcome = Returned(response: Sessions.Response) | Raised

  datatype ChatState = ChatState(history: seq<string>, input: string, counter: string, active: bool)

  /** The character counter's text for an input of `n` characters. */
  function CounterLabel(n: nat): string {
    Show(n) + CounterSuffix
  }

  /** A freshly opened chat: empty transcript, empty input, the counter the
      page template starts with, and an active conversation. */
  const Initial := ChatState([], "", "0/1000 characters", true)

  /** The counter always shows the length of the input, and the input never
      exceeds 1000 characters. */
  predicate Consistent(st: ChatState) {
    |st.input| <= MaxChars && st.counter == CounterLabel(|st.input|)
  }

  lemma InitialConsistent()
    ensures Consistent(Initial)
  {
    assert Show(0) == "0";
  }

  lemma ShowThousand()
    ensures Show(1000) == "1000"
  {
    assert Show(1) == "1";
    assert Show(10) == "10";
    assert Show(100) == "100";
  }

  /** `update_char_count`: an input longer than 1000 characters is cut to its
      first 1000, and the counter is updated. */
  function UpdateCharCount(st: ChatState): (r: ChatState)
    ensures |r.input| <= MaxChars
    ensures |st.input| <= MaxChars ==> r.input == st.input
    ensures |st.input| > MaxChars ==> r.input == st.input[..MaxChars]
    ensures Consistent(r)
    ensures r.history == st.history && r.active == st.active
  {
    if |st.input| > MaxChars then
      ShowThousand();
      st.(input := st.input[..MaxChars], counter := "1000/1000 characters")
    else
      st.(counter := CounterLabel(|st.input|))
  }

  /** Capping is idempotent: a second update changes nothing. */
  lemma UpdateCharCountIdempotent(st: ChatState)
    ensures UpdateCharCount(UpdateCharCount(st)) == UpdateCharCount(st)
  {
  }

  /** One transcript line. */
  function Line(speaker: string, message: string): string {
    ">" + speaker + ": " + message
  }

  /** Reads a transcript line back into speaker and message. */
  function ParseLine(line: string): Option<(string, string)> {
    if |line| >= 1 && line[0] == '>' && ':' in line[1..] then
      var body := line[1..];
      var k := IndexOf(body, ':');
      if k + 1 < |body| && body[k + 1] == ' ' then Some((body[..k], body[k + 2..])) else None
    else None
  }

  /** A line names its speaker and message unambiguously when the speaker's
      name holds no colon, as with "Trucker" and "Screenpass". */
  lemma LineRoundTrip(speaker: string, message: string)
    requires ':' !in speaker
    ensures ParseLine(Line(speaker, message)) == Some((speaker, message))
  {
    var line := Line(speaker, message);
    var body := line[1..];
    assert body == speaker + [':'] + (" " + message);
    IndexOfAfter(speaker, ':', " " + message);
    assert body[..|speaker|] == speaker;
    assert body[|speaker| + 2..] == message;
  }

  /** `add_message_to_chat`: exactly one line is appended to the transcript
      and the earlier lines stay as they were. */
  function AddMessage(history: seq<string>, speaker: string, message: string): (r: seq<string>)
    ensures |r| == |history| + 1
    ensures r[..|history|] == history
    ensures r[|history|] == Line(speaker, message)
  {
    history + [Line(speaker, message)]
  }

  /** `start_conversation`: the greeting is shown whatever happened; the
      built-in welcome stands in when the server gave none. */
  function StartConversation(st: ChatState, outcome: CallOutcome): (r: ChatState)
    ensures r.history == AddMessage(st.history, Agent, match outcome
                                     case Returned(resp) =>
                                       ValueOr(resp.message, if resp.success then "" else Welcome)
                                     case Raised => Welcome)
    ensures r.input == st.input && r.counter == st.counter && r.active == st.active
  {
    var greeting :=
      match outcome
      case Returned(resp) => if resp.success then ValueOr(resp.message, "") else ValueOr(resp.message, Welcome)
      case Raised => Welcome;
    st.(history := AddMessage(st.history, Agent, greeting))
  }

  /** Whether a click on Submit goes ahead: the stripped input is non-empty
      and the conversation is still active. */
  predicate WillSubmit(st: ChatState) {
    Strip(st.input) != [] && st.active
  }

  /** The transcript sent with `process_prompt`: it already ends with the
      applicant's new line. */
  function Posted(st: ChatState): seq<string> {
    AddMessage(st.history, Trucker, Strip(st.input))
  }

  /** The agent's line shown after a turn: the reply on success, the built-in
      apology on a failed or raised call. */
  function ReplyText(outcome: CallOutcome): string {
    match outcome
    case Returned(resp) => if resp.success then ValueOr(resp.message, "") else ProcessError
    case Raised => ProcessError
  }

  /** `submit_query`. A blank input or an ended conversation changes nothing.
      Otherwise the applicant's stripped message and then the agent's answer
      are appended, the input is cleared and the counter reset. */
  function SubmitQuery(st: ChatState, outcome: CallOutcome): (r: ChatState)
    ensures !WillSubmit(st) ==> r == st
    ensures WillSubmit(st) ==> |r.history| == |st.history| + 2
    ensures WillSubmit(st) ==> r.history[..|st.history| + 1] == Posted(st)
    ensures WillSubmit(st) ==> r.history[|st.history|] == Line(Trucker, Strip(st.input))
    ensures WillSubmit(st) ==> r.history[|st.history| + 1] == Line(Agent, ReplyText(outcome))
    ensures WillSubmit(st) ==> r.history[..|st.history|] == st.history
    ensures WillSubmit(st) ==> r.input == [] && Consistent(r) && r.active
  {
    if !WillSubmit(st) then st
    else
      var cleared := UpdateCharCount(st.(history := Posted(st), input := []));
      var r := cleared.(history := AddMessage(cleared.history, Agent, ReplyText(outcome)));
      assert r.history[..|st.history| + 1] == Posted(st);
      r
  }

  /** `end_chat`. Nothing happens on an ended conversation or when the
      applicant does not confirm. Otherwise the conversation ends and exactly
      one closing line is appended, whether the summary succeeded or not. */
  function EndChat(st: ChatState, confirmed: bool, outcome: CallOutcome): (r: ChatState)
    ensures !st.active || !confirmed ==> r == st
    ensures st.active && confirmed ==>
              && !r.active
              && r.history == AddMessage(st.history, Agent,
                                         if outcome.Returned? && outcome.response.success then Farewell
                                         else SaveError)
              && r.input == st.input && r.counter == st.counter
  {
    if !st.active || !confirmed then st
    else
      var closing := if outcome.Returned? && outcome.response.success then Farewell else SaveError;
      st.(active := false, history := AddMessage(st.history, Agent, closing))
  }

  /** Something the applicant or the page does. `Typed` is a change of the
      input box followed by its counter update. */
  datatype Event =
    | Started(outcome: CallOutcome)
    | Typed(text: string)
    | Submitted(outcome: CallOutcome)
    | EndRequested(confirmed: bool, outcome: CallOutcome)

  function Step(st: ChatState, e: Event): (r: ChatState)
    ensures |st.history| <= |r.history| && r.history[..|st.history|] == st.history
    ensures !st.active ==> !r.active
    ensures st.active && !r.active ==> e.EndRequested? && e.confirmed
    ensures Consistent(st) ==> Consistent(r)
  {
    match e
    case Started(outcome) => StartConversation(st, outcome)
    case Typed(text) => UpdateCharCount(st.(input := text))
    case Submitted(outcome) => SubmitQuery(st, outcome)
    case EndRequested(confirmed, outcome) => EndChat(st, confirmed, outcome)
  }

  /** The state after a sequence of events. */
  function Run(st: ChatState, events: seq<Event>): (r: ChatState)
    ensures |st.history| <= |r.history| && r.history[..|st.history|] == st.history
    ensures !st.active ==> !r.active
    ensures Consistent(st) ==> Consistent(r)
    ensures st.active && !r.active ==>
              exists i | 0 <= i < |events| :: events[i].EndRequested? && events[i].confirmed
    decreases |events|
  {
    if events == [] then st
    else
      var before := Run(st, events[..|events| - 1]);
      var e := events[|events| - 1];
      var r := Step(before, e);
      assert r.history[..|st.history|] == before.history[..|st.history|];
      assert st.active && !r.active && before.active ==> events[|events| - 1].EndRequested? && events[|events| - 1].confirmed;
      r
  }

  /** Once a conversation has ended it stays ended: no later event sets
      `conversation_active` back to true, and the transcript only grows. */
  lemma {:induction false} EndedStaysEnded(st: ChatState, events: seq<Event>, more: seq<Event>)
    requires !Run(st, events).active
    ensures !Run(st, events + more).active
    ensures Run(st, events).history <= Run(st, events + more).history
    decreases |more|
  {
    if more != [] {
      var n := |more| - 1;
      assert (events + more)[..|events + more| - 1] == events + more[..n];
      EndedStaysEnded(st, events, more[..n]);
      var mid := Run(st, events + more[..n]);
      var last := Run(st, events + more);
      assert last == Step(mid, more[n]);
      var a := Run(st, events).history;
      assert a == mid.history[..|a|] == last.history[..|mid.history|][..|a|];
      assert a == last.history[..|a|];
    } else {
      assert events + more == events;
    }
  }
}
