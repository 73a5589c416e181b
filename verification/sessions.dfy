/** The server's conversation handlers (ServerModule1.py) and the in-memory
    session map they share. Every language-model reply is a parameter, as are
    the current time and the loaded configuration. */
module Sessions {
  import opened Wrappers
  import opened Text
  import opened Companies
  import opened Timestamps
  import opened Analysis

  /** One applicant's conversation as the server remembers it. */
  datatype Session = Session(history: seq<string>, startTime: DateTime, leadSource: string,
                             company: string, companyConfig: CompanyConfig)

  /** `conversation_sessions`: at most one session per session id. */
  type Store = map<string, Session>

  /** The part of a handler's result dictionary the browser reads: the
      `success` flag and the `message` entry, when there is one. */
  datatype Response = Response(success: bool, message: Option<string>)

  const NotFoundMessage := "Please refresh the page and start a new conversation."
  const SummarizedMessage := "Conversation summarized and analyzed successfully"

  /** How many of the most recent transcript lines the agent is shown. */
  const ContextWindow := 10

  datatype InitResult = InitResult(store: Store, response: Response)

  /** `init_conversation`: (re)creates the session with an empty history and
      returns the agent's greeting. */
  function InitConversation(store: Store, leadSource: string, company: string, sessionId: string,
                            configs: Configs, now: DateTime, greeting: string): (r: InitResult)
    ensures r.response == Response(true, Some(greeting))
    ensures r.store.Keys == store.Keys + {sessionId}
    ensures r.store[sessionId].history == []
    ensures r.store[sessionId].startTime == now
    ensures r.store[sessionId].leadSource == leadSource && r.store[sessionId].company == company
    ensures r.store[sessionId].companyConfig ==
              (if SelectCompany(Some(company)) == CompanyB then configs.companyB else configs.companyA)
    ensures r.store - {sessionId} == store - {sessionId}
  {
    var session := Session([], now, leadSource, company, GetCompanyConfig(configs, Some(company)));
    InitResult(store[sessionId := session], Response(true, Some(greeting)))
  }

  /** The transcript text the agent is shown: the last ten lines, or all of
      them when there are fewer, one per line. */
  function Context(history: seq<string>): string {
    Join(TakeLast(history, ContextWindow), "\n")
  }

  datatype ProcessResult = ProcessResult(store: Store, response: Response, context: Option<string>)

  /** `process_prompt`: an unknown session id fails and changes nothing;
      otherwise the stored history is replaced by the one the browser sent and
      the agent's reply is returned. */
  function ProcessPrompt(store: Store, userInput: string, history: seq<string>, sessionId: string,
                         reply: string): (r: ProcessResult)
    ensures sessionId !in store <==> !r.response.success
    ensures sessionId !in store ==>
              r.store == store && r.response == Response(false, Some(NotFoundMessage)) && r.context == None
    ensures sessionId in store ==> r.store.Keys == store.Keys
    ensures sessionId in store ==> r.store[sessionId] == store[sessionId].(history := history)
    ensures sessionId in store ==> r.store - {sessionId} == store - {sessionId}
    ensures sessionId in store ==>
              r.response == Response(true, Some(reply)) && r.context == Some(Context(history))
  {
    if sessionId !in store then
      ProcessResult(store, Response(false, Some(NotFoundMessage)), None)
    else
      var session := store[sessionId].(history := history);
      var updated := store[sessionId := session];
      assert updated - {sessionId} == store - {sessionId};
      ProcessResult(updated, Response(true, Some(reply)), Some(Context(history)))
  }

  /** The context hands the agent exactly the last ten lines (or all of them),
      in order: when no line holds a line break, splitting it at line breaks
      gives them back. */
  lemma ContextWindowLines(history: seq<string>)
    requires history != []
    requires forall i :: 0 <= i < |history| ==> '\n' !in history[i]
    ensures Split(Context(history), '\n') == history[|history| - (if |history| <= 10 then |history| else 10)..]
  {
    var window := TakeLast(history, ContextWindow);
    forall i | 0 <= i < |window|
      ensures '\n' !in window[i]
    {
      assert window[i] == history[|history| - |window| + i];
    }
    SplitJoin(window, '\n');
  }

  /** A log row of `results/sentiment.csv`, without its time of writing. */
  datatype SentimentRow = SentimentRow(company: string, leadSource: string, score: int, conversation: string)

  /** A log row of `results/decisions.csv`, without its time of writing. */
  datatype DecisionRow = DecisionRow(company: string, leadSource: string, qualified: bool, reason: string)

  /** Everything one successful summary writes: the transcript file (its
      path and the lines written after its header), the summary file (its path
      and text), and one row for each log. */
  datatype Records = Records(auditPath: string, transcript: seq<string>, summaryPath: string,
                             summary: string, sentiment: SentimentRow, decision: DecisionRow)

  datatype SummarizeResult = SummarizeResult(store: Store, response: Response, records: Option<Records>)

  /** `summarize_conversation`. The three replies are the model's answers to
      the summary, rating and qualification prompts; `writesSucceed` says
      whether the file writes went through. A failed write aborts the
      handler before the session is dropped. */
  function SummarizeConversation(store: Store, history: seq<string>, start: DateTime, end: DateTime,
                                 leadSource: string, company: string, sessionId: string,
                                 summaryReply: string, sentimentReply: string, decisionReply: string,
                                 writesSucceed: bool): (r: SummarizeResult)
    requires Valid(start) && Valid(end)
    ensures r.response.success <==> writesSucceed
    ensures !writesSucceed ==> r.store == store && r.response == Response(false, None) && r.records == None
    ensures writesSucceed ==>
              && r.store == store - {sessionId}
              && r.response == Response(true, Some(SummarizedMessage))
              && r.records.Some?
              && r.records.value.transcript == history
              && r.records.value.auditPath == "results/audit/conversation_" + Tag(start, end) + ".txt"
              && r.records.value.summaryPath == "results/summary/summary_" + Tag(start, end) + ".txt"
              && r.records.value.summary == summaryReply
              && r.records.value.sentiment ==
                   SentimentRow(company, leadSource, SentimentScore(sentimentReply), "conversation_" + Tag(start, end))
              && r.records.value.decision ==
                   DecisionRow(company, leadSource, ParseDecision(decisionReply).qualified,
                               RecordedReason(ParseDecision(decisionReply)))
  {
    if !writesSucceed then
      SummarizeResult(store, Response(false, None), None)
    else
      var tag := Tag(start, end);
      var decision := ParseDecision(decisionReply);
      var records := Records(
        "results/audit/conversation_" + tag + ".txt",
        history,
        "results/summary/summary_" + tag + ".txt",
        summaryReply,
        SentimentRow(company, leadSource, SentimentScore(sentimentReply), "conversation_" + tag),
        DecisionRow(company, leadSource, decision.qualified, RecordedReason(decision)));
      SummarizeResult(store - {sessionId}, Response(true, Some(SummarizedMessage)), Some(records))
  }

  /** The stored session is looked up but never used: what a summary records
      depends only on the caller's arguments, so it is the same whether the
      session was known, already summarized, or never created. */
  lemma SummaryIgnoresStore(s1: Store, s2: Store, history: seq<string>, start: DateTime, end: DateTime,
                            leadSource: string, company: string, sessionId: string,
                            summaryReply: string, sentimentReply: string, decisionReply: string)
    requires Valid(start) && Valid(end)
    requires sessionId in s1 && sessionId !in s2
    ensures var r1 := SummarizeConversation(s1, history, start, end, leadSource, company, sessionId,
                                            summaryReply, sentimentReply, decisionReply, true);
            var r2 := SummarizeConversation(s2, history, start, end, leadSource, company, sessionId,
                                            summaryReply, sentimentReply, decisionReply, true);
            r1.response == r2.response && r1.records == r2.records && sessionId !in r1.store
  {
  }

  /** Summarizing the same session twice succeeds both times, and the two
      conversations share file names exactly when their start and end times
      agree to the second. */
  lemma SummarizeTwice(store: Store, history: seq<string>, start1: DateTime, end1: DateTime,
                       start2: DateTime, end2: DateTime, leadSource: string, company: string,
                       sessionId: string, replies1: (string, string, string), replies2: (string, string, string))
    requires Valid(start1) && Valid(end1) && Valid(start2) && Valid(end2)
    ensures var r1 := SummarizeConversation(store, history, start1, end1, leadSource, company, sessionId,
                                            replies1.0, replies1.1, replies1.2, true);
            var r2 := SummarizeConversation(r1.store, history, start2, end2, leadSource, company, sessionId,
                                            replies2.0, replies2.1, replies2.2, true);
            && r1.response.success && r2.response.success
            && r2.store == store - {sessionId}
            && (r1.records.value.auditPath == r2.records.value.auditPath <==>
                  ToSecond(start1) == ToSecond(start2) && ToSecond(end1) == ToSecond(end2))
  {
    var r1 := SummarizeConversation(store, history, start1, end1, leadSource, company, sessionId,
                                    replies1.0, replies1.1, replies1.2, true);
    var r2 := SummarizeConversation(r1.store, history, start2, end2, leadSource, company, sessionId,
                                    replies2.0, replies2.1, replies2.2, true);
    var tag1, tag2 := Tag(start1, end1), Tag(start2, end2);
    var prefix := "results/audit/conversation_";
    var p1, p2 := prefix + tag1 + ".txt", prefix + tag2 + ".txt";
    assert r1.records.value.auditPath == p1 && r2.records.value.auditPath == p2;
    assert r2.store == store - {sessionId} by {
      assert r2.store == (store - {sessionId}) - {sessionId};
    }
    assert p1 == p2 ==> tag1 == tag2 by {
      if p1 == p2 {
        assert p1[|prefix|..|prefix| + 31] == tag1;
        assert p2[|prefix|..|prefix| + 31] == tag2;
      }
    }
    TagCollision(start1, end1, start2, end2);
  }

  /** One call of `process_prompt` as the browser makes it. */
  datatype Turn = Turn(userInput: string, history: seq<string>, reply: string)

  /** The session map after a run of turns on one session id. */
  function ProcessTurns(store: Store, sessionId: string, turns: seq<Turn>): (r: Store)
    requires sessionId in store
    ensures sessionId in r && r.Keys == store.Keys
    ensures r[sessionId] ==
              store[sessionId].(history := if turns == [] then store[sessionId].history
                                           else turns[|turns| - 1].history)
    ensures r - {sessionId} == store - {sessionId}
    decreases |turns|
  {
    if turns == [] then store
    else
      var last := turns[|turns| - 1];
      var before := ProcessTurns(store, sessionId, turns[..|turns| - 1]);
      ProcessPrompt(before, last.userInput, last.history, sessionId, last.reply).store
  }

  /** A whole conversation on the server: initialize, any number of turns,
      then a successful summary. Every turn succeeds, the session's last
      history is the one sent with the last turn, and afterwards the session
      is gone while every other session is exactly as it was before. */
  lemma {:induction false} Lifecycle(store: Store, leadSource: string, company: string, sessionId: string,
                                     configs: Configs, now: DateTime, greeting: string, turns: seq<Turn>,
                                     end: DateTime, replies: (string, string, string))
    requires Valid(now) && Valid(end)
    ensures var s1 := InitConversation(store, leadSource, company, sessionId, configs, now, greeting).store;
            var s2 := ProcessTurns(s1, sessionId, turns);
            && (forall k :: 0 <= k < |turns| ==>
                  ProcessPrompt(ProcessTurns(s1, sessionId, turns[..k]), turns[k].userInput,
                                turns[k].history, sessionId, turns[k].reply).response.success)
            && s2[sessionId].history == (if turns == [] then [] else turns[|turns| - 1].history)
            && SummarizeConversation(s2, s2[sessionId].history, now, end, leadSource, company, sessionId,
                                     replies.0, replies.1, replies.2, true).store
               == store - {sessionId}
  {
    var s1 := InitConversation(store, leadSource, company, sessionId, configs, now, greeting).store;
    var s2 := ProcessTurns(s1, sessionId, turns);
    forall k | 0 <= k < |turns|
      ensures sessionId in ProcessTurns(s1, sessionId, turns[..k])
    {
    }
    assert s2 - {sessionId} == store - {sessionId};
    assert (s2 - {sessionId}).Keys == s2.Keys - {sessionId};
  }
}
