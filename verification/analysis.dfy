/** Turning the language model's end-of-chat replies into the values that are
    recorded: the sentiment score and the qualification decision with its
    reason (`summarize_conversation` in ServerModule1.py). The replies
    themselves are arbitrary strings. */
module Analysis {
  import opened Wrappers
  import opened Text
  import opened Decimal

  const NeutralScore := 3
  const QualifiedToken := "QUALIFIED"
  const NotQualifiedToken := "NOT_QUALIFIED"
  const ReasonLimit := 100

  /** The score recorded from the reply to the 1-to-5 rating prompt: the
      stripped reply read as an integer, or 3 when it does not read as one or
      lies outside 1..5. */
  function SentimentScore(reply: string): (score: int)
    ensures 1 <= score <= 5
    ensures score != NeutralScore ==> ParseInt(Strip(reply)) == Some(score)
    ensures ParseInt(Strip(reply)).Some? && 1 <= ParseInt(Strip(reply)).value <= 5 ==>
              score == ParseInt(Strip(reply)).value
  {
    match ParseInt(Strip(reply))
    case Some(v) => if v < 1 || v > 5 then NeutralScore else v
    case None => NeutralScore
  }

  /** A reply that is one integer, surrounded by any whitespace, is recorded
      as that integer when it lies in 1..5 and as 3 otherwise. */
  lemma SentimentOfNumber(pre: string, n: int, post: string)
    requires AllSpace(pre) && AllSpace(post)
    ensures SentimentScore(pre + ShowInt(n) + post) == if 1 <= n <= 5 then n else NeutralScore
  {
    var s := ShowInt(n);
    assert !IsSpace(s[0]) && !IsSpace(s[|s| - 1]);
    StripExact(pre, s, post);
    ParseShowInt(n);
  }

  datatype Decision = Decision(qualified: bool, reason: string)

  /** The decision read from the reply to the qualification prompt. The token
      test ignores case; the token removal that yields the reason does not. */
  function ParseDecision(reply: string): (d: Decision)
    ensures d.qualified <==>
              Contains(Upper(reply), QualifiedToken) && !Contains(Upper(reply), NotQualifiedToken)
    ensures d.reason == Strip(RemoveAll(reply, if d.qualified then QualifiedToken else NotQualifiedToken))
  {
    var upper := Upper(reply);
    if Contains(upper, QualifiedToken) && !Contains(upper, NotQualifiedToken) then
      Decision(true, Strip(RemoveAll(reply, QualifiedToken)))
    else
      Decision(false, Strip(RemoveAll(reply, NotQualifiedToken)))
  }

  /** The reason as written to the decisions log: at most its first 100
      characters. */
  function RecordedReason(d: Decision): (r: string)
    ensures |r| <= ReasonLimit && |r| <= |d.reason|
    ensures r == d.reason[..|r|]
    ensures |d.reason| <= ReasonLimit ==> r == d.reason
    ensures |d.reason| > ReasonLimit ==> |r| == ReasonLimit
  {
    Take(d.reason, ReasonLimit)
  }

  /** Whatever surrounds it, a reply containing NOT_QUALIFIED, spelt exactly,
      is never recorded as qualified, even when QUALIFIED appears as well;
      its reason is the reply without the NOT_QUALIFIED tokens, stripped. */
  lemma NegationNeverQualifies(pre: string, post: string)
    ensures ParseDecision(pre + NotQualifiedToken + post) ==
              Decision(false, Strip(RemoveAll(pre + NotQualifiedToken + post, NotQualifiedToken)))
  {
    var reply := pre + NotQualifiedToken + post;
    UpperFixed(NotQualifiedToken);
    UpperConcat(pre, NotQualifiedToken);
    UpperConcat(pre + NotQualifiedToken, post);
    assert OccursAt(Upper(reply), NotQualifiedToken, |pre|);
  }

  /** The token test ignores case: a negation in any case prevents a
      qualified decision. */
  lemma NegationAnyCase(reply: string, i: int)
    requires OccursAt(Upper(reply), NotQualifiedToken, i)
    ensures !ParseDecision(reply).qualified
  {
  }

  /** The removal does not ignore case: when the affirmative token appears
      only in lower or mixed case, the decision is qualified and the token
      survives in the reason, which is the whole stripped reply. */
  lemma CaseSensitiveReason(reply: string)
    requires Contains(Upper(reply), QualifiedToken)
    requires !Contains(Upper(reply), NotQualifiedToken)
    requires !Contains(reply, QualifiedToken)
    ensures ParseDecision(reply) == Decision(true, Strip(reply))
  {
    RemoveAllIdentity(reply, QualifiedToken);
  }

  /** The affirmative test is a plain substring test, so a negation written
      with a space instead of an underscore is recorded as qualified. */
  lemma SpacedNegationQualifies()
    ensures ParseDecision("NOT QUALIFIED") == Decision(true, "NOT")
  {
    SpacedNegationTokens();
    SpacedNegationRemoval();
    StripExact([], "NOT", " ");
    assert [] + "NOT" + " " == "NOT ";
  }

  lemma SpacedNegationTokens()
    ensures Upper("NOT QUALIFIED") == "NOT QUALIFIED"
    ensures Contains("NOT QUALIFIED", QualifiedToken)
    ensures !Contains("NOT QUALIFIED", NotQualifiedToken)
  {
    var reply := "NOT QUALIFIED";
    UpperFixed(reply);
    assert OccursAt(reply, QualifiedToken, 4);
    assert reply[0..|NotQualifiedToken|][3] != NotQualifiedToken[3];
  }

  lemma SpacedNegationRemoval()
    ensures RemoveAll("NOT QUALIFIED", QualifiedToken) == "NOT "
  {
    var reply := "NOT QUALIFIED";
    assert reply[4..] == QualifiedToken;
    assert RemoveAll(reply[4..], QualifiedToken) == [];
    assert reply[3..][..9][0] != 'Q';
    assert RemoveAll(reply[3..], QualifiedToken) == " ";
    assert reply[2..][..9][0] != 'Q';
    assert RemoveAll(reply[2..], QualifiedToken) == "T ";
    assert reply[1..][..9][0] != 'Q';
    assert RemoveAll(reply[1..], QualifiedToken) == "OT ";
    assert reply[..9][0] != 'Q';
  }
}
