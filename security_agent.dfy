/** The stage that checks an answer before it is judged
    (agents/security_agent.py). */
module SecurityAgent {
  import opened Wrappers
  import opened Text
  import opened InterviewState
  import opened BaseAgent

  const DisplayName: string := "\U{1F512} Security Agent"
  const NoAnswer: string := "No answer provided"
  const TooShort: string := "Please provide a more detailed answer"

  /** The fallback verdict when the reply is not JSON: an answer passes
      exactly when it is longer than ten characters. */
  function LenientVerdict(answer: string): (v: (bool, string))
    ensures v.0 <==> |answer| > 10
    ensures v.1 == "" <==> v.0
  {
    if |answer| > 10 then (true, "") else (false, TooShort)
  }

  /** An answer made only of no-break and ideographic spaces is blank:
      the stage rejects it with the fixed feedback, charges no tokens and
      leaves the history alone. */
  lemma WideSpaceRejected(st: State, model: Model, decode: Decoder)
    requires forall k :: 0 <= k < |st.userAnswer| ==>
      st.userAnswer[k] == '\U{A0}' || st.userAnswer[k] == '\U{3000}'
    ensures IsBlank(st.userAnswer)
    ensures var r := Validate(st, model, decode);
      !r.securityPassed && r.securityFeedback == NoAnswer &&
      r.totalTokens == st.totalTokens && r.conversationHistory == st.conversationHistory
  {
    StripEmpty(st.userAnswer);
  }

  /** The record as the stage holds it when it consults the model. */
  function Prompted(st: State): State {
    st.(currentAgent := DisplayName, waitingForUserInput := false)
  }

  /** The record after the model's reply to `Prompted(st)` with the given
      verdict: the reply's tokens are charged, the verdict is stored, a pass
      resets the retry counter and the answer is recorded with its verdict. */
  function Recorded(st: State, reply: Reply, verdict: (bool, string)): (r: State)
    ensures r.currentAgent == DisplayName && !r.waitingForUserInput
    ensures r.securityPassed == verdict.0 && r.securityFeedback == verdict.1
    ensures r.judgeRetryCount == if verdict.0 then 0 else st.judgeRetryCount
    ensures r.lastMessageTokens == TokenCount(reply)
    ensures r.totalTokens == st.totalTokens + r.lastMessageTokens
    ensures r.conversationHistory == st.conversationHistory +
      [UserAnswer(st.currentQuestion, st.userAnswer, verdict.0)]
    ensures r.(currentAgent := st.currentAgent, waitingForUserInput := st.waitingForUserInput,
               securityPassed := st.securityPassed, securityFeedback := st.securityFeedback,
               judgeRetryCount := st.judgeRetryCount, lastMessageTokens := st.lastMessageTokens,
               totalTokens := st.totalTokens, conversationHistory := st.conversationHistory) == st
  {
    var s2 := TrackTokens(Prompted(st), reply);
    s2.(securityPassed := verdict.0, securityFeedback := verdict.1,
        judgeRetryCount := if verdict.0 then 0 else st.judgeRetryCount,
        conversationHistory := st.conversationHistory + [UserAnswer(st.currentQuestion, st.userAnswer, verdict.0)])
  }

  /** A blank answer fails without consulting the model and leaves the
      history alone. Otherwise the model's verdict decides (absent fields
      read as failed and no feedback), the lenient length rule stands in
      when the reply is not JSON, and the answer is recorded with its
      verdict. A pass resets the retry counter. The stage never waits. */
  function Validate(st: State, model: Model, decode: Decoder): (r: State)
    ensures r.currentAgent == DisplayName && !r.waitingForUserInput && SameCourse(st, r)
    ensures r.currentQuestion == st.currentQuestion && r.userAnswer == st.userAnswer
    ensures r.topicIterationCount == st.topicIterationCount && r.currentTopic == st.currentTopic
    ensures r.interviewComplete == st.interviewComplete
    ensures r.judgeRetryCount == if r.securityPassed then 0 else st.judgeRetryCount
    ensures r.(currentAgent := st.currentAgent, waitingForUserInput := st.waitingForUserInput,
               securityPassed := st.securityPassed, securityFeedback := st.securityFeedback,
               judgeRetryCount := st.judgeRetryCount, lastMessageTokens := st.lastMessageTokens,
               totalTokens := st.totalTokens, conversationHistory := st.conversationHistory) == st
    ensures IsBlank(st.userAnswer) ==>
      && !r.securityPassed && r.securityFeedback == NoAnswer
      && r.conversationHistory == st.conversationHistory && r.totalTokens == st.totalTokens
      && r.lastMessageTokens == st.lastMessageTokens
    ensures !IsBlank(st.userAnswer) ==>
      && r.conversationHistory == st.conversationHistory +
           [UserAnswer(st.currentQuestion, st.userAnswer, r.securityPassed)]
      && r.lastMessageTokens == TokenCount(model(Prompted(st)))
      && r.totalTokens == st.totalTokens + r.lastMessageTokens
    ensures !IsBlank(st.userAnswer) ==>
      var answer := decode(StripFences(model(Prompted(st)).content));
      && (answer.Some? ==> r.securityPassed == answer.value.passed.GetOr(false) &&
                           r.securityFeedback == answer.value.feedback.GetOr(""))
      && (answer.None? ==> (r.securityPassed <==> |st.userAnswer| > 10) &&
                           r.securityFeedback == LenientVerdict(st.userAnswer).1)
  {
    var s1 := Prompted(st);
    if IsBlank(st.userAnswer) then
      s1.(securityPassed := false, securityFeedback := NoAnswer)
    else
      var reply := model(s1);
      var verdict := match decode(StripFences(reply.content))
        case Some(v) => (v.passed.GetOr(false), v.feedback.GetOr(""))
        case None => LenientVerdict(st.userAnswer);
      Recorded(st, reply, verdict)
  }
}
