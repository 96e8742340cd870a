/** The stage that decides whether the current topic has been covered
    deeply enough (agents/topic_guide.py). */
module TopicGuide {
  import opened Wrappers
  import opened Text
  import opened InterviewState
  import opened BaseAgent

  const DisplayName: string := "\U{1F4CA} Topic Guide"
  const MaxIterationsReached: string := "Max iterations reached"
  const GoodCoverage: string := "Good coverage"

  /** The fallback when the reply is not JSON: an answer longer than fifty
      characters counts as deep enough. */
  function LenientDepth(answer: string): (d: bool)
    ensures d <==> |answer| > 50
  {
    |answer| > 50
  }

  /** The record as the stage holds it when it consults the model. */
  function Prompted(st: State): State {
    st.(currentAgent := DisplayName, topicIterationCount := st.topicIterationCount + 1)
  }

  /** The record after the model's reply to `Prompted(st)` with the given
      depth and feedback: the reply's tokens are charged, the verdict is
      stored and the evaluation is recorded. */
  function Recorded(st: State, reply: Reply, verdict: (bool, string)): (r: State)
    ensures r.currentAgent == DisplayName && r.topicIterationCount == st.topicIterationCount + 1
    ensures r.topicDepthSufficient == verdict.0 && r.topicFeedback == verdict.1
    ensures r.lastMessageTokens == TokenCount(reply)
    ensures r.totalTokens == st.totalTokens + r.lastMessageTokens
    ensures r.conversationHistory == st.conversationHistory +
      [DepthEvaluation(verdict.1, verdict.0, r.lastMessageTokens)]
    ensures FollowUpsThisTopic(r.conversationHistory) == FollowUpsThisTopic(st.conversationHistory)
    ensures r.(currentAgent := st.currentAgent, topicIterationCount := st.topicIterationCount,
               topicDepthSufficient := st.topicDepthSufficient, topicFeedback := st.topicFeedback,
               lastMessageTokens := st.lastMessageTokens, totalTokens := st.totalTokens,
               conversationHistory := st.conversationHistory) == st
  {
    var s2 := TrackTokens(Prompted(st), reply);
    var entry := DepthEvaluation(verdict.1, verdict.0, s2.lastMessageTokens);
    FollowUpsAppend(st.conversationHistory, entry);
    s2.(topicDepthSufficient := verdict.0, topicFeedback := verdict.1,
        conversationHistory := st.conversationHistory + [entry])
  }

  /** The topic counter goes up by one. Reaching the limit settles the
      topic as covered without consulting the model or touching the
      history; otherwise the model's verdict decides (absent fields read as
      not deep enough and no feedback), the length rule stands in when the
      reply is not JSON, and the evaluation is recorded. */
  function Evaluate(st: State, model: Model, decode: Decoder): (r: State)
    ensures r.currentAgent == DisplayName && SameCourse(st, r)
    ensures r.topicIterationCount == st.topicIterationCount + 1
    ensures r.judgeRetryCount == st.judgeRetryCount && r.interviewComplete == st.interviewComplete
    ensures r.currentQuestion == st.currentQuestion && r.userAnswer == st.userAnswer
    ensures r.securityPassed == st.securityPassed && r.waitingForUserInput == st.waitingForUserInput
    ensures r.topicIterationCount >= r.maxIterationsPerTopic ==>
      && r.topicDepthSufficient && r.topicFeedback == MaxIterationsReached
      && r.conversationHistory == st.conversationHistory && r.totalTokens == st.totalTokens
      && r.lastMessageTokens == st.lastMessageTokens
      && r.(currentAgent := st.currentAgent, topicIterationCount := st.topicIterationCount,
            topicDepthSufficient := st.topicDepthSufficient, topicFeedback := st.topicFeedback) == st
    ensures r.topicIterationCount < r.maxIterationsPerTopic ==>
      && r.conversationHistory == st.conversationHistory +
           [DepthEvaluation(r.topicFeedback, r.topicDepthSufficient, r.lastMessageTokens)]
      && r.lastMessageTokens == TokenCount(model(Prompted(st)))
      && r.totalTokens == st.totalTokens + r.lastMessageTokens
      && r.(currentAgent := st.currentAgent, topicIterationCount := st.topicIterationCount,
            topicDepthSufficient := st.topicDepthSufficient, topicFeedback := st.topicFeedback,
            lastMessageTokens := st.lastMessageTokens, totalTokens := st.totalTokens,
            conversationHistory := st.conversationHistory) == st
    ensures r.topicIterationCount < r.maxIterationsPerTopic ==>
      var verdict := decode(StripFences(model(Prompted(st)).content));
      && (verdict.Some? ==> r.topicDepthSufficient == verdict.value.depthSufficient.GetOr(false) &&
                            r.topicFeedback == verdict.value.feedback.GetOr(""))
      && (verdict.None? ==> (r.topicDepthSufficient <==> |st.userAnswer| > 50) && r.topicFeedback == GoodCoverage)
    ensures FollowUpsThisTopic(r.conversationHistory) == FollowUpsThisTopic(st.conversationHistory)
  {
    var s1 := Prompted(st);
    if s1.topicIterationCount >= s1.maxIterationsPerTopic then
      s1.(topicDepthSufficient := true, topicFeedback := MaxIterationsReached)
    else
      var reply := model(s1);
      var verdict := match decode(StripFences(reply.content))
        case Some(v) => (v.depthSufficient.GetOr(false), v.feedback.GetOr(""))
        case None => (LenientDepth(st.userAnswer), GoodCoverage);
      Recorded(st, reply, verdict)
  }
}
