/** The stage that asks a follow-up question on the current topic
    (agents/probing_agent.py). */
module ProbingAgent {
  import opened Text
  import opened InterviewState
  import opened BaseAgent

  const DisplayName: string := "\U{1F50D} Probing Agent"

  /** The record the model is prompted with: the topic counter already
      advanced. */
  function Prompted(st: State): (p: State)
    ensures p.topicIterationCount == st.topicIterationCount + 1
    ensures p.conversationHistory == st.conversationHistory
  {
    st.(currentAgent := DisplayName, topicIterationCount := st.topicIterationCount + 1)
  }

  /** The topic counter goes up by one, the model's follow-up becomes the
      current question and is recorded, the answer is cleared and the
      interview waits. */
  function Probe(st: State, model: Model): (r: State)
    ensures r.currentAgent == DisplayName && SameCourse(st, r)
    ensures r.topicIterationCount == st.topicIterationCount + 1
    ensures r.judgeRetryCount == st.judgeRetryCount && r.interviewComplete == st.interviewComplete
    ensures r.currentTopic == st.currentTopic
    ensures r.userAnswer == "" && r.waitingForUserInput
    ensures r.currentQuestion == Strip(model(Prompted(st)).content) && Trimmed(r.currentQuestion)
    ensures r.lastMessageTokens == TokenCount(model(Prompted(st)))
    ensures r.conversationHistory == st.conversationHistory + [FollowUp(r.currentQuestion, r.lastMessageTokens)]
    ensures r.totalTokens == st.totalTokens + r.lastMessageTokens
    ensures FollowUpsThisTopic(r.conversationHistory) == FollowUpsThisTopic(st.conversationHistory) + 1
    ensures r.(currentAgent := st.currentAgent, topicIterationCount := st.topicIterationCount,
               currentQuestion := st.currentQuestion, lastMessageTokens := st.lastMessageTokens,
               totalTokens := st.totalTokens, conversationHistory := st.conversationHistory,
               userAnswer := st.userAnswer, waitingForUserInput := st.waitingForUserInput) == st
  {
    var s1 := Prompted(st);
    var reply := model(s1);
    var question := Strip(reply.content);
    var s2 := TrackTokens(s1.(currentQuestion := question), reply);
    var entry := FollowUp(question, s2.lastMessageTokens);
    FollowUpsAppend(st.conversationHistory, entry);
    s2.(conversationHistory := s2.conversationHistory + [entry], userAnswer := "", waitingForUserInput := true)
  }
}
