/** The stage that writes the closing assessment
    (agents/feedback_agent.py). */
module FeedbackAgent {
  import opened Text
  import opened InterviewState
  import opened BaseAgent

  const DisplayName: string := "\U{1F4DD} Feedback Agent"

  /** The record the model is prompted with. */
  function Prompted(st: State): (p: State)
    ensures p.conversationHistory == st.conversationHistory && p.currentAgent == DisplayName
  {
    st.(currentAgent := DisplayName)
  }

  /** The model's assessment becomes the current message and is recorded,
      and the interview is complete. The `finalFeedback` field is left as
      it was: the stage never writes it. */
  function Summarize(st: State, model: Model): (r: State)
    ensures r.currentAgent == DisplayName && SameCourse(st, r)
    ensures r.interviewComplete
    ensures r.finalFeedback == st.finalFeedback
    ensures r.waitingForUserInput == st.waitingForUserInput
    ensures r.topicIterationCount == st.topicIterationCount && r.judgeRetryCount == st.judgeRetryCount
    ensures r.currentQuestion == Strip(model(Prompted(st)).content) && Trimmed(r.currentQuestion)
    ensures r.lastMessageTokens == TokenCount(model(Prompted(st)))
    ensures r.conversationHistory == st.conversationHistory + [FinalAssessment(r.currentQuestion, r.lastMessageTokens)]
    ensures r.totalTokens == st.totalTokens + r.lastMessageTokens
    ensures r.(currentAgent := st.currentAgent, currentQuestion := st.currentQuestion,
               lastMessageTokens := st.lastMessageTokens, totalTokens := st.totalTokens,
               conversationHistory := st.conversationHistory,
               interviewComplete := st.interviewComplete) == st
  {
    var s1 := Prompted(st);
    var reply := model(s1);
    var text := Strip(reply.content);
    var s2 := TrackTokens(s1, reply);
    s2.(currentQuestion := text, conversationHistory := s2.conversationHistory + [FinalAssessment(text, s2.lastMessageTokens)],
        interviewComplete := true)
  }
}
