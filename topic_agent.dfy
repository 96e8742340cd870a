/** The stage that opens a topic with its first question
    (agents/topic_agent.py). */
module TopicAgent {
  import opened Wrappers
  import opened Text
  import opened InterviewState
  import opened BaseAgent

  const DisplayName: string := "\U{1F3AF} Topic Agent"

  /** The record the model is prompted with: the topic at the current
      index made current and both counters restarted. */
  function Prompted(st: State): (p: State)
    requires st.currentTopicIndex < |st.topics|
    ensures p.currentTopic == Some(st.topics[st.currentTopicIndex])
    ensures p.topicIterationCount == 0 && p.judgeRetryCount == 0
  {
    st.(currentAgent := DisplayName, currentTopic := Some(st.topics[st.currentTopicIndex]),
        topicIterationCount := 0, judgeRetryCount := 0)
  }

  /** Past the end of the catalog the stage only marks the interview
      complete. Otherwise it makes the topic at the current index the
      current topic, restarts both counters, asks the model for the opening
      question, records it and waits for the answer. */
  function AskQuestion(st: State, model: Model): (r: State)
    ensures r.currentAgent == DisplayName && SameCourse(st, r)
    ensures st.currentTopicIndex >= |st.topics| ==>
      r == st.(currentAgent := DisplayName, interviewComplete := true)
    ensures st.currentTopicIndex < |st.topics| ==>
      && r.currentTopic == Some(st.topics[st.currentTopicIndex])
      && r.topicIterationCount == 0 && r.judgeRetryCount == 0
      && r.waitingForUserInput && r.interviewComplete == st.interviewComplete
      && r.currentQuestion == Strip(model(Prompted(st)).content)
      && r.lastMessageTokens == TokenCount(model(Prompted(st)))
      && Trimmed(r.currentQuestion)
      && r.conversationHistory == st.conversationHistory +
           [TopicQuestion(st.topics[st.currentTopicIndex].topic, r.currentQuestion, r.lastMessageTokens)]
      && r.totalTokens == st.totalTokens + r.lastMessageTokens
      && Bounded(r)
      && r.(currentAgent := st.currentAgent, currentTopic := st.currentTopic,
            topicIterationCount := st.topicIterationCount, judgeRetryCount := st.judgeRetryCount,
            currentQuestion := st.currentQuestion, lastMessageTokens := st.lastMessageTokens,
            totalTokens := st.totalTokens, conversationHistory := st.conversationHistory,
            waitingForUserInput := st.waitingForUserInput) == st
  {
    var s0 := st.(currentAgent := DisplayName);
    if st.currentTopicIndex >= |st.topics| then
      s0.(interviewComplete := true)
    else
      var topic := st.topics[st.currentTopicIndex];
      var s1 := Prompted(st);
      var reply := model(s1);
      var question := Strip(reply.content);
      var s2 := TrackTokens(s1.(currentQuestion := question), reply);
      var entry := TopicQuestion(topic.topic, question, s2.lastMessageTokens);
      FollowUpsAppend(st.conversationHistory, entry);
      s2.(conversationHistory := s2.conversationHistory + [entry], waitingForUserInput := true)
  }
}
