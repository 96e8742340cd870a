/** The two graph nodes that are not agents (agents/utils.py). */
module AgentUtils {
  import opened InterviewState

  /** `next_topic`: the index moves one place on, and the interview is
      complete exactly when it was already or the index has reached the end
      of the catalog. Nothing else changes. */
  function MoveToNextTopic(st: State): (r: State)
    ensures r.currentTopicIndex == st.currentTopicIndex + 1
    ensures r.interviewComplete <==> st.interviewComplete || r.currentTopicIndex >= |st.topics|
    ensures r.(currentTopicIndex := st.currentTopicIndex, interviewComplete := st.interviewComplete) == st
  {
    var s1 := st.(currentTopicIndex := st.currentTopicIndex + 1);
    if s1.currentTopicIndex >= |s1.topics| then s1.(interviewComplete := true) else s1
  }

  /** `human_input_node`: only marks the point where the graph pauses. */
  function HumanInput(st: State): (r: State)
    ensures r == st
  {
    st
  }
}
