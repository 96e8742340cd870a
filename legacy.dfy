/** The older build of the interview graph (multi_agent_system.py): the
    same stages inlined in one file, a topic-guide router without the
    completion check, and conditional-edge maps keyed by outcome labels. */
module Legacy {
  import opened Wrappers
  import opened InterviewState
  import opened Nodes
  import opened Summaries
  import opened Text

  /** `route_after_topic_guide` of this build: a topic at its turn limit or
      judged deep enough ends the interview when it is the last one and
      otherwise goes back to the topic agent; anything else gets a
      follow-up. The completion flag is not consulted. */
  function RouteAfterTopicGuide(st: State): (route: Label)
    ensures route == ToEnd <==>
      (st.topicIterationCount >= st.maxIterationsPerTopic || st.topicDepthSufficient) &&
      st.currentTopicIndex + 1 >= |st.topics|
    ensures route == ToTopicAgent <==>
      (st.topicIterationCount >= st.maxIterationsPerTopic || st.topicDepthSufficient) &&
      st.currentTopicIndex + 1 < |st.topics|
    ensures route == ToProbingAgent <==>
      st.topicIterationCount < st.maxIterationsPerTopic && !st.topicDepthSufficient
  {
    if st.topicIterationCount >= st.maxIterationsPerTopic then
      (if st.currentTopicIndex + 1 >= |st.topics| then ToEnd else ToTopicAgent)
    else if st.topicDepthSufficient then
      (if st.currentTopicIndex + 1 >= |st.topics| then ToEnd else ToTopicAgent)
    else ToProbingAgent
  }

  /** The conditional-edge maps of this build's `create_interview_graph`:
      the node a label leads to out of a node with a router, `None` when
      the node's map has no such key. */
  function Paths(n: Node, route: Label): (next: Option<Node>)
    ensures next.Some? ==> Rank(next.value) < Rank(n)
  {
    match (n, route)
    case (JudgeNode, AskAgain) => Some(HumanInputNode)
    case (JudgeNode, MaxRetries) => Some(TopicGuideNode)
    case (SecurityAgentNode, FailedCheck) => Some(JudgeNode)
    case (SecurityAgentNode, PassedCheck) => Some(TopicGuideNode)
    case (TopicGuideNode, ToNextTopic) => Some(NextTopicNode)
    case (TopicGuideNode, AskDeeper) => Some(ProbingAgentNode)
    case (TopicGuideNode, ToEnd) => Some(FeedbackAgentNode)
    case _ => None
  }

  /** `check_user_input_needed`: "wait" exactly when the record waits for
      an answer. */
  function CheckUserInputNeeded(st: State): (verdict: string)
    ensures verdict == "wait" <==> st.waitingForUserInput
    ensures verdict == "continue" <==> !st.waitingForUserInput
  {
    if st.waitingForUserInput then "wait" else "continue"
  }

  /** The two texts this build's `feedback_agent` puts in its prompt: the
      topics grouped by theme, one "theme: names" line per theme, and the
      first 20 question and answer lines of the whole conversation. */
  method FeedbackPromptParts(st: State) returns (themesText: string, conversationText: string)
    ensures themesText == ThemesText(Grouped(st.topics), false)
    ensures conversationText == LegacyConversationText(st.conversationHistory)
  {
    var groups := GroupByTheme(st.topics);
    themesText := ThemesText(groups, false);
    var lines := CollectSummaryLines(st.conversationHistory);
    conversationText := Join(lines[..Min(20, |lines|)], "\n");
  }
}
