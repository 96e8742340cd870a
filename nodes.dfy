/** The names both builds of the interview graph share: its nodes and the
    labels its routers return. */
module Nodes {
  datatype Node =
    | TopicAgentNode | SecurityAgentNode | JudgeNode | TopicGuideNode | ProbingAgentNode
    | NextTopicNode | HumanInputNode | FeedbackAgentNode | EndNode

  /** The name a node is registered under (`END` for the end marker). */
  function NodeName(n: Node): string {
    match n
    case TopicAgentNode => "topic_agent"
    case SecurityAgentNode => "security_agent"
    case JudgeNode => "judge"
    case TopicGuideNode => "topic_guide"
    case ProbingAgentNode => "probing_agent"
    case NextTopicNode => "next_topic"
    case HumanInputNode => "human_input_node"
    case FeedbackAgentNode => "feedback_agent"
    case EndNode => "END"
  }

  /** The labels routers return and conditional-edge maps are keyed by;
      `LabelText` gives the string each stands for. */
  datatype Label =
    | ToJudge | ToTopicGuide | ToHumanInput | ToNextTopic | ToProbingAgent | ToEnd | ToTopicAgent
    | AskAgain | MaxRetries | FailedCheck | PassedCheck | AskDeeper

  function LabelText(l: Label): string {
    match l
    case ToJudge => "judge"
    case ToTopicGuide => "topic_guide"
    case ToHumanInput => "human_input_node"
    case ToNextTopic => "next_topic"
    case ToProbingAgent => "probing_agent"
    case ToEnd => "end"
    case ToTopicAgent => "topic_agent"
    case AskAgain => "ask_again"
    case MaxRetries => "max_retries"
    case FailedCheck => "failed"
    case PassedCheck => "passed"
    case AskDeeper => "ask_deeper"
  }

  /** Distinct labels stand for distinct strings, so comparing labels is
      comparing the strings the source compares. */
  lemma LabelTextInjective(a: Label, b: Label)
    ensures LabelText(a) == LabelText(b) <==> a == b
  {
    if a != b {
      var x, y := LabelText(a), LabelText(b);
      assert x[0] != y[0] || x[|x| - 1] != y[|y| - 1] || |x| != |y|;
    }
  }

  /** Distance, in executed nodes, to the next pause or the end along the
      edges of either build: every edge other than the one out of
      `human_input_node` leads to a lower rank. */
  function Rank(n: Node): nat {
    match n
    case SecurityAgentNode => 5
    case JudgeNode => 4
    case TopicGuideNode => 3
    case NextTopicNode => 2
    case TopicAgentNode => 1
    case ProbingAgentNode => 1
    case FeedbackAgentNode => 1
    case HumanInputNode => 0
    case EndNode => 0
  }
}
