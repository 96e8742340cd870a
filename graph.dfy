/** The interview workflow (core/graph.py): the three routers, the edge
    table, and how the graph runs from one node until it pauses before
    `human_input_node`, reaches the end, or meets a router label its edge
    table does not list. Both builds of the graph are covered: the modular
    one and the older inlined one of multi_agent_system.py. */
module Graph {
  import opened Wrappers
  import opened InterviewState
  import opened BaseAgent
  import opened Nodes
  import Legacy
  import TopicAgent
  import SecurityAgent
  import JudgeAgent
  import TopicGuide
  import ProbingAgent
  import FeedbackAgent
  import AgentUtils

  /** The language model and `json.loads`, which the model leaves abstract:
      each node gets its own model (its own prompt template), and all nodes
      share one decoder. */
  datatype Oracle = Oracle(ask: Node -> Model, decode: Decoder)

  /** `route_after_security`: on to the topic guide exactly when the answer
      passed, else to the judge. */
  function RouteAfterSecurity(st: State): (route: Label)
    ensures route == ToTopicGuide <==> st.securityPassed
    ensures route == ToJudge <==> !st.securityPassed
  {
    if st.securityPassed then ToTopicGuide else ToJudge
  }

  /** `route_after_judge`: back to the human when the judge asked again,
      else on to the topic guide. */
  function RouteAfterJudge(st: State): (route: Label)
    ensures route == ToHumanInput <==> st.waitingForUserInput
    ensures route == ToTopicGuide <==> !st.waitingForUserInput
  {
    if st.waitingForUserInput then ToHumanInput else ToTopicGuide
  }

  /** A topic is settled when its counter has reached the limit or its
      depth was judged sufficient. */
  predicate TopicSettled(st: State) {
    st.topicIterationCount >= st.maxIterationsPerTopic || st.topicDepthSufficient
  }

  /** `route_after_topic_guide`: a completed interview ends; a settled topic
      moves on, or ends the interview when it was the last one; an
      unsettled topic gets a follow-up question. */
  function RouteAfterTopicGuide(st: State): (route: Label)
    ensures route == ToEnd <==>
      st.interviewComplete || (TopicSettled(st) && st.currentTopicIndex + 1 >= |st.topics|)
    ensures route == ToNextTopic <==>
      !st.interviewComplete && TopicSettled(st) && st.currentTopicIndex + 1 < |st.topics|
    ensures route == ToProbingAgent <==> !st.interviewComplete && !TopicSettled(st)
  {
    if st.interviewComplete then ToEnd
    else if st.topicIterationCount >= st.maxIterationsPerTopic then
      (if st.currentTopicIndex + 1 >= |st.topics| then ToEnd else ToNextTopic)
    else if st.topicDepthSufficient then
      (if st.currentTopicIndex + 1 >= |st.topics| then ToEnd else ToNextTopic)
    else ToProbingAgent
  }

  /** The two topic-guide routers differ only in the completion check and
      in the name of the advance label: while the interview is not
      complete, the inlined build's router returns what the modular one
      returns, with "next_topic" spelt "topic_agent". */
  lemma TopicGuideRoutersAgree(st: State)
    ensures !st.interviewComplete ==>
      Legacy.RouteAfterTopicGuide(st) ==
        (if RouteAfterTopicGuide(st) == ToNextTopic then ToTopicAgent else RouteAfterTopicGuide(st))
    ensures st.interviewComplete ==> RouteAfterTopicGuide(st) == ToEnd
  {
  }

  /** Which `create_interview_graph` built the graph: core/graph.py or
      multi_agent_system.py. Both register the same nodes, fixed edges and
      stages, and the same security and judge routers. */
  datatype Build = Modular | Inlined

  /** The conditional-edge maps of the modular build, keyed by the labels
      its routers return. */
  function CorePaths(n: Node, route: Label): (next: Option<Node>)
    ensures next.Some? ==> Rank(next.value) < Rank(n)
  {
    match (n, route)
    case (JudgeNode, ToHumanInput) => Some(HumanInputNode)
    case (JudgeNode, ToTopicGuide) => Some(TopicGuideNode)
    case (SecurityAgentNode, ToJudge) => Some(JudgeNode)
    case (SecurityAgentNode, ToTopicGuide) => Some(TopicGuideNode)
    case (TopicGuideNode, ToNextTopic) => Some(NextTopicNode)
    case (TopicGuideNode, ToProbingAgent) => Some(ProbingAgentNode)
    case (TopicGuideNode, ToEnd) => Some(FeedbackAgentNode)
    case _ => None
  }

  function Paths(b: Build, n: Node, route: Label): (next: Option<Node>)
    ensures next.Some? ==> Rank(next.value) < Rank(n)
  {
    match b
    case Modular => CorePaths(n, route)
    case Inlined => Legacy.Paths(n, route)
  }

  /** The router of a node that has one. */
  function Route(b: Build, n: Node, st: State): Label
    requires n == SecurityAgentNode || n == JudgeNode || n == TopicGuideNode
  {
    match n
    case SecurityAgentNode => RouteAfterSecurity(st)
    case JudgeNode => RouteAfterJudge(st)
    case TopicGuideNode =>
      match b
      case Modular => RouteAfterTopicGuide(st)
      case Inlined => Legacy.RouteAfterTopicGuide(st)
  }

  /** The node that runs after `n`, given the record `n` produced: a fixed
      edge, or the router's label looked up in the node's map. Apart from
      the edge out of `human_input_node`, every edge lowers the rank, so the
      graph without the pause node has no cycle. */
  function Successor(b: Build, n: Node, st: State): (next: Option<Node>)
    requires n != EndNode
    ensures next.Some? && n != HumanInputNode ==> Rank(next.value) < Rank(n)
  {
    match n
    case TopicAgentNode => Some(HumanInputNode)
    case ProbingAgentNode => Some(HumanInputNode)
    case HumanInputNode => Some(SecurityAgentNode)
    case NextTopicNode => Some(TopicAgentNode)
    case FeedbackAgentNode => Some(EndNode)
    case SecurityAgentNode => Paths(b, n, Route(b, n, st))
    case JudgeNode => Paths(b, n, Route(b, n, st))
    case TopicGuideNode => Paths(b, n, Route(b, n, st))
  }

  /** The stage each node runs; the end marker leaves the record alone. */
  function Execute(o: Oracle, n: Node, st: State): State {
    match n
    case TopicAgentNode => TopicAgent.AskQuestion(st, o.ask(TopicAgentNode))
    case SecurityAgentNode => SecurityAgent.Validate(st, o.ask(SecurityAgentNode), o.decode)
    case JudgeNode => JudgeAgent.Judge(st, o.ask(JudgeNode))
    case TopicGuideNode => TopicGuide.Evaluate(st, o.ask(TopicGuideNode), o.decode)
    case ProbingAgentNode => ProbingAgent.Probe(st, o.ask(ProbingAgentNode))
    case NextTopicNode => AgentUtils.MoveToNextTopic(st)
    case HumanInputNode => AgentUtils.HumanInput(st)
    case FeedbackAgentNode => FeedbackAgent.Summarize(st, o.ask(FeedbackAgentNode))
    case EndNode => st
  }

  /** The functions a graph has registered with `add_node`, by node. The
      run below is stated over any such table; `Registered` is the one both
      builds register. */
  type Stages = (Node, State) -> State

  function Registered(o: Oracle): Stages {
    (n: Node, st: State) => Execute(o, n, st)
  }

  datatype Outcome =
    | Paused          // stopped before `human_input_node`
    | Finished        // reached END
    | Failed(at: Node) // the router of `at` returned a label its map lacks

  /** A run: the record it leaves, how it stopped and the nodes it executed. */
  datatype Run = Run(state: State, outcome: Outcome, trace: seq<Node>)

  /** Run the graph from `next` on `st`. The run executes no more nodes
      than the rank of its first node, and a failure names the last node
      it executed, which is one with a router. */
  function RunFrom(b: Build, g: Stages, next: Node, st: State): (r: Run)
    ensures |r.trace| <= Rank(next)
    ensures r.outcome.Failed? ==>
      r.trace != [] && r.trace[|r.trace| - 1] == r.outcome.at &&
      r.outcome.at in {SecurityAgentNode, JudgeNode, TopicGuideNode}
    decreases Rank(next), 1
  {
    match next
    case HumanInputNode => Run(st, Paused, [])
    case EndNode => Run(st, Finished, [])
    case _ => Step(b, g, next, st)
  }

  /** Execute `n`, then run on from its successor. */
  function Step(b: Build, g: Stages, n: Node, st: State): (r: Run)
    requires n != HumanInputNode && n != EndNode
    ensures |r.trace| <= Rank(n)
    ensures r.outcome.Failed? ==>
      r.trace != [] && r.trace[|r.trace| - 1] == r.outcome.at &&
      r.outcome.at in {SecurityAgentNode, JudgeNode, TopicGuideNode}
    decreases Rank(n), 0
  {
    var s1 := g(n, st);
    match Successor(b, n, s1)
    case None => Run(s1, Failed(n), [n])
    case Some(m) =>
      var rest := RunFrom(b, g, m, s1);
      Run(rest.state, rest.outcome, [n] + rest.trace)
  }

  /** One step of a run over any stage table, when the node's edge leads on. */
  lemma StepAhead(b: Build, g: Stages, n: Node, st: State, m: Node)
    requires n != HumanInputNode && n != EndNode
    requires Successor(b, n, g(n, st)) == Some(m)
    ensures var rest := RunFrom(b, g, m, g(n, st));
      RunFrom(b, g, n, st) == Run(rest.state, rest.outcome, [n] + rest.trace)
  {
  }

  /** One step of a run over any stage table, when the node's router returns
      a label its map lacks. */
  lemma StepFails(b: Build, g: Stages, n: Node, st: State)
    requires n != HumanInputNode && n != EndNode
    requires Successor(b, n, g(n, st)).None?
    ensures RunFrom(b, g, n, st) == Run(g(n, st), Failed(n), [n])
  {
  }

  /** The first run of a session: from `topic_agent` on a fresh record. */
  function Start(b: Build, o: Oracle, topics: seq<Topic>, maxIterations: nat, maxRetries: nat): Run {
    RunFrom(b, Registered(o), TopicAgentNode, Fresh(topics, maxIterations, maxRetries))
  }

  /** A resume: the answer is written as if `human_input_node` had produced
      it, and the run continues with that node's successor. */
  function Resume(b: Build, o: Oracle, st: State, answer: string): Run {
    var s1 := AgentUtils.HumanInput(st.(userAnswer := answer));
    RunFrom(b, Registered(o), Successor(b, HumanInputNode, s1).value, s1)
  }

  /** Ending an interview early: the completion flag is written as if
      `topic_guide` had produced it, and the run continues with whatever
      the topic guide's router chooses. */
  function ForceEnd(b: Build, o: Oracle, st: State): Run {
    var s1 := st.(interviewComplete := true, topicDepthSufficient := false);
    match Successor(b, TopicGuideNode, s1)
    case None => Run(s1, Failed(TopicGuideNode), [])
    case Some(n) => RunFrom(b, Registered(o), n, s1)
  }
}
