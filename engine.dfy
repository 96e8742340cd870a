/** The interview record as the stages actually treat it: one mutable
    object whose fields each agent's `__call__` assigns one by one and
    whose history it appends to (the agents package), together with the loop that
    steps the compiled graph from node to node until it pauses before
    `human_input_node` or stops. Every method is proved to leave the
    object holding exactly the record the corresponding stage function of
    the value model computes, so the properties proved there carry over. */
module Engine {
  import opened Wrappers
  import opened Text
  import opened InterviewState
  import opened BaseAgent
  import opened Nodes
  import Graph
  import TopicAgent
  import SecurityAgent
  import JudgeAgent
  import TopicGuide
  import ProbingAgent
  import FeedbackAgent
  import AgentUtils
  import Progress

  /** The `InterviewState` dictionary the graph hands from node to node:
      one mutable object whose keys each stage assigns in place. Each
      `state[key] = value` of the source is an update of one field of the
      record the object holds. */
  class Session {
    var state: State

    /** The initial state a new session is started from. */
    constructor (topics: seq<Topic>, maxIterations: nat, maxRetries: nat)
      ensures state == Fresh(topics, maxIterations, maxRetries)
    {
      state := Fresh(topics, maxIterations, maxRetries);
    }

    /** `track_tokens`: the reply's count becomes the last message's and is
        added to the running total. */
    method TrackTokens(reply: Reply)
      modifies this
      ensures state == BaseAgent.TrackTokens(old(state), reply)
    {
      state := state.(lastMessageTokens := TokenCount(reply));
      state := state.(totalTokens := state.totalTokens + state.lastMessageTokens);
    }

    /** `topic_agent`. */
    method AskQuestion(model: Model)
      modifies this
      ensures state == TopicAgent.AskQuestion(old(state), model)
    {
      state := state.(currentAgent := TopicAgent.DisplayName);
      if state.currentTopicIndex >= |state.topics| {
        state := state.(interviewComplete := true);
        return;
      }
      var currentTopic := state.topics[state.currentTopicIndex];
      state := state.(currentTopic := Some(currentTopic));
      state := state.(topicIterationCount := 0);
      state := state.(judgeRetryCount := 0);
      var reply := model(state);
      state := state.(currentQuestion := Strip(reply.content));
      TrackTokens(reply);
      state := state.(conversationHistory := state.conversationHistory +
        [TopicQuestion(currentTopic.topic, state.currentQuestion, state.lastMessageTokens)]);
      state := state.(waitingForUserInput := true);
    }

    /** `security_agent`. */
    method Validate(model: Model, decode: Decoder)
      modifies this
      ensures state == SecurityAgent.Validate(old(state), model, decode)
    {
      ghost var st := state;
      state := state.(currentAgent := SecurityAgent.DisplayName);
      state := state.(waitingForUserInput := false);
      if IsBlank(state.userAnswer) {
        state := state.(securityPassed := false);
        state := state.(securityFeedback := SecurityAgent.NoAnswer);
        return;
      }
      CheckAnswer(st, model, decode);
    }

    /** The rest of `security_agent` once the answer is known not to be
        blank: consult the model, read its verdict (or fall back to the
        length rule), and record the answer with the verdict. */
    method CheckAnswer(ghost st: State, model: Model, decode: Decoder)
      requires state == SecurityAgent.Prompted(st) && !IsBlank(st.userAnswer)
      modifies this
      ensures state == SecurityAgent.Validate(st, model, decode)
    {
      var reply := model(state);
      TrackTokens(reply);
      var responseText := StripFences(reply.content);
      match decode(responseText) {
        case Some(result) =>
          state := state.(securityPassed := result.passed.GetOr(false));
          state := state.(securityFeedback := result.feedback.GetOr(""));
          if state.securityPassed {
            state := state.(judgeRetryCount := 0);
          }
        case None =>
          state := state.(securityPassed := |state.userAnswer| > 10);
          state := state.(securityFeedback := if state.securityPassed then "" else SecurityAgent.TooShort);
          if state.securityPassed {
            state := state.(judgeRetryCount := 0);
          }
      }
      state := state.(conversationHistory := state.conversationHistory +
        [UserAnswer(state.currentQuestion, state.userAnswer, state.securityPassed)]);
    }

    /** `judge`. */
    method Judge(model: Model)
      modifies this
      ensures state == JudgeAgent.Judge(old(state), model)
    {
      ghost var st := state;
      state := state.(currentAgent := JudgeAgent.DisplayName);
      var currentRetryCount := state.judgeRetryCount;
      if currentRetryCount >= state.maxJudgeRetries {
        var judgeFeedback := JudgeAgent.GiveUpMessage(state.userAnswer);
        state := state.(securityPassed := true);
        state := state.(judgeRetryCount := 0);
        state := state.(currentQuestion := judgeFeedback);
        state := state.(conversationHistory := state.conversationHistory +
          [JudgeGiveUp(judgeFeedback, currentRetryCount)]);
        state := state.(waitingForUserInput := false);
        return;
      }
      AskAgain(st, model);
    }

    /** The rest of `judge` below the retry limit: count the retry, have
        the model re-prompt, clear the answer and wait. */
    method AskAgain(ghost st: State, model: Model)
      requires state == st.(currentAgent := JudgeAgent.DisplayName)
      requires st.judgeRetryCount < st.maxJudgeRetries
      modifies this
      ensures state == JudgeAgent.Judge(st, model)
    {
      state := state.(judgeRetryCount := state.judgeRetryCount + 1);
      assert state == JudgeAgent.Prompted(st);
      var reply := model(state);
      var judgeFeedback := Strip(reply.content);
      TrackTokens(reply);
      state := state.(conversationHistory := state.conversationHistory +
        [JudgeRetry(judgeFeedback, state.judgeRetryCount, state.lastMessageTokens)]);
      state := state.(currentQuestion := judgeFeedback);
      state := state.(userAnswer := "");
      state := state.(waitingForUserInput := true);
    }

    /** `topic_guide`. */
    method Evaluate(model: Model, decode: Decoder)
      modifies this
      ensures state == TopicGuide.Evaluate(old(state), model, decode)
    {
      ghost var st := state;
      state := state.(currentAgent := TopicGuide.DisplayName);
      state := state.(topicIterationCount := state.topicIterationCount + 1);
      if state.topicIterationCount >= state.maxIterationsPerTopic {
        state := state.(topicDepthSufficient := true);
        state := state.(topicFeedback := TopicGuide.MaxIterationsReached);
        return;
      }
      AssessDepth(st, model, decode);
    }

    /** The rest of `topic_guide` below the turn limit: consult the model,
        read its depth verdict (or fall back to the length rule), and
        record the evaluation. */
    method AssessDepth(ghost st: State, model: Model, decode: Decoder)
      requires state == TopicGuide.Prompted(st)
      requires state.topicIterationCount < state.maxIterationsPerTopic
      modifies this
      ensures state == TopicGuide.Evaluate(st, model, decode)
    {
      var reply := model(state);
      TrackTokens(reply);
      var responseText := StripFences(reply.content);
      match decode(responseText) {
        case Some(result) =>
          state := state.(topicDepthSufficient := result.depthSufficient.GetOr(false));
          state := state.(topicFeedback := result.feedback.GetOr(""));
        case None =>
          state := state.(topicDepthSufficient := |state.userAnswer| > 50);
          state := state.(topicFeedback := TopicGuide.GoodCoverage);
      }
      state := state.(conversationHistory := state.conversationHistory +
        [DepthEvaluation(state.topicFeedback, state.topicDepthSufficient, state.lastMessageTokens)]);
    }

    /** `probing_agent`. */
    method Probe(model: Model)
      modifies this
      ensures state == ProbingAgent.Probe(old(state), model)
    {
      state := state.(currentAgent := ProbingAgent.DisplayName);
      state := state.(topicIterationCount := state.topicIterationCount + 1);
      var reply := model(state);
      state := state.(currentQuestion := Strip(reply.content));
      TrackTokens(reply);
      state := state.(conversationHistory := state.conversationHistory +
        [FollowUp(state.currentQuestion, state.lastMessageTokens)]);
      state := state.(userAnswer := "");
      state := state.(waitingForUserInput := true);
    }

    /** `feedback_agent`. */
    method Summarize(model: Model)
      modifies this
      ensures state == FeedbackAgent.Summarize(old(state), model)
    {
      state := state.(currentAgent := FeedbackAgent.DisplayName);
      var reply := model(state);
      TrackTokens(reply);
      var feedbackText := Strip(reply.content);
      state := state.(currentQuestion := feedbackText);
      state := state.(conversationHistory := state.conversationHistory +
        [FinalAssessment(feedbackText, state.lastMessageTokens)]);
      state := state.(interviewComplete := true);
    }

    /** `move_to_next_topic`. */
    method MoveToNextTopic()
      modifies this
      ensures state == AgentUtils.MoveToNextTopic(old(state))
    {
      state := state.(currentTopicIndex := state.currentTopicIndex + 1);
      if state.currentTopicIndex >= |state.topics| {
        state := state.(interviewComplete := true);
      }
    }

    /** The stage registered for node `n`; `human_input_node` and the end
        marker leave the record alone. */
    method Execute(o: Graph.Oracle, n: Node)
      modifies this
      ensures state == Graph.Execute(o, n, old(state))
    {
      match n {
        case TopicAgentNode => AskQuestion(o.ask(TopicAgentNode));
        case SecurityAgentNode => Validate(o.ask(SecurityAgentNode), o.decode);
        case JudgeNode => Judge(o.ask(JudgeNode));
        case TopicGuideNode => Evaluate(o.ask(TopicGuideNode), o.decode);
        case ProbingAgentNode => Probe(o.ask(ProbingAgentNode));
        case NextTopicNode => MoveToNextTopic();
        case HumanInputNode =>
        case FeedbackAgentNode => Summarize(o.ask(FeedbackAgentNode));
        case EndNode =>
      }
    }

    /** Step the graph from `next`: execute a node, follow its edge, and
        repeat until the next node is `human_input_node` (the graph is
        compiled to interrupt before it), the end marker, or a label the
        node's map lacks. The object ends holding the record the run leaves,
        and the outcome and executed nodes are those of the run. */
    method RunFrom(b: Graph.Build, o: Graph.Oracle, next: Node) returns (outcome: Graph.Outcome, trace: seq<Node>)
      modifies this
      ensures Graph.Run(state, outcome, trace) == Graph.RunFrom(b, Graph.Registered(o), next, old(state))
    {
      ghost var g := Graph.Registered(o);
      var node := next;
      trace := [];
      while node != HumanInputNode && node != EndNode
        invariant Graph.RunFrom(b, g, next, old(state)) == After(trace, Graph.RunFrom(b, g, node, state))
        decreases Rank(node)
      {
        ghost var before := state;
        Execute(o, node);
        Registers(o, node, before);
        var successor := Graph.Successor(b, node, state);
        if successor.None? {
          Graph.StepFails(b, g, node, before);
          return Graph.Failed(node), trace + [node];
        }
        Graph.StepAhead(b, g, node, before, successor.value);
        AfterPrepend(trace, node, Graph.RunFrom(b, g, successor.value, state));
        trace := trace + [node];
        node := successor.value;
      }
      outcome := if node == HumanInputNode then Graph.Paused else Graph.Finished;
      AfterNothing(trace, state, outcome);
    }

    /** `graph.stream` on a new session: run from `topic_agent`. */
    method Start(b: Graph.Build, o: Graph.Oracle) returns (outcome: Graph.Outcome, trace: seq<Node>)
      modifies this
      ensures Graph.Run(state, outcome, trace) ==
        Graph.RunFrom(b, Graph.Registered(o), TopicAgentNode, old(state))
    {
      outcome, trace := RunFrom(b, o, TopicAgentNode);
    }

    /** An answer submitted while paused: written into the record as if
        `human_input_node` had produced it, then the run continues from that
        node's successor. */
    method Resume(b: Graph.Build, o: Graph.Oracle, answer: string) returns (outcome: Graph.Outcome, trace: seq<Node>)
      modifies this
      ensures Graph.Run(state, outcome, trace) == Graph.Resume(b, o, old(state), answer)
    {
      state := state.(userAnswer := answer);
      state := AgentUtils.HumanInput(state);
      var successor := Graph.Successor(b, HumanInputNode, state);
      outcome, trace := RunFrom(b, o, successor.value);
    }

    /** Ending early: the completion flag is written as if `topic_guide` had
        produced it, then the run continues wherever its router leads. */
    method ForceEnd(b: Graph.Build, o: Graph.Oracle) returns (outcome: Graph.Outcome, trace: seq<Node>)
      modifies this
      ensures Graph.Run(state, outcome, trace) == Graph.ForceEnd(b, o, old(state))
    {
      state := state.(interviewComplete := true, topicDepthSufficient := false);
      var successor := Graph.Successor(b, TopicGuideNode, state);
      if successor.None? {
        return Graph.Failed(TopicGuideNode), [];
      }
      outcome, trace := RunFrom(b, o, successor.value);
    }
  }

  /** The table both builds register runs each node's stage. */
  lemma Registers(o: Graph.Oracle, n: Node, st: State)
    ensures Graph.Registered(o)(n, st) == Graph.Execute(o, n, st)
  {
  }

  /** A run preceded by the nodes executed before it. */
  function After(trace: seq<Node>, r: Graph.Run): Graph.Run {
    Graph.Run(r.state, r.outcome, trace + r.trace)
  }

  lemma AfterPrepend(trace: seq<Node>, n: Node, r: Graph.Run)
    ensures After(trace, Graph.Run(r.state, r.outcome, [n] + r.trace)) == After(trace + [n], r)
  {
    assert trace + ([n] + r.trace) == (trace + [n]) + r.trace;
  }

  lemma AfterNothing(trace: seq<Node>, st: State, outcome: Graph.Outcome)
    ensures After(trace, Graph.Run(st, outcome, [])) == Graph.Run(st, outcome, trace)
  {
    assert trace + [] == trace;
  }

  /** A whole session driven through the object: a start from the initial
      state, then one resume per answer while the runs pause. The object
      ends holding the record, and the method returns the outcome, of
      `Graph.Start` followed by `Progress.Interview`. */
  method Interview(b: Graph.Build, o: Graph.Oracle, topics: seq<Topic>, maxIterations: nat, maxRetries: nat,
                   answers: seq<string>) returns (session: Session, outcome: Graph.Outcome)
    ensures var first := Graph.Start(b, o, topics, maxIterations, maxRetries);
      if first.outcome.Paused? then
        var rest := Progress.Interview(b, o, first.state, answers);
        session.state == rest.state && outcome == rest.outcome
      else
        session.state == first.state && outcome == first.outcome
  {
    session := new Session(topics, maxIterations, maxRetries);
    var trace;
    outcome, trace := session.Start(b, o);
    if !outcome.Paused? {
      return;
    }
    ghost var whole := Progress.Interview(b, o, session.state, answers);
    var i := 0;
    while i < |answers| && outcome.Paused?
      invariant 0 <= i <= |answers|
      invariant outcome.Paused? ==>
        var rest := Progress.Interview(b, o, session.state, answers[i..]);
        whole.state == rest.state && whole.outcome == rest.outcome
      invariant !outcome.Paused? ==> whole.state == session.state && whole.outcome == outcome
      decreases |answers| - i
    {
      assert answers[i..][1..] == answers[i + 1..];
      outcome, trace := session.Resume(b, o, answers[i]);
      i := i + 1;
    }
  }
}
