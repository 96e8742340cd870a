/** What the modular graph guarantees about a session as a whole: no
    router ever returns an unlisted label, a resume runs at most five
    stages, the session only finishes through the feedback stage, the
    counters stay within their limits at every pause, and a session fed
    enough answers always finishes. */
module Progress {
  import opened Wrappers
  import opened InterviewState
  import opened BaseAgent
  import opened Nodes
  import opened Graph
  import opened Budgets
  import TopicAgent
  import SecurityAgent
  import JudgeAgent
  import TopicGuide
  import ProbingAgent
  import FeedbackAgent
  import AgentUtils

  /** The same catalog and the same two limits. */
  predicate SameSetup(a: State, b: State) {
    && a.topics == b.topics
    && a.maxIterationsPerTopic == b.maxIterationsPerTopic
    && a.maxJudgeRetries == b.maxJudgeRetries
  }

  /** What is left of a session at a record. */
  function BudgetOf(st: State): Budget {
    Budget(Left(|st.topics|, st.currentTopicIndex),
           Left(st.maxIterationsPerTopic, st.topicIterationCount),
           Left(st.maxJudgeRetries, st.judgeRetryCount))
  }

  /** The answers still allowed at a record: a bound on the resumes before
      the session finishes. */
  function Measure(st: State): nat {
    Answers(BudgetOf(st), st.maxIterationsPerTopic, st.maxJudgeRetries)
  }

  /** A lower budget under the same limits is a lower measure. */
  lemma MeasureDrops(a: State, b: State)
    requires SameSetup(a, b) && Below(BudgetOf(b), BudgetOf(a))
    ensures Measure(b) < Measure(a)
  {
    BelowLowersAnswers(BudgetOf(b), BudgetOf(a), a.maxIterationsPerTopic, a.maxJudgeRetries);
  }

  /** A run that executed `n` first and then `rest`. */
  function Prepend(n: Node, rest: Run): (r: Run)
    ensures r.state == rest.state && r.outcome == rest.outcome
    ensures r.trace == [n] + rest.trace && r.trace[0] == n
  {
    Run(rest.state, rest.outcome, [n] + rest.trace)
  }

  // One step of the modular graph, node by node, over any stage table.

  lemma TopicAgentStep(b: Build, g: Stages, st: State)
    ensures RunFrom(b, g, TopicAgentNode, st) == Run(g(TopicAgentNode, st), Paused, [TopicAgentNode])
  {
  }

  lemma ProbingStep(b: Build, g: Stages, st: State)
    ensures RunFrom(b, g, ProbingAgentNode, st) == Run(g(ProbingAgentNode, st), Paused, [ProbingAgentNode])
  {
  }

  lemma FeedbackStep(b: Build, g: Stages, st: State)
    ensures RunFrom(b, g, FeedbackAgentNode, st) == Run(g(FeedbackAgentNode, st), Finished, [FeedbackAgentNode])
  {
  }

  lemma NextTopicStep(b: Build, g: Stages, st: State)
    ensures RunFrom(b, g, NextTopicNode, st) ==
      Prepend(NextTopicNode, RunFrom(b, g, TopicAgentNode, g(NextTopicNode, st)))
  {
  }

  lemma SecurityStep(g: Stages, st: State)
    ensures var s1 := g(SecurityAgentNode, st);
      RunFrom(Modular, g, SecurityAgentNode, st) ==
      Prepend(SecurityAgentNode, RunFrom(Modular, g, if s1.securityPassed then TopicGuideNode else JudgeNode, s1))
  {
  }

  lemma JudgeAsksAgain(g: Stages, st: State)
    requires g(JudgeNode, st).waitingForUserInput
    ensures RunFrom(Modular, g, JudgeNode, st) == Run(g(JudgeNode, st), Paused, [JudgeNode])
  {
  }

  lemma JudgeMovesOn(g: Stages, st: State)
    requires !g(JudgeNode, st).waitingForUserInput
    ensures RunFrom(Modular, g, JudgeNode, st) ==
      Prepend(JudgeNode, RunFrom(Modular, g, TopicGuideNode, g(JudgeNode, st)))
  {
  }

  /** Where the modular topic-guide router sends a record. */
  function AfterTopicGuide(st: State): Node {
    match RouteAfterTopicGuide(st)
    case ToNextTopic => NextTopicNode
    case ToProbingAgent => ProbingAgentNode
    case _ => FeedbackAgentNode
  }

  lemma TopicGuideStep(g: Stages, st: State)
    ensures var s1 := g(TopicGuideNode, st);
      RunFrom(Modular, g, TopicGuideNode, st) ==
      Prepend(TopicGuideNode, RunFrom(Modular, g, AfterTopicGuide(s1), s1))
  {
  }

  /** In the inlined build, security always fails: its router returns a
      node name, and that build's map out of `security_agent` is keyed by
      "passed" and "failed". */
  lemma InlinedSecurityFails(g: Stages, st: State)
    ensures RunFrom(Inlined, g, SecurityAgentNode, st) ==
      Run(g(SecurityAgentNode, st), Failed(SecurityAgentNode), [SecurityAgentNode])
  {
  }

  /** Every resume of the inlined build stops with an error right after
      validating the answer, whatever the record and the answer. */
  lemma InlinedResumeFails(o: Oracle, st: State, answer: string)
    ensures var r := Resume(Inlined, o, st, answer);
      r.outcome == Failed(SecurityAgentNode) && r.trace == [SecurityAgentNode]
  {
    var s1 := st.(userAnswer := answer);
    assert AgentUtils.HumanInput(s1) == s1;
    assert Successor(Inlined, HumanInputNode, s1) == Some(SecurityAgentNode);
    InlinedSecurityFails(Registered(o), s1);
  }

  // The two stages that append to the history without touching the
  // follow-up count.

  lemma ValidateKeepsFollowUps(st: State, model: Model, decode: Decoder)
    ensures var r := SecurityAgent.Validate(st, model, decode);
      FollowUpsThisTopic(r.conversationHistory) == FollowUpsThisTopic(st.conversationHistory)
  {
    var r := SecurityAgent.Validate(st, model, decode);
    if r.conversationHistory != st.conversationHistory {
      FollowUpsAppend(st.conversationHistory, r.conversationHistory[|r.conversationHistory| - 1]);
      assert r.conversationHistory[..|r.conversationHistory| - 1] == st.conversationHistory;
    }
  }

  lemma JudgeKeepsFollowUps(st: State, model: Model)
    ensures var r := JudgeAgent.Judge(st, model);
      FollowUpsThisTopic(r.conversationHistory) == FollowUpsThisTopic(st.conversationHistory)
  {
    var r := JudgeAgent.Judge(st, model);
    FollowUpsAppend(st.conversationHistory, r.conversationHistory[|r.conversationHistory| - 1]);
    assert r.conversationHistory[..|r.conversationHistory| - 1] == st.conversationHistory;
  }

  // Each segment of a resume, from the node named to the next pause or the end.

  /** On a catalog position inside the catalog, the topic agent opens that
      topic and the run pauses with both counters at zero. */
  lemma FromTopicAgent(o: Oracle, st: State)
    requires st.currentTopicIndex < |st.topics|
    ensures var r := RunFrom(Modular, Registered(o), TopicAgentNode, st);
      && r.outcome == Paused && r.trace == [TopicAgentNode]
      && Bounded(r.state) && SameCourse(st, r.state)
      && r.state.currentTopic == Some(st.topics[st.currentTopicIndex])
      && r.state.topicIterationCount == 0 && r.state.judgeRetryCount == 0
  {
    TopicAgentStep(Modular, Registered(o), st);
  }

  /** `next_topic` is only taken with another topic left, so the topic
      agent after it always opens that topic and never short-circuits. */
  lemma FromNextTopic(o: Oracle, st: State)
    requires st.currentTopicIndex + 1 < |st.topics|
    ensures var r := RunFrom(Modular, Registered(o), NextTopicNode, st);
      && r.outcome == Paused && r.trace == [NextTopicNode, TopicAgentNode]
      && Bounded(r.state) && SameSetup(st, r.state)
      && r.state.currentTopicIndex == st.currentTopicIndex + 1
      && r.state.currentTopic == Some(st.topics[st.currentTopicIndex + 1])
      && BudgetOf(r.state).topics < BudgetOf(st).topics
  {
    var s1 := AgentUtils.MoveToNextTopic(st);
    NextTopicStep(Modular, Registered(o), st);
    FromTopicAgent(o, s1);
    NextTopicThenOpen(st, s1, RunFrom(Modular, Registered(o), TopicAgentNode, s1));
  }

  /** The bookkeeping of `FromNextTopic`, apart from the run itself. */
  lemma NextTopicThenOpen(st: State, s1: State, rest: Run)
    requires st.currentTopicIndex + 1 < |st.topics| && s1 == AgentUtils.MoveToNextTopic(st)
    requires rest.outcome == Paused && rest.trace == [TopicAgentNode]
    requires Bounded(rest.state) && SameCourse(s1, rest.state)
    requires rest.state.currentTopic == Some(s1.topics[s1.currentTopicIndex])
    ensures var r := Prepend(NextTopicNode, rest);
      && r.outcome == Paused && r.trace == [NextTopicNode, TopicAgentNode]
      && Bounded(r.state) && SameSetup(st, r.state)
      && r.state.currentTopicIndex == st.currentTopicIndex + 1
      && r.state.currentTopic == Some(st.topics[st.currentTopicIndex + 1])
      && BudgetOf(r.state).topics < BudgetOf(st).topics
  {
    assert [NextTopicNode] + rest.trace == [NextTopicNode, TopicAgentNode];
  }

  /** A follow-up question spends one topic turn and pauses. */
  lemma FromProbing(o: Oracle, st: State)
    requires st.topicIterationCount < st.maxIterationsPerTopic
    requires 2 * FollowUpsThisTopic(st.conversationHistory) + 1 == st.topicIterationCount
    requires st.judgeRetryCount <= st.maxJudgeRetries && st.currentTopicIndex <= |st.topics|
    ensures var r := RunFrom(Modular, Registered(o), ProbingAgentNode, st);
      && r.outcome == Paused && r.trace == [ProbingAgentNode]
      && Bounded(r.state) && SameCourse(st, r.state)
      && r.state.topicIterationCount == st.topicIterationCount + 1
  {
    ProbingStep(Modular, Registered(o), st);
    assert Registered(o)(ProbingAgentNode, st) == ProbingAgent.Probe(st, o.ask(ProbingAgentNode));
  }

  /** After a passed (or given-up) answer, the topic guide either ends the
      interview, moves to the next topic or asks a follow-up; any pause
      that follows is bounded, and either a topic or a topic turn has been
      used up. */
  lemma FromTopicGuide(o: Oracle, st: State)
    requires 2 * FollowUpsThisTopic(st.conversationHistory) == st.topicIterationCount
    requires st.judgeRetryCount <= st.maxJudgeRetries && st.currentTopicIndex <= |st.topics|
    ensures var r := RunFrom(Modular, Registered(o), TopicGuideNode, st);
      && !r.outcome.Failed?
      && (r.outcome == Paused ==>
            Bounded(r.state) && SameSetup(st, r.state) && TurnBelow(BudgetOf(r.state), BudgetOf(st)))
  {
    TopicGuideStep(Registered(o), st);
    var s1 := TopicGuide.Evaluate(st, o.ask(TopicGuideNode), o.decode);
    var route := RouteAfterTopicGuide(s1);
    if route == ToNextTopic {
      FromNextTopic(o, s1);
    } else if route == ToProbingAgent {
      FromProbing(o, s1);
    } else {
      FeedbackStep(Modular, Registered(o), s1);
    }
  }

  /** The judge either asks again, spending one retry, or gives up and
      hands over to the topic guide with the retry counter reset. */
  lemma FromJudge(o: Oracle, st: State)
    requires Bounded(st)
    ensures var r := RunFrom(Modular, Registered(o), JudgeNode, st);
      && !r.outcome.Failed?
      && (r.outcome == Paused ==>
            Bounded(r.state) && SameSetup(st, r.state) && Below(BudgetOf(r.state), BudgetOf(st)))
  {
    var s1 := JudgeAgent.Judge(st, o.ask(JudgeNode));
    assert Registered(o)(JudgeNode, st) == s1;
    JudgeKeepsFollowUps(st, o.ask(JudgeNode));
    assert BudgetOf(s1).topics == BudgetOf(st).topics && BudgetOf(s1).turns == BudgetOf(st).turns;
    if st.judgeRetryCount < st.maxJudgeRetries {
      JudgeAsksAgain(Registered(o), st);
      assert BudgetOf(s1).retries < BudgetOf(st).retries;
    } else {
      JudgeMovesOn(Registered(o), st);
      FromTopicGuide(o, s1);
    }
  }

  /** Validation hands a passed answer to the topic guide and a failed one
      to the judge. */
  lemma FromSecurity(o: Oracle, st: State)
    requires Bounded(st)
    ensures var r := RunFrom(Modular, Registered(o), SecurityAgentNode, st);
      && !r.outcome.Failed? && r.trace != [] && r.trace[0] == SecurityAgentNode
      && (r.outcome == Paused ==>
            Bounded(r.state) && SameSetup(st, r.state) && Below(BudgetOf(r.state), BudgetOf(st)))
  {
    SecurityStep(Registered(o), st);
    var s1 := SecurityAgent.Validate(st, o.ask(SecurityAgentNode), o.decode);
    ValidateKeepsFollowUps(st, o.ask(SecurityAgentNode), o.decode);
    if s1.securityPassed {
      FromTopicGuide(o, s1);
    } else {
      FromJudge(o, s1);
    }
  }

  /** One resume from a bounded pause: it starts with validation, runs at
      most five stages, never meets an unlisted label, and when it pauses
      again the record is bounded and the measure has dropped. */
  lemma ResumeProgress(o: Oracle, st: State, answer: string)
    requires Bounded(st)
    ensures var r := Resume(Modular, o, st, answer);
      && !r.outcome.Failed? && 1 <= |r.trace| <= 5 && r.trace[0] == SecurityAgentNode
      && (r.outcome == Paused ==>
            Bounded(r.state) && SameSetup(st, r.state) && Measure(r.state) < Measure(st))
  {
    var s1 := st.(userAnswer := answer);
    assert AgentUtils.HumanInput(s1) == s1;
    assert Successor(Modular, HumanInputNode, s1) == Some(SecurityAgentNode);
    FromSecurity(o, s1);
    var r := RunFrom(Modular, Registered(o), SecurityAgentNode, s1);
    assert Resume(Modular, o, st, answer) == r;
    assert BudgetOf(s1) == BudgetOf(st) && SameSetup(st, s1);
    if r.outcome == Paused {
      MeasureDrops(s1, r.state);
    }
  }

  /** The first run, in either build, asks the opening question of the
      first topic and pauses; on an empty catalog the topic agent only
      marks the interview complete, and the run still pauses. */
  lemma StartPauses(b: Build, o: Oracle, topics: seq<Topic>, maxIterations: nat, maxRetries: nat)
    ensures var r := Start(b, o, topics, maxIterations, maxRetries);
      && r.outcome == Paused && r.trace == [TopicAgentNode] && Bounded(r.state)
      && Measure(r.state) + 1 == Mul(|topics| + 1, Mul(maxIterations + 1, maxRetries + 1))
      && (topics != [] ==> r.state.currentTopic == Some(topics[0]) && r.state.waitingForUserInput &&
                           |r.state.conversationHistory| == 1)
      && (topics == [] ==> r.state.interviewComplete && r.state.conversationHistory == [])
  {
    var s0 := Fresh(topics, maxIterations, maxRetries);
    TopicAgentStep(b, Registered(o), s0);
    FullBudget(|topics|, maxIterations, maxRetries);
    assert BudgetOf(TopicAgent.AskQuestion(s0, o.ask(TopicAgentNode))) == Budget(|topics|, maxIterations, maxRetries);
  }

  /** Ending early runs exactly the feedback stage and finishes, whatever
      the record held. */
  lemma ForceEndFinishes(o: Oracle, st: State)
    ensures var r := ForceEnd(Modular, o, st);
      && r.outcome == Finished && r.trace == [FeedbackAgentNode]
      && r.state.interviewComplete && SameCourse(st, r.state)
      && r.state.conversationHistory ==
           st.conversationHistory + [FinalAssessment(r.state.currentQuestion, r.state.lastMessageTokens)]
  {
    var s1 := st.(interviewComplete := true, topicDepthSufficient := false);
    assert Successor(Modular, TopicGuideNode, s1) == Some(FeedbackAgentNode);
    FeedbackStep(Modular, Registered(o), s1);
  }

  /** The answers given one after another, each through a resume, until a
      run does not pause. */
  function Interview(b: Build, o: Oracle, st: State, answers: seq<string>): (r: Run)
    ensures answers == [] ==> r.outcome == Paused && r.state == st
    decreases |answers|
  {
    if answers == [] then Run(st, Paused, [])
    else
      var first := Resume(b, o, st, answers[0]);
      if first.outcome.Paused? then
        var rest := Interview(b, o, first.state, answers[1..]);
        Run(rest.state, rest.outcome, first.trace + rest.trace)
      else first
  }

  /** From a bounded pause, more answers than the measure finish the
      session. */
  lemma {:induction false} InterviewEnds(o: Oracle, st: State, answers: seq<string>)
    requires Bounded(st) && |answers| > Measure(st)
    ensures Interview(Modular, o, st, answers).outcome == Finished
    decreases |answers|
  {
    ResumeProgress(o, st, answers[0]);
    var first := Resume(Modular, o, st, answers[0]);
    if first.outcome.Paused? {
      InterviewEnds(o, first.state, answers[1..]);
    }
  }

  /** Answers that leave a bounded pause paused again reach a bounded
      record under the same limits. */
  lemma {:induction false} InterviewBounded(o: Oracle, st: State, answers: seq<string>)
    requires Bounded(st)
    ensures var r := Interview(Modular, o, st, answers);
      r.outcome == Paused ==> Bounded(r.state) && SameSetup(st, r.state)
    decreases |answers|
  {
    if answers != [] {
      ResumeProgress(o, st, answers[0]);
      var first := Resume(Modular, o, st, answers[0]);
      if first.outcome.Paused? {
        InterviewBounded(o, first.state, answers[1..]);
      }
    }
  }

  /** Whatever the answers, whenever a session waits for the next one, at
      most half the iteration limit of the current topic went to follow-up
      questions: each follow-up takes two of its turns. */
  lemma FollowUpsWithinHalf(o: Oracle, topics: seq<Topic>, maxIterations: nat, maxRetries: nat, answers: seq<string>)
    ensures var s := Start(Modular, o, topics, maxIterations, maxRetries);
      var r := Interview(Modular, o, s.state, answers);
      r.outcome == Paused ==> FollowUpsThisTopic(r.state.conversationHistory) <= maxIterations / 2
  {
    StartPauses(Modular, o, topics, maxIterations, maxRetries);
    var s := Start(Modular, o, topics, maxIterations, maxRetries);
    InterviewBounded(o, s.state, answers);
  }

  /** Termination of a whole session: (N + 1)(I + 1)(R + 1) answers always
      suffice to reach the feedback stage, for N topics, I topic turns and
      R retries. */
  lemma SessionEnds(o: Oracle, topics: seq<Topic>, maxIterations: nat, maxRetries: nat, answers: seq<string>)
    requires |answers| >= (|topics| + 1) * ((maxIterations + 1) * (maxRetries + 1))
    ensures var s := Start(Modular, o, topics, maxIterations, maxRetries);
      s.outcome == Paused && Interview(Modular, o, s.state, answers).outcome == Finished
  {
    StartPauses(Modular, o, topics, maxIterations, maxRetries);
    MulIsProduct(maxIterations + 1, maxRetries + 1);
    MulIsProduct(|topics| + 1, Mul(maxIterations + 1, maxRetries + 1));
    InterviewEnds(o, Start(Modular, o, topics, maxIterations, maxRetries).state, answers);
  }

  /** No core router ever returns a label its map lacks. */
  lemma {:induction false} CoreNeverFails(g: Stages, n: Node, st: State)
    ensures !RunFrom(Modular, g, n, st).outcome.Failed?
    decreases Rank(n)
  {
    if n != HumanInputNode && n != EndNode {
      var s1 := g(n, st);
      var next := Successor(Modular, n, s1);
      assert next.Some?;
      CoreNeverFails(g, next.value, s1);
    }
  }

  /** The feedback stage of a stage table always marks the interview
      complete. */
  ghost predicate FeedbackCompletes(g: Stages) {
    forall s: State :: g(FeedbackAgentNode, s).interviewComplete
  }

  lemma RegisteredFeedbackCompletes(o: Oracle)
    ensures FeedbackCompletes(Registered(o))
  {
    forall s: State ensures Registered(o)(FeedbackAgentNode, s).interviewComplete {
      assert Registered(o)(FeedbackAgentNode, s) == FeedbackAgent.Summarize(s, o.ask(FeedbackAgentNode));
    }
  }

  /** In the core graph a run finishes only by executing the feedback
      stage last, which leaves the interview complete. */
  lemma {:induction false} FinishesThroughFeedback(g: Stages, n: Node, st: State)
    requires n != EndNode && FeedbackCompletes(g)
    ensures var r := RunFrom(Modular, g, n, st);
      r.outcome == Finished ==>
        r.trace != [] && r.trace[|r.trace| - 1] == FeedbackAgentNode && r.state.interviewComplete
    decreases Rank(n)
  {
    if n == FeedbackAgentNode {
      FeedbackStep(Modular, g, st);
    } else if n != HumanInputNode {
      var s1 := g(n, st);
      var next := Successor(Modular, n, s1);
      if next.Some? {
        OnlyFeedbackEnds(n, s1);
        FinishesThroughFeedback(g, next.value, s1);
        StepAhead(Modular, g, n, st, next.value);
        PrependEndsAlike(n, RunFrom(Modular, g, next.value, s1), RunFrom(Modular, g, n, st));
      }
    }
  }

  /** Running one node before a run that finished through the feedback
      stage still finishes through it. */
  lemma PrependEndsAlike(n: Node, rest: Run, r: Run)
    requires r == Run(rest.state, rest.outcome, [n] + rest.trace)
    requires rest.outcome == Finished ==>
      rest.trace != [] && rest.trace[|rest.trace| - 1] == FeedbackAgentNode && rest.state.interviewComplete
    ensures r.outcome == Finished ==>
      r.trace != [] && r.trace[|r.trace| - 1] == FeedbackAgentNode && r.state.interviewComplete
  {
    if rest.outcome == Finished {
      assert r.trace[|r.trace| - 1] == rest.trace[|rest.trace| - 1];
    }
  }

  /** In the core graph only the feedback stage is followed by END. */
  lemma OnlyFeedbackEnds(n: Node, st: State)
    requires n != FeedbackAgentNode && n != EndNode && Successor(Modular, n, st).Some?
    ensures Successor(Modular, n, st).value != EndNode
  {
  }

  /** In any wiring a run executes neither the pause node nor END. */
  lemma {:induction false} TraceAvoidsPause(b: Build, g: Stages, n: Node, st: State)
    ensures var r := RunFrom(b, g, n, st);
      forall k :: 0 <= k < |r.trace| ==> r.trace[k] != HumanInputNode && r.trace[k] != EndNode
    decreases Rank(n)
  {
    if n != HumanInputNode && n != EndNode {
      var s1 := g(n, st);
      var next := Successor(b, n, s1);
      if next.Some? {
        TraceAvoidsPause(b, g, next.value, s1);
      }
    }
  }

  /** One stage never moves the catalog position back, never clears the
      completion flag, only appends to the history and never lowers the
      token total. */
  predicate Advanced(a: State, b: State) {
    && SameSetup(a, b)
    && a.currentTopicIndex <= b.currentTopicIndex
    && (a.interviewComplete ==> b.interviewComplete)
    && a.conversationHistory <= b.conversationHistory
    && a.totalTokens <= b.totalTokens
  }

  lemma ExecuteAdvances(o: Oracle, n: Node, st: State)
    ensures Advanced(st, Execute(o, n, st))
  {
    match n
    case TopicAgentNode => AskAdvances(st, o.ask(TopicAgentNode));
    case SecurityAgentNode => ValidateAdvances(st, o.ask(SecurityAgentNode), o.decode);
    case JudgeNode => JudgeAdvances(st, o.ask(JudgeNode));
    case TopicGuideNode => EvaluateAdvances(st, o.ask(TopicGuideNode), o.decode);
    case ProbingAgentNode => ProbeAdvances(st, o.ask(ProbingAgentNode));
    case NextTopicNode =>
    case HumanInputNode =>
    case FeedbackAgentNode => SummarizeAdvances(st, o.ask(FeedbackAgentNode));
    case EndNode =>
  }

  lemma AskAdvances(st: State, model: Model)
    ensures Advanced(st, TopicAgent.AskQuestion(st, model))
  {
  }

  lemma ValidateAdvances(st: State, model: Model, decode: Decoder)
    ensures Advanced(st, SecurityAgent.Validate(st, model, decode))
  {
  }

  lemma JudgeAdvances(st: State, model: Model)
    ensures Advanced(st, JudgeAgent.Judge(st, model))
  {
  }

  lemma EvaluateAdvances(st: State, model: Model, decode: Decoder)
    ensures Advanced(st, TopicGuide.Evaluate(st, model, decode))
  {
  }

  lemma ProbeAdvances(st: State, model: Model)
    ensures Advanced(st, ProbingAgent.Probe(st, model))
  {
  }

  lemma SummarizeAdvances(st: State, model: Model)
    ensures Advanced(st, FeedbackAgent.Summarize(st, model))
  {
  }

  /** In any wiring, a run leaves a record advanced from the one it got. */
  lemma RunAdvances(b: Build, o: Oracle, n: Node, st: State)
    ensures Advanced(st, RunFrom(b, Registered(o), n, st).state)
  {
    RegisteredAdvances(o);
    RunAdvancesWith(b, Registered(o), n, st);
  }

  lemma RegisteredAdvances(o: Oracle)
    ensures forall n, st :: Advanced(st, Registered(o)(n, st))
  {
    forall n, st ensures Advanced(st, Registered(o)(n, st)) {
      ExecuteAdvances(o, n, st);
    }
  }

  /** A run over stages that each advance the record advances it too. */
  lemma {:induction false} RunAdvancesWith(b: Build, g: Stages, n: Node, st: State)
    requires forall m, s :: Advanced(s, g(m, s))
    ensures Advanced(st, RunFrom(b, g, n, st).state)
    decreases Rank(n)
  {
    if n != HumanInputNode && n != EndNode {
      var s1 := g(n, st);
      var next := Successor(b, n, s1);
      if next.Some? {
        RunAdvancesWith(b, g, next.value, s1);
      }
    }
  }
}
