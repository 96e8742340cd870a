/** The record every stage of the interview reads and updates
    (`InterviewState` in core/state.py), as a value. */
module InterviewState {
  import opened Wrappers

  /** One catalog entry: an optional theme, the topic text itself and
      example questions the topic agent may draw on. */
  datatype Topic = Topic(theme: Option<string>, topic: string, exampleQuestions: seq<string>)

  /** The entries stages append to `conversation_history`, one variant per
      shape of dictionary the stages write. */
  datatype Entry =
    | TopicQuestion(topic: string, question: string, tokens: nat)
    | UserAnswer(question: string, answer: string, passed: bool)
    | JudgeGiveUp(feedback: string, retryCount: nat)
    | JudgeRetry(feedback: string, retryCount: nat, tokens: nat)
    | DepthEvaluation(evaluation: string, depthSufficient: bool, tokens: nat)
    | FollowUp(question: string, tokens: nat)
    | FinalAssessment(feedback: string, tokens: nat)

  /** The shared interview record. Every key is always present, so the
      stages' `.get(key, default)` fallbacks never apply. */
  datatype State = State(
    topics: seq<Topic>,
    currentTopicIndex: nat,
    currentTopic: Option<Topic>,
    topicIterationCount: nat,
    maxIterationsPerTopic: nat,
    currentQuestion: string,
    userAnswer: string,
    securityPassed: bool,
    securityFeedback: string,
    topicDepthSufficient: bool,
    topicFeedback: string,
    judgeRetryCount: nat,
    maxJudgeRetries: nat,
    interviewComplete: bool,
    conversationHistory: seq<Entry>,
    finalFeedback: string,
    currentAgent: string,
    totalTokens: nat,
    lastMessageTokens: nat,
    waitingForUserInput: bool)

  /** The bounds the configuration screen allows for the two limits. */
  predicate ValidConfig(maxIterations: nat, maxRetries: nat) {
    1 <= maxIterations <= 10 && maxRetries <= 10
  }

  /** Follow-up questions asked since the last topic question: the entries
      after the most recent `TopicQuestion` that are `FollowUp`s. */
  function FollowUpsThisTopic(h: seq<Entry>): nat
    decreases |h|
  {
    if h == [] then 0
    else if h[|h| - 1].TopicQuestion? then 0
    else FollowUpsThisTopic(h[..|h| - 1]) + (if h[|h| - 1].FollowUp? then 1 else 0)
  }

  lemma FollowUpsAppend(h: seq<Entry>, e: Entry)
    ensures FollowUpsThisTopic(h + [e]) ==
      if e.TopicQuestion? then 0
      else FollowUpsThisTopic(h) + (if e.FollowUp? then 1 else 0)
  {
    assert (h + [e])[..|h + [e]| - 1] == h;
  }

  /** What holds whenever the interview waits for an answer: both counters
      are within their limits, the topic index never runs past the
      catalog, and every two turns of the topic counter correspond to one
      follow-up question on the current topic. */
  predicate Bounded(st: State) {
    && st.judgeRetryCount <= st.maxJudgeRetries
    && st.topicIterationCount <= st.maxIterationsPerTopic
    && st.currentTopicIndex <= |st.topics|
    && 2 * FollowUpsThisTopic(st.conversationHistory) == st.topicIterationCount
  }

  /** The record a new session starts from. */
  function Fresh(topics: seq<Topic>, maxIterations: nat, maxRetries: nat): (st: State)
    ensures Bounded(st)
    ensures st.topics == topics && st.currentTopicIndex == 0 && st.currentTopic == None
    ensures st.maxIterationsPerTopic == maxIterations && st.maxJudgeRetries == maxRetries
    ensures st.topicIterationCount == 0 && st.judgeRetryCount == 0
    ensures st.conversationHistory == [] && st.totalTokens == 0 && st.lastMessageTokens == 0
    ensures !st.interviewComplete && !st.waitingForUserInput
    ensures !st.securityPassed && !st.topicDepthSufficient
    ensures st.currentQuestion == st.userAnswer == st.securityFeedback == ""
    ensures st.topicFeedback == st.finalFeedback == st.currentAgent == ""
  {
    State(topics, 0, None, 0, maxIterations, "", "", false, "", false, "", 0, maxRetries,
          false, [], "", "", 0, 0, false)
  }

  /** The fields no stage other than the topic agent and `next_topic`
      changes: the catalog, the position in it and the two limits. */
  predicate SameCourse(a: State, b: State) {
    && a.topics == b.topics
    && a.currentTopicIndex == b.currentTopicIndex
    && a.maxIterationsPerTopic == b.maxIterationsPerTopic
    && a.maxJudgeRetries == b.maxJudgeRetries
  }
}
