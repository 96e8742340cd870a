/** The stage that handles a failed answer: it asks again, or gives up on
    the question once the retry limit is reached (agents/judge_agent.py). */
module JudgeAgent {
  import opened Text
  import opened InterviewState
  import opened BaseAgent

  const DisplayName: string := "⚖️ Judge Agent"

  const GiveUpOpening: string :=
    "I understand this question might be challenging. Let's move forward - we can revisit this topic later if needed. \n\nYour answer was: \""
  const GiveUpClosing: string := "\"\n\nLet me ask you about something else."

  /** The canned message that moves on from a question: it quotes the
      answer verbatim between the fixed opening and closing. */
  function GiveUpMessage(answer: string): (m: string)
    ensures |m| == |GiveUpOpening| + |answer| + |GiveUpClosing|
    ensures m[|GiveUpOpening|..|GiveUpOpening| + |answer|] == answer
    ensures StartsWith(m, GiveUpOpening) && EndsWith(m, GiveUpClosing)
  {
    GiveUpOpening + answer + GiveUpClosing
  }

  /** The record the model is prompted with below the limit: the retry
      counter already advanced. */
  function Prompted(st: State): (p: State)
    ensures p.judgeRetryCount == st.judgeRetryCount + 1
    ensures p.userAnswer == st.userAnswer
  {
    st.(currentAgent := DisplayName, judgeRetryCount := st.judgeRetryCount + 1)
  }

  /** At or past the retry limit: the question counts as passed, the
      counter restarts, the canned message becomes the current question and
      the interview moves on without waiting. Below the limit: the counter
      goes up by one, the model's re-prompt becomes the current question,
      the answer is cleared and the interview waits. Either way the counter
      ends within the limit. */
  function Judge(st: State, model: Model): (r: State)
    ensures r.currentAgent == DisplayName && SameCourse(st, r)
    ensures r.topicIterationCount == st.topicIterationCount && r.currentTopic == st.currentTopic
    ensures r.interviewComplete == st.interviewComplete
    ensures r.judgeRetryCount <= r.maxJudgeRetries
    ensures st.judgeRetryCount >= st.maxJudgeRetries ==>
      && r.securityPassed && r.judgeRetryCount == 0 && !r.waitingForUserInput
      && r.currentQuestion == GiveUpMessage(st.userAnswer) && r.userAnswer == st.userAnswer
      && r.conversationHistory == st.conversationHistory + [JudgeGiveUp(r.currentQuestion, st.judgeRetryCount)]
      && r.totalTokens == st.totalTokens
      && r.(currentAgent := st.currentAgent, securityPassed := st.securityPassed,
            judgeRetryCount := st.judgeRetryCount, currentQuestion := st.currentQuestion,
            conversationHistory := st.conversationHistory,
            waitingForUserInput := st.waitingForUserInput) == st
    ensures st.judgeRetryCount < st.maxJudgeRetries ==>
      && r.securityPassed == st.securityPassed
      && r.judgeRetryCount == st.judgeRetryCount + 1 && r.waitingForUserInput
      && r.userAnswer == "" && Trimmed(r.currentQuestion)
      && r.currentQuestion == Strip(model(Prompted(st)).content)
      && r.lastMessageTokens == TokenCount(model(Prompted(st)))
      && r.conversationHistory == st.conversationHistory +
           [JudgeRetry(r.currentQuestion, r.judgeRetryCount, r.lastMessageTokens)]
      && r.totalTokens == st.totalTokens + r.lastMessageTokens
      && r.(currentAgent := st.currentAgent, judgeRetryCount := st.judgeRetryCount,
            currentQuestion := st.currentQuestion, userAnswer := st.userAnswer,
            lastMessageTokens := st.lastMessageTokens, totalTokens := st.totalTokens,
            conversationHistory := st.conversationHistory,
            waitingForUserInput := st.waitingForUserInput) == st
  {
    var s0 := st.(currentAgent := DisplayName);
    var current := st.judgeRetryCount;
    if current >= st.maxJudgeRetries then
      var message := GiveUpMessage(st.userAnswer);
      s0.(securityPassed := true, judgeRetryCount := 0, currentQuestion := message,
          conversationHistory := st.conversationHistory + [JudgeGiveUp(message, current)],
          waitingForUserInput := false)
    else
      var s1 := Prompted(st);
      var reply := model(s1);
      var feedback := Strip(reply.content);
      var s2 := TrackTokens(s1, reply);
      s2.(conversationHistory := s2.conversationHistory + [JudgeRetry(feedback, current + 1, s2.lastMessageTokens)],
          currentQuestion := feedback, userAnswer := "", waitingForUserInput := true)
  }
}
