# AI interview orchestration, modelled in Dafny

The system runs a structured interview. It asks questions from an ordered
catalog of topics and checks each answer. It then either probes deeper or
moves to the next topic, and it ends by writing an overall assessment.

Specialised agents take turns on one shared interview record. The agents are:

- the topic agent (opening question)
- the security agent (answer validation)
- the judge (retry or give up)
- the topic guide (depth evaluation)
- the probing agent (follow-up question)
- the feedback agent (final assessment)

A graph of nodes and routers sequences them. The graph pauses before
`human_input_node` whenever an answer is needed, and a resume continues
from there.

This project models:

- the interview record and every agent's effect on it
- the three routers and both builds of the graph: the modular one in
  `core/graph.py` and the older inlined one in `multi_agent_system.py`
- a run from any node until it pauses, finishes, or meets a label its
  edge table lacks
- the start, resume and force-end operations of the chat application
- the prompt manager: template variables, auto-fill from the interview
  record, special variables, config fallbacks and validation
- the text-log parser of the log viewer page, including its regular
  expressions and the JSON string escaping they undo

Two families of modules make up the model:

- **Pure stages.** Each agent is a pure function from the record
  `InterviewState.State` to the next one. Its `ensures` clauses state
  everything the stage writes.
  - The language model and `json.loads` are parameters.
  - A `Model` maps the record a stage builds its prompt from to a reply. Building the prompt (`get_prompt` for the modular agents, the f-strings of the inlined ones) is folded into it.
  - A `Decoder` maps a reply's text to an optional verdict.
- **Stateful objects.** The stateful objects of the source are classes:
  - `Engine.Session` holds the session's record. Each method is proved to
    leave exactly what the matching stage function or graph run returns.
  - `PromptManager.Manager` holds the prompt configurations and the
    variable mappings.
- **Whole-session properties.** `Progress` proves these over the model:
  - the modular build never fails on a label
  - a resume runs at most five stages
  - every pause keeps the counters within their limits
  - the session only finishes through the feedback agent
  - a session fed enough answers always finishes

The number of answers a session needs is bounded multiplicatively. The
retry counter resets after every accepted answer, so each of the `N` topics
can take up to `(I+1)(R+1)` answers:

- `Budgets.FullBudget` shows a full budget allows `(N+1)(I+1)(R+1) − 1`
  answers.
- `Progress.StartPauses` shows the first pause leaves that budget.
- `Progress.ResumeProgress` shows every resume lowers it.
- `Progress.SessionEnds` shows a session given `(N+1)(I+1)(R+1)` answers
  finishes.

## Model

| member | source | states |
|---|---|---|
| InterviewState.Fresh | streamlit_app_ja-voice.py:180-201 | A new session's record has the catalog and the two limits given, index 0, no current topic, both counters 0, every text field empty, both flags false, empty history, no tokens, not complete, not waiting, and satisfies the pause invariant `Bounded` |
| InterviewState.FollowUpsAppend | core/state.py:7-42 | The follow-ups of the current topic restart at zero with each topic question and grow by one with each follow-up entry |
| AgentUtils.MoveToNextTopic | agents/utils.py:7-22 | The topic index grows by one; the interview is complete exactly when it already was or the new index has run past the catalog; nothing else changes |
| AgentUtils.HumanInput | agents/utils.py:25-38 | The pause node leaves the record as it found it |
| BaseAgent.TokenCount | agents/base_agent.py:67-89 | No metadata counts zero tokens; a non-zero `total_tokens` is taken as is; otherwise a non-zero Gemini prompt-plus-candidates count is taken; when both are zero the count is a quarter of the reply's length; the count is zero exactly when every source of a count gives zero |
| BaseAgent.TrackTokens | agents/base_agent.py:91-96 | The last-message count becomes the reply's count and the running total grows by it; nothing else changes |
| BaseAgent.BuildMessages | agents/base_agent.py:43-46 | The message list is the prompt alone, or the system message followed by the prompt when a system message is given |
| BaseAgent.StripFences | agents/security_agent.py:48-55 | The text handed to `json.loads` has no surrounding whitespace |
| BaseAgent.StripFencesOfJsonBlock | agents/security_agent.py:48-55 | A reply fenced as a `json` code block is reduced to its stripped body |
| BaseAgent.StripFencesOfBareBlock | agents/security_agent.py:48-55 | A reply fenced as a bare code block is reduced to its stripped body |
| BaseAgent.StripFencesUnfenced | agents/topic_guide.py:40-47 | A reply without fences is only stripped |
| TopicAgent.AskQuestion | agents/topic_agent.py:13-56 | With the catalog exhausted the interview is marked complete and nothing else changes; otherwise the current topic is set, both counters reset, the question is the stripped reply of the model prompted with that record, it is logged as a topic question, the reply's token count is the last message's and is added to the total, the record waits for input, the pause invariant holds, and no other field changes |
| SecurityAgent.LenientVerdict | agents/security_agent.py:65-71 | When the verdict cannot be parsed, an answer passes exactly when it is longer than ten characters, and only a failing answer gets feedback |
| SecurityAgent.WideSpaceRejected | agents/security_agent.py:29-35 | An answer made only of no-break and ideographic spaces is blank: it fails with the fixed feedback, charges no tokens and leaves the history alone |
| SecurityAgent.Validate | agents/security_agent.py:14-94 | A blank answer fails with the fixed feedback and no model call; otherwise the parsed verdict of the model's reply decides, or the length fallback and its feedback when parsing fails; the reply's token count is the last message's and is added to the total; the answer is logged with its verdict; the retry counter resets exactly when the answer passed; the record stops waiting; no other field changes, and a blank answer charges no tokens |
| JudgeAgent.GiveUpMessage | agents/judge_agent.py:23-27 | The canned message is the fixed opening, the answer verbatim and the fixed closing |
| JudgeAgent.Judge | agents/judge_agent.py:13-79 | At the retry limit the answer is accepted with the give-up message, the counter resets and no model call is made; below it the counter grows by one, the question is the stripped reply of the model prompted with the advanced counter, its token count is the last message's and is added to the total, and the record waits with the answer cleared; the counter never exceeds its limit; in both cases no other field changes |
| TopicGuide.LenientDepth | agents/topic_guide.py:52-54 | When the verdict cannot be parsed, depth is sufficient exactly when the answer is longer than fifty characters |
| TopicGuide.Evaluate | agents/topic_guide.py:14-76 | The iteration counter grows by one; at the limit depth is forced sufficient with the fixed feedback and no model call; below it the parsed verdict of the model's reply decides, or the length fallback, the reply's token count is the last message's and is added to the total, and the evaluation is logged; follow-up counts are unchanged; no other field changes, and at the limit no tokens are charged |
| ProbingAgent.Probe | agents/probing_agent.py:13-45 | The iteration counter grows by one, the follow-up question is the stripped reply of the model prompted with the advanced counter and is logged, its token count is the last message's and is added to the total, the answer is cleared and the record waits; the topic's follow-ups grow by exactly one; no other field changes |
| FeedbackAgent.Summarize | agents/feedback_agent.py:13-37 | The interview is complete, the assessment is the stripped reply of the model and is logged as the final entry, its token count is the last message's and is added to the total, and no other field changes (`final_feedback` included) |
| Nodes.LabelTextInjective | core/graph.py:128-159 | Two router labels have the same text exactly when they are the same label |
| Graph.RouteAfterSecurity | core/graph.py:21-33 | The route is the topic guide exactly when the answer passed, else the judge |
| Graph.RouteAfterJudge | core/graph.py:36-41 | The route is the human exactly when the judge asked again, else the topic guide |
| Graph.RouteAfterTopicGuide | core/graph.py:44-78 | The route ends the interview exactly when it is complete or a settled topic was the last; moves to the next topic exactly when an incomplete interview has a settled topic with more to come; probes exactly when the topic is unsettled |
| Graph.TopicGuideRoutersAgree | multi_agent_system.py:768-794 | While the interview is not complete the inlined router picks the modular router's route, with the advance label spelt `topic_agent`; a complete interview ends in the modular build |
| Graph.CorePaths | core/graph.py:128-159 | Every edge in the modular build's conditional maps leads to a node of lower rank, so the graph without the pause node has no cycle |
| Graph.Paths | multi_agent_system.py:853-884 | The same acyclicity for whichever build's maps are in use |
| Graph.Successor | core/graph.py:111-165 | Every edge except the one out of `human_input_node` lowers the rank |
| Graph.RunFrom | core/graph.py:85-171 | A run executes at most as many nodes as the rank of its first node; a failure names the last node executed, which is one of the three routed nodes |
| Graph.Step | core/graph.py:121-165 | Executing a node and running on keeps the same bounds |
| Graph.StepAhead | core/graph.py:121-165 | When a node's edge leads on, the run from it is that node followed by the run from its successor |
| Graph.StepFails | core/graph.py:141-159 | When a router's label is missing from its map, the run stops failed at that node after executing it |
| Legacy.RouteAfterTopicGuide | multi_agent_system.py:768-794 | The inlined router ends after the last settled topic, advances through `topic_agent` after any other settled topic, and probes an unsettled one, each exactly when its condition holds |
| Legacy.Paths | multi_agent_system.py:853-884 | Every edge in the inlined build's maps lowers the rank |
| Legacy.CheckUserInputNeeded | multi_agent_system.py:668-672 | The verdict is `wait` exactly when the record waits for input, else `continue` |
| Legacy.FeedbackPromptParts | multi_agent_system.py:682-699 | The inlined feedback agent's two texts are the theme grouping of the catalog and the first twenty question and answer lines |
| Summaries.FindTheme | multi_agent_system.py:691-697 | A theme found is at a valid position with that theme; a theme not found is held by no group |
| Summaries.GroupByTheme | management/prompt_manager.py:139-149 | The grouping loop computes the theme grouping of the catalog |
| Summaries.GroupedDistinct | management/prompt_manager.py:139-149 | No two groups share a theme |
| Summaries.GroupedThemes | management/prompt_manager.py:139-149 | The groups come in the order their themes first appear in the catalog |
| Summaries.NamedThemeHasGroup | multi_agent_system.py:691-697 | Every theme that some topic carries has a group |
| Summaries.GroupedNames | multi_agent_system.py:691-697 | Each group lists, in catalog order, exactly the names of the topics under its theme |
| Summaries.EntryLines | management/prompt_manager.py:155-158 | A history entry contributes at most a question line and an answer line |
| Summaries.CollectSummaryLines | multi_agent_system.py:682-687 | The summary loop collects the question and answer lines of the whole history |
| Summaries.SummaryLinesAppend | multi_agent_system.py:682-687 | The lines of two histories in a row are the lines of each, in order |
| Summaries.SummaryLinesBound | multi_agent_system.py:682-687 | A history yields at most two lines per entry |
| Summaries.ConversationLimits | management/prompt_manager.py:152-159 | The inlined agent's cut to twenty lines and the manager's cut to twenty entries agree on a common prefix; the first is at most 20 lines and the second at most 40; they coincide when neither cut removes anything |
| Templates.WordRun | management/prompt_manager.py:44-48 | The run of word characters at the head of a text is maximal |
| Templates.HeadPlaceholder | management/prompt_manager.py:44-48 | A placeholder found at the head of a text is a brace, one or more word characters and a closing brace |
| Templates.HeadPlaceholderUnique | management/prompt_manager.py:44-48 | Any placeholder at the head of a text is the one found there |
| Templates.PlaceholderFound | management/prompt_manager.py:44-48 | Every placeholder anywhere in a template is listed |
| Templates.PlaceholderSource | management/prompt_manager.py:44-48 | Every listed name comes from a placeholder of the template |
| Templates.VariablesExactly | management/prompt_manager.py:44-48 | A name is a template variable exactly when some placeholder of the template spells it |
| Templates.FillWithOwnText | management/prompt_manager.py:242-247 | Filling each placeholder with its own text gives the template back |
| Templates.FillWithoutPlaceholders | management/prompt_manager.py:242-247 | A template without placeholders is filled to itself |
| Templates.LessTotal | management/prompt_manager.py:50-55 | The order on names is total |
| Templates.LessTransitive | management/prompt_manager.py:50-55 | The order on names is transitive |
| Templates.Insert | management/prompt_manager.py:50-55 | Inserting into a strictly sorted list keeps it strictly sorted and adds exactly the new name |
| Templates.SortedDistinct | management/prompt_manager.py:50-55 | The result is strictly sorted and holds exactly the input's names |
| Templates.SortedVariables | management/prompt_manager.py:50-55 | A template's variables, sorted without duplicates |
| Templates.SortedHasNoDuplicates | management/prompt_manager.py:50-55 | A strictly sorted list repeats no name |
| PromptManager.GetNestedValue | management/prompt_manager.py:57-76 | The dotted-path walk returns the value the path leads to, or none when a step is missing |
| PromptManager.LookupCompose | management/prompt_manager.py:57-76 | Walking two paths in a row is walking the first, then the second from where it led, stopping at a missing step |
| PromptManager.LookupStopsAtNull | management/prompt_manager.py:57-76 | A walk finds nothing exactly when some prefix of the path finds nothing |
| PromptManager.NestedValueStep | management/prompt_manager.py:57-76 | A dotted path looks up its first key, then the rest of the path in what it found |
| PromptManager.NestedValueOfName | management/prompt_manager.py:57-76 | A path without dots is a single attribute lookup |
| PromptManager.FirstFoundEarliest | management/prompt_manager.py:91-98 | The mapped paths miss exactly when each of them misses; a hit is the value of the first path that does not miss |
| PromptManager.AutoFillVariable | management/prompt_manager.py:78-108 | The auto-fill loop returns the auto-fill value of a variable |
| PromptManager.AutoFillPriority | management/prompt_manager.py:78-108 | An explicit value wins; then the first mapped state path that holds a value; then the state key of the same name; otherwise nothing |
| PromptManager.FirstPathHit | management/prompt_manager.py:91-98 | When the first mapped key holds a value, that value is used |
| PromptManager.AllPathsMiss | management/prompt_manager.py:78-108 | When no mapped key and no same-named key holds a value, nothing is filled |
| PromptManager.FeedbackOnInterviewState | management/prompt_manager.py:17-30 | On an interview record, `feedback` is filled from the security feedback |
| PromptManager.RetryMsgNotInState | management/prompt_manager.py:17-30 | `retry_msg` is not found in the record itself; only the special variables supply it |
| PromptManager.ListLines | management/prompt_manager.py:110-119 | A list is rendered one line per item |
| PromptManager.FormatListLines | management/prompt_manager.py:110-119 | The formatted list splits back into exactly one line per item: its marker followed by the item |
| PromptManager.RetryMsg | management/prompt_manager.py:130-136 | The retry note is empty exactly when the retry count is at most one |
| PromptManager.PrepareSpecialVariables | management/prompt_manager.py:121-161 | The method computes the three special variables of a record |
| PromptManager.Absent | management/prompt_manager.py:205 | The missing names are exactly the listed ones without a value |
| PromptManager.AbsentSorted | management/prompt_manager.py:205 | Missing names keep the sorted order |
| PromptManager.AutoFilledAt | management/prompt_manager.py:197-202 | After auto-fill, a variable has a value exactly when it had one already or its auto-fill finds one; existing values are kept |
| PromptManager.FilledPriority | management/prompt_manager.py:189-202 | A variable is filled exactly when it is given explicitly, or a record is given with auto-fill on and it is special or auto-fills; explicit values win over special ones, and special ones over auto-filled ones |
| PromptManager.WithConfigPriority | management/prompt_manager.py:207-219 | The config supplies exactly the missing variables it holds; filled values are kept |
| PromptManager.ResolvedPriority | management/prompt_manager.py:189-219 | The full priority order for a template variable: explicit, then special, then auto-filled, then the agent's config |
| PromptManager.PromptFailsIff | management/prompt_manager.py:163-247 | Building a prompt fails exactly when some template variable is supplied by nobody, and the error lists exactly those variables, sorted |
| PromptManager.ExplicitValuesWin | management/prompt_manager.py:163-247 | An explicitly given variable is filled with the rendering of the given value |
| PromptManager.PromptWithoutPlaceholders | management/prompt_manager.py:242-247 | A template without placeholders is returned unchanged |
| PromptManager.AddSpecial | management/prompt_manager.py:189-194 | Special variables are added under the explicit ones |
| PromptManager.AutoFillAll | management/prompt_manager.py:197-202 | The auto-fill loop computes the auto-filled values |
| PromptManager.MissingFrom | management/prompt_manager.py:205 | The loop lists the variables still missing |
| PromptManager.AddConfig | management/prompt_manager.py:207-219 | The config loop fills what the config holds and reports what is still missing |
| PromptManager.FormatAll | management/prompt_manager.py:235-240 | The formatting loop renders every value, lists one line per item |
| PromptManager.CheckAvailability | management/prompt_manager.py:286-309 | A variable has a mapping exactly when it is mapped, needs an explicit value exactly when it has none, and reports the mapped keys |
| PromptManager.OfKind | management/prompt_manager.py:345-354 | Each class of variables holds exactly the detected variables of that class |
| PromptManager.KindsPartition | management/prompt_manager.py:345-354 | The three classes together count every detected variable once |
| PromptManager.Fillable | management/prompt_manager.py:366-374 | The fillable and unfillable lists hold only detected variables, and no more of them than were detected |
| PromptManager.FillableMembers | management/prompt_manager.py:366-374 | A detected variable is listed as fillable exactly when the sample state fills it, and as unfillable exactly when the sample state does not fill it and the configuration does not supply it |
| PromptManager.Validate | management/prompt_manager.py:311-389 | A prompt is valid exactly when its template is not empty and its opening and closing braces are equal in number |
| PromptManager.ValidationPartition | management/prompt_manager.py:345-354 | Config, mapped and unmapped variables are exactly the template variables in the config, in the mappings only, and in neither, and they partition the detected list |
| PromptManager.UnmappedMeansExplicit | management/prompt_manager.py:356-360 | A template variable is reported unmapped exactly when it needs an explicit value and is not in the config |
| PromptManager.CheckTemplate | management/prompt_manager.py:328-338 | The loop collects the template's brace issues |
| PromptManager.CollectWarnings | management/prompt_manager.py:331-360 | The loop collects the validation warnings |
| PromptManager.PartitionVariables | management/prompt_manager.py:345-354 | The loop sorts the detected variables into config, mapped and unmapped |
| PromptManager.TryAutoFill | management/prompt_manager.py:366-374 | The loop sorts every detected variable into auto-fillable and not; a variable the config supplies is in neither list |
| PromptManager.Manager.constructor | management/prompt_manager.py:17-30 | A new manager holds the given prompts and the default mappings |
| PromptManager.Manager.AddVariableMapping | management/prompt_manager.py:277-284 | The mapping for the variable is set to the given keys; other mappings and the prompts are unchanged |
| PromptManager.Manager.GetTemplateVariables | management/prompt_manager.py:50-55 | The agent's template variables, sorted and without duplicates |
| PromptManager.Manager.CheckVariableAvailability | management/prompt_manager.py:286-309 | The availability report under the current mappings |
| PromptManager.Manager.GetPrompt | management/prompt_manager.py:163-247 | The prompt built under the current mappings, or the missing-variable error |
| PromptManager.Manager.ValidateAgentPrompt | management/prompt_manager.py:311-389 | The validation report under the current mappings |
| Engine.Session.constructor | streamlit_app_ja.py:105-125 | A new session holds a fresh record |
| Engine.Session.TrackTokens | agents/base_agent.py:91-96 | The record is updated as the token tracker prescribes |
| Engine.Session.AskQuestion | agents/topic_agent.py:13-56 | The record becomes what the topic agent returns |
| Engine.Session.Validate | agents/security_agent.py:14-94 | The record becomes what the security agent returns |
| Engine.Session.CheckAnswer | agents/security_agent.py:38-87 | After a non-blank answer, the model call and its verdict finish the security agent's update |
| Engine.Session.Judge | agents/judge_agent.py:13-79 | The record becomes what the judge returns |
| Engine.Session.AskAgain | agents/judge_agent.py:49-71 | Below the retry limit, the retry finishes the judge's update |
| Engine.Session.Evaluate | agents/topic_guide.py:14-76 | The record becomes what the topic guide returns |
| Engine.Session.AssessDepth | agents/topic_guide.py:30-69 | Below the iteration limit, the model's verdict finishes the topic guide's update |
| Engine.Session.Probe | agents/probing_agent.py:13-45 | The record becomes what the probing agent returns |
| Engine.Session.Summarize | agents/feedback_agent.py:13-37 | The record becomes what the feedback agent returns |
| Engine.Session.MoveToNextTopic | agents/utils.py:7-22 | The record becomes what `move_to_next_topic` returns |
| Engine.Session.Execute | core/graph.py:111-118 | The record becomes what the node's registered stage returns |
| Engine.Session.RunFrom | core/graph.py:85-171 | The loop leaves the record, outcome and trace of the graph's run from the node |
| Engine.Session.Start | streamlit_app_ja.py:135-138 | The first run goes from the topic agent |
| Engine.Session.Resume | streamlit_app_ja.py:394-410 | A resume writes the answer as the pause node and runs on from its successor |
| Engine.Session.ForceEnd | streamlit_app_ja.py:216-229 | Ending early writes the completion flag as the topic guide and runs on from its router's choice |
| Engine.Registers | core/graph.py:111-118 | The registered stage of a node is that node's agent |
| Engine.Interview | streamlit_app_ja.py:105-138 | A whole session, started and then resumed with each answer in turn, ends as the model of the session does |
| Progress.Prepend | core/graph.py:121-125 | Putting a node in front of a run keeps its record and outcome |
| Progress.TopicAgentStep | core/graph.py:121-122 | A run from the topic agent asks once and pauses |
| Progress.ProbingStep | core/graph.py:121-125 | A run from the probing agent asks once and pauses |
| Progress.FeedbackStep | core/graph.py:165 | A run from the feedback agent finishes after it |
| Progress.NextTopicStep | core/graph.py:162 | A run from `next_topic` goes on to the topic agent |
| Progress.SecurityStep | core/graph.py:141-148 | After the security agent the run goes to the topic guide on a pass and to the judge otherwise |
| Progress.JudgeAsksAgain | core/graph.py:128-138 | When the judge asks again the run pauses |
| Progress.JudgeMovesOn | core/graph.py:128-135 | When the judge gives up the run goes on to the topic guide |
| Progress.TopicGuideStep | core/graph.py:151-159 | After the topic guide the run follows its router |
| Progress.InlinedSecurityFails | multi_agent_system.py:866-873 | In the inlined build the security router's labels are missing from its map, so every run through security fails there |
| Progress.InlinedResumeFails | multi_agent_system.py:742-873 | In the inlined build every resume fails right after the security agent |
| Progress.ValidateKeepsFollowUps | agents/security_agent.py:82-87 | Validation does not change the topic's follow-up count |
| Progress.JudgeKeepsFollowUps | agents/judge_agent.py:61-66 | The judge does not change the topic's follow-up count |
| Progress.FromTopicAgent | core/graph.py:121-122 | Opening a topic pauses after one stage with the pause invariant, the topic set and both counters reset |
| Progress.FromNextTopic | core/graph.py:162 | Advancing pauses after two stages on the next topic with less topic budget left |
| Progress.FromProbing | agents/probing_agent.py:13-45 | A follow-up pauses after one stage keeping the pause invariant |
| Progress.FromTopicGuide | core/graph.py:151-159 | A run from the topic guide never fails, and a pause leaves less turn budget |
| Progress.FromJudge | core/graph.py:128-138 | A run from the judge never fails, and a pause leaves a lower budget |
| Progress.FromSecurity | core/graph.py:141-148 | A run from the security agent never fails, and a pause leaves a lower budget |
| Progress.ResumeProgress | streamlit_app_ja.py:394-410 | In the modular build a resume never fails, runs one to five stages starting with security, and a pause keeps the invariant and lowers the answer budget |
| Progress.StartPauses | streamlit_app_ja.py:105-138 | The first run pauses after the topic agent with the invariant and the full budget; an empty catalog completes at once |
| Progress.ForceEndFinishes | streamlit_app_ja.py:216-229 | Ending early runs only the feedback agent and finishes with the interview complete |
| Progress.Interview | streamlit_app_ja.py:394-410 | With no answers left the session stays paused where it is |
| Progress.InterviewEnds | core/graph.py:85-171 | A session given more answers than its budget finishes |
| Progress.SessionEnds | core/graph.py:85-171 | A session given `(N+1)(I+1)(R+1)` answers finishes |
| Progress.CoreNeverFails | core/graph.py:128-159 | In the modular build no run ever meets a label missing from its map |
| Progress.RegisteredFeedbackCompletes | agents/feedback_agent.py:35 | The registered feedback stage always completes the interview |
| Progress.FinishesThroughFeedback | core/graph.py:165 | A run that finishes ends with the feedback agent and leaves the interview complete |
| Progress.OnlyFeedbackEnds | core/graph.py:121-165 | No node but the feedback agent leads to the end |
| Progress.TraceAvoidsPause | core/graph.py:168-171 | A run never executes the pause node or the end |
| Progress.ExecuteAdvances | core/graph.py:111-118 | No stage changes the catalog or the limits, moves the topic index back, clears the completion flag, drops history or lowers the token total |
| Progress.RunAdvances | core/graph.py:85-171 | The same holds for a whole run of the graph |
| Progress.MeasureDrops | core/graph.py:85-171 | A lower budget allows fewer answers |
| Progress.InterviewBounded | core/graph.py:121-165 | Answers that leave a bounded pause paused again reach a bounded record under the same limits |
| Progress.FollowUpsWithinHalf | agents/topic_guide.py:22-28 | Whatever the answers, whenever a session of the modular build waits for input, the current topic has at most half its iteration limit in follow-up questions |
| Budgets.FullBudget | core/graph.py:85-171 | A full budget allows `(N+1)(I+1)(R+1) − 1` answers |
| LogViewer.ExtractUsername | pages/04_log_viewer.py:22-36 | The user name is never empty |
| LogViewer.UsernameRoundTrip | pages/04_log_viewer.py:22-36 | From `interview_<user>-<stamp>` with no dash in the stamp the user comes back, or `unknown` for an empty user |
| LogViewer.NoDashUnknown | pages/04_log_viewer.py:22-36 | An id without a dash gives `unknown` |
| LogViewer.LoggerLineRoundTrip | pages/04_log_viewer.py:178-183 | A line the logger writes is parsed back into its timestamp, logger, level and the whole message |
| LogViewer.LoggerLineNotBlank | pages/04_log_viewer.py:174-175 | A logger line is never skipped as blank |
| LogViewer.LoggerLineParts | interview_logging/interview_logger.py:57-60 | A logger line splits into its three leading fields followed by the message's own parts |
| LogViewer.TypeNamedName | pages/04_log_viewer.py:194-295 | Every event type is recovered from its name |
| LogViewer.ClassifyRoundTrip | pages/04_log_viewer.py:194-295 | A message the logger writes for an event is classified as that event, unless its payload holds a marker tried earlier |
| LogViewer.ExtractorsDistinct | pages/04_log_viewer.py:194-295 | No event type extracts two fields under one key |
| LogViewer.ExtractField | pages/04_log_viewer.py:194-295 | A field is stored exactly when its pattern finds something, and then with what it found |
| LogViewer.EventDataField | pages/04_log_viewer.py:194-295 | An event's field is stored exactly when its regular expression matches, and holds the decoded capture |
| LogViewer.RecordConsistent | pages/04_log_viewer.py:186-312 | Recording an event keeps every figure of the summary equal to what the timeline determines |
| LogViewer.SummarizeConsistent | pages/04_log_viewer.py:173-312 | The errors, agents, token total, call count, start and end time all match the timeline |
| LogViewer.TimelineOfLines | pages/04_log_viewer.py:173-312 | The timeline is the events of the accepted lines, in order |
| LogViewer.LogOfLines | pages/04_log_viewer.py:161 | Parsing lines joined with line breaks is parsing those lines |
| LogViewer.ParseTextLog | pages/04_log_viewer.py:158-314 | The parser's loop gives the parse of the log, whose summary is consistent with a timeline of the accepted lines' events |
| LogViewer.RecordEvent | pages/04_log_viewer.py:186-312 | The method records one event as the summary prescribes |
| LogPatterns.DigitRun | pages/04_log_viewer.py:220-222 | `\d+` takes the longest run of digits at the head |
| LogPatterns.ScanEscaped | pages/04_log_viewer.py:225 | The escaped-string body ends just before a quote |
| LogPatterns.SearchFinds | pages/04_log_viewer.py:196 | `re.search` reports the leftmost match |
| LogPatterns.SearchMisses | pages/04_log_viewer.py:196 | A search fails exactly when the pattern matches at no position |
| LogPatterns.SearchAfter | interview_logging/interview_logger.py:69-85 | A member preceded by quote-free text is found where it stands |
| LogPatterns.QuotedRoundTrip | pages/04_log_viewer.py:196 | A quoted member the logger writes is read back as its text |
| LogPatterns.NumberRoundTrip | pages/04_log_viewer.py:220-222 | A number the logger writes is read back as that number |
| LogPatterns.FlagRoundTrip | pages/04_log_viewer.py:277-279 | A boolean the logger writes is read back as that boolean |
| LogPatterns.HexValueOfDigit | interview_logging/interview_logger.py:69-85 | A hexadecimal digit is read back as its value |
| LogPatterns.EscapeRoundTrip | interview_logging/interview_logger.py:69-85 | Decoding a JSON-escaped string in one pass gives the string back |
| LogPatterns.ScanEscapedRoundTrip | pages/04_log_viewer.py:225 | The escaped-string pattern captures exactly the escaped body, up to its closing quote |
| LogPatterns.EscapedRoundTrip | pages/04_log_viewer.py:225-231 | A prompt or response the logger writes is read back exactly |
| LogPatterns.ReplaceChainCorrupts | pages/04_log_viewer.py:230 | The replace chain turns the escaped text `\\n` into a backslash and a line break, where decoding gives back `\n` |
| Text.Strip | agents/security_agent.py:48-55 | `strip()` leaves no surrounding whitespace |
| Text.StripSlice | agents/security_agent.py:48-55 | `strip()` returns the slice of its argument that has only whitespace before and after it, the leading whitespace being exactly what `TrimStart` drops |
| Text.StripEmpty | agents/security_agent.py:29 | `strip()` leaves nothing exactly when the text is all whitespace |
| Text.StripIdempotent | agents/security_agent.py:48-55 | Stripping twice is stripping once |
| Text.JoinSplit | pages/04_log_viewer.py:183 | Joining the parts of a split with its separator gives the text back |
| Text.SplitJoin | pages/04_log_viewer.py:161 | Splitting lines joined by a character they lack gives the lines back |

## Left out

- The language model and `json.loads` are parameters (a `Model` and a `Decoder`): replies, their wording and their parse are not modelled, only how each stage uses them.
- Every stage is total. The model leaves out the ways a stage's prompt or model call can raise and end the run:
  - the `ValueError` of `get_prompt` (management/prompt_manager.py:227 and 245), reached from agents/base_agent.py:37-40;
  - the `KeyError` of the inlined agents on a topic without a `theme` (multi_agent_system.py:210, 494 and 585);
  - any exception of `model.invoke`.
- Logging calls, prints and timing in the agents are dropped. Their outputs are not part of the record.
- The Streamlit pages, speech input and output, `get_log_sessions` and the JSON log reader are not modelled. The file reads and YAML loading of prompt configs are left out too; a `Manager` is built from a map of configs.
- The LangGraph checkpointer and `interrupt_before` machinery are modelled by their effect: a run stops before `human_input_node`, and a resume runs on from its successor with the answer written in.
- `Graph.Step`: a failed run carries the record after the failing node ran. LangGraph raises at the path-map lookup and does not commit that node's writes. No property of the model depends on the record of a failed run.
- `final_feedback` is never written by any agent. The model keeps it and proves the feedback agent leaves it alone.
- The record is the one `streamlit_app_ja-voice.py:180-201` builds, with every key present, so the stages' `.get(key, default)` defaults never fire and are not modelled. `streamlit_app_ja.py:105-125` builds the same record without a `final_feedback` key; the model gives that key its empty value there too. The empty dictionary `{}` for `current_topic` is modelled as `None`.
- The inlined agents of `multi_agent_system.py` write the same fields as the modular agents. They differ in their prompts, which the `Model` parameter covers, and in reading `current_topic['theme']` directly, which raises on a topic without a theme (listed above). The model shares the stage functions between the two builds and models separately only what differs: the routers, the label maps and the feedback prompt texts.
- `Engine.Session` holds the record as one field `state`. The source's in-place updates of single keys are modelled as record updates of that field.
- Python's `\d` and `\w` are taken over ASCII only. Whitespace (`str.strip()`, `IsBlank` and `\s`) is Python's full `str.isspace()` set, so an answer of ideographic spaces is rejected as blank (`SecurityAgent.WideSpaceRejected`).
- `PromptManager.GetNestedValue`: a step into a value that is not a dictionary counts as a miss. The source walks on with `getattr`. No field of the interview record reaches that case.
- List values are rendered in the prompt manager one item per line with their markers. A list or dictionary nested inside an item renders as a fixed marker, not as Python's `repr`.
- `Templates.Fill`: only `{name}` placeholders are modelled, so `PromptManager.PromptFailsIff` and `PromptManager.PromptWithoutPlaceholders` hold only for templates whose only braces are placeholders. Python's `format` also errors on a stray `{` or `}`, on `{}` and on a digit-only name such as `{0}`, and turns `{{` and `}}` into single braces. None of that is modelled, nor is the text of such an error.
- `SecurityAgent.Validate` and `TopicGuide.Evaluate`: a `Decoder` yields an object with optional boolean fields, or nothing when the reply is not JSON. Two cases cannot be expressed:
  - `json.loads` returning a value other than an object. The source then fails on `.get` with an uncaught `AttributeError` (agents/security_agent.py:57-58, agents/topic_guide.py:49-50).
  - a `passed` or `depth_sufficient` value that is not a boolean, such as the string `"false"`. Python then uses its truthiness.
- `PromptManager.Validate`: the warning texts are modelled, but the contract states only when a prompt is valid. The classification of its variables is proved in `PromptManager.ValidationPartition`.
- `LogViewer.ExtractUsername`: the contract states only that the name is non-empty; what it returns is stated by `LogViewer.UsernameRoundTrip` and `LogViewer.NoDashUnknown`.
- `LogPatterns.ScanEscaped`: the function itself states only where the capture ends; what it captures is stated by `LogPatterns.ScanEscapedRoundTrip`.
- The log viewer is modelled with the corrected one-pass decoding of escaped prompts and responses. The source's replace chain is modelled by `LogPatterns.ReplaceChain` for the finding below.

## Findings

| source | as written | input that shows it | evidently intended | confidence | as-written member | corrected member |
|---|---|---|---|---|---|---|
| multi_agent_system.py:853-884 | The inlined graph's conditional maps are keyed by outcome names (`failed`/`passed`, `ask_again`/`max_retries`, `next_topic`/`ask_deeper`/`end`). Its routers at multi_agent_system.py:742-794 return node names (`judge`, `topic_guide`, `human_input_node`, `probing_agent`, `topic_agent`, `end`), so only `end` appears on both sides. | Any resume: the security router returns `judge` or `topic_guide`, and the map has neither key. | The maps are keyed by the labels the routers return, as in core/graph.py:128-159. | not executed | Progress.InlinedResumeFails | Progress.CoreNeverFails |
| pages/04_log_viewer.py:230 | The escaped prompt and response bodies are decoded by four `replace` calls in a row (`\n`, `\t`, `\"`, `\\`); the same chain is at pages/04_log_viewer.py:257. | The prompt text `\n` (a backslash and the letter n) is logged by `json.dumps` as `\\n`; the chain reads it back as a backslash and a line break. | Each escape sequence is decoded once, left to right, giving the logged text back. | not executed | LogPatterns.ReplaceChainCorrupts | LogPatterns.EscapedRoundTrip |
