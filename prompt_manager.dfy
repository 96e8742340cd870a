/** Prompt-template resolution (management/prompt_manager.py): dotted
    lookups into the interview record, the priority order of auto-fill,
    list formatting, the derived variables, the missing-variable error
    and the validation report. */
module PromptManager {
  import opened Wrappers
  import opened Text
  import opened InterviewState
  import opened Summaries
  import opened Templates

  /** The Python values a prompt variable or a state entry can hold;
      `Null` is `None`. */
  datatype Value =
    | Null
    | Str(s: string)
    | Int(i: int)
    | Bool(b: bool)
    | List(items: seq<Value>)
    | Dict(entries: map<string, Value>)

  /** Python truthiness. */
  predicate Truthy(v: Value) {
    match v
    case Null => false
    case Str(s) => s != []
    case Int(i) => i != 0
    case Bool(b) => b
    case List(xs) => xs != []
    case Dict(m) => m != map[]
  }

  function IntToString(i: int): string {
    if i < 0 then "-" + NatToString(-i) else NatToString(i)
  }

  /** `str(value)` as `str.format` inserts it. Lists and dictionaries only
      reach here nested inside other values; their Python `repr` is not
      modelled and they render as a fixed marker. */
  function Render(v: Value): string {
    match v
    case Null => "None"
    case Str(s) => s
    case Int(i) => IntToString(i)
    case Bool(b) => if b then "True" else "False"
    case List(_) => "[...]"
    case Dict(_) => "{...}"
  }

  // ---------------------------------------------------------------------
  // The interview record as the dictionary the manager looks into.

  function Strs(xs: seq<string>): (r: seq<Value>)
    ensures |r| == |xs| && forall k :: 0 <= k < |xs| ==> r[k] == Str(xs[k])
  {
    seq(|xs|, k requires 0 <= k < |xs| => Str(xs[k]))
  }

  /** A catalog entry; the `theme` key is absent when the catalog row has
      none. */
  function TopicValue(t: Topic): Value {
    var base := map["topic" := Str(t.topic), "example_questions" := List(Strs(t.exampleQuestions))];
    match t.theme
    case Some(theme) => Dict(base["theme" := Str(theme)])
    case None => Dict(base)
  }

  /** The dictionary each stage appends to `conversation_history`. */
  function EntryValue(e: Entry): Value {
    match e
    case TopicQuestion(topic, question, tokens) =>
      Dict(map["agent" := Str("topic_agent"), "topic" := Str(topic), "question" := Str(question), "tokens" := Int(tokens)])
    case UserAnswer(question, answer, passed) =>
      Dict(map["type" := Str("user_answer"), "question" := Str(question), "answer" := Str(answer), "passed" := Bool(passed)])
    case JudgeGiveUp(feedback, retryCount) =>
      Dict(map["agent" := Str("judge"), "feedback" := Str(feedback), "action" := Str("max_retries_exceeded"), "retry_count" := Int(retryCount)])
    case JudgeRetry(feedback, retryCount, tokens) =>
      Dict(map["agent" := Str("judge"), "feedback" := Str(feedback), "retry_count" := Int(retryCount), "tokens" := Int(tokens)])
    case DepthEvaluation(evaluation, depthSufficient, tokens) =>
      Dict(map["agent" := Str("topic_guide"), "evaluation" := Str(evaluation), "depth_sufficient" := Bool(depthSufficient), "tokens" := Int(tokens)])
    case FollowUp(question, tokens) =>
      Dict(map["agent" := Str("probing_agent"), "question" := Str(question), "tokens" := Int(tokens)])
    case FinalAssessment(feedback, tokens) =>
      Dict(map["agent" := Str("feedback_agent"), "feedback" := Str(feedback), "tokens" := Int(tokens)])
  }

  /** The record under the key names of `InterviewState`; a session that
      has not reached its first topic holds `{}` as `current_topic`. */
  function StateFields(st: State): map<string, Value> {
    map[
      "topics" := List(seq(|st.topics|, k requires 0 <= k < |st.topics| => TopicValue(st.topics[k]))),
      "current_topic_index" := Int(st.currentTopicIndex),
      "current_topic" := (match st.currentTopic case Some(t) => TopicValue(t) case None => Dict(map[])),
      "topic_iteration_count" := Int(st.topicIterationCount),
      "max_iterations_per_topic" := Int(st.maxIterationsPerTopic),
      "current_question" := Str(st.currentQuestion),
      "user_answer" := Str(st.userAnswer),
      "security_passed" := Bool(st.securityPassed),
      "security_feedback" := Str(st.securityFeedback),
      "topic_depth_sufficient" := Bool(st.topicDepthSufficient),
      "topic_feedback" := Str(st.topicFeedback),
      "judge_retry_count" := Int(st.judgeRetryCount),
      "max_judge_retries" := Int(st.maxJudgeRetries),
      "interview_complete" := Bool(st.interviewComplete),
      "conversation_history" := List(seq(|st.conversationHistory|, k requires 0 <= k < |st.conversationHistory| => EntryValue(st.conversationHistory[k]))),
      "final_feedback" := Str(st.finalFeedback),
      "current_agent" := Str(st.currentAgent),
      "total_tokens" := Int(st.totalTokens),
      "last_message_tokens" := Int(st.lastMessageTokens),
      "waiting_for_user_input" := Bool(st.waitingForUserInput)
    ]
  }

  // ---------------------------------------------------------------------
  // `_get_nested_value`

  /** One step of the dotted walk: a dictionary's entry, `None` for a
      missing key or for a value that is not a dictionary. */
  function Attribute(v: Value, key: string): Value {
    if v.Dict? && key in v.entries then v.entries[key] else Null
  }

  /** The walk along `keys`, stopping at the first `None`. */
  function Lookup(v: Value, keys: seq<string>): Value
    decreases |keys|
  {
    if keys == [] then v
    else
      var next := Attribute(v, keys[0]);
      if next.Null? then Null else Lookup(next, keys[1..])
  }

  function NestedValue(obj: Value, path: string): Value {
    Lookup(obj, Split(path, "."))
  }

  method GetNestedValue(obj: Value, path: string) returns (value: Value)
    ensures value == NestedValue(obj, path)
  {
    var keys := Split(path, ".");
    value := obj;
    var i := 0;
    while i < |keys|
      invariant i <= |keys|
      invariant Lookup(obj, keys) == Lookup(value, keys[i..])
    {
      assert keys[i..][1..] == keys[i + 1..];
      if value.Dict? {
        value := if keys[i] in value.entries then value.entries[keys[i]] else Null;
      } else {
        value := Null;
      }
      if value.Null? {
        return Null;
      }
      i := i + 1;
    }
  }

  lemma {:induction false} LookupOfNull(keys: seq<string>)
    ensures Lookup(Null, keys) == Null
  {
  }

  /** A walk along `a + b` is the walk along `b` from where the walk
      along `a` ends, unless that one already met `None`. */
  lemma {:induction false} LookupCompose(v: Value, a: seq<string>, b: seq<string>)
    ensures Lookup(v, a + b) == if Lookup(v, a).Null? then Null else Lookup(Lookup(v, a), b)
    decreases |a|
  {
    if a == [] {
      assert a + b == b;
      LookupOfNull(b);
    } else {
      assert (a + b)[0] == a[0] && (a + b)[1..] == a[1..] + b;
      if !Attribute(v, a[0]).Null? {
        LookupCompose(Attribute(v, a[0]), a[1..], b);
      }
    }
  }

  /** The walk gives `None` exactly when some prefix of the path does. */
  lemma LookupStopsAtNull(v: Value, keys: seq<string>)
    ensures Lookup(v, keys).Null? <==> exists i :: 0 <= i <= |keys| && Lookup(v, keys[..i]).Null?
  {
    assert keys[..|keys|] == keys;
    if exists i :: 0 <= i <= |keys| && Lookup(v, keys[..i]).Null? {
      var i :| 0 <= i <= |keys| && Lookup(v, keys[..i]).Null?;
      assert keys == keys[..i] + keys[i..];
      LookupCompose(v, keys[..i], keys[i..]);
    }
  }

  /** A dotted path takes its first key off the front. */
  lemma NestedValueStep(obj: Value, key: string, rest: string)
    requires '.' !in key
    ensures NestedValue(obj, key + "." + rest) ==
      if Attribute(obj, key).Null? then Null else NestedValue(Attribute(obj, key), rest)
  {
    assert key + "."[..0] == key;
    ContainsChar(key, '.');
    SplitLeadingField(key, rest, ".");
    assert ([key] + Split(rest, "."))[1..] == Split(rest, ".");
  }

  /** A path without a dot is a single dictionary lookup. */
  lemma NestedValueOfName(obj: Value, name: string)
    requires '.' !in name
    ensures NestedValue(obj, name) == Attribute(obj, name)
  {
    ContainsChar(name, '.');
    assert "." == ['.'];
    assert IndexOf(name, ".").None?;
    assert Split(name, ".") == [name];
    assert Lookup(obj, [name]) == Attribute(obj, name);
  }

  // ---------------------------------------------------------------------
  // `_auto_fill_variable`

  /** For each template variable, the state paths tried in order. */
  type Mappings = map<string, seq<string>>

  /** The eleven aliases the manager starts with. */
  const DefaultMappings: Mappings := map[
    "question" := ["current_question", "question"],
    "answer" := ["user_answer", "answer"],
    "theme" := ["current_topic.theme", "theme"],
    "topic" := ["current_topic.topic", "topic"],
    "example_questions" := ["current_topic.example_questions", "example_questions"],
    "prev_question" := ["current_question", "previous_question"],
    "assessment" := ["topic_feedback", "assessment"],
    "feedback" := ["security_feedback", "feedback"],
    "retry_msg" := ["judge_retry_msg", "retry_msg"],
    "themes_text" := ["themes_summary", "themes_text"],
    "conversation_text" := ["conversation_summary", "conversation_text"]
  ]

  /** The value at the first of `paths` that is not `None`, else `None`. */
  function FirstFound(obj: Value, paths: seq<string>): Value
    decreases |paths|
  {
    if paths == [] then Null
    else
      var v := NestedValue(obj, paths[0]);
      if !v.Null? then v else FirstFound(obj, paths[1..])
  }

  /** `FirstFound` is `None` only when every path is, and otherwise is the
      value of the earliest path that is not. */
  lemma {:induction false} FirstFoundEarliest(obj: Value, paths: seq<string>)
    ensures FirstFound(obj, paths).Null? <==> forall k :: 0 <= k < |paths| ==> NestedValue(obj, paths[k]).Null?
    ensures !FirstFound(obj, paths).Null? ==>
      exists k :: 0 <= k < |paths| && FirstFound(obj, paths) == NestedValue(obj, paths[k]) &&
        forall j :: 0 <= j < k ==> NestedValue(obj, paths[j]).Null?
    decreases |paths|
  {
    if paths != [] && NestedValue(obj, paths[0]).Null? {
      FirstFoundEarliest(obj, paths[1..]);
      assert forall k :: 1 <= k < |paths| ==> paths[k] == paths[1..][k - 1];
      if !FirstFound(obj, paths).Null? {
        var k :| 0 <= k < |paths[1..]| && FirstFound(obj, paths[1..]) == NestedValue(obj, paths[1..][k]) &&
          forall j :: 0 <= j < k ==> NestedValue(obj, paths[1..][j]).Null?;
        assert FirstFound(obj, paths) == NestedValue(obj, paths[k + 1]);
      }
    }
  }

  /** The four tries in priority order: explicit values, the mapped state
      paths, the state key itself, the name as a dotted path. */
  function AutoFill(mappings: Mappings, name: string, state: map<string, Value>, explicit: map<string, Value>): Value {
    if name in explicit then explicit[name]
    else
      var mapped := if name in mappings then FirstFound(Dict(state), mappings[name]) else Null;
      if !mapped.Null? then mapped
      else if name in state then state[name]
      else NestedValue(Dict(state), name)
  }

  method AutoFillVariable(mappings: Mappings, name: string, state: map<string, Value>, explicit: map<string, Value>)
    returns (value: Value)
    ensures value == AutoFill(mappings, name, state, explicit)
  {
    if name in explicit {
      return explicit[name];
    }
    if name in mappings {
      var paths := mappings[name];
      var i := 0;
      while i < |paths|
        invariant i <= |paths|
        invariant FirstFound(Dict(state), paths) == FirstFound(Dict(state), paths[i..])
      {
        assert paths[i..][1..] == paths[i + 1..];
        value := GetNestedValue(Dict(state), paths[i]);
        if !value.Null? {
          return value;
        }
        i := i + 1;
      }
    }
    if name in state {
      return state[name];
    }
    value := GetNestedValue(Dict(state), name);
  }

  /** For a variable name (no dot) the last try adds nothing: a value
      comes from the explicit values, else from the earliest mapped path
      that holds one, else from the state key of that name, else there is
      none. */
  lemma AutoFillPriority(mappings: Mappings, name: string, state: map<string, Value>, explicit: map<string, Value>)
    requires '.' !in name
    ensures var r := AutoFill(mappings, name, state, explicit);
      && (name in explicit ==> r == explicit[name])
      && (name !in explicit && name in mappings && !FirstFound(Dict(state), mappings[name]).Null? ==>
            r == FirstFound(Dict(state), mappings[name]))
      && (name !in explicit && (name !in mappings || FirstFound(Dict(state), mappings[name]).Null?) ==>
            r == if name in state then state[name] else Null)
  {
    NestedValueOfName(Dict(state), name);
  }

  /** A mapped variable whose first path is a plain key holding a value
      takes that value. */
  lemma FirstPathHit(mappings: Mappings, name: string, state: map<string, Value>, path: string)
    requires name in mappings && mappings[name] != [] && mappings[name][0] == path
    requires '.' !in path && path in state && !state[path].Null?
    ensures AutoFill(mappings, name, state, map[]) == state[path]
  {
    NestedValueOfName(Dict(state), path);
  }

  /** A mapped variable none of whose paths and not its own name are keys
      of the state finds nothing. */
  lemma AllPathsMiss(mappings: Mappings, name: string, state: map<string, Value>)
    requires name in mappings && '.' !in name && name !in state
    requires forall k :: 0 <= k < |mappings[name]| ==> '.' !in mappings[name][k] && mappings[name][k] !in state
    ensures AutoFill(mappings, name, state, map[]).Null?
  {
    var paths := mappings[name];
    forall k | 0 <= k < |paths| ensures NestedValue(Dict(state), paths[k]).Null? {
      NestedValueOfName(Dict(state), paths[k]);
    }
    FirstFoundEarliest(Dict(state), paths);
    NestedValueOfName(Dict(state), name);
  }

  /** On the interview record `{feedback}` reads the answer validator's
      feedback, the first of its paths. */
  lemma FeedbackOnInterviewState(st: State)
    ensures AutoFill(DefaultMappings, "feedback", StateFields(st), map[]) == Str(st.securityFeedback)
  {
    var fields := StateFields(st);
    assert "security_feedback" in fields && fields["security_feedback"] == Str(st.securityFeedback);
    assert DefaultMappings["feedback"] == ["security_feedback", "feedback"];
    FirstPathHit(DefaultMappings, "feedback", fields, "security_feedback");
  }

  /** `{retry_msg}` finds nothing in the interview record, under its alias
      or its own name: only the derived value supplies it. */
  lemma RetryMsgNotInState(st: State)
    ensures AutoFill(DefaultMappings, "retry_msg", StateFields(st), map[]).Null?
  {
    RetryMsgKeysAbsent(st);
    RetryMsgPaths();
    AllPathsMiss(DefaultMappings, "retry_msg", StateFields(st));
  }

  lemma RetryMsgKeysAbsent(st: State)
    ensures "retry_msg" !in StateFields(st) && "judge_retry_msg" !in StateFields(st)
  {
    var fields := StateFields(st);
    assert "retry_msg" !in fields.Keys;
  }

  lemma RetryMsgPaths()
    ensures "retry_msg" in DefaultMappings
    ensures DefaultMappings["retry_msg"] == ["judge_retry_msg", "retry_msg"]
  {
  }

  // ---------------------------------------------------------------------
  // `_format_list_variable`

  /** How a list variable's lines begin. */
  datatype ListStyle = Dashed | Numbered | Plain

  function StyleOf(name: string): ListStyle {
    if name in ["example_questions", "questions"] then Dashed
    else if name in ["guidelines", "criteria", "rules"] then Numbered
    else if name in ["fail_criteria", "issues"] then Dashed
    else Plain
  }

  /** The text in front of the `k`-th item (counting from 0). */
  function Marker(style: ListStyle, k: nat): string {
    match style
    case Dashed => "- "
    case Numbered => NatToString(k + 1) + ". "
    case Plain => ""
  }

  function ListLines(items: seq<Value>, name: string): (lines: seq<string>)
    ensures |lines| == |items|
  {
    seq(|items|, k requires 0 <= k < |items| => Marker(StyleOf(name), k) + Render(items[k]))
  }

  function FormatList(items: seq<Value>, name: string): string {
    Join(ListLines(items, name), "\n")
  }

  lemma MarkerHasNoNewline(style: ListStyle, k: nat)
    ensures '\n' !in Marker(style, k)
  {
    if style.Numbered? {
      var ds := NatToString(k + 1);
      assert Marker(style, k) == ds + ". ";
      assert '\n' !in ds by {
        forall i | 0 <= i < |ds| ensures ds[i] != '\n' {
          assert IsDigit(ds[i]);
        }
      }
    }
  }

  /** The formatted text splits back into one line per item, the `k`-th
      being the item behind its marker ("- ", "k+1. " or nothing). */
  lemma FormatListLines(items: seq<Value>, name: string)
    requires items != []
    requires forall k :: 0 <= k < |items| ==> '\n' !in Render(items[k])
    ensures var lines := Split(FormatList(items, name), "\n");
      && |lines| == |items|
      && forall k :: 0 <= k < |items| ==> lines[k] == Marker(StyleOf(name), k) + Render(items[k])
  {
    var lines := ListLines(items, name);
    forall k | 0 <= k < |lines| ensures '\n' !in lines[k] {
      MarkerHasNoNewline(StyleOf(name), k);
    }
    SplitJoin(lines, '\n');
  }

  /** A list value becomes its formatted text; anything else is kept. */
  function ListText(v: Value, name: string): Value {
    if v.List? then Str(FormatList(v.items, name)) else v
  }

  // ---------------------------------------------------------------------
  // `_prepare_special_variables`

  /** " (Attempt c/m)" from the second attempt on, else nothing. */
  function RetryMsg(count: nat, maxRetries: nat): (r: string)
    ensures r == [] <==> count <= 1
  {
    if count > 1 then " (Attempt " + NatToString(count) + "/" + NatToString(maxRetries) + ")" else ""
  }

  /** The derived variables of the interview record: the retry notice,
      the topics grouped under their themes in order of first appearance,
      and the question and answer lines of the first 20 history entries. */
  function SpecialVariables(st: State): map<string, Value> {
    map[
      "retry_msg" := Str(RetryMsg(st.judgeRetryCount, st.maxJudgeRetries)),
      "themes_text" := Str(ThemesText(Grouped(st.topics), true)),
      "conversation_text" := Str(ManagerConversationText(st.conversationHistory))
    ]
  }

  method PrepareSpecialVariables(st: State) returns (special: map<string, Value>)
    ensures special == SpecialVariables(st)
  {
    special := map[];
    var count, maxRetries := st.judgeRetryCount, st.maxJudgeRetries;
    if count > 1 {
      special := special["retry_msg" := Str(" (Attempt " + NatToString(count) + "/" + NatToString(maxRetries) + ")")];
    } else {
      special := special["retry_msg" := Str("")];
    }
    var groups := GroupByTheme(st.topics);
    var themeLines := seq(|groups|, k requires 0 <= k < |groups| => ThemeLine(groups[k], true));
    special := special["themes_text" := Str(Join(themeLines, "\n"))];
    var h := st.conversationHistory;
    var summary := CollectSummaryLines(h[..Min(20, |h|)]);
    special := special["conversation_text" := Str(Join(summary, "\n"))];
  }

  // ---------------------------------------------------------------------
  // `get_prompt`

  /** One agent's entry of the prompts file. */
  type AgentConfig = map<string, Value>

  /** `agent_config.get('template', '')`; a non-string template (which
      Python would reject) reads as empty. */
  function TemplateOf(config: AgentConfig): string {
    if "template" in config && config["template"].Str? then config["template"].s else ""
  }

  /** The names of `xs` that are not keys of `m`, in order. */
  function Absent(xs: seq<string>, m: map<string, Value>): (r: seq<string>)
    ensures forall x :: x in r <==> x in xs && x !in m
    decreases |xs|
  {
    if xs == [] then []
    else Absent(xs[..|xs| - 1], m) + (if xs[|xs| - 1] in m then [] else [xs[|xs| - 1]])
  }

  lemma {:induction false} AbsentSorted(xs: seq<string>, m: map<string, Value>)
    requires StrictlySorted(xs)
    ensures StrictlySorted(Absent(xs, m))
    decreases |xs|
  {
    if xs != [] {
      var init := xs[..|xs| - 1];
      assert StrictlySorted(init);
      AbsentSorted(init, m);
      var prev := Absent(init, m);
      forall y | y in prev ensures Less(y, xs[|xs| - 1]) {
        var j :| 0 <= j < |init| && init[j] == y;
        assert xs[j] == y;
      }
      if xs[|xs| - 1] !in m {
        var r := prev + [xs[|xs| - 1]];
        forall a, b | 0 <= a < b < |r| ensures Less(r[a], r[b]) {
          if b == |r| - 1 {
            assert r[a] == prev[a] && r[a] in prev;
          } else {
            assert r[a] == prev[a] && r[b] == prev[b];
          }
        }
      }
    }
  }

  /** `formatted_kwargs` once the derived values are added (the explicit
      ones win). */
  function WithSpecial(kwargs: map<string, Value>, state: Option<State>, autoFill: bool): map<string, Value> {
    if state.Some? && autoFill then SpecialVariables(state.value) + kwargs else kwargs
  }

  /** Every name of `vars` without a value in `fk` that auto-fill can
      supply, added to `fk`. */
  function AutoFilled(fk: map<string, Value>, vars: seq<string>, mappings: Mappings,
                      fields: map<string, Value>, kwargs: map<string, Value>): map<string, Value>
    decreases |vars|
  {
    if vars == [] then fk
    else
      var prev := AutoFilled(fk, vars[..|vars| - 1], mappings, fields, kwargs);
      var v := vars[|vars| - 1];
      var value := AutoFill(mappings, v, fields, kwargs);
      if v in prev || value.Null? then prev else prev[v := value]
  }

  /** Auto-fill keeps every value already there and adds exactly the
      variables it finds a value for. */
  lemma {:induction false} AutoFilledAt(fk: map<string, Value>, vars: seq<string>, mappings: Mappings,
                                        fields: map<string, Value>, kwargs: map<string, Value>, v: string)
    ensures var r := AutoFilled(fk, vars, mappings, fields, kwargs);
      && (v in r <==> v in fk || (v in vars && !AutoFill(mappings, v, fields, kwargs).Null?))
      && (v in fk ==> r[v] == fk[v])
      && (v !in fk && v in r ==> r[v] == AutoFill(mappings, v, fields, kwargs))
    decreases |vars|
  {
    if vars != [] {
      var init := vars[..|vars| - 1];
      AutoFilledAt(fk, init, mappings, fields, kwargs, v);
      assert v in vars <==> v in init || v == vars[|vars| - 1];
    }
  }

  /** `formatted_kwargs` before the agent's configuration is consulted. */
  function Filled(vars: seq<string>, state: Option<State>, autoFill: bool,
                  kwargs: map<string, Value>, mappings: Mappings): map<string, Value>
  {
    var fk := WithSpecial(kwargs, state, autoFill);
    if state.Some? && autoFill then AutoFilled(fk, vars, mappings, StateFields(state.value), kwargs) else fk
  }


  /** The missing names the agent's configuration holds, added to `fk`. */
  function WithConfig(fk: map<string, Value>, missing: seq<string>, config: AgentConfig): map<string, Value>
    decreases |missing|
  {
    if missing == [] then fk
    else
      var prev := WithConfig(fk, missing[..|missing| - 1], config);
      var v := missing[|missing| - 1];
      if v in config then prev[v := ListText(config[v], v)] else prev
  }

  /** The values `get_prompt` has for the template's variables. */
  function Resolved(config: AgentConfig, state: Option<State>, autoFill: bool,
                    kwargs: map<string, Value>, mappings: Mappings): map<string, Value>
  {
    var vars := SortedVariables(TemplateOf(config));
    var fk := Filled(vars, state, autoFill, kwargs, mappings);
    WithConfig(fk, Absent(vars, fk), config)
  }

  /** The `ValueError` of a template variable nothing supplies: the agent,
      the missing names sorted and the names the template needs sorted. */
  datatype PromptError = MissingVariables(agent: string, missing: seq<string>, needed: seq<string>)

  /** The text each value is formatted as. */
  function FinalTexts(fk: map<string, Value>): map<string, string> {
    map k | k in fk :: Render(ListText(fk[k], k))
  }

  function Prompt(agent: string, config: AgentConfig, state: Option<State>, autoFill: bool,
                  kwargs: map<string, Value>, mappings: Mappings): Result<string, PromptError>
  {
    var template := TemplateOf(config);
    var vars := SortedVariables(template);
    var fk := Filled(vars, state, autoFill, kwargs, mappings);
    var missing := Absent(vars, fk);
    var still := Absent(missing, config);
    if still != [] then Failure(MissingVariables(agent, still, vars))
    else Success(Fill(template, FinalTexts(WithConfig(fk, missing, config))))
  }

  /** Whether some source supplies `v`. */
  predicate Supplied(v: string, config: AgentConfig, state: Option<State>, autoFill: bool,
                     kwargs: map<string, Value>, mappings: Mappings)
  {
    || v in kwargs
    || (state.Some? && autoFill && (v in SpecialVariables(state.value) ||
          !AutoFill(mappings, v, StateFields(state.value), kwargs).Null?))
    || v in config
  }

  /** Before the configuration: explicit values first, then the derived
      values, then auto-fill. */
  lemma FilledPriority(vars: seq<string>, state: Option<State>, autoFill: bool,
                       kwargs: map<string, Value>, mappings: Mappings, v: string)
    requires v in vars
    ensures var fk := Filled(vars, state, autoFill, kwargs, mappings);
      && (v in fk <==> (v in kwargs || (state.Some? && autoFill && (v in SpecialVariables(state.value) ||
            !AutoFill(mappings, v, StateFields(state.value), kwargs).Null?))))
      && (v in kwargs ==> fk[v] == kwargs[v])
      && (v !in kwargs && state.Some? && autoFill && v in SpecialVariables(state.value) ==>
            fk[v] == SpecialVariables(state.value)[v])
      && (v !in kwargs && state.Some? && autoFill && v !in SpecialVariables(state.value) &&
          !AutoFill(mappings, v, StateFields(state.value), kwargs).Null? ==>
            fk[v] == AutoFill(mappings, v, StateFields(state.value), kwargs))
  {
    if state.Some? && autoFill {
      AutoFilledAt(WithSpecial(kwargs, state, autoFill), vars, mappings, StateFields(state.value), kwargs, v);
    }
  }

  /** The configuration only fills what is still missing. */
  lemma {:induction false} WithConfigPriority(fk: map<string, Value>, missing: seq<string>, config: AgentConfig, v: string)
    ensures var r := WithConfig(fk, missing, config);
      && (v in r <==> v in fk || (v in missing && v in config))
      && (v !in missing && v in fk ==> r[v] == fk[v])
      && (v in missing && v in config ==> r[v] == ListText(config[v], v))
    decreases |missing|
  {
    if missing != [] {
      var init := missing[..|missing| - 1];
      WithConfigPriority(fk, init, config, v);
      assert v in missing <==> v in init || v == missing[|missing| - 1];
    }
  }

  /** Where each template variable's value comes from, in priority order:
      explicit values, then the derived values, then auto-fill, then the
      agent's configuration (lists formatted). A variable has a value
      exactly when some source supplies it. */
  lemma ResolvedPriority(config: AgentConfig, state: Option<State>, autoFill: bool,
                         kwargs: map<string, Value>, mappings: Mappings, v: string)
    requires v in Variables(TemplateOf(config))
    ensures var fk := Resolved(config, state, autoFill, kwargs, mappings);
      && (v in fk <==> Supplied(v, config, state, autoFill, kwargs, mappings))
      && (v in kwargs ==> fk[v] == kwargs[v])
      && (v !in kwargs && state.Some? && autoFill && v in SpecialVariables(state.value) ==>
            fk[v] == SpecialVariables(state.value)[v])
      && (v !in kwargs && state.Some? && autoFill && v !in SpecialVariables(state.value) &&
          !AutoFill(mappings, v, StateFields(state.value), kwargs).Null? ==>
            fk[v] == AutoFill(mappings, v, StateFields(state.value), kwargs))
      && (!Supplied(v, map[], state, autoFill, kwargs, mappings) && v in config ==>
            fk[v] == ListText(config[v], v))
  {
    var vars := SortedVariables(TemplateOf(config));
    assert v in vars;
    var fk := Filled(vars, state, autoFill, kwargs, mappings);
    FilledPriority(vars, state, autoFill, kwargs, mappings, v);
    WithConfigPriority(fk, Absent(vars, fk), config, v);
  }

  /** `get_prompt` fails exactly when a template variable has no source;
      the error lists those variables, sorted, each once. */
  lemma PromptFailsIff(agent: string, config: AgentConfig, state: Option<State>, autoFill: bool,
                       kwargs: map<string, Value>, mappings: Mappings)
    ensures var r := Prompt(agent, config, state, autoFill, kwargs, mappings);
      && (r.Failure? <==> exists v :: v in Variables(TemplateOf(config)) && !Supplied(v, config, state, autoFill, kwargs, mappings))
      && (r.Failure? ==> (StrictlySorted(r.error.missing) &&
            forall v :: v in r.error.missing <==> v in Variables(TemplateOf(config)) && !Supplied(v, config, state, autoFill, kwargs, mappings)))
  {
    var vars := SortedVariables(TemplateOf(config));
    var fk := Filled(vars, state, autoFill, kwargs, mappings);
    var missing := Absent(vars, fk);
    var still := Absent(missing, config);
    AbsentSorted(vars, fk);
    AbsentSorted(missing, config);
    forall v | v in vars
      ensures v in still <==> !Supplied(v, config, state, autoFill, kwargs, mappings)
    {
      FilledPriority(vars, state, autoFill, kwargs, mappings, v);
    }
    if still != [] {
      assert still[0] in still;
    }
  }

  /** Explicit values win: every variable given explicitly is formatted
      from the explicit value. */
  lemma ExplicitValuesWin(config: AgentConfig, state: Option<State>, autoFill: bool,
                          kwargs: map<string, Value>, mappings: Mappings, v: string)
    requires v in Variables(TemplateOf(config)) && v in kwargs
    ensures v in FinalTexts(Resolved(config, state, autoFill, kwargs, mappings))
    ensures FinalTexts(Resolved(config, state, autoFill, kwargs, mappings))[v] == Render(ListText(kwargs[v], v))
  {
    ResolvedPriority(config, state, autoFill, kwargs, mappings, v);
  }

  /** A template without placeholders needs nothing and comes back
      unchanged. */
  lemma PromptWithoutPlaceholders(agent: string, config: AgentConfig, state: Option<State>, autoFill: bool,
                                  kwargs: map<string, Value>, mappings: Mappings)
    requires Placeholders(TemplateOf(config)) == []
    ensures Prompt(agent, config, state, autoFill, kwargs, mappings) == Success(TemplateOf(config))
  {
    var fk := Resolved(config, state, autoFill, kwargs, mappings);
    assert SortedVariables(TemplateOf(config)) == [];
    FillWithoutPlaceholders(TemplateOf(config), FinalTexts(fk));
  }

  // The loops of `get_prompt`, one method each.

  /** Adds each derived value whose name has no value yet. */
  method AddSpecial(kwargs: map<string, Value>, special: map<string, Value>) returns (fk: map<string, Value>)
    ensures fk == special + kwargs
  {
    fk := kwargs;
    var keys := special.Keys;
    while keys != {}
      invariant keys <= special.Keys
      invariant fk == (map k | k in special.Keys - keys :: special[k]) + kwargs
      decreases keys
    {
      var k :| k in keys;
      if k !in fk {
        fk := fk[k := special[k]];
      }
      keys := keys - {k};
    }
  }

  /** Auto-fills each template variable that has no value yet. */
  method AutoFillAll(fk0: map<string, Value>, vars: seq<string>, mappings: Mappings,
                     fields: map<string, Value>, kwargs: map<string, Value>) returns (fk: map<string, Value>)
    ensures fk == AutoFilled(fk0, vars, mappings, fields, kwargs)
  {
    fk := fk0;
    var i := 0;
    while i < |vars|
      invariant i <= |vars|
      invariant fk == AutoFilled(fk0, vars[..i], mappings, fields, kwargs)
    {
      assert vars[..i + 1][..i] == vars[..i];
      if vars[i] !in fk {
        var value := AutoFillVariable(mappings, vars[i], fields, kwargs);
        if !value.Null? {
          fk := fk[vars[i] := value];
        }
      }
      i := i + 1;
    }
    assert vars[..i] == vars;
  }

  /** The names of `vars` that `m` has no value for. */
  method MissingFrom(vars: seq<string>, m: map<string, Value>) returns (missing: seq<string>)
    ensures missing == Absent(vars, m)
  {
    missing := [];
    var i := 0;
    while i < |vars|
      invariant i <= |vars|
      invariant missing == Absent(vars[..i], m)
    {
      assert vars[..i + 1][..i] == vars[..i];
      if vars[i] !in m {
        missing := missing + [vars[i]];
      }
      i := i + 1;
    }
    assert vars[..i] == vars;
  }

  /** Takes each missing name from the configuration when it is there,
      and collects those that are not. */
  method AddConfig(fk0: map<string, Value>, missing: seq<string>, config: AgentConfig)
    returns (fk: map<string, Value>, still: seq<string>)
    ensures fk == WithConfig(fk0, missing, config)
    ensures still == Absent(missing, config)
  {
    fk, still := fk0, [];
    var i := 0;
    while i < |missing|
      invariant i <= |missing|
      invariant fk == WithConfig(fk0, missing[..i], config)
      invariant still == Absent(missing[..i], config)
    {
      assert missing[..i + 1][..i] == missing[..i];
      var v := missing[i];
      if v in config {
        var value := config[v];
        if value.List? {
          fk := fk[v := Str(FormatList(value.items, v))];
        } else {
          fk := fk[v := value];
        }
      } else {
        still := still + [v];
      }
      i := i + 1;
    }
    assert missing[..i] == missing;
  }

  /** Formats every value: lists as lines, anything else as `str`. */
  method FormatAll(fk: map<string, Value>) returns (texts: map<string, string>)
    ensures texts == FinalTexts(fk)
  {
    texts := map[];
    var keys := fk.Keys;
    while keys != {}
      invariant keys <= fk.Keys
      invariant texts == map k | k in fk.Keys - keys :: Render(ListText(fk[k], k))
      decreases keys
    {
      var k :| k in keys;
      texts := texts[k := Render(ListText(fk[k], k))];
      keys := keys - {k};
    }
  }

  // ---------------------------------------------------------------------
  // `check_variable_availability`

  datatype Availability = Availability(
    variable: string, hasMapping: bool, mappingKeys: seq<string>, requiresExplicit: bool, suggestion: string)

  function CheckAvailability(mappings: Mappings, name: string): (a: Availability)
    ensures a.variable == name
    ensures a.hasMapping <==> name in mappings
    ensures a.requiresExplicit <==> !a.hasMapping
    ensures a.mappingKeys == if name in mappings then mappings[name] else []
  {
    if name in mappings then
      Availability(name, true, mappings[name], false, "Will auto-fill from: " + Join(mappings[name], " or "))
    else
      Availability(name, false, [], true, "Must exist in state['" + name + "'] or be provided explicitly")
  }

  // ---------------------------------------------------------------------
  // `validate_agent_prompt`

  function CountChar(s: string, c: char): (n: nat)
    ensures n <= |s|
    decreases |s|
  {
    if s == [] then 0 else CountChar(s[..|s| - 1], c) + (if s[|s| - 1] == c then 1 else 0)
  }

  /** Which list a detected variable lands in. */
  datatype VarKind = ConfigVar | MappedVar | UnmappedVar

  function KindOf(v: string, config: AgentConfig, mappings: Mappings): VarKind {
    if v in config then ConfigVar else if v in mappings then MappedVar else UnmappedVar
  }

  function OfKind(xs: seq<string>, kind: VarKind, config: AgentConfig, mappings: Mappings): (r: seq<string>)
    ensures forall x :: x in r <==> x in xs && KindOf(x, config, mappings) == kind
    decreases |xs|
  {
    if xs == [] then []
    else
      var x := xs[|xs| - 1];
      OfKind(xs[..|xs| - 1], kind, config, mappings) + (if KindOf(x, config, mappings) == kind then [x] else [])
  }

  /** One more variable extends the list of its kind only. */
  lemma OfKindSnoc(xs: seq<string>, x: string, kind: VarKind, config: AgentConfig, mappings: Mappings)
    ensures OfKind(xs + [x], kind, config, mappings) ==
      OfKind(xs, kind, config, mappings) + (if KindOf(x, config, mappings) == kind then [x] else [])
  {
    assert (xs + [x])[..|xs|] == xs;
  }

  lemma {:induction false} KindsPartition(xs: seq<string>, config: AgentConfig, mappings: Mappings)
    ensures |OfKind(xs, ConfigVar, config, mappings)| + |OfKind(xs, MappedVar, config, mappings)| +
      |OfKind(xs, UnmappedVar, config, mappings)| == |xs|
    decreases |xs|
  {
    if xs != [] {
      KindsPartition(xs[..|xs| - 1], config, mappings);
    }
  }

  /** The variables the sample state can fill, and those neither it nor
      the configuration can. */
  function Fillable(xs: seq<string>, mappings: Mappings, sample: map<string, Value>, fillable: bool,
                    config: AgentConfig): (r: seq<string>)
    ensures forall x :: x in r ==> x in xs
    ensures |r| <= |xs|
    decreases |xs|
  {
    if xs == [] then []
    else
      var x := xs[|xs| - 1];
      var found := !AutoFill(mappings, x, sample, map[]).Null?;
      var keep := if fillable then found else !found && x !in config;
      Fillable(xs[..|xs| - 1], mappings, sample, fillable, config) + (if keep then [x] else [])
  }

  /** One more variable extends the list only when it belongs there. */
  lemma FillableSnoc(xs: seq<string>, x: string, mappings: Mappings, sample: map<string, Value>,
                     config: AgentConfig, value: Value)
    requires value == AutoFill(mappings, x, sample, map[])
    ensures Fillable(xs + [x], mappings, sample, true, config) ==
      Fillable(xs, mappings, sample, true, config) + (if !value.Null? then [x] else [])
    ensures Fillable(xs + [x], mappings, sample, false, config) ==
      Fillable(xs, mappings, sample, false, config) + (if value.Null? && x !in config then [x] else [])
  {
    assert (xs + [x])[..|xs|] == xs;
  }

  /** A detected variable is listed as fillable exactly when the sample
      state fills it, and as not fillable exactly when neither the sample
      state nor the configuration supplies it. */
  lemma {:induction false} FillableMembers(xs: seq<string>, mappings: Mappings, sample: map<string, Value>,
                                           fillable: bool, config: AgentConfig, x: string)
    ensures x in Fillable(xs, mappings, sample, fillable, config) <==>
      x in xs && (if fillable then !AutoFill(mappings, x, sample, map[]).Null?
                  else AutoFill(mappings, x, sample, map[]).Null? && x !in config)
    decreases |xs|
  {
    if xs != [] {
      FillableMembers(xs[..|xs| - 1], mappings, sample, fillable, config, x);
      assert xs == xs[..|xs| - 1] + [xs[|xs| - 1]];
    }
  }

  datatype Validation = Validation(
    agentName: string, templateLength: nat, detected: seq<string>, variableCount: nat,
    mapped: seq<string>, configVars: seq<string>, unmapped: seq<string>,
    autoFillable: seq<string>, notFillable: seq<string>,
    issues: seq<string>, warnings: seq<string>, isValid: bool)

  function BraceIssues(template: string): seq<string> {
    var opening, closing := CountChar(template, '{'), CountChar(template, '}');
    (if template == "" then ["Template is empty"] else []) +
    (if opening != closing
     then ["Unmatched braces: " + NatToString(opening) + " opening, " + NatToString(closing) + " closing"]
     else [])
  }

  function Warnings(config: AgentConfig, unmapped: seq<string>): seq<string> {
    (if "system" in config && Truthy(config["system"]) then [] else ["System message is missing (recommended but optional)"]) +
    (if unmapped == [] then []
     else ["Variables without mappings: " + Join(unmapped, ", ") + ". These must exist directly in state or be provided explicitly."])
  }

  /** The report: `sample` is the sample state, empty when none is given. */
  function Validate(agentName: string, config: AgentConfig, mappings: Mappings, sample: map<string, Value>): (r: Validation)
    ensures r.isValid <==> TemplateOf(config) != "" && CountChar(TemplateOf(config), '{') == CountChar(TemplateOf(config), '}')
  {
    var template := TemplateOf(config);
    var detected := SortedVariables(template);
    var unmapped := OfKind(detected, UnmappedVar, config, mappings);
    var issues := BraceIssues(template);
    Validation(
      agentName, |template|, detected, |detected|,
      OfKind(detected, MappedVar, config, mappings), OfKind(detected, ConfigVar, config, mappings), unmapped,
      if sample != map[] then Fillable(detected, mappings, sample, true, config) else [],
      if sample != map[] then Fillable(detected, mappings, sample, false, config) else [],
      issues, Warnings(config, unmapped), |issues| == 0)
  }

  /** Each detected variable lands in exactly one of the three lists of
      the report: the configuration's first, then the mapped ones, then
      the rest. */
  lemma ValidationPartition(config: AgentConfig, mappings: Mappings)
    ensures var detected := SortedVariables(TemplateOf(config));
      && (forall v :: v in OfKind(detected, ConfigVar, config, mappings) <==> v in Variables(TemplateOf(config)) && v in config)
      && (forall v :: v in OfKind(detected, MappedVar, config, mappings) <==>
            v in Variables(TemplateOf(config)) && v !in config && v in mappings)
      && (forall v :: v in OfKind(detected, UnmappedVar, config, mappings) <==>
            v in Variables(TemplateOf(config)) && v !in config && v !in mappings)
      && |OfKind(detected, ConfigVar, config, mappings)| + |OfKind(detected, MappedVar, config, mappings)| +
         |OfKind(detected, UnmappedVar, config, mappings)| == |detected|
  {
    KindsPartition(SortedVariables(TemplateOf(config)), config, mappings);
  }

  /** A variable is reported unmapped exactly when the availability check
      says it needs an explicit value and the configuration does not hold
      it. */
  lemma UnmappedMeansExplicit(config: AgentConfig, mappings: Mappings, v: string)
    requires v in Variables(TemplateOf(config))
    ensures v in OfKind(SortedVariables(TemplateOf(config)), UnmappedVar, config, mappings) <==>
      CheckAvailability(mappings, v).requiresExplicit && v !in config
  {
  }

  /** The two template checks of the validation. */
  method CheckTemplate(template: string) returns (issues: seq<string>)
    ensures issues == BraceIssues(template)
  {
    issues := [];
    if template == "" {
      issues := issues + ["Template is empty"];
    }
    var opening, closing := CountChar(template, '{'), CountChar(template, '}');
    if opening != closing {
      issues := issues + ["Unmatched braces: " + NatToString(opening) + " opening, " + NatToString(closing) + " closing"];
    }
  }

  /** The two warnings of the validation. */
  method CollectWarnings(config: AgentConfig, unmapped: seq<string>) returns (warnings: seq<string>)
    ensures warnings == Warnings(config, unmapped)
  {
    warnings := [];
    if !("system" in config && Truthy(config["system"])) {
      warnings := warnings + ["System message is missing (recommended but optional)"];
    }
    if unmapped != [] {
      warnings := warnings + ["Variables without mappings: " + Join(unmapped, ", ") +
        ". These must exist directly in state or be provided explicitly."];
    }
  }

  /** The classification loop of the validation. */
  method PartitionVariables(detected: seq<string>, config: AgentConfig, mappings: Mappings)
    returns (configVars: seq<string>, mapped: seq<string>, unmapped: seq<string>)
    ensures configVars == OfKind(detected, ConfigVar, config, mappings)
    ensures mapped == OfKind(detected, MappedVar, config, mappings)
    ensures unmapped == OfKind(detected, UnmappedVar, config, mappings)
  {
    configVars, mapped, unmapped := [], [], [];
    var i := 0;
    while i < |detected|
      invariant i <= |detected|
      invariant configVars == OfKind(detected[..i], ConfigVar, config, mappings)
      invariant mapped == OfKind(detected[..i], MappedVar, config, mappings)
      invariant unmapped == OfKind(detected[..i], UnmappedVar, config, mappings)
    {
      var v := detected[i];
      assert detected[..i + 1] == detected[..i] + [v];
      OfKindSnoc(detected[..i], v, ConfigVar, config, mappings);
      OfKindSnoc(detected[..i], v, MappedVar, config, mappings);
      OfKindSnoc(detected[..i], v, UnmappedVar, config, mappings);
      if v in config {
        configVars := configVars + [v];
      } else if v in mappings {
        mapped := mapped + [v];
      } else {
        unmapped := unmapped + [v];
      }
      i := i + 1;
    }
    assert detected[..i] == detected;
  }

  /** The auto-fill trial of the validation against a sample state. */
  method TryAutoFill(detected: seq<string>, mappings: Mappings, sample: map<string, Value>, config: AgentConfig)
    returns (autoFillable: seq<string>, notFillable: seq<string>)
    ensures autoFillable == Fillable(detected, mappings, sample, true, config)
    ensures notFillable == Fillable(detected, mappings, sample, false, config)
  {
    autoFillable, notFillable := [], [];
    var i := 0;
    while i < |detected|
      invariant i <= |detected|
      invariant autoFillable == Fillable(detected[..i], mappings, sample, true, config)
      invariant notFillable == Fillable(detected[..i], mappings, sample, false, config)
    {
      var v := detected[i];
      var value := AutoFillVariable(mappings, v, sample, map[]);
      assert detected[..i + 1] == detected[..i] + [v];
      FillableSnoc(detected[..i], v, mappings, sample, config, value);
      autoFillable := autoFillable + (if !value.Null? then [v] else []);
      notFillable := notFillable + (if value.Null? && v !in config then [v] else []);
      i := i + 1;
    }
    assert detected[..i] == detected;
  }

  // ---------------------------------------------------------------------
  // The manager object.

  class Manager {
    var prompts: map<string, AgentConfig>
    var variableMappings: Mappings

    constructor(prompts: map<string, AgentConfig>)
      ensures this.prompts == prompts && variableMappings == DefaultMappings
    {
      this.prompts := prompts;
      variableMappings := DefaultMappings;
    }

    /** `self.prompts.get(agent_name, {})`. */
    function Config(agentName: string): AgentConfig
      reads this
    {
      if agentName in prompts then prompts[agentName] else map[]
    }

    method AddVariableMapping(templateVar: string, stateKeys: seq<string>)
      modifies this
      ensures variableMappings == old(variableMappings)[templateVar := stateKeys]
      ensures prompts == old(prompts)
    {
      variableMappings := variableMappings[templateVar := stateKeys];
    }

    method GetTemplateVariables(agentName: string) returns (vars: seq<string>)
      ensures StrictlySorted(vars)
      ensures forall v :: v in vars <==> v in Variables(TemplateOf(Config(agentName)))
    {
      vars := SortedVariables(TemplateOf(Config(agentName)));
    }

    method CheckVariableAvailability(name: string) returns (a: Availability)
      ensures a == CheckAvailability(variableMappings, name)
    {
      a := CheckAvailability(variableMappings, name);
    }

    method GetPrompt(agentName: string, state: Option<State>, autoFill: bool, kwargs: map<string, Value>)
      returns (r: Result<string, PromptError>)
      ensures r == Prompt(agentName, Config(agentName), state, autoFill, kwargs, variableMappings)
    {
      var config := Config(agentName);
      var template := TemplateOf(config);
      var vars := SortedVariables(template);
      var fk := kwargs;
      if state.Some? && autoFill {
        var special := PrepareSpecialVariables(state.value);
        fk := AddSpecial(kwargs, special);
        fk := AutoFillAll(fk, vars, variableMappings, StateFields(state.value), kwargs);
      }
      var missing := MissingFrom(vars, fk);
      var still;
      fk, still := AddConfig(fk, missing, config);
      if still != [] {
        return Failure(MissingVariables(agentName, still, vars));
      }
      var texts := FormatAll(fk);
      r := Success(Fill(template, texts));
    }

    method ValidateAgentPrompt(agentName: string, sample: map<string, Value>) returns (report: Validation)
      ensures report == Validate(agentName, Config(agentName), variableMappings, sample)
    {
      var config := Config(agentName);
      var template := TemplateOf(config);
      var detected := SortedVariables(template);
      var issues := CheckTemplate(template);
      var configVars, mapped, unmapped := PartitionVariables(detected, config, variableMappings);
      var warnings := CollectWarnings(config, unmapped);
      var autoFillable, notFillable := [], [];
      if sample != map[] {
        autoFillable, notFillable := TryAutoFill(detected, variableMappings, sample, config);
      }
      report := Validation(agentName, |template|, detected, |detected|, mapped, configVars, unmapped,
        autoFillable, notFillable, issues, warnings, |issues| == 0);
    }
  }
}
