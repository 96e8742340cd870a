/** The log viewer page: the user name inside a session id, and the parse
    of a text log into a timeline of events with errors, agents, token and
    call counts and the first and last timestamps. */
module LogViewer {
  import opened Wrappers
  import opened Text
  import opened LogPatterns

  // ---------------------------------------------------------------
  // Session ids

  const SessionPrefix := "interview_"

  /** The user name in a session id `interview_<user>-<timestamp>`:
      everything between the prefix and the last dash, or `unknown`. */
  function ExtractUsername(sessionId: string): (r: string)
    ensures r != []
  {
    if StartsWith(sessionId, SessionPrefix) then
      var parts := Split(sessionId[|SessionPrefix|..], "-");
      if |parts| >= 2 then
        var name := Join(parts[..|parts| - 1], "-");
        if name == "" then "unknown" else name
      else "unknown"
    else "unknown"
  }

  /** The name a session id was built from is read back, whatever dashes it
      holds, as long as the timestamp after the last dash has none. */
  lemma UsernameRoundTrip(user: string, stamp: string)
    requires '-' !in stamp
    ensures ExtractUsername(SessionPrefix + user + "-" + stamp) == (if user == "" then "unknown" else user)
  {
    var id := SessionPrefix + user + "-" + stamp;
    assert id[..|SessionPrefix|] == SessionPrefix;
    assert id[|SessionPrefix|..] == user + ['-'] + stamp;
    SplitLastField(user, '-', stamp);
    var parts := Split(user, ['-']) + [stamp];
    assert parts[..|parts| - 1] == Split(user, "-");
    JoinSplit(user, "-");
  }

  /** Without a dash after the prefix there is no timestamp to cut off. */
  lemma NoDashUnknown(sessionId: string)
    requires '-' !in sessionId
    ensures ExtractUsername(sessionId) == "unknown"
  {
    if StartsWith(sessionId, SessionPrefix) {
      var rest := sessionId[|SessionPrefix|..];
      assert forall k :: 0 <= k < |rest| ==> rest[k] == sessionId[k + |SessionPrefix|];
      ContainsChar(rest, '-');
      assert "-" == ['-'];
      assert Split(rest, "-") == [rest];
    }
  }

  // ---------------------------------------------------------------
  // Lines

  /** The separator of the logger's format
      `%(asctime)s - %(name)s - %(levelname)s - %(message)s`. */
  const FieldSeparator := " - "

  datatype Fields = Fields(timestamp: string, logger: string, level: string, message: string)

  /** One line of the text log: skipped when blank or when it has fewer
      than four fields; the message keeps any further separators. */
  function ParseLine(line: string): Option<Fields> {
    if IsBlank(line) then None
    else
      var parts := Split(line, FieldSeparator);
      if |parts| >= 4 then
        Some(Fields(Strip(parts[0]), Strip(parts[1]), Strip(parts[2]), Join(parts[3..], FieldSeparator)))
      else None
  }

  /** The line the logger writes for one record. */
  function LoggerLine(timestamp: string, logger: string, level: string, message: string): string {
    timestamp + (FieldSeparator + (logger + (FieldSeparator + (level + (FieldSeparator + message)))))
  }

  /** A leading field the parser reads back unchanged: no surrounding
      whitespace and no separator, not even one completed by the separator
      that follows it. */
  predicate FieldSafe(x: string) {
    Trimmed(x) && !Contains(x + " -", FieldSeparator)
  }

  /** A line the logger wrote is read back field by field; the message may
      hold anything, separators included. */
  lemma LoggerLineRoundTrip(timestamp: string, logger: string, level: string, message: string)
    requires FieldSafe(timestamp) && FieldSafe(logger) && FieldSafe(level)
    ensures ParseLine(LoggerLine(timestamp, logger, level, message)) == Some(Fields(timestamp, logger, level, message))
  {
    var line := LoggerLine(timestamp, logger, level, message);
    LoggerLineParts(timestamp, logger, level, message);
    var parts := Split(line, FieldSeparator);
    var tail := Split(message, FieldSeparator);
    assert parts == [timestamp, logger, level] + tail;
    assert |parts| >= 4 && parts[0] == timestamp && parts[1] == logger && parts[2] == level;
    assert parts[3..] == tail;
    JoinSplit(message, FieldSeparator);
    StripTrimmed(timestamp);
    StripTrimmed(logger);
    StripTrimmed(level);
    LoggerLineNotBlank(timestamp, logger, level, message);
  }

  lemma LoggerLineNotBlank(timestamp: string, logger: string, level: string, message: string)
    ensures !IsBlank(LoggerLine(timestamp, logger, level, message))
  {
    var line := LoggerLine(timestamp, logger, level, message);
    var rest := logger + (FieldSeparator + (level + (FieldSeparator + message)));
    assert line[|timestamp| + 1] == FieldSeparator[1] == '-';
    StripEmpty(line);
  }

  lemma LoggerLineParts(timestamp: string, logger: string, level: string, message: string)
    requires FieldSafe(timestamp) && FieldSafe(logger) && FieldSafe(level)
    ensures Split(LoggerLine(timestamp, logger, level, message), FieldSeparator) ==
      [timestamp, logger, level] + Split(message, FieldSeparator)
  {
    var second := logger + (FieldSeparator + (level + (FieldSeparator + message)));
    LaterParts(logger, level, message);
    PeelField(timestamp, second);
    assert [timestamp] + ([logger, level] + Split(message, FieldSeparator)) ==
      [timestamp, logger, level] + Split(message, FieldSeparator);
  }

  lemma LaterParts(logger: string, level: string, message: string)
    requires FieldSafe(logger) && FieldSafe(level)
    ensures Split(logger + (FieldSeparator + (level + (FieldSeparator + message))), FieldSeparator) ==
      [logger, level] + Split(message, FieldSeparator)
  {
    PeelField(level, message);
    PeelField(logger, level + (FieldSeparator + message));
    assert [logger] + ([level] + Split(message, FieldSeparator)) ==
      [logger, level] + Split(message, FieldSeparator);
  }

  /** A safe leading field is split off on its own. */
  lemma PeelField(x: string, rest: string)
    requires FieldSafe(x)
    ensures Split(x + (FieldSeparator + rest), FieldSeparator) == [x] + Split(rest, FieldSeparator)
  {
    assert FieldSeparator[..|FieldSeparator| - 1] == " -";
    assert x + (FieldSeparator + rest) == x + FieldSeparator + rest;
    SplitLeadingField(x, rest, FieldSeparator);
  }

  // ---------------------------------------------------------------
  // Event types

  datatype EventType =
    AgentStart | AgentEnd | LlmRequest | LlmResponse | UserInput | SecurityCheck | Routing | General

  function Name(t: EventType): string {
    match t
    case AgentStart => "agent_start"
    case AgentEnd => "agent_end"
    case LlmRequest => "llm_request"
    case LlmResponse => "llm_response"
    case UserInput => "user_input"
    case SecurityCheck => "security_check"
    case Routing => "routing"
    case General => "general"
  }

  /** The event type a name stands for; unknown names are general. */
  function TypeNamed(name: string): EventType {
    if name == "agent_start" then AgentStart
    else if name == "agent_end" then AgentEnd
    else if name == "llm_request" then LlmRequest
    else if name == "llm_response" then LlmResponse
    else if name == "user_input" then UserInput
    else if name == "security_check" then SecurityCheck
    else if name == "routing" then Routing
    else General
  }

  lemma TypeNamedName(t: EventType)
    ensures TypeNamed(Name(t)) == t
  {
  }

  /** The marker `[<name>]` the logger puts in front of an event's JSON. */
  function Tag(t: EventType): string {
    Bracketed(Name(t))
  }

  function Bracketed(name: string): string {
    "[" + name + "]"
  }

  /** The first marker, in this order, that the message contains. */
  function Classify(message: string): EventType {
    if Contains(message, Tag(AgentStart)) then AgentStart
    else if Contains(message, Tag(AgentEnd)) then AgentEnd
    else if Contains(message, Tag(LlmRequest)) then LlmRequest
    else if Contains(message, Tag(LlmResponse)) then LlmResponse
    else if Contains(message, Tag(UserInput)) then UserInput
    else if Contains(message, Tag(SecurityCheck)) then SecurityCheck
    else if Contains(message, Tag(Routing)) then Routing
    else General
  }

  /** The position of a type in the order the markers are tried. */
  function Rank(t: EventType): nat {
    match t
    case AgentStart => 0
    case AgentEnd => 1
    case LlmRequest => 2
    case LlmResponse => 3
    case UserInput => 4
    case SecurityCheck => 5
    case Routing => 6
    case General => 7
  }

  /** The message the logger writes for an event: its marker, a space and
      the JSON payload. */
  function EventMessage(t: EventType, payload: string): string {
    Tag(t) + " " + payload
  }

  /** An event message is classified as the type it was written for,
      unless its payload holds the marker of a type tried earlier. */
  lemma ClassifyRoundTrip(t: EventType, payload: string)
    requires t != General
    requires forall u :: Rank(u) < Rank(t) ==> !Contains(payload, Tag(u))
    ensures Classify(EventMessage(t, payload)) == t
  {
    var m := EventMessage(t, payload);
    assert m[..|Tag(t)|] == Tag(t);
    forall u | Rank(u) < Rank(t)
      ensures !Contains(m, Tag(u))
    {
      NameChars(t);
      NameChars(u);
      TypeNamedName(t);
      TypeNamedName(u);
      OtherMarkerAbsent(Name(t), Name(u), payload);
    }
  }

  /** A name that can sit inside a marker. */
  predicate PlainName(name: string) {
    '[' !in name && ']' !in name
  }

  lemma NameChars(t: EventType)
    ensures PlainName(Name(t))
  {
  }

  /** The first `]` after a marker's `[` closes it. */
  lemma FirstClose(a: string, m: string)
    requires PlainName(a) && StartsWith(m, Bracketed(a))
    ensures IndexOf(m[1..], "]") == Some(|a|) && m[1..1 + |a|] == a
  {
    var tail := m[|a| + 2..];
    assert m[..|a| + 2] == Bracketed(a);
    assert m[1..] == a + "]" + tail;
    ContainsChar(a, ']');
    assert "]" == [']'];
    assert a + "]"[..0] == a;
    LeadingFieldIndex(a, tail, "]");
  }

  /** A text starts with at most one marker. */
  lemma BracketedPrefix(a: string, b: string, m: string)
    requires PlainName(a) && PlainName(b)
    requires StartsWith(m, Bracketed(a)) && StartsWith(m, Bracketed(b))
    ensures a == b
  {
    FirstClose(a, m);
    FirstClose(b, m);
  }

  /** In a marked message, another marker can only be found inside the
      payload. */
  lemma OtherMarkerAbsent(a: string, b: string, payload: string)
    requires PlainName(a) && PlainName(b) && a != b
    requires !Contains(payload, Bracketed(b))
    ensures !Contains(Bracketed(a) + " " + payload, Bracketed(b))
  {
    var head := Bracketed(a) + " ";
    var m := head + payload;
    assert Bracketed(a) + " " + payload == m;
    if Contains(m, Bracketed(b)) {
      ContainsAppend(head, payload, Bracketed(b));
      var i :| 0 <= i < |head| && StartsWith(m[i..], Bracketed(b));
      assert m[i] == head[i] == '[';
      assert forall k :: 1 <= k <= |a| ==> head[k] == a[k - 1];
      assert head[|a| + 1] == ']' && head[|a| + 2] == ' ';
      assert i == 0;
      assert m[..|head| - 1] == Bracketed(a);
      BracketedPrefix(a, b, m);
    }
  }

  /** An occurrence in `a + b` starts inside `a` or lies inside `b`. */
  lemma {:induction false} ContainsAppend(a: string, b: string, p: string)
    requires Contains(a + b, p)
    ensures Contains(b, p) || exists i :: 0 <= i < |a| && StartsWith((a + b)[i..], p)
    decreases |a|
  {
    if a == [] {
      assert a + b == b;
    } else if StartsWith(a + b, p) {
      assert (a + b)[0..] == a + b;
    } else {
      assert (a + b)[1..] == a[1..] + b;
      ContainsAppend(a[1..], b, p);
      if !Contains(b, p) {
        var i :| 0 <= i < |a[1..]| && StartsWith((a[1..] + b)[i..], p);
        assert (a + b)[i + 1..] == (a[1..] + b)[i..];
      }
    }
  }

  // ---------------------------------------------------------------
  // Event data

  /** The fields the viewer extracts from each kind of event, keyed by the
      JSON member they come from. */
  function Extractors(t: EventType): seq<Pattern> {
    match t
    case AgentStart => [Quoted("agent", true)]
    case AgentEnd => [Quoted("agent", true), Quoted("question", true)]
    case LlmRequest => [Quoted("agent", true), Digits("prompt_length"), Escaped("prompt")]
    case LlmResponse => [Quoted("agent", true), Digits("tokens"), Digits("response_length"), Escaped("response")]
    case UserInput => [Quoted("question", true), Quoted("answer", true), Digits("answer_length")]
    case SecurityCheck => [TrueFalse("passed"), Quoted("feedback", false)]
    case Routing => [Quoted("from", true), Quoted("to", true), Quoted("reason", true)]
    case General => []
  }

  predicate DistinctKeys(ps: seq<Pattern>) {
    forall i, j :: 0 <= i < j < |ps| ==> ps[i].key != ps[j].key
  }

  lemma ExtractorsDistinct(t: EventType)
    ensures DistinctKeys(Extractors(t))
  {
  }

  /** What is stored for a capture: escaped string bodies are decoded. */
  function Decode(p: Pattern, d: Datum): Datum {
    if p.Escaped? && d.Str? then Str(Unescape(d.s)) else d
  }

  /** What a pattern stores for a message, if it matches: escaped string
      bodies are decoded. */
  function Found(p: Pattern, message: string): Option<Datum> {
    match Search(p, message)
    case None => None
    case Some(d) => Some(Decode(p, d))
  }

  /** The data of an event: each pattern that finds something stores it
      under its key, later patterns last. */
  function Extract(ps: seq<Pattern>, found: Pattern -> Option<Datum>): map<string, Datum>
    decreases |ps|
  {
    if ps == [] then map[]
    else
      var data := Extract(ps[..|ps| - 1], found);
      var p := ps[|ps| - 1];
      match found(p)
      case None => data
      case Some(d) => data[p.key := d]
  }

  /** With distinct keys, a field is present exactly when its pattern
      finds something, and holds what was found. */
  lemma {:induction false} ExtractField(ps: seq<Pattern>, found: Pattern -> Option<Datum>, i: nat)
    requires DistinctKeys(ps) && i < |ps|
    ensures ps[i].key in Extract(ps, found) <==> found(ps[i]).Some?
    ensures ps[i].key in Extract(ps, found) ==> Extract(ps, found)[ps[i].key] == found(ps[i]).value
    decreases |ps|
  {
    var init := ps[..|ps| - 1];
    if i < |ps| - 1 {
      assert init[i] == ps[i];
      ExtractField(init, found, i);
      assert ps[i].key != ps[|ps| - 1].key;
    } else {
      forall j | 0 <= j < |init|
        ensures init[j].key != ps[i].key
      {
        assert init[j] == ps[j];
      }
      ExtractDomain(init, found, ps[i].key);
    }
  }

  /** Only the keys of the patterns can appear in the data. */
  lemma {:induction false} ExtractDomain(ps: seq<Pattern>, found: Pattern -> Option<Datum>, k: string)
    requires forall j :: 0 <= j < |ps| ==> ps[j].key != k
    ensures k !in Extract(ps, found)
    decreases |ps|
  {
    if ps != [] {
      var init := ps[..|ps| - 1];
      forall j | 0 <= j < |init|
        ensures init[j].key != k
      {
        assert init[j] == ps[j];
      }
      ExtractDomain(init, found, k);
    }
  }

  function EventData(t: EventType, message: string): map<string, Datum> {
    Extract(Extractors(t), p => Found(p, message))
  }

  /** An event's data holds a field exactly when its pattern matches the
      message, with the capture (decoded for escaped strings) as value. */
  lemma EventDataField(t: EventType, message: string, i: nat)
    requires i < |Extractors(t)|
    ensures var p := Extractors(t)[i];
      (p.key in EventData(t, message) <==> Search(p, message).Some?) &&
      (p.key in EventData(t, message) ==> EventData(t, message)[p.key] == Decode(p, Search(p, message).value))
  {
    ExtractorsDistinct(t);
    ExtractField(Extractors(t), p => Found(p, message), i);
  }

  // ---------------------------------------------------------------
  // The parse

  datatype Event = Event(timestamp: string, level: string, eventType: EventType, message: string, data: map<string, Datum>)

  datatype Problem = Problem(timestamp: string, level: string, message: string)

  datatype Parsed = Parsed(
    timeline: seq<Event>,
    errors: seq<Problem>,
    agents: set<string>,
    totalTokens: nat,
    llmCalls: nat,
    startTime: Option<string>,
    endTime: Option<string>)

  const Empty := Parsed([], [], {}, 0, 0, None, None)

  function EventOf(f: Fields): Event {
    var t := Classify(f.message);
    Event(f.timestamp, f.level, t, f.message, EventData(t, f.message))
  }

  predicate IsProblem(level: string) {
    level == "ERROR" || level == "WARNING"
  }

  /** What an event adds to the error list. */
  function ProblemOf(e: Event): seq<Problem> {
    if IsProblem(e.level) then [Problem(e.timestamp, e.level, e.message)] else []
  }

  /** The agent an `agent_start` event names, if it names one. */
  predicate StartsAgent(e: Event) {
    e.eventType == AgentStart && "agent" in e.data && e.data["agent"].Str?
  }

  function AgentOf(e: Event): set<string> {
    if StartsAgent(e) then {e.data["agent"].s} else {}
  }

  /** The tokens an `llm_response` event reports, if it reports them. */
  function TokensOf(e: Event): nat {
    if e.eventType == LlmResponse && "tokens" in e.data && e.data["tokens"].Num? then e.data["tokens"].n else 0
  }

  function CallOf(e: Event): nat {
    if e.eventType == LlmRequest then 1 else 0
  }

  /** One accepted line: the start time is set while it is still unset or
      empty, the end time always. */
  function Record(p: Parsed, e: Event): Parsed {
    Parsed(
      p.timeline + [e],
      p.errors + ProblemOf(e),
      p.agents + AgentOf(e),
      p.totalTokens + TokensOf(e),
      p.llmCalls + CallOf(e),
      if p.startTime == None || p.startTime == Some("") then Some(e.timestamp) else p.startTime,
      Some(e.timestamp))
  }

  /** `step` applied to each element in turn, starting from `init`. */
  function Fold<S, T>(xs: seq<T>, init: S, step: (S, T) -> S): S
    decreases |xs|
  {
    if xs == [] then init else step(Fold(xs[..|xs| - 1], init, step), xs[|xs| - 1])
  }

  /** A property every step preserves holds of the fold. */
  lemma {:induction false} FoldInvariant<S, T>(xs: seq<T>, init: S, step: (S, T) -> S, inv: S -> bool)
    requires inv(init)
    requires forall s, x :: inv(s) ==> inv(step(s, x))
    ensures inv(Fold(xs, init, step))
    decreases |xs|
  {
    if xs != [] {
      FoldInvariant(xs[..|xs| - 1], init, step, inv);
    }
  }

  /** When every step appends `f(x)` to a part of the state, that part ends
      as its start followed by `f` of each element. */
  lemma {:induction false} FoldGather<S, T, U>(xs: seq<T>, init: S, step: (S, T) -> S, part: S -> seq<U>, f: T -> seq<U>)
    requires forall s, x :: part(step(s, x)) == part(s) + f(x)
    ensures part(Fold(xs, init, step)) == part(init) + Gather(xs, f)
    decreases |xs|
  {
    if xs != [] {
      var init' := xs[..|xs| - 1];
      var last := xs[|xs| - 1];
      FoldGather(init', init, step, part, f);
      GatherAppend(init', last, f);
      assert init' + [last] == xs;
    }
  }

  /** The summary of the lines of a log, in order. */
  function Summarize(lines: seq<string>): Parsed {
    Fold(lines, Empty, Absorb)
  }

  /** One line of the log: recorded when it parses, skipped otherwise. */
  function Absorb(p: Parsed, line: string): Parsed {
    match ParseLine(line)
    case None => p
    case Some(f) => Record(p, EventOf(f))
  }

  /** The event a line adds to the timeline, if any. */
  function LineEvents(line: string): seq<Event> {
    match ParseLine(line)
    case None => []
    case Some(f) => [EventOf(f)]
  }

  /** `parse_text_log`: the summary of the log's lines. */
  function ParseLog(logText: string): Parsed {
    Summarize(Split(logText, "\n"))
  }

  // ---------------------------------------------------------------
  // The summary in terms of the timeline

  /** The timeline's ERROR and WARNING entries, in order. */
  function Problems(ts: seq<Event>): seq<Problem>
    decreases |ts|
  {
    if ts == [] then [] else ProblemOf(ts[0]) + Problems(ts[1..])
  }

  function Calls(ts: seq<Event>): nat
    decreases |ts|
  {
    if ts == [] then 0 else CallOf(ts[0]) + Calls(ts[1..])
  }

  function TokenSum(ts: seq<Event>): nat
    decreases |ts|
  {
    if ts == [] then 0 else TokensOf(ts[0]) + TokenSum(ts[1..])
  }

  function StartedAgents(ts: seq<Event>): set<string> {
    set e | e in ts && StartsAgent(e) :: e.data["agent"].s
  }

  /** The first non-empty timestamp; an empty one when all are empty. */
  function FirstStamp(ts: seq<Event>): Option<string>
    decreases |ts|
  {
    if ts == [] then None
    else if ts[0].timestamp != "" || |ts| == 1 then Some(ts[0].timestamp)
    else FirstStamp(ts[1..])
  }

  function LastStamp(ts: seq<Event>): Option<string> {
    if ts == [] then None else Some(ts[|ts| - 1].timestamp)
  }

  /** Every figure of the summary is the one its timeline determines. */
  predicate Consistent(p: Parsed) {
    p.errors == Problems(p.timeline) &&
    p.llmCalls == Calls(p.timeline) &&
    p.totalTokens == TokenSum(p.timeline) &&
    p.agents == StartedAgents(p.timeline) &&
    p.startTime == FirstStamp(p.timeline) &&
    p.endTime == LastStamp(p.timeline)
  }

  lemma {:induction false} ProblemsAppend(ts: seq<Event>, e: Event)
    ensures Problems(ts + [e]) == Problems(ts) + ProblemOf(e)
    decreases |ts|
  {
    if ts != [] {
      assert (ts + [e])[1..] == ts[1..] + [e];
      ProblemsAppend(ts[1..], e);
    } else {
      assert ([] + [e])[1..] == [];
    }
  }

  lemma {:induction false} CallsAppend(ts: seq<Event>, e: Event)
    ensures Calls(ts + [e]) == Calls(ts) + CallOf(e)
    decreases |ts|
  {
    if ts != [] {
      assert (ts + [e])[1..] == ts[1..] + [e];
      CallsAppend(ts[1..], e);
    } else {
      assert ([] + [e])[1..] == [];
    }
  }

  lemma {:induction false} TokenSumAppend(ts: seq<Event>, e: Event)
    ensures TokenSum(ts + [e]) == TokenSum(ts) + TokensOf(e)
    decreases |ts|
  {
    if ts != [] {
      assert (ts + [e])[1..] == ts[1..] + [e];
      TokenSumAppend(ts[1..], e);
    } else {
      assert ([] + [e])[1..] == [];
    }
  }

  lemma StartedAgentsAppend(ts: seq<Event>, e: Event)
    ensures StartedAgents(ts + [e]) == StartedAgents(ts) + AgentOf(e)
  {
    assert forall x :: x in ts + [e] <==> x in ts || x == e;
  }

  /** The start time stays at the first non-empty timestamp once one is
      seen. */
  lemma {:induction false} FirstStampAppend(ts: seq<Event>, e: Event)
    ensures FirstStamp(ts + [e]) ==
      if FirstStamp(ts) == None || FirstStamp(ts) == Some("") then Some(e.timestamp) else FirstStamp(ts)
    decreases |ts|
  {
    var s := ts + [e];
    if ts == [] {
      assert s == [e];
    } else if ts[0].timestamp != "" {
      assert s[0] == ts[0];
    } else if |ts| == 1 {
      assert s[0] == ts[0] && s[1..] == [e];
    } else {
      assert s[0] == ts[0] && s[1..] == ts[1..] + [e];
      FirstStampAppend(ts[1..], e);
    }
  }

  /** Recording an event keeps every figure in line with the timeline. */
  lemma RecordConsistent(p: Parsed, e: Event)
    requires Consistent(p)
    ensures Consistent(Record(p, e))
  {
    ProblemsAppend(p.timeline, e);
    CallsAppend(p.timeline, e);
    TokenSumAppend(p.timeline, e);
    StartedAgentsAppend(p.timeline, e);
    FirstStampAppend(p.timeline, e);
  }

  lemma AbsorbConsistent(p: Parsed, line: string)
    requires Consistent(p)
    ensures Consistent(Absorb(p, line))
  {
    var f := ParseLine(line);
    if f.Some? {
      RecordConsistent(p, EventOf(f.value));
    }
  }

  /** Every summary of a log is consistent with its timeline. */
  lemma SummarizeConsistent(lines: seq<string>)
    ensures Consistent(Summarize(lines))
  {
    forall p, line | Consistent(p)
      ensures Consistent(Absorb(p, line))
    {
      AbsorbConsistent(p, line);
    }
    FoldInvariant(lines, Empty, Absorb, Consistent);
  }

  /** `f` applied to each element in turn, the results concatenated. */
  function Gather<T, U>(xs: seq<T>, f: T -> seq<U>): seq<U>
    decreases |xs|
  {
    if xs == [] then [] else f(xs[0]) + Gather(xs[1..], f)
  }

  lemma {:induction false} GatherAppend<T, U>(xs: seq<T>, x: T, f: T -> seq<U>)
    ensures Gather(xs + [x], f) == Gather(xs, f) + f(x)
    decreases |xs|
  {
    var s := xs + [x];
    if xs == [] {
      assert s == [x] && s[1..] == [];
    } else {
      assert s[0] == xs[0] && s[1..] == xs[1..] + [x];
      GatherAppend(xs[1..], x, f);
    }
  }

  lemma AbsorbTimeline(p: Parsed, line: string)
    ensures Absorb(p, line).timeline == p.timeline + LineEvents(line)
  {
  }

  /** The timeline holds one event per line that parses, in the order of
      the lines. */
  lemma TimelineOfLines(lines: seq<string>)
    ensures Summarize(lines).timeline == Gather(lines, LineEvents)
  {
    forall p, line
      ensures Absorb(p, line).timeline == p.timeline + LineEvents(line)
    {
      AbsorbTimeline(p, line);
    }
    FoldGather(lines, Empty, Absorb, (p: Parsed) => p.timeline, LineEvents);
  }

  /** A log written line by line is parsed line by line. */
  lemma LogOfLines(lines: seq<string>)
    requires lines != []
    requires forall k :: 0 <= k < |lines| ==> '\n' !in lines[k]
    ensures ParseLog(Join(lines, "\n")) == Summarize(lines)
  {
    SplitJoin(lines, '\n');
    assert "\n" == ['\n'];
  }

  /** `parse_text_log`, line by line as the source loops. */
  method ParseTextLog(logText: string) returns (parsed: Parsed)
    ensures parsed == ParseLog(logText)
    ensures Consistent(parsed)
    ensures parsed.timeline == Gather(Split(logText, "\n"), LineEvents)
  {
    var lines := Split(logText, "\n");
    parsed := Empty;
    var i := 0;
    while i < |lines|
      invariant 0 <= i <= |lines|
      invariant parsed == Fold(lines[..i], Empty, Absorb)
    {
      assert lines[..i + 1][..i] == lines[..i];
      var fields := ParseLine(lines[i]);
      if fields.Some? {
        var f := fields.value;
        var eventType := Classify(f.message);
        var data := EventData(eventType, f.message);
        parsed := RecordEvent(parsed, Event(f.timestamp, f.level, eventType, f.message, data));
      }
      i := i + 1;
    }
    assert lines[..i] == lines;
    SummarizeConsistent(lines);
    TimelineOfLines(lines);
  }

  /** The body of the loop for one line that parses, once its type and
      data are known. */
  method RecordEvent(p: Parsed, e: Event) returns (q: Parsed)
    ensures q == Record(p, e)
  {
    q := p;
    if q.startTime == None || q.startTime == Some("") {
      q := q.(startTime := Some(e.timestamp));
    }
    q := q.(endTime := Some(e.timestamp));
    if e.eventType == AgentStart && "agent" in e.data && e.data["agent"].Str? {
      q := q.(agents := q.agents + {e.data["agent"].s});
    }
    if e.eventType == LlmRequest {
      q := q.(llmCalls := q.llmCalls + 1);
    }
    if e.eventType == LlmResponse && "tokens" in e.data && e.data["tokens"].Num? {
      q := q.(totalTokens := q.totalTokens + e.data["tokens"].n);
    }
    if IsProblem(e.level) {
      q := q.(errors := q.errors + [Problem(e.timestamp, e.level, e.message)]);
    }
    q := q.(timeline := q.timeline + [e]);
  }
}
