/** The two texts the feedback prompt is built from, in both places that
    build them (the inlined `feedback_agent` of multi_agent_system.py and
    `_prepare_special_variables` of management/prompt_manager.py): the
    catalog's topics grouped by theme, and the question and answer lines of
    the conversation. */
module Summaries {
  import opened Wrappers
  import opened Text
  import opened InterviewState

  /** `topic.get('theme', 'General')`. */
  function ThemeOf(t: Topic): string {
    t.theme.GetOr("General")
  }

  /** One key of the theme dictionary and the topic names under it. */
  datatype Group = Group(theme: string, names: seq<string>)

  /** The position of the group holding `theme`, if there is one. */
  function FindTheme(groups: seq<Group>, theme: string): (k: Option<nat>)
    ensures k.Some? ==> k.value < |groups| && groups[k.value].theme == theme
    ensures k.None? ==> forall j :: 0 <= j < |groups| ==> groups[j].theme != theme
  {
    if groups == [] then None
    else if groups[|groups| - 1].theme == theme then Some(|groups| - 1)
    else FindTheme(groups[..|groups| - 1], theme)
  }

  /** One turn of the grouping loop: a theme already seen gets the topic
      name appended, a new theme a new group at the end. */
  function AddTopic(groups: seq<Group>, t: Topic): seq<Group> {
    match FindTheme(groups, ThemeOf(t))
    case Some(k) => groups[k := Group(groups[k].theme, groups[k].names + [t.topic])]
    case None => groups + [Group(ThemeOf(t), [t.topic])]
  }

  /** The theme dictionary after the loop has seen `topics`. */
  function Grouped(topics: seq<Topic>): seq<Group>
    decreases |topics|
  {
    if topics == [] then []
    else AddTopic(Grouped(topics[..|topics| - 1]), topics[|topics| - 1])
  }

  /** The grouping loop, as both places write it. */
  method GroupByTheme(topics: seq<Topic>) returns (groups: seq<Group>)
    ensures groups == Grouped(topics)
  {
    groups := [];
    var i := 0;
    while i < |topics|
      invariant i <= |topics|
      invariant groups == Grouped(topics[..i])
    {
      assert topics[..i + 1][..i] == topics[..i];
      groups := AddTopic(groups, topics[i]);
      i := i + 1;
    }
    assert topics[..i] == topics;
  }

  // An independent description of the grouping: the themes in order of
  // first appearance, and under each the names of its topics in catalog order.

  function Themes(groups: seq<Group>): seq<string>
    decreases |groups|
  {
    if groups == [] then [] else Themes(groups[..|groups| - 1]) + [groups[|groups| - 1].theme]
  }

  /** The distinct elements of `xs` in order of first appearance. */
  function FirstAppearances(xs: seq<string>): seq<string>
    decreases |xs|
  {
    if xs == [] then []
    else
      var d := FirstAppearances(xs[..|xs| - 1]);
      if xs[|xs| - 1] in d then d else d + [xs[|xs| - 1]]
  }

  function ThemeList(topics: seq<Topic>): seq<string>
    decreases |topics|
  {
    if topics == [] then [] else ThemeList(topics[..|topics| - 1]) + [ThemeOf(topics[|topics| - 1])]
  }

  /** The names of the topics filed under `theme`, in catalog order. */
  function NamesUnder(topics: seq<Topic>, theme: string): seq<string>
    decreases |topics|
  {
    if topics == [] then []
    else
      var t := topics[|topics| - 1];
      NamesUnder(topics[..|topics| - 1], theme) + (if ThemeOf(t) == theme then [t.topic] else [])
  }

  lemma {:induction false} ThemesLength(groups: seq<Group>)
    ensures |Themes(groups)| == |groups|
    ensures forall j :: 0 <= j < |groups| ==> Themes(groups)[j] == groups[j].theme
    decreases |groups|
  {
    if groups != [] {
      ThemesLength(groups[..|groups| - 1]);
    }
  }

  /** No theme has two groups. */
  predicate DistinctThemes(groups: seq<Group>) {
    forall i, j :: 0 <= i < j < |groups| ==> groups[i].theme != groups[j].theme
  }

  lemma {:induction false} GroupedDistinct(topics: seq<Topic>)
    ensures DistinctThemes(Grouped(topics))
    decreases |topics|
  {
    if topics != [] {
      var init := topics[..|topics| - 1];
      var t := topics[|topics| - 1];
      var before := Grouped(init);
      var after := Grouped(topics);
      GroupedDistinct(init);
      assert after == AddTopic(before, t);
      match FindTheme(before, ThemeOf(t))
      case Some(k) =>
        assert after == before[k := Group(before[k].theme, before[k].names + [t.topic])];
        forall i, j | 0 <= i < j < |after| ensures after[i].theme != after[j].theme {
          assert after[i].theme == before[i].theme && after[j].theme == before[j].theme;
        }
      case None =>
        assert after == before + [Group(ThemeOf(t), [t.topic])];
        forall i, j | 0 <= i < j < |after| ensures after[i].theme != after[j].theme {
          assert after[i] == before[i];
        }
    }
  }

  /** The themes of the grouping are the catalog's themes in order of
      first appearance. */
  lemma {:induction false} GroupedThemes(topics: seq<Topic>)
    ensures Themes(Grouped(topics)) == FirstAppearances(ThemeList(topics))
    decreases |topics|
  {
    if topics != [] {
      var init := topics[..|topics| - 1];
      var t := topics[|topics| - 1];
      var before := Grouped(init);
      var after := Grouped(topics);
      GroupedThemes(init);
      ThemesLength(before);
      ThemesLength(after);
      var xs := ThemeList(topics);
      assert xs[..|xs| - 1] == ThemeList(init);
      match FindTheme(before, ThemeOf(t))
      case Some(k) =>
        assert Themes(before)[k] == ThemeOf(t);
        assert Themes(after) == Themes(before);
      case None =>
        assert ThemeOf(t) !in Themes(before);
        assert after[..|after| - 1] == before;
    }
  }

  /** A theme under which some topic is filed has a group. */
  lemma {:induction false} NamedThemeHasGroup(topics: seq<Topic>, theme: string)
    requires NamesUnder(topics, theme) != []
    ensures FindTheme(Grouped(topics), theme).Some?
    decreases |topics|
  {
    var init := topics[..|topics| - 1];
    var t := topics[|topics| - 1];
    var before := Grouped(init);
    var after := Grouped(topics);
    if ThemeOf(t) != theme {
      NamedThemeHasGroup(init, theme);
      var k := FindTheme(before, theme).value;
      assert after[k].theme == theme;
    } else if FindTheme(before, theme).None? {
      assert after[|before|].theme == theme;
    } else {
      var k := FindTheme(before, theme).value;
      assert after[k].theme == theme;
    }
  }

  /** Each group holds exactly the names of the topics filed under its
      theme, in catalog order. */
  lemma {:induction false} GroupedNames(topics: seq<Topic>)
    ensures forall j :: 0 <= j < |Grouped(topics)| ==>
      Grouped(topics)[j].names == NamesUnder(topics, Grouped(topics)[j].theme)
    decreases |topics|
  {
    if topics != [] {
      var init := topics[..|topics| - 1];
      var t := topics[|topics| - 1];
      var before := Grouped(init);
      var after := Grouped(topics);
      GroupedNames(init);
      GroupedDistinct(init);
      match FindTheme(before, ThemeOf(t))
      case Some(k) =>
        forall j | 0 <= j < |after| ensures after[j].names == NamesUnder(topics, after[j].theme) {
          var theme := after[j].theme;
          assert NamesUnder(topics, theme) ==
            NamesUnder(init, theme) + (if ThemeOf(t) == theme then [t.topic] else []);
          if j != k {
            assert after[j] == before[j];
            assert before[j].theme != before[k].theme;
          }
        }
      case None =>
        if NamesUnder(init, ThemeOf(t)) != [] {
          NamedThemeHasGroup(init, ThemeOf(t));
        }
        forall j | 0 <= j < |after| ensures after[j].names == NamesUnder(topics, after[j].theme) {
          var theme := after[j].theme;
          assert NamesUnder(topics, theme) ==
            NamesUnder(init, theme) + (if ThemeOf(t) == theme then [t.topic] else []);
          if j < |before| {
            assert after[j] == before[j];
          }
        }
    }
  }

  /** `'\n'.join(f"{theme}: {', '.join(topics)}" ...)` of the inlined
      build when `emphasised` is false, and `f"**{theme}**: ..."` of the
      prompt manager when it is true. */
  function ThemesText(groups: seq<Group>, emphasised: bool): string {
    Join(seq(|groups|, k requires 0 <= k < |groups| => ThemeLine(groups[k], emphasised)), "\n")
  }

  function ThemeLine(g: Group, emphasised: bool): string {
    (if emphasised then "**" + g.theme + "**" else g.theme) + ": " + Join(g.names, ", ")
  }

  /** The `question` key of a history entry, when the entry has one. */
  function QuestionOf(e: Entry): Option<string> {
    match e
    case TopicQuestion(_, q, _) => Some(q)
    case UserAnswer(q, _, _) => Some(q)
    case FollowUp(q, _) => Some(q)
    case _ => None
  }

  /** The `answer` key of a history entry, when the entry has one. */
  function AnswerOf(e: Entry): Option<string> {
    match e
    case UserAnswer(_, a, _) => Some(a)
    case _ => None
  }

  /** The lines one entry contributes: "Q: " before "A: ". */
  function EntryLines(e: Entry): (lines: seq<string>)
    ensures |lines| <= 2
  {
    (match QuestionOf(e) case Some(q) => ["Q: " + q] case None => []) +
    (match AnswerOf(e) case Some(a) => ["A: " + a] case None => [])
  }

  /** The summary lines of a history, entry by entry. */
  function SummaryLines(h: seq<Entry>): seq<string>
    decreases |h|
  {
    if h == [] then [] else SummaryLines(h[..|h| - 1]) + EntryLines(h[|h| - 1])
  }

  /** The summary loop, as both places write it. */
  method CollectSummaryLines(h: seq<Entry>) returns (lines: seq<string>)
    ensures lines == SummaryLines(h)
  {
    lines := [];
    var i := 0;
    while i < |h|
      invariant i <= |h|
      invariant lines == SummaryLines(h[..i])
    {
      assert h[..i + 1][..i] == h[..i];
      var e := h[i];
      match QuestionOf(e) {
        case Some(q) => lines := lines + ["Q: " + q];
        case None =>
      }
      match AnswerOf(e) {
        case Some(a) => lines := lines + ["A: " + a];
        case None =>
      }
      i := i + 1;
    }
    assert h[..i] == h;
  }

  /** Summaries compose: the lines of a longer history extend those of
      its prefix. */
  lemma {:induction false} SummaryLinesAppend(a: seq<Entry>, b: seq<Entry>)
    ensures SummaryLines(a + b) == SummaryLines(a) + SummaryLines(b)
    decreases |b|
  {
    if b == [] {
      assert a + b == a;
    } else {
      assert (a + b)[..|a + b| - 1] == a + b[..|b| - 1];
      SummaryLinesAppend(a, b[..|b| - 1]);
    }
  }

  /** Every entry gives at most two lines. */
  lemma {:induction false} SummaryLinesBound(h: seq<Entry>)
    ensures |SummaryLines(h)| <= 2 * |h|
    decreases |h|
  {
    if h != [] {
      SummaryLinesBound(h[..|h| - 1]);
    }
  }

  function Min(a: nat, b: nat): nat { if a <= b then a else b }

  /** The inlined build keeps the first 20 LINES. */
  function LegacyConversationText(h: seq<Entry>): string {
    var lines := SummaryLines(h);
    Join(lines[..Min(20, |lines|)], "\n")
  }

  /** The prompt manager keeps the lines of the first 20 ENTRIES. */
  function ManagerConversationText(h: seq<Entry>): string {
    Join(SummaryLines(h[..Min(20, |h|)]), "\n")
  }

  /** The two limits agree when the history has at most 20 entries and
      at most 20 lines; otherwise the two keep different amounts of the
      same line sequence: one is always a prefix of the other, and the
      prompt manager may keep up to 40 lines. */
  lemma ConversationLimits(h: seq<Entry>)
    ensures var legacy := SummaryLines(h)[..Min(20, |SummaryLines(h)|)];
      var manager := SummaryLines(h[..Min(20, |h|)]);
      && (legacy <= manager || manager <= legacy) && |legacy| <= 20 && |manager| <= 40
      && (|h| <= 20 && |SummaryLines(h)| <= 20 ==> legacy == manager)
  {
    var k := Min(20, |h|);
    assert h == h[..k] + h[k..];
    SummaryLinesAppend(h[..k], h[k..]);
    SummaryLinesBound(h[..k]);
    if k == |h| {
      assert h[..k] == h;
    }
  }
}
