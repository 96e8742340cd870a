/** The placeholder syntax of prompt templates (management/prompt_manager.py):
    finding the `{name}` placeholders, listing their names sorted, and
    filling them in. */
module Templates {
  import opened Text

  /** `s[i..j + 1]` is a placeholder `{name}`: an opening brace, one or
      more word characters, a closing brace. */
  predicate PlaceholderAt(s: string, i: nat, j: nat) {
    && i + 1 < j < |s| && s[i] == '{' && s[j] == '}'
    && forall k :: i < k < j ==> IsWordChar(s[k])
  }

  /** The length of the run of word characters `s` starts with. */
  function WordRun(s: string): (n: nat)
    ensures n <= |s| && forall k :: 0 <= k < n ==> IsWordChar(s[k])
    ensures n < |s| ==> !IsWordChar(s[n])
  {
    if s != [] && IsWordChar(s[0]) then 1 + WordRun(s[1..]) else 0
  }

  /** Where the placeholder starting at the head of `s` closes, if one does. */
  function HeadPlaceholder(s: string): (e: nat)
    ensures e > 0 ==> PlaceholderAt(s, 0, e)
  {
    if s != [] && s[0] == '{' && WordRun(s[1..]) > 0 && 1 + WordRun(s[1..]) < |s| && s[1 + WordRun(s[1..])] == '}'
    then 1 + WordRun(s[1..]) else 0
  }

  /** A placeholder at the head of `s` closes exactly where
      `HeadPlaceholder` says. */
  lemma HeadPlaceholderUnique(s: string, j: nat)
    requires PlaceholderAt(s, 0, j)
    ensures HeadPlaceholder(s) == j
  {
  }

  /** A placeholder further on starts after the one at the head, which
      holds no brace. */
  lemma AfterHeadPlaceholder(s: string, i: nat, j: nat)
    requires PlaceholderAt(s, i, j) && i > 0 && HeadPlaceholder(s) > 0
    ensures i > HeadPlaceholder(s)
  {
  }

  /** Placeholders keep their names when the text before them is dropped. */
  lemma ShiftPlaceholder(s: string, d: nat, i: nat, j: nat)
    requires PlaceholderAt(s, i, j) && d <= i
    ensures PlaceholderAt(s[d..], i - d, j - d) && s[d..][i - d + 1..j - d] == s[i + 1..j]
  {
    var t := s[d..];
    forall k | i - d < k < j - d ensures IsWordChar(t[k]) {
      assert t[k] == s[k + d];
    }
  }

  /** ... and when text is put back before them. */
  lemma UnshiftPlaceholder(s: string, d: nat, i: nat, j: nat)
    requires d <= |s| && PlaceholderAt(s[d..], i, j)
    ensures PlaceholderAt(s, i + d, j + d) && s[i + d + 1..j + d] == s[d..][i + 1..j]
  {
    var t := s[d..];
    forall k | i + d < k < j + d ensures IsWordChar(s[k]) {
      assert s[k] == t[k - d];
    }
  }

  /** `re.findall(r'\{(\w+)\}', s)`: the names of the placeholders, left
      to right. */
  function Placeholders(s: string): seq<string>
    decreases |s|
  {
    if s == [] then []
    else
      var e := HeadPlaceholder(s);
      if e > 0 then [s[1..e]] + Placeholders(s[e + 1..]) else Placeholders(s[1..])
  }

  /** Where the scan resumes after the head of `s`. */
  function Skip(s: string): (d: nat)
    requires s != []
    ensures 0 < d <= |s|
  {
    var e := HeadPlaceholder(s);
    if e > 0 then e + 1 else 1
  }

  /** The names found at the head of `s`: none or one. */
  function HeadNames(s: string): (r: seq<string>)
    requires s != []
    ensures |r| <= 1
  {
    var e := HeadPlaceholder(s);
    if e > 0 then [s[1..e]] else []
  }

  /** One step of the scan: the head placeholder, if any, then the rest. */
  lemma PlaceholdersStep(s: string)
    requires s != []
    ensures Placeholders(s) == HeadNames(s) + Placeholders(s[Skip(s)..])
  {
  }

  /** `_extract_variables_from_template`: the set of placeholder names. */
  function Variables(template: string): set<string> {
    set x | x in Placeholders(template)
  }

  /** Every placeholder of the template is found. */
  lemma {:induction false} PlaceholderFound(s: string, i: nat, j: nat)
    requires PlaceholderAt(s, i, j)
    ensures s[i + 1..j] in Placeholders(s)
    decreases |s|
  {
    PlaceholdersStep(s);
    if i == 0 {
      HeadPlaceholderUnique(s, j);
      assert HeadNames(s) == [s[1..j]];
    } else {
      var d := Skip(s);
      if HeadPlaceholder(s) > 0 {
        AfterHeadPlaceholder(s, i, j);
      }
      ShiftPlaceholder(s, d, i, j);
      PlaceholderFound(s[d..], i - d, j - d);
    }
  }

  /** Every name found comes from a placeholder of the template. */
  lemma {:induction false} PlaceholderSource(s: string, k: nat) returns (i: nat, j: nat)
    requires k < |Placeholders(s)|
    ensures PlaceholderAt(s, i, j) && s[i + 1..j] == Placeholders(s)[k]
    decreases |s|
  {
    PlaceholdersStep(s);
    var head := HeadNames(s);
    var rest := Placeholders(s[Skip(s)..]);
    if k < |head| {
      i, j := 0, HeadPlaceholder(s);
    } else {
      var d := Skip(s);
      assert Placeholders(s)[k] == rest[k - |head|];
      var i', j' := PlaceholderSource(s[d..], k - |head|);
      UnshiftPlaceholder(s, d, i', j');
      i, j := i' + d, j' + d;
    }
  }

  /** The variables of a template are exactly the names written between
      braces. */
  lemma VariablesExactly(s: string, name: string)
    ensures name in Variables(s) <==> exists i: nat, j: nat :: PlaceholderAt(s, i, j) && s[i + 1..j] == name
  {
    if name in Variables(s) {
      var k :| 0 <= k < |Placeholders(s)| && Placeholders(s)[k] == name;
      var i, j := PlaceholderSource(s, k);
    }
    if exists i: nat, j: nat :: PlaceholderAt(s, i, j) && s[i + 1..j] == name {
      var i: nat, j: nat :| PlaceholderAt(s, i, j) && s[i + 1..j] == name;
      PlaceholderFound(s, i, j);
    }
  }

  /** `template.format(**values)` for templates whose only braces are
      placeholders: each placeholder with a value is replaced by it, any
      other text is kept. */
  function Fill(s: string, values: map<string, string>): string
    decreases |s|
  {
    if s == [] then []
    else
      var e := HeadPlaceholder(s);
      if e > 0 && s[1..e] in values then values[s[1..e]] + Fill(s[e + 1..], values)
      else [s[0]] + Fill(s[1..], values)
  }

  /** A template that opens with a placeholder is that placeholder
      followed by the rest. */
  lemma OpensWithPlaceholder(s: string, e: nat)
    requires PlaceholderAt(s, 0, e)
    ensures s == "{" + s[1..e] + "}" + s[e + 1..]
  {
    assert s == s[..1] + s[1..e] + s[e..e + 1] + s[e + 1..];
  }

  /** Filling each placeholder with its own text gives the template back. */
  lemma {:induction false} FillWithOwnText(s: string, values: map<string, string>)
    requires forall name :: name in values ==> values[name] == "{" + name + "}"
    ensures Fill(s, values) == s
    decreases |s|
  {
    if s != [] {
      var e := HeadPlaceholder(s);
      if e > 0 && s[1..e] in values {
        FillWithOwnText(s[e + 1..], values);
        OpensWithPlaceholder(s, e);
      } else {
        FillWithOwnText(s[1..], values);
        assert s == [s[0]] + s[1..];
      }
    }
  }

  /** A template without placeholders is filled to itself. */
  lemma {:induction false} FillWithoutPlaceholders(s: string, values: map<string, string>)
    requires Placeholders(s) == []
    ensures Fill(s, values) == s
    decreases |s|
  {
    if s != [] {
      PlaceholdersStep(s);
      assert HeadNames(s) == [] && Skip(s) == 1;
      FillWithoutPlaceholders(s[1..], values);
      assert s == [s[0]] + s[1..];
    }
  }

  // Python's order on strings: lexicographic by code point.

  predicate Less(a: string, b: string)
    decreases |a|
  {
    if a == [] then b != []
    else if b == [] then false
    else if a[0] == b[0] then Less(a[1..], b[1..])
    else a[0] < b[0]
  }

  lemma {:induction false} LessIrreflexive(a: string)
    ensures !Less(a, a)
    decreases |a|
  {
    if a != [] { LessIrreflexive(a[1..]); }
  }

  lemma {:induction false} LessTotal(a: string, b: string)
    ensures a == b || Less(a, b) || Less(b, a)
    decreases |a|
  {
    if a != [] && b != [] && a[0] == b[0] {
      LessTotal(a[1..], b[1..]);
      if a[1..] == b[1..] {
        assert a == [a[0]] + a[1..] && b == [b[0]] + b[1..];
      }
    }
  }

  lemma {:induction false} LessTransitive(a: string, b: string, c: string)
    requires Less(a, b) && Less(b, c)
    ensures Less(a, c)
    decreases |a|
  {
    if a != [] && a[0] == b[0] && b[0] == c[0] {
      LessTransitive(a[1..], b[1..], c[1..]);
    }
  }

  predicate StrictlySorted(xs: seq<string>) {
    forall i, j :: 0 <= i < j < |xs| ==> Less(xs[i], xs[j])
  }

  /** Insert `x` into a strictly sorted list, unless it is already there. */
  function Insert(x: string, xs: seq<string>): (r: seq<string>)
    requires StrictlySorted(xs)
    ensures StrictlySorted(r)
    ensures forall y :: y in r <==> y == x || y in xs
    decreases |xs|
  {
    if xs == [] then [x]
    else if x == xs[0] then xs
    else if Less(x, xs[0]) then
      assert forall j :: 0 < j < |xs| ==> Less(x, xs[j]) by {
        forall j | 0 < j < |xs| ensures Less(x, xs[j]) { LessTransitive(x, xs[0], xs[j]); }
      }
      [x] + xs
    else
      LessTotal(x, xs[0]);
      var rest := Insert(x, xs[1..]);
      assert forall y :: y in rest ==> Less(xs[0], y);
      [xs[0]] + rest
  }

  /** `sorted(set(xs))`: the distinct elements of `xs` in increasing order. */
  function SortedDistinct(xs: seq<string>): (r: seq<string>)
    ensures StrictlySorted(r)
    ensures forall y :: y in r <==> y in xs
    decreases |xs|
  {
    if xs == [] then [] else Insert(xs[|xs| - 1], SortedDistinct(xs[..|xs| - 1]))
  }

  /** `get_template_variables`: the variables, sorted, each once. */
  function SortedVariables(template: string): (r: seq<string>)
    ensures StrictlySorted(r)
    ensures forall y :: y in r <==> y in Variables(template)
  {
    SortedDistinct(Placeholders(template))
  }

  /** Each name occurs once in a strictly sorted list. */
  lemma SortedHasNoDuplicates(xs: seq<string>)
    requires StrictlySorted(xs)
    ensures forall i, j :: 0 <= i < j < |xs| ==> xs[i] != xs[j]
  {
    forall i, j | 0 <= i < j < |xs| ensures xs[i] != xs[j] {
      LessIrreflexive(xs[i]);
    }
  }
}
