/** String helpers shared by the stages, the prompt manager and the log
    parser: Python's `str.strip`, `startswith`, `endswith`, `in`,
    `split(sep)`, `sep.join(parts)` and decimal rendering of integers. */
module Text {
  import opened Wrappers

  /** The whitespace that `str.strip()` removes and the regular-expression
      class `\s` matches: the characters `str.isspace()` accepts, among
      them the no-break space U+00A0 and the ideographic space U+3000. */
  predicate IsSpace(c: char) {
    ('\t' <= c <= '\r') || ('\U{1C}' <= c <= ' ') || c == '\U{85}' || c == '\U{A0}' ||
    c == '\U{1680}' || ('\U{2000}' <= c <= '\U{200A}') || c == '\U{2028}' || c == '\U{2029}' ||
    c == '\U{202F}' || c == '\U{205F}' || c == '\U{3000}'
  }

  predicate IsDigit(c: char) { '0' <= c <= '9' }

  /** Python's `\w` on ASCII: letters, digits and the underscore. */
  predicate IsWordChar(c: char) {
    ('a' <= c <= 'z') || ('A' <= c <= 'Z') || IsDigit(c) || c == '_'
  }

  ghost predicate AllSpace(s: string) {
    forall k :: 0 <= k < |s| ==> IsSpace(s[k])
  }

  function TrimStart(s: string): (r: string)
    ensures |r| <= |s|
    ensures r == [] || !IsSpace(r[0])
    ensures forall k :: 0 <= k < |s| - |r| ==> IsSpace(s[k])
  {
    if s != [] && IsSpace(s[0]) then TrimStart(s[1..]) else s
  }

  /** What `TrimStart` leaves is a suffix of its argument. (Kept out of the
      function's contract, where the solver would rewrite it without end
      on a string that is its own trim.) */
  lemma TrimStartSuffix(s: string)
    ensures TrimStart(s) == s[|s| - |TrimStart(s)|..]
    decreases |s|
  {
    if s != [] && IsSpace(s[0]) {
      TrimStartSuffix(s[1..]);
      assert s[1..][|s| - 1 - |TrimStart(s)|..] == s[|s| - |TrimStart(s)|..];
    }
  }

  function TrimEnd(s: string): (r: string)
    ensures |r| <= |s| && r == s[..|r|]
    ensures r == [] || !IsSpace(r[|r| - 1])
    ensures forall k :: |r| <= k < |s| ==> IsSpace(s[k])
  {
    if s != [] && IsSpace(s[|s| - 1]) then TrimEnd(s[..|s| - 1]) else s
  }

  /** Neither starts nor ends with whitespace. */
  predicate Trimmed(s: string) {
    s == [] || (!IsSpace(s[0]) && !IsSpace(s[|s| - 1]))
  }

  /** `s.strip()`: the slice of `s` left once leading and trailing
      whitespace are removed. */
  function Strip(s: string): (r: string)
    ensures Trimmed(r)
  {
    TrimEnd(TrimStart(s))
  }

  /** What `strip` returns is `s` with its leading and trailing whitespace
      cut off: a slice of `s` with only whitespace before and after it. */
  lemma StripSlice(s: string)
    ensures var i := |s| - |TrimStart(s)|; var r := Strip(s);
      i + |r| <= |s| && r == s[i..i + |r|] && AllSpace(s[..i]) && AllSpace(s[i + |r|..])
  {
    StripMiddle(s);
    StripLeading(s);
    StripTrailing(s);
  }

  lemma StripMiddle(s: string)
    ensures var i := |s| - |TrimStart(s)|; var r := Strip(s);
      i + |r| <= |s| && r == s[i..i + |r|]
  {
    var t := TrimStart(s);
    TrimStartSuffix(s);
    assert Strip(s) == t[..|Strip(s)|];
  }

  lemma StripLeading(s: string)
    ensures AllSpace(s[..|s| - |TrimStart(s)|])
  {
    var i := |s| - |TrimStart(s)|;
    AllSpaceRange(s, 0, i);
    assert s[..i] == s[0..i];
  }

  lemma StripTrailing(s: string)
    ensures |s| - |TrimStart(s)| + |Strip(s)| <= |s|
    ensures AllSpace(s[|s| - |TrimStart(s)| + |Strip(s)|..])
  {
    var t := TrimStart(s);
    var r := Strip(s);
    var i := |s| - |t|;
    TrimStartSuffix(s);
    AllSpaceRange(t, |r|, |t|);
    assert t[|r|..|t|] == s[i + |r|..];
  }

  /** A run of whitespace positions is a whitespace slice. */
  lemma AllSpaceRange(s: string, lo: nat, hi: nat)
    requires lo <= hi <= |s|
    requires forall j :: lo <= j < hi ==> IsSpace(s[j])
    ensures AllSpace(s[lo..hi])
  {
    forall k | 0 <= k < hi - lo ensures IsSpace(s[lo..hi][k]) {
      assert s[lo..hi][k] == s[lo + k];
    }
  }

  /** `strip` leaves nothing exactly when the string is all whitespace. */
  lemma StripEmpty(s: string)
    ensures Strip(s) == [] <==> AllSpace(s)
  {
    var t := TrimStart(s);
    TrimStartSuffix(s);
    if TrimEnd(t) == [] {
      assert t == [];
    } else {
      assert t[|t| - 1] == s[|s| - |t| + |t| - 1];
    }
  }

  /** `not s or s.strip() == ""`. */
  predicate IsBlank(s: string) {
    Strip(s) == []
  }

  lemma {:induction false} TrimStartPadded(a: string, x: string)
    requires AllSpace(a)
    ensures TrimStart(a + x) == TrimStart(x)
    decreases |a|
  {
    if a == [] {
      assert a + x == x;
    } else {
      assert (a + x)[1..] == a[1..] + x;
      TrimStartPadded(a[1..], x);
    }
  }

  lemma {:induction false} TrimEndPadded(x: string, b: string)
    requires AllSpace(b)
    ensures TrimEnd(x + b) == TrimEnd(x)
    decreases |b|
  {
    if b == [] {
      assert x + b == x;
    } else {
      assert (x + b)[..|x + b| - 1] == x + b[..|b| - 1];
      TrimEndPadded(x, b[..|b| - 1]);
    }
  }

  lemma {:induction false} TrimStartAppend(x: string, b: string)
    requires !AllSpace(x)
    ensures TrimStart(x + b) == TrimStart(x) + b
    decreases |x|
  {
    assert (x + b)[0] == x[0];
    if IsSpace(x[0]) {
      assert (x + b)[1..] == x[1..] + b;
      TrimStartAppend(x[1..], b);
    }
  }

  lemma AllSpaceAppend(x: string, b: string)
    requires AllSpace(x) && AllSpace(b)
    ensures AllSpace(x + b)
  {
    forall k | 0 <= k < |x + b| ensures IsSpace((x + b)[k]) {
      if k >= |x| { assert (x + b)[k] == b[k - |x|]; }
    }
  }

  /** Whitespace around a string does not change what `strip` returns. */
  lemma StripPadded(a: string, x: string, b: string)
    requires AllSpace(a) && AllSpace(b)
    ensures Strip(a + x + b) == Strip(x)
  {
    assert a + x + b == a + (x + b);
    TrimStartPadded(a, x + b);
    if AllSpace(x) {
      AllSpaceAppend(x, b);
      TrimStartPadded(x + b, []);
      TrimStartPadded(x, []);
      assert x + b + [] == x + b && x + [] == x;
    } else {
      TrimStartAppend(x, b);
      TrimEndPadded(TrimStart(x), b);
    }
  }

  /** Stripping twice is stripping once. */
  lemma StripIdempotent(s: string)
    ensures Strip(Strip(s)) == Strip(s)
  {
    var y := Strip(s);
    if y != [] {
      assert TrimStart(y) == y;
      assert TrimEnd(y) == y;
    }
  }

  /** A string that neither starts nor ends with whitespace is its own
      `strip()`. */
  lemma StripTrimmed(s: string)
    requires Trimmed(s)
    ensures Strip(s) == s
  {
    assert TrimStart(s) == s;
  }

  /** `\s*` in front of a non-space character consumes exactly the one
      space before it. */
  lemma TrimOneSpace(c: char, s: string)
    requires IsSpace(c) && s != [] && !IsSpace(s[0])
    ensures TrimStart([c] + s) == s
  {
    assert ([c] + s)[1..] == s;
  }

  predicate StartsWith(s: string, p: string) {
    |p| <= |s| && s[..|p|] == p
  }

  predicate EndsWith(s: string, p: string) {
    |p| <= |s| && s[|s| - |p|..] == p
  }

  /** Python's `p in s`. */
  predicate Contains(s: string, p: string)
    decreases |s|
  {
    StartsWith(s, p) || (s != [] && Contains(s[1..], p))
  }

  /** A one-character string occurs in `s` exactly when that character
      does. */
  lemma {:induction false} ContainsChar(s: string, c: char)
    ensures Contains(s, [c]) <==> c in s
    decreases |s|
  {
    if s != [] {
      ContainsChar(s[1..], c);
      assert s == [s[0]] + s[1..];
    }
  }

  /** `s.find(p)`: the first position at which `p` occurs. */
  function IndexOf(s: string, p: string): (r: Option<nat>)
    ensures r.Some? ==> r.value + |p| <= |s| && s[r.value..r.value + |p|] == p
    ensures r.None? <==> !Contains(s, p)
    decreases |s|
  {
    if StartsWith(s, p) then Some(0)
    else if s == [] then None
    else match IndexOf(s[1..], p)
      case None => None
      case Some(i) => Some(i + 1)
  }

  /** `s.split(sep)` for a non-empty separator: the pieces between
      successive leftmost non-overlapping occurrences of `sep`. */
  function Split(s: string, sep: string): (parts: seq<string>)
    requires sep != []
    ensures |parts| >= 1
    decreases |s|
  {
    match IndexOf(s, sep)
    case None => [s]
    case Some(i) => [s[..i]] + Split(s[i + |sep|..], sep)
  }

  /** `sep.join(parts)`. */
  function Join(parts: seq<string>, sep: string): string
    decreases |parts|
  {
    if parts == [] then ""
    else if |parts| == 1 then parts[0]
    else parts[0] + sep + Join(parts[1..], sep)
  }

  /** Joining the pieces of a split with the same separator restores the
      original string. */
  lemma {:induction false} JoinSplit(s: string, sep: string)
    requires sep != []
    ensures Join(Split(s, sep), sep) == s
    decreases |s|
  {
    var found := IndexOf(s, sep);
    if found.Some? {
      var i := found.value;
      var rest := s[i + |sep|..];
      JoinSplit(rest, sep);
      JoinCons(s[..i], Split(rest, sep), sep);
      assert s == s[..i] + sep + rest by {
        assert s == s[..i] + s[i..i + |sep|] + s[i + |sep|..];
      }
    }
  }

  lemma JoinCons(head: string, tail: seq<string>, sep: string)
    requires tail != []
    ensures Join([head] + tail, sep) == head + sep + Join(tail, sep)
  {
    assert ([head] + tail)[1..] == tail;
  }

  /** A leading field that holds no separator (not even one completed by
      the separator that follows it) is split off on its own. */
  lemma {:induction false} SplitLeadingField(x: string, rest: string, sep: string)
    requires sep != []
    requires !Contains(x + sep[..|sep| - 1], sep)
    ensures Split(x + sep + rest, sep) == [x] + Split(rest, sep)
  {
    LeadingFieldIndex(x, rest, sep);
    assert (x + sep + rest)[..|x|] == x;
    assert (x + sep + rest)[|x| + |sep|..] == rest;
  }

  lemma LeadingFieldIndex(x: string, rest: string, sep: string)
    requires sep != []
    requires !Contains(x + sep[..|sep| - 1], sep)
    ensures IndexOf(x + sep + rest, sep) == Some(|x|)
  {
    var s := x + sep + rest;
    assert s[|x|..|x| + |sep|] == sep;
    assert s[..|x| + |sep| - 1] == x + sep[..|sep| - 1];
    FirstOccurrence(s, sep, |x|);
  }

  /** An occurrence at `k` is the one `IndexOf` finds when no earlier
      occurrence starts before it. */
  lemma {:induction false} FirstOccurrence(s: string, p: string, k: nat)
    requires p != [] && k + |p| <= |s| && s[k..k + |p|] == p
    requires !Contains(s[..k + |p| - 1], p)
    ensures IndexOf(s, p) == Some(k)
    decreases k
  {
    if k == 0 {
      OccurrenceAtStart(s, p);
    } else {
      TailOccurrence(s, p, k);
      NoEarlierOccurrence(s, p, k);
      FirstOccurrence(s[1..], p, k - 1);
      IndexOfStep(s, p, k - 1);
    }
  }

  lemma OccurrenceAtStart(s: string, p: string)
    requires |p| <= |s| && s[0..|p|] == p
    ensures IndexOf(s, p) == Some(0)
  {
    assert s[..|p|] == s[0..|p|];
  }

  lemma TailOccurrence(s: string, p: string, k: nat)
    requires 0 < k && k + |p| <= |s| && s[k..k + |p|] == p
    ensures s[1..][k - 1..k - 1 + |p|] == p
  {
    assert s[1..][k - 1..k - 1 + |p|] == s[k..k + |p|];
  }

  /** With no occurrence ending before `k + |p|`, none starts at 0 and
      none ends before that point in the tail either. */
  lemma NoEarlierOccurrence(s: string, p: string, k: nat)
    requires p != [] && 0 < k && k + |p| <= |s|
    requires !Contains(s[..k + |p| - 1], p)
    ensures !StartsWith(s, p) && !Contains(s[1..][..k - 1 + |p| - 1], p)
  {
    var w := s[..k + |p| - 1];
    NotContainsUnfold(w, p);
    assert w[..|p|] == s[..|p|];
    assert w[1..] == s[1..][..k - 1 + |p| - 1];
  }

  lemma IndexOfStep(s: string, p: string, k: nat)
    requires s != [] && !StartsWith(s, p) && IndexOf(s[1..], p) == Some(k)
    ensures IndexOf(s, p) == Some(k + 1)
  {
  }

  lemma NotContainsUnfold(w: string, p: string)
    requires w != [] && !Contains(w, p)
    ensures !StartsWith(w, p) && !Contains(w[1..], p)
  {
  }

  /** An occurrence in `s` is still the first one once text is appended. */
  lemma {:induction false} IndexOfAppend(s: string, t: string, p: string)
    requires IndexOf(s, p).Some?
    ensures IndexOf(s + t, p) == IndexOf(s, p)
    decreases |s|
  {
    if !StartsWith(s, p) {
      assert (s + t)[..|p|] == s[..|p|];
      assert (s + t)[1..] == s[1..] + t;
      IndexOfAppend(s[1..], t, p);
    }
  }

  /** Splitting on a character: a last field free of that character is
      split off on its own. */
  lemma {:induction false} SplitLastField(x: string, c: char, y: string)
    requires c !in y
    ensures Split(x + [c] + y, [c]) == Split(x, [c]) + [y]
    decreases |x|
  {
    var s := x + [c] + y;
    ContainsChar(y, c);
    assert Split(y, [c]) == [y];
    match IndexOf(x, [c]) {
      case None =>
        assert x + [c][..0] == x;
        LeadingFieldIndex(x, y, [c]);
        assert s[..|x|] == x && s[|x| + 1..] == y;
      case Some(i) =>
        IndexOfAppend(x, [c] + y, [c]);
        assert s == x + ([c] + y);
        assert s[..i] == x[..i];
        assert s[i + 1..] == x[i + 1..] + [c] + y;
        SplitLastField(x[i + 1..], c, y);
    }
  }

  /** Splitting a join on a character gives the parts back when none of
      them holds that character. */
  lemma {:induction false} SplitJoin(parts: seq<string>, c: char)
    requires parts != []
    requires forall k :: 0 <= k < |parts| ==> c !in parts[k]
    ensures Split(Join(parts, [c]), [c]) == parts
    decreases |parts|
  {
    ContainsChar(parts[0], c);
    if |parts| == 1 {
      assert IndexOf(parts[0], [c]).None?;
    } else {
      var tail := parts[1..];
      SplitJoin(tail, c);
      JoinCons(parts[0], tail, [c]);
      assert [parts[0]] + tail == parts;
      assert parts[0] + [c][..0] == parts[0];
      SplitLeadingField(parts[0], Join(tail, [c]), [c]);
    }
  }

  /** Decimal digits of a natural number, as `str(n)` writes them. */
  function NatToString(n: nat): (r: string)
    ensures r != [] && forall k :: 0 <= k < |r| ==> IsDigit(r[k])
    ensures DigitsValue(r) == n
    decreases n
  {
    var d := [(('0' as int) + n % 10) as char];
    if n < 10 then d
    else
      var hi := NatToString(n / 10);
      DigitsValueAppend(hi, d[0]);
      hi + d
  }

  /** `int(ds)` for a string of ASCII digits. */
  function DigitsValue(ds: string): nat
    decreases |ds|
  {
    if ds == [] then 0
    else if IsDigit(ds[|ds| - 1]) then 10 * DigitsValue(ds[..|ds| - 1]) + (ds[|ds| - 1] as int - '0' as int)
    else 10 * DigitsValue(ds[..|ds| - 1])
  }

  lemma DigitsValueAppend(ds: string, c: char)
    requires IsDigit(c)
    ensures DigitsValue(ds + [c]) == 10 * DigitsValue(ds) + (c as int - '0' as int)
  {
    assert (ds + [c])[..|ds + [c]| - 1] == ds;
  }
}
