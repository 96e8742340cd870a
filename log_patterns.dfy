/** The regular expressions the log viewer runs over a log message to pull
    fields out of the JSON payload the interview logger wrote, and the
    JSON string escaping they undo.

    Each pattern has the shape `"<key>":\s*<value>`; `re.search` reports
    the leftmost position where the pattern matches. */
module LogPatterns {
  import opened Wrappers
  import opened Text

  /** A captured value, as the viewer stores it in an event's data. */
  datatype Datum = Str(s: string) | Num(n: nat) | Flag(b: bool)

  datatype Pattern =
    /** `"key":\s*"([^"]+)"`, or `([^"]*)` when `nonEmpty` is false. */
    | Quoted(key: string, nonEmpty: bool)
    /** `"key":\s*(\d+)`, converted with `int`. */
    | Digits(key: string)
    /** `"key":\s*(true|false)`, compared with `'true'`. */
    | TrueFalse(key: string)
    /** `"key":\s*"((?:[^"\\]|\\.)*)"`: a JSON string body with escapes. */
    | Escaped(key: string)

  /** The opening every pattern starts with: the quoted key and a colon. */
  function Opening(key: string): string {
    "\"" + key + "\":"
  }

  /** The longest run of ASCII digits at the front of `s` (greedy `\d+`). */
  function DigitRun(s: string): (r: string)
    ensures |r| <= |s| && r == s[..|r|]
    ensures forall k :: 0 <= k < |r| ==> IsDigit(r[k])
    ensures |r| < |s| ==> !IsDigit(s[|r|])
    decreases |s|
  {
    if s != [] && IsDigit(s[0]) then [s[0]] + DigitRun(s[1..]) else []
  }

  /** Where a JSON string body ends: the index of the first quote that is
      not part of an escape `\.`, or None when there is none (`.` does not
      match a line break). */
  function ScanEscaped(s: string): (r: Option<nat>)
    ensures r.Some? ==> r.value < |s| && s[r.value] == '"'
    decreases |s|
  {
    if s == [] then None
    else if s[0] == '"' then Some(0)
    else if s[0] == '\\' then
      if |s| >= 2 && s[1] != '\n' then
        match ScanEscaped(s[2..])
        case Some(n) => Some(n + 2)
        case None => None
      else None
    else
      match ScanEscaped(s[1..])
      case Some(n) => Some(n + 1)
      case None => None
  }

  /** A quoted value `"..."` at the front of `s`: the text up to the next
      quote. */
  function QuotedValue(s: string, nonEmpty: bool): Option<Datum> {
    if s == [] || s[0] != '"' then None
    else
      match IndexOf(s[1..], "\"")
      case None => None
      case Some(n) => if nonEmpty && n == 0 then None else Some(Str(s[1..][..n]))
  }

  /** Whether `p` matches at the very front of `s`, and what group 1
      captures (already converted for `Digits` and `TrueFalse`). */
  function MatchAt(p: Pattern, s: string): (r: Option<Datum>)
    ensures r.Some? ==> StartsWith(s, Opening(p.key))
  {
    var open := Opening(p.key);
    if !StartsWith(s, open) then None
    else MatchValue(p, TrimStart(s[|open|..]))
  }

  /** What the part of `p` after `"key":\s*` captures at the front of `rest`. */
  function MatchValue(p: Pattern, rest: string): Option<Datum> {
    match p
    case Quoted(_, nonEmpty) => QuotedValue(rest, nonEmpty)
    case Digits(_) =>
      var ds := DigitRun(rest);
      if ds == [] then None else Some(Num(DigitsValue(ds)))
    case TrueFalse(_) =>
      if StartsWith(rest, "true") then Some(Flag(true))
      else if StartsWith(rest, "false") then Some(Flag(false))
      else None
    case Escaped(_) =>
      if rest != [] && rest[0] == '"' then
        match ScanEscaped(rest[1..])
        case Some(n) => Some(Str(rest[1..][..n]))
        case None => None
      else None
  }

  /** `re.search(p, s)`: the capture at the leftmost position that matches. */
  function Search(p: Pattern, s: string): Option<Datum>
    decreases |s|
  {
    match MatchAt(p, s)
    case Some(d) => Some(d)
    case None => if s == [] then None else Search(p, s[1..])
  }

  /** The search reports the match at the leftmost matching position. */
  lemma {:induction false} SearchFinds(p: Pattern, s: string, i: nat)
    requires i <= |s| && MatchAt(p, s[i..]).Some?
    requires forall j :: 0 <= j < i ==> MatchAt(p, s[j..]).None?
    ensures Search(p, s) == MatchAt(p, s[i..])
    decreases i
  {
    if i > 0 {
      assert MatchAt(p, s[0..]).None? && s[0..] == s;
      forall j | 0 <= j < i - 1
        ensures MatchAt(p, s[1..][j..]).None?
      {
        assert s[1..][j..] == s[j + 1..];
      }
      assert s[1..][i - 1..] == s[i..];
      SearchFinds(p, s[1..], i - 1);
    }
  }

  /** The search finds nothing exactly when no position matches. */
  lemma {:induction false} SearchMisses(p: Pattern, s: string)
    ensures Search(p, s).None? <==> forall i :: 0 <= i <= |s| ==> MatchAt(p, s[i..]).None?
    decreases |s|
  {
    assert s[0..] == s;
    if s != [] {
      SearchMisses(p, s[1..]);
      forall i | 1 <= i <= |s|
        ensures s[i..] == s[1..][i - 1..]
      {
      }
    }
  }

  /** A match right after text holding no quote is the one reported: no
      pattern can start inside that text. */
  lemma SearchAfter(p: Pattern, pre: string, s: string)
    requires '"' !in pre && MatchAt(p, s).Some?
    ensures Search(p, pre + s) == MatchAt(p, s)
  {
    var t := pre + s;
    forall j | 0 <= j < |pre|
      ensures MatchAt(p, t[j..]).None?
    {
      assert t[j] == pre[j];
      assert Opening(p.key)[0] == '"';
    }
    assert t[|pre|..] == s;
    SearchFinds(p, t, |pre|);
  }

  /** How `json.dumps` writes one member of an object: `"key": value`. */
  function JsonMember(key: string, value: string): string {
    Opening(key) + " " + value
  }

  /** Past the key and the space `json.dumps` puts after the colon, the
      value alone decides the match. */
  lemma MemberMatch(p: Pattern, value: string, post: string)
    requires value != [] && !IsSpace(value[0])
    ensures MatchAt(p, JsonMember(p.key, value) + post) == MatchValue(p, value + post)
  {
    var open := Opening(p.key);
    var s := JsonMember(p.key, value) + post;
    assert s == open + (" " + (value + post));
    assert s[..|open|] == open && s[|open|..] == " " + (value + post);
    TrimOneSpace(' ', value + post);
  }

  /** A quoted string without quotes in it is captured as written. */
  lemma QuotedRoundTrip(key: string, nonEmpty: bool, v: string, post: string)
    requires '"' !in v && (nonEmpty ==> v != [])
    ensures MatchAt(Quoted(key, nonEmpty), JsonMember(key, "\"" + v + "\"") + post) == Some(Str(v))
  {
    var value := "\"" + v + "\"";
    MemberMatch(Quoted(key, nonEmpty), value, post);
    var rest := value + post;
    ContainsChar(v, '"');
    assert v + "\""[..0] == v;
    LeadingFieldIndex(v, post, "\"");
    assert rest[1..] == v + "\"" + post;
    assert rest[1..][..|v|] == v;
  }

  /** A number written in decimal is read back, provided no digit follows
      it. */
  lemma NumberRoundTrip(key: string, n: nat, post: string)
    requires post == [] || !IsDigit(post[0])
    ensures MatchAt(Digits(key), JsonMember(key, NatToString(n)) + post) == Some(Num(n))
  {
    var ds := NatToString(n);
    MemberMatch(Digits(key), ds, post);
    DigitRunOfDigits(ds, post);
  }

  lemma {:induction false} DigitRunOfDigits(ds: string, post: string)
    requires forall k :: 0 <= k < |ds| ==> IsDigit(ds[k])
    requires post == [] || !IsDigit(post[0])
    ensures DigitRun(ds + post) == ds
    decreases |ds|
  {
    if ds != [] {
      assert (ds + post)[1..] == ds[1..] + post;
      DigitRunOfDigits(ds[1..], post);
    } else {
      assert ds + post == post;
    }
  }

  /** `true` and `false` are read back as the flag they spell. */
  lemma FlagRoundTrip(key: string, b: bool, post: string)
    ensures MatchAt(TrueFalse(key), JsonMember(key, if b then "true" else "false") + post) == Some(Flag(b))
  {
    var word := if b then "true" else "false";
    MemberMatch(TrueFalse(key), word, post);
    assert (word + post)[..|word|] == word;
    if !b {
      assert (word + post)[..4] != "true";
    }
  }

  // ---------------------------------------------------------------
  // JSON string escaping

  function HexDigit(d: nat): (c: char)
    requires d < 16
    ensures IsHex(c)
  {
    if d < 10 then ('0' as int + d) as char else ('a' as int + d - 10) as char
  }

  predicate IsHex(c: char) {
    IsDigit(c) || ('a' <= c <= 'f') || ('A' <= c <= 'F')
  }

  function HexValue(c: char): (d: nat)
    requires IsHex(c)
    ensures d < 16
  {
    if IsDigit(c) then c as int - '0' as int
    else if 'a' <= c <= 'f' then c as int - 'a' as int + 10
    else c as int - 'A' as int + 10
  }

  lemma HexValueOfDigit(d: nat)
    requires d < 16
    ensures HexValue(HexDigit(d)) == d
  {
  }

  /** How `json.dumps` writes one character inside a string literal. */
  function EscapeChar(c: char): string {
    if c == '"' then "\\\""
    else if c == '\\' then "\\\\"
    else if c == '\n' then "\\n"
    else if c == '\r' then "\\r"
    else if c == '\t' then "\\t"
    else if c == '\U{8}' then "\\b"
    else if c == '\U{C}' then "\\f"
    else if c < ' ' then "\\u00" + [HexDigit(c as int / 16), HexDigit(c as int % 16)]
    else [c]
  }

  /** The body of the JSON string literal `json.dumps` writes for `s`
      (with `ensure_ascii=False`). */
  function Escape(s: string): string
    decreases |s|
  {
    if s == [] then "" else EscapeChar(s[0]) + Escape(s[1..])
  }

  /** The character a two-character escape `\c` stands for in JSON. */
  function EscapedChar(c: char): Option<char> {
    if c == 'n' then Some('\n')
    else if c == 't' then Some('\t')
    else if c == 'r' then Some('\r')
    else if c == 'b' then Some('\U{8}')
    else if c == 'f' then Some('\U{C}')
    else if c == '"' || c == '\\' || c == '/' then Some(c)
    else None
  }

  function CodeOf(h: string): nat
    requires |h| == 4 && forall k :: 0 <= k < 4 ==> IsHex(h[k])
  {
    4096 * HexValue(h[0]) + 256 * HexValue(h[1]) + 16 * HexValue(h[2]) + HexValue(h[3])
  }

  predicate IsUnicodeEscape(s: string) {
    |s| >= 6 && s[0] == '\\' && s[1] == 'u' &&
    IsHex(s[2]) && IsHex(s[3]) && IsHex(s[4]) && IsHex(s[5])
  }

  /** Decodes a JSON string body in one left-to-right pass. Every escape
      `json.dumps(..., ensure_ascii=False)` writes is decoded. Unlike
      `json.loads`, a `\uXXXX` escape at or above U+D800 stays undecoded, and
      an escape JSON does not define is kept as written rather than raising. */
  function Unescape(s: string): string
    decreases |s|
  {
    if s == [] then ""
    else if IsUnicodeEscape(s) && CodeOf(s[2..6]) < 0xD800 then
      [CodeOf(s[2..6]) as char] + Unescape(s[6..])
    else if s[0] == '\\' && |s| >= 2 && EscapedChar(s[1]).Some? then
      [EscapedChar(s[1]).value] + Unescape(s[2..])
    else [s[0]] + Unescape(s[1..])
  }

  lemma UnescapeChar(c: char, rest: string)
    ensures Unescape(EscapeChar(c) + rest) == [c] + Unescape(rest)
  {
    var e := EscapeChar(c);
    if |e| == 1 {
      var s := e + rest;
      assert s[0] == c && s[1..] == rest;
    } else if |e| == 2 {
      UnescapePair(c, rest);
    } else {
      UnescapeUnicode(c, rest);
    }
  }

  lemma UnescapePair(c: char, rest: string)
    requires |EscapeChar(c)| == 2
    ensures Unescape(EscapeChar(c) + rest) == [c] + Unescape(rest)
  {
    var e := EscapeChar(c);
    var s := e + rest;
    assert s[0] == '\\' && s[1] == e[1] && s[2..] == rest;
    assert !IsUnicodeEscape(s);
  }

  lemma UnescapeUnicode(c: char, rest: string)
    requires |EscapeChar(c)| > 2
    ensures Unescape(EscapeChar(c) + rest) == [c] + Unescape(rest)
  {
    var e := EscapeChar(c);
    var s := e + rest;
    var hi := c as int / 16;
    var lo := c as int % 16;
    HexValueOfDigit(hi);
    HexValueOfDigit(lo);
    assert s[..6] == e;
    assert s[2..6] == ['0', '0', HexDigit(hi), HexDigit(lo)];
    assert CodeOf(s[2..6]) == 16 * hi + lo == c as int;
    assert s[6..] == rest;
  }

  /** Decoding what `json.dumps` wrote gives the original text back. */
  lemma {:induction false} EscapeRoundTrip(s: string)
    ensures Unescape(Escape(s)) == s
    decreases |s|
  {
    if s != [] {
      EscapeRoundTrip(s[1..]);
      UnescapeChar(s[0], Escape(s[1..]));
      assert s == [s[0]] + s[1..];
    }
  }

  /** Text with neither quotes nor backslashes is skipped one character at
      a time by the escape scanner. */
  lemma {:induction false} ScanPlain(t: string, rest: string)
    requires forall k :: 0 <= k < |t| ==> t[k] != '"' && t[k] != '\\'
    requires ScanEscaped(rest).Some?
    ensures ScanEscaped(t + rest) == Some(|t| + ScanEscaped(rest).value)
    decreases |t|
  {
    if t == [] {
      assert t + rest == rest;
    } else {
      ScanPlain(t[1..], rest);
      ScanPlainStep(t, rest);
    }
  }

  /** A plain first character is skipped by one. */
  lemma ScanPlainStep(t: string, rest: string)
    requires t != [] && t[0] != '"' && t[0] != '\\' && ScanEscaped(t[1..] + rest).Some?
    ensures ScanEscaped(t + rest) == Some(1 + ScanEscaped(t[1..] + rest).value)
  {
    assert (t + rest)[0] == t[0];
    assert (t + rest)[1..] == t[1..] + rest;
  }

  lemma ScanEscapedChar(c: char, rest: string)
    requires ScanEscaped(rest).Some?
    ensures ScanEscaped(EscapeChar(c) + rest) == Some(|EscapeChar(c)| + ScanEscaped(rest).value)
  {
    EscapeCharShape(c);
    ScanWritten(EscapeChar(c), rest);
  }

  /** The escape scanner skips a written character of the shape
      `EscapeCharShape` describes as a whole. */
  lemma ScanWritten(e: string, rest: string)
    requires ScanEscaped(rest).Some? && |e| >= 1
    requires |e| == 1 ==> e[0] != '"' && e[0] != '\\'
    requires |e| > 1 ==> e[0] == '\\' && e[1] != '\n'
    requires |e| > 1 ==> forall k :: 2 <= k < |e| ==> e[k] != '"' && e[k] != '\\'
    ensures ScanEscaped(e + rest) == Some(|e| + ScanEscaped(rest).value)
  {
    if |e| == 1 {
      ScanPlain(e, rest);
    } else {
      ScanEscapeSequence(e[2..], e + rest, rest);
      ScanEscapedPair(e + rest);
    }
  }

  lemma ScanEscapeSequence(tail: string, s: string, rest: string)
    requires ScanEscaped(rest).Some? && |s| >= 2 && s[2..] == tail + rest
    requires forall k :: 2 <= k < 2 + |tail| ==> s[k] != '"' && s[k] != '\\'
    ensures ScanEscaped(s[2..]) == Some(|tail| + ScanEscaped(rest).value)
  {
    forall k | 0 <= k < |tail|
      ensures tail[k] != '"' && tail[k] != '\\'
    {
      assert tail[k] == s[k + 2];
    }
    ScanPlain(tail, rest);
  }

  /** What the escape scanner sees in one written character: either the
      character itself, or a backslash, a letter other than a line break
      and then only plain characters. */
  lemma EscapeCharShape(c: char)
    ensures |EscapeChar(c)| >= 1
    ensures |EscapeChar(c)| == 1 ==> EscapeChar(c)[0] != '"' && EscapeChar(c)[0] != '\\'
    ensures |EscapeChar(c)| > 1 ==> EscapeChar(c)[0] == '\\' && EscapeChar(c)[1] != '\n'
    ensures |EscapeChar(c)| > 1 ==>
      forall k :: 2 <= k < |EscapeChar(c)| ==> EscapeChar(c)[k] != '"' && EscapeChar(c)[k] != '\\'
  {
  }

  lemma ScanEscapedPair(s: string)
    requires |s| >= 2 && s[0] == '\\' && s[1] != '\n' && ScanEscaped(s[2..]).Some?
    ensures ScanEscaped(s) == Some(2 + ScanEscaped(s[2..]).value)
  {
  }

  /** The scanner stops exactly at the quote closing what `json.dumps`
      wrote. */
  lemma {:induction false} ScanEscapedRoundTrip(s: string, post: string)
    ensures ScanEscaped(Escape(s) + "\"" + post) == Some(|Escape(s)|)
    decreases |s|
  {
    if s == [] {
      assert Escape(s) + "\"" + post == "\"" + post;
    } else {
      var rest := Escape(s[1..]) + "\"" + post;
      ScanEscapedRoundTrip(s[1..], post);
      ScanEscapedChar(s[0], rest);
      EscapeRegroup(s, post);
    }
  }

  /** The text after the first character's escape, regrouped. */
  lemma EscapeRegroup(s: string, post: string)
    requires s != []
    ensures Escape(s) + "\"" + post == EscapeChar(s[0]) + (Escape(s[1..]) + "\"" + post)
    ensures |Escape(s)| == |EscapeChar(s[0])| + |Escape(s[1..])|
  {
    assert Escape(s) == EscapeChar(s[0]) + Escape(s[1..]);
  }

  /** A JSON string member is captured as the body `json.dumps` wrote, and
      decoding that body gives the original text. */
  lemma EscapedRoundTrip(key: string, text: string, post: string)
    ensures MatchAt(Escaped(key), JsonMember(key, "\"" + Escape(text) + "\"") + post) == Some(Str(Escape(text)))
    ensures Unescape(Escape(text)) == text
  {
    var body := Escape(text);
    var value := "\"" + body + "\"";
    MemberMatch(Escaped(key), value, post);
    var rest := value + post;
    assert rest[1..] == body + "\"" + post;
    ScanEscapedRoundTrip(text, post);
    assert rest[1..][..|body|] == body;
    EscapeRoundTrip(text);
  }

  // ---------------------------------------------------------------
  // The viewer's own unescaping

  /** `s.replace(target, replacement)`. */
  function Replace(s: string, target: string, replacement: string): string
    requires target != []
  {
    Join(Split(s, target), replacement)
  }

  /** The chain of `replace` calls the viewer applies to a captured prompt
      or response: `\n`, `\t`, `\"` and `\\`, one after the other over the
      whole text. */
  function ReplaceChain(s: string): string {
    Replace(Replace(Replace(Replace(s, "\\n", "\n"), "\\t", "\t"), "\\\"", "\""), "\\\\", "\\")
  }

  /** The chain misreads an escaped backslash followed by `n`: the text
      `\n` (a backslash and the letter n) is written by `json.dumps` as
      `\\n`, which the chain turns into a backslash and a line break,
      while decoding in one pass gives the text back. */
  lemma ReplaceChainCorrupts()
    ensures Escape("\\n") == "\\\\n"
    ensures ReplaceChain(Escape("\\n")) == "\\\n"
    ensures ReplaceChain(Escape("\\n")) != "\\n"
    ensures Unescape(Escape("\\n")) == "\\n"
  {
    var written := "\\\\n";
    EscapeBackslashN(written);
    FirstReplacement(written);
    ChainLeavesLineBreak("\\\n");
    EscapeRoundTrip("\\n");
  }

  lemma EscapeBackslashN(written: string)
    requires written == "\\\\n"
    ensures Escape("\\n") == written
  {
    assert Escape("\\n") == EscapeChar('\\') + Escape("n") by {
      assert "\\n"[1..] == "n";
    }
    assert Escape("n") == "n" by {
      assert "n"[1..] == [];
    }
  }

  /** The first replacement takes the second backslash and the `n` for a
      line-break escape. */
  lemma FirstReplacement(written: string)
    requires written == "\\\\n"
    ensures Replace(written, "\\n", "\n") == "\\\n"
  {
    var sep := "\\n";
    assert IndexOf(written, sep) == Some(1) by {
      assert written[..2][1] == '\\' && sep[1] == 'n';
      assert !StartsWith(written, sep);
      assert written[1..] == sep;
      assert StartsWith(written[1..], sep);
    }
    assert written[3..] == [] && written[..1] == "\\";
    assert Split([], sep) == [[]];
    assert Split(written, sep) == ["\\", ""];
    assert Join(["\\", ""], "\n") == "\\" + "\n" + "";
  }

  /** The last three replacements find nothing in a backslash followed by
      a line break. */
  lemma ChainLeavesLineBreak(step: string)
    requires step == "\\\n"
    ensures Replace(Replace(Replace(step, "\\t", "\t"), "\\\"", "\""), "\\\\", "\\") == step
  {
    assert step[1..] == "\n";
    NotAtFront(step, "\\t");
    NotAtFront(step, "\\\"");
    NotAtFront(step, "\\\\");
  }

  lemma NotAtFront(step: string, target: string)
    requires |step| == 2 && |target| == 2 && step[1] != target[1]
    ensures forall r :: Replace(step, target, r) == step
  {
    assert !StartsWith(step, target);
    Shorter(step[1..], target);
    forall r {
      NoOccurrence(step, target, r);
    }
  }

  lemma Shorter(s: string, p: string)
    requires |s| < |p|
    ensures !Contains(s, p)
  {
  }

  /** Replacing a pattern that does not occur changes nothing. */
  lemma NoOccurrence(s: string, target: string, replacement: string)
    requires target != [] && !Contains(s, target)
    ensures Replace(s, target, replacement) == s
  {
  }
}
