/** The string handling the provider adapters apply to the user's text and to
    the models' answers: prefix truncation (`substring(0, n)`), the greedy
    object match `/\{[\s\S]*\}/`, global removal of a literal
    (`replace(/lit/g, '')`) and `trim()`. A `char` here stands for one UTF-16
    code unit of a JavaScript string. */
module Strings {
  import opened Wrappers

  /** `s.substring(0, n)` for a non-negative `n`: the first `n` characters, or
      all of `s` when it is shorter. */
  function Prefix(s: string, n: nat): (r: string)
    ensures r <= s
    ensures |r| == if |s| <= n then |s| else n
  {
    if |s| <= n then s else s[..n]
  }

  /** Truncation is silent: it changes the text exactly when it is longer
      than the budget. */
  lemma PrefixKeepsShortText(s: string, n: nat)
    ensures Prefix(s, n) == s <==> |s| <= n
    ensures |s| > n ==> |Prefix(s, n)| == n
  {
  }

  /** Index of the first occurrence of `c` in `s`, if any */
  function FirstIndexOf(s: string, c: char): (r: Option<nat>)
    ensures r.Some? ==> r.value < |s| && s[r.value] == c
    ensures r.Some? ==> forall k :: 0 <= k < r.value ==> s[k] != c
    ensures r.None? ==> forall k :: 0 <= k < |s| ==> s[k] != c
  {
    if |s| == 0 then None
    else if s[0] == c then Some(0)
    else match FirstIndexOf(s[1..], c)
      case None => None
      case Some(i) => Some(i + 1)
  }

  /** Index of the last occurrence of `c` in `s`, if any */
  function LastIndexOf(s: string, c: char): (r: Option<nat>)
    ensures r.Some? ==> r.value < |s| && s[r.value] == c
    ensures r.Some? ==> forall k :: r.value < k < |s| ==> s[k] != c
    ensures r.None? ==> forall k :: 0 <= k < |s| ==> s[k] != c
  {
    if |s| == 0 then None
    else if s[|s| - 1] == c then Some(|s| - 1)
    else LastIndexOf(s[..|s| - 1], c)
  }

  /** `s[i..j + 1]` matches `/\{[\s\S]*\}/`: it opens with `{`, closes with
      `}`, and anything at all lies between. */
  ghost predicate BraceSpan(s: string, i: int, j: int) {
    0 <= i < j < |s| && s[i] == '{' && s[j] == '}'
  }

  /** The span a regular-expression engine reports for `/\{[\s\S]*\}/`: the
      leftmost start that can match, then, the star being greedy, the
      farthest end from that start. */
  ghost predicate LeftmostLongest(s: string, i: int, j: int) {
    && BraceSpan(s, i, j)
    && (forall i', j' :: BraceSpan(s, i', j') ==> i <= i')
    && (forall j' :: BraceSpan(s, i, j') ==> j' <= j)
  }

  /** `s.match(/\{[\s\S]*\}/)[0]`, or `None` where `match` gives `null`.
      Computed as the span from the first `{` to the last `}`. */
  function MatchObject(s: string): (r: Option<string>)
    ensures r.None? <==> forall i, j :: !BraceSpan(s, i, j)
    ensures r.Some? ==> exists i, j :: LeftmostLongest(s, i, j) && r.value == s[i..j + 1]
    ensures r.Some? ==> 2 <= |r.value| && r.value[0] == '{' && r.value[|r.value| - 1] == '}'
  {
    match (FirstIndexOf(s, '{'), LastIndexOf(s, '}'))
    case (Some(i), Some(j)) =>
      if i < j then
        assert LeftmostLongest(s, i, j);
        Some(s[i..j + 1])
      else
        None
    case _ => None
  }

  /** A matched object matches itself whole: taking the span again changes
      nothing. */
  lemma MatchObjectIdempotent(s: string)
    requires MatchObject(s).Some?
    ensures MatchObject(MatchObject(s).value) == MatchObject(s)
  {
    var v := MatchObject(s).value;
    assert FirstIndexOf(v, '{') == Some(0);
    assert LastIndexOf(v, '}') == Some(|v| - 1);
    assert v[0..|v|] == v;
  }

  /** An answer with prose around the object yields just the object. */
  lemma MatchObjectDropsProse()
    ensures MatchObject("ok {x} .") == Some("{x}")
  {
    var s := "ok {x} .";
    assert s[0] != '{' && s[1] != '{' && s[2] != '{' && s[3] == '{';
    assert FirstIndexOf(s, '{') == Some(3);
    assert s[7] != '}' && s[6] != '}' && s[5] == '}';
    assert LastIndexOf(s, '}') == Some(5);
    assert s[3..6] == "{x}";
  }

  /** `pat` occurs in `s` starting at index `k` */
  ghost predicate OccursAt(s: string, pat: string, k: int) {
    0 <= k && k + |pat| <= |s| && s[k..k + |pat|] == pat
  }

  /** `s.replace(/pat/g, '')` for a literal, non-empty `pat`: one left-to-right
      pass deleting each occurrence that does not overlap one already
      deleted. Characters brought together by a deletion are not scanned
      again, so the result may still contain `pat`. */
  function RemoveAll(s: string, pat: string): (r: string)
    requires pat != []
    ensures |r| <= |s|
    ensures forall c :: c in r ==> c in s
    decreases |s|
  {
    if |s| < |pat| then s
    else if s[..|pat|] == pat then
      assert s == s[..|pat|] + s[|pat|..];
      RemoveAll(s[|pat|..], pat)
    else
      assert s == [s[0]] + s[1..];
      [s[0]] + RemoveAll(s[1..], pat)
  }

  /** A string in which `pat` never occurs passes through unchanged. */
  lemma {:induction false} RemoveAllAbsent(s: string, pat: string)
    requires pat != []
    requires forall k :: !OccursAt(s, pat, k)
    ensures RemoveAll(s, pat) == s
    decreases |s|
  {
    if |s| >= |pat| {
      assert !OccursAt(s, pat, 0);
      assert s[0..|pat|] == s[..|pat|];
      forall k | OccursAt(s[1..], pat, k)
        ensures false
      {
        assert s[1..][k..k + |pat|] == s[k + 1..k + 1 + |pat|];
        assert OccursAt(s, pat, k + 1);
      }
      RemoveAllAbsent(s[1..], pat);
      assert s == [s[0]] + s[1..];
    }
  }

  /** A pattern whose first character is missing from `s` never occurs in it. */
  lemma AbsentWithoutFirstChar(s: string, pat: string)
    requires pat != [] && pat[0] !in s
    ensures forall k :: !OccursAt(s, pat, k)
  {
  }

  /** The characters `trim()` removes: JavaScript's WhiteSpace and
      LineTerminator sets. */
  predicate IsJsSpace(c: char) {
    || c == ' ' || c == '\t' || c == '\n' || c == '\r'
    || c == '\U{B}' || c == '\U{C}' || c == '\U{A0}' || c == '\U{1680}'
    || ('\U{2000}' <= c <= '\U{200A}')
    || c == '\U{2028}' || c == '\U{2029}' || c == '\U{202F}' || c == '\U{205F}'
    || c == '\U{3000}' || c == '\U{FEFF}'
  }

  /** How many white-space characters `s` begins with */
  function LeadingSpaces(s: string): (n: nat)
    ensures n <= |s|
    ensures forall k :: 0 <= k < n ==> IsJsSpace(s[k])
    ensures n == |s| || !IsJsSpace(s[n])
  {
    if s != [] && IsJsSpace(s[0]) then 1 + LeadingSpaces(s[1..]) else 0
  }

  /** How many white-space characters `s` ends with */
  function TrailingSpaces(s: string): (n: nat)
    ensures n <= |s|
    ensures forall k :: |s| - n <= k < |s| ==> IsJsSpace(s[k])
    ensures n == |s| || !IsJsSpace(s[|s| - n - 1])
  {
    if s != [] && IsJsSpace(s[|s| - 1]) then 1 + TrailingSpaces(s[..|s| - 1]) else 0
  }

  /** `r` is `s[i..i + |r|]`, everything of `s` around it is white space, and
      `r` neither begins nor ends with white space. */
  ghost predicate TrimmedAt(s: string, r: string, i: int) {
    && 0 <= i && i + |r| <= |s|
    && r == s[i..i + |r|]
    && (forall k :: 0 <= k < i ==> IsJsSpace(s[k]))
    && (forall k :: i + |r| <= k < |s| ==> IsJsSpace(s[k]))
    && (r == [] || (!IsJsSpace(r[0]) && !IsJsSpace(r[|r| - 1])))
  }

  /** `s.trim()` */
  function Trim(s: string): (r: string)
    ensures exists i :: TrimmedAt(s, r, i)
    ensures r == [] || (!IsJsSpace(r[0]) && !IsJsSpace(r[|r| - 1]))
  {
    var i := LeadingSpaces(s);
    if i == |s| then
      assert TrimmedAt(s, [], i);
      []
    else
      var j := TrailingSpaces(s);
      assert i < |s| - j;
      assert TrimmedAt(s, s[i..|s| - j], i);
      s[i..|s| - j]
  }

  /** A string that neither begins nor ends with white space is its own trim. */
  lemma TrimKeepsTrimmed(s: string)
    requires s == [] || (!IsJsSpace(s[0]) && !IsJsSpace(s[|s| - 1]))
    ensures Trim(s) == s
  {
  }

  /** Trimming twice is trimming once. */
  lemma TrimIdempotent(s: string)
    ensures Trim(Trim(s)) == Trim(s)
  {
    var i :| TrimmedAt(s, Trim(s), i);
    TrimKeepsTrimmed(Trim(s));
  }

  /** The Cohere clean-up: delete every "```json", then every "```", then
      trim. */
  function StripFences(s: string): (r: string)
    ensures |r| <= |s|
    ensures r == [] || (!IsJsSpace(r[0]) && !IsJsSpace(r[|r| - 1]))
  {
    Trim(RemoveAll(RemoveAll(s, "```json"), "```"))
  }

  /** On an answer with no backtick the clean-up is just `trim()`. */
  lemma StripFencesWithoutBackticks(s: string)
    requires '`' !in s
    ensures StripFences(s) == Trim(s)
  {
    AbsentWithoutFirstChar(s, "```json");
    RemoveAllAbsent(s, "```json");
    AbsentWithoutFirstChar(s, "```");
    RemoveAllAbsent(s, "```");
  }

  /** A fenced block around a backtick-free body is cleaned to the trimmed
      body. */
  lemma StripFencesUnwrapsBlock(s: string)
    requires '`' !in s
    ensures StripFences("```json" + s + "```") == Trim(s)
  {
    var t := "```json" + s + "```";
    assert t[..7] == "```json";
    assert t[7..] == s + "```";
    KeepsClosingFence(s);
    DropsClosingFence(s);
  }

  /** "```json" never occurs in a backtick-free text followed by "```". */
  lemma {:induction false} KeepsClosingFence(s: string)
    requires '`' !in s
    ensures RemoveAll(s + "```", "```json") == s + "```"
  {
    if s != [] {
      var t := s + "```";
      if |t| >= 7 {
        assert t[..7][0] == s[0] != '`';
        assert t[1..] == s[1..] + "```";
        KeepsClosingFence(s[1..]);
        assert t == [s[0]] + t[1..];
      }
    }
  }

  /** Deleting "```" from a backtick-free text followed by "```" leaves the
      text. */
  lemma {:induction false} DropsClosingFence(s: string)
    requires '`' !in s
    ensures RemoveAll(s + "```", "```") == s
  {
    var t := s + "```";
    if s == [] {
      assert t[..3] == "```" && t[3..] == [];
    } else {
      assert t[..3][0] == s[0] != '`';
      assert t[1..] == s[1..] + "```";
      DropsClosingFence(s[1..]);
      assert s == [s[0]] + s[1..];
    }
  }
}
