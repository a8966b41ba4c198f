/**
 * Turning the generation service's answer into the text handed to `JSON.parse`
 * (lib/inngest/function.ts, lines 59-61):
 *
 *   1. take the text of the first part of the first candidate, or "" when there is none;
 *   2. delete, left to right, every match of the global pattern ```(?:json)?\n? ;
 *   3. trim ECMAScript whitespace from both ends.
 */
module ResponseCleaning {
  import opened Wrappers

  // ---------------------------------------------------------------------------
  // The response shape read by the optional chain on line 59
  // ---------------------------------------------------------------------------

  /** A content part; `text` is None when the part has no "text" property. */
  datatype Part = Part(text: Option<string>)

  datatype Content = Content(parts: Option<seq<Part>>)

  datatype Candidate = Candidate(content: Option<Content>)

  /** The `response` object of the generation result; each `?.` is an Option. */
  datatype Response = Response(candidates: Option<seq<Candidate>>)

  /** `res.response.candidates?.[0]?.content?.parts?.[0]` */
  function FirstPart(res: Response): (r: Option<Part>)
    ensures r.Some? <==>
      && res.candidates.Some? && |res.candidates.value| > 0
      && res.candidates.value[0].content.Some?
      && res.candidates.value[0].content.value.parts.Some?
      && |res.candidates.value[0].content.value.parts.value| > 0
    ensures r.Some? ==> r.value == res.candidates.value[0].content.value.parts.value[0]
  {
    match res.candidates
    case None => None
    case Some(cs) =>
      if |cs| == 0 then None
      else match cs[0].content
        case None => None
        case Some(c) =>
          match c.parts
          case None => None
          case Some(ps) => if |ps| == 0 then None else Some(ps[0])
  }

  /** Line 60: the first part's text, or "" when the part is missing or has no text. */
  function ExtractText(res: Response): (t: string)
    ensures FirstPart(res).None? ==> t == ""
    ensures FirstPart(res).Some? && FirstPart(res).value.text.None? ==> t == ""
    ensures FirstPart(res).Some? && FirstPart(res).value.text.Some? ==>
              t == FirstPart(res).value.text.value
  {
    match FirstPart(res)
    case Some(Part(Some(s))) => s
    case _ => ""
  }

  // ---------------------------------------------------------------------------
  // Subsequences: what "only deletes characters" means
  // ---------------------------------------------------------------------------

  /** `a` is obtained from `b` by deleting zero or more elements. */
  predicate IsSubsequence<T(==)>(a: seq<T>, b: seq<T>)
    decreases |b|
  {
    if b == [] then a == []
    else (a != [] && a[0] == b[0] && IsSubsequence(a[1..], b[1..])) || IsSubsequence(a, b[1..])
  }

  lemma {:induction false} SubsequenceReflexive<T>(s: seq<T>)
    ensures IsSubsequence(s, s)
    decreases |s|
  {
    if s != [] {
      SubsequenceReflexive(s[1..]);
    }
  }

  lemma {:induction false} SubsequenceTransitive<T>(a: seq<T>, b: seq<T>, c: seq<T>)
    requires IsSubsequence(a, b) && IsSubsequence(b, c)
    ensures IsSubsequence(a, c)
    decreases |c|
  {
    if c == [] {
    } else if b != [] && b[0] == c[0] && IsSubsequence(b[1..], c[1..]) {
      if a != [] && a[0] == b[0] && IsSubsequence(a[1..], b[1..]) {
        SubsequenceTransitive(a[1..], b[1..], c[1..]);
      } else {
        SubsequenceTransitive(a, b[1..], c[1..]);
      }
    } else {
      SubsequenceTransitive(a, b, c[1..]);
    }
  }

  /** Every slice of `s` is a subsequence of `s`. */
  lemma {:induction false} SliceIsSubsequence<T>(s: seq<T>, i: nat, j: nat)
    requires i <= j <= |s|
    ensures IsSubsequence(s[i..j], s)
    decreases |s|
  {
    if s == [] {
    } else if i == 0 && j > 0 {
      SliceIsSubsequence(s[1..], 0, j - 1);
      assert s[1..][0..j - 1] == s[i..j][1..];
    } else if i == 0 {
      SliceIsSubsequence(s[1..], 0, 0);
      assert s[1..][0..0] == s[i..j];
    } else {
      SliceIsSubsequence(s[1..], i - 1, j - 1);
      assert s[1..][i - 1..j - 1] == s[i..j];
    }
  }

  // ---------------------------------------------------------------------------
  // The global replace of /```(?:json)?\n?/g by ""
  // ---------------------------------------------------------------------------

  const Fence: string := "```"

  /** The four strings the pattern matches. */
  predicate IsFenceToken(w: string)
  {
    w == "```" || w == "```json" || w == "```\n" || w == "```json\n"
  }

  /**
   * The length of the pattern's match at the start of `s`. Both optional groups
   * are greedy, so the match is the longest fence token that `s` starts with.
   */
  function MatchLength(s: string): (n: nat)
    requires |s| >= 3 && s[..3] == Fence
    ensures 3 <= n <= |s|
    ensures IsFenceToken(s[..n])
    ensures forall k :: n < k <= |s| ==> !IsFenceToken(s[..k])
  {
    var tagged := |s| >= 7 && s[3..7] == "json";
    var n := if tagged then 7 else 3;
    var m := if n < |s| && s[n] == '\n' then n + 1 else n;
    assert s[..m] == s[..3] + s[3..n] + s[n..m];
    forall k | m < k <= |s| ensures !IsFenceToken(s[..k]) {
      FenceTokenShape(s[..k]);
      assert s[..k][3..] == s[3..k];
    }
    m
  }

  lemma FenceTokenShape(w: string)
    ensures IsFenceToken(w) ==> |w| in {3, 4, 7, 8}
    ensures IsFenceToken(w) && |w| == 4 ==> w[3] == '\n'
    ensures IsFenceToken(w) && |w| >= 7 ==> w[3..7] == "json"
    ensures IsFenceToken(w) && |w| == 8 ==> w[7] == '\n'
  {
    if w == "```json" {
      assert w[3..7] == "json";
    } else if w == "```json\n" {
      assert w[3..7] == "json";
    }
  }

  /**
   * `s.replace(/```(?:json)?\n?/g, "")`: scanning left to right, a match is
   * deleted and the scan resumes after it; elsewhere the character is kept.
   */
  function StripFences(s: string): (r: string)
    ensures |r| <= |s|
    decreases |s|
  {
    if |s| < 3 then s
    else if s[..3] == Fence then StripFences(s[MatchLength(s)..])
    else [s[0]] + StripFences(s[1..])
  }

  /** Three backticks start at position `i` of `s`. */
  predicate FenceAt(s: string, i: nat)
    requires i + 3 <= |s|
  {
    s[i] == '`' && s[i + 1] == '`' && s[i + 2] == '`'
  }

  /** No three consecutive backticks, so the pattern has no match in `s`. */
  predicate FenceFree(s: string)
  {
    forall i: nat :: i + 3 <= |s| ==> !FenceAt(s, i)
  }

  lemma {:induction false} StripFencesIsSubsequence(s: string)
    ensures IsSubsequence(StripFences(s), s)
    decreases |s|
  {
    if |s| < 3 {
      SubsequenceReflexive(s);
    } else if s[..3] == Fence {
      var n := MatchLength(s);
      StripFencesIsSubsequence(s[n..]);
      SkippedPrefix(StripFences(s[n..]), s, n);
    } else {
      StripFencesIsSubsequence(s[1..]);
      assert ([s[0]] + StripFences(s[1..]))[1..] == StripFences(s[1..]);
    }
  }

  /** A subsequence of a suffix of `b` is a subsequence of `b`. */
  lemma {:induction false} SkippedPrefix(a: string, b: string, n: nat)
    requires n <= |b| && IsSubsequence(a, b[n..])
    ensures IsSubsequence(a, b)
    decreases n
  {
    if n > 0 {
      assert b[n - 1..][1..] == b[n..];
      SkippedPrefix(a, b, n - 1);
    }
  }

  /** If the result starts with a backtick, so does the input. */
  lemma StripFencesFirst(s: string)
    requires |StripFences(s)| >= 1 && StripFences(s)[0] == '`'
    ensures |s| >= 1 && s[0] == '`'
  {
  }

  /** If the result starts with two backticks, so does the input. */
  lemma StripFencesFirstTwo(s: string)
    requires |StripFences(s)| >= 2 && StripFences(s)[0] == '`' && StripFences(s)[1] == '`'
    ensures |s| >= 2 && s[0] == '`' && s[1] == '`'
  {
    if |s| >= 3 && s[..3] != Fence {
      assert StripFences(s)[1..] == StripFences(s[1..]);
      StripFencesFirst(s[1..]);
    }
  }

  lemma FenceFreeCons(c: char, r: string)
    requires FenceFree(r)
    requires !(|r| >= 2 && c == '`' && r[0] == '`' && r[1] == '`')
    ensures FenceFree([c] + r)
  {
    var s := [c] + r;
    forall i: nat | i + 3 <= |s| ensures !FenceAt(s, i) {
      if i > 0 {
        assert FenceAt(s, i) == FenceAt(r, i - 1);
      }
    }
  }

  /** The replace is complete: no match is left in its output. */
  lemma {:induction false} StripFencesFenceFree(s: string)
    ensures FenceFree(StripFences(s))
    decreases |s|
  {
    if |s| < 3 {
    } else if s[..3] == Fence {
      StripFencesFenceFree(s[MatchLength(s)..]);
    } else {
      var r := StripFences(s[1..]);
      StripFencesFenceFree(s[1..]);
      if |r| >= 2 && r[0] == '`' && r[1] == '`' {
        StripFencesFirstTwo(s[1..]);
        assert s[0] != '`';
      }
      FenceFreeCons(s[0], r);
    }
  }

  /** Text with no match is left as it is. */
  lemma {:induction false} FenceFreeUnchanged(s: string)
    requires FenceFree(s)
    ensures StripFences(s) == s
    decreases |s|
  {
    if |s| >= 3 {
      assert !FenceAt(s, 0);
      assert s[..3] != Fence;
      assert FenceFree(s[1..]) by {
        forall i: nat | i + 3 <= |s[1..]| ensures !FenceAt(s[1..], i) {
          assert FenceAt(s[1..], i) == FenceAt(s, i + 1);
        }
      }
      FenceFreeUnchanged(s[1..]);
    }
  }

  /** Deleting every match is idempotent. */
  lemma StripFencesIdempotent(s: string)
    ensures StripFences(StripFences(s)) == StripFences(s)
  {
    StripFencesFenceFree(s);
    FenceFreeUnchanged(StripFences(s));
  }

  lemma FenceFreeSlice(s: string, i: nat, j: nat)
    requires FenceFree(s) && i <= j <= |s|
    ensures FenceFree(s[i..j])
  {
    var t := s[i..j];
    forall k: nat | k + 3 <= |t| ensures !FenceAt(t, k) {
      assert FenceAt(t, k) == FenceAt(s, i + k);
    }
  }

  /** A first character that is not a backtick is kept, and the scan goes on after it. */
  lemma KeepFirst(s: string)
    requires |s| >= 1 && s[0] != '`'
    ensures StripFences(s) == [s[0]] + StripFences(s[1..])
  {
    if |s| < 3 {
      assert [s[0]] + s[1..] == s;
    } else {
      assert s[..3][0] != Fence[0];
    }
  }

  /** A character other than a backtick in front of any text is kept as it is. */
  lemma KeepCons(c: char, u: string)
    requires c != '`'
    ensures StripFences([c] + u) == [c] + StripFences(u)
  {
    var s := [c] + u;
    KeepFirst(s);
    assert s[1..] == u;
  }

  /** Concatenation is associative. */
  lemma ConcatAssoc<T>(a: seq<T>, b: seq<T>, c: seq<T>)
    ensures (a + b) + c == a + (b + c)
  {
  }

  /** One step of PlainPrefix: a kept character in front of a prefix that passes through. */
  lemma PrefixStep(c: char, b: string, t: string)
    requires c != '`'
    requires StripFences(b + t) == b + StripFences(t)
    ensures StripFences(([c] + b) + t) == ([c] + b) + StripFences(t)
  {
    KeepCons(c, b + t);
    ConcatAssoc([c], b, t);
    ConcatAssoc([c], b, StripFences(t));
  }

  /** A prefix with no backtick passes through the replace unchanged. */
  lemma {:induction false} PlainPrefix(b: string, t: string)
    requires NoBacktick(b)
    ensures StripFences(b + t) == b + StripFences(t)
    decreases |b|
  {
    if b == [] {
      assert b + t == t;
    } else {
      var b' := b[1..];
      PlainPrefix(b', t);
      assert b[0] != '`';
      PrefixStep(b[0], b', t);
      assert [b[0]] + b' == b;
    }
  }

  /** An opening "```json\n" is deleted as one match, whatever follows it. */
  lemma TaggedOpening(rest: string)
    ensures StripFences("```json\n" + rest) == StripFences(rest)
  {
    var s := "```json\n" + rest;
    assert s[..3] == Fence && s[3..7] == "json" && s[7] == '\n';
    assert MatchLength(s) == 8;
    assert s[8..] == rest;
  }

  /** An opening "```\n" is deleted as one match, whatever follows it. */
  lemma UntaggedOpening(rest: string)
    ensures StripFences("```\n" + rest) == StripFences(rest)
  {
    var s := "```\n" + rest;
    assert s[..3] == Fence && s[3] == '\n';
    assert !(|s| >= 7 && s[3..7] == "json") by {
      if |s| >= 7 { assert s[3..7][0] == s[3]; }
    }
    assert MatchLength(s) == 4;
    assert s[4..] == rest;
  }

  /** A lone "```" at the end is deleted. */
  lemma FinalFence()
    ensures StripFences("```") == ""
  {
    assert MatchLength("```") == 3;
  }

  /** Text without any backtick. */
  predicate NoBacktick(s: string)
  {
    forall i :: 0 <= i < |s| ==> s[i] != '`'
  }

  lemma FenceFreeOfPlain(s: string)
    requires NoBacktick(s)
    ensures FenceFree(s)
  {
  }

  // ---------------------------------------------------------------------------
  // String.prototype.trim
  // ---------------------------------------------------------------------------

  /**
   * ECMAScript WhiteSpace (tab, vertical tab, form feed, ZWNBSP and the Unicode
   * space separators) and LineTerminator (LF, CR, LS, PS) code points.
   */
  predicate IsWhitespace(c: char)
  {
    || c == '\t' || c == '\U{000B}' || c == '\U{000C}' || c == ' ' || c == '\U{00A0}'
    || c == '\U{FEFF}' || c == '\U{1680}' || ('\U{2000}' <= c <= '\U{200A}')
    || c == '\U{202F}' || c == '\U{205F}' || c == '\U{3000}'
    || c == '\n' || c == '\r' || c == '\U{2028}' || c == '\U{2029}'
  }

  predicate AllWhitespace(s: string)
  {
    forall i :: 0 <= i < |s| ==> IsWhitespace(s[i])
  }

  /** Neither end of `s` is whitespace. */
  predicate Trimmed(s: string)
  {
    s == [] || (!IsWhitespace(s[0]) && !IsWhitespace(s[|s| - 1]))
  }

  /** The number of whitespace characters `s` starts with. */
  function LeadingWhitespace(s: string): (n: nat)
    ensures n <= |s|
    ensures forall i :: 0 <= i < n ==> IsWhitespace(s[i])
    ensures n < |s| ==> !IsWhitespace(s[n])
    decreases |s|
  {
    if s == [] || !IsWhitespace(s[0]) then 0
    else
      var n := 1 + LeadingWhitespace(s[1..]);
      assert forall i :: 1 <= i < n ==> s[i] == s[1..][i - 1];
      n
  }

  /** The number of whitespace characters `s` ends with. */
  function TrailingWhitespace(s: string): (n: nat)
    ensures n <= |s|
    ensures forall i :: |s| - n <= i < |s| ==> IsWhitespace(s[i])
    ensures n < |s| ==> !IsWhitespace(s[|s| - n - 1])
    decreases |s|
  {
    if s == [] || !IsWhitespace(s[|s| - 1]) then 0
    else
      var p := s[..|s| - 1];
      var n := 1 + TrailingWhitespace(p);
      assert forall i :: |s| - n <= i < |s| - 1 ==> s[i] == p[i];
      n
  }

  /**
   * `s.trim()`: the slice of `s` left after dropping its leading whitespace run
   * and then its trailing whitespace run.
   */
  function Trim(s: string): (r: string)
    ensures LeadingWhitespace(s) + |r| <= |s|
    ensures r == s[LeadingWhitespace(s)..LeadingWhitespace(s) + |r|]
    ensures AllWhitespace(s[LeadingWhitespace(s) + |r|..])
    ensures Trimmed(r)
  {
    var i := LeadingWhitespace(s);
    var t := s[i..];
    var r := t[..|t| - TrailingWhitespace(t)];
    assert s[i + |r|..] == t[|t| - TrailingWhitespace(t)..];
    r
  }

  /** The leading whitespace run is the only one followed by a non-whitespace character. */
  lemma {:induction false} LeadingWhitespaceUnique(s: string, k: nat)
    requires k <= |s| && (forall i :: 0 <= i < k ==> IsWhitespace(s[i]))
    requires k < |s| ==> !IsWhitespace(s[k])
    ensures LeadingWhitespace(s) == k
    decreases k
  {
    if k > 0 {
      assert forall i :: 0 <= i < k - 1 ==> s[1..][i] == s[i + 1];
      LeadingWhitespaceUnique(s[1..], k - 1);
    }
  }

  lemma {:induction false} TrailingWhitespaceUnique(s: string, k: nat)
    requires k <= |s| && (forall i :: |s| - k <= i < |s| ==> IsWhitespace(s[i]))
    requires k < |s| ==> !IsWhitespace(s[|s| - k - 1])
    ensures TrailingWhitespace(s) == k
    decreases k
  {
    if k > 0 {
      var p := s[..|s| - 1];
      assert forall i :: |p| - (k - 1) <= i < |p| ==> p[i] == s[i];
      TrailingWhitespaceUnique(p, k - 1);
    }
  }

  /** Trim is determined by its contract: the trimmed core between two whitespace runs. */
  lemma TrimUnique(p: string, t: string, q: string)
    requires AllWhitespace(p) && AllWhitespace(q) && Trimmed(t)
    ensures Trim(p + t + q) == t
  {
    var s := p + t + q;
    assert forall k :: 0 <= k < |p| ==> s[k] == p[k];
    if t == [] {
      assert forall k :: |p| <= k < |s| ==> s[k] == q[k - |p|];
      LeadingWhitespaceUnique(s, |s|);
    } else {
      assert s[|p|] == t[0];
      LeadingWhitespaceUnique(s, |p|);
      var u := s[|p|..];
      assert u == t + q;
      assert forall k :: |t| <= k < |u| ==> u[k] == q[k - |t|];
      assert u[|t| - 1] == t[|t| - 1];
      TrailingWhitespaceUnique(u, |q|);
      assert u[..|t|] == t;
    }
  }

  lemma TrimTrimmed(s: string)
    requires Trimmed(s)
    ensures Trim(s) == s
  {
    assert [] + s + [] == s;
    TrimUnique([], s, []);
  }

  // ---------------------------------------------------------------------------
  // The whole cleaning step
  // ---------------------------------------------------------------------------

  /** `text.replace(/```(?:json)?\n?/g, "").trim()` */
  function Clean(text: string): (r: string)
    ensures |r| <= |text|
    ensures Trimmed(r)
  {
    Trim(StripFences(text))
  }

  /** Lines 59-61 together: the string handed to `JSON.parse`. */
  function CleanedResponse(res: Response): (r: string)
    ensures Trimmed(r)
    ensures FirstPart(res).Some? && FirstPart(res).value.text.Some? ==>
              |r| <= |FirstPart(res).value.text.value|
  {
    Clean(ExtractText(res))
  }

  /** A response without a usable first part cleans to the empty string. */
  lemma MissingTextCleansToEmpty(res: Response)
    requires FirstPart(res).None? || FirstPart(res).value.text.None?
    ensures CleanedResponse(res) == ""
  {
    assert StripFences("") == "";
    TrimTrimmed("");
  }

  /** Cleaning only deletes characters. */
  lemma CleanIsSubsequence(text: string)
    ensures IsSubsequence(Clean(text), text)
  {
    var u := StripFences(text);
    var r := Trim(u);
    var i := LeadingWhitespace(u);
    assert r == u[i..i + |r|];
    SliceIsSubsequence(u, i, i + |r|);
    StripFencesIsSubsequence(text);
    SubsequenceTransitive(r, u, text);
  }

  /** The cleaned text contains no three consecutive backticks. */
  lemma CleanIsFenceFree(text: string)
    ensures FenceFree(Clean(text))
  {
    var u := StripFences(text);
    var r := Trim(u);
    var i := LeadingWhitespace(u);
    StripFencesFenceFree(text);
    FenceFreeSlice(u, i, i + |r|);
  }

  /** Cleaning twice is cleaning once. */
  lemma CleanIdempotent(text: string)
    ensures Clean(Clean(text)) == Clean(text)
  {
    var c := Clean(text);
    CleanIsFenceFree(text);
    FenceFreeUnchanged(c);
    TrimTrimmed(c);
  }

  /** Text without any backtick is only trimmed. */
  lemma CleanWithoutBacktick(text: string)
    requires NoBacktick(text)
    ensures Clean(text) == Trim(text)
  {
    FenceFreeOfPlain(text);
    FenceFreeUnchanged(text);
  }

  /** The closing fence: "\n```" deletes to "\n". */
  lemma ClosingFence(b: string)
    requires NoBacktick(b)
    ensures StripFences(b + "\n```") == b + "\n"
  {
    assert NoBacktick(b + "\n") by {
      forall k | 0 <= k < |b| + 1 ensures (b + "\n")[k] != '`' {
        if k < |b| { assert (b + "\n")[k] == b[k]; }
      }
    }
    PlainPrefix(b + "\n", "```");
    assert (b + "\n") + "```" == b + "\n```";
    FinalFence();
  }

  /** The newline left by a closing fence is trimmed away. */
  lemma TrimNewline(b: string)
    requires Trimmed(b)
    ensures Trim(b + "\n") == b
  {
    assert AllWhitespace("\n");
    assert [] + b + "\n" == b + "\n";
    TrimUnique([], b, "\n");
  }

  /** A body wrapped in a ```json fence cleans to exactly that body. */
  lemma JsonFencedBody(b: string)
    requires NoBacktick(b) && Trimmed(b)
    ensures Clean("```json\n" + b + "\n```") == b
  {
    assert "```json\n" + b + "\n```" == "```json\n" + (b + "\n```");
    TaggedOpening(b + "\n```");
    ClosingFence(b);
    TrimNewline(b);
  }

  /** A body wrapped in an untagged fence cleans to exactly that body. */
  lemma PlainFencedBody(b: string)
    requires NoBacktick(b) && Trimmed(b)
    ensures Clean("```\n" + b + "\n```") == b
  {
    assert "```\n" + b + "\n```" == "```\n" + (b + "\n```");
    UntaggedOpening(b + "\n```");
    ClosingFence(b);
    TrimNewline(b);
  }

  /** A closing fence directly after the body (no newline) is removed as well. */
  lemma JsonFencedBodyNoNewline(b: string)
    requires NoBacktick(b) && Trimmed(b)
    ensures Clean("```json\n" + b + "```") == b
  {
    assert "```json\n" + b + "```" == "```json\n" + (b + "```");
    TaggedOpening(b + "```");
    PlainPrefix(b, "```");
    FinalFence();
    assert b + "" == b;
    TrimTrimmed(b);
  }
}
