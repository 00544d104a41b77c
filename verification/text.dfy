/**
 * The Python string operations the classifier and its helpers rely on:
 * whitespace, `strip`, ASCII case mapping, `in` on strings, prefix and
 * suffix tests, single-character `replace`, `re.sub` over whitespace runs
 * and `str.join`.
 */
module Text {

  /** Python's whitespace set: `str.isspace()`, which `str.strip()` and the regex class `\s` also use. */
  predicate IsSpace(c: char) {
    || c == ' '
    || '\t' <= c <= '\r'
    || '\U{1C}' <= c <= '\U{1F}'
    || c == '\U{85}' || c == '\U{A0}' || c == '\U{1680}'
    || '\U{2000}' <= c <= '\U{200A}'
    || c == '\U{2028}' || c == '\U{2029}' || c == '\U{202F}' || c == '\U{205F}'
    || c == '\U{3000}'
  }

  predicate HasNoSpace(s: string) {
    forall i :: 0 <= i < |s| ==> !IsSpace(s[i])
  }

  // ---------------------------------------------------------------- strip

  /** How many whitespace characters `s` starts with. */
  function LeadingSpaces(s: string): (n: nat)
    ensures n <= |s|
    ensures forall i :: 0 <= i < n ==> IsSpace(s[i])
    ensures n < |s| ==> !IsSpace(s[n])
  {
    if |s| > 0 && IsSpace(s[0]) then 1 + LeadingSpaces(s[1..]) else 0
  }

  /** Where the trailing whitespace of `s` begins. */
  function TrailingStart(s: string): (e: nat)
    ensures e <= |s|
    ensures forall i :: e <= i < |s| ==> IsSpace(s[i])
    ensures e > 0 ==> !IsSpace(s[e - 1])
  {
    if |s| > 0 && IsSpace(s[|s| - 1]) then TrailingStart(s[..|s| - 1]) else |s|
  }

  /** Where the stripped text begins in `s`. */
  function StripStart(s: string): (k: nat)
    ensures k <= |s|
  {
    LeadingSpaces(s)
  }

  /** `s.strip()`: the slice of `s` left once whitespace is dropped at both ends. */
  function Strip(s: string): (r: string)
    ensures StripStart(s) + |r| <= |s|
    ensures r == s[StripStart(s)..StripStart(s) + |r|]
    ensures forall i :: 0 <= i < StripStart(s) ==> IsSpace(s[i])
    ensures forall i :: StripStart(s) + |r| <= i < |s| ==> IsSpace(s[i])
    ensures r == [] || (!IsSpace(r[0]) && !IsSpace(r[|r| - 1]))
  {
    var a, e := LeadingSpaces(s), TrailingStart(s);
    if a < e then s[a..e] else s[a..a]
  }

  /** A text without whitespace at either end is its own stripped form. */
  lemma {:induction false} StripNoop(s: string)
    requires s == [] || (!IsSpace(s[0]) && !IsSpace(s[|s| - 1]))
    ensures Strip(s) == s
  {
    if s != [] {
      assert LeadingSpaces(s) == 0;
      assert TrailingStart(s) == |s|;
    }
  }

  /** Every character of the stripped text comes from the text. */
  lemma {:induction false} StripChars(s: string)
    ensures forall c :: c in Strip(s) ==> c in s
  {
    var a, r := StripStart(s), Strip(s);
    forall c | c in r ensures c in s {
      var i :| 0 <= i < |r| && r[i] == c;
      assert s[a + i] == c;
    }
  }

  /** `s.lstrip(ch)`: drops every leading `ch`. */
  function TrimLeadingChar(s: string, ch: char): (r: string)
    ensures |r| <= |s| && r == s[|s| - |r|..]
    ensures forall i :: 0 <= i < |s| - |r| ==> s[i] == ch
    ensures r == [] || r[0] != ch
  {
    if s != [] && s[0] == ch then TrimLeadingChar(s[1..], ch) else s
  }

  lemma {:induction false} StripIdempotent(s: string)
    ensures Strip(Strip(s)) == Strip(s)
  {
    var r := Strip(s);
    if r != [] {
      assert LeadingSpaces(r) == 0;
      assert TrailingStart(r) == |r|;
    }
  }

  // ---------------------------------------------------------------- case

  /** ASCII lower case; every other character is left alone. */
  function LowerChar(c: char): (d: char)
    ensures IsSpace(c) ==> d == c
  {
    if 'A' <= c <= 'Z' then (c as int + 32) as char else c
  }

  /** A text with no ASCII capital is its own lower-case form. */
  lemma {:induction false} LowerNoop(s: string)
    requires forall i :: 0 <= i < |s| ==> !('A' <= s[i] <= 'Z')
    ensures Lower(s) == s
  {
  }

  /** ASCII upper case; every other character is left alone. */
  function UpperChar(c: char): (d: char)
    ensures !('a' <= d <= 'z')
    ensures !('a' <= c <= 'z') ==> d == c
  {
    if 'a' <= c <= 'z' then (c as int - 32) as char else c
  }

  function Lower(s: string): (r: string)
    ensures |r| == |s|
    ensures forall i :: 0 <= i < |s| ==> r[i] == LowerChar(s[i])
  {
    seq(|s|, i requires 0 <= i < |s| => LowerChar(s[i]))
  }

  function Upper(s: string): (r: string)
    ensures |r| == |s|
    ensures forall i :: 0 <= i < |s| ==> r[i] == UpperChar(s[i])
  {
    seq(|s|, i requires 0 <= i < |s| => UpperChar(s[i]))
  }

  // ---------------------------------------------------------------- search

  /** `t` occurs in `s` starting at index `i`. */
  predicate MatchAt(s: string, t: string, i: int) {
    0 <= i && i + |t| <= |s| && s[i..i + |t|] == t
  }

  /** Python's `t in s` on strings. */
  predicate Contains(s: string, t: string) {
    exists i | 0 <= i <= |s| - |t| :: MatchAt(s, t, i)
  }

  predicate StartsWith(s: string, t: string) {
    |t| <= |s| && s[..|t|] == t
  }

  predicate EndsWith(s: string, t: string) {
    |t| <= |s| && s[|s| - |t|..] == t
  }

  /** A word one of whose characters does not occur in `s` does not occur in `s`. */
  lemma {:induction false} MissingCharNotContained(s: string, t: string, k: nat)
    requires k < |t| && t[k] !in s
    ensures !Contains(s, t)
  {
  }

  lemma {:induction false} SliceOfSlice(s: string, a: nat, b: nat, i: nat, j: nat)
    requires a <= b <= |s| && i <= j <= b - a
    ensures s[a..b][i..j] == s[a + i..a + j]
  {
    var u, v := s[a..b][i..j], s[a + i..a + j];
    forall k | 0 <= k < |u| ensures u[k] == v[k] {}
  }

  /** A text holding `t` holds every prefix of `t`. */
  lemma {:induction false} ContainsPrefix(s: string, t: string, n: nat)
    requires Contains(s, t) && n <= |t|
    ensures Contains(s, t[..n])
  {
    var i :| 0 <= i <= |s| - |t| && MatchAt(s, t, i);
    assert s[i..i + n] == s[i..i + |t|][..n];
    assert MatchAt(s, t[..n], i);
  }

  /** No ASCII letter, so ASCII case mapping cannot turn another character into one of `t`'s. */
  predicate NoAsciiLetter(t: string) {
    forall i :: 0 <= i < |t| ==> !('A' <= t[i] <= 'Z') && !('a' <= t[i] <= 'z')
  }

  /** A word without ASCII letters (a Chinese term) occurs in `s.lower()` iff it occurs in `s`. */
  lemma {:induction false} ContainsLowerNoLetters(s: string, t: string)
    requires NoAsciiLetter(t)
    ensures Contains(Lower(s), t) <==> Contains(s, t)
  {
    if Contains(Lower(s), t) {
      var i :| 0 <= i <= |Lower(s)| - |t| && MatchAt(Lower(s), t, i);
      MatchLowerNoLetters(s, t, i);
    }
    if Contains(s, t) {
      var i :| 0 <= i <= |s| - |t| && MatchAt(s, t, i);
      MatchLowerNoLetters(s, t, i);
    }
  }

  lemma {:induction false} MatchLowerNoLetters(s: string, t: string, i: int)
    requires NoAsciiLetter(t) && 0 <= i && i + |t| <= |s|
    ensures MatchAt(Lower(s), t, i) <==> MatchAt(s, t, i)
  {
    var u, v := Lower(s)[i..i + |t|], s[i..i + |t|];
    if u == t {
      forall k | 0 <= k < |t| ensures v[k] == t[k] {
        assert u[k] == LowerChar(v[k]);
      }
    }
    if v == t {
      forall k | 0 <= k < |t| ensures u[k] == t[k] {
        assert u[k] == LowerChar(v[k]);
      }
    }
  }

  /** A text that contains `t` keeps containing it inside any larger text. */
  lemma {:induction false} ContainsInSlice(s: string, a: nat, b: nat, t: string)
    requires a <= b <= |s|
    requires Contains(s[a..b], t)
    ensures Contains(s, t)
  {
    var i :| 0 <= i <= b - a - |t| && MatchAt(s[a..b], t, i);
    SliceOfSlice(s, a, b, i, i + |t|);
    assert MatchAt(s, t, a + i);
  }

  /**
   * Stripping before lower-casing never changes whether a word without
   * whitespace occurs in a name: `t in s.strip().lower()` iff `t in s.lower()`.
   */
  lemma {:induction false} ContainsLowerStrip(s: string, t: string)
    requires HasNoSpace(t)
    ensures Contains(Lower(Strip(s)), t) <==> Contains(Lower(s), t)
  {
    if Contains(Lower(Strip(s)), t) {
      LowerStripSlice(s);
      ContainsInSlice(Lower(s), StripStart(s), StripStart(s) + |Strip(s)|, t);
    }
    if Contains(Lower(s), t) {
      ContainsInStrip(s, t);
    }
  }

  /** Lower-casing the stripped text is lower-casing `s` and taking the same slice. */
  lemma {:induction false} LowerStripSlice(s: string)
    ensures Lower(Strip(s)) == Lower(s)[StripStart(s)..StripStart(s) + |Strip(s)|]
  {
    var a, r := StripStart(s), Strip(s);
    assert r == s[a..a + |r|];
    LowerSlice(s, a, a + |r|);
  }

  lemma {:induction false} ContainsInStrip(s: string, t: string)
    requires HasNoSpace(t) && Contains(Lower(s), t)
    ensures Contains(Lower(Strip(s)), t)
  {
    var i :| 0 <= i <= |Lower(s)| - |t| && MatchAt(Lower(s), t, i);
    if |t| == 0 {
      assert MatchAt(Lower(Strip(s)), t, 0);
    } else {
      MatchInsideStrip(s, t, i);
      LowerStripSlice(s);
      ContainsInRange(Lower(s), t, i, StripStart(s), StripStart(s) + |Strip(s)|, Lower(Strip(s)));
    }
  }

  /** An occurrence lying within `[a, b)` is an occurrence in the slice `r == s[a..b]`. */
  lemma {:induction false} ContainsInRange(s: string, t: string, i: int, a: nat, b: nat, r: string)
    requires a <= i && i + |t| <= b <= |s| && MatchAt(s, t, i) && r == s[a..b]
    ensures Contains(r, t)
  {
    MatchInSlice(s, t, i, a, b);
  }

  lemma {:induction false} MatchInSlice(s: string, t: string, i: int, a: nat, b: nat)
    requires a <= i && i + |t| <= b <= |s| && MatchAt(s, t, i)
    ensures MatchAt(s[a..b], t, i - a)
  {
    var u := s[a..b][i - a..i - a + |t|];
    forall k | 0 <= k < |t| ensures u[k] == t[k] {
      assert u[k] == s[i + k];
      assert s[i..i + |t|][k] == s[i + k];
    }
  }

  /** An occurrence of a word without whitespace in `s.lower()` lies inside the stripped part. */
  lemma {:induction false} MatchInsideStrip(s: string, t: string, i: int)
    requires HasNoSpace(t) && |t| > 0 && MatchAt(Lower(s), t, i)
    ensures StripStart(s) <= i && i + |t| <= StripStart(s) + |Strip(s)|
  {
    var ls := Lower(s);
    assert ls[i] == ls[i..i + |t|][0] == t[0];
    assert ls[i + |t| - 1] == ls[i..i + |t|][|t| - 1] == t[|t| - 1];
    assert !IsSpace(t[0]) && !IsSpace(t[|t| - 1]);
    assert !IsSpace(s[i]) && !IsSpace(s[i + |t| - 1]);
  }

  lemma {:induction false} LowerSlice(s: string, a: nat, b: nat)
    requires a <= b <= |s|
    ensures Lower(s[a..b]) == Lower(s)[a..b]
  {
    var u, v := Lower(s[a..b]), Lower(s)[a..b];
    forall k | 0 <= k < |u| ensures u[k] == v[k] {
      assert s[a..b][k] == s[a + k];
    }
  }

  // ---------------------------------------------------------------- rewriting

  /** `s.replace(k, v)` for a single-character `k`. */
  function ReplaceChar(s: string, k: char, v: string): (r: string)
    ensures k !in v ==> k !in r
    ensures forall c :: c in r ==> c in s || c in v
    ensures s != [] && s[0] != k ==> r != [] && r[0] == s[0]
  {
    if s == [] then []
    else (if s[0] == k then v else [s[0]]) + ReplaceChar(s[1..], k, v)
  }

  /** Replacing a character that does not occur changes nothing. */
  lemma {:induction false} ReplaceCharNoop(s: string, k: char, v: string)
    requires k !in s
    ensures ReplaceChar(s, k, v) == s
    decreases |s|
  {
    if s != [] {
      assert k !in s[1..];
      ReplaceCharNoop(s[1..], k, v);
    }
  }

  /** Replacement on a one-character text. */
  lemma {:induction false} ReplaceCharSingle(c: char, k: char, v: string)
    ensures ReplaceChar([c], k, v) == if c == k then v else [c]
  {
    assert [c][1..] == [];
  }

  /** Replacement acts on each part of a concatenation separately. */
  lemma {:induction false} ReplaceCharAppend(a: string, b: string, k: char, v: string)
    ensures ReplaceChar(a + b, k, v) == ReplaceChar(a, k, v) + ReplaceChar(b, k, v)
    decreases |a|
  {
    if a != [] {
      var head := if a[0] == k then v else [a[0]];
      assert (a + b)[0] == a[0] && (a + b)[1..] == a[1..] + b;
      ReplaceCharAppend(a[1..], b, k, v);
      calc {
        ReplaceChar(a + b, k, v);
        head + ReplaceChar(a[1..] + b, k, v);
        head + (ReplaceChar(a[1..], k, v) + ReplaceChar(b, k, v));
        (head + ReplaceChar(a[1..], k, v)) + ReplaceChar(b, k, v);
      }
    } else {
      assert a + b == b;
    }
  }

  /** `re.sub(r"\s+", "", s)`: every whitespace character removed. */
  function RemoveSpaces(s: string): (r: string)
    ensures HasNoSpace(r)
    ensures forall c :: c in r ==> c in s
  {
    if s == [] then []
    else (if IsSpace(s[0]) then [] else [s[0]]) + RemoveSpaces(s[1..])
  }

  /** Whitespace removal acts on each part of a concatenation separately. */
  lemma {:induction false} RemoveSpacesAppend(a: string, b: string)
    ensures RemoveSpaces(a + b) == RemoveSpaces(a) + RemoveSpaces(b)
    decreases |a|
  {
    if a != [] {
      assert (a + b)[1..] == a[1..] + b;
      RemoveSpacesAppend(a[1..], b);
    } else {
      assert a + b == b;
    }
  }

  /** Removing whitespace from a text without any changes nothing. */
  lemma {:induction false} RemoveSpacesNoop(s: string)
    requires HasNoSpace(s)
    ensures RemoveSpaces(s) == s
    decreases |s|
  {
    if s != [] {
      RemoveSpacesNoop(s[1..]);
    }
  }

  /** No whitespace character other than a plain space, and never two in a row. */
  predicate SingleSpaced(s: string) {
    && (forall i :: 0 <= i < |s| && IsSpace(s[i]) ==> s[i] == ' ')
    && (forall i :: 0 <= i < |s| - 1 ==> !(IsSpace(s[i]) && IsSpace(s[i + 1])))
  }

  /** `re.sub(r"\s+", " ", s)`: each maximal whitespace run becomes one plain space. */
  function CollapseSpaces(s: string): (r: string)
    ensures SingleSpaced(r)
    ensures forall c :: c in r ==> c == ' ' || c in s
    ensures s != [] && !IsSpace(s[0]) ==> r != [] && r[0] == s[0]
    ensures s != [] ==> r != []
    decreases |s|
  {
    if s == [] then []
    else if IsSpace(s[0]) then
      var rest := s[LeadingSpaces(s)..];
      " " + CollapseSpaces(rest)
    else
      [s[0]] + CollapseSpaces(s[1..])
  }

  /** Collapsing whitespace runs in a single-spaced text changes nothing. */
  lemma {:induction false} CollapseSpacesNoop(s: string)
    requires SingleSpaced(s)
    ensures CollapseSpaces(s) == s
    decreases |s|
  {
    if s != [] {
      SingleSpacedSlice(s, 1, |s|);
      if IsSpace(s[0]) {
        assert LeadingSpaces(s) == 1;
      }
      CollapseSpacesNoop(s[1..]);
    }
  }

  /** Any slice of a single-spaced text is single-spaced. */
  lemma {:induction false} SingleSpacedSlice(s: string, a: nat, b: nat)
    requires a <= b <= |s| && SingleSpaced(s)
    ensures SingleSpaced(s[a..b])
  {
    var t := s[a..b];
    forall i | 0 <= i < |t| - 1
      ensures !(IsSpace(t[i]) && IsSpace(t[i + 1]))
    {
      assert t[i] == s[a + i] && t[i + 1] == s[a + i + 1];
    }
  }

  /** Python's `sep.join(xs)`. */
  function Join(sep: string, xs: seq<string>): (r: string)
    ensures xs == [] ==> r == ""
    ensures |xs| == 1 ==> r == xs[0]
  {
    if xs == [] then ""
    else if |xs| == 1 then xs[0]
    else xs[0] + sep + Join(sep, xs[1..])
  }
}
