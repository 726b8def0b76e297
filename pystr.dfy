/**
 * The handful of Python `str` operations the execution pipeline is built from:
 * `p in s`, `s.find(p)`, `s.rfind(p)`, `s[a:b]`, `s.strip()` and `s.lower()`.
 * `find` and `rfind` have contracts against a reference definition by
 * occurrence, and `lstrip` and `rstrip` contracts by blank runs. `lower` and
 * `strip` are plain definitions, tied to reference definitions by lemmas
 * (`ContainsLowerIgnoresCase`, `StripEmptyIffBlank`); slicing is Python's
 * `s[a:b]` for in-range indices and is used as defined.
 */
module PyStr {

  /** `p` occurs in `s` starting at index `i`. */
  predicate OccursAt(s: string, p: string, i: int) {
    0 <= i && i + |p| <= |s| && s[i..i + |p|] == p
  }

  /** Python's `p in s`: some occurrence exists. */
  predicate Contains(s: string, p: string) {
    exists i | 0 <= i <= |s| - |p| :: OccursAt(s, p, i)
  }

  /** `i` is the first occurrence of `p` in `s`. */
  predicate FirstAt(s: string, p: string, i: int) {
    OccursAt(s, p, i) && forall j | 0 <= j < i :: !OccursAt(s, p, j)
  }

  /** No occurrence of `p` in `s` starts before index `k`. */
  predicate NoOccurrenceBefore(s: string, p: string, k: int) {
    forall i | 0 <= i < k :: !OccursAt(s, p, i)
  }

  /** No occurrence of `p` in `s` starts after index `k`. */
  predicate NoOccurrenceAfter(s: string, p: string, k: int) {
    forall i | k < i <= |s| - |p| :: !OccursAt(s, p, i)
  }

  /** Scan left to right from `from` for the first occurrence of `p`; -1 if there is none. */
  function FindFrom(s: string, p: string, from: nat): (r: int)
    ensures r == -1 || (from <= r && OccursAt(s, p, r))
    ensures r == -1 ==> forall i | from <= i :: !OccursAt(s, p, i)
    ensures r != -1 ==> forall i | from <= i < r :: !OccursAt(s, p, i)
    decreases |s| - from
  {
    if from + |p| > |s| then -1
    else if s[from..from + |p|] == p then from
    else FindFrom(s, p, from + 1)
  }

  /** Python's `s.find(p)`: the index of the first occurrence, or -1. */
  function Find(s: string, p: string): (r: int)
    ensures r == -1 <==> !Contains(s, p)
    ensures r != -1 ==> FirstAt(s, p, r)
  {
    FindFrom(s, p, 0)
  }

  /** Scan right to left from `upto` for the last occurrence of `p`; -1 if there is none. */
  function RFindFrom(s: string, p: string, upto: int): (r: int)
    ensures r == -1 || (0 <= r <= upto && OccursAt(s, p, r))
    ensures r == -1 ==> forall i | 0 <= i <= upto :: !OccursAt(s, p, i)
    ensures r != -1 ==> forall i | r < i <= upto :: !OccursAt(s, p, i)
    decreases upto
  {
    if upto < 0 then -1
    else if OccursAt(s, p, upto) then upto
    else RFindFrom(s, p, upto - 1)
  }

  /** Python's `s.rfind(p)`: the index of the last occurrence, or -1. */
  function RFind(s: string, p: string): (r: int)
    ensures r == -1 <==> !Contains(s, p)
    ensures r != -1 ==> OccursAt(s, p, r) && NoOccurrenceAfter(s, p, r)
  {
    RFindFrom(s, p, |s| - |p|)
  }

  /** Python's `s[a:b]` for indices already inside the string: empty when `b` precedes `a`. */
  function PySlice(s: string, a: int, b: int): string
    requires 0 <= a <= |s| && 0 <= b <= |s|
  {
    if a <= b then s[a..b] else []
  }

  /** Python's `str.isspace` on one character: the characters `str.strip()` removes. */
  predicate IsSpace(c: char) {
    || ('\t' <= c <= '\r')
    || ('\U{1C}' <= c <= ' ')
    || c == '\U{85}' || c == '\U{A0}' || c == '\U{1680}'
    || ('\U{2000}' <= c <= '\U{200A}')
    || c == '\U{2028}' || c == '\U{2029}' || c == '\U{202F}' || c == '\U{205F}'
    || c == '\U{3000}'
  }

  /** Every character of `s` is whitespace (the empty string included). */
  predicate IsBlank(s: string) {
    forall i | 0 <= i < |s| :: IsSpace(s[i])
  }

  /** Python's `s.lstrip()`: `s` is a blank run followed by `r`, which does not start with whitespace. */
  function StripLeading(s: string): (r: string)
    ensures |r| <= |s| && r == s[|s| - |r|..]
    ensures IsBlank(s[..|s| - |r|])
    ensures r == [] || !IsSpace(r[0])
  {
    if |s| > 0 && IsSpace(s[0]) then StripLeading(s[1..]) else s
  }

  /** Python's `s.rstrip()`: `s` is `r` followed by a blank run, and `r` does not end with whitespace. */
  function StripTrailing(s: string): (r: string)
    ensures |r| <= |s| && r == s[..|r|]
    ensures IsBlank(s[|r|..])
    ensures r == [] || !IsSpace(r[|r| - 1])
  {
    if |s| > 0 && IsSpace(s[|s| - 1]) then
      var r := StripTrailing(s[..|s| - 1]);
      assert s[|r|..] == s[..|s| - 1][|r|..] + [s[|s| - 1]];
      r
    else s
  }

  /** Python's `s.strip()`. */
  function Strip(s: string): string {
    StripTrailing(StripLeading(s))
  }

  /** `not s or not s.strip()` holds exactly for the blank strings. */
  lemma StripEmptyIffBlank(s: string)
    ensures Strip(s) == [] <==> IsBlank(s)
  {
    var t := StripLeading(s);
    if t == [] {
      assert s[..|s| - |t|] == s;
    } else {
      assert s[|s| - |t|] == t[0];
      assert !IsBlank(t) by { assert !IsSpace(t[0]); }
      assert t[0..] == t;
      assert StripTrailing(t) != [];
    }
  }

  /** Python's `str.lower()` on one character, restricted to ASCII letters. */
  function LowerChar(c: char): char {
    if 'A' <= c <= 'Z' then (c as int + 32) as char else c
  }

  /** Python's `s.lower()`, character by character. */
  function Lower(s: string): string {
    seq(|s|, i requires 0 <= i < |s| => LowerChar(s[i]))
  }

  /** `p` matches `s` at index `i` when ASCII case is ignored. */
  predicate OccursAtIgnoringCase(s: string, p: string, i: int) {
    0 <= i && i + |p| <= |s| && forall k | 0 <= k < |p| :: LowerChar(s[i + k]) == LowerChar(p[k])
  }

  /**
   * Searching the lowered text for an already lower-case pattern is the same as
   * searching the original text while ignoring case.
   */
  lemma ContainsLowerIgnoresCase(s: string, p: string)
    requires Lower(p) == p
    ensures Contains(Lower(s), p) <==> exists i | 0 <= i <= |s| - |p| :: OccursAtIgnoringCase(s, p, i)
  {
    var l := Lower(s);
    forall i | 0 <= i <= |s| - |p|
      ensures OccursAt(l, p, i) <==> OccursAtIgnoringCase(s, p, i)
    {
      if OccursAt(l, p, i) {
        forall k | 0 <= k < |p| ensures LowerChar(s[i + k]) == LowerChar(p[k]) {
          assert l[i..i + |p|][k] == l[i + k];
          assert LowerChar(p[k]) == Lower(p)[k] == p[k];
        }
      }
      if OccursAtIgnoringCase(s, p, i) {
        forall k | 0 <= k < |p| ensures l[i..i + |p|][k] == p[k] {
          assert LowerChar(p[k]) == Lower(p)[k] == p[k];
        }
      }
    }
  }

  /** A pattern holding a character that `s` lacks cannot occur in `s`. */
  lemma AbsentCharExcludes(s: string, p: string, k: nat)
    requires k < |p| && p[k] !in s
    ensures !Contains(s, p)
  {
    forall i | 0 <= i <= |s| - |p| ensures !OccursAt(s, p, i) {
      assert s[i..i + |p|][k] == s[i + k];
    }
  }

  /** An occurrence that lies inside a prefix is an occurrence in the whole string, and back. */
  lemma OccursAtPrefix(t: string, u: string, p: string, i: int)
    requires 0 <= i && i + |p| <= |t|
    ensures OccursAt(t + u, p, i) <==> OccursAt(t, p, i)
  {
    assert (t + u)[i..i + |p|] == t[i..i + |p|];
  }

  /** An occurrence in the second part of `t + u`, seen from `u`. */
  lemma OccursAtSuffix(t: string, u: string, p: string, i: int)
    requires 0 <= i
    ensures OccursAt(t + u, p, |t| + i) <==> OccursAt(u, p, i)
  {
    if i + |p| <= |u| {
      assert (t + u)[|t| + i..|t| + i + |p|] == u[i..i + |p|];
    }
  }

  /** An occurrence inside the slice `s[lo..hi]` is an occurrence in `s`. */
  lemma OccursAtSlice(s: string, lo: int, hi: int, p: string, k: int)
    requires 0 <= lo <= hi <= |s| && OccursAt(s[lo..hi], p, k)
    ensures OccursAt(s, p, lo + k) && lo + k + |p| <= hi
  {
    forall m | 0 <= m < |p| ensures s[lo + k..lo + k + |p|][m] == p[m] {
      assert s[lo..hi][k..k + |p|][m] == p[m];
    }
  }

  /**
   * A marker `m` placed right after `t`, with no earlier occurrence starting in
   * `t`, is the first occurrence of `m` in `t + m + u`.
   */
  lemma FirstAtJoin(t: string, m: string, u: string)
    requires NoOccurrenceBefore(t + m, m, |t|)
    ensures FirstAt(t + m + u, m, |t|)
  {
    assert t + m + u == (t + m) + u;
    assert (t + m + u)[|t|..|t| + |m|] == m;
    forall i | 0 <= i < |t| ensures !OccursAt(t + m + u, m, i) {
      OccursAtPrefix(t + m, u, m, i);
    }
  }

  /** The last occurrence of `m` in `t + m + u`, when `m + u` holds no later one. */
  lemma LastAtJoin(t: string, m: string, u: string)
    requires NoOccurrenceAfter(m + u, m, 0)
    ensures OccursAt(t + m + u, m, |t|) && NoOccurrenceAfter(t + m + u, m, |t|)
  {
    assert t + m + u == t + (m + u);
    OccursAtSuffix(t, m + u, m, 0);
    forall i | |t| < i <= |t + m + u| - |m| ensures !OccursAt(t + m + u, m, i) {
      OccursAtSuffix(t, m + u, m, i - |t|);
    }
  }

  /** Whoever contains `pre + p` contains `p`. */
  lemma ContainsTail(s: string, pre: string, p: string)
    ensures Contains(s, pre + p) ==> Contains(s, p)
  {
    if Contains(s, pre + p) {
      var i :| 0 <= i <= |s| - |pre + p| && OccursAt(s, pre + p, i);
      assert s[i + |pre|..i + |pre| + |p|] == s[i..i + |pre + p|][|pre|..];
      assert OccursAt(s, p, i + |pre|);
    }
  }

  /** `m` occurs in `a + m + b` right after `a`. */
  lemma OccursAtJoin(a: string, m: string, b: string)
    ensures OccursAt(a + m + b, m, |a|)
  {
    assert (a + m + b)[|a|..|a| + |m|] == m;
  }

  /** Text placed between a fixed head and a fixed tail. */
  function Embed(head: string, text: string, tail: string): string {
    head + text + tail
  }

  /** The embedding is the head, then the text verbatim, then the tail, at fixed offsets. */
  lemma EmbedParts(head: string, text: string, tail: string)
    ensures |Embed(head, text, tail)| == |head| + |text| + |tail|
    ensures Embed(head, text, tail)[..|head|] == head
    ensures Embed(head, text, tail)[|head|..|head| + |text|] == text
    ensures Embed(head, text, tail)[|head| + |text|..] == tail
  {
    var r := Embed(head, text, tail);
    assert r[..|head|] == head;
    assert r[|head|..|head| + |text|] == text;
    assert r[|head| + |text|..] == tail;
  }

  /** The embedded text can be read back: different texts give different results. */
  lemma {:induction false} EmbedInjective(head: string, a: string, b: string, tail: string)
    requires Embed(head, a, tail) == Embed(head, b, tail)
    ensures a == b
  {
    EmbedParts(head, a, tail);
    EmbedParts(head, b, tail);
  }

  /**
   * Two lines `first` and `second` that the tail holds, in that order, occur in
   * the embedding whatever text is embedded.
   */
  lemma EmbedHoldsLines(head: string, text: string, body: string, first: string, middle: string, second: string, rest: string)
    ensures Contains(Embed(head, text, body + first + middle + second + rest), first)
    ensures Contains(Embed(head, text, body + first + middle + second + rest), second)
  {
    var w := Embed(head, text, body + first + middle + second + rest);
    assert w == (head + text + body) + first + (middle + second + rest);
    OccursAtJoin(head + text + body, first, middle + second + rest);
    assert w == (head + text + body + first + middle) + second + rest;
    OccursAtJoin(head + text + body + first + middle, second, rest);
  }

  /** A lower-case letter absent from `s` in both cases is absent from `s.lower()`. */
  lemma AbsentAfterLower(s: string, c: char)
    requires 'a' <= c <= 'z' && c !in s && (c as int - 32) as char !in s
    ensures c !in Lower(s)
  {
    forall i | 0 <= i < |s| ensures Lower(s)[i] != c {
      assert s[i] != c && s[i] != (c as int - 32) as char;
    }
  }
}
