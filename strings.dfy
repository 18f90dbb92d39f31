/** The few Python `str` operations the modelled code relies on: `isspace`/`strip`,
    `lower`, the substring test `needle in hay`, `sep.join(...)` and `str(int)`. */
module Strings {

  /** Python's `str.isspace()` for one character: the ASCII controls TAB..CR and FS..US,
      SPACE, NEL, NO-BREAK SPACE and the Unicode space separators. */
  predicate IsSpace(c: char) {
    ('\t' <= c <= '\r') || ('\U{1C}' <= c <= '\U{1F}') || c == ' '
    || c == '\U{85}' || c == '\U{A0}' || c == '\U{1680}'
    || ('\U{2000}' <= c <= '\U{200A}') || c == '\U{2028}' || c == '\U{2029}'
    || c == '\U{202F}' || c == '\U{205F}' || c == '\U{3000}'
  }

  /** Every character of `s` is white space (so `s.strip() == ""`). */
  predicate AllSpace(s: string) {
    forall i :: 0 <= i < |s| ==> IsSpace(s[i])
  }

  /** `s` neither starts nor ends with white space. */
  predicate Trimmed(s: string) {
    s == [] || (!IsSpace(s[0]) && !IsSpace(s[|s| - 1]))
  }

  /** The first position at or after `i` that holds a non-blank character, or `|s|`. */
  function SkipBlanks(s: string, i: nat): (n: nat)
    requires i <= |s|
    ensures i <= n <= |s|
    ensures forall k :: i <= k < n ==> IsSpace(s[k])
    ensures n == |s| || !IsSpace(s[n])
    decreases |s| - i
  {
    if i < |s| && IsSpace(s[i]) then SkipBlanks(s, i + 1) else i
  }

  /** The position just past the last non-blank character before `j`, looking no further back than `lo`. */
  function SkipBlanksBack(s: string, lo: nat, j: nat): (m: nat)
    requires lo <= j <= |s|
    ensures lo <= m <= j
    ensures forall k :: m <= k < j ==> IsSpace(s[k])
    ensures m == lo || !IsSpace(s[m - 1])
    decreases j
  {
    if j > lo && IsSpace(s[j - 1]) then SkipBlanksBack(s, lo, j - 1) else j
  }

  /** Where `s.strip()` starts: the number of leading blanks. */
  function StripStart(s: string): nat {
    SkipBlanks(s, 0)
  }

  /** Where `s.strip()` ends: after the leading blanks are dropped, the trailing ones go too. */
  function StripEnd(s: string): (b: nat)
    ensures StripStart(s) <= b <= |s|
  {
    SkipBlanksBack(s, StripStart(s), |s|)
  }

  /** `s.strip()`: `s` without its leading and its trailing white space. */
  function Strip(s: string): string {
    s[StripStart(s)..StripEnd(s)]
  }

  /** `s.strip()` cuts `s` into blank padding, a trimmed middle and blank padding. */
  lemma StripShape(s: string)
    ensures StripStart(s) + |Strip(s)| <= |s|
    ensures s[StripStart(s)..StripStart(s) + |Strip(s)|] == Strip(s)
    ensures AllSpace(s[..StripStart(s)]) && AllSpace(s[StripStart(s) + |Strip(s)|..])
    ensures Trimmed(Strip(s))
    ensures Strip(s) == [] <==> AllSpace(s)
  {
    var a, b := StripStart(s), StripEnd(s);
    assert AllSpace(s[..a]);
    assert AllSpace(s[b..]);
    StripTrimmed(s);
    StripBlankIffAllSpace(s);
  }

  /** What `strip()` returns neither starts nor ends with white space. */
  lemma StripTrimmed(s: string)
    ensures Trimmed(Strip(s))
  {
    var a, b := StripStart(s), StripEnd(s);
    assert a < b ==> Strip(s)[0] == s[a] && Strip(s)[|Strip(s)| - 1] == s[b - 1];
  }

  /** `strip()` returns "" exactly when every character is white space. */
  lemma StripBlankIffAllSpace(s: string)
    ensures Strip(s) == [] <==> AllSpace(s)
  {
    var a, b := StripStart(s), StripEnd(s);
    assert a < |s| ==> !IsSpace(s[a]);
  }

  /** The forward scan stops at the first non-blank position. */
  lemma SkipBlanksIsFirst(s: string, i: nat, n: nat)
    requires i <= n <= |s|
    requires forall k :: i <= k < n ==> IsSpace(s[k])
    requires n == |s| || !IsSpace(s[n])
    ensures SkipBlanks(s, i) == n
  {
  }

  /** The backward scan stops just after the last non-blank position. */
  lemma SkipBlanksBackIsLast(s: string, lo: nat, j: nat, m: nat)
    requires lo <= m <= j <= |s|
    requires forall k :: m <= k < j ==> IsSpace(s[k])
    requires m == lo || !IsSpace(s[m - 1])
    ensures SkipBlanksBack(s, lo, j) == m
  {
  }

  /** `strip()` is determined by the trimmed middle: blank padding around it is removed and nothing else. */
  lemma StripPadded(pre: string, m: string, post: string)
    requires AllSpace(pre) && AllSpace(post) && Trimmed(m)
    ensures Strip(pre + m + post) == m
  {
    var x := pre + m + post;
    if m == [] {
      assert x == pre + post;
      AllSpaceConcat(pre, post);
      StripBlankIffAllSpace(x);
    } else {
      var a, b := |pre|, |pre| + |m|;
      assert x[a] == m[0] && x[b - 1] == m[|m| - 1];
      assert forall k :: 0 <= k < a ==> x[k] == pre[k];
      assert forall k :: b <= k < |x| ==> x[k] == post[k - b];
      SkipBlanksIsFirst(x, 0, a);
      SkipBlanksBackIsLast(x, a, |x|, b);
      assert x[a..b] == m;
    }
  }

  /** A concatenation is blank exactly when both parts are. */
  lemma AllSpaceConcat(a: string, b: string)
    ensures AllSpace(a + b) <==> AllSpace(a) && AllSpace(b)
  {
    if AllSpace(a) && AllSpace(b) {
      forall j | 0 <= j < |a + b| ensures IsSpace((a + b)[j]) {
        if j < |a| { assert (a + b)[j] == a[j]; } else { assert (a + b)[j] == b[j - |a|]; }
      }
    }
    if AllSpace(a + b) {
      forall j | 0 <= j < |a| ensures IsSpace(a[j]) { assert (a + b)[j] == a[j]; }
      forall j | 0 <= j < |b| ensures IsSpace(b[j]) { assert (a + b)[|a| + j] == b[j]; }
    }
  }

  /** `s` is its leading blanks, then `strip()`'s result, then its trailing blanks. */
  lemma StripSplits(s: string)
    ensures s == s[..StripStart(s)] + Strip(s) + s[StripEnd(s)..]
    ensures AllSpace(s[..StripStart(s)]) && AllSpace(s[StripEnd(s)..])
  {
    var a, b := StripStart(s), StripEnd(s);
    assert s == s[..a] + s[a..b] + s[b..];
  }

  /** Regrouping a five-part concatenation. */
  lemma Regroup(p: string, l: string, m: string, t: string, q: string)
    ensures p + (l + m + t) + q == (p + l) + m + (t + q)
  {
  }

  /** Blank padding around the input does not change what `strip()` returns. */
  lemma StripIgnoresPadding(pre: string, s: string, post: string)
    requires AllSpace(pre) && AllSpace(post)
    ensures Strip(pre + s + post) == Strip(s)
  {
    var lead, m, trail := s[..StripStart(s)], Strip(s), s[StripEnd(s)..];
    StripSplits(s);
    StripTrimmed(s);
    AllSpaceConcat(pre, lead);
    AllSpaceConcat(trail, post);
    StripPadded(pre + lead, m, trail + post);
    Regroup(pre, lead, m, trail, post);
  }

  /** `strip()` is idempotent. */
  lemma StripIdempotent(s: string)
    ensures Strip(Strip(s)) == Strip(s)
  {
    var m := Strip(s);
    StripTrimmed(s);
    StripPadded([], m, []);
    assert [] + m + [] == m;
  }

  /** `c.lower()` for ASCII letters; every other character is left as it is. */
  function LowerChar(c: char): char {
    if 'A' <= c <= 'Z' then (c as int + 32) as char else c
  }

  /** `c.upper()` for ASCII letters; every other character is left as it is. */
  function UpperChar(c: char): char {
    if 'a' <= c <= 'z' then (c as int - 32) as char else c
  }

  /** `s.lower()` restricted to the ASCII case mapping. */
  function Lower(s: string): (r: string)
    ensures |r| == |s|
  {
    seq(|s|, i requires 0 <= i < |s| => LowerChar(s[i]))
  }

  /** `s.upper()` restricted to the ASCII case mapping. */
  function Upper(s: string): (r: string)
    ensures |r| == |s|
  {
    seq(|s|, i requires 0 <= i < |s| => UpperChar(s[i]))
  }

  /** Lower-casing forgets the case the input was written in. */
  lemma LowerForgetsCase(s: string)
    ensures Lower(Lower(s)) == Lower(s)
    ensures Lower(Upper(s)) == Lower(s)
  {
  }

  /** `needle` occurs in `hay` at position `i`. */
  ghost predicate OccursAt(hay: string, needle: string, i: int) {
    0 <= i && i + |needle| <= |hay| && hay[i..i + |needle|] == needle
  }

  /** Reference meaning of Python's `needle in hay` on strings. */
  ghost predicate Occurs(hay: string, needle: string) {
    exists i :: OccursAt(hay, needle, i)
  }

  /** Python's `needle in hay`, searched from the left. */
  function Contains(hay: string, needle: string): bool
    decreases |hay|
  {
    needle <= hay || (|hay| > 0 && Contains(hay[1..], needle))
  }

  /** An occurrence in the tail is an occurrence one position further in the whole string. */
  lemma OccursAtTail(hay: string, needle: string, i: nat)
    requires |hay| > 0
    ensures OccursAt(hay[1..], needle, i) <==> OccursAt(hay, needle, i + 1)
  {
    if i + |needle| <= |hay[1..]| {
      assert hay[1..][i..i + |needle|] == hay[i + 1..i + 1 + |needle|];
    }
  }

  /** The search agrees with the reference meaning of substring membership, in both directions. */
  lemma {:induction false} ContainsIffOccurs(hay: string, needle: string)
    ensures Contains(hay, needle) <==> Occurs(hay, needle)
    decreases |hay|
  {
    if needle <= hay {
      assert OccursAt(hay, needle, 0);
    } else if |hay| == 0 {
    } else {
      ContainsIffOccurs(hay[1..], needle);
      if Occurs(hay[1..], needle) {
        var i :| OccursAt(hay[1..], needle, i);
        OccursAtTail(hay, needle, i);
      }
      if Occurs(hay, needle) {
        var i :| OccursAt(hay, needle, i);
        assert i != 0;
        OccursAtTail(hay, needle, i - 1);
      }
    }
  }

  /** A string contains each of its suffixes. */
  lemma ContainsSuffix(pre: string, s: string)
    ensures Contains(pre + s, s)
  {
    assert (pre + s)[|pre|..|pre| + |s|] == s;
    assert OccursAt(pre + s, s, |pre|);
    ContainsIffOccurs(pre + s, s);
  }

  /** A substring of a substring is a substring: `u in t` and `t in s` give `u in s`. */
  lemma ContainsTransitive(s: string, t: string, u: string)
    requires Contains(s, t) && Contains(t, u)
    ensures Contains(s, u)
  {
    ContainsIffOccurs(s, t);
    ContainsIffOccurs(t, u);
    var i :| OccursAt(s, t, i);
    var j :| OccursAt(t, u, j);
    forall k | 0 <= k < |u| ensures s[i + j + k] == u[k] {
      assert u[k] == t[j..j + |u|][k] == t[j + k];
      assert t[j + k] == s[i..i + |t|][j + k] == s[i + j + k];
    }
    assert s[i + j..i + j + |u|] == u;
    assert OccursAt(s, u, i + j);
    ContainsIffOccurs(s, u);
  }

  /** `any(w in hay for w in words)`, tried left to right. */
  predicate ContainsAny(hay: string, words: seq<string>) {
    |words| > 0 && (Contains(hay, words[0]) || ContainsAny(hay, words[1..]))
  }

  /** `sep.join(parts)`. */
  function Join(sep: string, parts: seq<string>): string {
    if |parts| == 0 then ""
    else if |parts| == 1 then parts[0]
    else parts[0] + sep + Join(sep, parts[1..])
  }

  /** Joining a head onto a non-empty rest puts the separator between them. */
  lemma JoinCons(sep: string, head: string, rest: seq<string>)
    requires rest != []
    ensures Join(sep, [head] + rest) == head + sep + Join(sep, rest)
  {
    assert ([head] + rest)[1..] == rest;
  }

  /** Decimal digits of a natural number, most significant first. */
  function NatDigits(n: nat): (r: string)
    ensures |r| >= 1
    ensures forall i :: 0 <= i < |r| ==> '0' <= r[i] <= '9'
  {
    if n < 10 then [('0' as int + n) as char]
    else NatDigits(n / 10) + [('0' as int + n % 10) as char]
  }

  /** Python's `str(n)` for an integer. */
  function IntToString(n: int): string {
    if n < 0 then "-" + NatDigits(-n) else NatDigits(n)
  }
}
