/** The three Python string operations that the SQL post-processing is built from:
    `str.strip()` with no argument, the substring test `p in s`, and
    `s.replace(p, "")`. Strings are sequences of characters like Python 3 strings,
    except that lone surrogates cannot occur. */
module Text {

  /** The characters for which Python's `str.isspace()` holds; `str.strip()` with no
      argument removes exactly these from both ends. */
  predicate IsSpace(c: char) {
    c == ' ' || c == '\t' || c == '\n' || c == '\r' || c == '\U{B}' || c == '\U{C}'
    || ('\U{1C}' <= c <= '\U{1F}') || c == '\U{85}' || c == '\U{A0}' || c == '\U{1680}'
    || ('\U{2000}' <= c <= '\U{200A}') || c == '\U{2028}' || c == '\U{2029}'
    || c == '\U{202F}' || c == '\U{205F}' || c == '\U{3000}'
  }

  /** Neither end of `s` is white space: what `str.strip()` guarantees of its result. */
  predicate IsStripped(s: string) {
    s == [] || (!IsSpace(s[0]) && !IsSpace(s[|s| - 1]))
  }

  /** Python's `s.lstrip()`: drops the longest all-white-space prefix. */
  function TrimStart(s: string): (r: string)
    ensures |r| <= |s| && r == s[|s| - |r|..]
    ensures r == [] || !IsSpace(r[0])
    ensures forall k :: 0 <= k < |s| - |r| ==> IsSpace(s[k])
  {
    if |s| > 0 && IsSpace(s[0]) then TrimStart(s[1..]) else s
  }

  /** Python's `s.rstrip()`: drops the longest all-white-space suffix. */
  function TrimEnd(s: string): (r: string)
    ensures |r| <= |s| && r == s[..|r|]
    ensures r == [] || !IsSpace(r[|r| - 1])
    ensures forall k :: |r| <= k < |s| ==> IsSpace(s[k])
  {
    if |s| > 0 && IsSpace(s[|s| - 1]) then TrimEnd(s[..|s| - 1]) else s
  }

  /** Python's `s.strip()`: the result is a slice `s[i..i + |r|]` with no white space at
      either end, and everything cut away on either side is white space. */
  function Strip(s: string): (r: string)
    ensures IsStripped(r)
    ensures exists i :: 0 <= i <= |s| - |r| && StrippedSlice(s, r, i)
  {
    var t := TrimStart(s);
    var r := TrimEnd(t);
    assert StrippedSlice(s, r, |s| - |t|);
    r
  }

  /** `r` sits at offset `i` of `s` and only white space surrounds it. */
  predicate StrippedSlice(s: string, r: string, i: nat)
  {
    i + |r| <= |s| && r == s[i..i + |r|]
    && (forall k :: 0 <= k < i ==> IsSpace(s[k]))
    && (forall k :: i + |r| <= k < |s| ==> IsSpace(s[k]))
  }

  /** A string with no white space at its ends is left alone by `strip()`. */
  lemma {:induction false} StripKeepsStripped(s: string)
    requires IsStripped(s)
    ensures Strip(s) == s
  {
    assert TrimStart(s) == s;
    assert TrimEnd(s) == s;
  }

  /** `strip()` is idempotent. */
  lemma StripIdempotent(s: string)
    ensures Strip(Strip(s)) == Strip(s)
  {
    StripKeepsStripped(Strip(s));
  }

  /** `p` occurs in `s` starting at index `i`. */
  predicate OccursAt(s: string, p: string, i: nat) {
    i + |p| <= |s| && s[i..i + |p|] == p
  }

  /** Python's `p in s`: a case-sensitive substring test, which fails whenever `p` is
      longer than `s`. */
  function Contains(s: string, p: string): (b: bool)
    ensures b ==> |p| <= |s|
  {
    exists i: nat | i <= |s| :: OccursAt(s, p, i)
  }

  predicate StartsWith(s: string, p: string) {
    |p| <= |s| && s[..|p|] == p
  }

  /** Python's `s.replace(p, "")` for a non-empty `p`: scanning from the left, each
      occurrence found is deleted and the scan resumes after it, so occurrences never
      overlap. */
  function RemoveAll(s: string, p: string): (r: string)
    requires |p| > 0
    ensures |r| <= |s|
    decreases |s|
  {
    if |s| < |p| then s
    else if StartsWith(s, p) then
      assert s == s[..|p|] + s[|p|..];
      RemoveAll(s[|p|..], p)
    else
      assert s == [s[0]] + s[1..];
      [s[0]] + RemoveAll(s[1..], p)
  }

  /** An occurrence inside a slice is an occurrence in the whole string. */
  lemma ContainsInSlice(s: string, p: string, i: nat, j: nat)
    requires i <= j <= |s|
    requires Contains(s[i..j], p)
    ensures Contains(s, p)
  {
    var k: nat :| k <= |s[i..j]| && OccursAt(s[i..j], p, k);
    assert k + |p| <= j - i;
    assert forall m :: 0 <= m < |p| ==> p[m] == s[i..j][k + m] == s[i + k + m];
    assert OccursAt(s, p, i + k);
  }

  /** Unfolds `Contains` by one character. */
  lemma ContainsCons(c: char, t: string, p: string)
    requires |p| > 0
    ensures Contains([c] + t, p) <==> StartsWith([c] + t, p) || Contains(t, p)
  {
    var s := [c] + t;
    assert s[1..] == t;
    if Contains(s, p) && !StartsWith(s, p) {
      var k: nat :| k <= |s| && OccursAt(s, p, k);
      assert k != 0 && k + |p| <= |s|;
      assert t[k - 1..k - 1 + |p|] == s[k..k + |p|];
      assert OccursAt(t, p, k - 1);
    }
    if StartsWith(s, p) {
      assert OccursAt(s, p, 0);
    }
    if Contains(t, p) {
      assert s[1..|s|] == t;
      ContainsInSlice(s, p, 1, |s|);
    }
  }

  /** When `s` does not start with `p`, `replace` keeps `s[0]` and carries on. */
  lemma RemoveAllKeepsHead(s: string, p: string)
    requires |p| > 0 && |s| > 0 && !StartsWith(s, p)
    ensures RemoveAll(s, p) == [s[0]] + RemoveAll(s[1..], p)
  {
  }

  /** Removing a pattern that does not occur changes nothing. */
  lemma {:induction false} RemoveAllAbsent(s: string, p: string)
    requires |p| > 0 && !Contains(s, p)
    ensures RemoveAll(s, p) == s
    decreases |s|
  {
    if |s| >= |p| {
      assert !OccursAt(s, p, 0);
      assert s[0..|p|] == s[..|p|];
      assert s == [s[0]] + s[1..];
      ContainsCons(s[0], s[1..], p);
      RemoveAllAbsent(s[1..], p);
    }
  }

  /** `strip()` cannot create an occurrence: it only cuts white space off the ends. */
  lemma StripKeepsAbsent(s: string, p: string)
    requires !Contains(s, p)
    ensures !Contains(Strip(s), p)
  {
    var t := TrimStart(s);
    var r := TrimEnd(t);
    assert r == Strip(s);
    if Contains(r, p) {
      assert r == t[0..|r|];
      ContainsInSlice(t, p, 0, |r|);
      assert t == s[|s| - |t|..|s|];
      ContainsInSlice(s, p, |s| - |t|, |s|);
    }
  }

  /** An occurrence of `p + q` is an occurrence of `p`. */
  lemma ContainsLonger(s: string, p: string, q: string)
    requires Contains(s, p + q)
    ensures Contains(s, p)
  {
    var k: nat :| k <= |s| && OccursAt(s, p + q, k);
    assert s[k..k + |p|] == s[k..k + |p + q|][..|p|];
    assert OccursAt(s, p, k);
  }

  /** A pattern whose first character never appears in `s` does not occur in `s`. */
  lemma AbsentFirstChar(s: string, p: string)
    requires |p| > 0 && p[0] !in s
    ensures !Contains(s, p)
  {
    forall k: nat | k <= |s| ensures !OccursAt(s, p, k) {
      if k + |p| <= |s| {
        assert s[k..k + |p|][0] == s[k];
      }
    }
  }

  /** Behind a character that the pattern does not contain, `s` starts with `p` exactly
      when its part before that character does. */
  lemma StartsWithBeforeSplit(a: string, c: char, b: string, p: string)
    requires |p| > 0 && c !in p
    ensures StartsWith(a + [c] + b, p) <==> StartsWith(a, p)
  {
    var s := a + [c] + b;
    if |a| >= |p| {
      assert s[..|p|] == a[..|p|];
    } else if |s| >= |p| {
      assert s[..|p|][|a|] == c;
    }
  }

  /** A character that the pattern does not contain splits the scan of `replace`: no
      occurrence can straddle it, so each side is processed on its own. */
  lemma {:induction false} RemoveAllSplit(a: string, c: char, b: string, p: string)
    requires |p| > 0 && c !in p
    ensures RemoveAll(a + [c] + b, p) == RemoveAll(a, p) + [c] + RemoveAll(b, p)
    decreases |a|
  {
    var s := a + [c] + b;
    StartsWithBeforeSplit(a, c, b, p);
    if |s| < |p| {
      assert RemoveAll(b, p) == b;
    } else if a == [] {
      assert s == [c] + b && s[1..] == b;
      assert !StartsWith([], p);
      RemoveAllKeepsHead(s, p);
    } else if StartsWith(a, p) {
      assert s[|p|..] == a[|p|..] + [c] + b;
      RemoveAllSplit(a[|p|..], c, b, p);
    } else {
      RemoveAllSplit(a[1..], c, b, p);
      KeptHeadBeforeSplit(a, c, b, p);
    }
  }

  /** The step of `RemoveAllSplit` where `a` does not start with `p`: its first character
      is kept on both sides of the equation. */
  lemma KeptHeadBeforeSplit(a: string, c: char, b: string, p: string)
    requires |p| > 0 && a != [] && !StartsWith(a, p) && !StartsWith(a + [c] + b, p)
    requires RemoveAll(a[1..] + [c] + b, p) == RemoveAll(a[1..], p) + [c] + RemoveAll(b, p)
    ensures RemoveAll(a + [c] + b, p) == RemoveAll(a, p) + [c] + RemoveAll(b, p)
  {
    KeptHeadOfJoin(a, c, b, p);
    KeptHeadOfPrefix(a, p);
    Regroup(a[0], RemoveAll(a[1..], p), c, RemoveAll(b, p),
            RemoveAll(a + [c] + b, p), RemoveAll(a, p));
  }

  /** Regrouping a concatenation that starts with one character. */
  lemma Regroup(h: char, x: string, c: char, y: string, whole: string, front: string)
    requires whole == [h] + (x + [c] + y) && front == [h] + x
    ensures whole == front + [c] + y
  {
  }

  lemma KeptHeadOfJoin(a: string, c: char, b: string, p: string)
    requires |p| > 0 && a != [] && !StartsWith(a + [c] + b, p)
    ensures RemoveAll(a + [c] + b, p) == [a[0]] + RemoveAll(a[1..] + [c] + b, p)
  {
    assert a + [c] + b == [a[0]] + (a[1..] + [c] + b);
    KeptHead(a[0], a[1..] + [c] + b, p);
  }

  lemma KeptHeadOfPrefix(a: string, p: string)
    requires |p| > 0 && a != [] && !StartsWith(a, p)
    ensures RemoveAll(a, p) == [a[0]] + RemoveAll(a[1..], p)
  {
    assert a == [a[0]] + a[1..];
    KeptHead(a[0], a[1..], p);
  }

  /** A string that does not start with `p` keeps its first character, however short. */
  lemma KeptHead(x: char, rest: string, p: string)
    requires |p| > 0 && !StartsWith([x] + rest, p)
    ensures RemoveAll([x] + rest, p) == [x] + RemoveAll(rest, p)
  {
    var s := [x] + rest;
    assert s[0] == x && s[1..] == rest;
    if |s| < |p| {
      assert RemoveAll(rest, p) == rest;
    } else {
      RemoveAllKeepsHead(s, p);
    }
  }

  /** `replace` deletes a string that is exactly the pattern. */
  lemma RemoveAllSelf(p: string)
    requires |p| > 0
    ensures RemoveAll(p, p) == []
  {
    assert StartsWith(p, p);
    assert p[|p|..] == [];
  }

  /** `strip()` of a stripped string padded by one white-space character on each side is
      that string. */
  lemma StripPadded(q: string, w1: char, w2: char)
    requires IsStripped(q) && IsSpace(w1) && IsSpace(w2)
    ensures Strip([w1] + q + [w2]) == q
  {
    var s := [w1] + q + [w2];
    assert s[1..] == q + [w2];
    if q == [] {
      assert TrimStart([w2]) == [];
      assert TrimStart(s) == [];
    } else {
      assert TrimStart(q + [w2]) == q + [w2];
      assert TrimStart(s) == q + [w2];
      assert (q + [w2])[..|q|] == q;
      assert TrimEnd(q) == q;
      assert TrimEnd(q + [w2]) == q;
    }
  }

  /** An occurrence in either part is an occurrence in the concatenation. */
  lemma ContainsAppend(a: string, b: string, p: string)
    requires Contains(a, p) || Contains(b, p)
    ensures Contains(a + b, p)
  {
    var s := a + b;
    if Contains(a, p) {
      assert s[..|a|] == a;
      ContainsInSlice(s, p, 0, |a|);
    } else {
      assert s[|a|..|s|] == b;
      ContainsInSlice(s, p, |a|, |s|);
    }
  }
}
