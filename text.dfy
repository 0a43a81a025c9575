/** Character and string operations the agents rely on: Python's `str.strip()`,
    `str.lower()` and the substring test `sub in s`. */
module Text {

  /** Python's `str.isspace()` for a single character: the ASCII controls
      TAB..CR and FS..US, SPACE, NEL, NBSP and the Unicode space separators. */
  predicate IsSpace(c: char) {
    c == ' ' || ('\t' <= c <= '\r') || ('\U{1C}' <= c <= '\U{1F}')
    || c == '\U{85}' || c == '\U{A0}' || c == '\U{1680}'
    || ('\U{2000}' <= c <= '\U{200A}') || c == '\U{2028}' || c == '\U{2029}'
    || c == '\U{202F}' || c == '\U{205F}' || c == '\U{3000}'
  }

  /** Every character of `s` in positions `lo..hi` is whitespace. */
  predicate SpacesIn(s: string, lo: nat, hi: nat)
    requires lo <= hi <= |s|
  {
    forall k | lo <= k < hi :: IsSpace(s[k])
  }

  predicate AllSpace(s: string) {
    SpacesIn(s, 0, |s|)
  }

  /** True when `s` neither starts nor ends with whitespace. */
  predicate Trimmed(s: string) {
    s == [] || (!IsSpace(s[0]) && !IsSpace(s[|s| - 1]))
  }

  /** The first position at or after `i` that holds no whitespace, or `|s|`. */
  function SkipLeading(s: string, i: nat): (j: nat)
    requires i <= |s|
    ensures i <= j <= |s| && SpacesIn(s, i, j)
    ensures j < |s| ==> !IsSpace(s[j])
    decreases |s| - i
  {
    if i < |s| && IsSpace(s[i]) then SkipLeading(s, i + 1) else i
  }

  /** The end of `s[lo..hi]` once its trailing whitespace is dropped. */
  function SkipTrailing(s: string, lo: nat, hi: nat): (e: nat)
    requires lo <= hi <= |s|
    ensures lo <= e <= hi && SpacesIn(s, e, hi)
    ensures lo < e ==> !IsSpace(s[e - 1])
    decreases hi - lo
  {
    if lo < hi && IsSpace(s[hi - 1]) then SkipTrailing(s, lo, hi - 1) else hi
  }

  /** Python's `str.strip()`: the text between the leading and the trailing
      whitespace. */
  function Strip(s: string): (r: string)
    ensures Trimmed(r)
    ensures exists i | 0 <= i <= |s| - |r| :: s[i..i + |r|] == r && SpacesIn(s, 0, i) && SpacesIn(s, i + |r|, |s|)
    ensures r == [] <==> AllSpace(s)
  {
    var i := SkipLeading(s, 0);
    var e := SkipTrailing(s, i, |s|);
    assert i < e ==> s[i..e][0] == s[i] && s[i..e][e - i - 1] == s[e - 1];
    assert i == e ==> SpacesIn(s, 0, |s|);
    s[i..e]
  }

  /** `Strip` has nothing left to remove from its own result. */
  lemma StripIdempotent(s: string)
    ensures Strip(Strip(s)) == Strip(s)
  {
    var r := Strip(s);
    assert SkipLeading(r, 0) == 0;
    assert SkipTrailing(r, 0, |r|) == |r|;
    assert r[0..|r|] == r;
  }

  /** Skipping whitespace from `i` stops exactly at `a` when only whitespace
      lies between them and `a` is the end or a non-space character. */
  lemma {:induction false} SkipLeadingStops(s: string, i: nat, a: nat)
    requires i <= a <= |s| && SpacesIn(s, i, a) && (a < |s| ==> !IsSpace(s[a]))
    ensures SkipLeading(s, i) == a
    decreases a - i
  {
    if i < a {
      SkipLeadingStops(s, i + 1, a);
    }
  }

  lemma {:induction false} SkipTrailingStops(s: string, lo: nat, hi: nat, e: nat)
    requires lo <= e <= hi <= |s| && SpacesIn(s, e, hi) && (lo < e ==> !IsSpace(s[e - 1]))
    ensures SkipTrailing(s, lo, hi) == e
    decreases hi - e
  {
    if e < hi {
      SkipTrailingStops(s, lo, hi - 1, e);
    }
  }

  /** Stripping is determined by the decomposition it finds: whatever
      whitespace surrounds a trimmed core, the core comes back. */
  lemma {:induction false} StripUnique(lead: string, core: string, trail: string)
    requires AllSpace(lead) && AllSpace(trail) && Trimmed(core)
    ensures Strip(lead + core + trail) == core
  {
    var s := lead + core + trail;
    var a, e := |lead|, |lead| + |core|;
    assert SpacesIn(s, 0, a) by {
      forall k | 0 <= k < a ensures IsSpace(s[k]) { assert s[k] == lead[k]; }
    }
    assert SpacesIn(s, e, |s|) by {
      forall k | e <= k < |s| ensures IsSpace(s[k]) { assert s[k] == trail[k - e]; }
    }
    if core == [] {
      assert SpacesIn(s, 0, |s|);
      SkipLeadingStops(s, 0, |s|);
      SkipTrailingStops(s, |s|, |s|, |s|);
    } else {
      assert s[a] == core[0] && s[e - 1] == core[|core| - 1];
      SkipLeadingStops(s, 0, a);
      SkipTrailingStops(s, a, |s|, e);
      assert s[a..e] == core;
    }
  }

  function LowerChar(c: char): char {
    if 'A' <= c <= 'Z' then (c as int + 32) as char else c
  }

  /** Python's `str.lower()` restricted to ASCII letters. */
  function Lower(s: string): (r: string)
    ensures |r| == |s|
    ensures forall i | 0 <= i < |s| :: r[i] == LowerChar(s[i])
  {
    seq(|s|, i requires 0 <= i < |s| => LowerChar(s[i]))
  }

  /** `pat` occurs in `s` starting at position `i`. */
  predicate MatchesAt(pat: string, s: string, i: nat) {
    i + |pat| <= |s| && s[i..i + |pat|] == pat
  }

  /** Python's substring test `pat in s`. */
  function Occurs(pat: string, s: string): (b: bool)
    ensures b <==> exists i: nat :: MatchesAt(pat, s, i)
    decreases |s|
  {
    if |s| < |pat| then
      false
    else if s[..|pat|] == pat then
      assert MatchesAt(pat, s, 0);
      true
    else
      ShiftMatches(pat, s);
      Occurs(pat, s[1..])
  }

  /** A match in `s` other than at its start is a match in `s[1..]`. */
  lemma ShiftMatches(pat: string, s: string)
    requires |s| >= |pat| && s[..|pat|] != pat
    ensures (exists i: nat :: MatchesAt(pat, s, i)) <==> (exists i: nat :: MatchesAt(pat, s[1..], i))
  {
    if i: nat :| MatchesAt(pat, s, i) {
      assert i != 0;
      assert s[1..][i - 1..i - 1 + |pat|] == s[i..i + |pat|];
      assert MatchesAt(pat, s[1..], i - 1);
    }
    if i: nat :| MatchesAt(pat, s[1..], i) {
      assert s[1..][i..i + |pat|] == s[i + 1..i + 1 + |pat|];
      assert MatchesAt(pat, s, i + 1);
    }
  }
}
