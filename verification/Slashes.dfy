/** The duplicate-slash pass of normalizeUrl over a pathname. */
module Slashes {
  import opened Common

  // ---------- the regular expression \b[a-z][a-z\d+\-.]{1,50}:\/\/ ----------

  predicate IsWordChar(c: char) {
    'a' <= c <= 'z' || 'A' <= c <= 'Z' || '0' <= c <= '9' || c == '_'
  }

  predicate IsSchemeChar(c: char) {
    'a' <= c <= 'z' || '0' <= c <= '9' || c == '+' || c == '-' || c == '.'
  }

  const MAX_TAIL := 50

  /** The whole of m matches: a letter, one to fifty scheme characters, and "://". */
  predicate IsScheme(m: string) {
    var n := |m|;
    && 5 <= n <= MAX_TAIL + 4
    && 'a' <= m[0] <= 'z'
    && (forall i :: 1 <= i < n - 3 ==> IsSchemeChar(m[i]))
    && m[n - 3] == ':' && m[n - 2] == '/' && m[n - 1] == '/'
  }

  /** A word boundary in front of a letter. */
  predicate Boundary(s: string, i: nat)
    requires i <= |s|
  {
    i == 0 || !IsWordChar(s[i - 1])
  }

  predicate SchemeAt(s: string, i: nat, e: nat) {
    i < e <= |s| && Boundary(s, i) && IsScheme(s[i..e])
  }

  predicate StartsScheme(s: string, i: nat) {
    exists e: nat :: i < e <= |s| && SchemeAt(s, i, e)
  }

  /** Where a match starts, it can end in one way only: at the first colon. */
  lemma SchemeEndUnique(s: string, i: nat, j: nat, e: nat, f: nat)
    requires SchemeAt(s, i, e) && SchemeAt(s, j, f) && i <= j < e
    ensures e == f
  {
    assert s[e - 3] == s[i..e][e - 3 - i] == ':' && s[f - 3] == s[j..f][f - 3 - j] == ':';
    assert forall k :: i < k < e - 3 ==> s[k] == s[i..e][k - i];
    assert forall k :: j < k < f - 3 ==> s[k] == s[j..f][k - j];
    assert s[j] == s[j..f][0];
    assert s[e - 2] == s[i..e][e - 2 - i] && s[e - 1] == s[i..e][e - 1 - i];
  }

  lemma OneEnd(s: string, i: nat)
    ensures forall e: nat, f: nat :: SchemeAt(s, i, e) && SchemeAt(s, i, f) ==> e == f
  {
    forall e: nat, f: nat | SchemeAt(s, i, e) && SchemeAt(s, i, f) ensures e == f {
      SchemeEndUnique(s, i, i, e, f);
    }
  }

  datatype Match = NoMatch | Match(start: nat, end: nat)

  /** exec: the first match at or after `from`. */
  function Exec(s: string, from: nat): (r: Match)
    requires from <= |s|
    ensures r.NoMatch? ==> forall i :: from <= i < |s| ==> !StartsScheme(s, i)
    ensures r.Match? ==> from <= r.start && SchemeAt(s, r.start, r.end) && forall i :: from <= i < r.start ==>
              !StartsScheme(s, i)
    decreases |s| - from
  {
    if from == |s| then NoMatch
    else if StartsScheme(s, from) then
      OneEnd(s, from);
      var e: nat :| from < e <= |s| && SchemeAt(s, from, e);
      Match(from, e)
    else Exec(s, from + 1)
  }

  // ---------- the pass ----------

  /** replace(/\/{2,}/g, "/"): every run of slashes becomes one slash. */
  function Squeeze(s: string): string {
    if |s| <= 1 then s
    else if s[0] == '/' && s[1] == '/' then Squeeze(s[1..])
    else [s[0]] + Squeeze(s[1..])
  }

  /** Squeeze between the matched schemes, and keep those. */
  function Dedupe(s: string): string
    decreases |s|
  {
    match Exec(s, 0)
    case NoMatch => Squeeze(s)
    case Match(i, e) => Squeeze(s[..i]) + s[i..e] + Dedupe(s[e..])
  }

  // ---------- matches in a suffix ----------

  /** What follows a slash, or starts the string, is matched like a string of its own. */
  lemma SchemeInSuffix(s: string, from: nat, i: nat, e: nat)
    requires from <= |s| && (from == 0 || !IsWordChar(s[from - 1])) && from <= i
    ensures SchemeAt(s, i, e) <==> e >= from && SchemeAt(s[from..], i - from, e - from)
  {
    if i < e <= |s| {
      assert s[i..e] == s[from..][i - from..e - from];
      assert i > from ==> s[from..][i - from - 1] == s[i - 1];
    }
  }

  lemma StartsInSuffix(s: string, from: nat, i: nat)
    requires from <= |s| && (from == 0 || !IsWordChar(s[from - 1])) && from <= i
    ensures StartsScheme(s, i) <==> StartsScheme(s[from..], i - from)
  {
    if StartsScheme(s, i) {
      var e: nat :| i < e <= |s| && SchemeAt(s, i, e);
      SchemeInSuffix(s, from, i, e);
    }
    if StartsScheme(s[from..], i - from) {
      var e: nat :| i - from < e <= |s[from..]| && SchemeAt(s[from..], i - from, e);
      SchemeInSuffix(s, from, i, e + from);
    }
  }

  lemma ExecIs(s: string, from: nat, i: nat, e: nat)
    requires from <= i && SchemeAt(s, i, e) && forall k :: from <= k < i ==> !StartsScheme(s, k)
    ensures Exec(s, from) == Match(i, e)
  {
    var r := Exec(s, from);
    assert StartsScheme(s, i);
    if r.Match? {
      assert StartsScheme(s, r.start);
      OneEnd(s, i);
    }
  }

  lemma ExecIsNone(s: string, from: nat)
    requires from <= |s| && forall k :: from <= k < |s| ==> !StartsScheme(s, k)
    ensures Exec(s, from) == NoMatch
  {
    var r := Exec(s, from);
    assert r.Match? ==> StartsScheme(s, r.start);
  }

  /** Searching on from `from` finds what searching the suffix finds. */
  lemma ExecInSuffix(s: string, from: nat)
    requires from <= |s| && (from == 0 || !IsWordChar(s[from - 1]))
    ensures match Exec(s, from)
            case NoMatch => Exec(s[from..], 0) == NoMatch
            case Match(i, e) => i >= from && e >= from && Exec(s[from..], 0) == Match(i - from, e - from)
  {
    var found := Exec(s, from);
    if found.NoMatch? { NoneInSuffix(s, from); } else { FoundInSuffix(s, from, found.start, found.end); }
  }

  lemma NoneInSuffix(s: string, from: nat)
    requires from <= |s| && (from == 0 || !IsWordChar(s[from - 1]))
    requires forall k :: from <= k < |s| ==> !StartsScheme(s, k)
    ensures Exec(s[from..], 0) == NoMatch
  {
    forall k | 0 <= k < |s[from..]| ensures !StartsScheme(s[from..], k) {
      StartsInSuffix(s, from, k + from);
    }
    ExecIsNone(s[from..], 0);
  }

  lemma FoundInSuffix(s: string, from: nat, i: nat, e: nat)
    requires from <= i < e <= |s| && (from == 0 || !IsWordChar(s[from - 1])) && SchemeAt(s, i, e)
    requires forall k :: from <= k < i ==> !StartsScheme(s, k)
    ensures Exec(s[from..], 0) == Match(i - from, e - from)
  {
    forall k | 0 <= k < i - from ensures !StartsScheme(s[from..], k) {
      StartsInSuffix(s, from, k + from);
    }
    SchemeInSuffix(s, from, i, e);
    ExecIs(s[from..], 0, i - from, e - from);
  }

  /** The search goes on at the start or right behind a scheme. */
  ghost predicate AfterScheme(s: string, from: int) {
    0 <= from <= |s| && (from == 0 || !IsWordChar(s[from - 1]))
  }

  lemma OneRound(s: string, from: nat)
    requires AfterScheme(s, from) && Exec(s, from).Match?
    ensures var (i, e) := (Exec(s, from).start, Exec(s, from).end);
            from <= i < e <= |s| && Dedupe(s[from..]) == Squeeze(s[from..i]) + s[i..e] + Dedupe(s[e..])
  {
    ExecInSuffix(s, from);
    DedupeSuffix(s, from, Exec(s, from).start, Exec(s, from).end);
  }

  lemma BehindScheme(s: string, i: nat, e: nat)
    requires SchemeAt(s, i, e)
    ensures AfterScheme(s, e)
  {
    assert s[e - 1] == s[i..e][e - i - 1];
  }

  lemma DedupeSuffix(s: string, from: nat, i: nat, e: nat)
    requires from <= i < e <= |s| && Exec(s[from..], 0) == Match(i - from, e - from)
    ensures Dedupe(s[from..]) == Squeeze(s[from..i]) + s[i..e] + Dedupe(s[e..])
  {
    SlicesOfSuffix(s, from, i, e);
    DedupeRound(s[from..], i - from, e - from);
  }

  lemma DedupeRound(s: string, i: nat, e: nat)
    requires Exec(s, 0) == Match(i, e) && i < e <= |s|
    ensures Dedupe(s) == Squeeze(s[..i]) + s[i..e] + Dedupe(s[e..])
  {
  }

  lemma SlicesOfSuffix(s: string, from: nat, i: nat, e: nat)
    requires from <= i < e <= |s|
    ensures s[from..][..i - from] == s[from..i] && s[from..][i - from..e - from] == s[i..e]
            && s[from..][e - from..] == s[e..]
  {
  }

  lemma Associate(a: string, b: string, c: string, d: string)
    ensures a + (b + c + d) == a + b + c + d
  {
  }

  lemma LastRound(s: string, from: nat)
    requires AfterScheme(s, from) && Exec(s, from).NoMatch?
    ensures Dedupe(s[from..]) == Squeeze(s[from..])
  {
    ExecInSuffix(s, from);
  }
}
