/** What the duplicate-slash pass does to a string, whatever schemes it contains. */
module SlashProofs {
  import opened Common
  import opened Slashes

  // ---------- squeezing ----------

  predicate DoubleAt(s: string, i: nat) {
    i + 1 < |s| && s[i] == '/' && s[i + 1] == '/'
  }

  lemma {:induction false} SqueezeFirst(s: string)
    ensures |Squeeze(s)| <= |s|
    ensures s != "" ==> Squeeze(s) != "" && Squeeze(s)[0] == s[0]
  {
    if |s| > 1 { SqueezeFirst(s[1..]); }
  }

  lemma {:induction false} SqueezeNoDouble(s: string, i: nat)
    ensures !DoubleAt(Squeeze(s), i)
  {
    if |s| > 1 {
      SqueezeFirst(s[1..]);
      SqueezeNoDouble(s[1..], i);
      if i > 0 { SqueezeNoDouble(s[1..], i - 1); }
    }
  }

  lemma {:induction false} SqueezeRight(a: string, b: string)
    ensures Squeeze(a + b) == Squeeze(a + Squeeze(b))
  {
    SqueezeFirst(b);
    if a == "" {
      assert a + b == b && a + Squeeze(b) == Squeeze(b);
      SqueezeStable(Squeeze(b), b);
    } else if b == "" {
      assert b == Squeeze(b);
    } else {
      SqueezeRight(a[1..], b);
      assert (a + b)[1..] == a[1..] + b && (a + Squeeze(b))[1..] == a[1..] + Squeeze(b);
      assert (a + b)[1] == (a + Squeeze(b))[1];
    }
  }

  /** Squeezing what has no double slash changes nothing. */
  lemma {:induction false} SqueezeStable(t: string, s: string)
    requires t == Squeeze(s)
    ensures Squeeze(t) == t
    decreases |s|
  {
    if |s| > 1 {
      SqueezeStable(Squeeze(s[1..]), s[1..]);
      SqueezeFirst(s[1..]);
      if !(s[0] == '/' && s[1] == '/') { assert t[1..] == Squeeze(s[1..]); }
    }
  }

  lemma {:induction false} SqueezeLeft(a: string, b: string)
    ensures Squeeze(a + b) == Squeeze(Squeeze(a) + b)
  {
    if |a| > 1 {
      SqueezeLeft(a[1..], b);
      SqueezeFirst(a[1..]);
      assert (a + b)[1..] == a[1..] + b;
      if !(a[0] == '/' && a[1] == '/') {
        var t := Squeeze(a) + b;
        assert t[1..] == Squeeze(a[1..]) + b && t[0] == a[0] && t[1] == a[1];
      }
    }
  }

  /** The pass changes only the lengths of runs of slashes. */
  lemma {:induction false} DedupeKeepsRuns(s: string)
    ensures Squeeze(Dedupe(s)) == Squeeze(s)
    decreases |s|
  {
    match Exec(s, 0)
    case NoMatch => SqueezeStable(Squeeze(s), s);
    case Match(i, e) =>
      DedupeKeepsRuns(s[e..]);
      assert s == s[..i] + s[i..e] + s[e..];
      RunsKeptAround(s[..i], s[i..e], s[e..], Dedupe(s[e..]));
  }

  lemma RunsKeptAround(u: string, m: string, v: string, w: string)
    requires Squeeze(v) == Squeeze(w)
    ensures Squeeze(Squeeze(u) + m + w) == Squeeze(u + m + v)
  {
    assert Squeeze(u) + m + w == Squeeze(u) + (m + w) && u + m + w == u + (m + w);
    SqueezeLeft(u, m + w);
    SqueezeRight(u + m, w);
    SqueezeRight(u + m, v);
  }

  // ---------- where a scheme is found again ----------

  /** A slash-free end of a squeezed string was there before squeezing, after the same character. */
  lemma {:induction false} SuffixKept(s: string, j: nat)
    requires j <= |Squeeze(s)| && forall k :: j <= k < |Squeeze(s)| ==> Squeeze(s)[k] != '/'
    ensures var (t, n) := (Squeeze(s), |Squeeze(s)| - j);
            && n <= |s| && s[|s| - n..] == t[j..]
            && (j == 0 ==> n == |s|) && (j > 0 ==> n < |s| && s[|s| - n - 1] == t[j - 1])
  {
    var (t, n) := (Squeeze(s), |Squeeze(s)| - j);
    if |s| > 1 {
      var rest := s[1..];
      SqueezeFirst(rest);
      if s[0] == '/' && s[1] == '/' {
        assert j > 0;
        SuffixKept(rest, j);
      } else {
        assert t[1..] == Squeeze(rest);
        SuffixKept(rest, if j > 0 then j - 1 else 0);
        assert t[j..] == if j > 0 then Squeeze(rest)[j - 1..] else [s[0]] + Squeeze(rest);
      }
    }
  }

  /** A scheme contains two slashes, and its other characters are none. */
  lemma SchemeShape(m: string)
    requires IsScheme(m)
    ensures forall k :: 0 <= k < |m| - 3 ==> m[k] != '/' && m[k] != ':'
    ensures DoubleAt(m, |m| - 2) && !IsWordChar(m[|m| - 1])
  {
  }

  /** The same, for a scheme inside a string. */
  lemma SchemeChars(s: string, i: nat, e: nat)
    requires SchemeAt(s, i, e)
    ensures i + 5 <= e && s[e - 3] == ':' && DoubleAt(s, e - 2)
    ensures forall k :: i <= k < e - 3 ==> s[k] != '/' && s[k] != ':'
  {
    var w := s[i..e];
    SchemeShape(w);
    assert forall k :: i <= k < e ==> s[k] == w[k - i];
  }

  /** In squeezed text followed by a scheme, a match that starts in the text also starts in the original. */
  lemma EarlierMatchWasThere(u: string, m: string, v: string, j: nat, f: nat) returns (i: nat)
    requires IsScheme(m) && j < |Squeeze(u)| && SchemeAt(Squeeze(u) + m + v, j, f)
    ensures i < |u| && Boundary(u, i) && IsScheme(u[i..] + m)
  {
    var t := Squeeze(u);
    ColonBehind(u, m, v, j, f);
    SuffixKept(u, j);
    i := |u| - (|t| - j);
    assert (t + m + v)[..f] == t + m;
    assert (t + m + v)[j..f] == (t + m)[j..] == t[j..] + m;
    assert (t + m + v)[..j] == t[..j];
  }

  /** Its colon is the colon of m: in the squeezed text, two slashes would have to follow it. */
  lemma ColonBehind(u: string, m: string, v: string, j: nat, f: nat)
    requires IsScheme(m) && j < |Squeeze(u)| && SchemeAt(Squeeze(u) + m + v, j, f)
    ensures f == |Squeeze(u)| + |m| && forall k :: j <= k < |Squeeze(u)| ==> Squeeze(u)[k] != '/'
  {
    var t := Squeeze(u);
    var all := t + m + v;
    SchemeShape(m);
    SchemeChars(all, j, f);
    assert forall k :: 0 <= k < |t| ==> all[k] == t[k];
    assert forall k :: |t| <= k < |t| + |m| ==> all[k] == m[k - |t|];
    SqueezeNoDouble(u, f - 2);
    assert f - 3 >= |t|;
    assert all[|t| + |m| - 3] == ':';
    assert forall k :: |t| <= k < |t| + |m| - 3 ==> all[k] != ':';
  }

  /** If no scheme starts inside u, none starts inside squeezed u. */
  lemma NoEarlierMatch(u: string, m: string, rest: string, v: string, j: nat, f: nat)
    requires IsScheme(m) && j < |Squeeze(u)| && forall k :: 0 <= k < |u| ==> !StartsScheme(u + m + rest, k)
    ensures !SchemeAt(Squeeze(u) + m + v, j, f)
  {
    if SchemeAt(Squeeze(u) + m + v, j, f) {
      var i := EarlierMatchWasThere(u, m, v, j, f);
      var (s, e) := (u + m + rest, |u| + |m|);
      assert s[..e] == u + m && s[i..e] == (u + m)[i..] == u[i..] + m;
      assert s[..i] == u[..i];
      assert SchemeAt(s, i, e);
      assert StartsScheme(s, i);
    }
  }

  /** After squeezing the text before the first scheme, the first match is still that scheme. */
  lemma FirstMatchKept(s: string, i: nat, e: nat, v: string)
    requires Exec(s, 0) == Match(i, e)
    ensures Exec(Squeeze(s[..i]) + s[i..e] + v, 0) == Match(|Squeeze(s[..i])|, |Squeeze(s[..i])| + e - i)
  {
    var (u, m) := (s[..i], s[i..e]);
    var t := Squeeze(u);
    assert s == u + m + s[e..];
    forall j: nat, f: nat | j < |t| ensures !SchemeAt(t + m + v, j, f) {
      NoEarlierMatch(u, m, s[e..], v, j, f);
    }
    SchemeBehindText(u, m, v);
    ExecIs(t + m + v, 0, |t|, |t| + |m|);
  }

  lemma SchemeBehindText(u: string, m: string, v: string)
    requires IsScheme(m) && Boundary(u, |u|)
    ensures SchemeAt(Squeeze(u) + m + v, |Squeeze(u)|, |Squeeze(u)| + |m|)
  {
    var t := Squeeze(u);
    LastCharKept(u);
    assert (t + m + v)[|t|..|t| + |m|] == m;
  }

  lemma {:induction false} LastCharKept(u: string)
    ensures (u == "" <==> Squeeze(u) == "") && (u != "" ==> Squeeze(u)[|Squeeze(u)| - 1] == u[|u| - 1])
  {
    if |u| > 1 { LastCharKept(u[1..]); }
  }

  lemma SqueezedHasNoScheme(s: string)
    ensures Exec(Squeeze(s), 0) == NoMatch
  {
    var t := Squeeze(s);
    forall k: nat ensures !DoubleAt(t, k) { SqueezeNoDouble(s, k); }
    forall i: nat, e: nat | SchemeAt(t, i, e) ensures e >= 2 && DoubleAt(t, e - 2) { SchemeChars(t, i, e); }
    ExecIsNone(t, 0);
  }

  /** Passing twice is passing once. */
  lemma {:induction false} DedupeIdempotent(s: string)
    ensures Dedupe(Dedupe(s)) == Dedupe(s)
    decreases |s|
  {
    match Exec(s, 0)
    case NoMatch =>
      SqueezedHasNoScheme(s);
      SqueezeStable(Squeeze(s), s);
    case Match(i, e) =>
      var (u, m, v) := (Squeeze(s[..i]), s[i..e], Dedupe(s[e..]));
      DedupeIdempotent(s[e..]);
      FirstMatchKept(s, i, e, v);
      var t := u + m + v;
      assert t[..|u|] == u && t[|u|..|u| + |m|] == m && t[|u| + |m|..] == v;
      SqueezeStable(u, s[..i]);
  }

  // ---------- the double slashes that remain ----------

  ghost predicate SchemeEnds(s: string, e: nat) {
    exists i: nat :: i < e && SchemeAt(s, i, e)
  }

  /** The first scheme of s is s[k..n]. */
  ghost predicate FirstScheme(s: string, k: nat, n: nat) {
    SchemeAt(s, k, n) && forall j :: 0 <= j < k ==> !StartsScheme(s, j)
  }

  /** The schemes of s are the first one and those behind it. */
  lemma EndsSplit(s: string, k: nat, n: nat, e: nat)
    requires FirstScheme(s, k, n)
    ensures SchemeEnds(s, e) <==> e == n || (e >= n && SchemeEnds(s[n..], e - n))
  {
    SchemeShape(s[k..n]);
    assert s[n - 1] == s[k..n][n - 1 - k];
    if SchemeEnds(s, e) { EndsDown(s, k, n, e); }
    if e >= n && SchemeEnds(s[n..], e - n) {
      var i: nat :| i < e - n && SchemeAt(s[n..], i, e - n);
      SchemeInSuffix(s, n, i + n, e);
    }
  }

  lemma EndsDown(s: string, k: nat, n: nat, e: nat)
    requires FirstScheme(s, k, n) && !IsWordChar(s[n - 1]) && SchemeEnds(s, e)
    ensures e == n || (e >= n && SchemeEnds(s[n..], e - n))
  {
    var i: nat :| i < e && SchemeAt(s, i, e);
    assert StartsScheme(s, i);
    if i < n {
      SchemeEndUnique(s, k, i, n, e);
    } else {
      SchemeInSuffix(s, n, i, e);
    }
  }

  lemma DedupeFirst(s: string)
    ensures s == "" <==> Dedupe(s) == ""
    ensures s != "" ==> Dedupe(s)[0] == s[0]
  {
    SqueezeFirst(s);
    match Exec(s, 0)
    case NoMatch =>
    case Match(i, e) =>
      SqueezeFirst(s[..i]);
      assert i > 0 ==> s[..i][0] == s[0];
  }

  /** Where a double slash can be, behind text that has none and a scheme. */
  lemma DoubleSplit(u: string, m: string, v: string, i: nat)
    requires IsScheme(m) && DoubleAt(u + m + v, i) && forall k: nat :: !DoubleAt(u, k)
    ensures var n := |u| + |m|;
            i == n - 2 || (i == n - 1 && v != "" && v[0] == '/') || (i >= n && DoubleAt(v, i - n))
  {
    var (t, n) := (u + m + v, |u| + |m|);
    SchemeShape(m);
    assert forall k :: 0 <= k < |u| ==> t[k] == u[k];
    assert forall k :: |u| <= k < n ==> t[k] == m[k - |u|];
    assert forall k :: n <= k < |t| ==> t[k] == v[k - n];
    assert !DoubleAt(u, i);
  }

  /** The result of the pass around the first scheme. */
  lemma DedupeParts(s: string)
    requires Exec(s, 0).Match?
    ensures var (k, e) := (Exec(s, 0).start, Exec(s, 0).end);
            var (u, m, v) := (Squeeze(s[..k]), s[k..e], Dedupe(s[e..]));
            && Dedupe(s) == u + m + v && IsScheme(m) && FirstScheme(u + m + v, |u|, |u| + |m|)
            && (u + m + v)[|u| + |m|..] == v
  {
    var (k, e) := (Exec(s, 0).start, Exec(s, 0).end);
    FirstMatchKept(s, k, e, Dedupe(s[e..]));
  }

  /** Every double slash left behind ends a matched scheme, or starts with the last slash of one. */
  lemma {:induction false} OnlySchemeSlashesLeft(s: string, i: nat)
    requires DoubleAt(Dedupe(s), i)
    ensures SchemeEnds(Dedupe(s), i + 2) || SchemeEnds(Dedupe(s), i + 1)
    decreases |s|
  {
    if Exec(s, 0).NoMatch? {
      SqueezeNoDouble(s, i);
    } else {
      var (k, e) := (Exec(s, 0).start, Exec(s, 0).end);
      var (u, m, v) := (Squeeze(s[..k]), s[k..e], Dedupe(s[e..]));
      forall k': nat ensures !DoubleAt(u, k') { SqueezeNoDouble(s[..k], k'); }
      DedupeParts(s);
      if i >= |u| + |m| && DoubleAt(v, i - |u| - |m|) { OnlySchemeSlashesLeft(s[e..], i - |u| - |m|); }
      DoubleBehind(u, m, v, i);
    }
  }

  lemma DoubleBehind(u: string, m: string, v: string, i: nat)
    requires IsScheme(m) && FirstScheme(u + m + v, |u|, |u| + |m|) && (u + m + v)[|u| + |m|..] == v
    requires DoubleAt(u + m + v, i) && forall k: nat :: !DoubleAt(u, k)
    requires i >= |u| + |m| && DoubleAt(v, i - |u| - |m|) ==>
               SchemeEnds(v, i - |u| - |m| + 2) || SchemeEnds(v, i - |u| - |m| + 1)
    ensures SchemeEnds(u + m + v, i + 2) || SchemeEnds(u + m + v, i + 1)
  {
    DoubleSplit(u, m, v, i);
    EndsSplit(u + m + v, |u|, |u| + |m|, i + 1);
    EndsSplit(u + m + v, |u|, |u| + |m|, i + 2);
  }

  /** A matched scheme with a third slash behind it. */
  ghost predicate ThirdSlash(s: string) {
    exists e: nat :: e < |s| && s[e] == '/' && SchemeEnds(s, e)
  }

  /** A double slash that is not the pair ending a matched scheme. */
  ghost predicate StrayDouble(s: string) {
    exists i: nat :: DoubleAt(s, i) && !SchemeEnds(s, i + 2)
  }

  lemma ThirdSlashSplit(s: string, k: nat, n: nat)
    requires FirstScheme(s, k, n)
    ensures ThirdSlash(s) <==> (n < |s| && s[n] == '/') || ThirdSlash(s[n..])
  {
    if ThirdSlash(s) {
      var e: nat :| e < |s| && s[e] == '/' && SchemeEnds(s, e);
      EndsSplit(s, k, n, e);
      if e > n { assert s[n..][e - n] == s[e]; }
    }
    EndsSplit(s, k, n, n);
    if ThirdSlash(s[n..]) {
      var e: nat :| e < |s[n..]| && s[n..][e] == '/' && SchemeEnds(s[n..], e);
      EndsSplit(s, k, n, n + e);
      assert s[n + e] == '/';
    }
  }

  /** The pass neither adds nor removes a third slash behind a scheme. */
  lemma {:induction false} ThirdSlashKept(s: string)
    ensures ThirdSlash(Dedupe(s)) <==> ThirdSlash(s)
    decreases |s|
  {
    if Exec(s, 0).NoMatch? {
      SqueezedHasNoScheme(s);
      NoSchemeNoEnds(s);
      NoSchemeNoEnds(Squeeze(s));
    } else {
      var (i, e) := (Exec(s, 0).start, Exec(s, 0).end);
      var n := |Squeeze(s[..i])| + e - i;
      ThirdSlashKept(s[e..]);
      DedupeParts(s);
      ThirdSlashSplit(s, i, e);
      ThirdSlashSplit(Dedupe(s), |Squeeze(s[..i])|, n);
      DedupeFirst(s[e..]);
      BehindFirst(Dedupe(s), n);
      BehindFirst(s, e);
    }
  }

  lemma BehindFirst(s: string, n: nat)
    requires n <= |s|
    ensures n < |s| && s[n] == '/' <==> s[n..] != "" && s[n..][0] == '/'
  {
  }

  lemma NoSchemeNoEnds(s: string)
    requires Exec(s, 0) == NoMatch
    ensures forall e: nat :: !SchemeEnds(s, e)
  {
    forall e: nat ensures !SchemeEnds(s, e) {
      forall i: nat | i < e ensures !SchemeAt(s, i, e) {
        if i < |s| && e <= |s| { assert !StartsScheme(s, i); }
      }
    }
  }

  /** No double slash is left except the pairs that end a matched scheme, exactly when no matched scheme of the
      input has a third slash behind it. */
  lemma StrayDoubleIff(s: string)
    ensures StrayDouble(Dedupe(s)) <==> ThirdSlash(s)
  {
    var t := Dedupe(s);
    ThirdSlashKept(s);
    if StrayDouble(t) {
      var i: nat :| DoubleAt(t, i) && !SchemeEnds(t, i + 2);
      OnlySchemeSlashesLeft(s, i);
      assert t[i + 1] == '/' && SchemeEnds(t, i + 1);
    }
    if ThirdSlash(t) {
      var e: nat :| e < |t| && t[e] == '/' && SchemeEnds(t, e);
      var i: nat :| i < e && SchemeAt(t, i, e);
      SchemeShape(t[i..e]);
      assert t[e - 1] == t[i..e][e - 1 - i];
      assert DoubleAt(t, e - 1);
      NotTwoEnds(t, e);
    }
  }

  /** No scheme ends right behind another one's end. */
  lemma NotTwoEnds(t: string, e: nat)
    requires SchemeEnds(t, e)
    ensures !SchemeEnds(t, e + 1)
  {
    var i: nat :| i < e && SchemeAt(t, i, e);
    SchemeChars(t, i, e);
    forall j: nat, f: nat | SchemeAt(t, j, f) ensures f >= 3 && t[f - 3] == ':' { SchemeChars(t, j, f); }
  }

  /** A file URL in a path keeps its three slashes. */
  lemma ThreeSlashesStay()
    ensures StrayDouble(Dedupe("/file:///x"))
  {
    var s := "/file:///x";
    assert s[1..8] == "file://";
    assert SchemeAt(s, 1, 8);
    assert s[8] == '/' && SchemeEnds(s, 8);
    StrayDoubleIff(s);
  }
}
