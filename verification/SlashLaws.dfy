/** The duplicate-slash pass character by character, and what it does to the segments of a path. */
module SlashLaws {
  import opened Common
  import opened Text
  import opened Slashes
  import opened SlashProofs

  /** A character is dropped when it is a slash behind a slash, except for the second slash of a matched scheme and
      the first character behind one. */
  ghost predicate Kept(s: string, i: nat)
    requires i < |s|
  {
    !(i > 0 && s[i] == '/' && s[i - 1] == '/') || SchemeEnds(s, i + 1) || SchemeEnds(s, i)
  }

  /** The characters of s[i..j] that are kept. */
  ghost function KeptPart(s: string, i: nat, j: nat): string
    requires j <= |s|
    decreases j
  {
    if i >= j then "" else KeptPart(s, i, j - 1) + if Kept(s, j - 1) then [s[j - 1]] else ""
  }

  lemma {:induction false} KeptInTwo(s: string, i: nat, k: nat, j: nat)
    requires i <= k <= j <= |s|
    ensures KeptPart(s, i, j) == KeptPart(s, i, k) + KeptPart(s, k, j)
    decreases j
  {
    if k < j { KeptInTwo(s, i, k, j - 1); }
  }

  lemma {:induction false} AllKept(s: string, i: nat, j: nat)
    requires i <= j <= |s| && forall k :: i <= k < j ==> Kept(s, k)
    ensures KeptPart(s, i, j) == s[i..j]
    decreases j
  {
    if i < j { AllKept(s, i, j - 1); }
  }

  lemma {:induction false} SqueezeSnoc(t: string, c: char)
    ensures Squeeze(t + [c]) == if t != "" && t[|t| - 1] == '/' && c == '/' then Squeeze(t) else Squeeze(t) + [c]
  {
    if t != "" {
      SqueezeSnoc(t[1..], c);
      assert (t + [c])[1..] == t[1..] + [c];
      if |t| > 1 { assert t[1..][|t| - 2] == t[|t| - 1]; }
    }
  }

  /** Text without schemes keeps one slash of each run. */
  lemma {:induction false} KeptIsSqueezed(s: string, j: nat)
    requires j <= |s| && forall e: nat :: e <= j ==> !SchemeEnds(s, e)
    ensures KeptPart(s, 0, j) == Squeeze(s[..j])
    decreases j
  {
    if j > 0 {
      KeptIsSqueezed(s, j - 1);
      SqueezeSnoc(s[..j - 1], s[j - 1]);
      assert s[..j] == s[..j - 1] + [s[j - 1]];
    }
  }

  /** Behind the first scheme, the rest is treated like a string of its own. */
  lemma {:induction false} KeptBehind(s: string, k: nat, n: nat, j: nat)
    requires FirstScheme(s, k, n) && n <= j <= |s|
    ensures KeptPart(s, n, j) == KeptPart(s[n..], 0, j - n)
    decreases j
  {
    if n < j {
      KeptBehind(s, k, n, j - 1);
      EndsSplit(s, k, n, j);
      EndsSplit(s, k, n, j - 1);
    }
  }

  lemma SchemeIsKept(s: string, k: nat, n: nat)
    requires FirstScheme(s, k, n)
    ensures KeptPart(s, k, n) == s[k..n] && forall e: nat :: e < n ==> !SchemeEnds(s, e)
  {
    SchemeChars(s, k, n);
    forall e: nat | e < n ensures !SchemeEnds(s, e) { EndsSplit(s, k, n, e); }
    assert SchemeEnds(s, n);
    forall i | k <= i < n ensures Kept(s, i) {}
    AllKept(s, k, n);
  }

  /** The pass keeps exactly those characters, in order. */
  lemma {:induction false} KeptExactly(s: string)
    ensures Dedupe(s) == KeptPart(s, 0, |s|)
    decreases |s|
  {
    if Exec(s, 0).NoMatch? {
      NoSchemeNoEnds(s);
      KeptIsSqueezed(s, |s|);
      assert s[..|s|] == s;
    } else {
      var (k, n) := (Exec(s, 0).start, Exec(s, 0).end);
      assert FirstScheme(s, k, n);
      SchemeIsKept(s, k, n);
      KeptIsSqueezed(s, k);
      KeptInTwo(s, 0, k, |s|);
      KeptInTwo(s, k, n, |s|);
      KeptBehind(s, k, n, |s|);
      KeptExactly(s[n..]);
      DedupeRound(s, k, n);
    }
  }

  // ---------- consequences for paths ----------

  /** A string without two slashes in a row is returned as it is. */
  lemma NothingToDrop(s: string)
    requires forall i: nat :: !DoubleAt(s, i)
    ensures Dedupe(s) == s
  {
    forall i | 0 <= i < |s| ensures Kept(s, i) { assert i > 0 ==> !DoubleAt(s, i - 1); }
    AllKept(s, 0, |s|);
    KeptExactly(s);
  }

  /** The last character is kept. */
  lemma {:induction false} LastKept(s: string, j: nat)
    requires 0 < j <= |s|
    ensures var t := KeptPart(s, 0, j); t != "" && t[|t| - 1] == s[j - 1]
    decreases j
  {
    if j > 1 { LastKept(s, j - 1); }
  }

  /** The result starts and ends with the same characters, so a leading or trailing slash stays. */
  lemma EndsKept(s: string)
    ensures s == "" <==> Dedupe(s) == ""
    ensures s != "" ==> Dedupe(s)[0] == s[0] && Dedupe(s)[|Dedupe(s)| - 1] == s[|s| - 1]
  {
    DedupeFirst(s);
    KeptExactly(s);
    if s != "" { LastKept(s, |s|); }
  }

  /** The segments of a path: its parts between slashes, empty ones left out. */
  function NonEmpty(parts: seq<string>): seq<string> {
    if parts == [] then [] else (if parts[0] == "" then [] else [parts[0]]) + NonEmpty(parts[1..])
  }

  function Segments(s: string): seq<string> {
    NonEmpty(Split(s, '/'))
  }

  function IfNonEmpty(part: string): seq<string> {
    if part == "" then [] else [part]
  }

  lemma NonEmptyCons(part: string, rest: seq<string>)
    ensures NonEmpty([part] + rest) == IfNonEmpty(part) + NonEmpty(rest)
  {
    assert ([part] + rest)[1..] == rest;
  }

  lemma {:induction false} NonEmptyAppend(a: seq<string>, b: seq<string>)
    ensures NonEmpty(a + b) == NonEmpty(a) + NonEmpty(b)
  {
    if a == [] {
      assert a + b == b;
    } else {
      var (first, rest) := (a[0], a[1..]);
      NonEmptyAppend(rest, b);
      NonEmptyCons(first, rest + b);
      NonEmptyCons(first, rest);
      assert a == [first] + rest && a + b == [first] + (rest + b);
      Regroup(IfNonEmpty(first), NonEmpty(rest), NonEmpty(b));
    }
  }

  lemma Regroup(a: seq<string>, b: seq<string>, c: seq<string>)
    ensures a + (b + c) == a + b + c
  {
  }

  /** The parts of a string with one more character in front. */
  function WithFirst(c: char, parts: seq<string>): seq<string>
    requires parts != []
  {
    if c == '/' then [""] + parts else [[c] + parts[0]] + parts[1..]
  }

  lemma SplitCons(c: char, t: string)
    ensures Split([c] + t, '/') == WithFirst(c, Split(t, '/'))
  {
    assert ([c] + t)[1..] == t;
  }

  lemma WithFirstAppend(c: char, a: seq<string>, b: seq<string>)
    requires a != []
    ensures WithFirst(c, a + b) == WithFirst(c, a) + b
  {
    assert (a + b)[0] == a[0] && (a + b)[1..] == a[1..] + b;
  }

  lemma {:induction false} SplitAtSlash(x: string, y: string)
    ensures Split(x + "/" + y, '/') == Split(x, '/') + Split(y, '/')
  {
    if x == "" {
      SplitCons('/', y);
      assert x + "/" + y == ['/'] + y;
    } else {
      var (c, t) := (x[0], x[1..]);
      SplitAtSlash(t, y);
      SplitCons(c, t + "/" + y);
      SplitCons(c, t);
      WithFirstAppend(c, Split(t, '/'), Split(y, '/'));
      assert x == [c] + t && x + "/" + y == [c] + (t + "/" + y);
    }
  }

  lemma SegmentsAtSlash(x: string, y: string)
    ensures Segments(x + "/" + y) == Segments(x) + Segments(y)
  {
    SplitAtSlash(x, y);
    NonEmptyAppend(Split(x, '/'), Split(y, '/'));
  }

  /** A second slash makes no segment. */
  lemma SecondSlash(x: string, y: string)
    ensures Segments(x + "/" + ("/" + y)) == Segments(x + "/" + y)
  {
    SegmentsAtSlash(x, "/" + y);
    SegmentsAtSlash(x, y);
    SegmentsAtSlash("", y);
    assert "" + "/" + y == "/" + y;
    assert Split("", '/') == [""] && [""][1..] == [];
    assert Segments("") == [];
  }

  lemma {:induction false} SegmentsOfKept(s: string, j: nat, y: string)
    requires j <= |s|
    ensures Segments(KeptPart(s, 0, j) + y) == Segments(s[..j] + y)
    decreases j
  {
    if j > 0 {
      var (t, c) := (KeptPart(s, 0, j - 1), s[j - 1]);
      SegmentsOfKept(s, j - 1, [c] + y);
      assert s[..j] + y == s[..j - 1] + ([c] + y);
      if Kept(s, j - 1) {
        assert KeptPart(s, 0, j) + y == t + ([c] + y);
      } else {
        LastKept(s, j - 1);
        var x := t[..|t| - 1];
        assert t == x + "/" && t + ([c] + y) == x + "/" + ("/" + y) && KeptPart(s, 0, j) + y == x + "/" + y;
        SecondSlash(x, y);
      }
    }
  }

  /** The segments of a path are those it had, in the same order. */
  lemma SegmentsKept(s: string)
    ensures Segments(Dedupe(s)) == Segments(s)
  {
    KeptExactly(s);
    SegmentsOfKept(s, |s|, "");
    assert s[..|s|] + "" == s && KeptPart(s, 0, |s|) + "" == KeptPart(s, 0, |s|);
  }

  // ---------- the loop ----------

  /** The loop of normalizeUrl keeps exactly these characters. */
  method DedupeSlashes(pathname: string) returns (result: string)
    ensures result == KeptPart(pathname, 0, |pathname|)
    ensures Segments(result) == Segments(pathname)
  {
    var lastIndex := 0;
    result := "";
    while true
      invariant AfterScheme(pathname, lastIndex)
      invariant Dedupe(pathname) == result + Dedupe(pathname[lastIndex..])
      decreases |pathname| - lastIndex
    {
      var found := Exec(pathname, lastIndex);
      if found.NoMatch? { break; }
      var protocol := pathname[found.start..found.end];
      var intermediate := pathname[lastIndex..found.start];
      OneRound(pathname, lastIndex);
      BehindScheme(pathname, found.start, found.end);
      Associate(result, Squeeze(intermediate), protocol, Dedupe(pathname[found.end..]));
      result := result + Squeeze(intermediate);
      result := result + protocol;
      lastIndex := found.end;
    }
    LastRound(pathname, lastIndex);
    result := result + Squeeze(pathname[lastIndex..]);
    KeptExactly(pathname);
    SegmentsKept(pathname);
  }
}
