/** Shared vocabulary: optional values, database ids, and sorting a set of ids. */
module Common {

  datatype Option<+T> = None | Some(value: T)

  /** Primary keys are generated by AUTOINCREMENT, so they are never zero or negative. */
  type Id = n: int | 0 < n witness 1

  /** A sequence in which no element occurs twice. */
  ghost predicate NoDuplicates<T>(s: seq<T>) {
    forall i, j :: 0 <= i < j < |s| ==> s[i] != s[j]
  }

  lemma AppendNoDuplicates<T>(s: seq<T>, x: T)
    requires NoDuplicates(s) && x !in s
    ensures NoDuplicates(s + [x])
  {
  }

  ghost predicate TotalOrder(leq: (Id, Id) -> bool) {
    && (forall a, b :: leq(a, b) || leq(b, a))
    && (forall a, b :: leq(a, b) && leq(b, a) ==> a == b)
    && (forall a, b, c :: leq(a, b) && leq(b, c) ==> leq(a, c))
  }

  function Ascending(): (leq: (Id, Id) -> bool)
    ensures TotalOrder(leq)
    ensures forall a, b :: leq(a, b) <==> a <= b
  {
    (a: Id, b: Id) => a <= b
  }

  ghost predicate Sorted(s: seq<Id>, leq: (Id, Id) -> bool) {
    forall i, j :: 0 <= i < j < |s| ==> leq(s[i], s[j])
  }

  /** `s` lists the elements of `xs`, each once, in increasing order. */
  ghost predicate Lists(s: seq<Id>, xs: set<Id>, leq: (Id, Id) -> bool) {
    && Sorted(s, leq)
    && NoDuplicates(s)
    && (forall x :: x in s <==> x in xs)
  }

  lemma {:induction false} LeastExists(xs: set<Id>, leq: (Id, Id) -> bool)
    requires TotalOrder(leq) && xs != {}
    ensures exists m :: m in xs && forall x :: x in xs ==> leq(m, x)
  {
    var y :| y in xs;
    if xs - {y} == {} {
      assert xs == {y};
    } else {
      LeastExists(xs - {y}, leq);
      var m :| m in xs - {y} && forall x :: x in xs - {y} ==> leq(m, x);
      var l := if leq(y, m) then y else m;
      assert l in xs && forall x :: x in xs ==> leq(l, x) by {
        forall x | x in xs ensures leq(l, x) {
          if x != y { assert x in xs - {y}; }
        }
      }
    }
  }

  /** ORDER BY: the elements of a finite set in increasing order. */
  function SortBy(xs: set<Id>, leq: (Id, Id) -> bool): (s: seq<Id>)
    requires TotalOrder(leq)
    ensures Lists(s, xs, leq)
    decreases |xs|
  {
    if xs == {} then [] else
      LeastExists(xs, leq);
      var m :| m in xs && forall x :: x in xs ==> leq(m, x);
      [m] + SortBy(xs - {m}, leq)
  }

  lemma {:induction false} ListsLength(s: seq<Id>, xs: set<Id>, leq: (Id, Id) -> bool)
    requires Lists(s, xs, leq)
    ensures |s| == |xs|
  {
    if s == [] {
      assert xs == {};
    } else {
      assert s[0] in s;
      ListsTail(s, xs, leq);
      ListsLength(s[1..], xs - {s[0]}, leq);
    }
  }

  /** There is only one way to list a set in increasing order. */
  lemma {:induction false} ListsUnique(s: seq<Id>, t: seq<Id>, xs: set<Id>, leq: (Id, Id) -> bool)
    requires TotalOrder(leq)
    requires Lists(s, xs, leq) && Lists(t, xs, leq)
    ensures s == t
  {
    ListsLength(s, xs, leq);
    ListsLength(t, xs, leq);
    if s != [] {
      assert s[0] in s && s[0] in t;
      assert t[0] in t && t[0] in s;
      assert s[0] == t[0];
      ListsTail(s, xs, leq);
      ListsTail(t, xs, leq);
      ListsUnique(s[1..], t[1..], xs - {s[0]}, leq);
      assert s == [s[0]] + s[1..] && t == [t[0]] + t[1..];
    }
  }

  lemma ListsTail(s: seq<Id>, xs: set<Id>, leq: (Id, Id) -> bool)
    requires s != [] && Lists(s, xs, leq)
    ensures Lists(s[1..], xs - {s[0]}, leq)
  {
    assert s == [s[0]] + s[1..];
  }

  /** Insertion into, and deletion from, a list at an index. */
  function InsertAt<T>(s: seq<T>, i: nat, x: T): (r: seq<T>)
    requires i <= |s|
    ensures |r| == |s| + 1
  {
    s[..i] + [x] + s[i..]
  }

  function DeleteAt<T>(s: seq<T>, i: nat): (r: seq<T>)
    requires i < |s|
    ensures |r| == |s| - 1
  {
    s[..i] + s[i + 1..]
  }
}
