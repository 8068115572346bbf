/** Each operation of the print queue, seen as the corresponding operation on a plain list of jobs. */
module PrintQueueLists {
  import opened Common
  import opened PrintQueue

  predicate At(jobs: Jobs, p: Id, k: Id, i: int) {
    k in jobs && OnPrinter(jobs[k], p) && jobs[k].queuePosition == Some(i)
  }

  /** Printer p's rows hold the list q: its jobs are QUEUED at positions 0, 1, ..., |q| - 1, and
      no other job of p is QUEUED or holds a position. */
  ghost predicate Represents(jobs: Jobs, p: Id, q: seq<Id>) {
    && (forall i :: 0 <= i < |q| ==> At(jobs, p, q[i], i) && jobs[q[i]].status == QUEUED)
    && (forall k :: k in jobs && OnPrinter(jobs[k], p) && (Positioned(jobs[k]) || jobs[k].status == QUEUED) ==> k in q)
  }

  /** Nothing but job j and the jobs of printer p may differ. */
  ghost predicate OthersKept(jobs: Jobs, after: Jobs, p: Id, j: Id) {
    && after.Keys == jobs.Keys
    && (forall k :: k in jobs && k != j && !OnPrinter(jobs[k], p) ==> after[k] == jobs[k])
    && (forall k :: k in jobs && k != j ==> after[k].printerId == jobs[k].printerId)
  }

  lemma RepresentsDistinct(jobs: Jobs, p: Id, q: seq<Id>)
    requires Represents(jobs, p, q)
    ensures NoDuplicates(q)
  {
    forall i, j | 0 <= i < j < |q| ensures q[i] != q[j] {
      assert At(jobs, p, q[i], i) && At(jobs, p, q[j], j);
    }
  }

  /** getQueue returns the list itself, and getNextInQueue its head. */
  lemma GetQueueIsList(jobs: Jobs, p: Id, q: seq<Id>)
    requires Represents(jobs, p, q)
    ensures GetQueue(jobs, p) == q
  {
    RepresentsDistinct(jobs, p, q);
    forall i, j | 0 <= i < j < |q| ensures QueueOrder(jobs)(q[i], q[j]) {
      assert At(jobs, p, q[i], i) && At(jobs, p, q[j], j);
      assert Before(jobs, q[i], q[j]);
    }
    forall k ensures k in q <==> k in QueuedOn(jobs, p) {
      if k in q { var i :| 0 <= i < |q| && q[i] == k; assert At(jobs, p, q[i], i); }
    }
    ListsUnique(q, GetQueue(jobs, p), QueuedOn(jobs, p), QueueOrder(jobs));
  }

  /** A printer's rows hold at most one list. */
  lemma RepresentsUnique(jobs: Jobs, p: Id, q: seq<Id>, r: seq<Id>)
    requires Represents(jobs, p, q) && Represents(jobs, p, r)
    ensures q == r
  {
    GetQueueIsList(jobs, p, q);
    GetQueueIsList(jobs, p, r);
  }

  lemma MaxOfList(jobs: Jobs, p: Id, q: seq<Id>)
    requires Represents(jobs, p, q)
    ensures MaxPosition(jobs, p) == if q == [] then None else Some(|q| - 1)
  {
    forall k | k in PositionedOn(jobs, p) ensures k in q && jobs[k].queuePosition.value < |q| {
      var i :| 0 <= i < |q| && q[i] == k;
      assert At(jobs, p, q[i], i);
    }
    if q != [] {
      assert At(jobs, p, q[|q| - 1], |q| - 1);
      assert q[|q| - 1] in PositionedOn(jobs, p);
    }
  }

  /** Where a job lands: at the given index, or at the end. */
  function Landing(q: seq<Id>, position: Option<int>): int {
    if position.Some? then position.value else |q|
  }

  /** The rows after making room at `at` and putting job j there. */
  function Inserted(jobs: Jobs, p: Id, j: Id, at: int): Jobs
    requires j in jobs
  {
    Shift(jobs, p, at)[j := jobs[j].(printerId := Some(p), queuePosition := Some(at), status := QUEUED)]
  }

  /** Appending behind a list needs no shift, so it is insertion at the end. */
  lemma AddIsInsertion(jobs: Jobs, p: Id, q: seq<Id>, j: Id, position: Option<int>)
    requires Represents(jobs, p, q)
    requires j in jobs && Assignable(jobs[j], p)
    ensures Add(jobs, p, j, position) == Ok(Inserted(jobs, p, j, Landing(q, position)))
  {
    MaxOfList(jobs, p, q);
    if position.None? {
      forall k | k in jobs && OnPrinter(jobs[k], p) && Positioned(jobs[k]) ensures jobs[k].queuePosition.value < |q| {
        var i := IndexOf(jobs, p, q, k);
      }
      assert Shift(jobs, p, |q|) == jobs;
    }
  }

  lemma InsertedList(jobs: Jobs, p: Id, q: seq<Id>, j: Id, at: nat)
    requires Represents(jobs, p, q)
    requires j in jobs && Assignable(jobs[j], p) && j !in q && at <= |q|
    ensures Represents(Inserted(jobs, p, j, at), p, InsertAt(q, at, j))
  {
    var (after, r) := (Inserted(jobs, p, j, at), InsertAt(q, at, j));
    forall i | 0 <= i < |r| ensures At(after, p, r[i], i) && after[r[i]].status == QUEUED {
      if i < at { assert r[i] == q[i] && At(jobs, p, q[i], i); }
      else if i > at { assert r[i] == q[i - 1] && At(jobs, p, q[i - 1], i - 1); }
    }
    forall k | k in after && OnPrinter(after[k], p) && (Positioned(after[k]) || after[k].status == QUEUED)
      ensures k in r
    {
      if k == j { assert r[at] == j; } else {
        var i := IndexOf(jobs, p, q, k);
        assert r[if i < at then i else i + 1] == k;
      }
    }
  }

  /** Adding a job that is not in the list inserts it: in front of index `position`, or at the end. */
  lemma AddInserts(jobs: Jobs, p: Id, q: seq<Id>, j: Id, position: Option<int>)
    requires Represents(jobs, p, q)
    requires j in jobs && Assignable(jobs[j], p) && j !in q
    requires 0 <= Landing(q, position) <= |q|
    ensures Add(jobs, p, j, position).Ok?
    ensures Represents(Add(jobs, p, j, position).jobs, p, InsertAt(q, Landing(q, position), j))
    ensures OthersKept(jobs, Add(jobs, p, j, position).jobs, p, j)
  {
    AddIsInsertion(jobs, p, q, j, position);
    InsertedList(jobs, p, q, j, Landing(q, position));
  }

  /** Inserting outside 0..n is accepted by the service, but leaves no list behind. */
  lemma AddKeepsDensityIff(jobs: Jobs, p: Id, q: seq<Id>, j: Id, position: Option<int>)
    requires Represents(jobs, p, q)
    requires j in jobs && Assignable(jobs[j], p) && j !in q
    ensures (exists r :: Represents(Add(jobs, p, j, position).jobs, p, r)) <==> 0 <= Landing(q, position) <= |q|
  {
    var after := Add(jobs, p, j, position).jobs;
    if 0 <= Landing(q, position) <= |q| {
      AddInserts(jobs, p, q, j, position);
    }
    if exists r :: Represents(after, p, r) {
      var r :| Represents(after, p, r);
      ListTellsLanding(jobs, p, q, j, position, r);
    }
  }

  lemma ListTellsLanding(jobs: Jobs, p: Id, q: seq<Id>, j: Id, position: Option<int>, r: seq<Id>)
    requires Represents(jobs, p, q)
    requires j in jobs && Assignable(jobs[j], p) && j !in q
    requires Represents(Add(jobs, p, j, position).jobs, p, r)
    ensures 0 <= Landing(q, position) <= |q|
  {
    MaxOfList(jobs, p, q);
    var after := Add(jobs, p, j, position).jobs;
    var i := IndexOf(after, p, r, j);
    // What now lies in front of j lay at the same position before.
    if i > 0 {
      assert At(after, p, r[i - 1], i - 1);
      var m := IndexOf(jobs, p, q, r[i - 1]);
    }
  }

  lemma IndexOf(jobs: Jobs, p: Id, q: seq<Id>, j: Id) returns (i: nat)
    requires Represents(jobs, p, q) && j in q
    ensures i < |q| && q[i] == j && At(jobs, p, j, i)
  {
    i :| 0 <= i < |q| && q[i] == j;
    assert At(jobs, p, q[i], i);
  }

  /** Vacating the place of a listed job deletes it from the list. */
  lemma VacateDeletes(jobs: Jobs, p: Id, q: seq<Id>, i: nat, before: Jobs)
    requires Represents(before, p, q) && i < |q|
    requires jobs.Keys == before.Keys && jobs[q[i]].status != QUEUED
    requires jobs == before[q[i] := jobs[q[i]]]
    requires jobs[q[i]].printerId == Some(p)
    ensures Represents(Vacate(jobs, p, q[i], i), p, DeleteAt(q, i))
    ensures OthersKept(before, Vacate(jobs, p, q[i], i), p, q[i])
  {
    var after := Vacate(jobs, p, q[i], i);
    var r := DeleteAt(q, i);
    RepresentsDistinct(before, p, q);
    forall n | 0 <= n < |r| ensures At(after, p, r[n], n) && after[r[n]].status == QUEUED {
      var m := if n < i then n else n + 1;
      assert r[n] == q[m] && At(before, p, q[m], m) && q[m] != q[i];
    }
    forall k | k in after && OnPrinter(after[k], p) && (Positioned(after[k]) || after[k].status == QUEUED)
      ensures k in r
    {
      assert k != q[i];
      var m := IndexOf(before, p, q, k);
      assert r[if m < i then m else m - 1] == k;
    }
  }

  /** removeFromQueue deletes the job from its printer's list and makes it PENDING. */
  lemma RemoveDeletes(jobs: Jobs, p: Id, q: seq<Id>, i: nat)
    requires Represents(jobs, p, q) && i < |q|
    ensures Remove(jobs, q[i]).Ok?
    ensures Represents(Remove(jobs, q[i]).jobs, p, DeleteAt(q, i))
    ensures OthersKept(jobs, Remove(jobs, q[i]).jobs, p, q[i])
    ensures Remove(jobs, q[i]).jobs[q[i]] == jobs[q[i]].(status := PENDING, queuePosition := None)
  {
    assert At(jobs, p, q[i], i);
    var j := q[i];
    VacateDeletes(jobs[j := jobs[j].(status := PENDING)], p, q, i, jobs);
  }

  /** submitToPrinter deletes the job from the list and makes it PRINTING. */
  lemma SubmitDeletes(jobs: Jobs, p: Id, q: seq<Id>, i: nat)
    requires Represents(jobs, p, q) && i < |q|
    ensures Submit(jobs, p, q[i]).Ok?
    ensures Represents(Submit(jobs, p, q[i]).jobs, p, DeleteAt(q, i))
    ensures OthersKept(jobs, Submit(jobs, p, q[i]).jobs, p, q[i])
    ensures Submit(jobs, p, q[i]).jobs[q[i]] == jobs[q[i]].(status := PRINTING, queuePosition := None)
  {
    assert At(jobs, p, q[i], i);
    var j := q[i];
    VacateDeletes(jobs[j := jobs[j].(printerId := Some(p), status := PRINTING)], p, q, i, jobs);
  }

  /** clearQueue empties the list. */
  lemma ClearEmpties(jobs: Jobs, p: Id, q: seq<Id>)
    requires Represents(jobs, p, q)
    ensures Represents(Clear(jobs, p), p, [])
    ensures forall k :: k in q ==> Clear(jobs, p)[k] == jobs[k].(status := PENDING, queuePosition := None)
    ensures forall k :: k in jobs && k !in q ==> Clear(jobs, p)[k] == jobs[k]
  {
    forall k | k in q ensures QueuedJob(jobs[k], p) {
      var i := IndexOf(jobs, p, q, k);
    }
  }

  // ---------- reorderQueue ----------

  /** The index of the last occurrence of j among the first n ids, or -1. */
  function LastIndex(ids: seq<Id>, j: Id, n: nat): (r: int)
    requires n <= |ids|
    ensures -1 <= r < n
    ensures r >= 0 ==> ids[r] == j
    ensures forall i :: r < i < n ==> ids[i] != j
  {
    if n == 0 then -1 else if ids[n - 1] == j then n - 1 else LastIndex(ids, j, n - 1)
  }

  /** What the reorder loop leaves behind: a job of p takes the index of its last mention. */
  lemma {:induction false} ReorderPrefixAt(jobs: Jobs, p: Id, ids: seq<Id>, n: nat, k: Id)
    requires n <= |ids| && k in jobs
    ensures ReorderPrefix(jobs, p, ids, n)[k] ==
            if OnPrinter(jobs[k], p) && LastIndex(ids, k, n) >= 0
            then jobs[k].(queuePosition := Some(LastIndex(ids, k, n))) else jobs[k]
  {
    if n > 0 { ReorderPrefixAt(jobs, p, ids, n - 1, k); }
  }

  /** Reordering by a permutation of the list installs that permutation. */
  lemma ReorderInstalls(jobs: Jobs, p: Id, q: seq<Id>, ids: seq<Id>)
    requires Represents(jobs, p, q)
    requires NoDuplicates(ids) && forall k :: k in ids <==> k in q
    ensures Represents(Reorder(jobs, p, ids), p, ids)
    ensures forall k :: k in jobs && k !in q ==> Reorder(jobs, p, ids)[k] == jobs[k]
  {
    var after := Reorder(jobs, p, ids);
    forall k | k in jobs
      ensures after[k] == if OnPrinter(jobs[k], p) && LastIndex(ids, k, |ids|) >= 0
                          then jobs[k].(queuePosition := Some(LastIndex(ids, k, |ids|))) else jobs[k]
    {
      ReorderPrefixAt(jobs, p, ids, |ids|, k);
    }
    forall i | 0 <= i < |ids| ensures At(after, p, ids[i], i) && after[ids[i]].status == QUEUED {
      assert ids[i] in ids;
      var m := IndexOf(jobs, p, q, ids[i]);
      assert LastIndex(ids, ids[i], |ids|) == i;
    }
  }
}
