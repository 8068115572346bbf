/** What getQueue returns after each operation when the positions are distinct but otherwise arbitrary: gaps,
    negative numbers, positions left on jobs that are not QUEUED. */
module PrintQueueGaps {
  import opened Common
  import opened PrintQueue
  import opened PrintQueueOrder
  import opened PrintQueueRuns

  predicate BothIn(jobs: Jobs, after: Jobs, p: Id, k: Id) {
    k in QueuedOn(jobs, p) && k in QueuedOn(after, p)
  }

  /** The rows of p's queue that are still there compare as they did. */
  ghost predicate QueueOrderKept(jobs: Jobs, after: Jobs, p: Id) {
    forall a, b :: BothIn(jobs, after, p, a) && BothIn(jobs, after, p, b) && Before(jobs, a, b) ==> Before(after, a, b)
  }

  /** In one queue, distinct positions alone decide which of two rows comes first. */
  lemma BeforeIsInFront(jobs: Jobs, p: Id, a: Id, b: Id)
    requires Distinct(jobs) && a in QueuedOn(jobs, p) && b in QueuedOn(jobs, p) && a != b
    ensures Before(jobs, a, b) <==> InFront(jobs[a], jobs[b])
  {
    assert !SamePlace(jobs[a], jobs[b]);
  }

  lemma DistinctKeepsQueueOrder(jobs: Jobs, after: Jobs, j: Id, p: Id)
    requires Distinct(jobs) && Distinct(after) && OrderKept(jobs, after, j)
    requires j !in QueuedOn(after, p) || j !in QueuedOn(jobs, p)
    ensures QueueOrderKept(jobs, after, p)
  {
    forall a, b | BothIn(jobs, after, p, a) && BothIn(jobs, after, p, b) && Before(jobs, a, b)
      ensures Before(after, a, b)
    {
      if a != b {
        BeforeIsInFront(jobs, p, a, b);
        BeforeIsInFront(after, p, a, b);
      }
    }
  }

  /** A queue that loses job j, if it was there, and keeps its order. */
  lemma QueueWithout(jobs: Jobs, after: Jobs, p: Id, j: Id)
    requires QueuedOn(after, p) == QueuedOn(jobs, p) - {j} && QueueOrderKept(jobs, after, p)
    ensures GetQueue(after, p) == Without(GetQueue(jobs, p), j)
  {
    var q := GetQueue(jobs, p);
    var r := Without(q, j);
    WithoutDeletes(q, j);
    if j in q {
      var i :| 0 <= i < |q| && q[i] == j;
      KeptSublist(jobs, after, p, q, i, r);
    } else {
      KeptList(jobs, after, p, q);
    }
    ListsUnique(r, GetQueue(after, p), QueuedOn(after, p), QueueOrder(after));
  }

  lemma KeptList(jobs: Jobs, after: Jobs, p: Id, q: seq<Id>)
    requires Lists(q, QueuedOn(jobs, p), QueueOrder(jobs)) && QueueOrderKept(jobs, after, p)
    requires QueuedOn(after, p) == QueuedOn(jobs, p)
    ensures Lists(q, QueuedOn(after, p), QueueOrder(after))
  {
    forall m, n | 0 <= m < n < |q| ensures QueueOrder(after)(q[m], q[n]) {
      assert QueueOrder(jobs)(q[m], q[n]) && q[m] in q && q[n] in q;
    }
  }

  lemma DeleteMember(q: seq<Id>, i: nat, k: Id)
    requires NoDuplicates(q) && i < |q|
    ensures k in DeleteAt(q, i) <==> k in q && k != q[i]
  {
    var r := DeleteAt(q, i);
    if k in q && k != q[i] {
      var m :| 0 <= m < |q| && q[m] == k;
      assert r[if m < i then m else m - 1] == k;
    }
  }

  lemma KeptSublist(jobs: Jobs, after: Jobs, p: Id, q: seq<Id>, i: nat, r: seq<Id>)
    requires Lists(q, QueuedOn(jobs, p), QueueOrder(jobs)) && QueueOrderKept(jobs, after, p)
    requires i < |q| && r == DeleteAt(q, i) && QueuedOn(after, p) == QueuedOn(jobs, p) - {q[i]}
    ensures Lists(r, QueuedOn(after, p), QueueOrder(after))
  {
    forall k ensures k in r <==> k in QueuedOn(after, p) { DeleteMember(q, i, k); }
    forall m, n | 0 <= m < n < |r| ensures QueueOrder(after)(r[m], r[n]) && r[m] != r[n] {
      var (a, b) := (if m < i then m else m + 1, if n < i then n else n + 1);
      assert r[m] == q[a] && r[n] == q[b] && QueueOrder(jobs)(q[a], q[b]);
      assert r[m] in r && r[n] in r;
      assert BothIn(jobs, after, p, r[m]) && BothIn(jobs, after, p, r[n]);
    }
  }

  /** Every row but j's is on the same printer in the same status, with a position if it had one; j is not queued. */
  ghost predicate TakenOut(jobs: Jobs, after: Jobs, j: Id) {
    && after.Keys == jobs.Keys && (j in jobs ==> after[j].status != QUEUED || !Positioned(after[j]))
    && forall k :: k in jobs && k != j ==> after[k].printerId == jobs[k].printerId && after[k].status == jobs[k].status
                                           && (Positioned(after[k]) <==> Positioned(jobs[k]))
  }

  lemma TakenOutOfQueue(jobs: Jobs, after: Jobs, j: Id, p: Id)
    requires Distinct(jobs) && Distinct(after) && OrderKept(jobs, after, j) && TakenOut(jobs, after, j)
    ensures GetQueue(after, p) == Without(GetQueue(jobs, p), j)
  {
    DistinctKeepsQueueOrder(jobs, after, j, p);
    QueueWithout(jobs, after, p, j);
  }

  /** removeFromQueue takes the job out of whichever queue it is in and leaves all queues as they were otherwise. */
  lemma RemoveTakesOut(jobs: Jobs, j: Id, p: Id)
    requires Distinct(jobs) && j in jobs
    ensures GetQueue(Remove(jobs, j).jobs, p) == Without(GetQueue(jobs, p), j)
  {
    RemoveKeepsOrder(jobs, j);
    RemovedRows(jobs, j);
    TakenOutOfQueue(jobs, Remove(jobs, j).jobs, j, p);
  }

  lemma RemovedRows(jobs: Jobs, j: Id)
    requires j in jobs
    ensures TakenOut(jobs, Remove(jobs, j).jobs, j)
  {
  }

  /** So does submitToPrinter, of a job that stands in no other printer's queue or whose gap can be closed. */
  lemma SubmitTakesOut(jobs: Jobs, r: Id, j: Id, p: Id)
    requires Distinct(jobs) && j in jobs && Assignable(jobs[j], r) && GapIsClosable(jobs, r, j)
    ensures GetQueue(Submit(jobs, r, j).jobs, p) == Without(GetQueue(jobs, p), j)
  {
    SubmitKeepsOrderIff(jobs, r, j);
    SubmittedRows(jobs, r, j);
    TakenOutOfQueue(jobs, Submit(jobs, r, j).jobs, j, p);
  }

  lemma SubmittedRows(jobs: Jobs, r: Id, j: Id)
    requires j in jobs && Assignable(jobs[j], r)
    ensures TakenOut(jobs, Submit(jobs, r, j).jobs, j)
  {
  }

  /** The end of an upload takes the job out if it dequeues or fails it, and leaves the queues alone otherwise. */
  lemma FinishTakesOut(jobs: Jobs, s: Submission, uploaded: bool, p: Id)
    requires Distinct(jobs) && s.jobId in jobs && OnPrinter(jobs[s.jobId], s.printerId)
    ensures GetQueue(FinishUpload(jobs, s, uploaded), p)
            == if uploaded && s.hasFile && !Dequeues(jobs, s, uploaded) then GetQueue(jobs, p)
               else Without(GetQueue(jobs, p), s.jobId)
  {
    if !(uploaded && s.hasFile) || Dequeues(jobs, s, uploaded) {
      FinishKeepsDistinctIff(jobs, s, uploaded);
      FinishedRows(jobs, s, uploaded);
      TakenOutOfQueue(jobs, FinishUpload(jobs, s, uploaded), s.jobId, p);
    }
  }

  lemma FinishedRows(jobs: Jobs, s: Submission, uploaded: bool)
    requires Distinct(jobs) && s.jobId in jobs && OnPrinter(jobs[s.jobId], s.printerId)
    requires !(uploaded && s.hasFile) || Dequeues(jobs, s, uploaded)
    ensures var after := FinishUpload(jobs, s, uploaded);
            TakenOut(jobs, after, s.jobId) && OrderKept(jobs, after, s.jobId)
  {
    if Dequeues(jobs, s, uploaded) {
      OwnPlaceIsSafe(jobs, s.printerId, s.jobId, s.queuePosition.value);
      VacateKeepsOrderIff(jobs, s.printerId, s.jobId, s.queuePosition.value);
    }
  }

  /** Deleting a job takes it out of its queue, whatever the positions are; the gap stays. */
  lemma DeletionTakesOut(jobs: Jobs, j: Id, p: Id)
    ensures GetQueue(jobs - {j}, p) == Without(GetQueue(jobs, p), j)
  {
    assert QueuedOn(jobs - {j}, p) == QueuedOn(jobs, p) - {j};
    QueueWithout(jobs, jobs - {j}, p, j);
  }

  // ---------- adding ----------

  predicate AllPositioned(jobs: Jobs, q: seq<Id>) {
    forall n :: 0 <= n < |q| ==> q[n] in jobs && Positioned(jobs[q[n]])
  }

  /** The index of the first row whose position is at least `from`. */
  function FirstFrom(jobs: Jobs, q: seq<Id>, from: int): (i: nat)
    requires AllPositioned(jobs, q)
    ensures i <= |q| && (i < |q| ==> jobs[q[i]].queuePosition.value >= from)
    ensures forall n :: 0 <= n < i ==> jobs[q[n]].queuePosition.value < from
  {
    if q == [] || jobs[q[0]].queuePosition.value >= from then 0 else FirstFrom(jobs, q[1..], from) + 1
  }

  /** Where an added job comes to stand in the rest of the queue: in front of the first row at or behind the
      requested position, or at the end. */
  function AddedAt(jobs: Jobs, q: seq<Id>, position: Option<int>): (i: nat)
    requires AllPositioned(jobs, q)
    ensures i <= |q|
  {
    if position.Some? then FirstFrom(jobs, q, position.value) else |q|
  }

  lemma WithoutMember(q: seq<Id>, j: Id, k: Id)
    requires NoDuplicates(q)
    ensures k in Without(q, j) <==> k in q && k != j
  {
    WithoutDeletes(q, j);
    if j in q {
      var i :| 0 <= i < |q| && q[i] == j;
      DeleteMember(q, i, k);
    }
  }

  lemma WithoutSorted(q: seq<Id>, j: Id, leq: (Id, Id) -> bool)
    requires NoDuplicates(q) && Sorted(q, leq)
    ensures Sorted(Without(q, j), leq)
  {
    WithoutDeletes(q, j);
    if j in q {
      var i :| 0 <= i < |q| && q[i] == j;
      forall m, n | 0 <= m < n < |q| - 1 ensures leq(DeleteAt(q, i)[m], DeleteAt(q, i)[n]) {
        var (a, b) := (if m < i then m else m + 1, if n < i then n else n + 1);
        assert leq(q[a], q[b]);
      }
    }
  }

  /** The rows around the added job: those with smaller positions in front of it, the others behind. */
  lemma AddedRow(jobs: Jobs, p: Id, j: Id, position: Option<int>, k: Id)
    requires j in jobs && Assignable(jobs[j], p) && k in jobs
    ensures var row := Add(jobs, p, j, position).jobs[k];
            if k == j then OnPrinter(row, p) && row.status == QUEUED && Positioned(row)
            else row.printerId == jobs[k].printerId && row.status == jobs[k].status
                 && (Positioned(row) <==> Positioned(jobs[k]))
    ensures k != j && OnPrinter(jobs[k], p) && Positioned(jobs[k]) ==>
              var after := Add(jobs, p, j, position).jobs;
              if position.None? || jobs[k].queuePosition.value < position.value then InFront(after[k], after[j])
              else InFront(after[j], after[k])
  {
    if position.None? && OnPrinter(jobs[k], p) && Positioned(jobs[k]) { assert k in PositionedOn(jobs, p); }
  }

  lemma PlacedLists(after: Jobs, p: Id, j: Id, rest: seq<Id>, i: nat)
    requires j in QueuedOn(after, p) && i <= |rest|
    requires Lists(rest, QueuedOn(after - {j}, p), QueueOrder(after - {j}))
    requires forall n :: 0 <= n < i ==> Before(after, rest[n], j)
    requires forall n :: i <= n < |rest| ==> Before(after, j, rest[n])
    ensures GetQueue(after, p) == InsertAt(rest, i, j)
  {
    var q := InsertAt(rest, i, j);
    forall k ensures k in q <==> k in QueuedOn(after, p) {
      if k in QueuedOn(after, p) && k != j { assert k in QueuedOn(after - {j}, p) && k in rest; }
      if k in rest { assert k in QueuedOn(after - {j}, p); }
    }
    forall m, n | 0 <= m < n < |q| ensures QueueOrder(after)(q[m], q[n]) && q[m] != q[n] {
      if m != i && n != i {
        var (a, b) := (if m < i then m else m - 1, if n < i then n else n - 1);
        assert q[m] == rest[a] && q[n] == rest[b] && QueueOrder(after - {j})(rest[a], rest[b]);
        assert rest[a] in rest && rest[b] in rest;
      } else {
        assert rest[if m == i then n - 1 else m] in rest;
      }
    }
    ListsUnique(q, GetQueue(after, p), QueuedOn(after, p), QueueOrder(after));
  }

  lemma RestOrderKept(jobs: Jobs, after: Jobs, j: Id, p: Id)
    requires Distinct(jobs) && Distinct(after) && OrderKept(jobs, after, j)
    ensures QueueOrderKept(jobs, after - {j}, p)
  {
    forall a, b | BothIn(jobs, after - {j}, p, a) && BothIn(jobs, after - {j}, p, b) && Before(jobs, a, b)
      ensures Before(after - {j}, a, b)
    {
      assert a in QueuedOn(after, p) && b in QueuedOn(after, p);
      if a != b {
        BeforeIsInFront(jobs, p, a, b);
        BeforeIsInFront(after, p, a, b);
      }
    }
  }

  lemma RestRows(jobs: Jobs, p: Id, j: Id, position: Option<int>, r: Id)
    requires j in jobs && Assignable(jobs[j], p)
    ensures QueuedOn(Add(jobs, p, j, position).jobs - {j}, r) == QueuedOn(jobs, r) - {j}
  {
    var rest := Add(jobs, p, j, position).jobs - {j};
    forall k ensures k in QueuedOn(rest, r) <==> k in QueuedOn(jobs, r) - {j} {
      if k in jobs { AddedRow(jobs, p, j, position, k); }
    }
  }

  /** Without the added job, the queue is what it was. */
  lemma RestStays(jobs: Jobs, p: Id, j: Id, position: Option<int>)
    requires Distinct(jobs) && j in jobs && Assignable(jobs[j], p)
    ensures GetQueue(Add(jobs, p, j, position).jobs - {j}, p) == Without(GetQueue(jobs, p), j)
  {
    var after := Add(jobs, p, j, position).jobs;
    AddKeepsOrder(jobs, p, j, position);
    RestOrderKept(jobs, after, j, p);
    RestRows(jobs, p, j, position, p);
    QueueWithout(jobs, after - {j}, p, j);
  }

  /** Behind the first row at or behind `from`, all rows are. */
  lemma FirstFromOrdered(jobs: Jobs, p: Id, q: seq<Id>, from: int, n: nat)
    requires AllPositioned(jobs, q) && (forall m :: 0 <= m < |q| ==> OnPrinter(jobs[q[m]], p))
    requires Sorted(q, QueueOrder(jobs)) && n < |q|
    ensures jobs[q[n]].queuePosition.value < from <==> n < FirstFrom(jobs, q, from)
  {
    var i := FirstFrom(jobs, q, from);
    if i < n { assert QueueOrder(jobs)(q[i], q[n]); }
  }

  /** The job stands in the rest of the queue where it should. */
  lemma AddedBetween(jobs: Jobs, p: Id, j: Id, position: Option<int>, rest: seq<Id>, n: nat)
    requires j in jobs && Assignable(jobs[j], p) && j !in rest && n < |rest|
    requires AllPositioned(jobs, rest) && (forall m :: 0 <= m < |rest| ==> OnPrinter(jobs[rest[m]], p))
    requires Sorted(rest, QueueOrder(jobs))
    ensures var after := Add(jobs, p, j, position).jobs;
            if n < AddedAt(jobs, rest, position) then Before(after, rest[n], j) else Before(after, j, rest[n])
  {
    if position.Some? { FirstFromOrdered(jobs, p, rest, position.value, n); }
    assert rest[n] in rest;
    AddedRow(jobs, p, j, position, rest[n]);
    InFrontIsBefore(Add(jobs, p, j, position).jobs, rest[n], j);
  }

  lemma InFrontIsBefore(jobs: Jobs, a: Id, b: Id)
    requires a in jobs && b in jobs
    ensures InFront(jobs[a], jobs[b]) ==> Before(jobs, a, b)
    ensures InFront(jobs[b], jobs[a]) ==> Before(jobs, b, a)
  {
  }

  lemma RestOfQueue(jobs: Jobs, p: Id, j: Id)
    ensures var rest := Without(GetQueue(jobs, p), j);
            && AllPositioned(jobs, rest) && (forall m :: 0 <= m < |rest| ==> OnPrinter(jobs[rest[m]], p))
            && Sorted(rest, QueueOrder(jobs)) && j !in rest
  {
    var (q, rest) := (GetQueue(jobs, p), Without(GetQueue(jobs, p), j));
    WithoutSorted(q, j, QueueOrder(jobs));
    WithoutMember(q, j, j);
    forall m | 0 <= m < |rest| ensures rest[m] in QueuedOn(jobs, p) {
      assert rest[m] in rest;
      WithoutMember(q, j, rest[m]);
    }
  }

  /** addToQueue moves the job, queued before or not, to its place; the other queues stay as they are. */
  lemma AddPlaces(jobs: Jobs, p: Id, j: Id, position: Option<int>)
    requires Distinct(jobs) && j in jobs && Assignable(jobs[j], p)
    ensures AllPositioned(jobs, Without(GetQueue(jobs, p), j))
    ensures var (after, rest) := (Add(jobs, p, j, position).jobs, Without(GetQueue(jobs, p), j));
            GetQueue(after, p) == InsertAt(rest, AddedAt(jobs, rest, position), j)
    ensures forall r :: r != p ==> GetQueue(Add(jobs, p, j, position).jobs, r) == GetQueue(jobs, r)
  {
    var (after, rest) := (Add(jobs, p, j, position).jobs, Without(GetQueue(jobs, p), j));
    RestOfQueue(jobs, p, j);
    RestStays(jobs, p, j, position);
    AddedRow(jobs, p, j, position, j);
    var i := AddedAt(jobs, rest, position);
    forall n | 0 <= n < |rest| ensures if n < i then Before(after, rest[n], j) else Before(after, j, rest[n]) {
      AddedBetween(jobs, p, j, position, rest, n);
    }
    PlacedLists(after, p, j, rest, i);
    forall r | r != p ensures GetQueue(after, r) == GetQueue(jobs, r) { OtherQueueStays(jobs, p, j, position, r); }
  }

  lemma OtherQueueStays(jobs: Jobs, p: Id, j: Id, position: Option<int>, r: Id)
    requires Distinct(jobs) && j in jobs && Assignable(jobs[j], p) && r != p
    ensures GetQueue(Add(jobs, p, j, position).jobs, r) == GetQueue(jobs, r)
  {
    var after := Add(jobs, p, j, position).jobs;
    AddKeepsOrder(jobs, p, j, position);
    forall k ensures k in QueuedOn(after, r) <==> k in QueuedOn(jobs, r) - {j} {
      if k in jobs { AddedRow(jobs, p, j, position, k); }
    }
    DistinctKeepsQueueOrder(jobs, after, j, r);
    QueueWithout(jobs, after, r, j);
    WithoutStranger(GetQueue(jobs, r), j);
  }
}
