/** What the queue operations guarantee for arbitrary positions: gaps, negative numbers, jobs that
    are not QUEUED, jobs added twice. */
module PrintQueueOrder {
  import opened Common
  import opened PrintQueue
  import opened PrintQueueLists

  predicate SamePlace(a: Job, b: Job) {
    a.printerId.Some? && a.printerId == b.printerId && a.queuePosition.Some? && a.queuePosition == b.queuePosition
  }

  /** No two jobs of one printer share a position. */
  ghost predicate Distinct(jobs: Jobs) {
    forall a, b :: a in jobs && b in jobs && a != b ==> !SamePlace(jobs[a], jobs[b])
  }

  predicate InFront(a: Job, b: Job) {
    && a.printerId.Some? && a.printerId == b.printerId
    && a.queuePosition.Some? && b.queuePosition.Some? && a.queuePosition.value < b.queuePosition.value
  }

  /** The jobs other than j stand in the same relative order as before. */
  ghost predicate OrderKept(jobs: Jobs, after: Jobs, j: Id) {
    && after.Keys == jobs.Keys
    && forall a, b :: a in jobs && b in jobs && a != j && b != j ==>
        (InFront(jobs[a], jobs[b]) <==> InFront(after[a], after[b]))
  }

  /** Adding a job, queued already or not, at any position keeps positions distinct and the others in order. */
  lemma AddKeepsOrder(jobs: Jobs, p: Id, j: Id, position: Option<int>)
    requires j in jobs && Assignable(jobs[j], p)
    ensures OrderKept(jobs, Add(jobs, p, j, position).jobs, j)
    ensures Distinct(jobs) ==> Distinct(Add(jobs, p, j, position).jobs)
  {
    if position.Some? { InsertKeepsOrder(jobs, p, j, position.value); } else { AppendKeepsOrder(jobs, p, j); }
  }

  lemma InsertKeepsOrder(jobs: Jobs, p: Id, j: Id, at: int)
    requires j in jobs && Assignable(jobs[j], p)
    ensures OrderKept(jobs, Add(jobs, p, j, Some(at)).jobs, j)
    ensures Distinct(jobs) ==> Distinct(Add(jobs, p, j, Some(at)).jobs)
  {
    var (shifted, after) := (Shift(jobs, p, at), Add(jobs, p, j, Some(at)).jobs);
    forall a, b | a in jobs && b in jobs && a != j && b != j
      ensures InFront(jobs[a], jobs[b]) <==> InFront(after[a], after[b])
      ensures SamePlace(jobs[a], jobs[b]) <==> SamePlace(after[a], after[b])
    {
      ShiftPair(jobs, p, at, a, b);
      assert after[a] == shifted[a] && after[b] == shifted[b];
    }
    forall a | a in jobs && a != j ensures !SamePlace(after[a], after[j]) && !SamePlace(after[j], after[a]) {
      assert after[a] == shifted[a];
    }
  }

  /** Shifting keeps order and distinctness, and leaves `from` free. */
  lemma ShiftPair(jobs: Jobs, p: Id, from: int, a: Id, b: Id)
    requires a in jobs && b in jobs
    ensures InFront(jobs[a], jobs[b]) <==> InFront(Shift(jobs, p, from)[a], Shift(jobs, p, from)[b])
    ensures SamePlace(jobs[a], jobs[b]) <==> SamePlace(Shift(jobs, p, from)[a], Shift(jobs, p, from)[b])
  {
  }

  lemma AppendKeepsOrder(jobs: Jobs, p: Id, j: Id)
    requires j in jobs && Assignable(jobs[j], p)
    ensures OrderKept(jobs, Add(jobs, p, j, None).jobs, j)
    ensures Distinct(jobs) ==> Distinct(Add(jobs, p, j, None).jobs)
  {
    var after := Add(jobs, p, j, None).jobs;
    assert forall k :: k in jobs && k != j ==> after[k] == jobs[k];
    forall k | k in jobs && k != j ensures !SamePlace(after[j], jobs[k]) {
      assert k in PositionedOn(jobs, p) || !OnPrinter(jobs[k], p) || !Positioned(jobs[k]);
    }
  }

  /** Some job of p other than j holds position c. */
  ghost predicate HeldByOther(jobs: Jobs, p: Id, j: Id, c: int) {
    exists k :: k != j && At(jobs, p, k, c)
  }

  /** Two neighbouring jobs that closing a gap at c would push onto one another. */
  ghost predicate Collides(jobs: Jobs, p: Id, j: Id, c: int) {
    HeldByOther(jobs, p, j, c) && HeldByOther(jobs, p, j, c + 1)
  }

  /** The jobs other than j do not share positions. */
  ghost predicate DistinctButFor(jobs: Jobs, j: Id) {
    forall a, b :: a in jobs && b in jobs && a != b && a != j && b != j ==> !SamePlace(jobs[a], jobs[b])
  }

  lemma VacatePair(jobs: Jobs, p: Id, j: Id, c: int, a: Id, b: Id)
    requires j in jobs && DistinctButFor(jobs, j) && !Collides(jobs, p, j, c)
    requires a in jobs && b in jobs && a != j && b != j
    ensures a != b ==> !SamePlace(Vacate(jobs, p, j, c)[a], Vacate(jobs, p, j, c)[b])
    ensures InFront(jobs[a], jobs[b]) <==> InFront(Vacate(jobs, p, j, c)[a], Vacate(jobs, p, j, c)[b])
  {
    assert a == b || !SamePlace(jobs[a], jobs[b]);
    if At(jobs, p, a, c) { assert HeldByOther(jobs, p, j, c); assert !At(jobs, p, b, c + 1); }
    if At(jobs, p, b, c) { assert HeldByOther(jobs, p, j, c); assert !At(jobs, p, a, c + 1); }
  }

  /** Closing the gap at c is harmless exactly when c and c + 1 are not both held by other jobs. */
  lemma VacateKeepsOrderIff(jobs: Jobs, p: Id, j: Id, c: int)
    requires j in jobs && DistinctButFor(jobs, j)
    ensures Distinct(Vacate(jobs, p, j, c)) <==> !Collides(jobs, p, j, c)
    ensures OrderKept(jobs, Vacate(jobs, p, j, c), j) <==> !Collides(jobs, p, j, c)
  {
    var after := Vacate(jobs, p, j, c);
    if Collides(jobs, p, j, c) {
      var a :| a != j && At(jobs, p, a, c);
      var b :| b != j && At(jobs, p, b, c + 1);
      assert SamePlace(after[a], after[b]);
      assert InFront(jobs[a], jobs[b]) && !InFront(after[a], after[b]);
    } else {
      forall a, b | a in jobs && b in jobs && a != j && b != j
        ensures a != b ==> !SamePlace(after[a], after[b])
        ensures InFront(jobs[a], jobs[b]) <==> InFront(after[a], after[b])
      {
        VacatePair(jobs, p, j, c, a, b);
      }
    }
  }

  lemma OwnPlaceIsSafe(jobs: Jobs, p: Id, j: Id, c: int)
    requires Distinct(jobs) && At(jobs, p, j, c)
    ensures !Collides(jobs, p, j, c)
  {
    forall k | k != j ensures !At(jobs, p, k, c) {
      if k in jobs { assert !SamePlace(jobs[j], jobs[k]); }
    }
  }

  /** Job j stands in no other printer's queue, or p can spare its position number. */
  ghost predicate GapIsClosable(jobs: Jobs, p: Id, j: Id) {
    j in jobs && jobs[j].queuePosition.Some? ==> !Collides(jobs, p, j, jobs[j].queuePosition.value)
  }

  /** Removing any job keeps positions distinct and the others in order. */
  lemma RemoveKeepsOrder(jobs: Jobs, j: Id)
    requires Distinct(jobs) && j in jobs
    ensures Distinct(Remove(jobs, j).jobs) && OrderKept(jobs, Remove(jobs, j).jobs, j)
  {
    var job := jobs[j];
    if Positioned(job) && job.printerId.Some? {
      var demoted := jobs[j := job.(status := if job.status == QUEUED then PENDING else job.status)];
      OwnPlaceIsSafe(demoted, job.printerId.value, j, job.queuePosition.value);
      VacateKeepsOrderIff(demoted, job.printerId.value, j, job.queuePosition.value);
    }
  }

  /** Submitting keeps positions distinct unless the job was orphaned (its printer was deleted) while
      holding a position number whose gap the adopting printer cannot close. */
  lemma SubmitKeepsOrderIff(jobs: Jobs, p: Id, j: Id)
    requires Distinct(jobs) && j in jobs && Assignable(jobs[j], p)
    ensures Distinct(Submit(jobs, p, j).jobs) <==> GapIsClosable(jobs, p, j)
    ensures OrderKept(jobs, Submit(jobs, p, j).jobs, j) <==> GapIsClosable(jobs, p, j)
    ensures jobs[j].printerId.Some? ==> GapIsClosable(jobs, p, j)
  {
    if Positioned(jobs[j]) {
      var c := jobs[j].queuePosition.value;
      if jobs[j].printerId.Some? { OwnPlaceIsSafe(jobs, p, j, c); }
      var taken := jobs[j := jobs[j].(printerId := Some(p), status := PRINTING)];
      VacateKeepsOrderIff(taken, p, j, c);
      OneRowChanged(jobs, taken, p, j, c, Vacate(taken, p, j, c));
    }
  }

  /** Neither the gap nor the order of the others depends on row j. */
  lemma OneRowChanged(jobs: Jobs, taken: Jobs, p: Id, j: Id, c: int, after: Jobs)
    requires j in jobs && j in taken && taken == jobs[j := taken[j]]
    ensures Collides(jobs, p, j, c) <==> Collides(taken, p, j, c)
    ensures OrderKept(jobs, after, j) <==> OrderKept(taken, after, j)
  {
    assert forall k, i :: k != j ==> (At(jobs, p, k, i) <==> At(taken, p, k, i));
  }

  lemma ClearKeepsDistinct(jobs: Jobs, p: Id)
    requires Distinct(jobs)
    ensures Distinct(Clear(jobs, p))
  {
    forall a, b | a in jobs && b in jobs && a != b ensures !SamePlace(Clear(jobs, p)[a], Clear(jobs, p)[b]) {
      assert !SamePlace(jobs[a], jobs[b]);
    }
  }

  /** The upload's second dequeue is harmless exactly when the gap it closes is closable, as the job's own place
      on the printer it was submitted to always is. */
  lemma FinishKeepsDistinctIff(jobs: Jobs, s: Submission, uploaded: bool)
    requires Distinct(jobs)
    ensures s.jobId in jobs && OnPrinter(jobs[s.jobId], s.printerId) ==> Distinct(FinishUpload(jobs, s, uploaded))
    ensures Distinct(FinishUpload(jobs, s, uploaded)) <==>
            !(Dequeues(jobs, s, uploaded) && Collides(jobs, s.printerId, s.jobId, s.queuePosition.value))
  {
    if Dequeues(jobs, s, uploaded) {
      if OnPrinter(jobs[s.jobId], s.printerId) { OwnPlaceIsSafe(jobs, s.printerId, s.jobId, s.queuePosition.value); }
      VacateKeepsOrderIff(jobs, s.printerId, s.jobId, s.queuePosition.value);
    } else {
      var after := FinishUpload(jobs, s, uploaded);
      forall a, b | a in jobs && b in jobs && a != b ensures !SamePlace(after[a], after[b]) {
        assert !SamePlace(jobs[a], jobs[b]);
      }
    }
  }

  /** The handler takes its post-upload dequeue branch. */
  predicate Dequeues(jobs: Jobs, s: Submission, uploaded: bool) {
    && uploaded && s.hasFile && s.queuePosition.Some?
    && s.jobId in jobs && jobs[s.jobId].queuePosition == s.queuePosition
  }

  // ---------- reorderQueue with arbitrary lists ----------

  /** A job of p left out of `ids` keeps a position that a listed job of p is about to receive. */
  ghost predicate LeftOutClash(jobs: Jobs, p: Id, ids: seq<Id>, u: Id, k: Id) {
    && u in jobs && OnPrinter(jobs[u], p) && u !in ids
    && k in jobs && OnPrinter(jobs[k], p) && k in ids
    && jobs[u].queuePosition == Some(LastIndex(ids, k, |ids|))
  }

  /** A reorder keeps positions distinct exactly when no left-out job is in the way. */
  lemma ReorderKeepsDistinctIff(jobs: Jobs, p: Id, ids: seq<Id>)
    requires Distinct(jobs)
    ensures Distinct(Reorder(jobs, p, ids)) <==> forall u, k :: !LeftOutClash(jobs, p, ids, u, k)
  {
    var after := Reorder(jobs, p, ids);
    forall k | k in jobs
      ensures after[k] == if OnPrinter(jobs[k], p) && k in ids
                          then jobs[k].(queuePosition := Some(LastIndex(ids, k, |ids|))) else jobs[k]
    {
      ReorderPrefixAt(jobs, p, ids, |ids|, k);
      assert LastIndex(ids, k, |ids|) >= 0 <==> k in ids;
    }
    if Distinct(after) {
      forall u, k ensures !LeftOutClash(jobs, p, ids, u, k) {
        if LeftOutClash(jobs, p, ids, u, k) { assert SamePlace(after[u], after[k]); }
      }
    }
    if forall u, k :: !LeftOutClash(jobs, p, ids, u, k) {
      forall a, b | a in jobs && b in jobs && a != b ensures !SamePlace(after[a], after[b]) {
        assert !LeftOutClash(jobs, p, ids, a, b) && !LeftOutClash(jobs, p, ids, b, a);
        assert !SamePlace(jobs[a], jobs[b]);
      }
    }
  }

  /** The jobs of p named by a list without repetitions come to stand in the order of that list. */
  lemma ReorderRealisesOrder(jobs: Jobs, p: Id, ids: seq<Id>, i: nat, k: nat)
    requires NoDuplicates(ids) && i < k < |ids|
    requires ids[i] in jobs && OnPrinter(jobs[ids[i]], p)
    requires ids[k] in jobs && OnPrinter(jobs[ids[k]], p)
    ensures InFront(Reorder(jobs, p, ids)[ids[i]], Reorder(jobs, p, ids)[ids[k]])
  {
    ReorderPrefixAt(jobs, p, ids, |ids|, ids[i]);
    ReorderPrefixAt(jobs, p, ids, |ids|, ids[k]);
  }

  /** Moving one job to the front of a two-job queue by naming it alone puts both at position 0. */
  lemma PartialReorderCollides(p: Id, a: Id, b: Id)
    requires a != b
    ensures var jobs := map[a := Job(Some(p), QUEUED, Some(0), true), b := Job(Some(p), QUEUED, Some(1), true)];
            Distinct(jobs) && !Distinct(Reorder(jobs, p, [b]))
  {
    var jobs := map[a := Job(Some(p), QUEUED, Some(0), true), b := Job(Some(p), QUEUED, Some(1), true)];
    ReorderPrefixAt(jobs, p, [b], 1, a);
    ReorderPrefixAt(jobs, p, [b], 1, b);
    assert SamePlace(Reorder(jobs, p, [b])[a], Reorder(jobs, p, [b])[b]);
  }


  /** A job whose printer was deleted keeps its position number; submitting it to another printer closes a gap
      that is not there, and two jobs of that printer end up on one position. */
  lemma AdoptedJobCollides(p: Id, a: Id, b: Id, orphan: Id)
    requires a != b && a != orphan && b != orphan
    ensures var jobs := map[a := Job(Some(p), QUEUED, Some(0), true), b := Job(Some(p), QUEUED, Some(1), true),
                            orphan := Job(None, QUEUED, Some(0), true)];
            Distinct(jobs) && Submit(jobs, p, orphan).Ok? && !Distinct(Submit(jobs, p, orphan).jobs)
  {
    var jobs := map[a := Job(Some(p), QUEUED, Some(0), true), b := Job(Some(p), QUEUED, Some(1), true),
                    orphan := Job(None, QUEUED, Some(0), true)];
    assert At(jobs, p, a, 0) && At(jobs, p, b, 1);
    SubmitKeepsOrderIff(jobs, p, orphan);
  }
}
