/** The service itself: each method's effect on the job table and on the emitted submissions. */
module PrintQueueServiceModel {
  import opened Common
  import opened PrintQueue
  import opened PrintQueueLists
  import opened PrintQueuePages
  import opened PrintQueueRuns

  datatype QueuePage = QueuePage(items: seq<Id>, totalCount: nat, totalPages: nat)

  function QueuedJobs(jobs: Jobs, p: Id): set<Id> {
    set k | k in jobs && QueuedJob(jobs[k], p)
  }

  /** The first n rows of the list have been cleared. */
  function ClearRows(jobs: Jobs, found: seq<Id>, n: nat): Jobs
    requires n <= |found|
  {
    map k | k in jobs :: if k in found[..n] then jobs[k].(status := PENDING, queuePosition := None) else jobs[k]
  }

  lemma NothingCleared(jobs: Jobs, found: seq<Id>)
    ensures ClearRows(jobs, found, 0) == jobs
  {
  }

  lemma OneMoreCleared(jobs: Jobs, found: seq<Id>, n: nat)
    requires n < |found| && NoDuplicates(found) && forall k :: k in found ==> k in jobs
    ensures found[n] in jobs
    ensures ClearRows(jobs, found, n + 1)
            == ClearRows(jobs, found, n)[found[n] :=
                 ClearRows(jobs, found, n)[found[n]].(status := PENDING, queuePosition := None)]
  {
    assert found[n] in found;
    assert found[..n + 1] == found[..n] + [found[n]];
  }

  lemma AllCleared(jobs: Jobs, p: Id, found: seq<Id>)
    requires forall k :: k in found <==> k in QueuedJobs(jobs, p)
    ensures ClearRows(jobs, found, |found|) == Clear(jobs, p)
  {
    assert found[..|found|] == found;
  }

  predicate AtOrBehind(job: Job, p: Id, position: int) {
    OnPrinter(job, p) && Positioned(job) && job.queuePosition.value >= position
  }

  /** The row differs in its position only, by this much. */
  predicate MovedBy(job: Job, after: Job, steps: int) {
    Positioned(job) && after == job.(queuePosition := Some(job.queuePosition.value + steps))
  }

  /** The two bulk updates are determined by what they do to each row. */
  lemma ShiftedByRows(jobs: Jobs, after: Jobs, p: Id, from: int)
    requires after.Keys == jobs.Keys
    requires forall k :: k in jobs && AtOrBehind(jobs[k], p, from) ==> MovedBy(jobs[k], after[k], 1)
    requires forall k :: k in jobs && !AtOrBehind(jobs[k], p, from) ==> after[k] == jobs[k]
    ensures after == Shift(jobs, p, from)
  {
    forall k | k in jobs ensures after[k] == Shift(jobs, p, from)[k] {
      if AtOrBehind(jobs[k], p, from) { assert MovedBy(jobs[k], after[k], 1); }
    }
  }

  lemma CompactedByRows(jobs: Jobs, after: Jobs, p: Id, removed: int)
    requires after.Keys == jobs.Keys
    requires forall k :: k in jobs && AtOrBehind(jobs[k], p, removed + 1) ==> MovedBy(jobs[k], after[k], -1)
    requires forall k :: k in jobs && !AtOrBehind(jobs[k], p, removed + 1) ==> after[k] == jobs[k]
    ensures after == Compact(jobs, p, removed)
  {
    forall k | k in jobs ensures after[k] == Compact(jobs, p, removed)[k] {
      if AtOrBehind(jobs[k], p, removed + 1) { assert MovedBy(jobs[k], after[k], -1); }
    }
  }

  /** Removal as the service writes it: the row first, the others after it. */
  lemma RemoveInTwoWrites(jobs: Jobs, j: Id, before: Jobs)
    requires j in jobs
    requires before == jobs[j := jobs[j].(queuePosition := None,
                                          status := if jobs[j].status == QUEUED then PENDING else jobs[j].status)]
    ensures Remove(jobs, j) == Ok(if Positioned(jobs[j]) && jobs[j].printerId.Some?
                                  then Compact(before, jobs[j].printerId.value, jobs[j].queuePosition.value)
                                  else before)
  {
    var demoted := jobs[j := jobs[j].(status := if jobs[j].status == QUEUED then PENDING else jobs[j].status)];
    assert before == demoted[j := demoted[j].(queuePosition := None)];
  }

  class PrintQueueService {
    var jobs: Jobs
    var inFlight: seq<Submission>

    constructor (jobs: Jobs)
      ensures this.jobs == jobs && inFlight == []
    {
      this.jobs, inFlight := jobs, [];
    }

    function State(): System
      reads this
    {
      System(jobs, inFlight)
    }

    /** The jobs of this printer at or behind the position move back by one, which leaves the position free. */
    method ShiftQueuePositions(printerId: Id, fromPosition: int)
      modifies this
      ensures jobs.Keys == old(jobs).Keys && inFlight == old(inFlight)
      ensures forall k :: k in jobs && AtOrBehind(old(jobs)[k], printerId, fromPosition) ==>
                MovedBy(old(jobs)[k], jobs[k], 1)
      ensures forall k :: k in jobs && !AtOrBehind(old(jobs)[k], printerId, fromPosition) ==> jobs[k] == old(jobs)[k]
      ensures forall k :: !At(jobs, printerId, k, fromPosition)
    {
      jobs := Shift(jobs, printerId, fromPosition);
    }

    /** The jobs of this printer behind the position move up by one. */
    method CompactQueuePositions(printerId: Id, removedPosition: int)
      modifies this
      ensures jobs.Keys == old(jobs).Keys && inFlight == old(inFlight)
      ensures forall k :: k in jobs && AtOrBehind(old(jobs)[k], printerId, removedPosition + 1) ==>
                MovedBy(old(jobs)[k], jobs[k], -1)
      ensures forall k :: k in jobs && !AtOrBehind(old(jobs)[k], printerId, removedPosition + 1) ==>
                jobs[k] == old(jobs)[k]
    {
      jobs := Compact(jobs, printerId, removedPosition);
    }

    method AddToQueue(printerId: Id, jobId: Id, position: Option<int>) returns (error: Option<Error>)
      modifies this
      ensures State() == Apply(old(State()), AddJob(printerId, jobId, position))
      ensures
        match Add(old(jobs), printerId, jobId, position)
        case Ok(_) => error == None
        case Err(e) => error == Some(e)
    {
      if jobId !in jobs { return Some(JobNotFound); }
      var job := jobs[jobId];
      if !Assignable(job, printerId) { return Some(OtherPrinter); }
      job := job.(printerId := Some(printerId));
      if position.None? {
        var maxPosition := MaxPosition(jobs, printerId);
        job := job.(queuePosition := Some((if maxPosition.Some? then maxPosition.value else -1) + 1));
      } else {
        ShiftQueuePositions(printerId, position.value);
        ShiftedByRows(old(jobs), jobs, printerId, position.value);
        job := job.(queuePosition := position);
      }
      job := job.(status := QUEUED);
      jobs := jobs[jobId := job];
      return None;
    }

    method RemoveFromQueue(jobId: Id) returns (error: Option<Error>)
      modifies this
      ensures State() == Apply(old(State()), RemoveJob(jobId))
      ensures error == if jobId in old(jobs) then None else Some(JobNotFound)
    {
      if jobId !in jobs { return Some(JobNotFound); }
      var job := jobs[jobId];
      var printerId, oldPosition := job.printerId, job.queuePosition;
      job := job.(queuePosition := None);
      if job.status == QUEUED {
        job := job.(status := PENDING);
      }
      jobs := jobs[jobId := job];
      ghost var before := jobs;
      if oldPosition.Some? && printerId.Some? {
        CompactQueuePositions(printerId.value, oldPosition.value);
        CompactedByRows(before, jobs, printerId.value, oldPosition.value);
      }
      RemoveInTwoWrites(old(jobs), jobId, before);
      return None;
    }

    /** The rows come back in queue order; the queue is only read. */
    method GetQueue(printerId: Id) returns (queue: seq<Id>)
      ensures forall q :: Represents(jobs, printerId, q) ==> queue == q
      ensures Lists(queue, QueuedOn(jobs, printerId), QueueOrder(jobs))
    {
      queue := PrintQueue.GetQueue(jobs, printerId);
      forall q | Represents(jobs, printerId, q) ensures queue == q {
        GetQueueIsList(jobs, printerId, q);
      }
    }

    method GetNextInQueue(printerId: Id) returns (next: Option<Id>)
      ensures forall q :: Represents(jobs, printerId, q) ==> next == if q == [] then None else Some(q[0])
      ensures next.None? <==> QueuedOn(jobs, printerId) == {}
      ensures next.Some? ==> next.value in QueuedOn(jobs, printerId) &&
                             forall k :: k in QueuedOn(jobs, printerId) ==>
                                 k == next.value || Before(jobs, next.value, k)
    {
      var queue := GetQueue(printerId);
      next := if queue == [] then None else Some(queue[0]);
      assert queue != [] ==> queue[0] in queue;
    }

    method ReorderQueue(printerId: Id, jobIds: seq<Id>)
      modifies this
      ensures State() == Apply(old(State()), ReorderJobs(printerId, jobIds))
    {
      for i := 0 to |jobIds|
        invariant jobs == ReorderPrefix(old(jobs), printerId, jobIds, i)
        invariant inFlight == old(inFlight)
      {
        var j := jobIds[i];
        if j in jobs && jobs[j].printerId == Some(printerId) {
          var job := jobs[j];
          job := job.(queuePosition := Some(i));
          jobs := jobs[j := job];
        }
      }
    }

    method ClearQueue(printerId: Id)
      modifies this
      ensures State() == Apply(old(State()), ClearJobs(printerId))
    {
      var found := SortBy(QueuedJobs(jobs, printerId), QueueOrder(jobs));
      NothingCleared(jobs, found);
      for i := 0 to |found|
        invariant jobs == ClearRows(old(jobs), found, i) && inFlight == old(inFlight)
      {
        OneMoreCleared(old(jobs), found, i);
        var job := jobs[found[i]];
        job := job.(status := PENDING, queuePosition := None);
        jobs := jobs[found[i] := job];
      }
      AllCleared(old(jobs), printerId, found);
    }

    method SubmitToPrinter(printerId: Id, jobId: Id) returns (error: Option<Error>)
      modifies this
      ensures State() == Apply(old(State()), SubmitJob(printerId, jobId))
      ensures match Submit(old(jobs), printerId, jobId) case Ok(_) => error == None case Err(e) => error == Some(e)
    {
      if jobId !in jobs { return Some(JobNotFound); }
      var job := jobs[jobId];
      if !Assignable(job, printerId) { return Some(OtherPrinter); }
      job := job.(printerId := Some(printerId));
      var queuePosition := job.queuePosition;
      if queuePosition.Some? {
        job := job.(queuePosition := None);
        CompactQueuePositions(printerId, queuePosition.value);
        CompactedByRows(old(jobs), jobs, printerId, queuePosition.value);
      }
      job := job.(status := PRINTING);
      jobs := jobs[jobId := job];
      inFlight := inFlight + [Submission(printerId, jobId, job.hasFile, queuePosition)];
      assert jobs == Submit(old(jobs), printerId, jobId).jobs;
      return None;
    }

    /** The upload of the n-th pending submission has come to an end. */
    method HandleJobSubmission(n: nat, uploaded: bool)
      requires n < |inFlight|
      modifies this
      ensures State() == Apply(old(State()), UploadEnds(n, uploaded))
    {
      var event := inFlight[n];
      inFlight := inFlight[..n] + inFlight[n + 1..];
      var j := event.jobId;
      if event.hasFile && uploaded {
        if event.queuePosition.Some? && j in jobs && jobs[j].queuePosition == event.queuePosition {
          var job := jobs[j];
          job := job.(queuePosition := None);
          jobs := jobs[j := job];
          ghost var before := jobs;
          CompactQueuePositions(event.printerId, event.queuePosition.value);
          CompactedByRows(before, jobs, event.printerId, event.queuePosition.value);
        }
      } else if j in jobs {
        var job := jobs[j];
        job := job.(status := FAILED);
        jobs := jobs[j := job];
      }
    }

    /** The controller refuses page < 1 and page sizes outside 1..200. */
    method GetGlobalQueue(page: int, pageSize: int) returns (r: Option<QueuePage>)
      ensures r.None? <==> page < 1 || pageSize < 1 || pageSize > 200
      ensures r.Some? ==>
                && r.value.totalCount == |AllQueued(jobs)|
                && Pages(QueuedRows(jobs), pageSize, page)
                  == Pages(QueuedRows(jobs), pageSize, page - 1) + r.value.items
                && Pages(QueuedRows(jobs), pageSize, r.value.totalPages) == QueuedRows(jobs)
    {
      if page < 1 || pageSize < 1 || pageSize > 200 { return None; }
      var rows := QueuedRows(jobs);
      PagesPartitionQueue(jobs, pageSize);
      ListsLength(rows, AllQueued(jobs), QueueOrder(jobs));
      return Some(QueuePage(Page(rows, page, pageSize), |rows|, TotalPages(|rows|, pageSize)));
    }
  }
}
