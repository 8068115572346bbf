/** Submissions in flight, for arbitrary positions: a job that is not queued again is dequeued once. */
module PrintQueueUploads {
  import opened Common
  import opened PrintQueue
  import opened PrintQueueLists
  import opened PrintQueueOrder
  import opened PrintQueueRuns

  /** Status and position agree, and a job being uploaded is out of the queue. */
  ghost predicate Undisturbed(s: System) {
    && Synced(s.jobs)
    && forall n :: 0 <= n < |s.inFlight| ==> !InQueue(s.jobs, s.inFlight[n].jobId)
  }

  /** No job is queued while its upload runs, a reorder names only queued jobs, and reports neither queue jobs
      nor take them out. */
  ghost predicate NotRequeued(s: System, step: Step) {
    match step
    case AddJob(p, j, position) => !InFlight(s, j)
    case ReorderJobs(p, ids) => forall k :: k in ids && k in s.jobs && OnPrinter(s.jobs[k], p) ==>
        s.jobs[k].status == QUEUED
    case JobCreated(j, p, hasFile) => !InFlight(s, j)
    case StatusReported(j, status) => j in s.jobs ==> (s.jobs[j].status == QUEUED <==> status == QUEUED)
    case _ => true
  }

  /** For every job but j, what counts for the queue is as it was. */
  ghost predicate SameButFor(jobs: Jobs, after: Jobs, j: Id) {
    forall k :: k in after && k != j ==>
      && k in jobs && after[k].printerId == jobs[k].printerId && after[k].status == jobs[k].status
      && (Positioned(after[k]) <==> Positioned(jobs[k]))
  }

  lemma SameKeepsUndisturbed(s: System, t: System, j: Id)
    requires Undisturbed(s) && SameButFor(s.jobs, t.jobs, j)
    requires j in t.jobs && t.jobs[j].printerId.Some? ==> (t.jobs[j].status == QUEUED <==> Positioned(t.jobs[j]))
    requires forall n :: 0 <= n < |t.inFlight| ==>
               (t.inFlight[n].jobId == j ==> !InQueue(t.jobs, j))
               && (t.inFlight[n].jobId != j ==> InFlight(s, t.inFlight[n].jobId))
    ensures Undisturbed(t)
  {
    forall n | 0 <= n < |t.inFlight| ensures !InQueue(t.jobs, t.inFlight[n].jobId) {
      var k := t.inFlight[n].jobId;
      if k != j {
        var m :| 0 <= m < |s.inFlight| && s.inFlight[m].jobId == k;
        assert !InQueue(s.jobs, k);
      }
    }
  }

  lemma AddUndisturbed(s: System, p: Id, j: Id, position: Option<int>)
    requires Undisturbed(s) && !InFlight(s, j)
    ensures Undisturbed(Apply(s, AddJob(p, j, position)))
  {
    SameKeepsUndisturbed(s, Apply(s, AddJob(p, j, position)), j);
  }

  lemma RemoveUndisturbed(s: System, j: Id)
    requires Undisturbed(s)
    ensures Undisturbed(Apply(s, RemoveJob(j)))
  {
    SameKeepsUndisturbed(s, Apply(s, RemoveJob(j)), j);
  }

  lemma SubmitUndisturbed(s: System, p: Id, j: Id)
    requires Undisturbed(s)
    ensures Undisturbed(Apply(s, SubmitJob(p, j)))
  {
    var t := Apply(s, SubmitJob(p, j));
    if t != s {
      SubmitFrame(s.jobs, p, j);
      forall n | 0 <= n < |t.inFlight| && t.inFlight[n].jobId != j ensures InFlight(s, t.inFlight[n].jobId) {
        assert n < |s.inFlight| && s.inFlight[n] == t.inFlight[n];
      }
      SameKeepsUndisturbed(s, t, j);
    }
  }

  /** The end of the upload of a job that is out of the queue cannot take it out again. */
  lemma UploadUndisturbed(s: System, n: nat, uploaded: bool)
    requires Undisturbed(s)
    ensures Undisturbed(Apply(s, UploadEnds(n, uploaded)))
    ensures n < |s.inFlight| ==> !Dequeues(s.jobs, s.inFlight[n], uploaded)
  {
    if n < |s.inFlight| {
      var (t, j) := (Apply(s, UploadEnds(n, uploaded)), s.inFlight[n].jobId);
      assert !InQueue(s.jobs, j);
      forall m | 0 <= m < |t.inFlight| ensures InFlight(s, t.inFlight[m].jobId) {
        assert t.inFlight[m] == s.inFlight[if m < n then m else m + 1];
      }
      SameKeepsUndisturbed(s, t, j);
    }
  }

  lemma ReorderUndisturbed(s: System, p: Id, ids: seq<Id>)
    requires Undisturbed(s) && NotRequeued(s, ReorderJobs(p, ids))
    ensures Undisturbed(Apply(s, ReorderJobs(p, ids)))
  {
    var after := Reorder(s.jobs, p, ids);
    forall k | k in s.jobs
      ensures after[k].printerId == s.jobs[k].printerId && after[k].status == s.jobs[k].status
      ensures s.jobs[k].printerId.Some? ==> (Positioned(after[k]) <==> Positioned(s.jobs[k]))
      ensures s.jobs[k].printerId.None? ==> after[k] == s.jobs[k]
    {
      ReorderPrefixAt(s.jobs, p, ids, |ids|, k);
    }
    forall n | 0 <= n < |s.inFlight| ensures !InQueue(after, s.inFlight[n].jobId) {
      assert !InQueue(s.jobs, s.inFlight[n].jobId);
    }
  }

  lemma StepKeepsUndisturbed(s: System, step: Step)
    requires Undisturbed(s) && NotRequeued(s, step)
    ensures Undisturbed(Apply(s, step))
  {
    match step
    case AddJob(p, j, position) => AddUndisturbed(s, p, j, position);
    case RemoveJob(j) => RemoveUndisturbed(s, j);
    case SubmitJob(p, j) => SubmitUndisturbed(s, p, j);
    case UploadEnds(n, uploaded) => UploadUndisturbed(s, n, uploaded);
    case ReorderJobs(p, ids) => ReorderUndisturbed(s, p, ids);
    case JobCreated(j, p, hasFile) => SameKeepsUndisturbed(s, Apply(s, step), j);
    case StatusReported(j, status) => SameKeepsUndisturbed(s, Apply(s, step), j);
    case _ =>
      var t := Apply(s, step);
      forall n | 0 <= n < |t.inFlight| ensures !InQueue(t.jobs, t.inFlight[n].jobId) {
        assert !InQueue(s.jobs, s.inFlight[n].jobId);
      }
  }

  ghost predicate NeverRequeued(s: System, steps: seq<Step>)
    decreases |steps|
  {
    steps == [] || (NotRequeued(s, steps[0]) && NeverRequeued(Apply(s, steps[0]), steps[1..]))
  }

  /** In every run in which no job is queued again between its submission and the end of its upload, and reorders
      name only queued jobs, no upload takes the dequeue branch, and a job assigned to a printer is QUEUED exactly
      when it holds a position; gaps, re-added jobs and failed uploads included. */
  lemma {:induction false} SingleDequeue(s: System, steps: seq<Step>)
    requires Undisturbed(s) && NeverRequeued(s, steps)
    ensures Synced(Run(s, steps).jobs)
    ensures forall n, uploaded :: 0 <= n < |Run(s, steps).inFlight| ==>
                                  !Dequeues(Run(s, steps).jobs, Run(s, steps).inFlight[n], uploaded)
    decreases |steps|
  {
    if steps == [] {
      forall n, uploaded | 0 <= n < |s.inFlight| ensures !Dequeues(s.jobs, s.inFlight[n], uploaded) {
        UploadUndisturbed(s, n, uploaded);
      }
    } else {
      StepKeepsUndisturbed(s, steps[0]);
      SingleDequeue(Apply(s, steps[0]), steps[1..]);
    }
  }
}
