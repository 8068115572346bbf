/** What each operation of the print queue makes of the job it names, and what it leaves alone in the others. */
module PrintQueueRows {
  import opened Common
  import opened PrintQueue
  import opened PrintQueueLists
  import opened PrintQueueRuns

  /** Positions may have moved, on the given printer; nothing else has. */
  ghost predicate OnlyMoved(jobs: Jobs, after: Jobs, p: Id, j: Id) {
    && after.Keys == jobs.Keys
    && forall k :: k in jobs && k != j ==>
         && after[k].printerId == jobs[k].printerId && after[k].status == jobs[k].status
         && after[k].hasFile == jobs[k].hasFile && (Positioned(after[k]) <==> Positioned(jobs[k]))
         && (!OnPrinter(jobs[k], p) ==> after[k] == jobs[k])
  }

  /** An added job is QUEUED on its printer, at the position given or behind every position of the printer. */
  lemma AddedJob(jobs: Jobs, p: Id, j: Id, position: Option<int>)
    requires j in jobs && (jobs[j].printerId == None || jobs[j].printerId == Some(p))
    ensures var r := Add(jobs, p, j, position);
            && r.Ok? && OnlyMoved(jobs, r.jobs, p, j)
            && r.jobs[j].status == QUEUED && r.jobs[j].printerId == Some(p) && r.jobs[j].hasFile == jobs[j].hasFile
            && r.jobs[j].queuePosition.Some?
            && (position.Some? ==> r.jobs[j].queuePosition == position)
            && (position.None? ==>
                  && (forall k, c :: At(jobs, p, k, c) ==> c < r.jobs[j].queuePosition.value)
                  && ((forall k, c :: !At(jobs, p, k, c)) ==> r.jobs[j].queuePosition == Some(0))
                  && ((exists k, c :: At(jobs, p, k, c)) ==>
                        exists k, c :: At(jobs, p, k, c) && c + 1 == r.jobs[j].queuePosition.value))
  {
    if position.None? {
      forall k, c | At(jobs, p, k, c) ensures k in PositionedOn(jobs, p) {}
      if MaxPosition(jobs, p).Some? {
        var k :| k in PositionedOn(jobs, p) && jobs[k].queuePosition == MaxPosition(jobs, p);
        assert At(jobs, p, k, MaxPosition(jobs, p).value);
      }
    }
  }

  /** Unknown jobs and jobs of another printer are refused. */
  lemma Refusals(jobs: Jobs, p: Id, j: Id, position: Option<int>)
    ensures j !in jobs ==> Add(jobs, p, j, position) == Submit(jobs, p, j) == Remove(jobs, j) == Err(JobNotFound)
    ensures j in jobs && jobs[j].printerId.Some? && jobs[j].printerId != Some(p) ==>
              Add(jobs, p, j, position) == Submit(jobs, p, j) == Err(OtherPrinter)
  {
  }

  /** A removed job has no position any more, and is PENDING if it was QUEUED. */
  lemma RemovedJob(jobs: Jobs, j: Id, p: Id)
    requires j in jobs && (jobs[j].printerId.Some? ==> jobs[j].printerId == Some(p))
    ensures var r := Remove(jobs, j);
            && r.Ok? && OnlyMoved(jobs, r.jobs, p, j) && r.jobs[j].queuePosition == None
            && r.jobs[j].printerId == jobs[j].printerId && r.jobs[j].hasFile == jobs[j].hasFile
            && (jobs[j].status == QUEUED ==> r.jobs[j].status == PENDING)
            && (jobs[j].status != QUEUED ==> r.jobs[j].status == jobs[j].status)
  {
  }

  /** A submitted job is PRINTING on the printer without a position, and its submission knows whether it has a file
      and where it stood. */
  lemma SubmittedJob(s: System, p: Id, j: Id)
    requires j in s.jobs && (s.jobs[j].printerId == None || s.jobs[j].printerId == Some(p))
    ensures var t := Apply(s, SubmitJob(p, j));
            && OnlyMoved(s.jobs, t.jobs, p, j)
            && t.jobs[j] == Job(Some(p), PRINTING, None, s.jobs[j].hasFile)
            && t.inFlight == s.inFlight + [Submission(p, j, s.jobs[j].hasFile, s.jobs[j].queuePosition)]
  {
  }

  // ---------- the end of an upload ----------

  /** A submission without a file, or whose upload fails, makes its job FAILED and changes no other row. An upload
      that succeeds changes no status at all. */
  lemma FinishedJob(jobs: Jobs, s: Submission, uploaded: bool)
    ensures !uploaded || !s.hasFile ==>
              var after := FinishUpload(jobs, s, uploaded);
              && after.Keys == jobs.Keys
              && (s.jobId in jobs ==> after[s.jobId] == jobs[s.jobId].(status := FAILED))
              && (forall k :: k in jobs && k != s.jobId ==> after[k] == jobs[k])
    ensures uploaded && s.hasFile ==>
              var after := FinishUpload(jobs, s, uploaded);
              && OnlyMoved(jobs, after, s.printerId, s.jobId)
              && (s.jobId in jobs ==>
                    && after[s.jobId].status == jobs[s.jobId].status
                    && after[s.jobId].printerId == jobs[s.jobId].printerId
                    && after[s.jobId].hasFile == jobs[s.jobId].hasFile
                    && (jobs[s.jobId].queuePosition == s.queuePosition ==> after[s.jobId].queuePosition == None)
                    && (jobs[s.jobId].queuePosition != s.queuePosition ==> after == jobs))
              && (s.jobId !in jobs ==> after == jobs)
  {
  }

  /** The step names job j otherwise than by the end of its upload or a move within the queue. */
  predicate Touches(step: Step, j: Id) {
    match step
    case AddJob(p, k, position) => k == j
    case SubmitJob(p, k) => k == j
    case JobDeleted(k) => k == j
    case StatusReported(k, status) => k == j
    case _ => false
  }

  ghost predicate IsFailed(jobs: Jobs, j: Id) {
    j in jobs && jobs[j].status == FAILED
  }

  lemma StepKeepsFailed(s: System, step: Step, j: Id)
    requires IsFailed(s.jobs, j) && !Touches(step, j)
    ensures IsFailed(Apply(s, step).jobs, j)
  {
    match step
    case ReorderJobs(p, ids) => ReorderPrefixAt(s.jobs, p, ids, |ids|, j);
    case _ =>
  }

  ghost predicate NeverTouched(steps: seq<Step>, j: Id) {
    forall i :: 0 <= i < |steps| ==> !Touches(steps[i], j)
  }

  lemma {:induction false} FailedOverRuns(s: System, steps: seq<Step>, j: Id)
    requires IsFailed(s.jobs, j) && NeverTouched(steps, j)
    ensures IsFailed(Run(s, steps).jobs, j)
    decreases |steps|
  {
    if steps != [] {
      StepKeepsFailed(s, steps[0], j);
      FailedOverRuns(Apply(s, steps[0]), steps[1..], j);
    }
  }

  /** After a failed upload the job stays FAILED, whatever happens to other jobs and to its other uploads, until it is
      added, submitted, reported on or deleted. */
  lemma FailedUploadShows(s: System, n: nat, uploaded: bool, steps: seq<Step>)
    requires n < |s.inFlight| && s.inFlight[n].jobId in s.jobs && !(uploaded && s.inFlight[n].hasFile)
    requires NeverTouched(steps, s.inFlight[n].jobId)
    ensures IsFailed(Run(Apply(s, UploadEnds(n, uploaded)), steps).jobs, s.inFlight[n].jobId)
  {
    FinishedJob(s.jobs, s.inFlight[n], uploaded);
    FailedOverRuns(Apply(s, UploadEnds(n, uploaded)), steps, s.inFlight[n].jobId);
  }

  /** The submission whose upload has ended is gone, the others wait on in order. */
  lemma UploadLeavesOthers(s: System, n: nat, uploaded: bool)
    requires n < |s.inFlight|
    ensures Apply(s, UploadEnds(n, uploaded)).inFlight == s.inFlight[..n] + s.inFlight[n + 1..]
  {
  }
}
