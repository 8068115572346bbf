/** Over whole runs no two jobs of a printer share a position, however late the uploads end. */
module PrintQueueDistinct {
  import opened Common
  import opened PrintQueue
  import opened PrintQueueLists
  import opened PrintQueueOrder
  import opened PrintQueueRuns

  /** The job of a submission that has not ended is still on its printer, unless that printer was deleted. */
  predicate StillThere(jobs: Jobs, gone: set<Id>, s: Submission) {
    s.jobId in jobs ==> OnPrinter(jobs[s.jobId], s.printerId) || s.printerId in gone
  }

  predicate RowAnchored(job: Job, gone: set<Id>) {
    if job.printerId.None? then !Positioned(job) else job.printerId.value !in gone
  }

  ghost predicate RowsAnchored(jobs: Jobs, gone: set<Id>) {
    forall k :: k in jobs ==> RowAnchored(jobs[k], gone)
  }

  ghost predicate SubmissionsAnchored(s: System, gone: set<Id>) {
    forall n :: 0 <= n < |s.inFlight| ==> StillThere(s.jobs, gone, s.inFlight[n])
  }

  /** Positions are distinct, no job without a printer holds one, and deleted printers have no jobs. */
  ghost predicate Anchored(s: System, gone: set<Id>) {
    Distinct(s.jobs) && RowsAnchored(s.jobs, gone) && SubmissionsAnchored(s, gone)
  }

  /** What the callers of the service must see to. Deleted printers are not named again, a printer is deleted only
      when its queue is empty, a new job's id is new, and a reorder leaves out no job that stands among the
      positions it hands out. Submissions and the ends of uploads are under no condition. */
  ghost predicate Orderly(s: System, gone: set<Id>, step: Step) {
    match step
    case AddJob(p, j, position) => p !in gone
    case SubmitJob(p, j) => p !in gone
    case ReorderJobs(p, ids) =>
      forall k :: k in PositionedOn(s.jobs, p) && k !in ids ==> !(0 <= s.jobs[k].queuePosition.value < |ids|)
    case JobCreated(j, p, hasFile) => p !in gone && !InFlight(s, j)
    case PrinterDeleted(p) => PositionedOn(s.jobs, p) == {}
    case _ => true
  }

  function Gone(gone: set<Id>, step: Step): set<Id> {
    if step.PrinterDeleted? then gone + {step.p} else gone
  }

  /** A printer that is there closes the gaps of its own jobs, and one that was deleted has none to close. */
  lemma UploadIsCareful(s: System, gone: set<Id>, n: nat, uploaded: bool)
    requires Anchored(s, gone) && n < |s.inFlight|
    ensures Careful(s, UploadEnds(n, uploaded))
  {
    var e := s.inFlight[n];
    if Dequeues(s.jobs, e, uploaded) {
      assert StillThere(s.jobs, gone, e);
      if OnPrinter(s.jobs[e.jobId], e.printerId) {
        OwnPlaceIsSafe(s.jobs, e.printerId, e.jobId, e.queuePosition.value);
      } else {
        assert forall k, i :: !At(s.jobs, e.printerId, k, i);
      }
    }
  }

  lemma OrderlyIsCareful(s: System, gone: set<Id>, step: Step)
    requires Anchored(s, gone) && Orderly(s, gone, step)
    ensures Careful(s, step)
  {
    match step
    case SubmitJob(p, j) =>
      if j in s.jobs && Assignable(s.jobs[j], p) { SubmitKeepsOrderIff(s.jobs, p, j); }
    case ReorderJobs(p, ids) =>
      forall u, k ensures !LeftOutClash(s.jobs, p, ids, u, k) {
        if u in s.jobs && OnPrinter(s.jobs[u], p) && Positioned(s.jobs[u]) && u !in ids && k in ids {
          assert u in PositionedOn(s.jobs, p) && LastIndex(ids, k, |ids|) >= 0;
        }
      }
    case UploadEnds(n, uploaded) =>
      if n < |s.inFlight| { UploadIsCareful(s, gone, n, uploaded); }
    case _ =>
  }

  lemma RowStaysAnchored(s: System, gone: set<Id>, step: Step, k: Id)
    requires RowsAnchored(s.jobs, gone) && Orderly(s, gone, step) && k in Apply(s, step).jobs
    ensures RowAnchored(Apply(s, step).jobs[k], Gone(gone, step))
  {
    assert k in s.jobs ==> RowAnchored(s.jobs[k], gone);
    match step
    case ReorderJobs(p, ids) => ReorderPrefixAt(s.jobs, p, ids, |ids|, k);
    case PrinterDeleted(p) => assert k !in PositionedOn(s.jobs, p);
    case _ =>
  }

  lemma RowsStayAnchored(s: System, gone: set<Id>, step: Step)
    requires RowsAnchored(s.jobs, gone) && Orderly(s, gone, step)
    ensures RowsAnchored(Apply(s, step).jobs, Gone(gone, step))
  {
    forall k | k in Apply(s, step).jobs ensures RowAnchored(Apply(s, step).jobs[k], Gone(gone, step)) {
      RowStaysAnchored(s, gone, step, k);
    }
  }

  /** A row keeps its printer, unless it had none or its printer is deleted. */
  lemma RowStaysOnPrinter(s: System, step: Step, k: Id, p: Id)
    requires k in s.jobs && OnPrinter(s.jobs[k], p) && k in Apply(s, step).jobs && step != PrinterDeleted(p)
    ensures OnPrinter(Apply(s, step).jobs[k], p)
  {
    match step
    case ReorderJobs(r, ids) => ReorderPrefixAt(s.jobs, r, ids, |ids|, k);
    case _ =>
  }

  lemma SubmissionStaysAnchored(s: System, gone: set<Id>, step: Step, e: Submission)
    requires Anchored(s, gone) && Orderly(s, gone, step) && StillThere(s.jobs, gone, e) && InFlight(s, e.jobId)
    ensures StillThere(Apply(s, step).jobs, Gone(gone, step), e)
  {
    if e.jobId in Apply(s, step).jobs && e.printerId !in Gone(gone, step) {
      if e.jobId in s.jobs { RowStaysOnPrinter(s, step, e.jobId, e.printerId); }
    }
  }

  lemma EachSubmissionAnchored(s: System, gone: set<Id>, step: Step, n: nat)
    requires Anchored(s, gone) && Orderly(s, gone, step) && n < |Apply(s, step).inFlight|
    ensures StillThere(Apply(s, step).jobs, Gone(gone, step), Apply(s, step).inFlight[n])
  {
    if step.SubmitJob? && n == |s.inFlight| {
      SubmitFrame(s.jobs, step.p, step.j);
      assert OnPrinter(Apply(s, step).jobs[step.j], step.p);
    } else {
      var m := if step.UploadEnds? && step.n < |s.inFlight| && step.n <= n then n + 1 else n;
      assert Apply(s, step).inFlight[n] == s.inFlight[m];
      SubmissionStaysAnchored(s, gone, step, s.inFlight[m]);
    }
  }

  lemma SubmissionsStayAnchored(s: System, gone: set<Id>, step: Step)
    requires Anchored(s, gone) && Orderly(s, gone, step)
    ensures SubmissionsAnchored(Apply(s, step), Gone(gone, step))
  {
    forall n | 0 <= n < |Apply(s, step).inFlight|
      ensures StillThere(Apply(s, step).jobs, Gone(gone, step), Apply(s, step).inFlight[n])
    {
      EachSubmissionAnchored(s, gone, step, n);
    }
  }

  lemma StepKeepsAnchored(s: System, gone: set<Id>, step: Step)
    requires Anchored(s, gone) && Orderly(s, gone, step)
    ensures Anchored(Apply(s, step), Gone(gone, step))
  {
    OrderlyIsCareful(s, gone, step);
    StepKeepsDistinctIff(s, step);
    RowsStayAnchored(s, gone, step);
    SubmissionsStayAnchored(s, gone, step);
  }

  ghost predicate OrderlyRun(s: System, gone: set<Id>, steps: seq<Step>)
    decreases |steps|
  {
    steps == [] || (Orderly(s, gone, steps[0]) && OrderlyRun(Apply(s, steps[0]), Gone(gone, steps[0]), steps[1..]))
  }

  /** Over every orderly run no two jobs of a printer come to share a position: whichever jobs are submitted, added
      again or deleted while their upload runs, whenever uploads end and however they do. */
  lemma {:induction false} RunKeepsDistinct(s: System, gone: set<Id>, steps: seq<Step>)
    requires Anchored(s, gone) && OrderlyRun(s, gone, steps)
    ensures Distinct(Run(s, steps).jobs)
    decreases |steps|
  {
    if steps != [] {
      StepKeepsAnchored(s, gone, steps[0]);
      RunKeepsDistinct(Apply(s, steps[0]), Gone(gone, steps[0]), steps[1..]);
    }
  }
}
