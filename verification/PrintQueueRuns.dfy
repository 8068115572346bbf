/** Whole runs of the print queue, with uploads finishing at any later moment. */
module PrintQueueRuns {
  import opened Common
  import opened PrintQueue
  import opened PrintQueueLists
  import opened PrintQueueOrder

  /** The job table and the uploads that have been started but not finished. */
  datatype System = System(jobs: Jobs, inFlight: seq<Submission>)

  datatype Step =
    | AddJob(p: Id, j: Id, position: Option<int>)
    | RemoveJob(j: Id)
    | SubmitJob(p: Id, j: Id)
    | ReorderJobs(p: Id, ids: seq<Id>)
    | ClearJobs(p: Id)
    | UploadEnds(n: nat, uploaded: bool)
      // what the rest of the server does to the same table
    | JobCreated(j: Id, p: Id, hasFile: bool)
    | JobDeleted(j: Id)
    | StatusReported(j: Id, status: Status)
    | PrinterDeleted(p: Id)

  function Submitted(jobs: Jobs, p: Id, j: Id): Submission
    requires j in jobs
  {
    Submission(p, j, jobs[j].hasFile, jobs[j].queuePosition)
  }

  function OrElse(outcome: Outcome, jobs: Jobs): Jobs {
    if outcome.Ok? then outcome.jobs else jobs
  }

  function Apply(s: System, step: Step): System {
    match step
    case AddJob(p, j, position) => s.(jobs := OrElse(Add(s.jobs, p, j, position), s.jobs))
    case RemoveJob(j) => s.(jobs := OrElse(Remove(s.jobs, j), s.jobs))
    case SubmitJob(p, j) =>
      if Submit(s.jobs, p, j).Ok?
      then System(Submit(s.jobs, p, j).jobs, s.inFlight + [Submitted(s.jobs, p, j)]) else s
    case ReorderJobs(p, ids) => s.(jobs := Reorder(s.jobs, p, ids))
    case ClearJobs(p) => s.(jobs := Clear(s.jobs, p))
    case UploadEnds(n, uploaded) =>
      if n < |s.inFlight|
      then System(FinishUpload(s.jobs, s.inFlight[n], uploaded), DeleteAt(s.inFlight, n)) else s
    case JobCreated(j, p, hasFile) =>
      if j in s.jobs then s else s.(jobs := s.jobs[j := Job(Some(p), PENDING, None, hasFile)])
    case JobDeleted(j) => s.(jobs := s.jobs - {j})
    case StatusReported(j, status) =>
      if j in s.jobs then s.(jobs := s.jobs[j := s.jobs[j].(status := status)]) else s
    case PrinterDeleted(p) =>
      s.(jobs := map k | k in s.jobs :: if OnPrinter(s.jobs[k], p) then s.jobs[k].(printerId := None) else s.jobs[k])
  }

  function Run(s: System, steps: seq<Step>): System
    decreases |steps|
  {
    if steps == [] then s else Run(Apply(s, steps[0]), steps[1..])
  }

  // ---------- positions stay distinct ----------

  /** The exact condition under which a step keeps positions distinct. */
  ghost predicate Careful(s: System, step: Step) {
    match step
    case SubmitJob(p, j) => j in s.jobs && Assignable(s.jobs[j], p) ==> GapIsClosable(s.jobs, p, j)
    case ReorderJobs(p, ids) => forall u, k :: !LeftOutClash(s.jobs, p, ids, u, k)
    case UploadEnds(n, uploaded) =>
      n < |s.inFlight| && Dequeues(s.jobs, s.inFlight[n], uploaded) ==>
        !Collides(s.jobs, s.inFlight[n].printerId, s.inFlight[n].jobId, s.inFlight[n].queuePosition.value)
    case _ => true
  }

  lemma StepKeepsDistinctIff(s: System, step: Step)
    requires Distinct(s.jobs)
    ensures Distinct(Apply(s, step).jobs) <==> Careful(s, step)
  {
    match step
    case AddJob(p, j, position) =>
      if j in s.jobs && Assignable(s.jobs[j], p) { AddKeepsOrder(s.jobs, p, j, position); }
    case RemoveJob(j) =>
      if j in s.jobs { RemoveKeepsOrder(s.jobs, j); }
    case SubmitJob(p, j) =>
      if j in s.jobs && Assignable(s.jobs[j], p) { SubmitKeepsOrderIff(s.jobs, p, j); }
    case ReorderJobs(p, ids) => ReorderKeepsDistinctIff(s.jobs, p, ids);
    case ClearJobs(p) => ClearKeepsDistinct(s.jobs, p);
    case UploadEnds(n, uploaded) =>
      if n < |s.inFlight| { FinishKeepsDistinctIff(s.jobs, s.inFlight[n], uploaded); }
    case _ =>
      var after := Apply(s, step).jobs;
      forall a, b | a in after && b in after && a != b ensures !SamePlace(after[a], after[b]) {
        assert a in s.jobs && b in s.jobs ==> !SamePlace(s.jobs[a], s.jobs[b]);
      }
  }

  // ---------- the queue is a list ----------

  /** The abstract machine: one list per printer. */
  type Queues = map<Id, seq<Id>>

  function ListOf(ls: Queues, p: Id): seq<Id> {
    if p in ls then ls[p] else []
  }

  function Without(q: seq<Id>, j: Id): seq<Id> {
    if q == [] then [] else if q[0] == j then q[1..] else [q[0]] + Without(q[1..], j)
  }

  function ApplyToLists(ls: Queues, step: Step): Queues {
    match step
    case AddJob(p, j, position) =>
      var q := ListOf(ls, p);
      if 0 <= Landing(q, position) <= |q| then ls[p := InsertAt(q, Landing(q, position), j)] else ls
    case RemoveJob(j) => map p | p in ls :: Without(ls[p], j)
    case SubmitJob(p, j) => ls[p := Without(ListOf(ls, p), j)]
    case ReorderJobs(p, ids) => ls[p := ids]
    case ClearJobs(p) => ls[p := []]
    case PrinterDeleted(p) => ls[p := []]
    case _ => ls
  }

  function RunLists(ls: Queues, steps: seq<Step>): Queues
    decreases |steps|
  {
    if steps == [] then ls else RunLists(ApplyToLists(ls, steps[0]), steps[1..])
  }

  predicate InFlight(s: System, j: Id) {
    exists n :: 0 <= n < |s.inFlight| && s.inFlight[n].jobId == j
  }

  predicate InQueue(jobs: Jobs, j: Id) {
    j in jobs && (Positioned(jobs[j]) || jobs[j].status == QUEUED)
  }

  /** How a client is meant to use the queue. */
  ghost predicate WellUsed(s: System, step: Step) {
    match step
    case AddJob(p, j, position) =>
      && j in s.jobs && Assignable(s.jobs[j], p) && !InFlight(s, j)
      && (s.jobs[j].printerId.Some? ==> !InQueue(s.jobs, j))
      && 0 <= Landing(GetQueue(s.jobs, p), position) <= |GetQueue(s.jobs, p)|
    case SubmitJob(p, j) =>
      j in s.jobs && s.jobs[j].printerId.None? ==> !Positioned(s.jobs[j])
    case ReorderJobs(p, ids) =>
      NoDuplicates(ids) && forall k :: k in ids <==> k in GetQueue(s.jobs, p)
    case JobCreated(j, p, hasFile) => !InFlight(s, j)
    case JobDeleted(j) => !InQueue(s.jobs, j)
    case StatusReported(j, status) => j in s.jobs ==> s.jobs[j].status != QUEUED && status != QUEUED
    case _ => true
  }

  /** The rows hold the lists, and a job being uploaded is out of the queue. */
  ghost predicate Refines(s: System, ls: Queues) {
    && (forall p: Id :: Represents(s.jobs, p, ListOf(ls, p)))
    && (forall n :: 0 <= n < |s.inFlight| ==> !InQueue(s.jobs, s.inFlight[n].jobId))
  }

  lemma {:induction false} WithoutStranger(q: seq<Id>, j: Id)
    requires j !in q
    ensures Without(q, j) == q
  {
    if q != [] {
      WithoutStranger(q[1..], j);
      assert q == [q[0]] + q[1..];
    }
  }

  lemma {:induction false} WithoutAt(q: seq<Id>, i: nat)
    requires NoDuplicates(q) && i < |q|
    ensures Without(q, q[i]) == DeleteAt(q, i)
  {
    if i > 0 {
      assert q[0] != q[i] && q[1..][i - 1] == q[i];
      WithoutAt(q[1..], i - 1);
      assert DeleteAt(q, i) == [q[0]] + DeleteAt(q[1..], i - 1);
    }
  }

  lemma WithoutDeletes(q: seq<Id>, j: Id)
    requires NoDuplicates(q)
    ensures j !in q ==> Without(q, j) == q
    ensures forall i :: 0 <= i < |q| && q[i] == j ==> Without(q, j) == DeleteAt(q, i)
  {
    if j !in q { WithoutStranger(q, j); }
    forall i | 0 <= i < |q| && q[i] == j ensures Without(q, j) == DeleteAt(q, i) {
      WithoutAt(q, i);
    }
  }

  /** A printer whose rows are untouched keeps its list. */
  lemma RepresentsFrame(jobs: Jobs, after: Jobs, p: Id, q: seq<Id>)
    requires Represents(jobs, p, q)
    requires forall k :: k in after && OnPrinter(after[k], p) && (Positioned(after[k]) || after[k].status == QUEUED)
                         ==> k in jobs && after[k] == jobs[k]
    requires forall k :: k in jobs && OnPrinter(jobs[k], p) && Positioned(jobs[k]) ==> k in after && after[k] == jobs[k]
    ensures Represents(after, p, q)
  {
    forall i | 0 <= i < |q| ensures At(after, p, q[i], i) && after[q[i]].status == QUEUED {
      assert At(jobs, p, q[i], i);
    }
  }

  lemma AddRefines(s: System, ls: Queues, p: Id, j: Id, position: Option<int>)
    requires Refines(s, ls) && WellUsed(s, AddJob(p, j, position))
    ensures Refines(Apply(s, AddJob(p, j, position)), ApplyToLists(ls, AddJob(p, j, position)))
  {
    var (t, ms) := (Apply(s, AddJob(p, j, position)), ApplyToLists(ls, AddJob(p, j, position)));
    var q := ListOf(ls, p);
    GetQueueIsList(s.jobs, p, q);
    if j in q { var i := IndexOf(s.jobs, p, q, j); }
    AddInserts(s.jobs, p, q, j, position);
    forall r: Id ensures Represents(t.jobs, r, ListOf(ms, r)) {
      assert Represents(s.jobs, r, ListOf(ls, r));
      if r != p { AddLeavesList(s, p, j, position, r, ListOf(ls, r)); }
    }
  }

  lemma AddLeavesList(s: System, p: Id, j: Id, position: Option<int>, r: Id, q: seq<Id>)
    requires Represents(s.jobs, r, q) && j in s.jobs && Assignable(s.jobs[j], p) && r != p
    ensures Represents(Apply(s, AddJob(p, j, position)).jobs, r, q)
  {
    RepresentsFrame(s.jobs, Apply(s, AddJob(p, j, position)).jobs, r, q);
  }

  lemma RemoveRefines(s: System, ls: Queues, j: Id)
    requires Refines(s, ls)
    ensures Refines(Apply(s, RemoveJob(j)), ApplyToLists(ls, RemoveJob(j)))
  {
    var (t, ms) := (Apply(s, RemoveJob(j)), ApplyToLists(ls, RemoveJob(j)));
    forall r: Id ensures Represents(t.jobs, r, ListOf(ms, r)) {
      assert Represents(s.jobs, r, ListOf(ls, r));
      RemoveFromList(s, j, r, ListOf(ls, r));
    }
  }

  lemma RemoveFromList(s: System, j: Id, r: Id, q: seq<Id>)
    requires Represents(s.jobs, r, q)
    ensures Represents(Apply(s, RemoveJob(j)).jobs, r, Without(q, j))
  {
    RepresentsDistinct(s.jobs, r, q);
    WithoutDeletes(q, j);
    if j in q {
      var i := IndexOf(s.jobs, r, q, j);
      RemoveDeletes(s.jobs, r, q, i);
    } else if j in s.jobs {
      RemoveLeavesList(s.jobs, j, r, q);
    }
  }

  lemma RemoveLeavesList(jobs: Jobs, j: Id, r: Id, q: seq<Id>)
    requires Represents(jobs, r, q) && j in jobs && j !in q
    ensures Represents(Remove(jobs, j).jobs, r, q)
  {
    var after := Remove(jobs, j).jobs;
    assert OnPrinter(jobs[j], r) ==> !Positioned(jobs[j]) && jobs[j].status != QUEUED;
    forall k | k in jobs && k != j && OnPrinter(jobs[k], r) ensures after[k] == jobs[k] { }
    RepresentsFrame(jobs, after, r, q);
  }

  lemma SubmitFrame(jobs: Jobs, p: Id, j: Id)
    requires Submit(jobs, p, j).Ok?
    ensures OthersKept(jobs, Submit(jobs, p, j).jobs, p, j)
    ensures !InQueue(Submit(jobs, p, j).jobs, j)
    ensures !Positioned(jobs[j]) ==> forall k :: k in jobs && k != j ==> Submit(jobs, p, j).jobs[k] == jobs[k]
    ensures forall k :: k in jobs && k != j ==> (InQueue(Submit(jobs, p, j).jobs, k) <==> InQueue(jobs, k))
  {
  }

  lemma SubmitRefines(s: System, ls: Queues, p: Id, j: Id)
    requires Refines(s, ls) && WellUsed(s, SubmitJob(p, j))
    ensures Refines(Apply(s, SubmitJob(p, j)), ApplyToLists(ls, SubmitJob(p, j)))
  {
    var (t, ms) := (Apply(s, SubmitJob(p, j)), ApplyToLists(ls, SubmitJob(p, j)));
    if t != s { SubmitFrame(s.jobs, p, j); }
    forall r: Id ensures Represents(t.jobs, r, ListOf(ms, r)) {
      var q := ListOf(ls, r);
      assert Represents(s.jobs, r, q);
      RepresentsDistinct(s.jobs, r, q);
      WithoutDeletes(q, j);
      if j in q && r == p {
        var i := IndexOf(s.jobs, r, q, j);
        SubmitDeletes(s.jobs, r, q, i);
      } else if t != s {
        SubmitLeavesList(s, ls, p, j, r);
      }
    }
  }

  lemma SubmitLeavesList(s: System, ls: Queues, p: Id, j: Id, r: Id)
    requires Refines(s, ls) && WellUsed(s, SubmitJob(p, j)) && Submit(s.jobs, p, j).Ok?
    requires j !in ListOf(ls, r) || r != p
    ensures Represents(Submit(s.jobs, p, j).jobs, r, ListOf(ls, r))
  {
    var (q, after) := (ListOf(ls, r), Submit(s.jobs, p, j).jobs);
    assert Represents(s.jobs, r, q);
    SubmitFrame(s.jobs, p, j);
    forall i | 0 <= i < |q| ensures At(after, r, q[i], i) && after[q[i]].status == QUEUED {
      assert At(s.jobs, r, q[i], i);
    }
    forall k | k in after && OnPrinter(after[k], r) && (Positioned(after[k]) || after[k].status == QUEUED)
      ensures k in q
    {
      assert InQueue(after, k) && k != j && InQueue(s.jobs, k);
    }
  }

  lemma ReorderRefines(s: System, ls: Queues, p: Id, ids: seq<Id>)
    requires Refines(s, ls) && WellUsed(s, ReorderJobs(p, ids))
    ensures Refines(Apply(s, ReorderJobs(p, ids)), ApplyToLists(ls, ReorderJobs(p, ids)))
  {
    var (t, ms) := (Apply(s, ReorderJobs(p, ids)), ApplyToLists(ls, ReorderJobs(p, ids)));
    var q := ListOf(ls, p);
    GetQueueIsList(s.jobs, p, q);
    ReorderInstalls(s.jobs, p, q, ids);
    forall k | k in q ensures OnPrinter(s.jobs[k], p) && InQueue(s.jobs, k) { var i := IndexOf(s.jobs, p, q, k); }
    forall r: Id ensures Represents(t.jobs, r, ListOf(ms, r)) {
      assert Represents(s.jobs, r, ListOf(ls, r));
      if r != p { RepresentsFrame(s.jobs, t.jobs, r, ListOf(ls, r)); }
    }
  }

  /** Each well-used step of the service is the corresponding step on the lists. */
  lemma StepRefines(s: System, ls: Queues, step: Step)
    requires Refines(s, ls) && WellUsed(s, step)
    ensures Refines(Apply(s, step), ApplyToLists(ls, step))
  {
    match step
    case AddJob(p, j, position) => AddRefines(s, ls, p, j, position);
    case RemoveJob(j) => RemoveRefines(s, ls, j);
    case SubmitJob(p, j) => SubmitRefines(s, ls, p, j);
    case ReorderJobs(p, ids) => ReorderRefines(s, ls, p, ids);
    case _ => OtherStepRefines(s, ls, step);
  }

  lemma OtherStepRefines(s: System, ls: Queues, step: Step)
    requires Refines(s, ls) && WellUsed(s, step)
    requires
      || step.ClearJobs? || step.UploadEnds? || step.JobCreated? || step.JobDeleted?
      || step.StatusReported? || step.PrinterDeleted?
    ensures Refines(Apply(s, step), ApplyToLists(ls, step))
  {
    var (t, ms) := (Apply(s, step), ApplyToLists(ls, step));
    forall r: Id ensures Represents(t.jobs, r, ListOf(ms, r)) {
      var q := ListOf(ls, r);
      assert Represents(s.jobs, r, q);
      if step == ClearJobs(r) { ClearEmpties(s.jobs, r, q); }
      else if step != PrinterDeleted(r) { RepresentsFrame(s.jobs, t.jobs, r, q); }
    }
  }

  ghost predicate WellUsedRun(s: System, steps: seq<Step>)
    decreases |steps|
  {
    steps == [] || (WellUsed(s, steps[0]) && WellUsedRun(Apply(s, steps[0]), steps[1..]))
  }

  /** Over every well-used run the table holds exactly the lists the abstract machine computes: getQueue
      returns them, a job assigned to a printer is QUEUED exactly when it holds a position, and no
      finishing upload dequeues a job a second time. */
  lemma {:induction false} RunRefines(s: System, ls: Queues, steps: seq<Step>)
    requires Refines(s, ls) && WellUsedRun(s, steps)
    ensures Refines(Run(s, steps), RunLists(ls, steps))
    ensures forall p: Id :: GetQueue(Run(s, steps).jobs, p) == ListOf(RunLists(ls, steps), p)
    ensures Synced(Run(s, steps).jobs)
    ensures forall n, uploaded :: 0 <= n < |Run(s, steps).inFlight| ==>
                                  !Dequeues(Run(s, steps).jobs, Run(s, steps).inFlight[n], uploaded)
    decreases |steps|
  {
    if steps == [] {
      forall p: Id ensures GetQueue(s.jobs, p) == ListOf(ls, p) {
        GetQueueIsList(s.jobs, p, ListOf(ls, p));
      }
      forall k | k in s.jobs && s.jobs[k].printerId.Some?
        ensures s.jobs[k].status == QUEUED <==> Positioned(s.jobs[k])
      {
        var p := s.jobs[k].printerId.value;
        assert Represents(s.jobs, p, ListOf(ls, p));
        if InQueue(s.jobs, k) { var i := IndexOf(s.jobs, p, ListOf(ls, p), k); }
      }
    } else {
      StepRefines(s, ls, steps[0]);
      RunRefines(Apply(s, steps[0]), ApplyToLists(ls, steps[0]), steps[1..]);
    }
  }

  // ---------- jobs queued again while their upload runs ----------

  /** A job assigned to a printer is QUEUED exactly when it holds a position. */
  ghost predicate Synced(jobs: Jobs) {
    forall k :: k in jobs && jobs[k].printerId.Some? ==> (jobs[k].status == QUEUED <==> Positioned(jobs[k]))
  }

  /** The handler ends the match of status and position exactly when the job was queued again: a failed
      upload marks it FAILED in the queue, and a successful one takes it out if it stands where it stood. */
  lemma FinishKeepsSyncedIff(jobs: Jobs, s: Submission, uploaded: bool)
    requires Synced(jobs)
    ensures Synced(FinishUpload(jobs, s, uploaded)) <==>
            !(&& s.jobId in jobs && jobs[s.jobId].printerId.Some? && Positioned(jobs[s.jobId])
              && (uploaded && s.hasFile ==> jobs[s.jobId].queuePosition == s.queuePosition))
  {
    var (after, j) := (FinishUpload(jobs, s, uploaded), s.jobId);
    forall k | k in jobs && k != j
      ensures after[k].printerId == jobs[k].printerId && after[k].status == jobs[k].status
      ensures Positioned(after[k]) <==> Positioned(jobs[k])
    {}
    assert j in jobs ==> j in after;
  }

  /** Re-adding a job to the place it was submitted from loses it when the upload succeeds. */
  lemma RequeuedJobIsLost(p: Id, j: Id)
    ensures var s := System(map[j := Job(Some(p), QUEUED, Some(0), true)], []);
            var t := Run(s, [SubmitJob(p, j), AddJob(p, j, Some(0)), UploadEnds(0, true)]);
            j in t.jobs && t.jobs[j].status == QUEUED && t.jobs[j].queuePosition == None && GetQueue(t.jobs, p) == []
  {
    var s := System(map[j := Job(Some(p), QUEUED, Some(0), true)], []);
    var steps := [SubmitJob(p, j), AddJob(p, j, Some(0)), UploadEnds(0, true)];
    var s1 := Apply(s, steps[0]);
    var s2 := Apply(s1, steps[1]);
    var s3 := Apply(s2, steps[2]);
    assert steps[1..] == [steps[1], steps[2]] && steps[1..][1..] == [steps[2]];
    assert Run(s, steps) == Run(s1, [steps[1], steps[2]]) == Run(s2, [steps[2]]) == Run(s3, []);
    assert s1.inFlight == [Submission(p, j, true, Some(0))];
    assert QueuedOn(s3.jobs, p) == {};
    ListsLength(GetQueue(s3.jobs, p), {}, QueueOrder(s3.jobs));
  }
}
