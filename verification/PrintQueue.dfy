/** The per-printer print queue: integer positions scattered over the rows of the job table. */
module PrintQueue {
  import opened Common

  datatype Status = PENDING | QUEUED | STARTING | PRINTING | PAUSED | COMPLETED | FAILED | CANCELLED | UNKNOWN

  /** A row of the print_job table, as far as the queue is concerned. */
  datatype Job = Job(printerId: Option<Id>, status: Status, queuePosition: Option<int>, hasFile: bool)

  type Jobs = map<Id, Job>

  datatype Error = JobNotFound | OtherPrinter

  datatype Outcome = Ok(jobs: Jobs) | Err(error: Error)

  // ---------- the queries and bulk updates the service sends to the database ----------

  predicate OnPrinter(job: Job, p: Id) {
    job.printerId == Some(p)
  }

  predicate Positioned(job: Job) {
    job.queuePosition.Some?
  }

  /** SET queuePosition = queuePosition + 1 WHERE printerId = p AND queuePosition >= from. */
  function Shift(jobs: Jobs, p: Id, from: int): Jobs {
    map k | k in jobs ::
      if OnPrinter(jobs[k], p) && Positioned(jobs[k]) && jobs[k].queuePosition.value >= from
      then jobs[k].(queuePosition := Some(jobs[k].queuePosition.value + 1))
      else jobs[k]
  }

  /** SET queuePosition = queuePosition - 1 WHERE printerId = p AND queuePosition > removed. */
  function Compact(jobs: Jobs, p: Id, removed: int): Jobs {
    map k | k in jobs ::
      if OnPrinter(jobs[k], p) && Positioned(jobs[k]) && jobs[k].queuePosition.value > removed
      then jobs[k].(queuePosition := Some(jobs[k].queuePosition.value - 1))
      else jobs[k]
  }

  /** ORDER BY printerId, queuePosition, with NULLs first; ties fall back on the row id. */
  predicate OptionLess<T>(a: Option<T>, b: Option<T>, less: (T, T) -> bool) {
    b.Some? && (a.None? || less(a.value, b.value))
  }

  predicate Before(jobs: Jobs, a: Id, b: Id) {
    if a !in jobs || b !in jobs then
      if a in jobs then true else if b in jobs then false else a <= b
    else
      var (x, y) := (jobs[a], jobs[b]);
      if x.printerId != y.printerId then OptionLess(x.printerId, y.printerId, (i, j) => i < j)
      else if x.queuePosition != y.queuePosition then OptionLess(x.queuePosition, y.queuePosition, (i, j) => i < j)
      else a <= b
  }

  function QueueOrder(jobs: Jobs): (leq: (Id, Id) -> bool)
    ensures TotalOrder(leq)
    ensures forall a, b :: leq(a, b) <==> Before(jobs, a, b)
  {
    (a: Id, b: Id) => Before(jobs, a, b)
  }

  /** The rows getQueue and getNextInQueue select, and the order they come back in. */
  function QueuedOn(jobs: Jobs, p: Id): set<Id> {
    set k | k in jobs && OnPrinter(jobs[k], p) && jobs[k].status == QUEUED && Positioned(jobs[k])
  }

  function GetQueue(jobs: Jobs, p: Id): (q: seq<Id>)
    ensures Lists(q, QueuedOn(jobs, p), QueueOrder(jobs))
  {
    SortBy(QueuedOn(jobs, p), QueueOrder(jobs))
  }

  /** The jobs holding a position in p's queue, whatever their status. */
  function PositionedOn(jobs: Jobs, p: Id): set<Id> {
    set k | k in jobs && OnPrinter(jobs[k], p) && Positioned(jobs[k])
  }

  /** SELECT MAX(queuePosition) WHERE printerId = p; None when no row has a position. */
  function MaxPosition(jobs: Jobs, p: Id): (r: Option<int>)
    ensures r.None? <==> PositionedOn(jobs, p) == {}
    ensures r.Some? ==> exists k :: k in PositionedOn(jobs, p) && jobs[k].queuePosition == r
    ensures r.Some? ==> forall k :: k in PositionedOn(jobs, p) ==> jobs[k].queuePosition.value <= r.value
  {
    var q := SortBy(PositionedOn(jobs, p), QueueOrder(jobs));
    if q == [] then None else
      var last := q[|q| - 1];
      assert last in q;
      assert forall k :: k in PositionedOn(jobs, p) ==> k in q && (k == last || Before(jobs, k, last));
      jobs[last].queuePosition
  }

  // ---------- what each operation does to the table ----------

  /** ensurePrinterAssignment: an unassigned job is taken over, another printer's job is refused. */
  predicate Assignable(job: Job, p: Id) {
    job.printerId.None? || job.printerId == Some(p)
  }

  function Add(jobs: Jobs, p: Id, j: Id, position: Option<int>): Outcome {
    if j !in jobs then Err(JobNotFound)
    else if !Assignable(jobs[j], p) then Err(OtherPrinter)
    else
      var at := if position.Some? then position.value
                else if MaxPosition(jobs, p).Some? then MaxPosition(jobs, p).value + 1 else 0;
      var shifted := if position.Some? then Shift(jobs, p, at) else jobs;
      Ok(shifted[j := jobs[j].(printerId := Some(p), queuePosition := Some(at), status := QUEUED)])
  }

  /** Take job `j` off position `c` and close the gap in printer `p`'s queue. */
  function Vacate(jobs: Jobs, p: Id, j: Id, c: int): Jobs
    requires j in jobs
  {
    Compact(jobs[j := jobs[j].(queuePosition := None)], p, c)
  }

  function Remove(jobs: Jobs, j: Id): Outcome {
    if j !in jobs then Err(JobNotFound)
    else
      var job := jobs[j];
      var demoted := jobs[j := job.(status := if job.status == QUEUED then PENDING else job.status)];
      if job.queuePosition.Some? && job.printerId.Some?
      then Ok(Vacate(demoted, job.printerId.value, j, job.queuePosition.value))
      else Ok(demoted[j := demoted[j].(queuePosition := None)])
  }

  function Submit(jobs: Jobs, p: Id, j: Id): Outcome {
    if j !in jobs then Err(JobNotFound)
    else if !Assignable(jobs[j], p) then Err(OtherPrinter)
    else
      var taken := jobs[j := jobs[j].(printerId := Some(p), status := PRINTING)];
      if Positioned(jobs[j]) then Ok(Vacate(taken, p, j, jobs[j].queuePosition.value)) else Ok(taken)
  }

  /** reorderQueue after its first `n` iterations. */
  function ReorderPrefix(jobs: Jobs, p: Id, ids: seq<Id>, n: nat): (r: Jobs)
    requires n <= |ids|
    ensures r.Keys == jobs.Keys
  {
    if n == 0 then jobs else
      var before := ReorderPrefix(jobs, p, ids, n - 1);
      var j := ids[n - 1];
      if j in before && OnPrinter(before[j], p) then before[j := before[j].(queuePosition := Some(n - 1))] else before
  }

  function Reorder(jobs: Jobs, p: Id, ids: seq<Id>): Jobs {
    ReorderPrefix(jobs, p, ids, |ids|)
  }

  predicate QueuedJob(job: Job, p: Id) {
    OnPrinter(job, p) && job.status == QUEUED
  }

  function Clear(jobs: Jobs, p: Id): Jobs {
    map k | k in jobs ::
      if QueuedJob(jobs[k], p) then jobs[k].(status := PENDING, queuePosition := None) else jobs[k]
  }

  /** The "printQueue.jobSubmitted" event: what the asynchronous upload handler will work with. */
  datatype Submission = Submission(printerId: Id, jobId: Id, hasFile: bool, queuePosition: Option<int>)

  /** The upload handler's database effect, once the upload has succeeded or failed. */
  function FinishUpload(jobs: Jobs, s: Submission, uploaded: bool): Jobs {
    var j := s.jobId;
    if uploaded && s.hasFile then
      if s.queuePosition.Some? && j in jobs && jobs[j].queuePosition == s.queuePosition
      then Vacate(jobs, s.printerId, j, s.queuePosition.value)
      else jobs
    else if j in jobs then jobs[j := jobs[j].(status := FAILED)] else jobs
  }
}
