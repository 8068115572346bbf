/** Print jobs and the stored files they refer to: deduplicated upload and download, jobs made from a stored
    file, and deletion with reference counting. */
module StoredFiles {
  import opened Common

  type Content = seq<int>

  /** SHA-256, taken to be injective; a file id is derived from the hash and the name of the upload. */
  datatype Hash = Sha(content: Content)
  datatype FileId = FileId(hash: Hash, name: string)

  /** What the analysis found; without facts all measured fields are null. */
  datatype Metadata = Metadata(fileName: string, facts: Option<int>)

  /** The JSON file beside a stored file. */
  datatype Sidecar = Sidecar(metadata: Metadata, fileHash: Option<Hash>, originalFileName: Option<string>)

  datatype Status = Pending | Queued | Printing | Paused | Completed | Failed | Cancelled | Unknown
  datatype Analysis = NotAnalyzed | Analyzing | Analyzed | AnalysisFailed

  datatype Job = Job(printerId: Option<Id>, fileName: string, status: Status, analysis: Analysis,
                     metadata: Option<Metadata>, fileStorageId: Option<FileId>, fileHash: Option<Hash>)

  datatype Storage = Storage(jobs: map<Id, Job>, files: map<FileId, Content>, sidecars: map<FileId, Sidecar>,
                             nextJob: Id)

  /** Where a call throws, if it does. */
  datatype Fault =
    | Nowhere | InAnalysis | InSaveFile | InSaveMetadata | InCreateJob | InUpdateJob
    | InDeleteJob | InCountJobs | InDeleteFile | InDeleteSidecar

  // ---------- the storage ----------

  predicate Newer(a: Id, b: Id) { a >= b }

  function WithHash(jobs: map<Id, Job>, hash: Hash): set<Id> {
    set j | j in jobs && jobs[j].fileHash == Some(hash)
  }

  lemma NewerIsOrder()
    ensures TotalOrder(Newer)
  {
  }

  /** The newest job with this hash. */
  function FindDuplicateByHash(jobs: map<Id, Job>, hash: Hash): (r: Option<Id>)
    ensures r.None? <==> WithHash(jobs, hash) == {}
    ensures r.Some? ==> r.value in jobs && jobs[r.value].fileHash == Some(hash)
    ensures r.Some? ==> forall j :: j in WithHash(jobs, hash) ==> j <= r.value
  {
    NewerIsOrder();
    var newestFirst := SortBy(WithHash(jobs, hash), Newer);
    if newestFirst == [] then None else
      assert newestFirst[0] in newestFirst;
      assert forall j :: j in WithHash(jobs, hash) ==>
               j in newestFirst && (j == newestFirst[0] || Newer(newestFirst[0], j));
      Some(newestFirst[0])
  }

  /** No later job has this hash. */
  ghost predicate Newest(jobs: map<Id, Job>, hash: Hash, j: Id) {
    j in WithHash(jobs, hash) && forall k :: k in WithHash(jobs, hash) ==> k <= j
  }

  lemma NewestIsFound(jobs: map<Id, Job>, hash: Hash, j: Id)
    ensures Newest(jobs, hash, j) <==> FindDuplicateByHash(jobs, hash) == Some(j)
  {
  }

  function OrElse(a: Option<string>, b: Option<string>): Option<string> {
    if a.Some? && a.value != "" then a else b
  }

  /** saveMetadata: does nothing for a missing file; keeps the original name of an earlier sidecar. */
  function SaveMetadata(s: Storage, id: FileId, metadata: Metadata, hash: Option<Hash>,
                        name: Option<string>): (r: Storage)
    ensures r.jobs == s.jobs && r.nextJob == s.nextJob && r.files == s.files
  {
    if id !in s.files then s else
      var kept := if id in s.sidecars then s.sidecars[id].originalFileName else None;
      var fallback := OrElse(Some(metadata.fileName), None);
      s.(sidecars := s.sidecars[id := Sidecar(metadata, hash, OrElse(OrElse(name, kept), fallback))])
  }

  function SaveFile(s: Storage, content: Content, name: string): Storage {
    s.(files := s.files[FileId(Sha(content), name) := content])
  }

  /** A missing file is ignored, sidecar and all; a sidecar that cannot be removed stays behind silently. */
  function DeleteFile(s: Storage, id: FileId, fault: Fault): Storage {
    if id !in s.files || fault == InDeleteFile then s
    else s.(files := s.files - {id}, sidecars := if fault == InDeleteSidecar then s.sidecars else s.sidecars - {id})
  }

  function References(jobs: map<Id, Job>, id: FileId): set<Id> {
    set j | j in jobs && jobs[j].fileStorageId == Some(id)
  }

  function CreatePendingJob(s: Storage, printerId: Id, fileName: string, metadata: Metadata): Storage {
    var analysis := if metadata.facts.Some? then Analyzed else NotAnalyzed;
    s.(jobs := s.jobs[s.nextJob := Job(Some(printerId), fileName, Pending, analysis, Some(metadata), None, None)],
       nextJob := s.nextJob + 1)
  }

  // ---------- the pipeline shared by upload and download ----------

  /** Which file the content ends up in, unless something throws on the way. */
  datatype Stored = Stored(storage: Storage, fileId: Option<FileId>, metadata: Metadata)

  function Thrown(s: Storage): Stored {
    Stored(s, None, Metadata("", None))
  }

  /** New content is analysed, then saved, then described. */
  function StoreNew(s: Storage, name: string, content: Content, analysed: Metadata, fault: Fault): (r: Stored)
    ensures r.storage.jobs == s.jobs && r.storage.nextJob == s.nextJob
  {
    var (id, saved) := (FileId(Sha(content), name), SaveFile(s, content, name));
    if fault == InAnalysis || fault == InSaveFile then Thrown(s)
    else if fault == InSaveMetadata then Thrown(saved)
    else Stored(SaveMetadata(saved, id, analysed, Some(Sha(content)), Some(name)), Some(id), analysed)
  }

  /** Known content keeps the file of the newest job that has it. */
  function Reuse(s: Storage, id: FileId, known: Job, name: string, content: Content, analysed: Metadata,
                 fault: Fault): (r: Stored)
    ensures r.storage.jobs == s.jobs && r.storage.nextJob == s.nextJob && r.storage.files == s.files
  {
    if id in s.files && id in s.sidecars then
      Stored(s, Some(id), s.sidecars[id].metadata.(fileName := name))
    else if known.analysis == Analyzed && known.metadata.Some? then
      var metadata := known.metadata.value.(fileName := name);
      if fault == InSaveMetadata then Thrown(s)
      else Stored(SaveMetadata(s, id, metadata, Some(Sha(content)), Some(name)), Some(id), metadata)
    else if fault == InAnalysis || fault == InSaveMetadata || id !in s.files then Thrown(s)
    else Stored(SaveMetadata(s, id, analysed, Some(Sha(content)), Some(name)), Some(id), analysed)
  }

  function Store(s: Storage, name: string, content: Content, analysed: Metadata, fault: Fault): (r: Stored)
    ensures r.storage.jobs == s.jobs && r.storage.nextJob == s.nextJob
  {
    var duplicate := FindDuplicateByHash(s.jobs, Sha(content));
    if duplicate.Some? && s.jobs[duplicate.value].fileStorageId.Some?
    then Reuse(s, s.jobs[duplicate.value].fileStorageId.value, s.jobs[duplicate.value], name, content, analysed, fault)
    else StoreNew(s, name, content, analysed, fault)
  }

  // ---------- the calls ----------

  function Uploaded(r: Stored, printerId: Id, name: string, content: Content, fault: Fault): Storage {
    if r.fileId.None? || fault == InCreateJob then r.storage else
      var (created, job) := (CreatePendingJob(r.storage, printerId, name, r.metadata), r.storage.nextJob);
      if fault == InUpdateJob then created else
        var row := created.jobs[job].(fileStorageId := r.fileId, fileHash := Some(Sha(content)));
        created.(jobs := created.jobs[job := row])
  }

  /** A failure after the file has reached the printer is only logged. */
  function Upload(s: Storage, printerId: Id, name: string, content: Content, analysed: Metadata,
                  fault: Fault): Storage {
    Uploaded(Store(s, name, content, analysed, fault), printerId, name, content, fault)
  }

  function MarkFailed(s: Storage, jobId: Id): Storage {
    if jobId in s.jobs then s.(jobs := s.jobs[jobId := s.jobs[jobId].(analysis := AnalysisFailed)]) else s
  }

  function Downloaded(r: Stored, jobId: Id, content: Content, fault: Fault): Storage
    requires jobId in r.storage.jobs
  {
    if r.fileId.None? || fault == InUpdateJob then MarkFailed(r.storage, jobId) else
      var job := r.storage.jobs[jobId].(fileStorageId := r.fileId, fileHash := Some(Sha(content)),
                                        metadata := Some(r.metadata), analysis := Analyzed);
      r.storage.(jobs := r.storage.jobs[jobId := job])
  }

  predicate WantsDownload(s: Storage, jobId: Id, printerKnown: bool) {
    jobId in s.jobs && s.jobs[jobId].fileStorageId.None? && s.jobs[jobId].printerId.Some? && printerKnown
  }

  /** handleFileDownloadRequest: `content` is absent when the printer does not deliver the file. */
  function Download(s: Storage, jobId: Id, printerKnown: bool, content: Option<Content>, analysed: Metadata,
                    fault: Fault): Storage {
    if !WantsDownload(s, jobId, printerKnown) then s
    else if content.None? then MarkFailed(s, jobId)
    else Downloaded(Store(s, s.jobs[jobId].fileName, content.value, analysed, fault), jobId, content.value, fault)
  }

  /** createJobFromFile takes the hash from the sidecar, which may not know it. */
  function JobFromFile(s: Storage, printerId: Id, id: FileId, printerKnown: bool, fault: Fault): Storage {
    if id !in s.files || id !in s.sidecars || !printerKnown || fault == InCreateJob then s else
      var sidecar := s.sidecars[id];
      var name := OrElse(OrElse(sidecar.originalFileName, Some(sidecar.metadata.fileName)), Some("Unknown"));
      var created := CreatePendingJob(s, printerId, name.value, sidecar.metadata);
      if fault == InUpdateJob then created else
        var row := created.jobs[s.nextJob].(fileStorageId := Some(id), fileHash := sidecar.fileHash,
                                            analysis := Analyzed);
        created.(jobs := created.jobs[s.nextJob := row])
  }

  /** deleteJob: the row goes first, then the file if it was asked for and no row refers to it any more. */
  function DeleteJob(s: Storage, jobId: Id, deleteFile: bool, fault: Fault): Storage {
    if !Deletable(s.jobs, jobId) || fault == InDeleteJob then s else
      var (file, removed) := (s.jobs[jobId].fileStorageId, s.(jobs := s.jobs - {jobId}));
      if file.Some? && deleteFile && fault != InCountJobs && |References(removed.jobs, file.value)| == 0
      then DeleteFile(removed, file.value, fault) else removed
  }

  /** Jobs that are being printed are not deleted. */
  predicate Deletable(jobs: map<Id, Job>, jobId: Id) {
    jobId in jobs && jobs[jobId].status != Printing && jobs[jobId].status != Paused
  }

  /** Upload to the storage alone; refused when a sidecar already carries the name. */
  function StoreOnly(s: Storage, name: string, content: Content, analysed: Metadata, fault: Fault): Storage {
    if exists id :: id in s.sidecars && s.sidecars[id].originalFileName == Some(name) then s
    else StoreNew(s, name, content, analysed, fault).storage
  }

  /** The re-analyze call of a job; without a stored file it asks for a download instead. */
  function Reanalyze(s: Storage, jobId: Id, analysed: Metadata, fault: Fault): Storage {
    if jobId !in s.jobs || s.jobs[jobId].fileStorageId.None? || s.jobs[jobId].fileStorageId.value !in s.files
       || fault == InUpdateJob
    then s
    else
      var (job, id) := (s.jobs[jobId], s.jobs[jobId].fileStorageId.value);
      var started := s.(jobs := s.jobs[jobId := job.(analysis := Analyzing)]);
      if fault == InAnalysis then started else
        var done := s.(jobs := s.jobs[jobId := job.(analysis := Analyzed, metadata := Some(analysed))]);
        if fault == InSaveMetadata then done else SaveMetadata(done, id, analysed, job.fileHash, Some(job.fileName))
  }

  /** The analyze call of a stored file hashes it anew; a file without a name is named by its id. */
  function AnalyzeFile(s: Storage, id: FileId, idText: string, analysed: Metadata, fault: Fault): Storage {
    if id !in s.files || fault == InAnalysis || fault == InSaveMetadata then s else
      var name := OrElse(if id in s.sidecars then s.sidecars[id].originalFileName else None, Some(idText));
      SaveMetadata(s, id, analysed.(fileName := name.value), Some(Sha(s.files[id])), name)
  }

  datatype Step =
    | Upload(printerId: Id, name: string, content: Content, analysed: Metadata, fault: Fault)
    | Download(jobId: Id, printerKnown: bool, delivered: Option<Content>, analysed: Metadata, fault: Fault)
    | JobFromFile(printerId: Id, fileId: FileId, printerKnown: bool, fault: Fault)
    | DeleteJob(jobId: Id, deleteFile: bool, fault: Fault)
    | StoreOnly(name: string, content: Content, analysed: Metadata, fault: Fault)
    | Reanalyze(jobId: Id, analysed: Metadata, fault: Fault)
    | AnalyzeFile(fileId: FileId, idText: string, analysed: Metadata, fault: Fault)
      // a print that starts on the printer: a re-print takes over the analysis of the job it repeats
    | PrintStarted(printerId: Id, name: string, analysis: Analysis, metadata: Option<Metadata>)
    | SetStatus(jobId: Id, status: Status)
    | DeleteStored(fileId: FileId, fault: Fault)

  function Apply(s: Storage, step: Step): Storage {
    match step
    case Upload(p, name, content, analysed, fault) => Upload(s, p, name, content, analysed, fault)
    case Download(j, known, content, analysed, fault) => Download(s, j, known, content, analysed, fault)
    case JobFromFile(p, id, known, fault) => JobFromFile(s, p, id, known, fault)
    case DeleteJob(j, deleteFile, fault) => DeleteJob(s, j, deleteFile, fault)
    case StoreOnly(name, content, analysed, fault) => StoreOnly(s, name, content, analysed, fault)
    case Reanalyze(j, analysed, fault) => Reanalyze(s, j, analysed, fault)
    case AnalyzeFile(id, idText, analysed, fault) => AnalyzeFile(s, id, idText, analysed, fault)
    case PrintStarted(p, name, analysis, metadata) =>
      s.(jobs := s.jobs[s.nextJob := Job(Some(p), name, Printing, analysis, metadata, None, None)],
          nextJob := s.nextJob + 1)
    case SetStatus(j, status) => if j in s.jobs then s.(jobs := s.jobs[j := s.jobs[j].(status := status)]) else s
    case DeleteStored(id, fault) => DeleteFile(s, id, fault)
  }

  function Run(s: Storage, steps: seq<Step>): Storage
    decreases |steps|
  {
    if steps == [] then s else Run(Apply(s, steps[0]), steps[1..])
  }

  const EMPTY := Storage(map[], map[], map[], 1)
}
