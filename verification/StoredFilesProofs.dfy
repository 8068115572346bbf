/** References from jobs to stored files over runs. */
module StoredFilesProofs {
  import opened Common
  import opened StoredFiles

  ghost predicate JobSound(files: map<FileId, Content>, job: Job) {
    && (job.fileStorageId.Some? ==> job.fileStorageId.value in files)
    && (job.fileHash.Some? ==> job.fileStorageId.Some? && job.fileHash.value == Sha(files[job.fileStorageId.value]))
  }

  /** Files are stored under the hash of their content, and sidecars know no other hash. */
  ghost predicate FilesSound(s: Storage) {
    && (forall id :: id in s.files ==> id.hash == Sha(s.files[id]))
    && (forall id :: id in s.sidecars && s.sidecars[id].fileHash.Some? ==> s.sidecars[id].fileHash.value == id.hash)
  }

  /** Every job with a fileStorageId refers to a file that is there, and its hash, if any, is that file's. */
  ghost predicate Sound(s: Storage) {
    && FilesSound(s)
    && (forall j :: j in s.jobs ==> JobSound(s.files, s.jobs[j]) && j < s.nextJob)
  }

  // ---------- the pipeline ----------

  /** The content can be read at the place reported, and nothing that was stored is lost. */
  ghost predicate GoodStore(s: Storage, r: Stored, content: Content) {
    && FilesSound(r.storage) && r.storage.jobs == s.jobs && r.storage.nextJob == s.nextJob
    && (forall id :: id in s.files ==> id in r.storage.files)
    && (r.fileId.Some? ==> r.fileId.value in r.storage.files && r.storage.files[r.fileId.value] == content)
  }

  lemma SaveMetadataKeeps(s: Storage, id: FileId, metadata: Metadata, hash: Option<Hash>, name: Option<string>)
    requires FilesSound(s) && (hash.Some? ==> hash.value == id.hash)
    ensures FilesSound(SaveMetadata(s, id, metadata, hash, name))
  {
  }

  lemma StoreNewIsGood(s: Storage, name: string, content: Content, analysed: Metadata, fault: Fault)
    requires FilesSound(s)
    ensures GoodStore(s, StoreNew(s, name, content, analysed, fault), content)
  {
    var (id, saved) := (FileId(Sha(content), name), SaveFile(s, content, name));
    assert FilesSound(saved);
    SaveMetadataKeeps(saved, id, analysed, Some(Sha(content)), Some(name));
  }

  lemma ReuseIsGood(s: Storage, id: FileId, known: Job, name: string, content: Content, analysed: Metadata,
                    fault: Fault)
    requires FilesSound(s) && id in s.files && s.files[id] == content
    ensures GoodStore(s, Reuse(s, id, known, name, content, analysed, fault), content)
  {
    SaveMetadataKeeps(s, id, analysed, Some(Sha(content)), Some(name));
    if known.metadata.Some? {
      SaveMetadataKeeps(s, id, known.metadata.value.(fileName := name), Some(Sha(content)), Some(name));
    }
  }

  lemma StoreIsGood(s: Storage, name: string, content: Content, analysed: Metadata, fault: Fault)
    requires Sound(s)
    ensures GoodStore(s, Store(s, name, content, analysed, fault), content)
  {
    var duplicate := FindDuplicateByHash(s.jobs, Sha(content));
    if duplicate.Some? {
      var known := s.jobs[duplicate.value];
      assert JobSound(s.files, known);
      ReuseIsGood(s, known.fileStorageId.value, known, name, content, analysed, fault);
    } else {
      StoreNewIsGood(s, name, content, analysed, fault);
    }
  }

  lemma UploadedSound(s: Storage, r: Stored, printerId: Id, name: string, content: Content, fault: Fault)
    requires Sound(s) && GoodStore(s, r, content)
    ensures Sound(Uploaded(r, printerId, name, content, fault))
  {
    GrowthKeepsJobs(s, r.storage);
  }

  lemma GrowthKeepsJobs(s: Storage, t: Storage)
    requires Sound(s) && FilesSound(t) && t.jobs == s.jobs && t.nextJob == s.nextJob
    requires forall id :: id in s.files ==> id in t.files
    ensures Sound(t)
  {
    forall j | j in t.jobs ensures JobSound(t.files, t.jobs[j]) {
      assert JobSound(s.files, s.jobs[j]);
    }
  }

  lemma DownloadedSound(s: Storage, r: Stored, jobId: Id, content: Content, fault: Fault)
    requires Sound(s) && GoodStore(s, r, content) && jobId in s.jobs
    ensures Sound(Downloaded(r, jobId, content, fault))
  {
    GrowthKeepsJobs(s, r.storage);
  }

  /** Everything but deleting a file from under its jobs keeps all references sound. */
  lemma StepKeepsSound(s: Storage, step: Step)
    requires Sound(s) && !step.DeleteStored?
    ensures Sound(Apply(s, step))
  {
    match step
    case Upload(p, name, content, analysed, fault) =>
      StoreIsGood(s, name, content, analysed, fault);
      UploadedSound(s, Store(s, name, content, analysed, fault), p, name, content, fault);
    case Download(j, known, content, analysed, fault) => DownloadKeepsSound(s, j, known, content, analysed, fault);
    case DeleteJob(j, deleteFile, fault) => DeletionKeepsSound(s, j, deleteFile, fault);
    case StoreOnly(name, content, analysed, fault) =>
      StoreNewIsGood(s, name, content, analysed, fault);
      GrowthKeepsJobs(s, StoreNew(s, name, content, analysed, fault).storage);
    case JobFromFile(p, id, known, fault) => FromFileKeepsSound(s, p, id, known, fault);
    case Reanalyze(j, analysed, fault) => ReanalyzeKeepsSound(s, j, analysed, fault);
    case AnalyzeFile(id, idText, analysed, fault) => AnalyzeKeepsSound(s, id, idText, analysed, fault);
    case _ =>
  }

  lemma DownloadKeepsSound(s: Storage, j: Id, known: bool, content: Option<Content>, analysed: Metadata, fault: Fault)
    requires Sound(s)
    ensures Sound(Apply(s, Step.Download(j, known, content, analysed, fault)))
  {
    if WantsDownload(s, j, known) && content.Some? {
      StoreIsGood(s, s.jobs[j].fileName, content.value, analysed, fault);
      DownloadedSound(s, Store(s, s.jobs[j].fileName, content.value, analysed, fault), j, content.value, fault);
    }
  }

  lemma FromFileKeepsSound(s: Storage, p: Id, id: FileId, known: bool, fault: Fault)
    requires Sound(s)
    ensures Sound(Apply(s, Step.JobFromFile(p, id, known, fault)))
  {
  }

  lemma ReanalyzeKeepsSound(s: Storage, j: Id, analysed: Metadata, fault: Fault)
    requires Sound(s)
    ensures Sound(Apply(s, Step.Reanalyze(j, analysed, fault)))
  {
    if j in s.jobs && s.jobs[j].fileStorageId.Some? {
      var (job, id) := (s.jobs[j], s.jobs[j].fileStorageId.value);
      assert JobSound(s.files, job);
      var done := s.(jobs := s.jobs[j := job.(analysis := Analyzed, metadata := Some(analysed))]);
      assert Sound(done);
      SaveMetadataKeeps(done, id, analysed, job.fileHash, Some(job.fileName));
      GrowthKeepsJobs(done, SaveMetadata(done, id, analysed, job.fileHash, Some(job.fileName)));
    }
  }

  lemma AnalyzeKeepsSound(s: Storage, id: FileId, idText: string, analysed: Metadata, fault: Fault)
    requires Sound(s)
    ensures Sound(Apply(s, Step.AnalyzeFile(id, idText, analysed, fault)))
  {
    var name := OrElse(if id in s.sidecars then s.sidecars[id].originalFileName else None, Some(idText));
    if id in s.files {
      SaveMetadataKeeps(s, id, analysed.(fileName := name.value), Some(Sha(s.files[id])), name);
      GrowthKeepsJobs(s, SaveMetadata(s, id, analysed.(fileName := name.value), Some(Sha(s.files[id])), name));
    }
  }

  lemma DeletionKeepsSound(s: Storage, jobId: Id, deleteFile: bool, fault: Fault)
    requires Sound(s)
    ensures Sound(Apply(s, Step.DeleteJob(jobId, deleteFile, fault)))
  {
    var r := Apply(s, Step.DeleteJob(jobId, deleteFile, fault));
    forall j | j in r.jobs ensures JobSound(r.files, r.jobs[j]) {
      if r.files != s.files {
        assert j !in References(s.jobs - {jobId}, s.jobs[jobId].fileStorageId.value);
      }
    }
  }

  /** Deleting a stored file directly keeps the references sound exactly when no job refers to it, or the file
      cannot be removed. */
  lemma DirectDeleteKeepsSoundIff(s: Storage, id: FileId, fault: Fault)
    requires Sound(s)
    ensures Sound(Apply(s, DeleteStored(id, fault))) <==> References(s.jobs, id) == {} || fault == InDeleteFile
  {
    var r := Apply(s, DeleteStored(id, fault));
    if j :| j in References(s.jobs, id) {
      assert JobSound(s.files, s.jobs[j]);
      assert fault != InDeleteFile ==> !JobSound(r.files, r.jobs[j]);
    } else {
      forall j | j in r.jobs ensures JobSound(r.files, r.jobs[j]) {
        assert j !in References(s.jobs, id);
      }
    }
  }

  ghost predicate Careful(s: Storage, steps: seq<Step>)
    decreases |steps|
  {
    steps != [] ==>
      && (steps[0].DeleteStored? ==> References(s.jobs, steps[0].fileId) == {} || steps[0].fault == InDeleteFile)
      && Careful(Apply(s, steps[0]), steps[1..])
  }

  lemma {:induction false} SoundOverRuns(s: Storage, steps: seq<Step>)
    requires Sound(s) && Careful(s, steps)
    ensures Sound(Run(s, steps))
    decreases |steps|
  {
    if steps != [] {
      if steps[0].DeleteStored? {
        DirectDeleteKeepsSoundIff(s, steps[0].fileId, steps[0].fault);
      } else {
        StepKeepsSound(s, steps[0]);
      }
      SoundOverRuns(Apply(s, steps[0]), steps[1..]);
    }
  }

  // ---------- what was uploaded can be read back ----------

  /** The job refers to a file with this content. */
  ghost predicate Holds(s: Storage, jobId: Id, content: Content) {
    jobId in s.jobs && s.jobs[jobId].fileStorageId.Some? && s.jobs[jobId].fileStorageId.value in s.files
    && s.files[s.jobs[jobId].fileStorageId.value] == content
  }

  lemma UploadHolds(s: Storage, printerId: Id, name: string, content: Content, analysed: Metadata)
    requires Sound(s)
    ensures Holds(Apply(s, Step.Upload(printerId, name, content, analysed, Nowhere)), s.nextJob, content)
  {
    var r := Store(s, name, content, analysed, Nowhere);
    StoreIsGood(s, name, content, analysed, Nowhere);
    StoreSucceeds(s, name, content, analysed);
    assert Holds(Uploaded(r, printerId, name, content, Nowhere), s.nextJob, content);
  }

  lemma StoreSucceeds(s: Storage, name: string, content: Content, analysed: Metadata)
    requires Sound(s)
    ensures Store(s, name, content, analysed, Nowhere).fileId.Some?
  {
    var duplicate := FindDuplicateByHash(s.jobs, Sha(content));
    if duplicate.Some? { assert JobSound(s.files, s.jobs[duplicate.value]); }
  }

  /** Jobs come with new ids, and a job never changes the file it refers to. */
  ghost predicate RefsStable(s: Storage, t: Storage) {
    && s.nextJob <= t.nextJob
    && (forall j :: j in t.jobs ==> j in s.jobs || s.nextJob <= j)
    && (forall j :: j in t.jobs && j in s.jobs && s.jobs[j].fileStorageId.Some? ==>
            t.jobs[j].fileStorageId == s.jobs[j].fileStorageId)
  }

  lemma StepKeepsRefs(s: Storage, step: Step)
    requires Sound(s)
    ensures RefsStable(s, Apply(s, step))
  {
    match step
    case Upload(p, name, content, analysed, fault) =>
      UploadedRefs(s, Store(s, name, content, analysed, fault), p, name, content, fault);
    case Download(j, known, content, analysed, fault) =>
      if WantsDownload(s, j, known) && content.Some? {
        DownloadedRefs(s, Store(s, s.jobs[j].fileName, content.value, analysed, fault), j, content.value, fault);
      }
    case _ =>
  }

  lemma UploadedRefs(s: Storage, r: Stored, p: Id, name: string, content: Content, fault: Fault)
    requires r.storage.jobs == s.jobs && r.storage.nextJob == s.nextJob
    ensures s.nextJob !in s.jobs ==> RefsStable(s, Uploaded(r, p, name, content, fault))
  {
  }

  lemma DownloadedRefs(s: Storage, r: Stored, j: Id, content: Content, fault: Fault)
    requires r.storage.jobs == s.jobs && r.storage.nextJob == s.nextJob && j in s.jobs && s.jobs[j].fileStorageId.None?
    ensures RefsStable(s, Downloaded(r, j, content, fault))
  {
  }

  lemma CarefulStepSound(s: Storage, step: Step)
    requires Sound(s) && (step.DeleteStored? ==> References(s.jobs, step.fileId) == {} || step.fault == InDeleteFile)
    ensures Sound(Apply(s, step))
  {
    if step.DeleteStored? { DirectDeleteKeepsSoundIff(s, step.fileId, step.fault); } else { StepKeepsSound(s, step); }
  }

  /** Refs and content addressing fix the content for good. */
  lemma StableHolds(s: Storage, t: Storage, jobId: Id, content: Content)
    requires Sound(s) && Sound(t) && RefsStable(s, t) && Holds(s, jobId, content) && jobId in t.jobs
    ensures Holds(t, jobId, content)
  {
    assert JobSound(t.files, t.jobs[jobId]);
  }

  lemma {:induction false} HeldOverRuns(s: Storage, steps: seq<Step>, jobId: Id, content: Content)
    requires Sound(s) && Careful(s, steps) && Holds(s, jobId, content)
    ensures jobId in Run(s, steps).jobs ==> Holds(Run(s, steps), jobId, content)
    decreases |steps|
  {
    if steps != [] {
      var next := Apply(s, steps[0]);
      CarefulStepSound(s, steps[0]);
      StepKeepsRefs(s, steps[0]);
      if jobId in next.jobs {
        StableHolds(s, next, jobId, content);
        HeldOverRuns(next, steps[1..], jobId, content);
      } else {
        DeletedJobsStayDeleted(next, steps[1..], jobId);
      }
    }
  }

  lemma {:induction false} DeletedJobsStayDeleted(s: Storage, steps: seq<Step>, jobId: Id)
    requires Sound(s) && Careful(s, steps)
    requires jobId !in s.jobs && jobId < s.nextJob
    ensures jobId !in Run(s, steps).jobs
    decreases |steps|
  {
    if steps != [] {
      CarefulStepSound(s, steps[0]);
      StepKeepsRefs(s, steps[0]);
      DeletedJobsStayDeleted(Apply(s, steps[0]), steps[1..], jobId);
    }
  }

  /** An uploaded file can be read back through its job for as long as the job exists, whatever other uploads,
      downloads and deletions happen meanwhile. */
  lemma UploadReadBack(s: Storage, printerId: Id, name: string, content: Content, analysed: Metadata, steps: seq<Step>)
    requires Sound(s) && Careful(Apply(s, Step.Upload(printerId, name, content, analysed, Nowhere)), steps)
    ensures var t := Run(Apply(s, Step.Upload(printerId, name, content, analysed, Nowhere)), steps);
            s.nextJob in t.jobs ==> Holds(t, s.nextJob, content)
  {
    var upload := Step.Upload(printerId, name, content, analysed, Nowhere);
    UploadHolds(s, printerId, name, content, analysed);
    StepKeepsSound(s, upload);
    HeldOverRuns(Apply(s, upload), steps, s.nextJob, content);
  }

  /** Content that some job already has is not stored again: the new job shares the file of the newest one. */
  lemma KnownContentIsShared(s: Storage, printerId: Id, name: string, content: Content, analysed: Metadata, known: Id)
    requires Sound(s) && Newest(s.jobs, Sha(content), known)
    ensures var t := Apply(s, Step.Upload(printerId, name, content, analysed, Nowhere));
            && t.files == s.files
            && s.nextJob in t.jobs && t.jobs[s.nextJob].fileStorageId == s.jobs[known].fileStorageId
  {
    NewestIsFound(s.jobs, Sha(content), known);
    assert JobSound(s.files, s.jobs[known]);
    var r := Store(s, name, content, analysed, Nowhere);
    assert r.storage.files == s.files && r.fileId == s.jobs[known].fileStorageId;
    assert Uploaded(r, printerId, name, content, Nowhere).files == r.storage.files;
  }

  // ---------- files without a job ----------

  /** Every stored file is referred to by some job. */
  ghost predicate NoLitter(s: Storage) {
    forall id :: id in s.files ==> References(s.jobs, id) != {}
  }

  /** The job is the only one that refers to its file. */
  predicate SoleReference(s: Storage, jobId: Id) {
    jobId in s.jobs && s.jobs[jobId].fileStorageId.Some?
      && References(s.jobs, s.jobs[jobId].fileStorageId.value) == {jobId}
  }

  /** Storing saves a new file and a later stage throws before the job refers to it. */
  predicate StoresInVain(s: Storage, name: string, content: Content, fault: Fault) {
    && WithHash(s.jobs, Sha(content)) == {}
    && fault in {InSaveMetadata, InCreateJob, InUpdateJob}
    && References(s.jobs, FileId(Sha(content), name)) == {}
  }

  predicate Litters(s: Storage, step: Step) {
    match step
    case Upload(p, name, content, analysed, fault) => StoresInVain(s, name, content, fault)
    case Download(j, known, content, analysed, fault) =>
      WantsDownload(s, j, known) && content.Some?
      && fault != InCreateJob && StoresInVain(s, s.jobs[j].fileName, content.value, fault)
    case DeleteJob(j, deleteFile, fault) =>
      SoleReference(s, j) && Deletable(s.jobs, j) && fault != InDeleteJob
      && (!deleteFile || fault == InCountJobs || fault == InDeleteFile)
    case StoreOnly(name, content, analysed, fault) =>
      fault != InAnalysis && fault != InSaveFile && References(s.jobs, FileId(Sha(content), name)) == {}
      && !exists id :: id in s.sidecars && s.sidecars[id].originalFileName == Some(name)
    case _ => false
  }

  /** A file loses its last job, or never gets one, exactly in these cases. */
  lemma StepKeepsNoLitterIff(s: Storage, step: Step)
    requires Sound(s) && NoLitter(s) && !step.DeleteStored?
    ensures NoLitter(Apply(s, step)) <==> !Litters(s, step)
  {
    match step
    case Upload(p, name, content, analysed, fault) => UploadLittersIff(s, p, name, content, analysed, fault);
    case Download(j, known, content, analysed, fault) => DownloadLittersIff(s, j, known, content, analysed, fault);
    case DeleteJob(j, deleteFile, fault) => DeleteLittersIff(s, j, deleteFile, fault);
    case StoreOnly(name, content, analysed, fault) => StoreOnlyLittersIff(s, name, content, analysed, fault);
    case _ => OthersKeepReferences(s, step);
  }

  ghost predicate KeepsReferences(s: Storage, r: Storage) {
    forall j, id :: j in References(s.jobs, id) ==> j in References(r.jobs, id)
  }

  lemma ReferencesKept(s: Storage, r: Storage)
    requires NoLitter(s) && KeepsReferences(s, r)
    ensures forall id :: id in s.files ==> References(r.jobs, id) != {}
  {
    forall id | id in s.files ensures References(r.jobs, id) != {} {
      var j :| j in References(s.jobs, id);
      assert j in References(r.jobs, id);
    }
  }

  lemma OthersKeepThem(s: Storage, step: Step)
    requires Sound(s)
    requires step.JobFromFile? || step.Reanalyze? || step.AnalyzeFile? || step.PrintStarted? || step.SetStatus?
    ensures Apply(s, step).files == s.files && KeepsReferences(s, Apply(s, step))
  {
    match step
    case JobFromFile(p, id, known, fault) => assert s.nextJob !in s.jobs;
    case Reanalyze(j, analysed, fault) =>
    case AnalyzeFile(id, idText, analysed, fault) =>
    case PrintStarted(p, name, analysis, metadata) => assert s.nextJob !in s.jobs;
    case SetStatus(j, status) =>
  }

  lemma OthersKeepReferences(s: Storage, step: Step)
    requires Sound(s) && NoLitter(s)
    requires step.JobFromFile? || step.Reanalyze? || step.AnalyzeFile? || step.PrintStarted? || step.SetStatus?
    ensures NoLitter(Apply(s, step))
  {
    OthersKeepThem(s, step);
    StillNoLitter(s, Apply(s, step));
  }

  lemma StillNoLitter(s: Storage, r: Storage)
    requires NoLitter(s) && KeepsReferences(s, r) && r.files == s.files
    ensures NoLitter(r)
  {
    ReferencesKept(s, r);
  }

  /** Storing adds at most one file, and only for content that no job has. */
  lemma StoreAdds(s: Storage, name: string, content: Content, analysed: Metadata, fault: Fault)
    requires Sound(s)
    ensures Added(s, Store(s, name, content, analysed, fault), name, content, fault)
  {
    var duplicate := FindDuplicateByHash(s.jobs, Sha(content));
    if duplicate.Some? { assert JobSound(s.files, s.jobs[duplicate.value]); }
  }

  lemma UploadLittersIff(s: Storage, p: Id, name: string, content: Content, analysed: Metadata, fault: Fault)
    requires Sound(s) && NoLitter(s)
    ensures var step := Step.Upload(p, name, content, analysed, fault);
            NoLitter(Apply(s, step)) <==> !Litters(s, step)
  {
    StoreAdds(s, name, content, analysed, fault);
    UploadedLittersIff(s, Store(s, name, content, analysed, fault), p, name, content, fault);
  }

  ghost predicate Added(s: Storage, r: Stored, name: string, content: Content, fault: Fault) {
    && r.storage.jobs == s.jobs && r.storage.nextJob == s.nextJob
    && var id := FileId(Sha(content), name);
       if WithHash(s.jobs, Sha(content)) != {} then r.storage.files == s.files
       else if fault == InAnalysis || fault == InSaveFile then r.storage.files == s.files && r.fileId == None
       else r.storage.files == s.files[id := content] && r.fileId == if fault == InSaveMetadata then None else Some(id)
  }

  lemma OneNewFile(s: Storage, t: Storage, id: FileId, content: Content)
    requires NoLitter(s) && KeepsReferences(s, t)
    ensures t.files == s.files ==> NoLitter(t)
    ensures t.files == s.files[id := content] ==> (NoLitter(t) <==> References(t.jobs, id) != {})
  {
    ReferencesKept(s, t);
  }

  lemma UploadedRefers(s: Storage, r: Stored, p: Id, name: string, content: Content, fault: Fault)
    requires Sound(s) && r.storage.jobs == s.jobs && r.storage.nextJob == s.nextJob
    ensures var t := Uploaded(r, p, name, content, fault);
            && t.files == r.storage.files && KeepsReferences(s, t)
            && forall id :: References(t.jobs, id) == References(s.jobs, id)
                 + (if r.fileId == Some(id) && fault != InCreateJob && fault != InUpdateJob then {s.nextJob} else {})
  {
    assert s.nextJob !in s.jobs;
  }

  lemma DownloadedRefers(s: Storage, r: Stored, j: Id, content: Content, fault: Fault)
    requires j in s.jobs && s.jobs[j].fileStorageId.None?
    requires r.storage.jobs == s.jobs && r.storage.nextJob == s.nextJob
    ensures var t := Downloaded(r, j, content, fault);
            && t.files == r.storage.files && KeepsReferences(s, t)
            && forall id :: References(t.jobs, id) == References(s.jobs, id)
                 + (if r.fileId == Some(id) && fault != InUpdateJob then {j} else {})
  {
  }

  lemma UploadedLittersIff(s: Storage, r: Stored, p: Id, name: string, content: Content, fault: Fault)
    requires Sound(s) && NoLitter(s) && Added(s, r, name, content, fault)
    ensures NoLitter(Uploaded(r, p, name, content, fault)) <==> !StoresInVain(s, name, content, fault)
  {
    UploadedRefers(s, r, p, name, content, fault);
    OneNewFile(s, Uploaded(r, p, name, content, fault), FileId(Sha(content), name), content);
  }

  lemma DownloadLittersIff(s: Storage, j: Id, known: bool, content: Option<Content>, analysed: Metadata, fault: Fault)
    requires Sound(s) && NoLitter(s)
    ensures var step := Step.Download(j, known, content, analysed, fault);
            NoLitter(Apply(s, step)) <==> !Litters(s, step)
  {
    if WantsDownload(s, j, known) && content.Some? {
      StoreAdds(s, s.jobs[j].fileName, content.value, analysed, fault);
      DownloadedLittersIff(s, Store(s, s.jobs[j].fileName, content.value, analysed, fault), j, content.value, fault);
    } else {
      var t := Apply(s, Step.Download(j, known, content, analysed, fault));
      assert KeepsReferences(s, t);
      ReferencesKept(s, t);
    }
  }

  lemma DownloadedLittersIff(s: Storage, r: Stored, j: Id, content: Content, fault: Fault)
    requires j in s.jobs && s.jobs[j].fileStorageId.None?
    requires Sound(s) && NoLitter(s) && Added(s, r, s.jobs[j].fileName, content, fault)
    ensures NoLitter(Downloaded(r, j, content, fault)) <==>
            !(fault != InCreateJob && StoresInVain(s, s.jobs[j].fileName, content, fault))
  {
    DownloadedRefers(s, r, j, content, fault);
    OneNewFile(s, Downloaded(r, j, content, fault), FileId(Sha(content), s.jobs[j].fileName), content);
  }

  lemma StoreOnlyLittersIff(s: Storage, name: string, content: Content, analysed: Metadata, fault: Fault)
    requires Sound(s) && NoLitter(s)
    ensures var step := Step.StoreOnly(name, content, analysed, fault);
            NoLitter(Apply(s, step)) <==> !Litters(s, step)
  {
    var r := Apply(s, Step.StoreOnly(name, content, analysed, fault));
    assert r.jobs == s.jobs;
    assert r.files == s.files || r.files == s.files[FileId(Sha(content), name) := content];
  }

  lemma DeleteLittersIff(s: Storage, j: Id, deleteFile: bool, fault: Fault)
    requires Sound(s) && NoLitter(s)
    ensures var step := Step.DeleteJob(j, deleteFile, fault); NoLitter(Apply(s, step)) <==> !Litters(s, step)
  {
    var r := Apply(s, Step.DeleteJob(j, deleteFile, fault));
    if Deletable(s.jobs, j) && fault != InDeleteJob {
      forall id ensures References(r.jobs, id) == References(s.jobs, id) - {j} { }
      var file := s.jobs[j].fileStorageId;
      forall id | id in s.files && file != Some(id) ensures References(r.jobs, id) != {} {
        assert j !in References(s.jobs, id);
      }
      if file.Some? {
        assert j in References(s.jobs, file.value);
        assert References(r.jobs, file.value) == {} <==> SoleReference(s, j);
      }
    }
  }


  /** Deleting the stored file of a job directly leaves the job without its file. */
  lemma DeletedUnderItsJob(printerId: Id, name: string, content: Content, analysed: Metadata)
    ensures var s := Apply(EMPTY, Step.Upload(printerId, name, content, analysed, Nowhere));
            Sound(s) && !Sound(Apply(s, DeleteStored(FileId(Sha(content), name), Nowhere)))
  {
    var s := Apply(EMPTY, Step.Upload(printerId, name, content, analysed, Nowhere));
    assert Sound(EMPTY);
    StepKeepsSound(EMPTY, Step.Upload(printerId, name, content, analysed, Nowhere));
    assert 1 in References(s.jobs, FileId(Sha(content), name));
    DirectDeleteKeepsSoundIff(s, FileId(Sha(content), name), Nowhere);
  }
}
