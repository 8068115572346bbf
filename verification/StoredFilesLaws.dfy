/** What each call records: the rows of jobs, the stored files and their sidecars. */
module StoredFilesLaws {
  import opened Common
  import opened StoredFiles
  import opened StoredFilesProofs

  /** No job but j is new, changed or gone. */
  ghost predicate OtherJobsKept(s: Storage, t: Storage, j: Id) {
    forall k :: k != j ==> (k in t.jobs <==> k in s.jobs) && (k in s.jobs ==> t.jobs[k] == s.jobs[k])
  }

  /** The job refers to a file with this content and carries its hash. */
  ghost predicate Records(t: Storage, j: Id, content: Content) {
    Holds(t, j, content) && t.jobs[j].fileHash == Some(Sha(content))
  }

  // ---------- uploads ----------

  /** An upload in which nothing throws adds one PENDING job, which refers to a file with the content and carries its
      hash, so that it is the newest job with that hash. */
  lemma UploadRecords(s: Storage, p: Id, name: string, content: Content, analysed: Metadata)
    requires Sound(s)
    ensures var (t, j) := (Apply(s, Step.Upload(p, name, content, analysed, Nowhere)), s.nextJob);
            && Records(t, j, content) && OtherJobsKept(s, t, j) && t.nextJob == j + 1
            && t.jobs[j].printerId == Some(p) && t.jobs[j].fileName == name && t.jobs[j].status == Pending
            && t.jobs[j].metadata.Some?
            && t.jobs[j].analysis == (if t.jobs[j].metadata.value.facts.Some? then Analyzed else NotAnalyzed)
            && Newest(t.jobs, Sha(content), j)
  {
    UploadHolds(s, p, name, content, analysed);
    var t := Apply(s, Step.Upload(p, name, content, analysed, Nowhere));
    assert s.nextJob in t.jobs && t.jobs[s.nextJob].fileHash == Some(Sha(content));
    assert s.nextJob in WithHash(t.jobs, Sha(content));
  }

  /** Content that no job has is stored as a new file under its hash and name, with the analysis beside it. */
  lemma NewContentIsStored(s: Storage, p: Id, name: string, content: Content, analysed: Metadata)
    requires Sound(s) && forall j :: j in s.jobs ==> s.jobs[j].fileHash != Some(Sha(content))
    ensures var (t, id) := (Apply(s, Step.Upload(p, name, content, analysed, Nowhere)), FileId(Sha(content), name));
            && t.files == s.files[id := content] && t.jobs[s.nextJob].fileStorageId == Some(id)
            && t.jobs[s.nextJob].metadata == Some(analysed)
            && id in t.sidecars && t.sidecars[id].metadata == analysed && t.sidecars[id].fileHash == Some(Sha(content))
            && (name != "" ==> t.sidecars[id].originalFileName == Some(name))
  {
    assert WithHash(s.jobs, Sha(content)) == {};
  }

  /** Content that some job already has: the new job takes the metadata beside the file of the newest such job, or else
      that job's own, under the new name; only when neither is there it takes the fresh analysis. A sidecar is written
      where there was none. */
  lemma KnownContentIsDescribed(s: Storage, p: Id, name: string, content: Content, analysed: Metadata, known: Id)
    requires Sound(s) && Newest(s.jobs, Sha(content), known)
    ensures var (t, j, job) := (Apply(s, Step.Upload(p, name, content, analysed, Nowhere)), s.nextJob, s.jobs[known]);
            && j in t.jobs && job.fileStorageId.Some?
            && var id := job.fileStorageId.value;
            if id in s.sidecars then
              t.sidecars == s.sidecars && t.jobs[j].metadata == Some(s.sidecars[id].metadata.(fileName := name))
            else
              && (job.analysis == Analyzed && job.metadata.Some? ==>
                    t.jobs[j].metadata == Some(job.metadata.value.(fileName := name)))
              && (job.analysis != Analyzed || job.metadata.None? ==> t.jobs[j].metadata == Some(analysed))
              && id in t.sidecars && t.sidecars == s.sidecars[id := t.sidecars[id]]
              && t.sidecars[id].fileHash == Some(Sha(content))
              && t.jobs[j].metadata == Some(t.sidecars[id].metadata)
              && (name != "" ==> t.sidecars[id].originalFileName == Some(name))
  {
    NewestIsFound(s.jobs, Sha(content), known);
    assert JobSound(s.files, s.jobs[known]);
    var r := Store(s, name, content, analysed, Nowhere);
    assert Uploaded(r, p, name, content, Nowhere).sidecars == r.storage.sidecars;
  }

  /** Uploading content a second time, under any name, stores nothing: both jobs refer to one file. */
  lemma SecondUploadShares(s: Storage, p: Id, name: string, q: Id, other: string, content: Content, analysed: Metadata,
                           again: Metadata)
    requires Sound(s)
    ensures var t := Apply(s, Step.Upload(p, name, content, analysed, Nowhere));
            var u := Apply(t, Step.Upload(q, other, content, again, Nowhere));
            && u.files == t.files && s.nextJob in u.jobs && s.nextJob + 1 in u.jobs
            && u.jobs[s.nextJob].fileStorageId.Some?
            && u.jobs[s.nextJob].fileStorageId == u.jobs[s.nextJob + 1].fileStorageId
  {
    var first := Step.Upload(p, name, content, analysed, Nowhere);
    UploadRecords(s, p, name, content, analysed);
    StepKeepsSound(s, first);
    var t := Apply(s, first);
    KnownContentIsShared(t, q, other, content, again, s.nextJob);
    UploadRecords(t, q, other, content, again);
  }

  /** An upload that throws before its job is created adds none; one that throws afterwards leaves a job without file
      and hash. */
  lemma FailedUploadRecords(s: Storage, p: Id, name: string, content: Content, analysed: Metadata, fault: Fault)
    requires Sound(s)
    ensures var t := Apply(s, Step.Upload(p, name, content, analysed, fault));
            && OtherJobsKept(s, t, s.nextJob)
            && (fault == InCreateJob ==> t.jobs == s.jobs && t.nextJob == s.nextJob)
            && (fault == InUpdateJob ==>
                  s.nextJob in t.jobs && t.jobs[s.nextJob].fileStorageId.None? && t.jobs[s.nextJob].fileHash.None?)
  {
    StoreSucceedsUnless(s, name, content, analysed, fault);
    UploadedOthers(s, Store(s, name, content, analysed, fault), p, name, content, fault);
  }

  lemma StoreSucceedsUnless(s: Storage, name: string, content: Content, analysed: Metadata, fault: Fault)
    requires Sound(s)
    ensures fault !in {InAnalysis, InSaveFile, InSaveMetadata} ==> Store(s, name, content, analysed, fault).fileId.Some?
  {
    var duplicate := FindDuplicateByHash(s.jobs, Sha(content));
    if duplicate.Some? { assert JobSound(s.files, s.jobs[duplicate.value]); }
  }

  lemma UploadedOthers(s: Storage, r: Stored, p: Id, name: string, content: Content, fault: Fault)
    requires r.storage.jobs == s.jobs && r.storage.nextJob == s.nextJob
    ensures OtherJobsKept(s, Uploaded(r, p, name, content, fault), s.nextJob)
  {
  }

  // ---------- downloads ----------

  /** A download in which nothing throws makes its job ANALYZED, with a file of the content and its hash. */
  lemma DownloadRecords(s: Storage, j: Id, content: Content, analysed: Metadata)
    requires Sound(s) && WantsDownload(s, j, true)
    ensures var t := Apply(s, Step.Download(j, true, Some(content), analysed, Nowhere));
            && Records(t, j, content) && OtherJobsKept(s, t, j) && t.nextJob == s.nextJob
            && t.jobs[j].analysis == Analyzed && t.jobs[j].metadata.Some?
            && t.jobs[j].printerId == s.jobs[j].printerId && t.jobs[j].fileName == s.jobs[j].fileName
            && t.jobs[j].status == s.jobs[j].status
  {
    StoreIsGood(s, s.jobs[j].fileName, content, analysed, Nowhere);
    StoreSucceeds(s, s.jobs[j].fileName, content, analysed);
    var r := Store(s, s.jobs[j].fileName, content, analysed, Nowhere);
    assert Records(Downloaded(r, j, content, Nowhere), j, content);
  }

  /** A job that does not want its file is left alone; one whose download fails is marked, and nothing else. */
  lemma FailedDownloadRecords(s: Storage, j: Id, known: bool, content: Option<Content>, analysed: Metadata,
                              fault: Fault)
    requires Sound(s)
    ensures var t := Apply(s, Step.Download(j, known, content, analysed, fault));
            && (!WantsDownload(s, j, known) ==> t == s)
            && (WantsDownload(s, j, known) && (content.None? || fault == InUpdateJob) ==>
                  t.jobs == s.jobs[j := s.jobs[j].(analysis := AnalysisFailed)])
            && (WantsDownload(s, j, known) && content.None? ==> t.files == s.files)
  {
  }

  /** A job wants its file when it has none and its printer is known. */
  lemma WantsDownloadWhen(s: Storage, j: Id, known: bool)
    ensures WantsDownload(s, j, known) <==>
            j in s.jobs && s.jobs[j].fileStorageId == None && s.jobs[j].printerId != None && known
  {
  }

  // ---------- prints ----------

  /** A print that starts on the printer itself adds a job without file and hash that cannot be deleted; a change of
      status changes nothing else. */
  lemma PrintRecords(s: Storage, p: Id, name: string, analysis: Analysis, metadata: Option<Metadata>, j: Id,
                     status: Status)
    ensures var (t, n) := (Apply(s, PrintStarted(p, name, analysis, metadata)), s.nextJob);
            && OtherJobsKept(s, t, n) && t.files == s.files && t.sidecars == s.sidecars && t.nextJob == n + 1
            && n in t.jobs && t.jobs[n].printerId == Some(p) && t.jobs[n].fileName == name
            && t.jobs[n].analysis == analysis && t.jobs[n].metadata == metadata
            && t.jobs[n].fileStorageId.None? && t.jobs[n].fileHash.None? && !Deletable(t.jobs, n)
    ensures var t := Apply(s, SetStatus(j, status));
            && t == s.(jobs := t.jobs) && OtherJobsKept(s, t, j) && (j in t.jobs <==> j in s.jobs)
            && (j in s.jobs ==> t.jobs[j] == s.jobs[j].(status := t.jobs[j].status) && t.jobs[j].status == status)
  {
  }

  // ---------- jobs from stored files ----------

  /** The first name that is there and not empty. */
  function FirstName(a: Option<string>, b: string): string {
    if a.Some? && a.value != "" then a.value else if b != "" then b else "Unknown"
  }

  /** A job made from a stored file refers to that file and takes hash and metadata of its sidecar. */
  lemma FromFileRecords(s: Storage, p: Id, id: FileId, known: bool, fault: Fault)
    ensures var (t, j) := (Apply(s, Step.JobFromFile(p, id, known, fault)), s.nextJob);
            if id in s.files && id in s.sidecars && known && fault != InCreateJob then
              var sidecar := s.sidecars[id];
              && t.files == s.files && t.sidecars == s.sidecars && t.nextJob == j + 1 && OtherJobsKept(s, t, j)
              && j in t.jobs && t.jobs[j].printerId == Some(p) && t.jobs[j].status == Pending
              && t.jobs[j].fileName == FirstName(sidecar.originalFileName, sidecar.metadata.fileName)
              && t.jobs[j].metadata == Some(sidecar.metadata)
              && (fault != InUpdateJob ==> t.jobs[j].fileStorageId == Some(id)
                                           && t.jobs[j].fileHash == sidecar.fileHash && t.jobs[j].analysis == Analyzed)
              && (fault == InUpdateJob ==> t.jobs[j].fileStorageId.None? && t.jobs[j].fileHash.None?)
            else t == s
  {
  }

  // ---------- sidecars ----------

  /** Metadata of a file that is there are written beside it with this hash; the name is the one given, else the one
      the sidecar had, else the one the metadata have. No other sidecar changes. */
  lemma SidecarWritten(s: Storage, id: FileId, metadata: Metadata, hash: Option<Hash>, name: Option<string>)
    ensures var t := SaveMetadata(s, id, metadata, hash, name);
            && (id !in s.files ==> t == s)
            && (forall f :: f != id ==> (f in t.sidecars <==> f in s.sidecars))
            && (forall f :: f != id && f in s.sidecars ==> t.sidecars[f] == s.sidecars[f])
            && (id in s.files ==>
                  && id in t.sidecars && t.sidecars[id].metadata == metadata && t.sidecars[id].fileHash == hash
                  && (name.Some? && name.value != "" ==> t.sidecars[id].originalFileName == name)
                  && (name.None? || name.value == "" ==>
                        if id in s.sidecars && s.sidecars[id].originalFileName.Some?
                           && s.sidecars[id].originalFileName.value != ""
                        then t.sidecars[id].originalFileName == s.sidecars[id].originalFileName
                        else metadata.fileName != "" ==> t.sidecars[id].originalFileName == Some(metadata.fileName)))
  {
  }

  /** Re-analysis of a job with a file: the job takes the metadata, and the sidecar the metadata with the job's own
      hash and name. */
  lemma ReanalysisRecords(s: Storage, j: Id, analysed: Metadata)
    requires Sound(s) && j in s.jobs && s.jobs[j].fileStorageId.Some?
    ensures var (t, id) := (Apply(s, Step.Reanalyze(j, analysed, Nowhere)), s.jobs[j].fileStorageId.value);
            && t.jobs == s.jobs[j := s.jobs[j].(analysis := Analyzed, metadata := Some(analysed))]
            && t.files == s.files && t.nextJob == s.nextJob
            && id in t.sidecars && t.sidecars[id].metadata == analysed && t.sidecars[id].fileHash == s.jobs[j].fileHash
            && (s.jobs[j].fileName != "" ==> t.sidecars[id].originalFileName == Some(s.jobs[j].fileName))
  {
    assert JobSound(s.files, s.jobs[j]);
  }

  /** Analysis of a stored file: its sidecar takes the hash of the content it has now and keeps its name. */
  lemma AnalysisRecords(s: Storage, id: FileId, idText: string, analysed: Metadata)
    requires id in s.files && idText != ""
    ensures var t := Apply(s, Step.AnalyzeFile(id, idText, analysed, Nowhere));
            && t.jobs == s.jobs && t.files == s.files && id in t.sidecars
            && t.sidecars[id].fileHash == Some(Sha(s.files[id])) && t.sidecars[id].metadata.facts == analysed.facts
            && t.sidecars[id].originalFileName == Some(t.sidecars[id].metadata.fileName)
            && t.sidecars[id].metadata.fileName
               == if id in s.sidecars && s.sidecars[id].originalFileName.Some?
                     && s.sidecars[id].originalFileName.value != ""
                  then s.sidecars[id].originalFileName.value else idText
  {
  }

  // ---------- the storage alone ----------

  /** A name some sidecar carries is refused; otherwise content, hash and analysis are stored under the name. */
  lemma StorageUploadRecords(s: Storage, name: string, content: Content, analysed: Metadata)
    ensures var (t, id) := (Apply(s, Step.StoreOnly(name, content, analysed, Nowhere)), FileId(Sha(content), name));
            && t.jobs == s.jobs && t.nextJob == s.nextJob
            && ((exists f :: f in s.sidecars && s.sidecars[f].originalFileName == Some(name)) ==> t == s)
            && ((forall f :: f in s.sidecars ==> s.sidecars[f].originalFileName != Some(name)) ==>
                  && t.files == s.files[id := content] && id in t.sidecars
                  && t.sidecars[id].metadata == analysed && t.sidecars[id].fileHash == Some(Sha(content))
                  && (name != "" ==> t.sidecars[id].originalFileName == Some(name)))
  {
  }

  /** A job being printed is not deleted. Otherwise its row goes; the file goes exactly when that was asked for and no
      other job refers to it, and no other file goes. */
  lemma DeletionRecords(s: Storage, j: Id, deleteFile: bool)
    requires j in s.jobs
    ensures var t := Apply(s, Step.DeleteJob(j, deleteFile, Nowhere));
            if s.jobs[j].status in {Printing, Paused} then t == s else
              && j !in t.jobs && OtherJobsKept(s, t, j) && t.nextJob == s.nextJob
              && forall id :: id in s.files ==>
                   (id !in t.files <==>
                    && deleteFile && s.jobs[j].fileStorageId == Some(id)
                    && forall k :: k in s.jobs && k != j ==> s.jobs[k].fileStorageId != Some(id))
    ensures var t := Apply(s, Step.DeleteJob(j, deleteFile, Nowhere));
            && (forall id :: id in t.files ==> id in s.files && t.files[id] == s.files[id])
            && (forall id :: id in t.sidecars <==> id in s.sidecars && !(id in s.files && id !in t.files))
  {
    var t := Apply(s, Step.DeleteJob(j, deleteFile, Nowhere));
    if s.jobs[j].fileStorageId.Some? {
      var id := s.jobs[j].fileStorageId.value;
      forall k
        ensures k in References(s.jobs - {j}, id)
                <==> k in s.jobs && k != j && s.jobs[k].fileStorageId == Some(id) {
      }
      assert |References(s.jobs - {j}, id)| == 0 <==> References(s.jobs - {j}, id) == {};
    }
  }

  /** Deleting a stored file removes it with its sidecar, and touches no job and no other file. */
  lemma DirectDeletionRecords(s: Storage, id: FileId)
    requires id in s.files
    ensures var t := Apply(s, DeleteStored(id, Nowhere));
            && t.jobs == s.jobs && id !in t.files && id !in t.sidecars
            && (forall f :: f != id ==> (f in t.files <==> f in s.files) && (f in t.sidecars <==> f in s.sidecars))
            && (forall f :: f in t.files ==> t.files[f] == s.files[f])
            && (forall f :: f in t.sidecars ==> t.sidecars[f] == s.sidecars[f])
  {
  }
}
