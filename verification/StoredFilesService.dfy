/** The job table and the file storage as the controllers and services change them, stage by stage. A `fault`
    argument says which stage throws. */
module StoredFilesServiceModel {
  import opened Common
  import opened StoredFiles

  class PrintFiles {
    var jobs: map<Id, Job>
    var nextJob: Id
    var files: map<FileId, Content>
    var sidecars: map<FileId, Sidecar>

    ghost function State(): Storage
      reads this
    {
      Storage(jobs, files, sidecars, nextJob)
    }

    constructor ()
      ensures State() == EMPTY
    {
      jobs, nextJob, files, sidecars := map[], 1, map[], map[];
    }

    // ---------- FileStorageService ----------

    method SaveFile(content: Content, originalName: string, fileHash: Hash) returns (fileId: FileId)
      requires fileHash == Sha(content)
      modifies this
      ensures fileId == FileId(fileHash, originalName)
      ensures State() == StoredFiles.SaveFile(old(State()), content, originalName)
    {
      fileId := FileId(fileHash, originalName);
      files := files[fileId := content];
    }

    method DeleteFile(fileStorageId: FileId, fault: Fault) returns (thrown: bool)
      modifies this
      ensures thrown <==> fileStorageId in old(files) && fault == InDeleteFile
      ensures State() == StoredFiles.DeleteFile(old(State()), fileStorageId, fault)
    {
      if fileStorageId !in files { return false; }
      if fault == InDeleteFile { return true; }
      files := files - {fileStorageId};
      if fault != InDeleteSidecar {
        sidecars := sidecars - {fileStorageId};
      }
      return false;
    }

    method SaveMetadata(fileStorageId: FileId, metadata: Metadata, fileHash: Option<Hash>,
                        originalFileName: Option<string>)
      modifies this
      ensures State() == StoredFiles.SaveMetadata(old(State()), fileStorageId, metadata, fileHash, originalFileName)
    {
      if fileStorageId !in files { return; }
      var name := originalFileName;
      if fileStorageId in sidecars && OrElse(originalFileName, None).None? {
        name := sidecars[fileStorageId].originalFileName;
      }
      if OrElse(name, None).None? {
        name := OrElse(Some(metadata.fileName), None);
      }
      sidecars := sidecars[fileStorageId := Sidecar(metadata, fileHash, name)];
    }

    method FindDuplicate(fileHash: Hash) returns (job: Option<Id>)
      ensures job.None? <==> forall j :: j in jobs ==> jobs[j].fileHash != Some(fileHash)
      ensures job.Some? ==> job.value in jobs && jobs[job.value].fileHash == Some(fileHash)
      ensures job.Some? ==> forall j :: j in jobs && jobs[j].fileHash == Some(fileHash) ==> j <= job.value
    {
      assert forall j :: j in jobs && jobs[j].fileHash == Some(fileHash) <==> j in WithHash(jobs, fileHash);
      job := FindDuplicateByHash(jobs, fileHash);
    }

    // ---------- PrintJobService ----------

    method CreatePendingJob(printerId: Id, fileName: string, metadata: Metadata) returns (jobId: Id)
      modifies this
      ensures jobId == old(nextJob)
              && State() == StoredFiles.CreatePendingJob(old(State()), printerId, fileName, metadata)
    {
      jobId := nextJob;
      var analysis := if metadata.facts.Some? then Analyzed else NotAnalyzed;
      jobs := jobs[jobId := Job(Some(printerId), fileName, Pending, analysis, Some(metadata), None, None)];
      nextJob := nextJob + 1;
    }

    method CountJobsReferencingFile(fileStorageId: FileId) returns (n: nat)
      ensures n == |References(jobs, fileStorageId)|
    {
      var todo := jobs.Keys;
      var found: set<Id> := {};
      while todo != {}
        invariant todo <= jobs.Keys
        invariant forall j :: j in found <==> j in jobs && j !in todo && jobs[j].fileStorageId == Some(fileStorageId)
        decreases todo
      {
        var j :| j in todo;
        if jobs[j].fileStorageId == Some(fileStorageId) {
          found := found + {j};
        }
        todo := todo - {j};
      }
      assert found == References(jobs, fileStorageId);
      n := |found|;
    }

    // ---------- the controllers and the downloader ----------

    /** Find or make the stored file of this content. */
    method StoreContent(name: string, content: Content, analysed: Metadata, fault: Fault)
      returns (fileStorageId: Option<FileId>, metadata: Metadata)
      modifies this
      ensures Stored(State(), fileStorageId, metadata) == Store(old(State()), name, content, analysed, fault)
    {
      fileStorageId, metadata := None, Metadata("", None);
      var fileHash := Sha(content);
      var existing := FindDuplicate(fileHash);
      if existing.Some? { NewestIsFound(jobs, fileHash, existing.value); }
      if existing.Some? && jobs[existing.value].fileStorageId.Some? {
        var job := jobs[existing.value];
        var id := job.fileStorageId.value;
        if id in files && id in sidecars {
          return Some(id), sidecars[id].metadata.(fileName := name);
        } else if job.analysis == Analyzed && job.metadata.Some? {
          if fault == InSaveMetadata { return; }
          metadata := job.metadata.value.(fileName := name);
        } else {
          if id !in files || fault == InAnalysis || fault == InSaveMetadata { return; }
          metadata := analysed;
        }
        SaveMetadata(id, metadata, Some(fileHash), Some(name));
        fileStorageId := Some(id);
      } else {
        if fault == InAnalysis || fault == InSaveFile { return; }
        var id := SaveFile(content, name, fileHash);
        if fault == InSaveMetadata { return; }
        metadata := analysed;
        SaveMetadata(id, metadata, Some(fileHash), Some(name));
        fileStorageId := Some(id);
      }
    }

    method UploadPrinterFile(printerId: Id, name: string, content: Content, analysed: Metadata, fault: Fault)
      modifies this
      ensures State() == Apply(old(State()), Step.Upload(printerId, name, content, analysed, fault))
    {
      var fileStorageId, metadata := StoreContent(name, content, analysed, fault);
      if fileStorageId.None? || fault == InCreateJob { return; }
      var jobId := CreatePendingJob(printerId, name, metadata);
      if fault == InUpdateJob { return; }
      var job := jobs[jobId];
      jobs := jobs[jobId := job.(fileStorageId := fileStorageId, fileHash := Some(Sha(content)))];
    }

    method HandleFileDownloadRequest(jobId: Id, printerKnown: bool, content: Option<Content>, analysed: Metadata,
                                     fault: Fault)
      modifies this
      ensures State() == Apply(old(State()), Step.Download(jobId, printerKnown, content, analysed, fault))
    {
      if jobId !in jobs { return; }
      var job := jobs[jobId];
      if job.fileStorageId.Some? || job.printerId.None? || !printerKnown { return; }
      if content.None? {
        jobs := jobs[jobId := job.(analysis := AnalysisFailed)];
        return;
      }
      var fileStorageId, metadata := StoreContent(job.fileName, content.value, analysed, fault);
      if fileStorageId.None? || fault == InUpdateJob {
        jobs := jobs[jobId := job.(analysis := AnalysisFailed)];
        return;
      }
      job := job.(fileStorageId := fileStorageId, fileHash := Some(Sha(content.value)));
      job := job.(metadata := Some(metadata), analysis := Analyzed);
      jobs := jobs[jobId := job];
    }

    method CreateJobFromFile(printerId: Id, fileStorageId: FileId, printerKnown: bool, fault: Fault)
      modifies this
      ensures State() == Apply(old(State()), Step.JobFromFile(printerId, fileStorageId, printerKnown, fault))
    {
      if fileStorageId !in files || fileStorageId !in sidecars || !printerKnown || fault == InCreateJob { return; }
      var sidecar := sidecars[fileStorageId];
      var name := "Unknown";
      if sidecar.originalFileName.Some? && sidecar.originalFileName.value != "" {
        name := sidecar.originalFileName.value;
      } else if sidecar.metadata.fileName != "" {
        name := sidecar.metadata.fileName;
      }
      var jobId := CreatePendingJob(printerId, name, sidecar.metadata);
      if fault == InUpdateJob { return; }
      var job := jobs[jobId].(fileStorageId := Some(fileStorageId), fileHash := sidecar.fileHash);
      jobs := jobs[jobId := job.(analysis := Analyzed)];
    }

    /** Reports that the file was deleted exactly when that was asked for, this job was the last to refer to it, and
        nothing threw. */
    method DeleteJob(jobId: Id, deleteFile: bool, fault: Fault) returns (fileDeleted: bool)
      modifies this
      ensures State() == Apply(old(State()), Step.DeleteJob(jobId, deleteFile, fault))
      ensures fileDeleted <==>
              && deleteFile && Deletable(old(jobs), jobId) && fault != InDeleteJob && fault != InCountJobs
              && old(jobs)[jobId].fileStorageId.Some?
              && var id := old(jobs)[jobId].fileStorageId.value;
                 References(old(jobs), id) == {jobId} && !(fault == InDeleteFile && id in old(files))
      ensures fileDeleted ==> old(jobs)[jobId].fileStorageId.value !in files
    {
      if jobId !in jobs { return false; }
      var job := jobs[jobId];
      if job.status == Printing || job.status == Paused { return false; }
      if fault == InDeleteJob { return false; }
      jobs := jobs - {jobId};
      if job.fileStorageId.Some? && deleteFile {
        if fault == InCountJobs { return false; }
        var otherJobs := CountJobsReferencingFile(job.fileStorageId.value);
        assert jobId in References(old(jobs), job.fileStorageId.value);
        assert References(jobs, job.fileStorageId.value) == References(old(jobs), job.fileStorageId.value) - {jobId};
        if otherJobs == 0 {
          var thrown := DeleteFile(job.fileStorageId.value, fault);
          return !thrown;
        }
      }
      return false;
    }

    method ReAnalyzeJob(jobId: Id, analysed: Metadata, fault: Fault)
      modifies this
      ensures State() == Apply(old(State()), Step.Reanalyze(jobId, analysed, fault))
    {
      if jobId !in jobs { return; }
      var job := jobs[jobId];
      if job.fileStorageId.None? || job.fileStorageId.value !in files || fault == InUpdateJob { return; }
      jobs := jobs[jobId := job.(analysis := Analyzing)];
      if fault == InAnalysis { return; }
      jobs := jobs[jobId := job.(analysis := Analyzed, metadata := Some(analysed))];
      if fault == InSaveMetadata { return; }
      SaveMetadata(job.fileStorageId.value, analysed, job.fileHash, Some(job.fileName));
    }

    method AnalyzeFile(fileStorageId: FileId, idText: string, analysed: Metadata, fault: Fault)
      modifies this
      ensures State() == Apply(old(State()), Step.AnalyzeFile(fileStorageId, idText, analysed, fault))
    {
      if fileStorageId !in files { return; }
      if fault == InAnalysis || fault == InSaveMetadata { return; }
      var fileHash := Sha(files[fileStorageId]);
      var name := idText;
      if fileStorageId in sidecars && OrElse(sidecars[fileStorageId].originalFileName, None).Some? {
        name := sidecars[fileStorageId].originalFileName.value;
      }
      SaveMetadata(fileStorageId, analysed.(fileName := name), Some(fileHash), Some(name));
    }
  }
}
