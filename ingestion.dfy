/**
 * The ingestion service: a job table updated in place, a creation counter that
 * orders the jobs, and the document service it reports outcomes to. Every
 * await of the source is a plain sequential call here.
 */
module Ingestion {
  import opened Wrappers
  import opened Errors
  import opened IngestionJobs
  import opened Processing
  import Documents

  /** The document table after processing: an existing document gets the outcome's status. */
  function Settled(docs: map<Documents.DocumentId, Documents.Document>, d: Documents.DocumentId, fault: Option<Fault>)
    : (r: map<Documents.DocumentId, Documents.Document>)
    ensures r.Keys == docs.Keys
    ensures forall k :: k in docs && k != d ==> r[k] == docs[k]
    ensures d in docs ==> r[d].status == SettledStatus(fault) && r[d].(status := docs[d].status) == docs[d]
  {
    if d in docs then docs[d := docs[d].(status := SettledStatus(fault))] else docs
  }

  /** Settling a document overrides the status it was marked with before. */
  lemma SettledAfterMark(docs: map<Documents.DocumentId, Documents.Document>, d: Documents.DocumentId,
                         s: Documents.DocumentStatus, fault: Option<Fault>)
    requires d in docs
    ensures Settled(docs[d := docs[d].(status := s)], d, fault) == Settled(docs, d, fault)
  {
  }

  /** A second write to the same job that gives a progress, after one that left the error alone, supersedes the first. */
  lemma Overwrite(table: map<JobId, IngestionJob>, id: JobId, job: IngestionJob, q: Patch, p: Patch)
    requires p.progress.Some? && q.errorMessage.None?
    ensures table[id := Apply(job, q)][id := Apply(Apply(job, q), p)] == table[id := Apply(job, p)]
  {
  }

  class IngestionService {
    var jobs: map<JobId, IngestionJob>
    var nextId: JobId
    var clock: nat
    const documents: Documents.DocumentsService
    /** Everything the service has done to the two stores, in order. */
    ghost var log: seq<Event>
    /** Which job was saved at each tick of the creation counter. */
    ghost var savedAt: map<nat, JobId>

    /**
     * Every job is stored under its own id, ids below `nextId` are taken,
     * and creation times are below the counter and distinct (each tick
     * belongs to one job).
     */
    ghost predicate Valid()
      reads this, documents
    {
      && documents.Valid()
      && (forall k :: k in jobs ==> jobs[k].id == k && k < nextId && jobs[k].createdAt < clock)
      && (forall k :: k in jobs ==> jobs[k].createdAt in savedAt && savedAt[jobs[k].createdAt] == k)
    }

    constructor (documents: Documents.DocumentsService)
      requires documents.Valid()
      ensures Valid() && this.documents == documents
      ensures jobs == map[] && log == []
    {
      this.documents := documents;
      jobs := map[];
      nextId := 0;
      clock := 0;
      log := [];
      savedAt := map[];
    }

    /** Saves a PENDING job for the dto, processes it to the end, and returns the record as saved. */
    method Create(dto: CreateIngestionJobDto, fault: Option<Fault>) returns (r: Result<IngestionJob, Error>)
      requires Valid()
      modifies this, documents
      ensures Valid() && nextId == old(nextId) + 1 && clock == old(clock) + 1
      ensures documents.nextId == old(documents.nextId)
      ensures var saved := NewJob(old(nextId), dto, old(clock));
              var known := dto.documentId in old(documents.docs);
        && saved.id !in old(jobs)
        && jobs == old(jobs)[saved.id := Apply(saved, FinalPatch(dto.documentId, fault, known))]
        && log == old(log) + [JobSaved(saved)] + ProcessingEvents(saved.id, dto.documentId, fault, known)
        && documents.docs == Settled(old(documents.docs), dto.documentId, fault)
        && r == if known then Success(saved) else Failure(DocumentNotFound(dto.documentId))
    {
      var job := Save(dto);
      var processed := ProcessIngestion(job.id, fault);
      if processed.Failure? {
        return Failure(processed.error);
      }
      r := Success(job);
    }

    /** Saves a fresh PENDING job for the dto under the next id and creation tick. */
    method Save(dto: CreateIngestionJobDto) returns (job: IngestionJob)
      requires Valid()
      modifies this`jobs, this`savedAt, this`nextId, this`clock, this`log
      ensures Valid() && nextId == old(nextId) + 1 && clock == old(clock) + 1
      ensures job == NewJob(old(nextId), dto, old(clock)) && job.id !in old(jobs)
      ensures jobs == old(jobs)[job.id := job] && log == old(log) + [JobSaved(job)]
    {
      job := NewJob(nextId, dto, clock);
      jobs := jobs[nextId := job];
      savedAt := savedAt[clock := nextId];
      nextId := nextId + 1;
      clock := clock + 1;
      log := log + [JobSaved(job)];
    }

    /** Every job, newest first. */
    method FindAll() returns (r: seq<IngestionJob>)
      requires Valid()
      ensures NewestFirst(r, jobs, None)
    {
      r := Find(None);
    }

    /** The stored job with that id, or NotFound. */
    method FindOne(id: JobId) returns (r: Result<IngestionJob, Error>)
      ensures r.Success? <==> id in jobs
      ensures r.Success? ==> r.value == jobs[id]
      ensures id !in jobs ==> r == Failure(JobNotFound(id))
    {
      if id !in jobs {
        return Failure(JobNotFound(id));
      }
      r := Success(jobs[id]);
    }

    /**
     * Overwrites status, progress and error message of the job (an update of
     * a missing id writes nothing) and re-reads it.
     */
    method UpdateStatus(id: JobId, status: IngestionStatus, progress: Option<int>, errorMessage: Option<string>)
      returns (r: Result<IngestionJob, Error>)
      requires Valid()
      modifies this`jobs, this`log
      ensures Valid()
      ensures log == old(log) + [JobUpdated(id, Patch(status, progress, errorMessage))]
      ensures id in old(jobs) ==>
        jobs == old(jobs)[id := Apply(old(jobs)[id], Patch(status, progress, errorMessage))] && r == Success(jobs[id])
      ensures id !in old(jobs) ==> jobs == old(jobs) && r == Failure(JobNotFound(id))
    {
      var p := Patch(status, progress, errorMessage);
      if id in jobs {
        jobs := jobs[id := Apply(jobs[id], p)];
      }
      log := log + [JobUpdated(id, p)];
      r := FindOne(id);
    }

    /**
     * Marks the document PROCESSING (a missing document rejects with NotFound
     * and no job is made), then creates a job whose metadata records the trigger time.
     */
    method TriggerIngestion(documentId: Documents.DocumentId, triggeredAt: string, fault: Option<Fault>)
      returns (r: Result<IngestionJob, Error>)
      requires Valid()
      modifies this, documents
      ensures Valid() && documents.nextId == old(documents.nextId)
      ensures nextId == old(nextId) + (if documentId in old(documents.docs) then 1 else 0)
      ensures clock == old(clock) + (if documentId in old(documents.docs) then 1 else 0)
      ensures documentId !in old(documents.docs) ==>
        && r == Failure(DocumentNotFound(documentId))
        && jobs == old(jobs) && nextId == old(nextId) && documents.docs == old(documents.docs)
        && log == old(log) + [DocumentStatusSet(documentId, Documents.PROCESSING)]
      ensures documentId in old(documents.docs) ==>
        var saved := NewJob(old(nextId), CreateIngestionJobDto(documentId, Some(map["triggeredAt" := triggeredAt])), old(clock));
        && r == Success(saved)
        && saved.id !in old(jobs)
        && jobs == old(jobs)[saved.id := Apply(saved, FinalPatch(documentId, fault, true))]
        && documents.docs == Settled(old(documents.docs), documentId, fault)
        && log == old(log) + [DocumentStatusSet(documentId, Documents.PROCESSING), JobSaved(saved)]
                           + ProcessingEvents(saved.id, documentId, fault, true)
    {
      var marked := documents.UpdateStatus(documentId, Documents.PROCESSING);
      log := log + [DocumentStatusSet(documentId, Documents.PROCESSING)];
      if marked.Failure? {
        return Failure(marked.error);
      }
      ghost var marking := log;
      SettledAfterMark(old(documents.docs), documentId, Documents.PROCESSING, fault);
      r := Create(CreateIngestionJobDto(documentId, Some(map["triggeredAt" := triggeredAt])), fault);
      assert marking + [JobSaved(r.value)] == old(log) + [DocumentStatusSet(documentId, Documents.PROCESSING), JobSaved(r.value)];
    }

    /**
     * Runs the job: the try block, and on any error the catch-all. Rejects only
     * when the catch-all's own call to the document bridge rejects.
     */
    method ProcessIngestion(jobId: JobId, fault: Option<Fault>) returns (r: Result<(), Error>)
      requires Valid() && jobId in jobs
      modifies this, documents
      ensures Valid() && nextId == old(nextId) && clock == old(clock)
      ensures documents.nextId == old(documents.nextId)
      ensures var job := old(jobs)[jobId];
        jobs == old(jobs)[jobId := Apply(job, FinalPatch(job.documentId, fault, job.documentId in old(documents.docs)))]
      ensures var job := old(jobs)[jobId];
        log == old(log) + ProcessingEvents(jobId, job.documentId, fault, job.documentId in old(documents.docs))
      ensures documents.docs == Settled(old(documents.docs), old(jobs)[jobId].documentId, fault)
      ensures var d := old(jobs)[jobId].documentId;
        r == if d in old(documents.docs) then Success(()) else Failure(DocumentNotFound(d))
    {
      ghost var job := jobs[jobId];
      ghost var d := job.documentId;
      ProcessingEventsSplit(jobId, d, fault, d in documents.docs);
      CatchAllIsFinal(job, fault, d in documents.docs);
      var caught := RunSteps(jobId, fault);
      if caught.Some? {
        assert caught.value.message == CaughtMessage(d, fault);
        r := Recover(jobId, caught.value.message);
      } else {
        r := Success(());
      }
    }

    /**
     * The try block: the job writes of `WriteSteps`, then the document set to
     * COMPLETED. Returns the error it stopped at, if any.
     */
    method RunSteps(jobId: JobId, fault: Option<Fault>) returns (caught: Option<Error>)
      requires Valid() && jobId in jobs
      modifies this, documents
      ensures Valid() && nextId == old(nextId) && clock == old(clock)
      ensures documents.nextId == old(documents.nextId)
      ensures var d := old(jobs)[jobId].documentId;
        caught == if Faults(fault) then Some(Internal(fault.value.message))
                  else if d in old(documents.docs) then None else Some(DocumentNotFound(d))
      ensures jobs == old(jobs)[jobId := Tried(old(jobs)[jobId], fault)]
      ensures log == old(log) + TryEvents(jobId, old(jobs)[jobId].documentId, fault)
      ensures documents.docs ==
        if Faults(fault) then old(documents.docs) else Settled(old(documents.docs), old(jobs)[jobId].documentId, fault)
    {
      var documentId;
      caught, documentId := WriteSteps(jobId, fault);
      if caught.Some? {
        return;
      }
      var bridged := documents.UpdateStatus(documentId, Documents.COMPLETED);
      log := log + [DocumentStatusSet(documentId, Documents.COMPLETED)];
      if bridged.Failure? {
        caught := Some(bridged.error);
      }
    }

    /**
     * The job writes of the try block: RUNNING at 0, a re-read of the job, the
     * progress loop from 0 to 100 in steps of 20, and COMPLETED at 100.
     */
    method WriteSteps(jobId: JobId, fault: Option<Fault>) returns (caught: Option<Error>, documentId: Documents.DocumentId)
      requires Valid() && jobId in jobs
      modifies this`jobs, this`log
      ensures Valid() && jobId in jobs
      ensures caught == if Faults(fault) then Some(Internal(fault.value.message)) else None
      ensures !Faults(fault) ==> documentId == old(jobs)[jobId].documentId
      ensures jobs == old(jobs)[jobId := Tried(old(jobs)[jobId], fault)]
      ensures log == old(log) + Updates(jobId, TryWrites()[..WritesDone(fault)])
    {
      ghost var job := jobs[jobId];
      TryWriteAt(1);
      documentId := jobs[jobId].documentId;
      caught := TryWrite(jobId, Running(0), fault, 0);
      if caught.Some? {
        assert jobs == old(jobs)[jobId := job];
        return;
      }
      UpdatesSnoc(old(log), jobId, TryWrites(), 0);
      var found := FindOne(jobId);
      documentId := found.value.documentId;
      caught := WriteRest(jobId, fault, job, old(jobs), old(log));
    }

    /** The try block's job writes after the first: the progress loop, then COMPLETED at 100. */
    method WriteRest(jobId: JobId, fault: Option<Fault>, ghost job: IngestionJob,
                     ghost table: map<JobId, IngestionJob>, ghost before: seq<Event>)
      returns (caught: Option<Error>)
      requires Valid() && jobId in jobs
      requires jobs == table[jobId := Apply(job, TryWrites()[0])]
      requires log == before + Updates(jobId, TryWrites()[..1])
      requires fault.None? || fault.value.atWrite >= 1
      modifies this`jobs, this`log
      ensures Valid() && jobId in jobs
      ensures caught == if Faults(fault) then Some(Internal(fault.value.message)) else None
      ensures jobs == table[jobId := Tried(job, fault)]
      ensures log == before + Updates(jobId, TryWrites()[..WritesDone(fault)])
    {
      var written;
      caught, written := WriteProgress(jobId, fault, job, table, before);
      if caught.Some? {
        assert WritesDone(fault) == written;
        return;
      }
      Overwrite(table, jobId, job, TryWrites()[6], Completed);
      caught := TryWrite(jobId, Completed, fault, 7);
      if caught.None? {
        UpdatesSnoc(before, jobId, TryWrites(), 7);
        assert TryWrites()[..8] == TryWrites();
        assert Tried(job, fault) == Apply(job, Completed);
      } else {
        assert WritesDone(fault) == 7;
      }
    }

    /**
     * The progress loop of the try block: RUNNING at 0, 20, ..., 100, stopping
     * at the write the fault strikes. `written` counts the try block's writes
     * done so far, the one before the loop included.
     */
    method WriteProgress(jobId: JobId, fault: Option<Fault>, ghost job: IngestionJob,
                         ghost table: map<JobId, IngestionJob>, ghost before: seq<Event>)
      returns (caught: Option<Error>, written: nat)
      requires Valid() && jobId in jobs
      requires jobs == table[jobId := Apply(job, TryWrites()[0])]
      requires log == before + Updates(jobId, TryWrites()[..1])
      requires fault.None? || fault.value.atWrite >= 1
      modifies this`jobs, this`log
      ensures Valid() && jobId in jobs && 1 <= written <= 7
      ensures jobs == table[jobId := Apply(job, TryWrites()[written - 1])]
      ensures log == before + Updates(jobId, TryWrites()[..written])
      ensures caught.None? ==> written == 7 && (fault.None? || fault.value.atWrite >= 7)
      ensures caught.Some? ==> Strikes(fault, written) && caught == Some(Internal(fault.value.message))
    {
      ghost var w := TryWrites();
      written := 1;
      caught := None;
      var i := 0;
      while i <= ProgressLimit
        invariant 1 <= written <= 7 && i == ProgressStep * (written - 1)
        invariant Valid() && jobId in jobs && caught.None?
        invariant jobs == table[jobId := Apply(job, w[written - 1])]
        invariant log == before + Updates(jobId, w[..written])
        invariant fault.None? || fault.value.atWrite >= written
      {
        TryWriteAt(written);
        ghost var p := w[written];
        caught := TryWrite(jobId, Running(i), fault, written);
        if caught.Some? {
          return;
        }
        Overwrite(table, jobId, job, w[written - 1], p);
        UpdatesSnoc(before, jobId, w, written);
        written := written + 1;
        i := i + ProgressStep;
      }
    }

    /** One job write of the try block, unless the fault strikes it. */
    method TryWrite(jobId: JobId, p: Patch, fault: Option<Fault>, index: nat) returns (caught: Option<Error>)
      requires Valid() && jobId in jobs
      modifies this`jobs, this`log
      ensures Valid() && jobId in jobs
      ensures Strikes(fault, index) ==>
        caught == Some(Internal(fault.value.message)) && jobs == old(jobs) && log == old(log)
      ensures !Strikes(fault, index) ==>
        && caught == None
        && jobs == old(jobs)[jobId := Apply(old(jobs)[jobId], p)]
        && log == old(log) + [JobUpdated(jobId, p)]
    {
      if Strikes(fault, index) {
        return Some(Internal(fault.value.message));
      }
      var _ := UpdateStatus(jobId, p.status, p.progress, p.errorMessage);
      caught := None;
    }

    /** The catch-all: FAILED with the error's message and no progress, then the document set to FAILED. */
    method Recover(jobId: JobId, message: string) returns (r: Result<(), Error>)
      requires Valid() && jobId in jobs
      modifies this, documents
      ensures Valid() && nextId == old(nextId) && clock == old(clock)
      ensures documents.nextId == old(documents.nextId)
      ensures var d := old(jobs)[jobId].documentId;
        && jobs == old(jobs)[jobId := Apply(old(jobs)[jobId], Patch(FAILED, None, Some(message)))]
        && log == old(log) + Recovery(jobId, d, message)
        && (d in old(documents.docs) ==>
              r == Success(()) && documents.docs == old(documents.docs)[d := old(documents.docs)[d].(status := Documents.FAILED)])
        && (d !in old(documents.docs) ==> r == Failure(DocumentNotFound(d)) && documents.docs == old(documents.docs))
    {
      var _ := UpdateStatus(jobId, FAILED, None, Some(message));
      var found := FindOne(jobId);
      var documentId := found.value.documentId;
      var bridged := documents.UpdateStatus(documentId, Documents.FAILED);
      log := log + [DocumentStatusSet(documentId, Documents.FAILED)];
      if bridged.Failure? {
        return Failure(bridged.error);
      }
      r := Success(());
    }

    /** The jobs of one document, newest first. */
    method GetJobsByDocument(documentId: Documents.DocumentId) returns (r: seq<IngestionJob>)
      requires Valid()
      ensures NewestFirst(r, jobs, Some(documentId))
      ensures forall i :: 0 <= i < |r| ==> r[i].documentId == documentId
    {
      r := Find(Some(documentId));
    }

    /**
     * A RUNNING job becomes FAILED with the cancellation message and its last
     * progress; a job in any other state is returned unchanged.
     */
    method CancelJob(id: JobId) returns (r: Result<IngestionJob, Error>)
      requires Valid()
      modifies this`jobs, this`log
      ensures Valid()
      ensures id !in old(jobs) ==> r == Failure(JobNotFound(id)) && jobs == old(jobs) && log == old(log)
      ensures id in old(jobs) ==>
        jobs == old(jobs)[id := Cancelled(old(jobs)[id])] && r == Success(Cancelled(old(jobs)[id]))
      ensures id in old(jobs) && old(jobs)[id].status == RUNNING ==>
        log == old(log) + [JobUpdated(id, Patch(FAILED, old(jobs)[id].progress, Some(CancelMessage)))]
      ensures id in old(jobs) && old(jobs)[id].status != RUNNING ==>
        jobs == old(jobs) && log == old(log) && r == Success(old(jobs)[id])
    {
      var found := FindOne(id);
      if found.Failure? {
        return found;
      }
      var job := found.value;
      if job.status == RUNNING {
        var _ := UpdateStatus(id, FAILED, job.progress, Some(CancelMessage));
      }
      r := FindOne(id);
    }

    /**
     * The repository query `find({ where, order: { createdAt: 'DESC' } })`:
     * walks the creation counter downwards and collects the matching job of each tick.
     */
    method Find(documentId: Option<Documents.DocumentId>) returns (r: seq<IngestionJob>)
      requires Valid()
      ensures NewestFirst(r, jobs, documentId)
    {
      r := [];
      var t := clock;
      while t > 0
        invariant t <= clock
        invariant forall i :: 0 <= i < |r| ==>
          r[i].id in jobs && jobs[r[i].id] == r[i] && Selected(r[i], documentId) && r[i].createdAt >= t
        invariant forall k :: k in jobs && Selected(jobs[k], documentId) && jobs[k].createdAt >= t ==> jobs[k] in r
        invariant Descending(r)
      {
        t := t - 1;
        if k :| k in jobs && jobs[k].createdAt == t && Selected(jobs[k], documentId) {
          r := r + [jobs[k]];
        }
      }
    }
  }
}
