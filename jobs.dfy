/**
 * The ingestion job record, the status write the service applies to it, and
 * the newest-first listing the job queries return.
 */
module IngestionJobs {
  import opened Wrappers
  import Documents

  type JobId = nat

  datatype IngestionStatus = PENDING | RUNNING | COMPLETED | FAILED

  /** An opaque JSON bag supplied by the caller; the service never interprets it. */
  type Metadata = map<string, string>

  /**
   * `progress` and `errorMessage` are nullable columns; `createdAt` is the
   * value of a creation counter that grows with every saved job.
   */
  datatype IngestionJob = IngestionJob(
    id: JobId,
    documentId: Documents.DocumentId,
    status: IngestionStatus,
    progress: Option<int>,
    errorMessage: Option<string>,
    metadata: Option<Metadata>,
    createdAt: nat)

  datatype CreateIngestionJobDto = CreateIngestionJobDto(documentId: Documents.DocumentId, metadata: Option<Metadata>)

  /**
   * The arguments of one status write. The status is always written; a
   * progress or error message that is `None` was omitted (`undefined`), and
   * the ORM leaves that column out of the update, so it keeps its value.
   */
  datatype Patch = Patch(status: IngestionStatus, progress: Option<int>, errorMessage: Option<string>)

  const CancelMessage := "Job cancelled by user"

  predicate IsTerminal(s: IngestionStatus) {
    s == COMPLETED || s == FAILED
  }

  /** The record a fresh job is saved as: the dto's fields, status PENDING, no progress and no error. */
  function NewJob(id: JobId, dto: CreateIngestionJobDto, createdAt: nat): (job: IngestionJob)
    ensures job.id == id && job.createdAt == createdAt
    ensures job.documentId == dto.documentId && job.metadata == dto.metadata
    ensures job.status == PENDING && job.progress == None && job.errorMessage == None
  {
    IngestionJob(id, dto.documentId, PENDING, None, None, dto.metadata, createdAt)
  }

  /**
   * A stored job after one status write: the status replaced, progress and
   * error message replaced where the write gives them, identity kept.
   */
  function Apply(job: IngestionJob, p: Patch): (r: IngestionJob)
    ensures r.status == p.status
    ensures p.progress.Some? ==> r.progress == p.progress
    ensures p.progress.None? ==> r.progress == job.progress
    ensures p.errorMessage.Some? ==> r.errorMessage == p.errorMessage
    ensures p.errorMessage.None? ==> r.errorMessage == job.errorMessage
    ensures r.id == job.id && r.documentId == job.documentId
    ensures r.metadata == job.metadata && r.createdAt == job.createdAt
  {
    job.(status := p.status,
         progress := if p.progress.Some? then p.progress else job.progress,
         errorMessage := if p.errorMessage.Some? then p.errorMessage else job.errorMessage)
  }

  /** Two successive writes as one: the later status, and per column the later value where it gives one. */
  function Then(p: Patch, q: Patch): Patch {
    Patch(q.status,
          if q.progress.Some? then q.progress else p.progress,
          if q.errorMessage.Some? then q.errorMessage else p.errorMessage)
  }

  /**
   * Per column, the later of two writes decides where it gives a value; a
   * later write that gives progress, after an earlier one that left the
   * error alone, supersedes the earlier write entirely.
   */
  lemma LaterWriteWins(job: IngestionJob, p: Patch, q: Patch)
    ensures Apply(Apply(job, p), q) == Apply(job, Then(p, q))
    ensures q.progress.Some? && (q.errorMessage.Some? || p.errorMessage.None?) ==>
      Apply(Apply(job, p), q) == Apply(job, q)
  {
  }

  /**
   * A run of writes as one write: the last status, and per column the last
   * value some write gives (`None` when no write gives one).
   */
  function Combined(ps: seq<Patch>): (c: Patch)
    requires ps != []
    ensures c.status == ps[|ps| - 1].status
    ensures forall k :: 0 <= k < |ps| && ps[k].progress.Some? && (forall j :: k < j < |ps| ==> ps[j].progress.None?) ==>
      c.progress == ps[k].progress
    ensures (forall k :: 0 <= k < |ps| ==> ps[k].progress.None?) ==> c.progress.None?
    ensures forall k :: 0 <= k < |ps| && ps[k].errorMessage.Some? && (forall j :: k < j < |ps| ==> ps[j].errorMessage.None?) ==>
      c.errorMessage == ps[k].errorMessage
    ensures (forall k :: 0 <= k < |ps| ==> ps[k].errorMessage.None?) ==> c.errorMessage.None?
    decreases |ps|
  {
    if |ps| == 1 then ps[0] else Then(ps[0], Combined(ps[1..]))
  }

  /**
   * The effect of cancelling a job: a RUNNING job becomes FAILED with the
   * cancellation message and its progress kept; any other job is left as it is.
   */
  function Cancelled(job: IngestionJob): (r: IngestionJob)
    ensures job.status == RUNNING ==>
      r.status == FAILED && r.progress == job.progress && r.errorMessage == Some(CancelMessage)
    ensures job.status == RUNNING ==> r.(status := RUNNING, errorMessage := job.errorMessage) == job
    ensures job.status != RUNNING ==> r == job
  {
    if job.status == RUNNING then Apply(job, Patch(FAILED, job.progress, Some(CancelMessage))) else job
  }

  /** Cancelling twice is cancelling once: the first cancellation leaves no RUNNING job behind. */
  lemma CancelIdempotent(job: IngestionJob)
    ensures Cancelled(Cancelled(job)) == Cancelled(job)
    ensures IsTerminal(Cancelled(job).status) || Cancelled(job).status == PENDING
  {
  }

  /** Whether a job passes the query's filter: no filter, or the filter's document. */
  predicate Selected(job: IngestionJob, documentId: Option<Documents.DocumentId>) {
    documentId.None? || job.documentId == documentId.value
  }

  /** Strictly newer jobs come first. */
  ghost predicate Descending(r: seq<IngestionJob>) {
    forall i, j :: 0 <= i < j < |r| ==> r[i].createdAt > r[j].createdAt
  }

  /**
   * `r` is the answer to `find({ where: filter, order: { createdAt: 'DESC' } })`:
   * exactly the stored jobs that pass the filter, newest first.
   */
  ghost predicate NewestFirst(r: seq<IngestionJob>, jobs: map<JobId, IngestionJob>, documentId: Option<Documents.DocumentId>) {
    && (forall i :: 0 <= i < |r| ==> r[i].id in jobs && jobs[r[i].id] == r[i] && Selected(r[i], documentId))
    && (forall k :: k in jobs && Selected(jobs[k], documentId) ==> jobs[k] in r)
    && Descending(r)
  }

  /** Two newest-first sequences with the same elements are the same sequence. */
  lemma {:induction false} DescendingUnique(a: seq<IngestionJob>, b: seq<IngestionJob>)
    requires Descending(a) && Descending(b)
    requires forall x :: x in a <==> x in b
    ensures a == b
    decreases |a|
  {
    assert a != [] ==> a[0] in b;
    assert b != [] ==> b[0] in a;
    if a != [] {
      var ja :| 0 <= ja < |a| && a[ja] == b[0];
      var jb :| 0 <= jb < |b| && b[jb] == a[0];
      // The head of each is the newest element of both, so the heads agree.
      assert a[0] == b[0];
      forall x
        ensures x in a[1..] <==> x in b[1..]
      {
        if x in a[1..] {
          var j :| 1 <= j < |a| && a[j] == x;
          assert x.createdAt < a[0].createdAt;
          assert x in b;
        }
        if x in b[1..] {
          var j :| 1 <= j < |b| && b[j] == x;
          assert x.createdAt < b[0].createdAt;
          assert x in a;
        }
      }
      DescendingUnique(a[1..], b[1..]);
      assert a == [a[0]] + a[1..] && b == [b[0]] + b[1..];
    }
  }

  /** The query result is determined by the store and the filter. */
  lemma ListingIsUnique(a: seq<IngestionJob>, b: seq<IngestionJob>, jobs: map<JobId, IngestionJob>, documentId: Option<Documents.DocumentId>)
    requires NewestFirst(a, jobs, documentId) && NewestFirst(b, jobs, documentId)
    ensures a == b
  {
    forall x
      ensures x in a <==> x in b
    {
      if x in a {
        var i :| 0 <= i < |a| && a[i] == x;
        assert jobs[x.id] == x;
      }
      if x in b {
        var i :| 0 <= i < |b| && b[i] == x;
        assert jobs[x.id] == x;
      }
    }
    DescendingUnique(a, b);
  }

  /** The jobs of one document, in the order they have in `r`. */
  function OfDocument(r: seq<IngestionJob>, documentId: Documents.DocumentId): (s: seq<IngestionJob>)
    ensures forall x :: x in s <==> x in r && x.documentId == documentId
    ensures Descending(r) ==> Descending(s)
  {
    if r == [] then []
    else if r[0].documentId == documentId then [r[0]] + OfDocument(r[1..], documentId)
    else OfDocument(r[1..], documentId)
  }

  /** Listing one document's jobs gives the full listing with the other documents' jobs removed. */
  lemma ByDocumentIsFilteredListing(all: seq<IngestionJob>, mine: seq<IngestionJob>,
                                    jobs: map<JobId, IngestionJob>, documentId: Documents.DocumentId)
    requires NewestFirst(all, jobs, None)
    requires NewestFirst(mine, jobs, Some(documentId))
    ensures mine == OfDocument(all, documentId)
  {
    var f := OfDocument(all, documentId);
    forall i | 0 <= i < |f|
      ensures f[i].id in jobs && jobs[f[i].id] == f[i] && Selected(f[i], Some(documentId))
    {
      assert f[i] in f;
      var j :| 0 <= j < |all| && all[j] == f[i];
    }
    assert NewestFirst(f, jobs, Some(documentId));
    ListingIsUnique(mine, f, jobs, Some(documentId));
  }
}
