/**
 * What processing one ingestion job writes, as a specification: the status
 * writes of the try block (RUNNING at 0, the progress loop, COMPLETED at 100),
 * the document status bridge calls, and the catch-all that records a failure.
 */
module Processing {
  import opened Wrappers
  import opened Errors
  import opened IngestionJobs
  import Documents

  /** The progress loop: `for (let i = 0; i <= 100; i += 20)`. */
  const ProgressStep: nat := 20
  const ProgressLimit: int := 100

  /** The values a counting loop takes: `from`, `from + step`, ... while they do not exceed `limit`. */
  function Ramp(from: int, step: nat, limit: int): seq<int>
    requires step > 0
    decreases limit - from
  {
    if from > limit then [] else [from] + Ramp(from + step, step, limit)
  }

  /** Every value the loop takes lies between its start and its limit. */
  lemma {:induction false} RampWithin(from: int, step: nat, limit: int)
    requires step > 0
    ensures forall k :: 0 <= k < |Ramp(from, step, limit)| ==> from <= Ramp(from, step, limit)[k] <= limit
    decreases limit - from
  {
    if from <= limit {
      RampWithin(from + step, step, limit);
    }
  }

  /** The loop's values strictly increase. */
  lemma {:induction false} RampIncreasing(from: int, step: nat, limit: int)
    requires step > 0
    ensures forall i, j :: 0 <= i < j < |Ramp(from, step, limit)| ==> Ramp(from, step, limit)[i] < Ramp(from, step, limit)[j]
    decreases limit - from
  {
    if from <= limit {
      RampIncreasing(from + step, step, limit);
      RampWithin(from + step, step, limit);
      var r := Ramp(from, step, limit);
      assert r == [from] + Ramp(from + step, step, limit);
      forall i, j | 0 <= i < j < |r|
        ensures r[i] < r[j]
      {
        if i > 0 {
          assert r[i] == Ramp(from + step, step, limit)[i - 1];
        }
        assert r[j] == Ramp(from + step, step, limit)[j - 1];
      }
    }
  }

  function Running(progress: int): Patch {
    Patch(RUNNING, Some(progress), None)
  }

  const Completed: Patch := Patch(COMPLETED, Some(100), None)

  /**
   * The job writes of the try block, in order: RUNNING at 0, one RUNNING write
   * per loop step, COMPLETED. Successful processing writes RUNNING 0, then
   * RUNNING 0, 20, 40, 60, 80, 100, then COMPLETED 100.
   */
  function TryWrites(): (w: seq<Patch>)
    ensures w == [Running(0), Running(0), Running(20), Running(40), Running(60),
                  Running(80), Running(100), Completed]
  {
    var ramp := Ramp(0, ProgressStep, ProgressLimit);
    assert ramp == [0, 20, 40, 60, 80, 100];
    [Running(0)] + seq(|ramp|, k requires 0 <= k < |ramp| => Running(ramp[k])) + [Completed]
  }

  /** The loop write at step `k` (1 to 6 in the try block) carries progress 20 * (k - 1). */
  lemma TryWriteAt(k: nat)
    requires 1 <= k <= 6
    ensures |TryWrites()| == 8 && TryWrites()[k] == Running(ProgressStep * (k - 1))
    ensures TryWrites()[0] == Running(0) && TryWrites()[7] == Completed
  {
  }

  /**
   * A failure the model cannot see: the job write at index `atWrite` of the try
   * block (a database error) rejects with `message` instead of writing.
   */
  datatype Fault = Fault(atWrite: nat, message: string)

  predicate Strikes(fault: Option<Fault>, k: nat) {
    fault.Some? && fault.value.atWrite == k
  }

  /** Whether the fault hits one of the try block's writes at all. */
  predicate Faults(fault: Option<Fault>) {
    fault.Some? && fault.value.atWrite < |TryWrites()|
  }

  /** What the ingestion service does to the two stores, in order. */
  datatype Event =
    | JobSaved(job: IngestionJob)
    | JobUpdated(id: JobId, patch: Patch)
    | DocumentStatusSet(documentId: Documents.DocumentId, status: Documents.DocumentStatus)

  function Updates(id: JobId, ps: seq<Patch>): seq<Event> {
    seq(|ps|, k requires 0 <= k < |ps| => JobUpdated(id, ps[k]))
  }

  /** Extending the writes by one extends their events by one. */
  lemma UpdatesSnoc(before: seq<Event>, id: JobId, ps: seq<Patch>, n: nat)
    requires n < |ps|
    ensures before + Updates(id, ps[..n + 1]) == before + Updates(id, ps[..n]) + [JobUpdated(id, ps[n])]
  {
    assert Updates(id, ps[..n + 1]) == Updates(id, ps[..n]) + [JobUpdated(id, ps[n])];
  }

  /**
   * The catch-all: record FAILED with the error's message (progress omitted,
   * so it keeps its value), then fail the document.
   */
  function Recovery(id: JobId, d: Documents.DocumentId, message: string): (r: seq<Event>)
    ensures |r| == 2 && r[0] == JobUpdated(id, Patch(FAILED, None, Some(message)))
    ensures r[1] == DocumentStatusSet(d, Documents.FAILED)
    ensures BridgeCalls(r) == [Documents.FAILED]
    ensures forall k :: 0 <= k < |r| && r[k].JobUpdated? ==>
      r[k].id == id && r[k].patch == Patch(FAILED, None, Some(message))
  {
    var e1, e2 := JobUpdated(id, Patch(FAILED, None, Some(message))), DocumentStatusSet(d, Documents.FAILED);
    assert [e1, e2][1..] == [e2] && [e2][1..] == [];
    assert BridgeCalls([e2]) == [Documents.FAILED];
    [e1, e2]
  }

  /**
   * Everything processing job `id` of document `d` does. Without a fault the
   * try block runs to the end and sets the document to COMPLETED; when the
   * document does not exist that call rejects and the catch-all runs after it.
   */
  ghost function ProcessingEvents(id: JobId, d: Documents.DocumentId, fault: Option<Fault>, documentExists: bool)
    : (ev: seq<Event>)
    ensures var n := if Faults(fault) then fault.value.atWrite else |TryWrites()|;
      n < |ev| && ev[..n] == Updates(id, TryWrites()[..n])
    ensures ev[|ev| - 1] ==
      DocumentStatusSet(d, if Faults(fault) || !documentExists then Documents.FAILED else Documents.COMPLETED)
  {
    if Faults(fault) then
      var head := Updates(id, TryWrites()[..fault.value.atWrite]);
      assert (head + Recovery(id, d, fault.value.message))[..|head|] == head;
      head + Recovery(id, d, fault.value.message)
    else
      var head := Updates(id, TryWrites());
      assert TryWrites()[..|TryWrites()|] == TryWrites();
      var done := head + [DocumentStatusSet(d, Documents.COMPLETED)];
      var rest := if documentExists then [] else Recovery(id, d, DocumentNotFound(d).message);
      assert (done + rest)[..|head|] == head;
      done + rest
  }

  /**
   * The write that decides the job's final state, applied to the job as it was
   * before the run: the catch-all's FAILED write omits the progress, so the
   * last progress the run wrote survives it.
   */
  function FinalPatch(d: Documents.DocumentId, fault: Option<Fault>, documentExists: bool): (p: Patch)
    ensures p.status == COMPLETED <==> !Faults(fault) && documentExists
    ensures p.status == COMPLETED ==> p.progress == Some(100) && p.errorMessage == None
    ensures p.status != COMPLETED ==> p.status == FAILED && p.errorMessage.Some?
    ensures Faults(fault) ==> p.errorMessage == Some(fault.value.message)
    ensures Faults(fault) && fault.value.atWrite == 0 ==> p.progress == None
    ensures Faults(fault) && fault.value.atWrite > 0 ==>
      p.progress == Some(if fault.value.atWrite <= 2 then 0 else ProgressStep * (fault.value.atWrite - 2))
    ensures !Faults(fault) ==> p.progress == Some(100)
    ensures !Faults(fault) && !documentExists ==> p.errorMessage == Some(DocumentNotFound(d).message)
  {
    if Faults(fault) then
      Patch(FAILED, if fault.value.atWrite == 0 then None else TryWrites()[fault.value.atWrite - 1].progress,
            Some(fault.value.message))
    else if documentExists then Completed
    else Patch(FAILED, Completed.progress, Some(DocumentNotFound(d).message))
  }

  /** How many of the try block's job writes happen: all of them unless the fault strikes one. */
  function WritesDone(fault: Option<Fault>): (n: nat)
    ensures n <= |TryWrites()|
    ensures n < |TryWrites()| <==> Faults(fault)
    ensures Faults(fault) ==> n == fault.value.atWrite
  {
    if Faults(fault) then fault.value.atWrite else |TryWrites()|
  }

  /** What the try block does: its job writes up to the fault and, without one, the bridge call. */
  ghost function TryEvents(id: JobId, d: Documents.DocumentId, fault: Option<Fault>): seq<Event> {
    Updates(id, TryWrites()[..WritesDone(fault)]) + (if Faults(fault) then [] else [DocumentStatusSet(d, Documents.COMPLETED)])
  }

  /** The job as the try block leaves it: its last write done, if any. */
  function Tried(job: IngestionJob, fault: Option<Fault>): IngestionJob {
    if WritesDone(fault) == 0 then job else Apply(job, TryWrites()[WritesDone(fault) - 1])
  }

  /** The message of the error the catch-all receives. */
  function CaughtMessage(d: Documents.DocumentId, fault: Option<Fault>): string {
    if Faults(fault) then fault.value.message else DocumentNotFound(d).message
  }

  /** Processing is the try block, followed by the catch-all exactly when the try block failed. */
  lemma ProcessingEventsSplit(id: JobId, d: Documents.DocumentId, fault: Option<Fault>, documentExists: bool)
    ensures ProcessingEvents(id, d, fault, documentExists) ==
      TryEvents(id, d, fault) + (if Faults(fault) || !documentExists then Recovery(id, d, CaughtMessage(d, fault)) else [])
  {
    if !Faults(fault) {
      assert TryWrites()[..|TryWrites()|] == TryWrites();
    }
  }

  /**
   * The catch-all's FAILED write, which omits the progress, leaves the job the
   * try block left as the final write says; without a failure the try block's
   * own last write is the final one.
   */
  lemma CatchAllIsFinal(job: IngestionJob, fault: Option<Fault>, documentExists: bool)
    ensures Faults(fault) || !documentExists ==>
      Apply(Tried(job, fault), Patch(FAILED, None, Some(CaughtMessage(job.documentId, fault))))
        == Apply(job, FinalPatch(job.documentId, fault, documentExists))
    ensures !Faults(fault) && documentExists ==>
      Tried(job, fault) == Apply(job, FinalPatch(job.documentId, fault, documentExists))
  {
    var n := WritesDone(fault);
    if n > 0 {
      LaterWriteWins(job, TryWrites()[n - 1], Patch(FAILED, None, Some(CaughtMessage(job.documentId, fault))));
    }
  }

  /**
   * A cancellation between two writes of a run does not stick: the later
   * writes restore the status and the progress, but omit the error message,
   * so the job ends COMPLETED at 100 still carrying the cancellation message.
   */
  lemma CancelDuringRun(job: IngestionJob, i: int)
    requires job.status == RUNNING
    ensures var ended := Apply(Apply(Cancelled(job), Running(i)), Completed);
      ended.status == COMPLETED && ended.progress == Some(100) && ended.errorMessage == Some(CancelMessage)
  {
  }

  /** The status processing leaves on an existing document. */
  function SettledStatus(fault: Option<Fault>): (s: Documents.DocumentStatus)
    ensures s == Documents.COMPLETED || s == Documents.FAILED
    ensures s == Documents.FAILED <==> Faults(fault)
  {
    if Faults(fault) then Documents.FAILED else Documents.COMPLETED
  }

  // ---------------------------------------------------------------------
  // Progress

  predicate HasProgress(e: Event) {
    e.JobUpdated? && e.patch.progress.Some?
  }

  ghost predicate ProgressWithin(ev: seq<Event>, lo: int, hi: int) {
    forall i :: 0 <= i < |ev| && HasProgress(ev[i]) ==> lo <= ev[i].patch.progress.value <= hi
  }

  ghost predicate ProgressNonDecreasing(ev: seq<Event>) {
    forall i, j :: 0 <= i < j < |ev| && HasProgress(ev[i]) && HasProgress(ev[j]) ==>
      ev[i].patch.progress.value <= ev[j].patch.progress.value
  }

  /** The try block's progress values lie in [0, 100] and never go down. */
  lemma TryWritesProgress()
    ensures forall k :: 0 <= k < |TryWrites()| ==> TryWrites()[k].progress.Some?
    ensures forall k :: 0 <= k < |TryWrites()| ==> 0 <= TryWrites()[k].progress.value <= 100
    ensures forall i, j :: 0 <= i < j < |TryWrites()| ==>
      TryWrites()[i].progress.value <= TryWrites()[j].progress.value
  {
    var ramp := Ramp(0, ProgressStep, ProgressLimit);
    RampWithin(0, ProgressStep, ProgressLimit);
    RampIncreasing(0, ProgressStep, ProgressLimit);
    var w := TryWrites();
    assert |w| == |ramp| + 2;
    forall k | 1 <= k < |w| - 1
      ensures w[k] == Running(ramp[k - 1])
    {
    }
  }

  /**
   * Every progress value processing writes lies in [0, 100], and the values
   * written never decrease, whatever fails along the way.
   */
  lemma ProcessingProgress(id: JobId, d: Documents.DocumentId, fault: Option<Fault>, documentExists: bool)
    ensures ProgressWithin(ProcessingEvents(id, d, fault, documentExists), 0, 100)
    ensures ProgressNonDecreasing(ProcessingEvents(id, d, fault, documentExists))
  {
    TryWritesProgress();
    var w := TryWrites();
    var n := if Faults(fault) then fault.value.atWrite else |w|;
    var ev := ProcessingEvents(id, d, fault, documentExists);
    var head := Updates(id, w[..n]);
    assert ev[..|head|] == head;
    // Only the try block's writes carry a progress value.
    assert forall i :: |head| <= i < |ev| ==> !HasProgress(ev[i]);
    assert forall i :: 0 <= i < |head| ==> ev[i] == JobUpdated(id, w[i]);
  }

  // ---------------------------------------------------------------------
  // The document status bridge

  /** The statuses the ingestion service asks the document bridge for, in order. */
  function BridgeCalls(ev: seq<Event>): seq<Documents.DocumentStatus> {
    if ev == [] then []
    else (if ev[0].DocumentStatusSet? then [ev[0].status] else []) + BridgeCalls(ev[1..])
  }

  lemma {:induction false} BridgeCallsAppend(a: seq<Event>, b: seq<Event>)
    ensures BridgeCalls(a + b) == BridgeCalls(a) + BridgeCalls(b)
    decreases |a|
  {
    if a != [] {
      assert (a + b)[0] == a[0] && (a + b)[1..] == a[1..] + b;
      BridgeCallsAppend(a[1..], b);
    } else {
      assert a + b == b;
    }
  }

  lemma {:induction false} BridgeCallsOfUpdates(id: JobId, ps: seq<Patch>)
    ensures BridgeCalls(Updates(id, ps)) == []
    decreases |ps|
  {
    if ps != [] {
      assert Updates(id, ps)[1..] == Updates(id, ps[1..]);
      BridgeCallsOfUpdates(id, ps[1..]);
    }
  }

  /**
   * The bridge is told COMPLETED exactly once after a successful run, FAILED
   * exactly once after a fault, and -- when the document is missing -- first
   * COMPLETED and then FAILED (both calls reject).
   */
  lemma BridgeCallsOfProcessing(id: JobId, d: Documents.DocumentId, fault: Option<Fault>, documentExists: bool)
    ensures BridgeCalls(ProcessingEvents(id, d, fault, documentExists)) ==
      if Faults(fault) then [Documents.FAILED]
      else if documentExists then [Documents.COMPLETED]
      else [Documents.COMPLETED, Documents.FAILED]
  {
    var w := TryWrites();
    var recovery := Recovery(id, d, if Faults(fault) then fault.value.message else DocumentNotFound(d).message);
    assert BridgeCalls(recovery) == [Documents.FAILED] by {
      var e1, e2 := recovery[0], recovery[1];
      assert recovery == [e1] + [e2];
      BridgeCallsAppend([e1], [e2]);
      assert BridgeCalls([e1]) == [] by { assert [e1][1..] == []; }
      assert BridgeCalls([e2]) == [Documents.FAILED] by { assert [e2][1..] == []; }
    }
    assert BridgeCalls([DocumentStatusSet(d, Documents.COMPLETED)]) == [Documents.COMPLETED];
    if Faults(fault) {
      BridgeCallsOfUpdates(id, w[..fault.value.atWrite]);
      BridgeCallsAppend(Updates(id, w[..fault.value.atWrite]), recovery);
    } else {
      var done := Updates(id, w) + [DocumentStatusSet(d, Documents.COMPLETED)];
      BridgeCallsOfUpdates(id, w);
      BridgeCallsAppend(Updates(id, w), [DocumentStatusSet(d, Documents.COMPLETED)]);
      if documentExists {
        assert ProcessingEvents(id, d, fault, documentExists) == done;
      } else {
        assert ProcessingEvents(id, d, fault, documentExists) == done + recovery;
        BridgeCallsAppend(done, recovery);
      }
    }
  }

  // ---------------------------------------------------------------------
  // The job's final state

  /** The job after replaying, in order, the writes to it that `ev` records. */
  function Replay(job: IngestionJob, ev: seq<Event>): IngestionJob
    decreases |ev|
  {
    if ev == [] then job
    else Replay(if ev[0].JobUpdated? && ev[0].id == job.id then Apply(job, ev[0].patch) else job, ev[1..])
  }

  lemma {:induction false} ReplayAppend(job: IngestionJob, a: seq<Event>, b: seq<Event>)
    ensures Replay(job, a + b) == Replay(Replay(job, a), b)
    decreases |a|
  {
    if a == [] {
      assert a + b == b;
    } else {
      assert (a + b)[0] == a[0] && (a + b)[1..] == a[1..] + b;
      ReplayAppend(if a[0].JobUpdated? && a[0].id == job.id then Apply(job, a[0].patch) else job, a[1..], b);
    }
  }

  /** A run of writes to one job leaves it as the writes combined say. */
  lemma {:induction false} ReplayUpdates(job: IngestionJob, ps: seq<Patch>)
    requires ps != []
    ensures Replay(job, Updates(job.id, ps)) == Apply(job, Combined(ps))
    decreases |ps|
  {
    var ev := Updates(job.id, ps);
    assert ev[1..] == Updates(job.id, ps[1..]);
    if |ps| > 1 {
      ReplayUpdates(Apply(job, ps[0]), ps[1..]);
      LaterWriteWins(job, ps[0], Combined(ps[1..]));
    }
  }

  /** Every write of the try block gives a progress and leaves the error alone, so the last one decides. */
  lemma CombinedTryWrites(n: nat)
    requires 0 < n <= |TryWrites()|
    ensures Combined(TryWrites()[..n]) == TryWrites()[n - 1]
  {
    var ps := TryWrites()[..n];
    var c := Combined(ps);
    assert c.progress == ps[n - 1].progress;
    assert c.errorMessage == None;
  }

  /** Replaying the first `n` writes of the try block leaves the job as the `n`-th write says. */
  lemma ReplayTryWrites(job: IngestionJob, n: nat)
    requires 0 < n <= |TryWrites()|
    ensures Replay(job, Updates(job.id, TryWrites()[..n])) == Apply(job, TryWrites()[n - 1])
  {
    ReplayUpdates(job, TryWrites()[..n]);
    CombinedTryWrites(n);
  }

  /** The catch-all leaves the job as its FAILED write says. */
  lemma ReplayRecovery(j: IngestionJob, d: Documents.DocumentId, message: string)
    ensures Replay(j, Recovery(j.id, d, message)) == Apply(j, Patch(FAILED, None, Some(message)))
  {
    var recovery := Recovery(j.id, d, message);
    var e1, e2 := recovery[0], recovery[1];
    assert recovery == [e1] + [e2];
    ReplayAppend(j, [e1], [e2]);
    assert Replay(j, [e1]) == Apply(j, Patch(FAILED, None, Some(message))) by { assert [e1][1..] == []; }
    var j1 := Replay(j, [e1]);
    assert Replay(j1, [e2]) == j1 by { assert [e2][1..] == []; }
  }

  /** Replaying what processing writes gives the job the final write decides. */
  lemma ReplayIsFinal(job: IngestionJob, fault: Option<Fault>, documentExists: bool)
    ensures Replay(job, ProcessingEvents(job.id, job.documentId, fault, documentExists))
         == Apply(job, FinalPatch(job.documentId, fault, documentExists))
  {
    if Faults(fault) {
      ReplayFaulted(job, fault);
    } else {
      ReplayRunToEnd(job, fault, documentExists);
    }
  }

  lemma ReplayFaulted(job: IngestionJob, fault: Option<Fault>)
    requires Faults(fault)
    ensures Replay(job, ProcessingEvents(job.id, job.documentId, fault, false))
         == Apply(job, FinalPatch(job.documentId, fault, false))
    ensures Replay(job, ProcessingEvents(job.id, job.documentId, fault, true))
         == Apply(job, FinalPatch(job.documentId, fault, true))
  {
    var w := TryWrites();
    var n := fault.value.atWrite;
    var fail := Patch(FAILED, None, Some(fault.value.message));
    var recovery := Recovery(job.id, job.documentId, fault.value.message);
    ReplayAppend(job, Updates(job.id, w[..n]), recovery);
    if n > 0 {
      ReplayTryWrites(job, n);
      var last := Apply(job, w[n - 1]);
      ReplayRecovery(last, job.documentId, fault.value.message);
      LaterWriteWins(job, w[n - 1], fail);
    } else {
      assert Updates(job.id, w[..n]) == [];
      ReplayRecovery(job, job.documentId, fault.value.message);
    }
  }

  /** A run of the whole try block, bridge call included, leaves the job COMPLETED. */
  lemma ReplayCompletedRun(job: IngestionJob, d: Documents.DocumentId)
    ensures Replay(job, Updates(job.id, TryWrites()) + [DocumentStatusSet(d, Documents.COMPLETED)]) == Apply(job, Completed)
  {
    var w := TryWrites();
    var bridge := [DocumentStatusSet(d, Documents.COMPLETED)];
    ReplayTryWrites(job, |w|);
    assert w[..|w|] == w;
    ReplayAppend(job, Updates(job.id, w), bridge);
    var completed := Apply(job, Completed);
    assert Replay(completed, bridge) == completed by { assert bridge[1..] == []; }
  }

  lemma ReplayRunToEnd(job: IngestionJob, fault: Option<Fault>, documentExists: bool)
    requires !Faults(fault)
    ensures Replay(job, ProcessingEvents(job.id, job.documentId, fault, documentExists))
         == Apply(job, FinalPatch(job.documentId, fault, documentExists))
  {
    var d := job.documentId;
    var done := Updates(job.id, TryWrites()) + [DocumentStatusSet(d, Documents.COMPLETED)];
    ReplayCompletedRun(job, d);
    if documentExists {
      assert ProcessingEvents(job.id, d, fault, documentExists) == done;
    } else {
      var message := DocumentNotFound(d).message;
      var recovery := Recovery(job.id, d, message);
      assert ProcessingEvents(job.id, d, fault, documentExists) == done + recovery;
      ReplayAppend(job, done, recovery);
      ReplayRecovery(Apply(job, Completed), d, message);
      LaterWriteWins(job, Completed, Patch(FAILED, None, Some(message)));
    }
  }

  /**
   * No RUNNING write follows a terminal one: the COMPLETED or FAILED write
   * happens after all of the job's progress writes.
   */
  lemma TerminalWritesLast(id: JobId, d: Documents.DocumentId, fault: Option<Fault>, documentExists: bool)
    ensures var ev := ProcessingEvents(id, d, fault, documentExists);
      forall i, j :: 0 <= i < j < |ev| && ev[i].JobUpdated? && ev[j].JobUpdated? && IsTerminal(ev[i].patch.status) ==>
        IsTerminal(ev[j].patch.status)
  {
    var w := TryWrites();
    var ev := ProcessingEvents(id, d, fault, documentExists);
    var n := if Faults(fault) then fault.value.atWrite else |w|;
    assert forall i :: 0 <= i < n ==> ev[i] == JobUpdated(id, w[i]);
    assert forall i :: 0 <= i < 7 ==> !IsTerminal(w[i].status);
    assert forall i :: n <= i < |ev| && ev[i].JobUpdated? ==> ev[i].patch.status == FAILED;
  }
}
