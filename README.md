# Document ingestion service — a Dafny model

This project models the two services at the core of a NestJS back end for document uploads and ingestion.

**DocumentsService** keeps a table of uploaded documents.
- Reads follow role and ownership: an administrator sees everything, anyone else only their own uploads.
- Updates and deletions are allowed to administrators and editors.
- A status bridge lets the ingestion service set a document's status.

**IngestionService** keeps a table of ingestion jobs.
- Creating a job saves it as PENDING and then processes it to the end before returning.
- Processing writes RUNNING at progress 0, RUNNING at 0, 20, …, 100 from the progress loop, then COMPLETED at 100.
- It then tells the document bridge COMPLETED. On any error a catch-all records the job as FAILED with the error's message and tells the bridge FAILED.
- Jobs are listed newest first, optionally for one document.
- A RUNNING job can be cancelled.

**How the model is built.**
- Both services are classes whose tables are `map` fields, updated in place by methods with `modifies` clauses. A `Valid()` predicate states the table invariants.
- Every `await` is a plain sequential call.
- The ingestion service keeps a ghost `log` of everything it does to the two tables, in order:
  - a job saved;
  - a job status write;
  - a document status set through the bridge.
- Module `Processing` states, as functions, what processing writes:
  - `TryWrites` is the try block's job writes;
  - `ProcessingEvents` is the whole run;
  - `FinalPatch` is the write that decides the job's end state.
- Lemmas then prove what that specification promises: progress bounds and monotonicity, bridge calls, the job's final state, and terminal writes coming last. The methods are proved to produce exactly those logs and tables.

**Behaviours of the code that the model keeps.**
- `update` on documents writes first and checks ownership only when it re-reads. The ownership check before the write is commented out. An editor who does not own a document therefore changes it and is then refused with Forbidden. `Documents.DocumentsService.Update` states this outright.
- `create` on jobs returns the record as first saved (PENDING), not the processed job.
- If the job's document does not exist, processing's bridge call rejects with NotFound. The catch-all then writes FAILED and calls the bridge again. That second call rejects too, and the rejection propagates out of `create`, although the job has been saved and is FAILED. `triggerIngestion` marks the document PROCESSING before it creates the job, so a missing document rejects there with no job made; it meets this case only if the document is deleted during the run, an interleaving that is not modelled.
- The job status write always writes the status. A progress or error message left `undefined` is dropped from the update by the ORM, so that column keeps its value. The catch-all's FAILED write omits the progress, so a failed job keeps the last progress it reached: a fault at job write k, counting from 0, leaves the progress of write k−1 (none when k is 0), and a missing document leaves 100. Cancelling passes the job's own progress, which also keeps it.
- A write or delete aimed at a missing id changes nothing and raises no error. Only the re-read that follows can fail.

**Modules.**
- `Wrappers`: `Option`, `Result`.
- `Errors`: the NotFound and Forbidden errors with their messages.
- `Documents`: the document entity and service.
- `IngestionJobs`: the job record, the status write, cancellation, and the newest-first listing.
- `Processing`: the specification of a processing run.
- `Ingestion`: the ingestion service class.

## Model

| member | source | states |
|---|---|---|
| Documents.CanRead | src/documents/documents.service.ts:63 | an administrator may read every document; anyone else exactly the documents they uploaded |
| Documents.MayModify | src/documents/documents.service.ts:78-95 | everyone but a viewer may update or delete documents, whoever owns them |
| Documents.ApplyUpdate | src/documents/documents.service.ts:84 | a partial update replaces exactly the description and status present in the dto; every other column is kept |
| Documents.DocumentsService.Create | src/documents/documents.service.ts:20-35 | a new document gets a fresh id and is added to the table without disturbing other rows; filename, original name, MIME type, size and path come from the upload, the owner is the caller, the status is PENDING |
| Documents.DocumentsService.FindAll | src/documents/documents.service.ts:37-47 | an administrator gets the whole table; anyone else gets exactly the documents they uploaded, unchanged |
| Documents.DocumentsService.FindOne | src/documents/documents.service.ts:49-68 | success exactly when the document exists and the caller is an administrator or its owner; NotFound with the id in the message when absent; Forbidden "You can only access your own documents" otherwise |
| Documents.DocumentsService.Update | src/documents/documents.service.ts:70-86 | a role other than ADMIN or EDITOR is refused with nothing written; otherwise the update is written whenever the document exists, and then the result is the updated document, NotFound, or Forbidden for a non-owner editor whose change has nevertheless been stored |
| Documents.DocumentsService.Remove | src/documents/documents.service.ts:88-102 | a role other than ADMIN or EDITOR is refused with nothing deleted; otherwise the row is removed whoever owns it, and removing a missing id succeeds |
| Documents.DocumentsService.UpdateStatus | src/documents/documents.service.ts:104-111 | an existing document gets the new status with all other columns and rows kept, and is returned; a missing one leaves the table unchanged and yields NotFound |
| IngestionJobs.NewJob | src/ingestion/ingestion.service.ts:22-23 | a saved job carries the dto's document and metadata, status PENDING, no progress, no error, and the next creation tick |
| IngestionJobs.Apply | src/ingestion/ingestion.service.ts:51-55 | a status write sets the status, sets the progress and error message when given and keeps each one that is omitted, and keeps id, document, metadata and creation time |
| IngestionJobs.LaterWriteWins | src/ingestion/ingestion.service.ts:51-55 | two successive status writes equal one write that takes the second's status and, column by column, the second's value where it gives one and the first's otherwise; when the second gives a progress and does not drop an error the first gave, it alone decides |
| IngestionJobs.Combined | src/ingestion/ingestion.service.ts:51-55 | a run of status writes combines into one whose status is the last write's and whose progress and error message are those of the last write that gives each, or omitted when none does |
| IngestionJobs.Cancelled | src/ingestion/ingestion.service.ts:117-128 | a RUNNING job becomes FAILED with "Job cancelled by user" and its progress kept, nothing else changed; a job in any other state is returned as it is |
| IngestionJobs.CancelIdempotent | src/ingestion/ingestion.service.ts:117-128 | cancelling twice equals cancelling once, and a cancelled job is never RUNNING |
| IngestionJobs.DescendingUnique | src/ingestion/ingestion.service.ts:31-35 | two strictly newest-first sequences with the same elements are equal |
| IngestionJobs.ListingIsUnique | src/ingestion/ingestion.service.ts:31-35 | the newest-first listing is determined by the table and the filter |
| IngestionJobs.OfDocument | src/ingestion/ingestion.service.ts:110-115 | filtering a listing by document keeps exactly that document's jobs and keeps newest-first order |
| IngestionJobs.ByDocumentIsFilteredListing | src/ingestion/ingestion.service.ts:110-115 | one document's listing is the full listing with other documents' jobs removed |
| Processing.RampWithin | src/ingestion/ingestion.service.ts:83 | every value of the counting loop lies between its start and its limit |
| Processing.RampIncreasing | src/ingestion/ingestion.service.ts:83 | the counting loop's values strictly increase |
| Processing.TryWrites | src/ingestion/ingestion.service.ts:77-89 | the try block writes RUNNING 0, then RUNNING 0, 20, 40, 60, 80, 100, then COMPLETED 100 |
| Processing.TryWriteAt | src/ingestion/ingestion.service.ts:83-86 | loop step k of the try block writes RUNNING with progress 20·(k−1) |
| Processing.Recovery | src/ingestion/ingestion.service.ts:94-107 | the catch-all first writes FAILED with the error's message and the progress omitted, then sets the job's document FAILED through the bridge, and does nothing else |
| Processing.ProcessingEvents | src/ingestion/ingestion.service.ts:74-108 | a run starts with the try block's job writes up to the failing one (all eight without a fault) and ends with a bridge call: COMPLETED when nothing failed and the document exists, FAILED otherwise |
| Processing.WritesDone | src/ingestion/ingestion.service.ts:77-89 | the try block performs all of its job writes exactly when no fault strikes one of them, and otherwise the writes before the failing one |
| Processing.ProcessingEventsSplit | src/ingestion/ingestion.service.ts:74-108 | a run is the try block's activity followed by the catch-all exactly when a job write failed or the document is missing, the catch-all receiving that error's message |
| Processing.CatchAllIsFinal | src/ingestion/ingestion.service.ts:94-101 | the catch-all's FAILED write, applied to the job the try block left, gives the job the final write describes; without a failure the try block's last write is the final one |
| Processing.FinalPatch | src/ingestion/ingestion.service.ts:74-108 | a run ends COMPLETED at 100 with no error exactly when no write fails and the document exists; otherwise FAILED with the fault's message or the document's NotFound message, keeping the last progress written: a fault at write k, counting from 0, keeps the progress of write k−1, which is none for k = 0, 0 for k = 1 or 2 and 20·(k−2) for k ≥ 3; 100 when only the bridge call failed |
| Processing.CancelDuringRun | src/ingestion/ingestion.service.ts:85-89 | a RUNNING job cancelled (lines 117-126) between two writes of a run and then written RUNNING and COMPLETED ends COMPLETED at 100 with the cancellation message kept |
| Processing.SettledStatus | src/ingestion/ingestion.service.ts:90-106 | an existing document ends COMPLETED, or FAILED exactly when a job write failed |
| Processing.TryWritesProgress | src/ingestion/ingestion.service.ts:77-89 | every write of the try block carries a progress in [0, 100], and the values never decrease |
| Processing.ProcessingProgress | src/ingestion/ingestion.service.ts:74-108 | whatever fails, every progress value a run writes lies in [0, 100] and the values never decrease |
| Processing.BridgeCallsAppend | src/ingestion/ingestion.service.ts:90-106 | the bridge calls of two consecutive stretches of activity are those of the first followed by those of the second |
| Processing.BridgeCallsOfUpdates | src/ingestion/ingestion.service.ts:77-89 | job status writes make no bridge calls |
| Processing.BridgeCallsOfProcessing | src/ingestion/ingestion.service.ts:90-106 | a run tells the bridge COMPLETED once if all goes well, FAILED once after a failed job write, and COMPLETED then FAILED when the document is missing |
| Processing.ReplayAppend | src/ingestion/ingestion.service.ts:45-57 | replaying two stretches of writes is replaying the first, then the second |
| Processing.ReplayUpdates | src/ingestion/ingestion.service.ts:45-57 | a run of status writes to one job leaves it as their combination says: the last status, and per column the last value given |
| Processing.CombinedTryWrites | src/ingestion/ingestion.service.ts:77-89 | every write of the try block gives status and progress, so any prefix of it combines to its last write |
| Processing.ReplayTryWrites | src/ingestion/ingestion.service.ts:77-89 | the try block's first n writes leave the job as the n-th write says |
| Processing.ReplayRecovery | src/ingestion/ingestion.service.ts:94-107 | the catch-all leaves the job FAILED with the message and the progress it had |
| Processing.ReplayFaulted | src/ingestion/ingestion.service.ts:74-107 | a run whose job write k (counting from 0) fails leaves the job FAILED with the fault's message and the progress of write k−1 |
| Processing.ReplayCompletedRun | src/ingestion/ingestion.service.ts:77-93 | the whole try block, bridge call included, leaves the job COMPLETED at 100 |
| Processing.ReplayRunToEnd | src/ingestion/ingestion.service.ts:74-108 | a run in which no job write fails leaves the job as the final write decides, whether or not the document exists |
| Processing.ReplayIsFinal | src/ingestion/ingestion.service.ts:74-108 | replaying everything a run writes gives the job the final write decides |
| Processing.TerminalWritesLast | src/ingestion/ingestion.service.ts:77-101 | in a run, no RUNNING write follows a COMPLETED or FAILED one |
| Ingestion.Settled | src/ingestion/ingestion.service.ts:90-106 | processing changes only its own document, and only its status, which becomes the outcome's; a missing document leaves the table as it was |
| Ingestion.SettledAfterMark | src/ingestion/ingestion.service.ts:61-66 | the PROCESSING mark made before the job is created is overridden by the outcome |
| Ingestion.Overwrite | src/ingestion/ingestion.service.ts:85-89 | a write that gives a progress, after one that gave no error, replaces the job stored by the first |
| Ingestion.IngestionService.Create | src/ingestion/ingestion.service.ts:19-29 | the job is saved as a new PENDING row, processed to its final write (which keeps the last progress written when the run fails), and the document settled; the saved record is returned, or NotFound when the document is missing |
| Ingestion.IngestionService.Save | src/ingestion/ingestion.service.ts:22-23 | the new job takes the next id and creation tick, is added without disturbing other rows, and is logged as saved |
| Ingestion.IngestionService.FindAll | src/ingestion/ingestion.service.ts:31-35 | the result holds exactly the stored jobs, newest first |
| Ingestion.IngestionService.FindOne | src/ingestion/ingestion.service.ts:37-43 | the stored job when its id exists, NotFound with the id otherwise |
| Ingestion.IngestionService.UpdateStatus | src/ingestion/ingestion.service.ts:45-57 | an existing job gets its status written, and its progress and error message written when given and kept when omitted, and is returned re-read; a missing id writes nothing and yields NotFound |
| Ingestion.IngestionService.TriggerIngestion | src/ingestion/ingestion.service.ts:59-72 | a missing document yields NotFound with no job made and the counters unchanged; otherwise the document is marked PROCESSING, a job recording the trigger time is created and processed to its final write, and the document ends COMPLETED or FAILED |
| Ingestion.IngestionService.ProcessIngestion | src/ingestion/ingestion.service.ts:74-108 | the job ends as the final write decides (a failure keeps the last progress written); the log grows by exactly the run's events; the document is settled; the run rejects only when the catch-all's bridge call rejects |
| Ingestion.IngestionService.RunSteps | src/ingestion/ingestion.service.ts:75-93 | the try block stops at the failed write with its error, or completes the job and calls the bridge, handing on the bridge's NotFound; the job is left as its last write done says |
| Ingestion.IngestionService.WriteSteps | src/ingestion/ingestion.service.ts:77-89 | the job writes of the try block up to the failing one, each recorded in the log, the job left as the last successful write says; without a fault the document read back is the job's |
| Ingestion.IngestionService.WriteRest | src/ingestion/ingestion.service.ts:83-89 | the try block's writes after the first, up to the failing one, each logged, the job left as the last one done says |
| Ingestion.IngestionService.WriteProgress | src/ingestion/ingestion.service.ts:83-86 | the progress loop performs writes 1 to 6 of the try block in order, stopping at the one a fault strikes |
| Ingestion.IngestionService.TryWrite | src/ingestion/ingestion.service.ts:85 | a single write of the try block either fails with the fault's message and changes nothing, or performs the status write |
| Ingestion.IngestionService.Recover | src/ingestion/ingestion.service.ts:94-107 | the catch-all writes FAILED with the message, keeping the progress, then sets the document FAILED, rejecting with NotFound when it is missing |
| Ingestion.IngestionService.GetJobsByDocument | src/ingestion/ingestion.service.ts:110-115 | the result holds exactly the stored jobs of that document, newest first |
| Ingestion.IngestionService.CancelJob | src/ingestion/ingestion.service.ts:117-128 | a RUNNING job is cancelled in the table and returned; any other job is returned with the table and log untouched; a missing id yields NotFound |
| Ingestion.IngestionService.Find | src/ingestion/ingestion.service.ts:110-115 | the repository query returns exactly the stored jobs that pass the filter, newest first |

## Left out

- Identifiers are UUID strings in the source (src/ingestion/entities/ingestion-job.entity.ts:18-22). Here they are natural numbers handed out by counters, and error messages render them in decimal. An id that is not a well-formed UUID cannot be expressed: in the source the database rejects a lookup with such an id (in `findOne`, `cancelJob` or `getJobsByDocument`) with a database error rather than NotFound, and that error is not modelled.
- `createdAt` is a database timestamp in the source. Here it is a creation counter that ticks once per saved job, so no two jobs share a creation time. `updatedAt` is not modelled.
- The one-second `setTimeout` pause in each loop step is left out. It only delays.
- Interleavings of concurrent requests are not modelled; every request runs to its end before the next starts. In the source they exist: each loop step awaits a one-second pause, and other requests run meanwhile. Once the job is saved, `findAll` and `getJobsByDocument` list it with whatever status it has reached. A `cancelJob` arriving mid-run writes FAILED with its message. The run's next RUNNING write and its final COMPLETED write restore the status and the progress, but they omit the error message, so the cancellation message survives: the job ends COMPLETED at 100 still carrying "Job cancelled by user" (`Processing.CancelDuringRun`). Two runs can also interleave their writes to one document's status.
- Failures of the database are not modelled, with one exception. The parameter `fault` names one job write of the try block that fails with a given message. Failures of reads, of the initial save, of the catch-all's own writes, and of document writes are not modelled. For the two bridge calls of processing only the NotFound of a missing document is modelled; a database failure of either call is not.
- Documents.DocumentsService.Update: an update with no fields present is accepted and leaves the document's modelled columns unchanged. The documents carry an `updatedAt` column (src/documents/documents.service.spec.ts:27), which the ORM refreshes on every update, so such an update still has a column to write and goes through. If the entity had no update-date column, the ORM would reject an update with nothing to write; that rejection is not modelled.
- `triggerIngestion` records `new Date()` in the metadata. Here the time is the parameter `triggeredAt`, given as the string it serialises to. Job metadata is a map from strings to strings, where the source allows any JSON value.
- Documents.DocumentsService.FindAll: returns the readable documents as a map from id to document. The source returns an array whose order the query leaves unspecified. The eager loading of the `uploadedBy` relation is not modelled.
- The optional `userId` and `userRole` parameters of the document service are required here. The controllers always pass them, so a missing role or user is not modelled.
- src/documents/entities/document.entity.ts and src/users/entities/user.entity.ts are not part of this model. Document statuses PENDING, PROCESSING, COMPLETED and FAILED and roles ADMIN, EDITOR and VIEWER are taken from their uses in the services. A new document's PENDING status is taken from the service's test fixture.
- Controllers, module wiring, authentication, request validation, file storage and the test suites are outside the modelled core.
