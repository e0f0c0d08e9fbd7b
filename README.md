# Bid-document dedup job engine — a Dafny model

This project models the job engine behind the bid-document dedup API. The
engine holds a job table and the records hung off it, and a worker drives it
one tick at a time:

- **createJob** inserts one QUEUED job. It then pushes one PENDING pair for
  every index pair `i < j` of the documents found, in two nested loops.
- **getJob, listPairs, listHits, listAnchors, getReport and upsertReview** are
  the read side and the review write. They cover the hit filter, the
  bounding-box normaliser, and the `report-<jobId>` naming.
- **createInvokeLog** appends to the invocation log. **listInvokeLogs** and
  **listAuditLogs** project the logs back.
- **runJobPipeline and ensureHits** make a fixed sequence of writes:
  - three updates of the job row;
  - two invocation logs;
  - an idempotent sample hit with its anchor;
  - a bulk update of the job's pairs.
- **tick** first runs the timeout sweep (`recoverStuckJobs`). It then finds the
  first QUEUED job and claims it with a conditional update whose row count
  decides what happens next. It runs the pipeline on the claimed job and turns
  a thrown error into a FAILED job plus one error log.
- **The submit and report routes** map createJob's result to a status code and
  body, map a report id back to a job id, and choose between the two spellings
  of the document filter.

How the model is built:

- **Store.** The database is one class, `Store.Db`, with one sequence field
  per table and a map of reviews keyed by hit id. Every state-changing
  operation is a method. Its `ensures` ties the new `State()` to a function
  of the old one, and the properties are lemmas about those functions.
- **Failing writes.** A store write that can throw goes through
  `Store.Db.Perform`. The failure of the store itself is a parameter.
- **Pipeline as a trace.** The pipeline is a list of labelled writes.
  `Pipeline.Run` plays the list and stops at the first write that throws,
  as the chain of `await`s does. A `Fault` parameter names the step whose
  write throws.
- **Time and ids.** Time is an integer of milliseconds passed in as `now`.
  Timestamps are `NoTime`, `At(ms)`, or `Unparseable`, the last for text
  that `Date.parse` rejects. Ids built from `Date.now()` are parameters.
  One instant `now` stands for every clock read within a tick.
- **Assumed failJob.** `failJob` is imported by the worker
  (apps/api/src/worker/index.ts:3), but `apps/api/src/repositories/jobs.ts`
  does not define it. The model gives it one effect: status FAILED, with the
  message as the error.
- **Relations.** A review's hit id refers to the hit table, as the
  `include: { review: true }` joins show (apps/api/src/repositories/jobs.ts:129-131).
  An upsert for a hit id that no hit has throws a foreign-key error and
  writes nothing.
- **Rival claims.** A rival worker's claim of the same job, landing between
  `findFirst` and the claim, is the `rival` parameter of `Worker.Tick`.

## Model

| member | source | states |
|---|---|---|
| AuditRepo.InvokeRow | apps/api/src/repositories/audit.ts:47-58 | an absent jobId, providerId, latencyMs or error is stored as NULL, and only then; a supplied one is stored unchanged; stage and status are copied verbatim |
| AuditRepo.CreateInvokeLog | apps/api/src/repositories/audit.ts:39-60 | appends exactly one row, the stored form of the payload, and changes nothing else; a store failure throws and changes nothing |
| AuditRepo.ListInvokeLogs | apps/api/src/repositories/audit.ts:16-37 | one entry per stored row, in store order; a NULL column is listed as an absent property |
| AuditRepo.CreatedLogListsBack | apps/api/src/repositories/audit.ts:27-58 | listing after a create keeps the earlier entries; the new entry has the stage and status given, and each optional field exactly when it was supplied, with its value |
| AuditRepo.ListAuditLogs | apps/api/src/repositories/audit.ts:3-14 | one entry per stored row, in store order, every field copied |
| JobsRepo.BuildPairs | apps/api/src/repositories/jobs.ts:66-81 | the nested loops push exactly the pair matrix of the documents found |
| JobsRepo.CreateJob | apps/api/src/repositories/jobs.ts:41-86 | a taken job id throws before any write; otherwise one QUEUED job row is appended, then the pair matrix; a clashing pair id throws after the job row was written |
| JobsRepo.PairMatrixCount | apps/api/src/repositories/jobs.ts:66-84 | k documents give k·(k−1)/2 pairs; fewer than two give none, while the job is still created |
| JobsRepo.PairMatrixShape | apps/api/src/repositories/jobs.ts:67-79 | the pair at each position belongs to an index pair i<j: its id is `pair-<jobId>-<i>-<j>`, docA and docB are the bidders of docs[i] and docs[j], score and hits 0, PENDING; every i<j occurs, in lexicographic order |
| JobsRepo.IndexPairsCount | apps/api/src/repositories/jobs.ts:67-68 | the loops visit (k−i)(k−i−1)/2 index pairs from row i on |
| JobsRepo.IndexPairsComplete | apps/api/src/repositories/jobs.ts:67-68 | every index pair a<b below k is visited |
| JobsRepo.IndexPairsSorted | apps/api/src/repositories/jobs.ts:67-68 | index pairs are visited in strictly increasing lexicographic order |
| JobsRepo.PairIdInjective | apps/api/src/repositories/jobs.ts:72 | two index pairs with the same pair id of one job are the same index pair |
| JobsRepo.PairMatrixIdsDistinct | apps/api/src/repositories/jobs.ts:72 | the pair ids of one job are pairwise distinct |
| JobsRepo.GetJob | apps/api/src/repositories/jobs.ts:26-39 | null exactly when no row has the id; otherwise the projection of a row with that id |
| JobsRepo.CreatedJobReadsBack | apps/api/src/repositories/jobs.ts:48-61 | after createJob, getJob reads QUEUED, stage QUEUED, all four progress counters 0, error null |
| JobsRepo.ListPairs | apps/api/src/repositories/jobs.ts:88-99 | one entry per pair of the job, in table order, carrying that pair's id, documents, score, hit count and status |
| JobsRepo.ListPairsAppend | apps/api/src/repositories/jobs.ts:88-99 | listing distributes over concatenation of the pair table, so order is kept, and a pair of another job is never listed |
| JobsRepo.ListPairsAfterUpdate | apps/api/src/worker/pipeline.ts:70-73 | after the pair update by job id the job lists the same pairs, in the same order, with the new status, score and hit count |
| JobsRepo.CreatedJobListsItsPairs | apps/api/src/repositories/jobs.ts:88-99 | listing the new job's pairs yields the projection of its pair matrix, in build order |
| JobsRepo.HitMatchesIff | apps/api/src/repositories/jobs.ts:133-142 | a hit passes exactly when every supplied filter holds: risk and sectionType equal, the bidder a substring of either side's bidder, minScore ≤ score ≤ maxScore |
| JobsRepo.SelectHitsFacts | apps/api/src/repositories/jobs.ts:133-142 | the selection distributes over concatenation (order preserving), keeps exactly the matching hits, and keeps every hit with no filter or only empty-string filters |
| JobsRepo.ListHits | apps/api/src/repositories/jobs.ts:143-155 | one view per selected hit, in selection order: every selected hit passes the filters, and its view carries the hit's id, score, risk, rules, section type, explanation, both sides and its review |
| JobsRepo.ListHitsIff | apps/api/src/repositories/jobs.ts:132-155 | a view is listed exactly when it is the view of a stored hit that passes the filters |
| JobsRepo.ListHitsUnfiltered | apps/api/src/repositories/jobs.ts:132-155 | with no filter, entry k is the view of the k-th stored hit, and there is one per hit |
| JobsRepo.ReviewOf | apps/api/src/repositories/jobs.ts:152-154 | a hit view has a review exactly when the hit has one; its result and reviewedAt are copied and a NULL remark is absent |
| JobsRepo.BoxOf | apps/api/src/repositories/jobs.ts:191-207 | an item yields a box exactly when it is a 4-element array or an object with x, y, w and h; a 4-element array passes through unchanged, an {x, y, w, h} object becomes [x, y, x+w, y+h] |
| JobsRepo.NormalizeItems | apps/api/src/repositories/jobs.ts:190-208 | the normalised list is never longer than its input and holds only 4-entry boxes |
| JobsRepo.Normalize | apps/api/src/repositories/jobs.ts:188-211 | a non-array gives []; an array gives at most as many boxes as items, each of 4 entries |
| JobsRepo.NormalizeAppend | apps/api/src/repositories/jobs.ts:190-208 | normalising distributes over concatenation, so surviving boxes keep their order |
| JobsRepo.NormalizeKeepsAllIff | apps/api/src/repositories/jobs.ts:190-208 | nothing is dropped exactly when every item is readable, and then item k becomes box k |
| JobsRepo.NormalizeObjectBox | apps/api/src/repositories/jobs.ts:195-204 | {x, y, w, h} becomes [x, y, x+w, y+h] |
| JobsRepo.ListAnchors | apps/api/src/repositories/jobs.ts:179-224 | one entry per anchor of the hit, in table order; each carries the anchor's pages and snippets and the normalised box lists, every box of 4 entries |
| JobsRepo.ListAnchorsAppend | apps/api/src/repositories/jobs.ts:179-224 | listing distributes over concatenation of the anchor table, so order is kept, and an anchor of another hit is never listed |
| JobsRepo.Upserted | apps/api/src/repositories/jobs.ts:226-239 | the hit has exactly one review afterwards, with the given result, the remark or NULL, and now; an existing review keeps its id, a new one is `review-<hitId>`; other reviews are unchanged |
| JobsRepo.UpsertReview | apps/api/src/repositories/jobs.ts:226-239 | a hit id no hit has throws a foreign-key error and changes nothing; otherwise the review table becomes the upserted one, the returned review is the stored one, and no other table changes |
| JobsRepo.UpsertKeepsReviewsOnHits | apps/api/src/repositories/jobs.ts:226-239 | an upsert that succeeds keeps every review attached to a stored hit |
| JobsRepo.UpsertLastWriteWins | apps/api/src/repositories/jobs.ts:227-229 | a second upsert overrides the first entirely, and the review keeps the id the first one gave it |
| JobsRepo.GetReport | apps/api/src/repositories/jobs.ts:101-105 | the report carries the job id, status SUCCESS, and an id that is `report-` followed by the job id |
| JobsRepo.FailJob | apps/api/src/worker/index.ts:3 | every row with the id becomes FAILED with the message as its error; nothing else changes |
| JobsRepo.FailJobsMerge | apps/api/src/worker/index.ts:15 | failing one set of jobs after another with the same message equals failing their union at once |
| Pipeline.Take | apps/api/src/worker/pipeline.ts:14 | `take: 3` yields the first min(n, 3) rows in table order |
| Pipeline.Log | apps/api/src/worker/pipeline.ts:59-66 | a stage log is one createInvokeLog write that may throw |
| Pipeline.StartStages | apps/api/src/worker/pipeline.ts:54-66 | the state and what is thrown are those of running the PARSING update, PARSE log, LLM_MATCHING update and MATCH log in order; hits and documents are untouched |
| Pipeline.EnsureHits | apps/api/src/worker/pipeline.ts:11-51 | the state and what is thrown are those of running ensureHits' writes: none when the job has a hit or fewer than two documents exist, else the hit then its anchor |
| Pipeline.FinishStages | apps/api/src/worker/pipeline.ts:70-85 | the state and what is thrown are those of running the pair update then the DONE update |
| Pipeline.RunJobPipeline | apps/api/src/worker/pipeline.ts:53-86 | the state and what is thrown are those of running the whole trace of writes in source order, stopping at the first throw |
| Pipeline.RunFaultAt | apps/api/src/worker/pipeline.ts:53-86 | a throw at the n-th write ends the pipeline with that error and exactly the first n writes applied |
| Pipeline.SkippedInsertsCannotFail | apps/api/src/worker/pipeline.ts:12-15 | when ensureHits skips, a store failure at the hit or anchor insert is never reached: only the head and tail writes run, with no failure |
| Pipeline.PipelineFrame | apps/api/src/worker/pipeline.ts:54-85 | whatever throws, only the job's own row and pairs change and keep their ids; hits, anchors and logs are only appended to; documents, reviews and audit logs are untouched |
| Pipeline.PipelineCounterWrites | apps/api/src/worker/pipeline.ts:56-82 | progress is written 20, 60, 100; parseProgress 30, 100; llmProgress 60, 100; reportProgress 100 |
| Pipeline.EnsureHitsCreates | apps/api/src/worker/pipeline.ts:14-50 | with no hit for the job and two documents, exactly one hit (docs[0] vs docs[1], score 82, HIGH) and one anchor pointing at it are added |
| Pipeline.EnsureHitsSkips | apps/api/src/worker/pipeline.ts:12-15 | with a hit for the job or fewer than two documents, nothing changes and nothing is thrown |
| Pipeline.EnsureHitsIdempotent | apps/api/src/worker/pipeline.ts:12-13 | after one successful ensureHits a second one changes nothing |
| Pipeline.HeadRuns | apps/api/src/worker/pipeline.ts:54-66 | the first four writes patch the row twice and append the PARSE/OK/800 then MATCH/OK/1200 logs |
| Pipeline.TailRuns | apps/api/src/worker/pipeline.ts:70-85 | the last two writes complete the job's pairs and patch the row to DONE |
| Pipeline.RowsCompleted | apps/api/src/worker/pipeline.ts:54-85 | the three row patches leave the job SUCCESS, DONE, every counter 100, startedAt and finishedAt set; other rows unchanged |
| Pipeline.PipelineCompletes | apps/api/src/worker/pipeline.ts:53-86 | without a store failure the pipeline returns normally, the job row is completed, exactly the two stage logs are appended, every pair of the job is SUCCESS/82/3 and others untouched |
| Pipeline.SampleAnchorReadsBack | apps/api/src/worker/pipeline.ts:6-9 | the stored sample boxes list back as [0.1, 0.2, 0.9, 0.25] and [0.12, 0.28, 0.88, 0.33] |
| Worker.RecoverStuckJobs | apps/api/src/worker/index.ts:8-19 | the loop over the RUNNING snapshot leaves exactly the swept state |
| Worker.StaleIdsIff | apps/api/src/worker/index.ts:11-14 | a job id is failed exactly when some RUNNING job with that id has a parseable start strictly before now − 1,800,000 |
| Worker.SweepFailsExactlyStale | apps/api/src/worker/index.ts:8-19 | with unique ids, exactly the stale rows become FAILED with JOB_TIMEOUT; rows without or with an unparseable start, and non-RUNNING rows, are untouched |
| Worker.SweepLogsOnePerStale | apps/api/src/worker/index.ts:11-16 | the sweep appends one RECOVERY/ERROR/JOB_TIMEOUT log per stale job, in table order |
| Worker.Claim | apps/api/src/worker/index.ts:25-28 | the count is the number of rows with the id still QUEUED, and exactly those rows become RUNNING, LOCKED, progress 1, started now |
| Worker.AtMostOneClaimable | apps/api/src/worker/index.ts:25-29 | with unique ids the claim count is 0 or 1 |
| Worker.ClaimCountIff | apps/api/src/worker/index.ts:25-29 | with unique ids the count is 1 exactly when a QUEUED row with the id exists |
| Worker.ClaimNoop | apps/api/src/worker/index.ts:25-29 | a claim reporting 0 changes nothing |
| Worker.SecondClaimLoses | apps/api/src/worker/index.ts:25-29 | after a claim, a second claim of the same job reports 0 |
| Worker.ExactlyOneClaimWins | apps/api/src/worker/index.ts:25-29 | of two successive claims of a QUEUED job, the first reports 1 and the second 0 |
| Worker.FirstQueued | apps/api/src/worker/index.ts:23 | the found row is QUEUED and no earlier row is; none is found exactly when no row is QUEUED |
| Worker.Tick | apps/api/src/worker/index.ts:21-37 | the new state and outcome are those of sweeping, finding, claiming, running and catching in that order |
| Worker.HandleFrame | apps/api/src/worker/index.ts:25-36 | handling the found job touches only rows with its id, keeps every row id, and only appends logs |
| Worker.TickSweepsFirst | apps/api/src/worker/index.ts:22-24 | the sweep's logs always come first; the tick stops after the sweep exactly when no job is QUEUED |
| Worker.TickTouchesOneJob | apps/api/src/worker/index.ts:23-31 | at most one job, the first QUEUED after the sweep, differs from the swept rows; no row changes its id |
| Worker.TickKeepsTerminalRows | apps/api/src/worker/index.ts:21-37 | with unique ids, SUCCESS and FAILED rows are never changed by a tick |
| Worker.TickLostRace | apps/api/src/worker/index.ts:25-29 | when a rival claims the job first, the tick reports 0 and runs no pipeline; the state is the sweep plus the rival's claim |
| Worker.TickProcesses | apps/api/src/worker/index.ts:21-31 | without rival or store failure the first QUEUED job is claimed and completed, and exactly the PARSE and MATCH logs follow the sweep's |
| Worker.TickCatchesFailure | apps/api/src/worker/index.ts:32-36 | a throw from the first pipeline write leaves the claimed job FAILED with the message (UNKNOWN_ERROR for a non-Error value), still LOCKED at progress 1, and one PIPELINE/ERROR log; the tick returns normally |
| Worker.TickFailureRecorded | apps/api/src/worker/index.ts:32-36 | whatever the pipeline threw, the job's rows end FAILED with the message, and the last log is the PIPELINE/ERROR one carrying it |
| JobRoutes.ReportIdToJobId | apps/api/src/routes/jobs.ts:130 | a report id starting with `report-` maps to the rest; any other id maps to itself |
| JobRoutes.ReportIdRoundTrip | apps/api/src/routes/jobs.ts:149 | the report id getReport builds maps back to its job id, even when the job id itself contains `report-` |
| JobRoutes.SubmitReply | apps/api/src/routes/jobs.ts:34-42 | the code is 200 exactly for status OK, 404 exactly for SECTION_NOT_FOUND, 409 otherwise; non-OK echoes the status, OK gives the job id and QUEUED |
| JobRoutes.CreateJobResultAsWritten | apps/api/src/repositories/jobs.ts:85 | createJob resolves to the bare job id, which has no status or jobId property |
| JobRoutes.SubmitAlwaysConflicts | apps/api/src/routes/jobs.ts:29-42 | as written, every submission is answered 409 with an empty body |
| JobRoutes.CreateJobResult | apps/api/src/routes/jobs.ts:34-42 | the result the route reads: status OK and the job id |
| JobRoutes.SubmitQueuesJob | apps/api/src/routes/jobs.ts:42 | with that result the reply is 200 with the stored job's id and QUEUED |
| JobRoutes.DocIdParam | apps/api/src/routes/jobs.ts:96 | `doc_id` wins over `docId` when present; the filter is absent only when both are |

## Left out

- HTTP plumbing of the routes is not modelled: Fastify registration, zod parsing, and the `Number(...)` conversions of query strings.
- `listJobs`, `getHit`, and the routes that call `listJobHits`, `getJobHit` and `getJobHitSummary` are not modelled. The last three are not defined in apps/api/src/repositories/jobs.ts.
- `failJob` is only its assumed effect (FAILED plus the error message), since its body is not part of this model.
- `Date.now()` ids (`job-`, `hit-`, `invoke-`) are parameters, and their uniqueness is not claimed. Invocation-log ids are not stored.
- Pipeline.RowsCompleted, Pipeline.PipelineCompletes and Worker.Tick: one instant `now` stands for every clock read in a tick. The source reads the clock separately each time: the sweep cutoff (apps/api/src/worker/index.ts:10), the claim's `startedAt` (apps/api/src/worker/index.ts:27), the pipeline's `startedAt` and `finishedAt` (apps/api/src/worker/pipeline.ts:56, 83), and each log's `createdAt` (apps/api/src/repositories/audit.ts:56). So in the model a completed job has `startedAt == finishedAt`, equal to the claim time, where the source only gives claim ≤ start ≤ finish.
- ISO timestamps are integers of milliseconds; `Date.parse` is the `At`/`Unparseable` distinction. `listAuditLogs` keeps its `createdAt` text as it is.
- The `setTimeout` loop and the top-level `await loop()` (apps/api/src/worker/index.ts:39-44) are not modelled. One tick is modelled.
- Concurrency between worker processes is reduced to one rival claim, landing between `findFirst` and the claim.
- Worker.Tick: a store failure is modelled only for the pipeline's writes. A failure of the sweep's reads and writes, of `findFirst` (apps/api/src/worker/index.ts:23), of the claim's `updateMany` (apps/api/src/worker/index.ts:25-28), or of the catch block's `failJob` and `createInvokeLog`, is not modelled. In the source such a failure escapes `tick`; in the model those steps always succeed.
- Worker.RecoverStuckJobs: store failures during the sweep are not modelled, for the same reason.
- JobsRepo.NormalizeObjectBox: coordinates are exact reals. `x + w` on floating point rounds (0.1 + 0.2 is not exactly 0.3), and `+` on non-numbers (string concatenation, NaN) is given no value.
- JobsRepo.HitMatchesIff: scores and filter bounds are integers; NaN bounds from `Number("abc")` are not modelled.
- Pipeline.PipelineCompletes: requires that the sample hit's id and its anchor's id are still free. With a clash the hit insert throws, which Pipeline.RunJobPipeline and Pipeline.RunFaultAt cover as an ordinary throw.
- Worker.TickProcesses: stated for unique job ids, free hit ids, no rival and no store failure. The other cases are covered by Worker.TickLostRace, Worker.TickCatchesFailure and Worker.TickFailureRecorded.
- Worker.TickCatchesFailure: the full final state is worked out for a throw at the first pipeline write. For a throw anywhere, Worker.TickFailureRecorded states the FAILED row and the last log.
- JobsRepo.CreateJob: the model has no section table, so `job.create` always succeeds for an unknown section id. The job's `sectionId` is a relation to the section (`include: { section: true }`, apps/api/src/repositories/jobs.ts:11-18), so under the default foreign keys that insert throws before anything is written.
- JobsRepo.CreateJob: store failures of `job.create`, `document.findMany` and `pair.createMany` (apps/api/src/repositories/jobs.ts:48-84) are not modelled. The only modelled throws are a taken job id, and a taken pair id after the job row was written.
- JobsRepo.CreateJob: document ids that are not found are skipped. There is no SECTION_NOT_FOUND or NOT_ENOUGH_DOCS rejection in this code.

## Findings

| source | as written | input that shows it | evidently intended | confidence | as-written member | corrected member |
|---|---|---|---|---|---|---|
| apps/api/src/routes/jobs.ts:34-42 | createJob (apps/api/src/repositories/jobs.ts:85) resolves to the job id string, so `result.status` is undefined and the route answers 409 with `{}`, although the job and its pairs were stored and will run | any valid submission, e.g. createJob resolving to `"job-1"` | answer 200 with `{ job_id, status: 'QUEUED' }` for the created job | medium (not executed): assumes the route is linked against the createJob of apps/api/src/repositories/jobs.ts, yet the route file imports `listJobHits`, `getJobHit` and `getJobHitSummary`, which that file does not export, so the route may have been written against another version | JobRoutes.SubmitAlwaysConflicts | JobRoutes.SubmitQueuesJob |
