/**
 * The persistent store behind the job engine: one table per entity, held in
 * memory, and the Prisma writes the worker issues against it.
 */
module Store {
  import opened Common
  import opened Js

  /** Job.status, untyped text in the database, as an explicit enumeration. */
  datatype JobStatus = Queued | Running | Success | Failed

  /** Job.stage: the labels the job engine writes. */
  datatype Stage = Queued | Locked | Parsing | LlmMatching | Done

  datatype PairStatus = Pending | Running | Success

  /**
   * A timestamp column holding ISO text: NULL, text that Date.parse reads as
   * `ms` milliseconds, or text it rejects (NaN).
   */
  datatype Stamp = NoTime | At(ms: int) | Unparseable(text: string)

  datatype Job = Job(
    id: string,
    sectionId: string,
    status: JobStatus,
    stage: Stage,
    progress: int,
    parseProgress: int,
    llmProgress: int,
    reportProgress: int,
    createdBy: string,
    createdAt: int,
    startedAt: Stamp,
    finishedAt: Stamp,
    error: Nullable<string>)

  /** The `data` argument of a job update: only the fields present are written. */
  datatype JobPatch = JobPatch(
    status: Option<JobStatus>,
    stage: Option<Stage>,
    progress: Option<int>,
    parseProgress: Option<int>,
    llmProgress: Option<int>,
    reportProgress: Option<int>,
    startedAt: Option<int>,
    finishedAt: Option<int>,
    error: Option<string>)

  datatype Doc = Doc(id: string, sectionId: string, bidder: string)

  datatype Pair = Pair(
    id: string, jobId: string, docA: string, docB: string,
    score: int, hits: int, status: PairStatus)

  datatype Hit = Hit(
    id: string,
    jobId: string,
    aDocId: string,
    bDocId: string,
    score: int,
    rewriteRisk: string,
    ruleHits: seq<string>,
    sectionType: string,
    explanation: string,
    aBidder: string,
    aPage: int,
    aSnippet: string,
    bBidder: string,
    bPage: int,
    bSnippet: string,
    createdAt: int)

  datatype Anchor = Anchor(
    id: string, hitId: string, aPage: int, bPage: int,
    aBboxList: JsValue, bBboxList: JsValue, aSnippet: string, bSnippet: string)

  datatype Review = Review(id: string, hitId: string, result: string, remark: Nullable<string>, reviewedAt: int)

  /** One row of the invocation log; its `invoke-<Date.now()>` id is not modelled. */
  datatype InvokeLog = InvokeLog(
    jobId: Nullable<string>,
    providerId: Nullable<string>,
    stage: string,
    status: string,
    latencyMs: Nullable<int>,
    error: Nullable<string>,
    createdAt: int)

  datatype AuditLog = AuditLog(id: string, provider: string, purpose: string, latency: int, status: string, createdAt: string)

  /** A snapshot of every table, in table (insertion) order; reviews are keyed by their unique hitId. */
  datatype Tables = Tables(
    jobs: seq<Job>,
    docs: seq<Doc>,
    pairs: seq<Pair>,
    hits: seq<Hit>,
    anchors: seq<Anchor>,
    reviews: map<string, Review>,
    invokeLogs: seq<InvokeLog>,
    auditLogs: seq<AuditLog>)

  /** What a failing `await` throws: an Error instance with its message, or some other value. */
  datatype Thrown = ErrorObject(message: string) | NonErrorValue

  /** Thrown by an update by id that matches no row. */
  const RecordToUpdateNotFound := ErrorObject("Record to update not found.")

  /** Thrown by an insert whose primary key is already taken. */
  const UniqueConstraintFailed := ErrorObject("Unique constraint failed on the fields: (`id`)")

  /** Thrown by a write whose relation field names a row that does not exist. */
  const ForeignKeyConstraintFailed := ErrorObject("Foreign key constraint failed on the field: `hitId`")

  predicate HasJob(jobs: seq<Job>, id: string) {
    exists k :: 0 <= k < |jobs| && jobs[k].id == id
  }

  /** Job.id is the primary key. */
  predicate JobIdsUnique(jobs: seq<Job>) {
    forall a, b :: 0 <= a < b < |jobs| ==> jobs[a].id != jobs[b].id
  }

  predicate HasHit(hits: seq<Hit>, id: string) {
    exists k :: 0 <= k < |hits| && hits[k].id == id
  }

  predicate HasAnchor(anchors: seq<Anchor>, id: string) {
    exists k :: 0 <= k < |anchors| && anchors[k].id == id
  }

  function Patched(j: Job, p: JobPatch): Job {
    j.(status := if p.status.Some? then p.status.value else j.status,
       stage := if p.stage.Some? then p.stage.value else j.stage,
       progress := if p.progress.Some? then p.progress.value else j.progress,
       parseProgress := if p.parseProgress.Some? then p.parseProgress.value else j.parseProgress,
       llmProgress := if p.llmProgress.Some? then p.llmProgress.value else j.llmProgress,
       reportProgress := if p.reportProgress.Some? then p.reportProgress.value else j.reportProgress,
       startedAt := if p.startedAt.Some? then At(p.startedAt.value) else j.startedAt,
       finishedAt := if p.finishedAt.Some? then At(p.finishedAt.value) else j.finishedAt,
       error := if p.error.Some? then NonNull(p.error.value) else j.error)
  }

  /** Every row with the given id patched, every other row as it was. */
  function PatchJobs(jobs: seq<Job>, id: string, p: JobPatch): (r: seq<Job>)
    ensures |r| == |jobs|
    ensures forall k :: 0 <= k < |r| ==> r[k] == if jobs[k].id == id then Patched(jobs[k], p) else jobs[k]
  {
    seq(|jobs|, k requires 0 <= k < |jobs| => if jobs[k].id == id then Patched(jobs[k], p) else jobs[k])
  }

  /** `prisma.pair.updateMany({ where: { jobId }, data })`: every pair of the job, no other. */
  function UpdatePairs(pairs: seq<Pair>, jobId: string, status: PairStatus, score: int, hits: int): (r: seq<Pair>)
    ensures |r| == |pairs|
    ensures forall k :: 0 <= k < |r| ==>
      r[k] == if pairs[k].jobId == jobId then pairs[k].(status := status, score := score, hits := hits) else pairs[k]
  {
    seq(|pairs|, k requires 0 <= k < |pairs| =>
      if pairs[k].jobId == jobId then pairs[k].(status := status, score := score, hits := hits) else pairs[k])
  }

  /** A single store write that may throw. */
  datatype Write =
    | UpdateJob(id: string, patch: JobPatch)
    | CreateInvokeLog(log: InvokeLog)
    | CreateHit(hit: Hit)
    | CreateAnchor(anchor: Anchor)
    | UpdatePairsOfJob(jobId: string, status: PairStatus, score: int, hitCount: int)

  /** The effect of a write on the tables, or what it throws. */
  function Apply(t: Tables, w: Write): Result<Tables, Thrown> {
    match w
    case UpdateJob(id, patch) =>
      if HasJob(t.jobs, id) then Ok(t.(jobs := PatchJobs(t.jobs, id, patch))) else Err(RecordToUpdateNotFound)
    case CreateInvokeLog(log) =>
      Ok(t.(invokeLogs := t.invokeLogs + [log]))
    case CreateHit(hit) =>
      if HasHit(t.hits, hit.id) then Err(UniqueConstraintFailed) else Ok(t.(hits := t.hits + [hit]))
    case CreateAnchor(anchor) =>
      if HasAnchor(t.anchors, anchor.id) then Err(UniqueConstraintFailed) else Ok(t.(anchors := t.anchors + [anchor]))
    case UpdatePairsOfJob(jobId, status, score, hitCount) =>
      Ok(t.(pairs := UpdatePairs(t.pairs, jobId, status, score, hitCount)))
  }

  /**
   * Issuing a write: `injected` is a failure of the store itself (lost
   * connection, timeout) that makes the write throw without effect.
   */
  function Attempt(t: Tables, w: Write, injected: Option<Thrown>): (Tables, Option<Thrown>) {
    if injected.Some? then (t, injected)
    else match Apply(t, w)
      case Ok(t') => (t', None)
      case Err(e) => (t, Some(e))
  }

  /** The database, one mutable field per table. */
  class Db {
    var jobs: seq<Job>
    var docs: seq<Doc>
    var pairs: seq<Pair>
    var hits: seq<Hit>
    var anchors: seq<Anchor>
    var reviews: map<string, Review>
    var invokeLogs: seq<InvokeLog>
    var auditLogs: seq<AuditLog>

    function State(): Tables
      reads this
    {
      Tables(jobs, docs, pairs, hits, anchors, reviews, invokeLogs, auditLogs)
    }

    constructor (t: Tables)
      ensures State() == t
    {
      jobs, docs, pairs, hits, anchors := t.jobs, t.docs, t.pairs, t.hits, t.anchors;
      reviews, invokeLogs, auditLogs := t.reviews, t.invokeLogs, t.auditLogs;
    }

    /** Performs one write and reports what it threw, if anything. */
    method Perform(w: Write, injected: Option<Thrown>) returns (thrown: Option<Thrown>)
      modifies this
      ensures (State(), thrown) == Attempt(old(State()), w, injected)
    {
      if injected.Some? {
        return injected;
      }
      thrown := None;
      match w {
      case UpdateJob(id, patch) =>
        if !HasJob(jobs, id) {
          return Some(RecordToUpdateNotFound);
        }
        jobs := PatchJobs(jobs, id, patch);
      case CreateInvokeLog(log) =>
        invokeLogs := invokeLogs + [log];
      case CreateHit(hit) =>
        if HasHit(hits, hit.id) {
          return Some(UniqueConstraintFailed);
        }
        hits := hits + [hit];
      case CreateAnchor(anchor) =>
        if HasAnchor(anchors, anchor.id) {
          return Some(UniqueConstraintFailed);
        }
        anchors := anchors + [anchor];
      case UpdatePairsOfJob(jobId, status, score, hitCount) =>
        pairs := UpdatePairs(pairs, jobId, status, score, hitCount);
      }
    }
  }
}
