/**
 * The job pipeline the worker runs for a claimed job: three updates of the
 * job row, two invocation-log appends, the idempotent creation of a sample
 * hit and its anchor, and the bulk completion of the job's pairs.
 *
 * Its specification is the trace of store writes it issues, each labelled
 * with its step; `Run` plays a trace against the tables and stops at the
 * first write that throws, exactly as the sequence of awaits does.
 */
module Pipeline {
  import opened Common
  import opened Seqs
  import opened Js
  import opened Store
  import opened AuditRepo
  import JobsRepo

  datatype PipelineStep =
    | MarkParsing | LogParse | MarkMatching | LogMatch
    | CreateHit | CreateAnchor | CompletePairs | MarkDone

  /** A store failure that makes the write of one step throw. */
  datatype Fault = Fault(step: PipelineStep, thrown: Thrown)

  function InjectedAt(fault: Option<Fault>, step: PipelineStep): Option<Thrown> {
    if fault.Some? && fault.value.step == step then Some(fault.value.thrown) else None
  }

  datatype Op = Op(step: PipelineStep, write: Write)

  /** Plays the writes in order; the first one that throws ends the run with what it threw. */
  function Run(t: Tables, ops: seq<Op>, fault: Option<Fault>): (Tables, Option<Thrown>)
    decreases |ops|
  {
    if ops == [] then (t, None)
    else
      var (t1, thrown) := Attempt(t, ops[0].write, InjectedAt(fault, ops[0].step));
      if thrown.Some? then (t1, thrown) else Run(t1, ops[1..], fault)
  }

  lemma {:induction false} RunAppend(t: Tables, a: seq<Op>, b: seq<Op>, fault: Option<Fault>)
    ensures Run(t, a + b, fault) == (var (t1, thrown) := Run(t, a, fault); if thrown.Some? then (t1, thrown) else Run(t1, b, fault))
    decreases |a|
  {
    if a == [] {
      assert a + b == b;
    } else {
      assert (a + b)[0] == a[0];
      assert (a + b)[1..] == a[1..] + b;
      RunAppend(Attempt(t, a[0].write, InjectedAt(fault, a[0].step)).0, a[1..], b, fault);
    }
  }

  // ------------------------------------------------------------- the writes

  /** status RUNNING, stage PARSING, progress 20, parseProgress 30, startedAt now. */
  function ParsingPatch(now: int): JobPatch {
    JobPatch(Some(JobStatus.Running), Some(Stage.Parsing), Some(20), Some(30), None, None, Some(now), None, None)
  }

  /** stage LLM_MATCHING, progress 60, llmProgress 60, parseProgress 100. */
  function MatchingPatch(): JobPatch {
    JobPatch(None, Some(Stage.LlmMatching), Some(60), Some(100), Some(60), None, None, None, None)
  }

  /** status SUCCESS, stage DONE, progress, reportProgress and llmProgress 100, finishedAt now. */
  function DonePatch(now: int): JobPatch {
    JobPatch(Some(JobStatus.Success), Some(Stage.Done), Some(100), None, Some(100), Some(100), None, Some(now), None)
  }

  /** The createInvokeLog payload of a successful stage. */
  function StagePayload(jobId: string, stage: string, latencyMs: int): InvokePayload {
    InvokePayload(Some(jobId), None, stage, "OK", Some(latencyMs), None)
  }

  const Explanation := "关键段落结构与措辞高度一致。"
  const SnippetA := "方案总体目标及实施路径……"
  const SnippetB := "总体思路与技术路线……"

  /** The fixed sample hit between documents a and b. */
  function SampleHit(jobId: string, hitId: string, a: Doc, b: Doc, now: int): Hit {
    Hit(hitId, jobId, a.id, b.id, 82, "HIGH", ["TECH_PLAN_SIMILAR"], "TECH", Explanation,
        a.bidder, 12, SnippetA, b.bidder, 15, SnippetB, now)
  }

  function Box(x: real, y: real, w: real, h: real): JsValue {
    JsObject(map["x" := JsNum(x), "y" := JsNum(y), "w" := JsNum(w), "h" := JsNum(h)])
  }

  /** buildAnchors: the two fixed {x, y, w, h} boxes stored on both sides. */
  function BuildAnchors(): JsValue {
    JsArray([Box(0.1, 0.2, 0.8, 0.05), Box(0.12, 0.28, 0.76, 0.05)])
  }

  function AnchorId(hitId: string): string {
    "anchor-" + hitId
  }

  function SampleAnchor(hitId: string): Anchor {
    Anchor(AnchorId(hitId), hitId, 12, 15, BuildAnchors(), BuildAnchors(), SnippetA, SnippetB)
  }

  /** `prisma.hit.count({ where: { jobId } })`. */
  function HitCount(hits: seq<Hit>, jobId: string): nat {
    |Filter(hits, (h: Hit) => h.jobId == jobId)|
  }

  /** `findMany({ take: n })`: the first n rows in table order. */
  function Take<T>(s: seq<T>, n: nat): (r: seq<T>)
    ensures |r| == if |s| <= n then |s| else n
    ensures r <= s
  {
    if |s| <= n then s else s[..n]
  }

  /** The writes of ensureHits, decided on the hit and document tables it reads. */
  function EnsureHitsOps(hits: seq<Hit>, docs: seq<Doc>, jobId: string, hitId: string, now: int): seq<Op> {
    if HitCount(hits, jobId) > 0 then []
    else
      var taken := Take(docs, 3);
      if |taken| < 2 then []
      else
        [Op(PipelineStep.CreateHit, Write.CreateHit(SampleHit(jobId, hitId, taken[0], taken[1], now))),
         Op(PipelineStep.CreateAnchor, Write.CreateAnchor(SampleAnchor(hitId)))]
  }

  /** The four writes before ensureHits: PARSING update, PARSE log, LLM_MATCHING update, MATCH log. */
  function HeadOps(jobId: string, now: int): seq<Op> {
    [Op(MarkParsing, UpdateJob(jobId, ParsingPatch(now))),
     Op(LogParse, Write.CreateInvokeLog(InvokeRow(StagePayload(jobId, "PARSE", 800), now))),
     Op(MarkMatching, UpdateJob(jobId, MatchingPatch())),
     Op(LogMatch, Write.CreateInvokeLog(InvokeRow(StagePayload(jobId, "MATCH", 1200), now)))]
  }

  /** The two writes after ensureHits: the pair completion and the DONE update. */
  function TailOps(jobId: string, now: int): seq<Op> {
    [Op(CompletePairs, UpdatePairsOfJob(jobId, PairStatus.Success, 82, 3)),
     Op(MarkDone, UpdateJob(jobId, DonePatch(now)))]
  }

  /** The writes of runJobPipeline, in the order it awaits them. */
  function PipelineOps(t: Tables, jobId: string, hitId: string, now: int): seq<Op> {
    HeadOps(jobId, now) + (EnsureHitsOps(t.hits, t.docs, jobId, hitId, now) + TailOps(jobId, now))
  }

  // ------------------------------------------------------------- the methods

  /** createInvokeLog as one write of the trace. */
  method Log(db: Db, payload: InvokePayload, now: int, injected: Option<Thrown>) returns (thrown: Option<Thrown>)
    modifies db
    ensures (db.State(), thrown) == Attempt(old(db.State()), Write.CreateInvokeLog(InvokeRow(payload, now)), injected)
  {
    var r := AuditRepo.CreateInvokeLog(db, payload, now, injected);
    thrown := if r.Ok? then None else Some(r.error);
  }

  /**
   * ensureHits: when the job has no hit yet and the first three documents of
   * the store hold at least two, one sample hit between the first two and
   * its anchor; otherwise nothing.
   */
  method EnsureHits(db: Db, jobId: string, hitId: string, now: int, fault: Option<Fault>)
    returns (thrown: Option<Thrown>)
    modifies db
    ensures (db.State(), thrown) == Run(old(db.State()), EnsureHitsOps(old(db.hits), old(db.docs), jobId, hitId, now), fault)
  {
    thrown := None;
    ghost var ops := EnsureHitsOps(db.hits, db.docs, jobId, hitId, now);
    var existing := HitCount(db.hits, jobId);
    if existing > 0 {
      return;
    }
    var docs := Take(db.docs, 3);
    if |docs| < 2 {
      return;
    }
    var a, b := docs[0], docs[1];
    EnsureHitsShape(db.hits, db.docs, jobId, hitId, now);

    ghost var before := db.State();
    thrown := db.Perform(Write.CreateHit(SampleHit(jobId, hitId, a, b, now)), InjectedAt(fault, PipelineStep.CreateHit));
    RunStep(before, ops[0], [ops[1]], fault);
    if thrown.Some? {
      return;
    }

    before := db.State();
    thrown := db.Perform(Write.CreateAnchor(SampleAnchor(hitId)), InjectedAt(fault, PipelineStep.CreateAnchor));
    RunStep(before, ops[1], [], fault);
  }

  /** The opening writes of runJobPipeline: PARSING, the PARSE log, LLM_MATCHING, the MATCH log. */
  method StartStages(db: Db, jobId: string, now: int, fault: Option<Fault>) returns (thrown: Option<Thrown>)
    modifies db
    ensures (db.State(), thrown) == Run(old(db.State()), HeadOps(jobId, now), fault)
    ensures db.hits == old(db.hits) && db.docs == old(db.docs)
  {
    ghost var ops := HeadOps(jobId, now);
    assert ops == [ops[0]] + ([ops[1]] + ([ops[2]] + [ops[3]]));

    ghost var before := db.State();
    thrown := db.Perform(UpdateJob(jobId, ParsingPatch(now)), InjectedAt(fault, MarkParsing));
    RunStep(before, ops[0], [ops[1]] + ([ops[2]] + [ops[3]]), fault);
    if thrown.Some? {
      return;
    }

    before := db.State();
    thrown := Log(db, StagePayload(jobId, "PARSE", 800), now, InjectedAt(fault, LogParse));
    RunStep(before, ops[1], [ops[2]] + [ops[3]], fault);
    if thrown.Some? {
      return;
    }

    before := db.State();
    thrown := db.Perform(UpdateJob(jobId, MatchingPatch()), InjectedAt(fault, MarkMatching));
    RunStep(before, ops[2], [ops[3]], fault);
    if thrown.Some? {
      return;
    }

    before := db.State();
    thrown := Log(db, StagePayload(jobId, "MATCH", 1200), now, InjectedAt(fault, LogMatch));
    RunStep(before, ops[3], [], fault);
  }

  /** The closing writes of runJobPipeline: the bulk pair update, then SUCCESS / DONE. */
  method FinishStages(db: Db, jobId: string, now: int, fault: Option<Fault>) returns (thrown: Option<Thrown>)
    modifies db
    ensures (db.State(), thrown) == Run(old(db.State()), TailOps(jobId, now), fault)
  {
    ghost var ops := TailOps(jobId, now);
    assert ops == [ops[0]] + [ops[1]];

    ghost var before := db.State();
    thrown := db.Perform(UpdatePairsOfJob(jobId, PairStatus.Success, 82, 3), InjectedAt(fault, CompletePairs));
    RunStep(before, ops[0], [ops[1]], fault);
    if thrown.Some? {
      return;
    }

    before := db.State();
    thrown := db.Perform(UpdateJob(jobId, DonePatch(now)), InjectedAt(fault, MarkDone));
    RunStep(before, ops[1], [], fault);
  }

  /** runJobPipeline: the trace of PipelineOps, stopping at the first write that throws. */
  method RunJobPipeline(db: Db, jobId: string, hitId: string, now: int, fault: Option<Fault>)
    returns (thrown: Option<Thrown>)
    modifies db
    ensures (db.State(), thrown) == Run(old(db.State()), PipelineOps(old(db.State()), jobId, hitId, now), fault)
  {
    ghost var t0 := db.State();
    ghost var eh := EnsureHitsOps(db.hits, db.docs, jobId, hitId, now);
    RunAppend(t0, HeadOps(jobId, now), eh + TailOps(jobId, now), fault);

    thrown := StartStages(db, jobId, now, fault);
    if thrown.Some? {
      return;
    }
    RunAppend(db.State(), eh, TailOps(jobId, now), fault);
    thrown := EnsureHits(db, jobId, hitId, now, fault);
    if thrown.Some? {
      return;
    }
    thrown := FinishStages(db, jobId, now, fault);
  }

  // ------------------------------------------------------- properties of Run

  /** One step of a run. */
  lemma RunStep(t: Tables, op: Op, rest: seq<Op>, fault: Option<Fault>)
    ensures Run(t, [op] + rest, fault)
         == (var (t1, thrown) := Attempt(t, op.write, InjectedAt(fault, op.step));
             if thrown.Some? then (t1, thrown) else Run(t1, rest, fault))
  {
    assert ([op] + rest)[0] == op && ([op] + rest)[1..] == rest;
  }

  /**
   * A store failure at a step that occurs once in the trace: every write
   * before it stays in place, nothing after it is issued, and the run
   * throws what the store threw.
   */
  lemma {:induction false} RunFaultAt(t: Tables, ops: seq<Op>, n: nat, e: Thrown)
    requires n < |ops|
    requires forall m :: 0 <= m < n ==> ops[m].step != ops[n].step
    requires Run(t, ops[..n], None).1.None?
    ensures Run(t, ops, Some(Fault(ops[n].step, e))) == (Run(t, ops[..n], None).0, Some(e))
    decreases n
  {
    var fault := Some(Fault(ops[n].step, e));
    if n > 0 {
      var t1 := Attempt(t, ops[0].write, None).0;
      assert InjectedAt(fault, ops[0].step) == None;
      assert ops[..n][0] == ops[0] && ops[..n][1..] == ops[1..][..n - 1];
      RunFaultAt(t1, ops[1..], n - 1, e);
    }
  }

  /** A failure at a step the trace does not contain changes nothing. */
  lemma {:induction false} RunFaultAbsent(t: Tables, ops: seq<Op>, f: Fault)
    requires forall m :: 0 <= m < |ops| ==> ops[m].step != f.step
    ensures Run(t, ops, Some(f)) == Run(t, ops, None)
    decreases |ops|
  {
    if ops != [] {
      RunFaultAbsent(Attempt(t, ops[0].write, None).0, ops[1..], f);
    }
  }

  /**
   * When ensureHits skips (the job has a hit, or fewer than two documents
   * exist), a store failure at the hit or anchor insert is never reached:
   * the pipeline issues only the head and tail writes, as with no failure.
   */
  lemma SkippedInsertsCannotFail(t: Tables, jobId: string, hitId: string, now: int, f: Fault)
    requires HitCount(t.hits, jobId) > 0 || |t.docs| < 2
    requires f.step == PipelineStep.CreateHit || f.step == PipelineStep.CreateAnchor
    ensures Run(t, PipelineOps(t, jobId, hitId, now), Some(f)) == Run(t, HeadOps(jobId, now) + TailOps(jobId, now), None)
  {
    var ops := HeadOps(jobId, now) + TailOps(jobId, now);
    if HitCount(t.hits, jobId) == 0 {
      assert |Take(t.docs, 3)| < 2;
    }
    assert PipelineOps(t, jobId, hitId, now) == ops;
    RunFaultAbsent(t, ops, f);
  }

  /** What a run for one job may change: that job's rows and pairs; hits, anchors and logs only grow. */
  predicate Confined(t: Tables, t': Tables, jobId: string) {
    && |t'.jobs| == |t.jobs|
    && (forall k :: 0 <= k < |t.jobs| ==>
          t'.jobs[k].id == t.jobs[k].id && (t.jobs[k].id != jobId ==> t'.jobs[k] == t.jobs[k]))
    && |t'.pairs| == |t.pairs|
    && (forall k :: 0 <= k < |t.pairs| ==>
          t'.pairs[k].jobId == t.pairs[k].jobId && (t.pairs[k].jobId != jobId ==> t'.pairs[k] == t.pairs[k]))
    && t.hits <= t'.hits && t.anchors <= t'.anchors && t.invokeLogs <= t'.invokeLogs
    && t'.docs == t.docs && t'.reviews == t.reviews && t'.auditLogs == t.auditLogs
  }

  /** The only row and pair updates in the trace are by this job's id. */
  predicate OpsFor(ops: seq<Op>, jobId: string) {
    forall m :: 0 <= m < |ops| ==>
      (ops[m].write.UpdateJob? ==> ops[m].write.id == jobId)
      && (ops[m].write.UpdatePairsOfJob? ==> ops[m].write.jobId == jobId)
  }

  lemma {:induction false} RunConfined(t: Tables, ops: seq<Op>, fault: Option<Fault>, jobId: string)
    requires OpsFor(ops, jobId)
    ensures Confined(t, Run(t, ops, fault).0, jobId)
    decreases |ops|
  {
    if ops == [] {
      ConfinedRefl(t, jobId);
    } else {
      var (t1, thrown) := Attempt(t, ops[0].write, InjectedAt(fault, ops[0].step));
      AttemptConfined(t, ops[0].write, InjectedAt(fault, ops[0].step), jobId);
      if thrown.None? {
        OpsForTail(ops, jobId);
        RunConfined(t1, ops[1..], fault, jobId);
        ConfinedTrans(t, t1, Run(t1, ops[1..], fault).0, jobId);
      }
    }
  }

  lemma ConfinedRefl(t: Tables, jobId: string)
    ensures Confined(t, t, jobId)
  {
  }

  lemma ConfinedTrans(t: Tables, t1: Tables, t2: Tables, jobId: string)
    requires Confined(t, t1, jobId) && Confined(t1, t2, jobId)
    ensures Confined(t, t2, jobId)
  {
    assert t.hits <= t1.hits <= t2.hits;
    assert t.anchors <= t1.anchors <= t2.anchors;
    assert t.invokeLogs <= t1.invokeLogs <= t2.invokeLogs;
  }

  /** One write that updates rows or pairs only of this job stays within it. */
  lemma AttemptConfined(t: Tables, w: Write, injected: Option<Thrown>, jobId: string)
    requires w.UpdateJob? ==> w.id == jobId
    requires w.UpdatePairsOfJob? ==> w.jobId == jobId
    ensures Confined(t, Attempt(t, w, injected).0, jobId)
  {
  }

  lemma OpsForTail(ops: seq<Op>, jobId: string)
    requires ops != [] && OpsFor(ops, jobId)
    ensures OpsFor(ops[1..], jobId)
  {
    forall m | 0 <= m < |ops[1..]|
      ensures (ops[1..][m].write.UpdateJob? ==> ops[1..][m].write.id == jobId)
              && (ops[1..][m].write.UpdatePairsOfJob? ==> ops[1..][m].write.jobId == jobId)
    {
      assert ops[1..][m] == ops[m + 1];
    }
  }

  // ------------------------------------------------- properties of the trace

  /** The counters of the job row that the pipeline writes. */
  datatype Counter = Progress | ParseProgress | LlmProgress | ReportProgress

  function PatchValue(p: JobPatch, c: Counter): Option<int> {
    match c
    case Progress => p.progress
    case ParseProgress => p.parseProgress
    case LlmProgress => p.llmProgress
    case ReportProgress => p.reportProgress
  }

  /** What one patch writes to a counter: its value, when it sets one. */
  function PatchWrites(p: JobPatch, c: Counter): seq<int> {
    if PatchValue(p, c).Some? then [PatchValue(p, c).value] else []
  }

  /** What one write of a trace writes to a counter of the job's row. */
  function WrittenBy(op: Op, jobId: string, c: Counter): seq<int> {
    if op.write.UpdateJob? && op.write.id == jobId then PatchWrites(op.write.patch, c) else []
  }

  /** The values a trace writes to one counter of the job's row, in the order written. */
  function Written(ops: seq<Op>, jobId: string, c: Counter): seq<int>
    decreases |ops|
  {
    if ops == [] then [] else WrittenBy(ops[0], jobId, c) + Written(ops[1..], jobId, c)
  }

  lemma WrittenCons(op: Op, rest: seq<Op>, jobId: string, c: Counter)
    ensures Written([op] + rest, jobId, c) == WrittenBy(op, jobId, c) + Written(rest, jobId, c)
  {
    assert ([op] + rest)[0] == op && ([op] + rest)[1..] == rest;
  }

  lemma {:induction false} WrittenAppend(a: seq<Op>, b: seq<Op>, jobId: string, c: Counter)
    ensures Written(a + b, jobId, c) == Written(a, jobId, c) + Written(b, jobId, c)
    decreases |a|
  {
    if a == [] {
      assert a + b == b;
    } else {
      var op, rest := a[0], a[1..];
      assert a == [op] + rest;
      AppendAssoc([op], rest, b);
      WrittenCons(op, rest + b, jobId, c);
      WrittenCons(op, rest, jobId, c);
      WrittenAppend(rest, b, jobId, c);
      AppendAssoc(WrittenBy(op, jobId, c), Written(rest, jobId, c), Written(b, jobId, c));
    }
  }

  lemma WrittenPair(a: Op, b: Op, jobId: string, c: Counter)
    ensures Written([a, b], jobId, c) == WrittenBy(a, jobId, c) + WrittenBy(b, jobId, c)
  {
    assert [a, b] == [a] + [b];
    WrittenCons(a, [b], jobId, c);
    WrittenCons(b, [], jobId, c);
  }

  lemma WrittenEnsureHits(hits: seq<Hit>, docs: seq<Doc>, jobId: string, hitId: string, now: int, c: Counter)
    ensures Written(EnsureHitsOps(hits, docs, jobId, hitId, now), jobId, c) == []
  {
    var eh := EnsureHitsOps(hits, docs, jobId, hitId, now);
    if eh != [] {
      assert eh == [eh[0], eh[1]];
      WrittenPair(eh[0], eh[1], jobId, c);
    }
  }

  lemma WrittenHead(jobId: string, now: int, c: Counter)
    ensures Written(HeadOps(jobId, now), jobId, c) == PatchWrites(ParsingPatch(now), c) + PatchWrites(MatchingPatch(), c)
  {
    var head := HeadOps(jobId, now);
    assert head == [head[0], head[1]] + [head[2], head[3]];
    WrittenAppend([head[0], head[1]], [head[2], head[3]], jobId, c);
    WrittenPair(head[0], head[1], jobId, c);
    WrittenPair(head[2], head[3], jobId, c);
  }

  lemma WrittenTail(jobId: string, now: int, c: Counter)
    ensures Written(TailOps(jobId, now), jobId, c) == PatchWrites(DonePatch(now), c)
  {
    var tail := TailOps(jobId, now);
    assert tail == [tail[0], tail[1]];
    WrittenPair(tail[0], tail[1], jobId, c);
  }

  /** Only the PARSING, LLM_MATCHING and DONE updates write counters. */
  lemma WrittenPipeline(t: Tables, jobId: string, hitId: string, now: int, c: Counter)
    ensures Written(PipelineOps(t, jobId, hitId, now), jobId, c)
         == PatchWrites(ParsingPatch(now), c) + PatchWrites(MatchingPatch(), c) + PatchWrites(DonePatch(now), c)
  {
    var head, eh, tail := HeadOps(jobId, now), EnsureHitsOps(t.hits, t.docs, jobId, hitId, now), TailOps(jobId, now);
    WrittenAppend(head, eh + tail, jobId, c);
    WrittenAppend(eh, tail, jobId, c);
    WrittenEnsureHits(t.hits, t.docs, jobId, hitId, now, c);
    WrittenHead(jobId, now, c);
    WrittenTail(jobId, now, c);
  }

  /**
   * The pipeline writes progress 20, 60, 100, parseProgress 30, 100,
   * llmProgress 60, 100 and reportProgress 100, in that order: after the
   * claim's progress 1, every counter only ever grows.
   */
  lemma PipelineCounterWrites(t: Tables, jobId: string, hitId: string, now: int)
    ensures var ops := PipelineOps(t, jobId, hitId, now);
      && Written(ops, jobId, Progress) == [20, 60, 100]
      && Written(ops, jobId, ParseProgress) == [30, 100]
      && Written(ops, jobId, LlmProgress) == [60, 100]
      && Written(ops, jobId, ReportProgress) == [100]
  {
    WrittenPipeline(t, jobId, hitId, now, Progress);
    WrittenPipeline(t, jobId, hitId, now, ParseProgress);
    WrittenPipeline(t, jobId, hitId, now, LlmProgress);
    WrittenPipeline(t, jobId, hitId, now, ReportProgress);
  }

  /** The job row once the pipeline has run to the end. */
  function Completed(j: Job, now: int): Job {
    j.(status := JobStatus.Success, stage := Stage.Done, progress := 100, parseProgress := 100,
       llmProgress := 100, reportProgress := 100, startedAt := At(now), finishedAt := At(now))
  }

  /** The hit and anchor ids ensureHits would insert are still free. */
  predicate FreshHitIds(t: Tables, hitId: string) {
    !HasHit(t.hits, hitId) && !HasAnchor(t.anchors, AnchorId(hitId))
  }

  lemma HasJobAfterPatch(jobs: seq<Job>, id: string, p: JobPatch)
    requires HasJob(jobs, id)
    ensures HasJob(PatchJobs(jobs, id, p), id)
  {
    var k :| 0 <= k < |jobs| && jobs[k].id == id;
    assert PatchJobs(jobs, id, p)[k].id == id;
  }

  /** Without a hit for the job and with two documents, ensureHits adds the sample hit on docs[0], docs[1] and its anchor. */
  lemma EnsureHitsCreates(t: Tables, jobId: string, hitId: string, now: int)
    requires HitCount(t.hits, jobId) == 0 && |t.docs| >= 2 && FreshHitIds(t, hitId)
    ensures var h, an := SampleHit(jobId, hitId, t.docs[0], t.docs[1], now), SampleAnchor(hitId);
      && Run(t, EnsureHitsOps(t.hits, t.docs, jobId, hitId, now), None)
         == (t.(hits := t.hits + [h], anchors := t.anchors + [an]), None)
      && h.jobId == jobId && h.aDocId == t.docs[0].id && h.bDocId == t.docs[1].id
      && h.score == 82 && h.rewriteRisk == "HIGH" && an.hitId == h.id
  {
    var h, an := SampleHit(jobId, hitId, t.docs[0], t.docs[1], now), SampleAnchor(hitId);
    EnsureHitsShape(t.hits, t.docs, jobId, hitId, now);
    CreatesRun(t, h, an);
  }

  /** A hit and then an anchor with free ids, with no store failure, are both appended. */
  lemma CreatesRun(t: Tables, h: Hit, an: Anchor)
    requires !HasHit(t.hits, h.id) && !HasAnchor(t.anchors, an.id)
    ensures Run(t, [Op(PipelineStep.CreateHit, Write.CreateHit(h))] + [Op(PipelineStep.CreateAnchor, Write.CreateAnchor(an))], None)
         == (t.(hits := t.hits + [h], anchors := t.anchors + [an]), None)
  {
    var op0, op1 := Op(PipelineStep.CreateHit, Write.CreateHit(h)), Op(PipelineStep.CreateAnchor, Write.CreateAnchor(an));
    RunStep(t, op0, [op1], None);
    var t1 := t.(hits := t.hits + [h]);
    RunStep(t1, op1, [], None);
  }

  /** The two writes ensureHits issues when it creates the sample hit. */
  lemma EnsureHitsShape(hits: seq<Hit>, docs: seq<Doc>, jobId: string, hitId: string, now: int)
    requires HitCount(hits, jobId) == 0 && |docs| >= 2
    ensures var ops := EnsureHitsOps(hits, docs, jobId, hitId, now);
      && ops == [ops[0]] + [ops[1]]
      && ops[0] == Op(PipelineStep.CreateHit, Write.CreateHit(SampleHit(jobId, hitId, docs[0], docs[1], now)))
      && ops[1] == Op(PipelineStep.CreateAnchor, Write.CreateAnchor(SampleAnchor(hitId)))
  {
    var taken := Take(docs, 3);
    assert taken[0] == docs[0] && taken[1] == docs[1];
  }

  /** With a hit for the job already, or fewer than two documents, ensureHits writes nothing. */
  lemma EnsureHitsSkips(t: Tables, jobId: string, hitId: string, now: int, fault: Option<Fault>)
    requires HitCount(t.hits, jobId) > 0 || |t.docs| < 2
    ensures Run(t, EnsureHitsOps(t.hits, t.docs, jobId, hitId, now), fault) == (t, None)
  {
  }

  /** ensureHits is idempotent: once it has returned normally, a second call changes nothing. */
  lemma EnsureHitsIdempotent(t: Tables, jobId: string, hitId: string, now: int, fault: Option<Fault>,
                             hitId': string, now': int, fault': Option<Fault>)
    requires Run(t, EnsureHitsOps(t.hits, t.docs, jobId, hitId, now), fault).1.None?
    ensures var t1 := Run(t, EnsureHitsOps(t.hits, t.docs, jobId, hitId, now), fault).0;
      Run(t1, EnsureHitsOps(t1.hits, t1.docs, jobId, hitId', now'), fault') == (t1, None)
  {
    var ops := EnsureHitsOps(t.hits, t.docs, jobId, hitId, now);
    var t1 := Run(t, ops, fault).0;
    if ops != [] {
      var h := SampleHit(jobId, hitId, Take(t.docs, 3)[0], Take(t.docs, 3)[1], now);
      assert ops == [ops[0]] + [ops[1]];
      RunStep(t, ops[0], [ops[1]], fault);
      var ta := Attempt(t, ops[0].write, InjectedAt(fault, ops[0].step)).0;
      assert ta.hits == t.hits + [h];
      RunStep(ta, ops[1], [], fault);
      assert t1.hits == t.hits + [h];
      assert h in Filter(t1.hits, (x: Hit) => x.jobId == jobId);
      EnsureHitsSkips(t1, jobId, hitId', now', fault');
    } else {
      assert t1 == t;
    }
  }

  /** The four writes before ensureHits, on an existing job with no store failure. */
  lemma HeadRuns(t: Tables, jobId: string, now: int)
    requires HasJob(t.jobs, jobId)
    ensures Run(t, HeadOps(jobId, now), None)
         == (t.(jobs := PatchJobs(PatchJobs(t.jobs, jobId, ParsingPatch(now)), jobId, MatchingPatch()),
                invokeLogs := t.invokeLogs + [InvokeRow(StagePayload(jobId, "PARSE", 800), now),
                                              InvokeRow(StagePayload(jobId, "MATCH", 1200), now)]),
             None)
  {
    var ops := HeadOps(jobId, now);
    var j1 := PatchJobs(t.jobs, jobId, ParsingPatch(now));
    HasJobAfterPatch(t.jobs, jobId, ParsingPatch(now));
    var l1, l2 := InvokeRow(StagePayload(jobId, "PARSE", 800), now), InvokeRow(StagePayload(jobId, "MATCH", 1200), now);
    assert ops == [ops[0]] + ([ops[1]] + ([ops[2]] + [ops[3]]));
    RunStep(t, ops[0], [ops[1]] + ([ops[2]] + [ops[3]]), None);
    RunStep(t.(jobs := j1), ops[1], [ops[2]] + [ops[3]], None);
    RunStep(t.(jobs := j1, invokeLogs := t.invokeLogs + [l1]), ops[2], [ops[3]], None);
    var j2 := PatchJobs(j1, jobId, MatchingPatch());
    RunStep(t.(jobs := j2, invokeLogs := t.invokeLogs + [l1]), ops[3], [], None);
    assert t.invokeLogs + [l1] + [l2] == t.invokeLogs + [l1, l2];
  }

  /** The two writes after ensureHits, on an existing job with no store failure. */
  lemma TailRuns(t: Tables, jobId: string, now: int)
    requires HasJob(t.jobs, jobId)
    ensures Run(t, TailOps(jobId, now), None)
         == (t.(pairs := UpdatePairs(t.pairs, jobId, PairStatus.Success, 82, 3),
                jobs := PatchJobs(t.jobs, jobId, DonePatch(now))),
             None)
  {
    var ops := TailOps(jobId, now);
    assert ops == [ops[0]] + [ops[1]];
    RunStep(t, ops[0], [ops[1]], None);
    RunStep(t.(pairs := UpdatePairs(t.pairs, jobId, PairStatus.Success, 82, 3)), ops[1], [], None);
  }

  /** The three updates of the job row compose to Completed. */
  lemma RowsCompleted(jobs: seq<Job>, jobId: string, now: int)
    ensures var js := PatchJobs(PatchJobs(PatchJobs(jobs, jobId, ParsingPatch(now)), jobId, MatchingPatch()), jobId, DonePatch(now));
      && |js| == |jobs|
      && forall k :: 0 <= k < |jobs| ==> js[k] == if jobs[k].id == jobId then Completed(jobs[k], now) else jobs[k]
  {
  }

  /**
   * A run with no store failure, on a job that exists and with free hit
   * ids, returns normally and leaves: every row of the job SUCCESS, DONE,
   * all four counters at 100, started and finished at now; every other row
   * as it was; exactly two new logs, PARSE/OK/800 then MATCH/OK/1200; every
   * pair of the job SUCCESS with score 82 and hits 3, other pairs as they
   * were; hits and anchors as ensureHits alone would leave them.
   */
  lemma PipelineCompletes(t: Tables, jobId: string, hitId: string, now: int)
    requires HasJob(t.jobs, jobId) && FreshHitIds(t, hitId)
    ensures var (t', thrown) := Run(t, PipelineOps(t, jobId, hitId, now), None);
      var e := Run(t, EnsureHitsOps(t.hits, t.docs, jobId, hitId, now), None).0;
      && thrown.None?
      && |t'.jobs| == |t.jobs|
      && (forall k :: 0 <= k < |t.jobs| ==>
            t'.jobs[k] == if t.jobs[k].id == jobId then Completed(t.jobs[k], now) else t.jobs[k])
      && t'.invokeLogs == t.invokeLogs + [InvokeRow(StagePayload(jobId, "PARSE", 800), now),
                                          InvokeRow(StagePayload(jobId, "MATCH", 1200), now)]
      && |t'.pairs| == |t.pairs|
      && (forall k :: 0 <= k < |t.pairs| ==>
            t'.pairs[k] == if t.pairs[k].jobId == jobId
                           then t.pairs[k].(status := PairStatus.Success, score := 82, hits := 3)
                           else t.pairs[k])
      && t'.hits == e.hits && t'.anchors == e.anchors
      && t'.docs == t.docs && t'.reviews == t.reviews && t'.auditLogs == t.auditLogs
  {
    PipelineRuns(t, jobId, hitId, now);
    RowsCompleted(t.jobs, jobId, now);
  }

  /** ensureHits run after the head writes does to hits and anchors what it does on the table it read. */
  lemma EnsureHitsAfterHead(t: Tables, jobId: string, hitId: string, now: int, jobs: seq<Job>, logs: seq<InvokeLog>)
    requires FreshHitIds(t, hitId)
    ensures var eh := EnsureHitsOps(t.hits, t.docs, jobId, hitId, now);
      var e := Run(t, eh, None).0;
      Run(t.(jobs := jobs, invokeLogs := logs), eh, None)
        == (t.(jobs := jobs, invokeLogs := logs, hits := e.hits, anchors := e.anchors), None)
  {
    var t4 := t.(jobs := jobs, invokeLogs := logs);
    if HitCount(t.hits, jobId) == 0 && |t.docs| >= 2 {
      EnsureHitsCreates(t, jobId, hitId, now);
      EnsureHitsCreates(t4, jobId, hitId, now);
    } else {
      EnsureHitsSkips(t, jobId, hitId, now, None);
      EnsureHitsSkips(t4, jobId, hitId, now, None);
    }
  }

  /** The whole trace with no store failure, as one final state. */
  lemma PipelineRuns(t: Tables, jobId: string, hitId: string, now: int)
    requires HasJob(t.jobs, jobId) && FreshHitIds(t, hitId)
    ensures var e := Run(t, EnsureHitsOps(t.hits, t.docs, jobId, hitId, now), None).0;
      Run(t, PipelineOps(t, jobId, hitId, now), None)
        == (t.(jobs := PatchJobs(PatchJobs(PatchJobs(t.jobs, jobId, ParsingPatch(now)), jobId, MatchingPatch()), jobId, DonePatch(now)),
               invokeLogs := t.invokeLogs + [InvokeRow(StagePayload(jobId, "PARSE", 800), now),
                                             InvokeRow(StagePayload(jobId, "MATCH", 1200), now)],
               pairs := UpdatePairs(t.pairs, jobId, PairStatus.Success, 82, 3),
               hits := e.hits, anchors := e.anchors),
            None)
  {
    var head, eh, tail := HeadOps(jobId, now), EnsureHitsOps(t.hits, t.docs, jobId, hitId, now), TailOps(jobId, now);
    RunAppend(t, head, eh + tail, None);
    HeadRuns(t, jobId, now);
    var t4 := Run(t, head, None).0;
    RunAppend(t4, eh, tail, None);
    EnsureHitsAfterHead(t, jobId, hitId, now, t4.jobs, t4.invokeLogs);
    var t5 := Run(t4, eh, None).0;
    HasJobAfterPatch(t.jobs, jobId, ParsingPatch(now));
    HasJobAfterPatch(PatchJobs(t.jobs, jobId, ParsingPatch(now)), jobId, MatchingPatch());
    TailRuns(t5, jobId, now);
  }

  /**
   * Whatever store failure interrupts it, the pipeline changes only the rows
   * and pairs of its own job and only appends to hits, anchors and logs.
   */
  lemma PipelineFrame(t: Tables, jobId: string, hitId: string, now: int, fault: Option<Fault>)
    ensures Confined(t, Run(t, PipelineOps(t, jobId, hitId, now), fault).0, jobId)
  {
    var ops := PipelineOps(t, jobId, hitId, now);
    var head, eh, tail := HeadOps(jobId, now), EnsureHitsOps(t.hits, t.docs, jobId, hitId, now), TailOps(jobId, now);
    forall m | 0 <= m < |ops|
      ensures (ops[m].write.UpdateJob? ==> ops[m].write.id == jobId)
              && (ops[m].write.UpdatePairsOfJob? ==> ops[m].write.jobId == jobId)
    {
      if m < |head| {
        assert ops[m] == head[m];
      } else if m < |head| + |eh| {
        assert ops[m] == eh[m - |head|];
      } else {
        assert ops[m] == tail[m - |head| - |eh|];
      }
    }
    RunConfined(t, ops, fault, jobId);
  }

  /** The stored sample boxes read back through listAnchors as corner boxes. */
  lemma SampleAnchorReadsBack()
    ensures JobsRepo.Normalize(BuildAnchors())
         == [[JsNum(0.1), JsNum(0.2), JsNum(0.9), JsNum(0.25)],
             [JsNum(0.12), JsNum(0.28), JsNum(0.88), JsNum(0.33)]]
  {
    var b1, b2 := Box(0.1, 0.2, 0.8, 0.05), Box(0.12, 0.28, 0.76, 0.05);
    JobsRepo.NormalizeAppend([b1], [b2]);
    JobsRepo.NormalizeObjectBox(0.1, 0.2, 0.8, 0.05);
    JobsRepo.NormalizeObjectBox(0.12, 0.28, 0.76, 0.05);
    assert [b1] + [b2] == [b1, b2];
  }
}
