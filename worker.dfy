/**
 * The worker's scheduler step: a timeout sweep over RUNNING jobs, then a
 * conditional claim of the first QUEUED job, then the pipeline for that job
 * with any failure caught into a FAILED job and a PIPELINE/ERROR log.
 */
module Worker {
  import opened Common
  import opened Seqs
  import opened Store
  import opened AuditRepo
  import opened JobsRepo
  import opened Pipeline

  // ------------------------------------------------------ recoverStuckJobs

  /** A job is given 30 minutes. */
  const JobTimeoutMs := 30 * 60 * 1000

  /** A RUNNING job whose startedAt parses to a time strictly before the cutoff. */
  predicate Stale(j: Job, now: int) {
    j.status == JobStatus.Running && j.startedAt.At? && j.startedAt.ms < now - JobTimeoutMs
  }

  /** `findMany({ where: { status: 'RUNNING' } })`. */
  function RunningJobs(jobs: seq<Job>): seq<Job> {
    Filter(jobs, (j: Job) => j.status == JobStatus.Running)
  }

  /** The ids the sweep fails, visiting `running` in order. */
  function StaleIds(running: seq<Job>, now: int): set<string> {
    if running == [] then {}
    else
      var last := running[|running| - 1];
      StaleIds(running[..|running| - 1], now) + (if Stale(last, now) then {last.id} else {})
  }

  function RecoveryPayload(jobId: string): InvokePayload {
    InvokePayload(Some(jobId), None, "RECOVERY", "ERROR", None, Some("JOB_TIMEOUT"))
  }

  /** The logs the sweep appends, one per stale job, in visiting order. */
  function RecoveryLogs(running: seq<Job>, now: int): seq<InvokeLog> {
    if running == [] then []
    else
      var last := running[|running| - 1];
      RecoveryLogs(running[..|running| - 1], now)
      + (if Stale(last, now) then [InvokeRow(RecoveryPayload(last.id), now)] else [])
  }

  /** The tables after the sweep: the specification of RecoverStuckJobs. */
  function Swept(t: Tables, now: int): Tables {
    var running := RunningJobs(t.jobs);
    t.(jobs := FailJobs(t.jobs, StaleIds(running, now), "JOB_TIMEOUT"),
       invokeLogs := t.invokeLogs + RecoveryLogs(running, now))
  }

  /** The tables once the sweep has visited the first k jobs of the snapshot: RecoverStuckJobs' loop invariant. */
  function SweptUpTo(t: Tables, running: seq<Job>, k: nat, now: int): Tables
    requires k <= |running|
  {
    t.(jobs := FailJobs(t.jobs, StaleIds(running[..k], now), "JOB_TIMEOUT"),
       invokeLogs := t.invokeLogs + RecoveryLogs(running[..k], now))
  }

  /** Visiting one more job of the snapshot fails and logs it when it is stale and changes nothing otherwise. */
  lemma SweepStep(t: Tables, running: seq<Job>, k: nat, now: int)
    requires k < |running|
    ensures var s, j := SweptUpTo(t, running, k, now), running[k];
      SweptUpTo(t, running, k + 1, now)
        == if Stale(j, now)
           then s.(jobs := FailJobs(s.jobs, {j.id}, "JOB_TIMEOUT"), invokeLogs := s.invokeLogs + [InvokeRow(RecoveryPayload(j.id), now)])
           else s
  {
    assert running[..k + 1][..k] == running[..k];
    var ids, logs := StaleIds(running[..k], now), RecoveryLogs(running[..k], now);
    FailJobsMerge(t.jobs, ids, {running[k].id}, "JOB_TIMEOUT");
    AppendAssoc(t.invokeLogs, logs, [InvokeRow(RecoveryPayload(running[k].id), now)]);
  }

  /** recoverStuckJobs: fails every stale job of the RUNNING snapshot and logs RECOVERY/ERROR/JOB_TIMEOUT for it. Specified by Swept. */
  method RecoverStuckJobs(db: Db, now: int)
    modifies db
    ensures db.State() == Swept(old(db.State()), now)
  {
    var running := RunningJobs(db.jobs);
    var cutoff := now - JobTimeoutMs;
    for k := 0 to |running|
      invariant db.State() == SweptUpTo(old(db.State()), running, k, now)
    {
      var job := running[k];
      SweepStep(old(db.State()), running, k, now);
      assert job.status == JobStatus.Running by {
        assert job in running;
      }
      if job.startedAt.NoTime? {
        continue;
      }
      var startedAt: Option<int> := if job.startedAt.At? then Some(job.startedAt.ms) else None;
      if startedAt.Some? && startedAt.value < cutoff {
        FailJob(db, job.id, "JOB_TIMEOUT");
        var logged := AuditRepo.CreateInvokeLog(db, RecoveryPayload(job.id), now, None);
      }
    }
    assert running[..|running|] == running;
  }

  lemma {:induction false} StaleIdsIff(running: seq<Job>, now: int, id: string)
    ensures id in StaleIds(running, now) <==> exists j :: j in running && Stale(j, now) && j.id == id
    decreases |running|
  {
    if running != [] {
      var init, last := running[..|running| - 1], running[|running| - 1];
      StaleIdsIff(init, now, id);
      assert running == init + [last];
      if id in StaleIds(running, now) {
        if id !in StaleIds(init, now) {
          assert Stale(last, now) && last.id == id;
        }
      }
    }
  }

  /**
   * With unique job ids the sweep fails, with 'JOB_TIMEOUT', exactly the stale
   * rows; RUNNING rows with a missing or unparseable startedAt, recent ones
   * and all rows in another status stay as they were.
   */
  lemma SweepFailsExactlyStale(t: Tables, now: int)
    requires JobIdsUnique(t.jobs)
    ensures var s := Swept(t, now);
      && |s.jobs| == |t.jobs|
      && forall k :: 0 <= k < |t.jobs| ==>
           s.jobs[k] == if Stale(t.jobs[k], now)
                        then t.jobs[k].(status := JobStatus.Failed, error := NonNull("JOB_TIMEOUT"))
                        else t.jobs[k]
  {
    var running := RunningJobs(t.jobs);
    forall k | 0 <= k < |t.jobs|
      ensures t.jobs[k].id in StaleIds(running, now) <==> Stale(t.jobs[k], now)
    {
      StaleIdsIff(running, now, t.jobs[k].id);
      if t.jobs[k].id in StaleIds(running, now) {
        var j :| j in running && Stale(j, now) && j.id == t.jobs[k].id;
        var m :| 0 <= m < |t.jobs| && t.jobs[m] == j;
        assert m == k;
      }
    }
  }

  /** Filtering by a condition that implies the first filter's is the same as filtering once. */
  lemma {:induction false} FilterOfRunning(jobs: seq<Job>, now: int)
    ensures Filter(RunningJobs(jobs), (j: Job) => Stale(j, now)) == Filter(jobs, (j: Job) => Stale(j, now))
    decreases |jobs|
  {
    if jobs != [] {
      var init, last := jobs[..|jobs| - 1], jobs[|jobs| - 1];
      FilterOfRunning(init, now);
      FilterAppend(RunningJobs(init), if last.status == JobStatus.Running then [last] else [], (j: Job) => Stale(j, now));
    }
  }

  lemma {:induction false} RecoveryLogsAsMap(running: seq<Job>, now: int)
    ensures RecoveryLogs(running, now)
         == Map(Filter(running, (j: Job) => Stale(j, now)), (j: Job) => InvokeRow(RecoveryPayload(j.id), now))
    decreases |running|
  {
    if running != [] {
      var init, last := running[..|running| - 1], running[|running| - 1];
      RecoveryLogsAsMap(init, now);
      MapAppend(Filter(init, (j: Job) => Stale(j, now)), if Stale(last, now) then [last] else [],
                (j: Job) => InvokeRow(RecoveryPayload(j.id), now));
    }
  }

  /** The sweep appends one RECOVERY/ERROR/JOB_TIMEOUT log per stale job, in table order, and nothing else. */
  lemma SweepLogsOnePerStale(t: Tables, now: int)
    ensures Swept(t, now).invokeLogs
         == t.invokeLogs + Map(Filter(t.jobs, (j: Job) => Stale(j, now)), (j: Job) => InvokeRow(RecoveryPayload(j.id), now))
  {
    RecoveryLogsAsMap(RunningJobs(t.jobs), now);
    FilterOfRunning(t.jobs, now);
  }

  // ----------------------------------------------------------------- claim

  predicate Claimable(j: Job, id: string) {
    j.id == id && j.status == JobStatus.Queued
  }

  /** The claimed row: RUNNING, LOCKED, progress 1, started now. */
  function ClaimedRow(j: Job, now: int): Job {
    j.(status := JobStatus.Running, stage := Stage.Locked, progress := 1, startedAt := At(now))
  }

  /** `updateMany({ where: { id, status: 'QUEUED' }, data })`: the rows it matches, claimed. */
  function Claimed(jobs: seq<Job>, id: string, now: int): (r: seq<Job>)
    ensures |r| == |jobs|
    ensures forall k :: 0 <= k < |r| ==> r[k] == if Claimable(jobs[k], id) then ClaimedRow(jobs[k], now) else jobs[k]
  {
    seq(|jobs|, k requires 0 <= k < |jobs| => if Claimable(jobs[k], id) then ClaimedRow(jobs[k], now) else jobs[k])
  }

  /** The count updateMany reports. */
  function ClaimCount(jobs: seq<Job>, id: string): nat {
    |Filter(jobs, (j: Job) => Claimable(j, id))|
  }

  /** The conditional claim, a compare-and-swap on the job's status. */
  method Claim(db: Db, id: string, now: int) returns (count: nat)
    modifies db
    ensures count == ClaimCount(old(db.jobs), id)
    ensures db.State() == old(db.State()).(jobs := Claimed(old(db.jobs), id, now))
  {
    count := ClaimCount(db.jobs, id);
    db.jobs := Claimed(db.jobs, id, now);
  }

  lemma {:induction false} AtMostOneClaimable(jobs: seq<Job>, id: string)
    requires JobIdsUnique(jobs)
    ensures ClaimCount(jobs, id) <= 1
    decreases |jobs|
  {
    if jobs != [] {
      var init, last := jobs[..|jobs| - 1], jobs[|jobs| - 1];
      AtMostOneClaimable(init, id);
      if Claimable(last, id) {
        forall j | j in init
          ensures !Claimable(j, id)
        {
          var m :| 0 <= m < |init| && init[m] == j;
          assert jobs[m] == j;
        }
        FilterKeepsNone(init, (j: Job) => Claimable(j, id));
      }
    }
  }

  /** With unique ids the claim reports 1 exactly when the job is still QUEUED, and 0 otherwise. */
  lemma ClaimCountIff(jobs: seq<Job>, id: string)
    requires JobIdsUnique(jobs)
    ensures ClaimCount(jobs, id) <= 1
    ensures ClaimCount(jobs, id) == 1 <==> exists k :: 0 <= k < |jobs| && Claimable(jobs[k], id)
  {
    AtMostOneClaimable(jobs, id);
    var kept := Filter(jobs, (j: Job) => Claimable(j, id));
    forall k | 0 <= k < |jobs| && Claimable(jobs[k], id)
      ensures kept != []
    {
      assert jobs[k] in kept;
    }
    if |kept| == 1 {
      assert kept[0] in kept;
    }
  }

  /** A claim that reports 0 changes nothing. */
  lemma ClaimNoop(jobs: seq<Job>, id: string, now: int)
    requires ClaimCount(jobs, id) == 0
    ensures Claimed(jobs, id, now) == jobs
  {
    var kept := Filter(jobs, (j: Job) => Claimable(j, id));
    var after := Claimed(jobs, id, now);
    assert kept == [];
    forall k | 0 <= k < |jobs|
      ensures after[k] == jobs[k]
    {
      assert jobs[k] in jobs && jobs[k] !in kept;
    }
  }

  /** Once a claim has run, no row of the job is QUEUED: a second claim reports 0. */
  lemma SecondClaimLoses(jobs: seq<Job>, id: string, now: int)
    ensures ClaimCount(Claimed(jobs, id, now), id) == 0
  {
    var after := Claimed(jobs, id, now);
    FilterKeepsNone(after, (j: Job) => Claimable(j, id));
  }

  /** Of two successive claims of a QUEUED job with unique ids, exactly the first reports 1. */
  lemma ExactlyOneClaimWins(jobs: seq<Job>, id: string, now: int)
    requires JobIdsUnique(jobs)
    requires exists k :: 0 <= k < |jobs| && Claimable(jobs[k], id)
    ensures ClaimCount(jobs, id) == 1 && ClaimCount(Claimed(jobs, id, now), id) == 0
  {
    ClaimCountIff(jobs, id);
    SecondClaimLoses(jobs, id, now);
  }

  // ------------------------------------------------------------------ tick

  /** The first QUEUED row at or after `from`: a search by status, where JobsRepo.FindJobFrom searches by id. */
  function FirstQueuedFrom(jobs: seq<Job>, from: nat): (r: Option<nat>)
    requires from <= |jobs|
    ensures r.Some? ==> from <= r.value < |jobs| && jobs[r.value].status == JobStatus.Queued
    ensures r.Some? ==> forall k :: from <= k < r.value ==> jobs[k].status != JobStatus.Queued
    ensures r.None? ==> forall k :: from <= k < |jobs| ==> jobs[k].status != JobStatus.Queued
    decreases |jobs| - from
  {
    if from == |jobs| then None
    else if jobs[from].status == JobStatus.Queued then Some(from)
    else FirstQueuedFrom(jobs, from + 1)
  }

  /** `findFirst({ where: { status: 'QUEUED' } })`: the index of the first QUEUED row, if any. */
  function FirstQueued(jobs: seq<Job>): (r: Option<nat>)
    ensures r.Some? ==> r.value < |jobs| && jobs[r.value].status == JobStatus.Queued
    ensures r.Some? ==> forall k :: 0 <= k < r.value ==> jobs[k].status != JobStatus.Queued
    ensures r.None? <==> forall k :: 0 <= k < |jobs| ==> jobs[k].status != JobStatus.Queued
  {
    FirstQueuedFrom(jobs, 0)
  }

  /** How one tick ends. */
  datatype TickOutcome =
    | Idle                                  // no QUEUED job after the sweep
    | LostRace(jobId: string)               // the claim reported 0
    | Processed(jobId: string)              // the pipeline returned normally
    | FailedJob(jobId: string, message: string)  // the pipeline threw and the catch block ran

  /** The message the catch block records: the Error's message, or UNKNOWN_ERROR for any other value. */
  function ErrorMessage(e: Thrown): string {
    match e
    case ErrorObject(message) => message
    case NonErrorValue => "UNKNOWN_ERROR"
  }

  function FailurePayload(jobId: string, message: string): InvokePayload {
    InvokePayload(Some(jobId), None, "PIPELINE", "ERROR", None, Some(message))
  }

  /** The catch block: the job failed with the message, and one PIPELINE/ERROR log. */
  function Caught(t: Tables, jobId: string, message: string, now: int): Tables {
    t.(jobs := FailJobs(t.jobs, {jobId}, message),
       invokeLogs := t.invokeLogs + [InvokeRow(FailurePayload(jobId, message), now)])
  }

  /**
   * One tick, the specification of Tick. `rival` is a claim of the same job by another worker, with its
   * clock, landing between this worker's findFirst and its own claim.
   */
  function TickSpec(t: Tables, now: int, hitId: string, rival: Option<int>, fault: Option<Fault>): (Tables, TickOutcome) {
    var s := Swept(t, now);
    match FirstQueued(s.jobs)
    case None => (s, Idle)
    case Some(k) => Handle(s, s.jobs[k].id, now, hitId, rival, fault)
  }

  /** What a tick does with the job it found after the sweep: claim, run, and catch (the second half of TickSpec). */
  function Handle(s: Tables, id: string, now: int, hitId: string, rival: Option<int>, fault: Option<Fault>): (Tables, TickOutcome) {
    var s1 := if rival.Some? then s.(jobs := Claimed(s.jobs, id, rival.value)) else s;
    if ClaimCount(s1.jobs, id) == 0 then (s1, LostRace(id))
    else
      var s2 := s1.(jobs := Claimed(s1.jobs, id, now));
      var (s3, thrown) := Run(s2, PipelineOps(s2, id, hitId, now), fault);
      if thrown.None? then (s3, Processed(id))
      else (Caught(s3, id, ErrorMessage(thrown.value), now), FailedJob(id, ErrorMessage(thrown.value)))
  }

  /** tick: sweep, find, claim, run, and catch. Specified by TickSpec. */
  method Tick(db: Db, now: int, hitId: string, rival: Option<int>, fault: Option<Fault>) returns (outcome: TickOutcome)
    modifies db
    ensures (db.State(), outcome) == TickSpec(old(db.State()), now, hitId, rival, fault)
  {
    RecoverStuckJobs(db, now);
    var found := FirstQueued(db.jobs);
    if found.None? {
      return Idle;
    }
    var job := db.jobs[found.value];
    if rival.Some? {
      var rivalCount := Claim(db, job.id, rival.value);
    }
    ghost var unclaimed := db.jobs;
    var locked := Claim(db, job.id, now);
    if locked == 0 {
      ClaimNoop(unclaimed, job.id, now);
      return LostRace(job.id);
    }
    var thrown := RunJobPipeline(db, job.id, hitId, now, fault);
    if thrown.Some? {
      var message := ErrorMessage(thrown.value);
      FailJob(db, job.id, message);
      var logged := AuditRepo.CreateInvokeLog(db, FailurePayload(job.id, message), now, None);
      return FailedJob(job.id, message);
    }
    return Processed(job.id);
  }

  /** Row ids never change: every step keeps each row's id in place. */
  predicate SameIds(a: seq<Job>, b: seq<Job>) {
    |a| == |b| && forall k :: 0 <= k < |a| ==> a[k].id == b[k].id
  }

  lemma UniqueIdsKept(a: seq<Job>, b: seq<Job>)
    requires SameIds(a, b) && JobIdsUnique(a)
    ensures JobIdsUnique(b)
  {
  }

  /** Between two states: every row keeps its id, rows with another id are unchanged, logs only grow. */
  predicate KeptApart(a: Tables, b: Tables, id: string) {
    && SameIds(a.jobs, b.jobs)
    && (forall k :: 0 <= k < |a.jobs| && a.jobs[k].id != id ==> b.jobs[k] == a.jobs[k])
    && a.invokeLogs <= b.invokeLogs
  }

  lemma KeptApartRefl(s: Tables, id: string)
    ensures KeptApart(s, s, id)
  {
  }

  lemma KeptApartTrans(a: Tables, b: Tables, c: Tables, id: string)
    requires KeptApart(a, b, id) && KeptApart(b, c, id)
    ensures KeptApart(a, c, id)
  {
    assert a.invokeLogs <= b.invokeLogs <= c.invokeLogs;
  }

  lemma KeptApartByClaim(s: Tables, id: string, now: int)
    ensures KeptApart(s, s.(jobs := Claimed(s.jobs, id, now)), id)
  {
  }

  lemma KeptApartByPipeline(s: Tables, id: string, hitId: string, now: int, fault: Option<Fault>)
    ensures KeptApart(s, Run(s, PipelineOps(s, id, hitId, now), fault).0, id)
  {
    PipelineFrame(s, id, hitId, now, fault);
  }

  lemma KeptApartByCatch(s: Tables, id: string, message: string, now: int)
    ensures KeptApart(s, Caught(s, id, message, now), id)
  {
  }

  /**
   * Handling the found job touches only rows with its id, keeps every row's
   * id, only appends logs, and reports an outcome about that id.
   */
  lemma HandleFrame(s: Tables, id: string, now: int, hitId: string, rival: Option<int>, fault: Option<Fault>)
    ensures var (t', outcome) := Handle(s, id, now, hitId, rival, fault);
      && !outcome.Idle? && outcome.jobId == id
      && SameIds(s.jobs, t'.jobs)
      && (forall k :: 0 <= k < |s.jobs| && s.jobs[k].id != id ==> t'.jobs[k] == s.jobs[k])
      && s.invokeLogs <= t'.invokeLogs
  {
    var s1 := if rival.Some? then s.(jobs := Claimed(s.jobs, id, rival.value)) else s;
    if rival.Some? {
      KeptApartByClaim(s, id, rival.value);
    } else {
      KeptApartRefl(s, id);
    }
    if ClaimCount(s1.jobs, id) != 0 {
      var s2 := s1.(jobs := Claimed(s1.jobs, id, now));
      KeptApartByClaim(s1, id, now);
      KeptApartTrans(s, s1, s2, id);
      var (s3, thrown) := Run(s2, PipelineOps(s2, id, hitId, now), fault);
      KeptApartByPipeline(s2, id, hitId, now, fault);
      KeptApartTrans(s, s2, s3, id);
      if thrown.Some? {
        KeptApartByCatch(s3, id, ErrorMessage(thrown.value), now);
        KeptApartTrans(s, s3, Caught(s3, id, ErrorMessage(thrown.value), now), id);
      }
    }
  }

  /**
   * The sweep runs first on every tick: its logs are a prefix of the final
   * logs, and the tick stops right after it exactly when no job is QUEUED.
   */
  lemma TickSweepsFirst(t: Tables, now: int, hitId: string, rival: Option<int>, fault: Option<Fault>)
    ensures var s := Swept(t, now);
      var (t', outcome) := TickSpec(t, now, hitId, rival, fault);
      && s.invokeLogs <= t'.invokeLogs
      && (outcome.Idle? <==> FirstQueued(s.jobs).None?)
      && (outcome.Idle? ==> t' == s)
  {
    var s := Swept(t, now);
    if FirstQueued(s.jobs).Some? {
      HandleFrame(s, s.jobs[FirstQueued(s.jobs).value].id, now, hitId, rival, fault);
    }
  }

  /**
   * At most one job is touched after the sweep: the first QUEUED one. Every
   * row with another id is as the sweep left it, and no row changes its id.
   */
  lemma TickTouchesOneJob(t: Tables, now: int, hitId: string, rival: Option<int>, fault: Option<Fault>)
    ensures var s := Swept(t, now);
      var (t', outcome) := TickSpec(t, now, hitId, rival, fault);
      && SameIds(t.jobs, t'.jobs)
      && (!outcome.Idle? ==>
            && FirstQueued(s.jobs).Some?
            && outcome.jobId == s.jobs[FirstQueued(s.jobs).value].id
            && forall k :: 0 <= k < |t.jobs| && t.jobs[k].id != outcome.jobId ==> t'.jobs[k] == s.jobs[k])
  {
    var s := Swept(t, now);
    SweptFacts(t, now);
    if FirstQueued(s.jobs).Some? {
      HandleFrame(s, s.jobs[FirstQueued(s.jobs).value].id, now, hitId, rival, fault);
    }
  }

  lemma TerminalRowKept(t: Tables, now: int, hitId: string, rival: Option<int>, fault: Option<Fault>, k: nat)
    requires JobIdsUnique(t.jobs)
    requires k < |t.jobs| && t.jobs[k].status in {JobStatus.Success, JobStatus.Failed}
    ensures var t' := TickSpec(t, now, hitId, rival, fault).0; |t'.jobs| == |t.jobs| && t'.jobs[k] == t.jobs[k]
  {
    var s := Swept(t, now);
    SweepFailsExactlyStale(t, now);
    assert s.jobs[k] == t.jobs[k];
    match FirstQueued(s.jobs)
    case None =>
    case Some(q) =>
      SweptFacts(t, now);
      UniqueIdsKept(t.jobs, s.jobs);
      assert s.jobs[q].id != s.jobs[k].id;
      HandleFrame(s, s.jobs[q].id, now, hitId, rival, fault);
  }

  /** With unique ids a tick never changes a SUCCESS or FAILED row. */
  lemma TickKeepsTerminalRows(t: Tables, now: int, hitId: string, rival: Option<int>, fault: Option<Fault>)
    requires JobIdsUnique(t.jobs)
    ensures var t' := TickSpec(t, now, hitId, rival, fault).0;
      && |t'.jobs| == |t.jobs|
      && forall k :: 0 <= k < |t.jobs| && t.jobs[k].status in {JobStatus.Success, JobStatus.Failed} ==> t'.jobs[k] == t.jobs[k]
  {
    TickTouchesOneJob(t, now, hitId, rival, fault);
    forall k | 0 <= k < |t.jobs| && t.jobs[k].status in {JobStatus.Success, JobStatus.Failed}
      ensures TickSpec(t, now, hitId, rival, fault).0.jobs[k] == t.jobs[k]
    {
      TerminalRowKept(t, now, hitId, rival, fault, k);
    }
  }

  /** When a rival worker claims the job first, this tick's claim reports 0 and it runs no pipeline. */
  lemma TickLostRace(t: Tables, now: int, hitId: string, rivalNow: int, fault: Option<Fault>)
    requires FirstQueued(Swept(t, now).jobs).Some?
    ensures var s := Swept(t, now);
      var id := s.jobs[FirstQueued(s.jobs).value].id;
      TickSpec(t, now, hitId, Some(rivalNow), fault) == (s.(jobs := Claimed(s.jobs, id, rivalNow)), LostRace(id))
  {
    var s := Swept(t, now);
    SecondClaimLoses(s.jobs, s.jobs[FirstQueued(s.jobs).value].id, rivalNow);
  }

  lemma SweptFacts(t: Tables, now: int)
    ensures SameIds(t.jobs, Swept(t, now).jobs)
    ensures Swept(t, now).hits == t.hits && Swept(t, now).anchors == t.anchors
  {
  }

  /**
   * With unique ids, no rival and no store failure, the first QUEUED job is
   * claimed and run to the end: its row ends SUCCESS, DONE, every counter
   * at 100, and exactly the PARSE and MATCH logs follow the sweep's.
   */
  lemma TickProcesses(t: Tables, now: int, hitId: string)
    requires JobIdsUnique(t.jobs) && FreshHitIds(t, hitId)
    requires FirstQueued(Swept(t, now).jobs).Some?
    ensures var s := Swept(t, now);
      var k := FirstQueued(s.jobs).value;
      var (t', outcome) := TickSpec(t, now, hitId, None, None);
      && |t'.jobs| == |s.jobs|
      && outcome == Processed(s.jobs[k].id)
      && t'.jobs[k] == Completed(ClaimedRow(s.jobs[k], now), now)
      && t'.invokeLogs == s.invokeLogs + [InvokeRow(StagePayload(s.jobs[k].id, "PARSE", 800), now),
                                          InvokeRow(StagePayload(s.jobs[k].id, "MATCH", 1200), now)]
  {
    var s := Swept(t, now);
    var k := FirstQueued(s.jobs).value;
    var id := s.jobs[k].id;
    SweptFacts(t, now);
    UniqueIdsKept(t.jobs, s.jobs);
    ClaimCountIff(s.jobs, id);
    var s2 := s.(jobs := Claimed(s.jobs, id, now));
    assert s2.jobs[k].id == id;
    PipelineCompletes(s2, id, hitId, now);
  }

  /**
   * A failure of the first pipeline write is caught: the claimed row ends
   * FAILED with the thrown message (UNKNOWN_ERROR for a non-Error value),
   * still LOCKED at progress 1, one PIPELINE/ERROR log follows the sweep's,
   * and the tick itself returns normally.
   */
  lemma TickCatchesFailure(t: Tables, now: int, hitId: string, e: Thrown)
    requires JobIdsUnique(t.jobs)
    requires FirstQueued(Swept(t, now).jobs).Some?
    ensures var s := Swept(t, now);
      var k := FirstQueued(s.jobs).value;
      var message := ErrorMessage(e);
      var (t', outcome) := TickSpec(t, now, hitId, None, Some(Fault(MarkParsing, e)));
      && |t'.jobs| == |s.jobs|
      && outcome == FailedJob(s.jobs[k].id, message)
      && (e == NonErrorValue ==> message == "UNKNOWN_ERROR")
      && t'.jobs[k] == ClaimedRow(s.jobs[k], now).(status := JobStatus.Failed, error := NonNull(message))
      && t'.jobs[k].stage == Stage.Locked && t'.jobs[k].progress == 1
      && t'.invokeLogs == s.invokeLogs + [InvokeRow(FailurePayload(s.jobs[k].id, message), now)]
  {
    var s := Swept(t, now);
    var k := FirstQueued(s.jobs).value;
    var id := s.jobs[k].id;
    SweptFacts(t, now);
    UniqueIdsKept(t.jobs, s.jobs);
    ClaimCountIff(s.jobs, id);
    var s2 := s.(jobs := Claimed(s.jobs, id, now));
    var ops := PipelineOps(s2, id, hitId, now);
    assert ops[0] == HeadOps(id, now)[0];
    assert Run(s2, ops, Some(Fault(MarkParsing, e))) == (s2, Some(e));
  }

  /** The catch block leaves every row of the job FAILED with the message and its log last. */
  lemma CaughtRecorded(s: Tables, id: string, message: string, now: int)
    ensures var c := Caught(s, id, message, now);
      && |c.invokeLogs| > 0
      && c.invokeLogs[|c.invokeLogs| - 1] == InvokeRow(FailurePayload(id, message), now)
      && forall k :: 0 <= k < |c.jobs| && c.jobs[k].id == id ==>
           c.jobs[k].status == JobStatus.Failed && c.jobs[k].error == NonNull(message)
  {
  }

  lemma HandleFailureRecorded(s: Tables, id: string, now: int, hitId: string, rival: Option<int>, fault: Option<Fault>)
    ensures var (t', outcome) := Handle(s, id, now, hitId, rival, fault);
      outcome.FailedJob? ==>
        && outcome.jobId == id
        && |t'.invokeLogs| > 0
        && t'.invokeLogs[|t'.invokeLogs| - 1] == InvokeRow(FailurePayload(id, outcome.message), now)
        && forall k :: 0 <= k < |t'.jobs| && t'.jobs[k].id == id ==>
             t'.jobs[k].status == JobStatus.Failed && t'.jobs[k].error == NonNull(outcome.message)
  {
    var s1 := if rival.Some? then s.(jobs := Claimed(s.jobs, id, rival.value)) else s;
    if ClaimCount(s1.jobs, id) != 0 {
      var s2 := s1.(jobs := Claimed(s1.jobs, id, now));
      var (s3, thrown) := Run(s2, PipelineOps(s2, id, hitId, now), fault);
      if thrown.Some? {
        CaughtRecorded(s3, id, ErrorMessage(thrown.value), now);
      }
    }
  }

  /** Whatever the pipeline threw, a FailedJob tick leaves every row of the job FAILED with the message and logs it last. */
  lemma TickFailureRecorded(t: Tables, now: int, hitId: string, rival: Option<int>, fault: Option<Fault>)
    ensures var (t', outcome) := TickSpec(t, now, hitId, rival, fault);
      outcome.FailedJob? ==>
        && |t'.invokeLogs| > 0
        && t'.invokeLogs[|t'.invokeLogs| - 1] == InvokeRow(FailurePayload(outcome.jobId, outcome.message), now)
        && forall k :: 0 <= k < |t'.jobs| && t'.jobs[k].id == outcome.jobId ==>
             t'.jobs[k].status == JobStatus.Failed && t'.jobs[k].error == NonNull(outcome.message)
  {
    var s := Swept(t, now);
    match FirstQueued(s.jobs)
    case None =>
    case Some(q) =>
      HandleFailureRecorded(s, s.jobs[q].id, now, hitId, rival, fault);
  }
}
