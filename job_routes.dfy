/**
 * The mapping logic of the job routes: turning a report id back into a job
 * id, turning what createJob resolved to into the submit reply, and the
 * precedence of the two spellings of the document filter.
 */
module JobRoutes {
  import opened Common
  import opened Strings
  import opened Js
  import JobsRepo

  // ------------------------------------------------------------- report ids

  const ReportPrefix := "report-"

  /**
   * The job a report id names: `replace('report-', '')` when the id starts
   * with the prefix, which removes exactly that prefix; the id itself otherwise.
   */
  function ReportIdToJobId(reportId: string): (jobId: string)
    ensures StartsWith(reportId, ReportPrefix) ==> jobId == reportId[|ReportPrefix|..]
    ensures !StartsWith(reportId, ReportPrefix) ==> jobId == reportId
  {
    if StartsWith(reportId, ReportPrefix) then
      ReplacePrefix(reportId, ReportPrefix);
      ReplaceFirst(reportId, ReportPrefix, "")
    else reportId
  }

  /**
   * The report id getReport hands out leads back to its job, even for a job
   * id that itself contains or starts with `report-`: only the first
   * occurrence, the prefix, is removed.
   */
  lemma ReportIdRoundTrip(jobId: string)
    ensures ReportIdToJobId(JobsRepo.GetReport(jobId).reportId) == jobId
  {
    var reportId := JobsRepo.GetReport(jobId).reportId;
    assert reportId == ReportPrefix + jobId;
    assert reportId[|ReportPrefix|..] == jobId;
  }

  // ------------------------------------------------------------ submit reply

  /** What the route sends: the status code and the JSON body. */
  datatype Reply = Reply(code: int, body: JsValue)

  /** One property of an object literal; JSON serialisation drops it when its value is undefined. */
  function Prop(key: string, v: Option<JsValue>): (m: map<string, JsValue>)
    ensures key in m <==> v.Some?
    ensures v.Some? ==> m == map[key := v.value]
    ensures v.None? ==> m == map[]
  {
    if v.Some? then map[key := v.value] else map[]
  }

  /**
   * The submit route's reply to what createJob resolved to, read through
   * `result.status` and `result.jobId`: a status other than `OK` is echoed
   * with 404 for SECTION_NOT_FOUND and 409 for anything else (an absent
   * status included); `OK` gives the job id and QUEUED.
   */
  function SubmitReply(result: JsValue): (r: Reply)
    ensures r.code == 200 || r.code == 404 || r.code == 409
    ensures r.code == 200 <==> Get(result, "status") == Some(JsStr("OK"))
    ensures r.code == 404 <==> Get(result, "status") == Some(JsStr("SECTION_NOT_FOUND"))
    ensures r.code != 200 ==> Get(r.body, "status") == Get(result, "status") && Get(r.body, "job_id").None?
    ensures r.code == 200 ==> Get(r.body, "status") == Some(JsStr("QUEUED")) && Get(r.body, "job_id") == Get(result, "jobId")
  {
    var status := Get(result, "status");
    if status != Some(JsStr("OK")) then
      Reply(if status == Some(JsStr("SECTION_NOT_FOUND")) then 404 else 409, JsObject(Prop("status", status)))
    else
      Reply(200, JsObject(Prop("job_id", Get(result, "jobId"))["status" := JsStr("QUEUED")]))
  }

  /** What createJob resolves to as written: the bare job id string. */
  function CreateJobResultAsWritten(jobId: string): (r: JsValue)
    ensures Get(r, "status").None? && Get(r, "jobId").None?
  {
    JsStr(jobId)
  }

  /**
   * As written, a string has no `status` property, so every submission is
   * answered 409 with an empty body although the job and its pairs were
   * stored and will be processed. This assumes the route is linked against
   * the createJob of apps/api/src/repositories/jobs.ts; that file does not
   * export `listJobHits`, `getJobHit` or `getJobHitSummary`, which the route
   * file imports, so the route may have been written against another version.
   */
  lemma SubmitAlwaysConflicts(jobId: string)
    ensures SubmitReply(CreateJobResultAsWritten(jobId)) == Reply(409, JsObject(map[]))
  {
    var r := SubmitReply(CreateJobResultAsWritten(jobId));
    assert r.body == JsObject(Prop("status", None));
  }

  /** The result the route expects from a successful createJob: status OK and the new job id. */
  function CreateJobResult(jobId: string): (r: JsValue)
    ensures Get(r, "status") == Some(JsStr("OK")) && Get(r, "jobId") == Some(JsStr(jobId))
  {
    JsObject(map["status" := JsStr("OK"), "jobId" := JsStr(jobId)])
  }

  /** With that result a submission is answered 200 with the stored job's id and QUEUED. */
  lemma SubmitQueuesJob(jobId: string)
    ensures SubmitReply(CreateJobResult(jobId)) == Reply(200, JsObject(map["job_id" := JsStr(jobId), "status" := JsStr("QUEUED")]))
  {
    var r := SubmitReply(CreateJobResult(jobId));
    assert r.body == JsObject(Prop("job_id", Some(JsStr(jobId)))["status" := JsStr("QUEUED")]);
  }

  // ---------------------------------------------------------- hit filters

  /** The document filter of the hit routes, `doc_id ?? docId`: the snake-case parameter wins when present. */
  function DocIdParam(docIdSnake: Option<string>, docIdCamel: Option<string>): (r: Option<string>)
    ensures docIdSnake.Some? ==> r == docIdSnake
    ensures docIdSnake.None? ==> r == docIdCamel
    ensures r.Some? <==> docIdSnake.Some? || docIdCamel.Some?
  {
    Coalesce(docIdSnake, docIdCamel)
  }
}
