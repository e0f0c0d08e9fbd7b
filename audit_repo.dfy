/**
 * The audit repository: the append-only invocation log written by the
 * worker, and the read-side listings of the invocation and audit logs.
 */
module AuditRepo {
  import opened Common
  import opened Seqs
  import opened Store

  /** The argument of createInvokeLog; the optional fields may be left out. */
  datatype InvokePayload = InvokePayload(
    jobId: Option<string>,
    providerId: Option<string>,
    stage: string,
    status: string,
    latencyMs: Option<int>,
    error: Option<string>)

  /** One entry of listInvokeLogs: NULL columns come back as absent properties. */
  datatype InvokeLogEntry = InvokeLogEntry(
    jobId: Option<string>,
    providerId: Option<string>,
    stage: string,
    status: string,
    latencyMs: Option<int>,
    error: Option<string>,
    createdAt: int)

  /** One entry of listAuditLogs. */
  datatype AuditLogEntry = AuditLogEntry(id: string, provider: string, purpose: string, latency: int, status: string, createdAt: string)

  /** The row createInvokeLog stores: absent optionals become NULL, stage and status are copied. */
  function InvokeRow(p: InvokePayload, now: int): (row: InvokeLog)
    ensures row.jobId.Null? <==> p.jobId.None?
    ensures row.providerId.Null? <==> p.providerId.None?
    ensures row.latencyMs.Null? <==> p.latencyMs.None?
    ensures row.error.Null? <==> p.error.None?
    ensures p.jobId.Some? ==> row.jobId == NonNull(p.jobId.value)
    ensures p.providerId.Some? ==> row.providerId == NonNull(p.providerId.value)
    ensures p.latencyMs.Some? ==> row.latencyMs == NonNull(p.latencyMs.value)
    ensures p.error.Some? ==> row.error == NonNull(p.error.value)
    ensures row.stage == p.stage && row.status == p.status && row.createdAt == now
  {
    InvokeLog(OrNull(p.jobId), OrNull(p.providerId), p.stage, p.status, OrNull(p.latencyMs), OrNull(p.error), now)
  }

  /**
   * createInvokeLog: appends exactly one row and leaves every other row and
   * table as it was; a store failure throws and changes nothing.
   */
  method CreateInvokeLog(db: Db, payload: InvokePayload, now: int, injected: Option<Thrown>)
    returns (r: Result<InvokeLog, Thrown>)
    modifies db
    ensures r.Ok? <==> injected.None?
    ensures r.Ok? ==> r.value == InvokeRow(payload, now)
    ensures r.Ok? ==> db.State() == old(db.State()).(invokeLogs := old(db.invokeLogs) + [r.value])
    ensures r.Err? ==> r.error == injected.value && db.State() == old(db.State())
  {
    var row := InvokeRow(payload, now);
    var thrown := db.Perform(Write.CreateInvokeLog(row), injected);
    if thrown.Some? {
      return Err(thrown.value);
    }
    return Ok(row);
  }

  function EntryOf(row: InvokeLog): InvokeLogEntry {
    InvokeLogEntry(OrUndefined(row.jobId), OrUndefined(row.providerId), row.stage, row.status,
                   OrUndefined(row.latencyMs), OrUndefined(row.error), row.createdAt)
  }

  /** listInvokeLogs: one entry per stored row, in store order. */
  function ListInvokeLogs(rows: seq<InvokeLog>): (r: seq<InvokeLogEntry>)
    ensures |r| == |rows|
    ensures forall k :: 0 <= k < |rows| ==> r[k] == EntryOf(rows[k])
  {
    Map(rows, EntryOf)
  }

  /**
   * Listing after a create: the earlier entries are listed as before, and the
   * new entry carries the stage and status given and each optional field
   * exactly when it was supplied, with the value supplied.
   */
  lemma CreatedLogListsBack(rows: seq<InvokeLog>, p: InvokePayload, now: int)
    ensures var listed := ListInvokeLogs(rows + [InvokeRow(p, now)]);
      && |listed| == |rows| + 1
      && listed[..|rows|] == ListInvokeLogs(rows)
      && listed[|rows|] == InvokeLogEntry(p.jobId, p.providerId, p.stage, p.status, p.latencyMs, p.error, now)
  {
    var listed := ListInvokeLogs(rows + [InvokeRow(p, now)]);
    NullRoundTrip(p.jobId);
    NullRoundTrip(p.providerId);
    NullRoundTrip(p.latencyMs);
    NullRoundTrip(p.error);
    assert listed[..|rows|] == ListInvokeLogs(rows);
  }

  function AuditEntryOf(row: AuditLog): AuditLogEntry {
    AuditLogEntry(row.id, row.provider, row.purpose, row.latency, row.status, row.createdAt)
  }

  /** listAuditLogs: one entry per stored row, in store order, each field copied. */
  function ListAuditLogs(rows: seq<AuditLog>): (r: seq<AuditLogEntry>)
    ensures |r| == |rows|
    ensures forall k :: 0 <= k < |rows| ==>
      && r[k].id == rows[k].id && r[k].provider == rows[k].provider && r[k].purpose == rows[k].purpose
      && r[k].latency == rows[k].latency && r[k].status == rows[k].status && r[k].createdAt == rows[k].createdAt
  {
    Map(rows, AuditEntryOf)
  }
}
