/**
 * The jobs repository: job submission with its pair matrix, the job and
 * pair read-outs, the hit listing and its filters, anchor bounding-box
 * normalisation, review upsert, report naming and the abstract failJob.
 */
module JobsRepo {
  import opened Common
  import opened Strings
  import opened Seqs
  import opened Js
  import opened Store

  // ---------------------------------------------------------------- createJob

  /** The job row createJob inserts: queued, every progress counter at zero. */
  function NewJob(jobId: string, sectionId: string, createdBy: string, now: int): Job {
    Job(jobId, sectionId, JobStatus.Queued, Stage.Queued, 0, 0, 0, 0, createdBy, now, NoTime, NoTime, Null)
  }

  /** The documents a `findMany` with `id in docIds` returns: table order, each row once. */
  function FindDocs(docs: seq<Doc>, docIds: seq<string>): seq<Doc> {
    Filter(docs, (d: Doc) => d.id in docIds)
  }

  /** The pair id template `pair-<jobId>-<i>-<j>`. */
  function PairId(jobId: string, i: nat, j: nat): string {
    "pair-" + jobId + "-" + NatToString(i) + "-" + NatToString(j)
  }

  /** The pair record pushed for documents i and j (i < j < |docs| wherever the model uses it). */
  function MkPair(jobId: string, docs: seq<Doc>, e: (nat, nat)): Pair {
    var (i, j) := e;
    Pair(PairId(jobId, i, j), jobId, BidderAt(docs, i), BidderAt(docs, j), 0, 0, PairStatus.Pending)
  }

  function BidderAt(docs: seq<Doc>, i: nat): string {
    if i < |docs| then docs[i].bidder else ""
  }

  /** The index pairs (i, j), (i, j + 1), ..., (i, k - 1). */
  function Row(i: nat, j: nat, k: nat): seq<(nat, nat)>
    decreases k - j
  {
    if j >= k then [] else [(i, j)] + Row(i, j + 1, k)
  }

  /** The index pairs with i <= a < b < k, row by row. */
  function IndexPairsFrom(i: nat, k: nat): seq<(nat, nat)>
    decreases k - i
  {
    if i >= k then [] else Row(i, i + 1, k) + IndexPairsFrom(i + 1, k)
  }

  lemma {:induction false} RowBounds(i: nat, j: nat, k: nat)
    ensures forall e :: e in Row(i, j, k) ==> e.0 == i && j <= e.1 < k
    decreases k - j
  {
    if j < k {
      RowBounds(i, j + 1, k);
    }
  }

  lemma {:induction false} IndexPairsBounds(i: nat, k: nat)
    ensures forall e :: e in IndexPairsFrom(i, k) ==> i <= e.0 < e.1 < k
    decreases k - i
  {
    if i < k {
      RowBounds(i, i + 1, k);
      IndexPairsBounds(i + 1, k);
    }
  }

  function Materialize(jobId: string, docs: seq<Doc>, ips: seq<(nat, nat)>): (r: seq<Pair>)
    ensures |r| == |ips|
  {
    seq(|ips|, p requires 0 <= p < |ips| => MkPair(jobId, docs, ips[p]))
  }

  lemma MaterializeAppend(jobId: string, docs: seq<Doc>, a: seq<(nat, nat)>, b: seq<(nat, nat)>)
    ensures Materialize(jobId, docs, a + b) == Materialize(jobId, docs, a) + Materialize(jobId, docs, b)
  {
  }

  /** The pairs createJob builds for the documents found, in loop order. */
  function PairMatrix(jobId: string, docs: seq<Doc>): seq<Pair> {
    Materialize(jobId, docs, IndexPairsFrom(0, |docs|))
  }

  /** What the inner loop has pushed for document i when it reaches j: the pairs (i, i + 1), ..., (i, j - 1). */
  function RowPushed(jobId: string, docs: seq<Doc>, i: nat, j: nat): seq<Pair>
    decreases j
  {
    if j <= i + 1 then [] else RowPushed(jobId, docs, i, j - 1) + [MkPair(jobId, docs, (i, j - 1))]
  }

  /** What the outer loop has pushed when it reaches i: the complete rows 0, ..., i - 1. */
  function RowsPushed(jobId: string, docs: seq<Doc>, i: nat): seq<Pair> {
    if i == 0 then [] else RowsPushed(jobId, docs, i - 1) + RowPushed(jobId, docs, i - 1, |docs|)
  }

  /** The nested loops of createJob that push one pair per index pair i < j. */
  method BuildPairs(jobId: string, docs: seq<Doc>) returns (pairs: seq<Pair>)
    ensures pairs == PairMatrix(jobId, docs)
  {
    var k := |docs|;
    pairs := [];
    for i: nat := 0 to k
      invariant pairs == RowsPushed(jobId, docs, i)
    {
      for j: nat := i + 1 to k
        invariant pairs == RowsPushed(jobId, docs, i) + RowPushed(jobId, docs, i, j)
      {
        pairs := pairs + [MkPair(jobId, docs, (i, j))];
      }
    }
    PushedIsMatrix(jobId, docs, k);
  }

  /** One step of the matrix recursion: row i of index pairs, materialised, heads the pairs from row i on. */
  lemma RowStep(jobId: string, docs: seq<Doc>, i: nat, j: nat, k: nat)
    requires j < k
    ensures Materialize(jobId, docs, Row(i, j, k)) == [MkPair(jobId, docs, (i, j))] + Materialize(jobId, docs, Row(i, j + 1, k))
  {
    MaterializeAppend(jobId, docs, [(i, j)], Row(i, j + 1, k));
  }

  /** The inner loop's pushes followed by the rest of the row give the whole row. */
  lemma {:induction false} RowPushedIsRow(jobId: string, docs: seq<Doc>, i: nat, j: nat, k: nat)
    requires i + 1 <= j <= k
    ensures RowPushed(jobId, docs, i, j) + Materialize(jobId, docs, Row(i, j, k)) == Materialize(jobId, docs, Row(i, i + 1, k))
    decreases j
  {
    if j > i + 1 {
      var before, x, rest := RowPushed(jobId, docs, i, j - 1), MkPair(jobId, docs, (i, j - 1)), Materialize(jobId, docs, Row(i, j, k));
      RowPushedIsRow(jobId, docs, i, j - 1, k);
      RowStep(jobId, docs, i, j - 1, k);
      AppendAssoc(before, [x], rest);
    }
  }

  /** The outer loop's pushes followed by the index pairs from row i on give the whole matrix. */
  lemma {:induction false} PushedIsMatrix(jobId: string, docs: seq<Doc>, i: nat)
    requires i <= |docs|
    ensures RowsPushed(jobId, docs, i) + Materialize(jobId, docs, IndexPairsFrom(i, |docs|)) == PairMatrix(jobId, docs)
  {
    var k := |docs|;
    if i > 0 {
      var before, row, rest := RowsPushed(jobId, docs, i - 1), RowPushed(jobId, docs, i - 1, k), Materialize(jobId, docs, IndexPairsFrom(i, k));
      PushedIsMatrix(jobId, docs, i - 1);
      RowPushedIsRow(jobId, docs, i - 1, k, k);
      assert Row(i - 1, k, k) == [];
      assert row == Materialize(jobId, docs, Row(i - 1, i, k));
      assert IndexPairsFrom(i - 1, k) == Row(i - 1, i, k) + IndexPairsFrom(i, k);
      MaterializeAppend(jobId, docs, Row(i - 1, i, k), IndexPairsFrom(i, k));
      AppendAssoc(before, row, rest);
    }
  }

  /** An insert of `built` would collide with a pair id already stored. */
  predicate PairIdsTaken(pairs: seq<Pair>, built: seq<Pair>) {
    exists p, q :: p in pairs && q in built && p.id == q.id
  }

  /**
   * createJob: inserts the queued job, then one PENDING pair per index pair
   * i < j of the documents found. A job id already taken throws before any
   * write; a pair id already taken makes the pair insert throw after the job
   * row was written (the two inserts are not one transaction).
   */
  method CreateJob(db: Db, jobId: string, sectionId: string, docIds: seq<string>, createdBy: string, now: int)
    returns (r: Result<string, Thrown>)
    modifies db
    ensures HasJob(old(db.jobs), jobId) ==> r == Err(UniqueConstraintFailed) && db.State() == old(db.State())
    ensures !HasJob(old(db.jobs), jobId) ==>
      var built := PairMatrix(jobId, FindDocs(old(db.docs), docIds));
      && db.jobs == old(db.jobs) + [NewJob(jobId, sectionId, createdBy, now)]
      && (r == if PairIdsTaken(old(db.pairs), built) then Err(UniqueConstraintFailed) else Ok(jobId))
      && db.pairs == (if PairIdsTaken(old(db.pairs), built) then old(db.pairs) else old(db.pairs) + built)
      && db.State() == old(db.State()).(jobs := db.jobs, pairs := db.pairs)
  {
    if HasJob(db.jobs, jobId) {
      return Err(UniqueConstraintFailed);
    }
    db.jobs := db.jobs + [NewJob(jobId, sectionId, createdBy, now)];
    var docs := FindDocs(db.docs, docIds);
    var pairs := BuildPairs(jobId, docs);
    if |pairs| > 0 {
      if PairIdsTaken(db.pairs, pairs) {
        return Err(UniqueConstraintFailed);
      }
      db.pairs := db.pairs + pairs;
    }
    return Ok(jobId);
  }

  lemma {:induction false} RowFacts(i: nat, j: nat, k: nat)
    ensures |Row(i, j, k)| == if j >= k then 0 else k - j
    ensures forall p :: 0 <= p < |Row(i, j, k)| ==> Row(i, j, k)[p] == (i, j + p)
    decreases k - j
  {
    if j < k {
      RowFacts(i, j + 1, k);
    }
  }

  lemma {:induction false} IndexPairsCount(i: nat, k: nat)
    ensures |IndexPairsFrom(i, k)| == if i >= k then 0 else (k - i) * (k - i - 1) / 2
    decreases k - i
  {
    if i < k {
      RowFacts(i, i + 1, k);
      IndexPairsCount(i + 1, k);
      var n := k - i;
      assert n * (n - 1) == (n - 1) * (n - 2) + 2 * (n - 1);
    }
  }

  lemma {:induction false} IndexPairsComplete(i: nat, k: nat, a: nat, b: nat)
    requires i <= a < b < k
    ensures (a, b) in IndexPairsFrom(i, k)
    decreases a - i
  {
    assert IndexPairsFrom(i, k) == Row(i, i + 1, k) + IndexPairsFrom(i + 1, k);
    if a == i {
      RowFacts(i, i + 1, k);
      assert Row(i, i + 1, k)[b - i - 1] == (a, b);
    } else {
      IndexPairsComplete(i + 1, k, a, b);
    }
  }

  /** (a0, a1) comes before (b0, b1) in lexicographic order. */
  predicate LexBefore(a: (nat, nat), b: (nat, nat)) {
    a.0 < b.0 || (a.0 == b.0 && a.1 < b.1)
  }

  predicate LexSorted(s: seq<(nat, nat)>) {
    forall p, q :: 0 <= p < q < |s| ==> LexBefore(s[p], s[q])
  }

  lemma {:induction false} IndexPairsSorted(i: nat, k: nat)
    ensures LexSorted(IndexPairsFrom(i, k))
    decreases k - i
  {
    if i < k {
      RowFacts(i, i + 1, k);
      IndexPairsSorted(i + 1, k);
      IndexPairsBounds(i + 1, k);
      var row, rest := Row(i, i + 1, k), IndexPairsFrom(i + 1, k);
      var s := row + rest;
      forall p, q | 0 <= p < q < |s|
        ensures LexBefore(s[p], s[q])
      {
        if q < |row| {
          assert s[p] == row[p] && s[q] == row[q];
        } else if p < |row| {
          assert s[q] == rest[q - |row|];
          assert s[q] in rest;
        } else {
          assert s[p] == rest[p - |row|] && s[q] == rest[q - |row|];
        }
      }
    }
  }

  lemma PairIdInjective(jobId: string, i: nat, j: nat, i': nat, j': nat)
    requires PairId(jobId, i, j) == PairId(jobId, i', j')
    ensures i == i' && j == j'
  {
    var prefix := "pair-" + jobId + "-";
    var tail, tail' := NatToString(i) + "-" + NatToString(j), NatToString(i') + "-" + NatToString(j');
    assert PairId(jobId, i, j) == prefix + tail;
    assert PairId(jobId, i', j') == prefix + tail';
    assert tail == (prefix + tail)[|prefix|..];
    assert tail' == (prefix + tail')[|prefix|..];
    SplitAtDash(NatToString(i), NatToString(j), NatToString(i'), NatToString(j'));
    NatToStringInjective(i, i');
    NatToStringInjective(j, j');
  }

  /** For k documents, the matrix has exactly k(k-1)/2 pairs; none at all for fewer than two. */
  lemma PairMatrixCount(jobId: string, docs: seq<Doc>)
    ensures |PairMatrix(jobId, docs)| == |docs| * (|docs| - 1) / 2
    ensures |docs| < 2 ==> PairMatrix(jobId, docs) == []
  {
    IndexPairsCount(0, |docs|);
  }

  /**
   * Position n of the matrix holds the pair for the n-th index pair (i, j):
   * id `pair-<jobId>-<i>-<j>`, the new job, bidders of docs[i] and docs[j],
   * score 0, hits 0, PENDING. The index pairs are exactly those with
   * i < j < k, each once, in lexicographic order.
   */
  lemma PairMatrixShape(jobId: string, docs: seq<Doc>)
    ensures var ips, pm := IndexPairsFrom(0, |docs|), PairMatrix(jobId, docs);
      && |pm| == |ips|
      && (forall n :: 0 <= n < |pm| ==>
            && ips[n].0 < ips[n].1 < |docs|
            && pm[n] == Pair(PairId(jobId, ips[n].0, ips[n].1), jobId, docs[ips[n].0].bidder,
                             docs[ips[n].1].bidder, 0, 0, PairStatus.Pending))
      && (forall i, j :: 0 <= i < j < |docs| ==> (i, j) in ips)
      && LexSorted(ips)
  {
    var ips := IndexPairsFrom(0, |docs|);
    forall i, j | 0 <= i < j < |docs|
      ensures (i, j) in ips
    {
      IndexPairsComplete(0, |docs|, i, j);
    }
    IndexPairsSorted(0, |docs|);
    IndexPairsBounds(0, |docs|);
    forall n | 0 <= n < |ips|
      ensures ips[n].0 < ips[n].1 < |docs|
    {
      assert ips[n] in ips;
    }
  }

  /** Pair ids are pairwise distinct within one job. */
  lemma PairMatrixIdsDistinct(jobId: string, docs: seq<Doc>)
    ensures var pm := PairMatrix(jobId, docs);
      forall p, q :: 0 <= p < q < |pm| ==> pm[p].id != pm[q].id
  {
    var ips, pm := IndexPairsFrom(0, |docs|), PairMatrix(jobId, docs);
    IndexPairsSorted(0, |docs|);
    forall p, q | 0 <= p < q < |pm|
      ensures pm[p].id != pm[q].id
    {
      assert LexBefore(ips[p], ips[q]);
      if pm[p].id == pm[q].id {
        PairIdInjective(jobId, ips[p].0, ips[p].1, ips[q].0, ips[q].1);
      }
    }
  }

  // ----------------------------------------------------------------- getJob

  datatype JobView = JobView(
    jobId: string, status: JobStatus, progress: int, stage: Stage,
    parseProgress: int, llmProgress: int, reportProgress: int, error: Nullable<string>)

  function ViewOfJob(j: Job): JobView {
    JobView(j.id, j.status, j.progress, j.stage, j.parseProgress, j.llmProgress, j.reportProgress, j.error)
  }

  /** The first row with the id at or after `from`: a search by id, where Worker.FirstQueuedFrom searches by status. */
  function FindJobFrom(jobs: seq<Job>, id: string, from: nat): (r: Option<nat>)
    requires from <= |jobs|
    ensures r.Some? ==> from <= r.value < |jobs| && jobs[r.value].id == id
    ensures r.Some? ==> forall k :: from <= k < r.value ==> jobs[k].id != id
    ensures r.None? ==> forall k :: from <= k < |jobs| ==> jobs[k].id != id
    decreases |jobs| - from
  {
    if from == |jobs| then None
    else if jobs[from].id == id then Some(from)
    else FindJobFrom(jobs, id, from + 1)
  }

  /** getJob: the job's status read-out, or null when no job has the id. */
  function GetJob(jobs: seq<Job>, jobId: string): (r: Option<JobView>)
    ensures r.None? <==> !HasJob(jobs, jobId)
    ensures r.Some? ==> exists k :: 0 <= k < |jobs| && jobs[k].id == jobId && r.value == ViewOfJob(jobs[k])
  {
    match FindJobFrom(jobs, jobId, 0)
    case None => None
    case Some(k) => Some(ViewOfJob(jobs[k]))
  }

  /** A job just created reads back queued, at stage QUEUED, with every progress at 0 and no error. */
  lemma CreatedJobReadsBack(jobs: seq<Job>, jobId: string, sectionId: string, createdBy: string, now: int)
    requires !HasJob(jobs, jobId)
    ensures GetJob(jobs + [NewJob(jobId, sectionId, createdBy, now)], jobId)
         == Some(JobView(jobId, JobStatus.Queued, 0, Stage.Queued, 0, 0, 0, Null))
  {
    var js := jobs + [NewJob(jobId, sectionId, createdBy, now)];
    assert js[|jobs|].id == jobId;
    var r := FindJobFrom(js, jobId, 0);
    assert r == Some(|jobs|) by {
      assert forall k :: 0 <= k < |jobs| ==> js[k] == jobs[k];
    }
  }

  // --------------------------------------------------------------- listPairs

  datatype PairView = PairView(pairId: string, docA: string, docB: string, score: int, hits: int, status: PairStatus)

  function ViewOfPair(p: Pair): PairView {
    PairView(p.id, p.docA, p.docB, p.score, p.hits, p.status)
  }

  /** `pair.findMany({ where: { jobId } })`: the job's pairs in table order. */
  function PairsOf(pairs: seq<Pair>, jobId: string): seq<Pair> {
    Filter(pairs, (p: Pair) => p.jobId == jobId)
  }

  /**
   * listPairs: one entry per pair of the job, in table order, carrying the
   * pair's id, documents, score, hit count and status.
   */
  function ListPairs(pairs: seq<Pair>, jobId: string): (r: seq<PairView>)
    ensures |r| == |PairsOf(pairs, jobId)|
    ensures forall k :: 0 <= k < |r| ==>
      var p := PairsOf(pairs, jobId)[k];
      && p in pairs && p.jobId == jobId
      && r[k] == PairView(p.id, p.docA, p.docB, p.score, p.hits, p.status)
  {
    var selected := PairsOf(pairs, jobId);
    assert forall k :: 0 <= k < |selected| ==> selected[k] in selected;
    Map(selected, ViewOfPair)
  }

  /** Listing keeps table order (it distributes over concatenation), and a pair of another job is never listed. */
  lemma ListPairsAppend(a: seq<Pair>, b: seq<Pair>, jobId: string)
    ensures ListPairs(a + b, jobId) == ListPairs(a, jobId) + ListPairs(b, jobId)
    ensures forall p: Pair :: p.jobId != jobId ==> ListPairs(a + [p], jobId) == ListPairs(a, jobId)
  {
    FilterAppend(a, b, (p: Pair) => p.jobId == jobId);
    MapAppend(PairsOf(a, jobId), PairsOf(b, jobId), ViewOfPair);
    forall p: Pair | p.jobId != jobId
      ensures ListPairs(a + [p], jobId) == ListPairs(a, jobId)
    {
      FilterAppend(a, [p], (x: Pair) => x.jobId == jobId);
      assert PairsOf([p], jobId) == [];
      assert PairsOf(a + [p], jobId) == PairsOf(a, jobId);
    }
  }

  /** The pair update by job id keeps which pairs belong to the job, in order, and updates each of them. */
  lemma {:induction false} PairsOfAfterUpdate(pairs: seq<Pair>, jobId: string, status: PairStatus, score: int, hits: int)
    ensures var before, after := PairsOf(pairs, jobId), PairsOf(UpdatePairs(pairs, jobId, status, score, hits), jobId);
      && |after| == |before|
      && forall k :: 0 <= k < |after| ==> after[k] == before[k].(status := status, score := score, hits := hits)
    decreases |pairs|
  {
    if pairs != [] {
      var n := |pairs|;
      var init, updated := pairs[..n - 1], UpdatePairs(pairs, jobId, status, score, hits);
      assert updated[..n - 1] == UpdatePairs(init, jobId, status, score, hits);
      PairsOfAfterUpdate(init, jobId, status, score, hits);
      assert updated[n - 1].jobId == pairs[n - 1].jobId;
    }
  }

  /**
   * The pair update by job id (the pipeline's `pair.updateMany`) keeps the
   * job's listed pairs, in the same order and with the same ids and
   * documents, and sets each one's status, score and hit count.
   */
  lemma ListPairsAfterUpdate(pairs: seq<Pair>, jobId: string, status: PairStatus, score: int, hits: int)
    ensures var before, after := ListPairs(pairs, jobId), ListPairs(UpdatePairs(pairs, jobId, status, score, hits), jobId);
      && |after| == |before|
      && forall k :: 0 <= k < |after| ==>
           after[k] == before[k].(status := status, score := score, hits := hits)
  {
    PairsOfAfterUpdate(pairs, jobId, status, score, hits);
  }

  /** After createJob, listing the new job's pairs yields its matrix, in build order. */
  lemma CreatedJobListsItsPairs(pairs: seq<Pair>, jobId: string, docs: seq<Doc>)
    requires forall p :: p in pairs ==> p.jobId != jobId
    ensures ListPairs(pairs + PairMatrix(jobId, docs), jobId) == Map(PairMatrix(jobId, docs), ViewOfPair)
  {
    var ofJob := (p: Pair) => p.jobId == jobId;
    var pm := PairMatrix(jobId, docs);
    FilterAppend(pairs, pm, ofJob);
    FilterKeepsNone(pairs, ofJob);
    forall p | p in pm
      ensures ofJob(p)
    {
      var n :| 0 <= n < |pm| && pm[n] == p;
    }
    FilterKeepsAll(pm, ofJob);
    assert [] + pm == pm;
  }

  // ---------------------------------------------------------------- listHits

  /** The query filters of listHits; each may be left out. */
  datatype HitFilters = HitFilters(
    risk: Option<string>,
    sectionType: Option<string>,
    bidder: Option<string>,
    minScore: Option<int>,
    maxScore: Option<int>)

  const NoFilters := HitFilters(None, None, None, None, None)

  /** A string filter takes part only when it is truthy: present and non-empty. */
  predicate Supplied(f: Option<string>) {
    f.Some? && f.value != ""
  }

  /** The predicate passed to `hits.filter`: each test rejects, else the hit is kept. */
  predicate HitMatches(f: HitFilters, h: Hit) {
    && !(Supplied(f.risk) && h.rewriteRisk != f.risk.value)
    && !(Supplied(f.sectionType) && h.sectionType != f.sectionType.value)
    && !(Supplied(f.bidder) && !Includes(h.aBidder, f.bidder.value) && !Includes(h.bBidder, f.bidder.value))
    && !(f.minScore.Some? && h.score < f.minScore.value)
    && !(f.maxScore.Some? && h.score > f.maxScore.value)
  }

  /** A hit passes iff every supplied filter holds of it; the bidder filter is a substring test on either side. */
  lemma HitMatchesIff(f: HitFilters, h: Hit)
    ensures HitMatches(f, h) <==>
      && (Supplied(f.risk) ==> h.rewriteRisk == f.risk.value)
      && (Supplied(f.sectionType) ==> h.sectionType == f.sectionType.value)
      && (Supplied(f.bidder) ==>
            (exists k: nat :: OccursAt(h.aBidder, f.bidder.value, k))
            || (exists k: nat :: OccursAt(h.bBidder, f.bidder.value, k)))
      && (f.minScore.Some? ==> f.minScore.value <= h.score)
      && (f.maxScore.Some? ==> h.score <= f.maxScore.value)
  {
    if f.bidder.Some? {
      IncludesIffOccurs(h.aBidder, f.bidder.value);
      IncludesIffOccurs(h.bBidder, f.bidder.value);
    }
  }

  /** The hits listHits keeps, in table order. */
  function SelectHits(hits: seq<Hit>, f: HitFilters): seq<Hit> {
    Filter(hits, (h: Hit) => HitMatches(f, h))
  }

  /**
   * The selection is order preserving (it distributes over concatenation),
   * keeps exactly the matching hits, and with no filter, or only empty-string
   * ones, keeps every hit.
   */
  lemma SelectHitsFacts(a: seq<Hit>, b: seq<Hit>, f: HitFilters)
    ensures SelectHits(a + b, f) == SelectHits(a, f) + SelectHits(b, f)
    ensures forall h :: h in SelectHits(a, f) <==> h in a && HitMatches(f, h)
    ensures SelectHits(a, NoFilters) == a
    ensures SelectHits(a, HitFilters(Some(""), Some(""), Some(""), None, None)) == a
  {
    FilterAppend(a, b, (h: Hit) => HitMatches(f, h));
    FilterKeepsAll(a, (h: Hit) => HitMatches(NoFilters, h));
    FilterKeepsAll(a, (h: Hit) => HitMatches(HitFilters(Some(""), Some(""), Some(""), None, None), h));
  }

  datatype DocSide = DocSide(docId: string, bidder: string, pageHint: int, snippet: string)

  datatype ReviewView = ReviewView(result: string, remark: Option<string>, reviewedAt: int)

  datatype HitView = HitView(
    hitId: string, score: int, rewriteRisk: string, ruleHits: seq<string>, sectionType: string,
    explanation: string, a: DocSide, b: DocSide, review: Option<ReviewView>)

  /** The joined review of a hit; a NULL remark is left out. */
  function ReviewOf(reviews: map<string, Review>, hitId: string): (r: Option<ReviewView>)
    ensures r.Some? <==> hitId in reviews
    ensures r.Some? ==>
      && r.value.result == reviews[hitId].result
      && r.value.remark == OrUndefined(reviews[hitId].remark)
      && r.value.reviewedAt == reviews[hitId].reviewedAt
  {
    if hitId in reviews then
      Some(ReviewView(reviews[hitId].result, OrUndefined(reviews[hitId].remark), reviews[hitId].reviewedAt))
    else None
  }

  function ViewOfHit(h: Hit, reviews: map<string, Review>): HitView {
    HitView(h.id, h.score, h.rewriteRisk, h.ruleHits, h.sectionType, h.explanation,
            DocSide(h.aDocId, h.aBidder, h.aPage, h.aSnippet),
            DocSide(h.bDocId, h.bBidder, h.bPage, h.bSnippet),
            ReviewOf(reviews, h.id))
  }

  /**
   * listHits: the matching hits of every job, in table order; entry k
   * carries the k-th selected hit's fields, both sides, and its review.
   */
  function ListHits(hits: seq<Hit>, reviews: map<string, Review>, f: HitFilters): (r: seq<HitView>)
    ensures |r| == |SelectHits(hits, f)|
    ensures forall k :: 0 <= k < |r| ==>
      var h := SelectHits(hits, f)[k];
      && HitMatches(f, h)
      && r[k].hitId == h.id && r[k].score == h.score && r[k].rewriteRisk == h.rewriteRisk
      && r[k].ruleHits == h.ruleHits && r[k].sectionType == h.sectionType && r[k].explanation == h.explanation
      && r[k].a == DocSide(h.aDocId, h.aBidder, h.aPage, h.aSnippet)
      && r[k].b == DocSide(h.bDocId, h.bBidder, h.bPage, h.bSnippet)
      && r[k].review == ReviewOf(reviews, h.id)
  {
    var selected := SelectHits(hits, f);
    assert forall k :: 0 <= k < |selected| ==> selected[k] in selected;
    Map(selected, (h: Hit) => ViewOfHit(h, reviews))
  }

  /** A view is listed exactly when it is the view of some stored hit that passes the filters. */
  lemma ListHitsIff(hits: seq<Hit>, reviews: map<string, Review>, f: HitFilters)
    ensures forall v :: v in ListHits(hits, reviews, f) <==>
      exists h :: h in hits && HitMatches(f, h) && v == ViewOfHit(h, reviews)
  {
    var selected := SelectHits(hits, f);
    var r := ListHits(hits, reviews, f);
    forall v | v in r
      ensures exists h :: h in hits && HitMatches(f, h) && v == ViewOfHit(h, reviews)
    {
      var k :| 0 <= k < |r| && r[k] == v;
      assert selected[k] in selected;
    }
    forall h | h in hits && HitMatches(f, h)
      ensures ViewOfHit(h, reviews) in r
    {
      var k :| 0 <= k < |selected| && selected[k] == h;
      assert r[k] == ViewOfHit(h, reviews);
    }
  }

  /** With no filter every stored hit is listed, in table order. */
  lemma ListHitsUnfiltered(hits: seq<Hit>, reviews: map<string, Review>)
    ensures |ListHits(hits, reviews, NoFilters)| == |hits|
    ensures forall k :: 0 <= k < |hits| ==> ListHits(hits, reviews, NoFilters)[k] == ViewOfHit(hits[k], reviews)
  {
    SelectHitsFacts(hits, [], NoFilters);
  }

  // ------------------------------------------------------------- listAnchors

  /** `x + y` on two numbers; the model gives no value to other operands. */
  function Plus(x: JsValue, y: JsValue): JsValue {
    if x.JsNum? && y.JsNum? then JsNum(x.n + y.n) else JsNull
  }

  /** An object item carrying the keys x, y, w and h. */
  predicate IsBoxObject(item: JsValue) {
    Truthy(item) && item.JsObject? && "x" in item.fields && "y" in item.fields && "w" in item.fields && "h" in item.fields
  }

  /** The `map` callback of normalize: a box, or null for an item it cannot read. */
  function BoxOf(item: JsValue): (r: Option<seq<JsValue>>)
    ensures r.Some? ==> |r.value| == 4
    ensures r.Some? <==> (item.JsArray? && |item.items| == 4) || IsBoxObject(item)
    ensures item.JsArray? && |item.items| == 4 ==> r == Some(item.items)
    ensures IsBoxObject(item) ==>
      r == Some([item.fields["x"], item.fields["y"],
                 Plus(item.fields["x"], item.fields["w"]), Plus(item.fields["y"], item.fields["h"])])
  {
    if item.JsArray? && |item.items| == 4 then Some(item.items)
    else if IsBoxObject(item) then
      var x, y, w, h := item.fields["x"], item.fields["y"], item.fields["w"], item.fields["h"];
      Some([x, y, Plus(x, w), Plus(y, h)])
    else None
  }

  /** `items.map(BoxOf).filter(Boolean)`: boxes are arrays, always truthy, and the nulls go. */
  function NormalizeItems(items: seq<JsValue>): (r: seq<seq<JsValue>>)
    ensures |r| <= |items|
    ensures forall k :: 0 <= k < |r| ==> |r[k]| == 4
  {
    if items == [] then []
    else
      var last := items[|items| - 1];
      NormalizeItems(items[..|items| - 1]) + (if BoxOf(last).Some? then [BoxOf(last).value] else [])
  }

  /** normalize: the bounding-box list of an anchor side; anything but an array gives []. */
  function Normalize(input: JsValue): (r: seq<seq<JsValue>>)
    ensures !input.JsArray? ==> r == []
    ensures input.JsArray? ==> |r| <= |input.items|
    ensures forall k :: 0 <= k < |r| ==> |r[k]| == 4
  {
    if input.JsArray? then NormalizeItems(input.items) else []
  }

  /** Normalising keeps the items' order: it distributes over concatenation. */
  lemma {:induction false} NormalizeAppend(a: seq<JsValue>, b: seq<JsValue>)
    ensures NormalizeItems(a + b) == NormalizeItems(a) + NormalizeItems(b)
    decreases |b|
  {
    if b == [] {
      assert a + b == a;
    } else {
      var c := a + b;
      assert c[..|c| - 1] == a + b[..|b| - 1];
      assert c[|c| - 1] == b[|b| - 1];
      NormalizeAppend(a, b[..|b| - 1]);
    }
  }

  /**
   * Nothing is dropped iff every item is readable, and then the k-th box
   * comes from the k-th item: 4-element arrays pass through unchanged and
   * {x, y, w, h} becomes [x, y, x + w, y + h].
   */
  lemma {:induction false} NormalizeKeepsAllIff(items: seq<JsValue>)
    ensures |NormalizeItems(items)| == |items| <==> forall k :: 0 <= k < |items| ==> BoxOf(items[k]).Some?
    ensures (forall k :: 0 <= k < |items| ==> BoxOf(items[k]).Some?) ==>
      forall k :: 0 <= k < |items| ==> NormalizeItems(items)[k] == BoxOf(items[k]).value
    decreases |items|
  {
    if items != [] {
      var init := items[..|items| - 1];
      NormalizeKeepsAllIff(init);
      assert forall k :: 0 <= k < |init| ==> init[k] == items[k];
    }
  }

  /** An {x, y, w, h} object of numbers becomes the corner box [x, y, x + w, y + h]. */
  lemma NormalizeObjectBox(x: real, y: real, w: real, h: real)
    ensures Normalize(JsArray([JsObject(map["x" := JsNum(x), "y" := JsNum(y), "w" := JsNum(w), "h" := JsNum(h)])]))
         == [[JsNum(x), JsNum(y), JsNum(x + w), JsNum(y + h)]]
  {
    var item := JsObject(map["x" := JsNum(x), "y" := JsNum(y), "w" := JsNum(w), "h" := JsNum(h)]);
    assert [item][..0] == [];
  }

  datatype AnchorSide = AnchorSide(page: int, bboxList: seq<seq<JsValue>>, snippet: string)

  datatype AnchorView = AnchorView(a: AnchorSide, b: AnchorSide)

  function ViewOfAnchor(an: Anchor): AnchorView {
    AnchorView(AnchorSide(an.aPage, Normalize(an.aBboxList), an.aSnippet),
               AnchorSide(an.bPage, Normalize(an.bBboxList), an.bSnippet))
  }

  /** `anchor.findMany({ where: { hitId } })`: the hit's anchors in table order. */
  function AnchorsOf(anchors: seq<Anchor>, hitId: string): seq<Anchor> {
    Filter(anchors, (an: Anchor) => an.hitId == hitId)
  }

  /**
   * listAnchors: one entry per anchor of the hit, in table order, with the
   * pages and snippets copied and both bounding-box lists normalised.
   */
  function ListAnchors(anchors: seq<Anchor>, hitId: string): (r: seq<AnchorView>)
    ensures |r| == |AnchorsOf(anchors, hitId)|
    ensures forall k :: 0 <= k < |r| ==>
      var an := AnchorsOf(anchors, hitId)[k];
      && an in anchors && an.hitId == hitId
      && r[k].a == AnchorSide(an.aPage, Normalize(an.aBboxList), an.aSnippet)
      && r[k].b == AnchorSide(an.bPage, Normalize(an.bBboxList), an.bSnippet)
    ensures forall k, m :: 0 <= k < |r| && 0 <= m < |r[k].a.bboxList| ==> |r[k].a.bboxList[m]| == 4
    ensures forall k, m :: 0 <= k < |r| && 0 <= m < |r[k].b.bboxList| ==> |r[k].b.bboxList[m]| == 4
  {
    var selected := AnchorsOf(anchors, hitId);
    assert forall k :: 0 <= k < |selected| ==> selected[k] in selected;
    Map(selected, ViewOfAnchor)
  }

  /**
   * Listing keeps table order (it distributes over concatenation), and an
   * anchor of another hit is never listed.
   */
  lemma ListAnchorsAppend(a: seq<Anchor>, b: seq<Anchor>, hitId: string)
    ensures ListAnchors(a + b, hitId) == ListAnchors(a, hitId) + ListAnchors(b, hitId)
    ensures forall an: Anchor :: an.hitId != hitId ==> ListAnchors(a + [an], hitId) == ListAnchors(a, hitId)
  {
    FilterAppend(a, b, (an: Anchor) => an.hitId == hitId);
    MapAppend(AnchorsOf(a, hitId), AnchorsOf(b, hitId), ViewOfAnchor);
    forall an: Anchor | an.hitId != hitId
      ensures ListAnchors(a + [an], hitId) == ListAnchors(a, hitId)
    {
      FilterAppend(a, [an], (x: Anchor) => x.hitId == hitId);
      assert AnchorsOf([an], hitId) == [];
      assert AnchorsOf(a + [an], hitId) == AnchorsOf(a, hitId);
    }
  }

  // ------------------------------------------------------------ upsertReview

  /** The review table after an upsert keyed by hitId. */
  function Upserted(reviews: map<string, Review>, hitId: string, result: string, remark: Option<string>, now: int)
    : (r: map<string, Review>)
    ensures r.Keys == reviews.Keys + {hitId}
    ensures forall h :: h in reviews && h != hitId ==> r[h] == reviews[h]
    ensures r[hitId].result == result && r[hitId].remark == OrNull(remark) && r[hitId].reviewedAt == now
    ensures r[hitId].id == if hitId in reviews then reviews[hitId].id else "review-" + hitId
    ensures hitId !in reviews ==> r[hitId].hitId == hitId
  {
    if hitId in reviews then
      reviews[hitId := reviews[hitId].(result := result, remark := OrNull(remark), reviewedAt := now)]
    else
      reviews[hitId := Review("review-" + hitId, hitId, result, OrNull(remark), now)]
  }

  /**
   * upsertReview: the hit's one review now carries the given result and
   * remark. The review's hitId is a relation to the hit table, so an upsert
   * for a hit id no hit has throws before anything is written.
   */
  method UpsertReview(db: Db, hitId: string, result: string, remark: Option<string>, now: int)
    returns (r: Result<Review, Thrown>)
    modifies db
    ensures !HasHit(old(db.hits), hitId) ==> r == Err(ForeignKeyConstraintFailed) && db.State() == old(db.State())
    ensures HasHit(old(db.hits), hitId) ==>
      && db.reviews == Upserted(old(db.reviews), hitId, result, remark, now)
      && r == Ok(db.reviews[hitId])
      && db.State() == old(db.State()).(reviews := db.reviews)
  {
    if !HasHit(db.hits, hitId) {
      return Err(ForeignKeyConstraintFailed);
    }
    db.reviews := Upserted(db.reviews, hitId, result, remark, now);
    r := Ok(db.reviews[hitId]);
  }

  /** Every stored review hangs off a stored hit. */
  predicate ReviewsOnHits(reviews: map<string, Review>, hits: seq<Hit>) {
    forall h :: h in reviews ==> HasHit(hits, h)
  }

  /** An upsert that succeeds keeps every review attached to a stored hit. */
  lemma UpsertKeepsReviewsOnHits(reviews: map<string, Review>, hits: seq<Hit>, hitId: string,
                                 result: string, remark: Option<string>, now: int)
    requires ReviewsOnHits(reviews, hits) && HasHit(hits, hitId)
    ensures ReviewsOnHits(Upserted(reviews, hitId, result, remark, now), hits)
  {
    var after := Upserted(reviews, hitId, result, remark, now);
    forall h | h in after
      ensures HasHit(hits, h)
    {
      assert h in reviews.Keys + {hitId};
    }
  }

  /** A second upsert on the same hit overwrites the first and keeps the review's id. */
  lemma UpsertLastWriteWins(reviews: map<string, Review>, hitId: string,
                            result1: string, remark1: Option<string>, t1: int,
                            result2: string, remark2: Option<string>, t2: int)
    ensures var once := Upserted(reviews, hitId, result1, remark1, t1);
      && Upserted(once, hitId, result2, remark2, t2) == Upserted(reviews, hitId, result2, remark2, t2)
      && once[hitId].id == Upserted(once, hitId, result2, remark2, t2)[hitId].id
  {
    var once := Upserted(reviews, hitId, result1, remark1, t1);
    var twice := Upserted(once, hitId, result2, remark2, t2);
    var direct := Upserted(reviews, hitId, result2, remark2, t2);
    assert twice.Keys == direct.Keys;
    assert twice[hitId] == direct[hitId];
  }

  // --------------------------------------------------------------- getReport

  datatype Report = Report(jobId: string, reportId: string, status: string)

  /** getReport: the report of a job is named `report-<jobId>` and always reads SUCCESS. */
  function GetReport(jobId: string): (r: Report)
    ensures r.jobId == jobId && r.status == "SUCCESS"
    ensures StartsWith(r.reportId, "report-") && r.reportId[|"report-"|..] == jobId
  {
    Report(jobId, "report-" + jobId, "SUCCESS")
  }

  // ----------------------------------------------------------------- failJob

  /** The assumed effect of failJob on every row whose id is in `ids`: FAILED with the message (the specification of FailJob). */
  function FailJobs(jobs: seq<Job>, ids: set<string>, message: string): (r: seq<Job>)
    ensures |r| == |jobs|
    ensures forall k :: 0 <= k < |r| ==>
      r[k] == if jobs[k].id in ids then jobs[k].(status := JobStatus.Failed, error := NonNull(message)) else jobs[k]
  {
    seq(|jobs|, k requires 0 <= k < |jobs| =>
      if jobs[k].id in ids then jobs[k].(status := JobStatus.Failed, error := NonNull(message)) else jobs[k])
  }

  /** Failing with one message is idempotent, so successive fails merge into one. */
  lemma FailJobsMerge(jobs: seq<Job>, s: set<string>, t: set<string>, message: string)
    ensures FailJobs(FailJobs(jobs, s, message), t, message) == FailJobs(jobs, s + t, message)
  {
  }

  /** failJob(jobId, message): status FAILED and error = message; nothing else is assumed. Specified by FailJobs. */
  method FailJob(db: Db, jobId: string, message: string)
    modifies db
    ensures db.State() == old(db.State()).(jobs := FailJobs(old(db.jobs), {jobId}, message))
  {
    db.jobs := FailJobs(db.jobs, {jobId}, message);
  }
}
