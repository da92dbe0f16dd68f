/** LIMIT-aware acquisition: source-order batches until OFFSET + LIMIT rows match. */
module LimitAcquisition {
  import opened Options
  import opened Lists
  import opened Acquisition
  import L = LightweightTruth

  const LIMIT_BATCH := 25

  type Row = L.Record

  /** WHERE on the rows of one source.  Batches are counted on the rows as acquired
      (plain); the final evaluation reads them with what the enumeration shows laid over
      (overlaid) and a source_index.  resolves: a batch's records resolve the query. */
  datatype Evaluation = Evaluation(truth: Row -> bool, plain: Record -> Row, overlaid: Record -> Row,
                                   resolves: seq<Record> -> bool) {
    predicate Counts(r: Record) { truth(plain(r)) }

    function Final(r: Record, i: int): Row { overlaid(r)[L.SourceIndex := L.Number(i as real)] }

    predicate Keeps(r: Record, i: int) { truth(Final(r, i)) }
  }

  /** The rows the final evaluation keeps among the first n, numbered from one. */
  function Results(e: Evaluation, raw: seq<Record>, n: nat): seq<Row>
    requires n <= |raw|
  {
    if n == 0 then []
    else Results(e, raw, n - 1) + if e.Keeps(raw[n - 1], n) then [e.Final(raw[n - 1], n)] else []
  }

  function Counted(e: Evaluation, raw: seq<Record>): nat { |Kept(raw, r => e.Counts(r))| }

  /** rows[offset : offset + limit]. */
  function Slice(rows: seq<Row>, offset: nat, limit: nat): seq<Row> {
    if |rows| <= offset then []
    else if |rows| <= offset + limit then rows[offset..]
    else rows[offset..offset + limit]
  }

  function End(k: nat, count: nat): nat { if LIMIT_BATCH * k <= count then LIMIT_BATCH * k else count }

  function Batch(ids: seq<int>, k: nat): seq<int>
    requires k > 0
  {
    ids[End(k - 1, |ids|)..End(k, |ids|)]
  }

  type Fetch = seq<int> -> seq<Record>

  function Refresh(q: Request, b: Backends, ids: seq<int>): seq<Record> { Rows(q, Fetched(q, b, ids), ids) }

  /** fetch is what a call of cache-first refresh returns. */
  ghost predicate CachesFirst(q: Request, b: Backends, fetch: Fetch) {
    forall ids {:trigger Refresh(q, b, ids)} :: fetch(ids) == Refresh(q, b, ids)
  }

  /** Raw records after k batches. */
  function Acquired(fetch: Fetch, ids: seq<int>, k: nat): seq<Record> {
    if k == 0 then [] else Acquired(fetch, ids, k - 1) + fetch(Batch(ids, k))
  }

  function MatchesIn(e: Evaluation, batch: seq<Record>): nat {
    if e.resolves(batch) then Counted(e, batch) else 0
  }

  /** Matches counted after k batches. */
  function Matched(e: Evaluation, fetch: Fetch, ids: seq<int>, k: nat): nat {
    if k == 0 then 0 else Matched(e, fetch, ids, k - 1) + MatchesIn(e, fetch(Batch(ids, k)))
  }

  function Sum(a: Stats, b: Stats): Stats {
    Stats(a.examined + b.examined, a.hits + b.hits, a.stale + b.stale, a.misses + b.misses, a.refreshed + b.refreshed)
  }

  /** _limit_aware_cached_acquire: stops after the first batch that completes
      OFFSET + LIMIT counted matches, otherwise after the last id. */
  method LimitAware(e: Evaluation, q: Request, b: Backends, ids: seq<int>, required: nat, ghost fetch: Fetch)
    returns (raw: seq<Record>, stats: Stats, terminated: bool, batches: nat, examined: nat)
    requires CachesFirst(q, b, fetch)
    ensures raw == Acquired(fetch, ids, batches) && examined == End(batches, |ids|)
    ensures terminated <==> batches > 0 && Matched(e, fetch, ids, batches) >= required
    ensures StopsAt(e, fetch, ids, required, batches)
    ensures !terminated ==> examined == |ids|
    ensures stats.examined == (if q.cache.Some? then examined else 0)
    ensures stats.hits + stats.stale + stats.misses == stats.examined
  {
    raw, stats, batches, examined := [], Stats(0, 0, 0, 0, 0), 0, 0;
    var matched := 0;
    while examined < |ids|
      invariant examined == End(batches, |ids|)
      invariant raw == Acquired(fetch, ids, batches) && matched == Matched(e, fetch, ids, batches)
      invariant forall k | 0 < k <= batches :: Matched(e, fetch, ids, k) < required
      invariant stats.examined == (if q.cache.Some? then examined else 0)
      invariant stats.hits + stats.stale + stats.misses == stats.examined
    {
      batches := batches + 1;
      var batch := ids[examined..End(batches, |ids|)];
      var records, part, count := TakeBatch(e, q, b, batch, fetch);
      stats := Sum(stats, part);
      raw := raw + records;
      examined := examined + |batch|;
      matched := matched + count;
      if matched >= required {
        return raw, stats, true, batches, examined;
      }
    }
    terminated := false;
  }

  method TakeBatch(e: Evaluation, q: Request, b: Backends, batch: seq<int>, ghost fetch: Fetch)
    returns (records: seq<Record>, part: Stats, count: nat)
    requires CachesFirst(q, b, fetch)
    ensures records == fetch(batch) && count == MatchesIn(e, records)
    ensures part.examined == (if q.cache.Some? then |batch| else 0)
    ensures part.hits + part.stale + part.misses == part.examined
  {
    records, part := CachedOrRefresh(q, b, batch);
    assert records == Refresh(q, b, batch);
    CountsAreConserved(q, batch);
    count := if e.resolves(records) then Counted(e, records) else 0;
  }

  // ---- Against exhaustive acquisition -----------------------------------------------------

  lemma {:induction false} ResultsPrefix(e: Evaluation, raw: seq<Record>, more: seq<Record>, n: nat)
    requires n <= |raw|
    ensures Results(e, raw + more, n) == Results(e, raw, n)
  {
    if n > 0 {
      ResultsPrefix(e, raw, more, n - 1);
    }
  }

  lemma {:induction false} ResultsGrow(e: Evaluation, raw: seq<Record>, n: nat, m: nat)
    requires n <= m <= |raw|
    ensures Results(e, raw, n) <= Results(e, raw, m)
  {
    if n < m {
      ResultsGrow(e, raw, n, m - 1);
    }
  }

  lemma {:induction false} MatchedAreCounted(e: Evaluation, fetch: Fetch, ids: seq<int>, k: nat)
    ensures Matched(e, fetch, ids, k) <= Counted(e, Acquired(fetch, ids, k))
    ensures (forall batch {:trigger e.resolves(batch)} :: e.resolves(batch)) ==>
              Matched(e, fetch, ids, k) == Counted(e, Acquired(fetch, ids, k))
  {
    if k > 0 {
      MatchedAreCounted(e, fetch, ids, k - 1);
      KeptAppend(Acquired(fetch, ids, k - 1), fetch(Batch(ids, k)), r => e.Counts(r));
    }
  }

  /** The rows a fetch gives that looks up every id on its own. */
  function RowsBy(rows: int -> Option<Record>, ids: seq<int>): (got: seq<Record>)
    ensures |got| <= |ids|
  {
    if ids == [] then []
    else
      var row := rows(ids[|ids| - 1]);
      RowsBy(rows, ids[..|ids| - 1]) + if row.Some? then [row.value] else []
  }

  lemma {:induction false} RowsByAppend(rows: int -> Option<Record>, x: seq<int>, y: seq<int>)
    ensures RowsBy(rows, x + y) == RowsBy(rows, x) + RowsBy(rows, y)
  {
    if y == [] {
      assert x + y == x;
    } else {
      assert (x + y)[..|x + y| - 1] == x + y[..|y| - 1];
      RowsByAppend(rows, x, y[..|y| - 1]);
    }
  }

  ghost predicate OneByOne(rows: int -> Option<Record>, fetch: Fetch) {
    forall ids {:trigger fetch(ids)} :: fetch(ids) == RowsBy(rows, ids)
  }

  /** A fetch that answers each id on its own. */
  ghost predicate Alone(q: Request, a: Answers, fetch: Fetch) {
    forall ids {:trigger fetch(ids)} :: fetch(ids) == RowsAlone(q, a, ids)
  }

  /** Cache-first refresh does, whatever else is asked for in the same call. */
  lemma CacheFirstIsAlone(q: Request, a: Answers, fetch: Fetch)
    requires CachesFirst(q, PerId(a), fetch)
    ensures Alone(q, a, fetch)
  {
    forall ids ensures fetch(ids) == RowsAlone(q, a, ids) {
      RowsAreAlone(q, a, ids, ids);
      assert fetch(ids) == Refresh(q, PerId(a), ids);
    }
  }

  lemma {:induction false} AloneIsOneByOne(q: Request, a: Answers, ids: seq<int>, rows: int -> Option<Record>)
    requires forall id {:trigger rows(id)} :: rows(id) == RowAlone(q, a, id)
    ensures RowsAlone(q, a, ids) == RowsBy(rows, ids)
  {
    if ids != [] {
      AloneIsOneByOne(q, a, ids[..|ids| - 1], rows);
    }
  }

  /** Batching does not change what is acquired for the ids it reaches. */
  lemma {:induction false} AcquiredOneByOne(rows: int -> Option<Record>, fetch: Fetch, ids: seq<int>, k: nat)
    requires OneByOne(rows, fetch)
    ensures Acquired(fetch, ids, k) == RowsBy(rows, ids[..End(k, |ids|)])
  {
    if k > 0 {
      AcquiredOneByOne(rows, fetch, ids, k - 1);
      assert ids[..End(k, |ids|)] == ids[..End(k - 1, |ids|)] + Batch(ids, k);
      RowsByAppend(rows, ids[..End(k - 1, |ids|)], Batch(ids, k));
    }
  }

  /** Where LimitAware stops: at the first batch that completes the count, or at the end. */
  ghost predicate StopsAt(e: Evaluation, fetch: Fetch, ids: seq<int>, required: nat, k: nat) {
    && (End(k, |ids|) == |ids| || Matched(e, fetch, ids, k) >= required)
    && forall m: nat {:trigger Matched(e, fetch, ids, m)} | 0 < m < k :: Matched(e, fetch, ids, m) < required
  }

  function AllResults(e: Evaluation, raw: seq<Record>): seq<Row> { Results(e, raw, |raw|) }

  /** The rows after OFFSET and LIMIT are those of acquiring every candidate at once. */
  predicate SameSlice(e: Evaluation, part: seq<Record>, whole: seq<Record>, offset: nat, limit: nat) {
    Slice(AllResults(e, part), offset, limit) == Slice(AllResults(e, whole), offset, limit)
  }

  /** The first n rows have a result for each one that batches count, or every result
      of the source. */
  predicate Covers(e: Evaluation, whole: seq<Record>, n: nat)
    requires n <= |whole|
  {
    Counted(e, whole[..n]) <= |Results(e, whole, n)| || Results(e, whole, n) == AllResults(e, whole)
  }

  ghost predicate CountSafe(e: Evaluation, whole: seq<Record>) {
    forall n: nat {:trigger Covers(e, whole, n)} | n <= |whole| :: Covers(e, whole, n)
  }

  /** Batching refines exhaustive acquisition, for any stop that LimitAware makes. */
  lemma BatchingRefinesExhaustive(e: Evaluation, rows: int -> Option<Record>, fetch: Fetch,
                                  ids: seq<int>, offset: nat, limit: nat, k: nat)
    requires CountSafe(e, fetch(ids)) && OneByOne(rows, fetch) && StopsAt(e, fetch, ids, offset + limit, k)
    ensures SameSlice(e, Acquired(fetch, ids, k), fetch(ids), offset, limit)
  {
    AcquiredOneByOne(rows, fetch, ids, k);
    MatchedAreCounted(e, fetch, ids, k);
    assert ids == ids[..End(k, |ids|)] + ids[End(k, |ids|)..];
    RowsByAppend(rows, ids[..End(k, |ids|)], ids[End(k, |ids|)..]);
    var part, rest := Acquired(fetch, ids, k), RowsBy(rows, ids[End(k, |ids|)..]);
    StopKeepsSlice(e, part, rest, offset, limit);
  }

  lemma StopKeepsSlice(e: Evaluation, part: seq<Record>, rest: seq<Record>, offset: nat, limit: nat)
    requires Covers(e, part + rest, |part|) && (rest == [] || Counted(e, part) >= offset + limit)
    ensures SameSlice(e, part, part + rest, offset, limit)
  {
    if rest == [] {
      assert part + rest == part;
    } else {
      assert (part + rest)[..|part|] == part;
      ResultsPrefix(e, part, rest, |part|);
      ResultsGrow(e, part + rest, |part|, |part + rest|);
    }
  }

  // ---- Exactness for one source --------------------------------------------------------------

  /** A stop of LimitAware on candidates looked up one by one in rows. */
  datatype Stop = Stop(rows: int -> Option<Record>, ids: seq<int>, resolves: seq<Record> -> bool,
                       offset: nat, limit: nat, k: nat)

  /** whole is what the candidates of s give: each is asked for once, its row, if it
      has one, carries its id. */
  ghost predicate Gives(s: Stop, whole: seq<Record>) {
    && NoDuplicates(s.ids)
    && (forall id {:trigger s.rows(id)} :: s.rows(id).Some? ==> s.rows(id).value.id == Some(id))
    && RowsBy(s.rows, s.ids) == whole
  }

  ghost predicate Exact(e: Evaluation, s: Stop) {
    var fetch := ids => RowsBy(s.rows, ids);
    StopsAt(e.(resolves := s.resolves), fetch, s.ids, s.offset + s.limit, s.k) ==>
    SameSlice(e, Acquired(fetch, s.ids, s.k), fetch(s.ids), s.offset, s.limit)
  }

  function Ids(rows: seq<Record>): seq<int>
    requires DistinctIds(rows)
  {
    seq(|rows|, i requires 0 <= i < |rows| => rows[i].id.value)
  }

  function Lookup(rows: seq<Record>): int -> Option<Record> { id => LastOf(rows, id, |rows|) }

  lemma LookupFacts(whole: seq<Record>, id: int)
    requires DistinctIds(whole)
    ensures Lookup(whole)(id).Some? <==> id in Ids(whole)
    ensures Lookup(whole)(id).Some? ==> Lookup(whole)(id).value.id == Some(id)
    ensures forall i | 0 <= i < |whole| && whole[i].id == Some(id) :: Lookup(whole)(id) == Some(whole[i])
  {
    LastOfIs(whole, id, |whole|);
    if id in IdsOf(whole, |whole|) {
      var i :| 0 <= i < |whole| && whole[i].id == Some(id);
      assert Ids(whole)[i] == id;
    }
  }

  lemma {:induction false} LookupRows(whole: seq<Record>, n: nat, m: nat)
    requires DistinctIds(whole) && n <= m <= |whole|
    ensures RowsBy(Lookup(whole), Ids(whole)[n..m]) == whole[n..m]
  {
    if n < m {
      LookupRows(whole, n, m - 1);
      var part := Ids(whole)[n..m];
      assert part[..|part| - 1] == Ids(whole)[n..m - 1] && part[|part| - 1] == whole[m - 1].id.value;
      LookupFacts(whole, whole[m - 1].id.value);
      assert whole[n..m] == whole[n..m - 1] + [whole[m - 1]];
    }
  }

  /** Every id of whole is below the bound. */
  function Bound(whole: seq<Record>, n: nat): int
    requires n <= |whole|
  {
    if n == 0 then 0
    else
      var b, id := Bound(whole, n - 1), whole[n - 1].id;
      if id.Some? && id.value >= b then id.value + 1 else b
  }

  lemma {:induction false} BoundIsAbove(whole: seq<Record>, n: nat, i: nat)
    requires i < n <= |whole| && whole[i].id.Some?
    ensures whole[i].id.value < Bound(whole, n)
  {
    if i < n - 1 {
      BoundIsAbove(whole, n - 1, i);
    }
  }

  /** Unavailable videos, to fill a batch. */
  function Missing(first: int, n: nat): seq<int> { seq(n, i => first + i) }

  lemma {:induction false} MissingRows(whole: seq<Record>, n: nat)
    requires DistinctIds(whole)
    ensures RowsBy(Lookup(whole), Missing(Bound(whole, |whole|), n)) == []
  {
    if n > 0 {
      MissingRows(whole, n - 1);
      var first := Bound(whole, |whole|);
      assert Missing(first, n)[..n - 1] == Missing(first, n - 1);
      LookupFacts(whole, first + n - 1);
      if first + n - 1 in Ids(whole) {
        var i :| 0 <= i < |whole| && Ids(whole)[i] == first + n - 1;
        BoundIsAbove(whole, |whole|, i);
      }
    }
  }

  /** The first n rows of whole, unavailable videos up to the end of a batch, and the rest. */
  function LosingStop(e: Evaluation, whole: seq<Record>, n: nat): Stop
    requires DistinctIds(whole) && n <= |whole|
  {
    var k := (n + LIMIT_BATCH - 1) / LIMIT_BATCH;
    Stop(Lookup(whole), Ids(whole)[..n] + Missing(Bound(whole, |whole|), LIMIT_BATCH * k - n) + Ids(whole)[n..],
         _ => true, 0, Counted(e, whole[..n]), k)
  }

  lemma LosingGives(e: Evaluation, whole: seq<Record>, n: nat, s: Stop)
    requires DistinctIds(whole) && n <= |whole| && s == LosingStop(e, whole, n)
    ensures Gives(s, whole)
    ensures LIMIT_BATCH * s.k <= |s.ids| && RowsBy(s.rows, s.ids[..LIMIT_BATCH * s.k]) == whole[..n]
  {
    var front, pads := Ids(whole)[..n], Missing(Bound(whole, |whole|), LIMIT_BATCH * s.k - n);
    PartsGive(whole, n, pads);
    assert s.ids[..LIMIT_BATCH * s.k] == front + pads;
    LosingIdsAreDistinct(whole, n, pads);
    forall id ensures s.rows(id).Some? ==> s.rows(id).value.id == Some(id) {
      LookupFacts(whole, id);
    }
  }

  lemma PartsGive(whole: seq<Record>, n: nat, pads: seq<int>)
    requires DistinctIds(whole) && n <= |whole| && pads == Missing(Bound(whole, |whole|), |pads|)
    ensures RowsBy(Lookup(whole), Ids(whole)[..n] + pads) == whole[..n]
    ensures RowsBy(Lookup(whole), Ids(whole)[..n] + pads + Ids(whole)[n..]) == whole
  {
    var ids := Ids(whole);
    CutAt(ids, n);
    CutAt(whole, n);
    MissingRows(whole, |pads|);
    LookupRows(whole, 0, n);
    LookupRows(whole, n, |whole|);
    Inserted(Lookup(whole), ids[..n], pads, ids[n..]);
  }

  lemma CutAt<T>(q: seq<T>, n: nat)
    requires n <= |q|
    ensures q[0..n] == q[..n] && q[n..|q|] == q[n..] && q[..n] + q[n..] == q
  {
  }

  lemma Inserted(rows: int -> Option<Record>, front: seq<int>, pads: seq<int>, back: seq<int>)
    requires RowsBy(rows, pads) == []
    ensures RowsBy(rows, front + pads) == RowsBy(rows, front)
    ensures RowsBy(rows, front + pads + back) == RowsBy(rows, front) + RowsBy(rows, back)
  {
    RowsByAppend(rows, front, pads);
    RowsByAppend(rows, front + pads, back);
  }

  lemma LosingStarts(e: Evaluation, whole: seq<Record>, n: nat, s: Stop, j: nat)
    requires DistinctIds(whole) && n <= |whole| && s == LosingStop(e, whole, n) && j <= n
    ensures j <= |s.ids| && RowsBy(s.rows, s.ids[..j]) == whole[..j]
  {
    LookupRows(whole, 0, j);
    assert s.ids[..j] == Ids(whole)[0..j];
  }

  lemma LosingIdsAreDistinct(whole: seq<Record>, n: nat, pads: seq<int>)
    requires DistinctIds(whole) && n <= |whole| && pads == Missing(Bound(whole, |whole|), |pads|)
    ensures NoDuplicates(Ids(whole)[..n] + pads + Ids(whole)[n..])
  {
    var bound, ids := Bound(whole, |whole|), Ids(whole);
    forall i | 0 <= i < |ids| ensures ids[i] < bound {
      BoundIsAbove(whole, |whole|, i);
    }
    forall i, j | 0 <= i < j < |ids| ensures ids[i] != ids[j] {
      assert whole[i].id != whole[j].id;
    }
    InsertedAreDistinct(ids, n, pads, bound);
  }

  lemma InsertedAreDistinct(ids: seq<int>, n: nat, pads: seq<int>, bound: int)
    requires n <= |ids| && NoDuplicates(ids) && NoDuplicates(pads)
    requires (forall i | 0 <= i < |ids| :: ids[i] < bound) && forall i | 0 <= i < |pads| :: pads[i] >= bound
    ensures NoDuplicates(ids[..n] + pads + ids[n..])
  {
    var all := ids[..n] + pads + ids[n..];
    forall i, j | 0 <= i < j < |all| ensures all[i] != all[j] {
      if j < n {
      } else if j < n + |pads| {
        assert all[j] == pads[j - n];
        assert all[i] == if i < n then ids[i] else pads[i - n];
      } else {
        assert all[j] == ids[j - |pads|];
        assert all[i] == if i < n then ids[i] else if i < n + |pads| then pads[i - n] else ids[i - |pads|];
      }
    }
  }

  lemma {:induction false} CountedGrows(e: Evaluation, whole: seq<Record>, n: nat, m: nat)
    requires n <= m <= |whole|
    ensures Counted(e, whole[..n]) <= Counted(e, whole[..m])
  {
    if n < m {
      CountedGrows(e, whole, n, m - 1);
      assert whole[..m][..m - 1] == whole[..m - 1];
    }
  }

  /** Where the count of the first n rows is reached. */
  lemma {:induction false} Reached(e: Evaluation, whole: seq<Record>, n: nat) returns (m: nat)
    requires n <= |whole| && Counted(e, whole[..n]) > 0
    ensures 0 < m <= n && Counted(e, whole[..m]) == Counted(e, whole[..n])
    ensures forall j: nat {:trigger whole[..j]} | j < m :: Counted(e, whole[..j]) < Counted(e, whole[..m])
  {
    assert n > 0 && whole[..n][..n - 1] == whole[..n - 1];
    if Counted(e, whole[..n - 1]) == Counted(e, whole[..n]) {
      m := Reached(e, whole, n - 1);
    } else {
      m := n;
      forall j: nat | j < m ensures Counted(e, whole[..j]) < Counted(e, whole[..m]) {
        CountedGrows(e, whole, j, n - 1);
        CountedGrows(e, whole, n - 1, n);
      }
    }
  }

  lemma LosingStops(e: Evaluation, whole: seq<Record>, m: nat, s: Stop, fetch: Fetch)
    requires DistinctIds(whole) && 0 < m <= |whole| && s == LosingStop(e, whole, m) && OneByOne(s.rows, fetch)
    requires forall j: nat {:trigger whole[..j]} | j < m :: Counted(e, whole[..j]) < Counted(e, whole[..m])
    ensures StopsAt(e.(resolves := s.resolves), fetch, s.ids, s.limit, s.k)
    ensures Acquired(fetch, s.ids, s.k) == whole[..m] && fetch(s.ids) == whole
  {
    var d := e.(resolves := s.resolves);
    LosingGives(e, whole, m, s);
    AcquiredOneByOne(s.rows, fetch, s.ids, s.k);
    MatchedAreCounted(d, fetch, s.ids, s.k);
    SameCount(e, d, whole[..m]);
    forall j: nat | 0 < j < s.k ensures Matched(d, fetch, s.ids, j) < s.limit {
      AcquiredOneByOne(s.rows, fetch, s.ids, j);
      MatchedAreCounted(d, fetch, s.ids, j);
      assert End(j, |s.ids|) == LIMIT_BATCH * j < m;
      LosingStarts(e, whole, m, s, LIMIT_BATCH * j);
      SameCount(e, d, whole[..LIMIT_BATCH * j]);
    }
  }

  lemma SameCount(e: Evaluation, d: Evaluation, raw: seq<Record>)
    requires d == e.(resolves := d.resolves)
    ensures Counted(d, raw) == Counted(e, raw)
  {
    KeptSame(raw, r => d.Counts(r), r => e.Counts(r));
  }

  /** On the rows of a source, batching gives the rows of exhaustive acquisition at every
      stop, wherever unavailable videos lie between them and whatever OFFSET and LIMIT
      are, exactly when the counts are safe. */
  lemma BatchingIsExactExactly(e: Evaluation, whole: seq<Record>)
    requires DistinctIds(whole)
    ensures (forall s: Stop {:trigger Gives(s, whole)} :: Gives(s, whole) ==> Exact(e, s)) <==> CountSafe(e, whole)
  {
    if CountSafe(e, whole) {
      forall s: Stop | Gives(s, whole) ensures Exact(e, s) {
        SafeIsExact(e, whole, s);
      }
    } else {
      var n: nat :| n <= |whole| && !Covers(e, whole, n);
      var s := UnsafeLoses(e, whole, n);
    }
  }

  lemma SafeIsExact(e: Evaluation, whole: seq<Record>, s: Stop)
    requires CountSafe(e, whole) && Gives(s, whole)
    ensures Exact(e, s)
  {
    var d, fetch := e.(resolves := s.resolves), ids => RowsBy(s.rows, ids);
    if StopsAt(d, fetch, s.ids, s.offset + s.limit, s.k) {
      forall n: nat | n <= |whole| ensures Covers(d, whole, n) {
        assert Covers(e, whole, n);
        SameCovers(e, d, whole, n);
      }
      BatchingRefinesExhaustive(d, s.rows, fetch, s.ids, s.offset, s.limit, s.k);
      SameResults(e, d, Acquired(fetch, s.ids, s.k), |Acquired(fetch, s.ids, s.k)|);
      SameResults(e, d, whole, |whole|);
    }
  }

  lemma {:induction false} SameResults(e: Evaluation, d: Evaluation, raw: seq<Record>, n: nat)
    requires n <= |raw| && d == e.(resolves := d.resolves)
    ensures Results(d, raw, n) == Results(e, raw, n)
  {
    if n > 0 {
      SameResults(e, d, raw, n - 1);
    }
  }

  lemma SameCovers(e: Evaluation, d: Evaluation, whole: seq<Record>, n: nat)
    requires n <= |whole| && d == e.(resolves := d.resolves)
    ensures Covers(d, whole, n) == Covers(e, whole, n)
  {
    SameResults(e, d, whole, n);
    SameResults(e, d, whole, |whole|);
    SameCount(e, d, whole[..n]);
  }

  lemma UnsafeLoses(e: Evaluation, whole: seq<Record>, n: nat) returns (s: Stop)
    requires DistinctIds(whole) && n <= |whole| && !Covers(e, whole, n)
    ensures Gives(s, whole) && !Exact(e, s)
  {
    var m := Reached(e, whole, n);
    s := LosingStop(e, whole, m);
    var fetch := ids => RowsBy(s.rows, ids);
    LosingGives(e, whole, m, s);
    LosingStops(e, whole, m, s, fetch);
    ResultsGrow(e, whole, m, n);
    ResultsGrow(e, whole, n, |whole|);
    assert whole[..m] + whole[m..] == whole;
    ResultsPrefix(e, whole[..m], whole[m..], m);
  }

  // ---- Exactness row by row -------------------------------------------------------------------

  /** Counted in a batch, no result at index i. */
  predicate Miscounted(e: Evaluation, r: Record, i: int) { e.Counts(r) && !e.Keeps(r, i) }

  /** A row counted in a batch is a result after the overlay at the index it gets, or
      nothing after that index is a result. */
  ghost predicate RowSafe(e: Evaluation) {
    forall r: Record, i: int {:trigger Miscounted(e, r, i)} :: i > 0 && Miscounted(e, r, i) ==> NoneAfter(e, i)
  }

  ghost predicate NoneAfter(e: Evaluation, i: int) {
    forall x: Record, j: int {:trigger e.Keeps(x, j)} :: j > i ==> !e.Keeps(x, j)
  }

  /** The same of the rows of one source. */
  ghost predicate RowsSafe(e: Evaluation, whole: seq<Record>) {
    forall i, j | 0 <= i < j < |whole| :: Miscounted(e, whole[i], i + 1) ==> !e.Keeps(whole[j], j + 1)
  }

  lemma {:induction false} CountedAreResults(e: Evaluation, raw: seq<Record>, n: nat)
    requires n <= |raw| && forall i | 0 <= i < n :: !Miscounted(e, raw[i], i + 1)
    ensures |Results(e, raw, n)| >= Counted(e, raw[..n])
  {
    if n > 0 {
      CountedAreResults(e, raw, n - 1);
      assert raw[..n][..n - 1] == raw[..n - 1] && !Miscounted(e, raw[n - 1], n);
    }
  }

  lemma {:induction false} NoMoreResults(e: Evaluation, raw: seq<Record>, n: nat, m: nat)
    requires n <= m <= |raw| && forall j | n <= j < m :: !e.Keeps(raw[j], j + 1)
    ensures Results(e, raw, m) == Results(e, raw, n)
  {
    if n < m {
      NoMoreResults(e, raw, n, m - 1);
      assert !e.Keeps(raw[m - 1], m);
    }
  }

  lemma SafeRowsSuffice(e: Evaluation, whole: seq<Record>)
    requires RowsSafe(e, whole)
    ensures CountSafe(e, whole)
  {
    forall n: nat | n <= |whole| ensures Covers(e, whole, n) {
      if i :| 0 <= i < n && Miscounted(e, whole[i], i + 1) {
        NoMoreResults(e, whole, n, |whole|);
      } else {
        CountedAreResults(e, whole, n);
      }
    }
  }

  function Repeat<T>(x: T, n: nat): seq<T> { seq(n, _ => x) }

  lemma {:induction false} ResultsSize(e: Evaluation, raw: seq<Record>, n: nat)
    requires n <= |raw|
    ensures |Results(e, raw, n)| <= n
  {
    if n > 0 {
      ResultsSize(e, raw, n - 1);
    }
  }

  /** The counts are safe on all rows a source may have exactly when every row is. */
  lemma RowsCountExactly(e: Evaluation)
    ensures (forall whole: seq<Record> {:trigger CountSafe(e, whole)} :: CountSafe(e, whole)) <==> RowSafe(e)
  {
    if RowSafe(e) {
      forall whole: seq<Record> ensures CountSafe(e, whole) {
        SafeRowsSuffice(e, whole);
      }
    } else {
      var r: Record, i: int :| i > 0 && Miscounted(e, r, i) && !NoneAfter(e, i);
      var x: Record, j: int :| j > i && e.Keeps(x, j);
      MiscountLoses(e, r, i, x, j);
    }
  }

  lemma MiscountLoses(e: Evaluation, r: Record, i: nat, x: Record, j: nat)
    requires 0 < i < j && Miscounted(e, r, i) && e.Keeps(x, j)
    ensures !CountSafe(e, Repeat(r, i) + Repeat(x, j - i))
  {
    var whole := Repeat(r, i) + Repeat(x, j - i);
    assert whole[..i] == Repeat(r, i) && whole[i - 1] == r && whole[j - 1] == x;
    KeptAll(whole[..i], r => e.Counts(r));
    ResultsSize(e, whole, i - 1);
    assert |Results(e, whole, i)| < i;
    ResultsGrow(e, whole, i, j - 1);
    assert |Results(e, whole, j)| > |Results(e, whole, i)|;
    assert !Covers(e, whole, i);
  }

  /** Batches are evaluated before source_index is assigned.  A predicate that counts
      a row only then (source_index IS NULL OR source_index = 26) stops the first
      batch of 26 candidates, and LIMIT 1 loses the row it would have found. */
  lemma IndexPredicateLosesRow(fetch: Fetch, ids: seq<int>, e: Evaluation)
    requires |ids| == 26 && forall batch {:trigger fetch(batch)} :: |fetch(batch)| == |batch|
    requires fetch(ids) == fetch(ids[..25]) + fetch(ids[25..])
    requires forall batch {:trigger e.resolves(batch)} :: e.resolves(batch)
    requires forall r {:trigger e.plain(r)} :: L.SourceIndex !in e.plain(r)
    requires forall row {:trigger e.truth(row)} ::
               e.truth(row) <==> L.SourceIndex !in row || row[L.SourceIndex] == L.Number(26.0)
    ensures Matched(e, fetch, ids, 1) >= 1
    ensures var part, whole := Acquired(fetch, ids, 1), fetch(ids);
            Slice(AllResults(e, part), 0, 1) == [] && Slice(AllResults(e, whole), 0, 1) == [e.Final(whole[25], 26)]
  {
    var part, whole := fetch(ids[..25]), fetch(ids);
    assert Batch(ids, 1) == ids[..25];
    assert Matched(e, fetch, ids, 1) == Matched(e, fetch, ids, 0) + MatchesIn(e, part);
    KeptAll(part, r => e.Counts(r));
    assert Acquired(fetch, ids, 1) == Acquired(fetch, ids, 0) + part == part;
    OnlyLastResult(e, part, whole);
  }

  lemma OnlyLastResult(e: Evaluation, part: seq<Record>, whole: seq<Record>)
    requires |part| == 25 && |whole| == 26 && forall r, i: int {:trigger e.Keeps(r, i)} :: e.Keeps(r, i) <==> i == 26
    ensures AllResults(e, part) == [] && AllResults(e, whole) == [e.Final(whole[25], 26)]
  {
    NoMoreResults(e, part, 0, 25);
    NoMoreResults(e, whole, 0, 25);
    assert Results(e, whole, 26) == Results(e, whole, 25) + [e.Final(whole[25], 26)];
  }
}
