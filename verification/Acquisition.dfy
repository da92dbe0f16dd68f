/** Cache-first metadata refresh through specialised providers and yt-dlp. */
module Acquisition {
  import opened Options
  import opened Lists

  const UPLOAD_DATE := 0

  /** A backend record: its id, None unless a non-empty text, and its other members,
      None for JSON null. */
  datatype Record = Record(id: Option<int>, fields: map<int, Option<int>>)

  type Fields = map<int, Option<int>>

  datatype Provider = YoutubeJs | YtMusic | Unsupported
  datatype Response = Unavailable | Returned(records: seq<Record>)

  /** The backends as functions of the ids asked for. */
  datatype Backends = Backends(ask: (Provider, seq<int>) -> Response, ytdlp: seq<int> -> seq<Record>)

  datatype Item = Item(record: Record, stale: set<int>)
  datatype Coverage = Coverage(provider: Provider, fields: set<int>)

  /** One acquisition: the cache's rows with their stale fields (None without a
      cache), the fields needed, and the providers to try with what each covers. */
  datatype Request = Request(cache: Option<map<int, Item>>, needed: set<int>, coverage: seq<Coverage>) {
    predicate Held(id: int) { cache.Some? && id in cache.value }

    predicate Hit(id: int) { Held(id) && cache.value[id].stale == {} }

    predicate Stale(id: int) { Held(id) && cache.value[id].stale != {} }

    function Unresolved(id: int): set<int> { if Held(id) then cache.value[id].stale else needed }

    function Base(id: int): Option<Record> { if Held(id) then Some(cache.value[id].record) else None }

    /** Every id to refresh, once, in order of first occurrence. */
    function RefreshIds(ids: seq<int>): seq<int> { Distinct(Kept(ids, id => !Hit(id))) }

    function Hits(ids: seq<int>): nat { |Kept(ids, id => Hit(id))| }

    function Stales(ids: seq<int>): nat { |Kept(ids, id => Stale(id))| }

    function Misses(ids: seq<int>): nat { |Kept(ids, id => cache.Some? && !Held(id))| }
  }

  // ---- One provider -----------------------------------------------------------------

  function IdsOf(records: seq<Record>, n: nat): set<int>
    requires n <= |records|
  {
    set i | 0 <= i < n && records[i].id.Some? :: records[i].id.value
  }

  /** _accepted_specialised_records: the first record of each id asked for. */
  function Accepted(records: seq<Record>, expected: seq<int>, n: nat): seq<Record>
    requires n <= |records|
  {
    if n == 0 then []
    else
      var before, r := Accepted(records, expected, n - 1), records[n - 1];
      if r.id.None? || r.id.value !in expected || r.id.value in IdsOf(before, |before|) then before
      else before + [r]
  }

  method AcceptSpecialised(records: seq<Record>, expected: seq<int>) returns (accepted: seq<Record>)
    ensures accepted == Accepted(records, expected, |records|)
  {
    accepted := [];
    var seen: set<int> := {};
    for n := 0 to |records|
      invariant accepted == Accepted(records, expected, n)
      invariant seen == IdsOf(accepted, |accepted|)
    {
      var r := records[n];
      if r.id.None? || r.id.value !in expected { continue; }
      if r.id.value in seen { continue; }
      IdsOfSnoc(accepted, r);
      seen := seen + {r.id.value};
      accepted := accepted + [r];
    }
  }

  lemma IdsOfSnoc(records: seq<Record>, r: Record)
    requires r.id.Some?
    ensures IdsOf(records + [r], |records| + 1) == IdsOf(records, |records|) + {r.id.value}
  {
    var more := records + [r];
    assert more[|records|] == r;
    forall id | id in IdsOf(records, |records|) ensures id in IdsOf(more, |more|) {
      var i :| 0 <= i < |records| && records[i].id == Some(id);
      assert more[i] == records[i];
    }
  }

  /** The first record of an id. */
  function FirstOf(records: seq<Record>, id: int, n: nat): Option<Record>
    requires n <= |records|
  {
    if n == 0 then None
    else if FirstOf(records, id, n - 1).Some? then FirstOf(records, id, n - 1)
    else if records[n - 1].id == Some(id) then Some(records[n - 1])
    else None
  }

  /** Of each id asked for the first record is accepted, and nothing else. */
  lemma {:induction false} AcceptedExactly(records: seq<Record>, expected: seq<int>, n: nat, r: Record)
    requires n <= |records|
    ensures r in Accepted(records, expected, n) <==>
              r.id.Some? && r.id.value in expected && FirstOf(records, r.id.value, n) == Some(r)
    ensures forall id :: id in IdsOf(Accepted(records, expected, n), |Accepted(records, expected, n)|) <==>
              id in expected && FirstOf(records, id, n).Some?
  {
    if n > 0 {
      AcceptedExactly(records, expected, n - 1, r);
      FirstOfIs(records, if r.id.Some? then r.id.value else 0, n - 1);
      if records[n - 1].id.Some? {
        IdsOfSnoc(Accepted(records, expected, n - 1), records[n - 1]);
      }
    }
  }

  lemma {:induction false} FirstOfIs(records: seq<Record>, id: int, n: nat)
    requires n <= |records|
    ensures FirstOf(records, id, n).Some? ==> FirstOf(records, id, n).value.id == Some(id)
  {
    if n > 0 {
      FirstOfIs(records, id, n - 1);
    }
  }

  /** An unknown upload date does not settle an id that needs one. */
  predicate Settles(q: Request, r: Record) {
    r.id.Some? && (UPLOAD_DATE in q.Unresolved(r.id.value) ==> Known(r, UPLOAD_DATE))
  }

  predicate Known(r: Record, f: int) { f in r.fields && r.fields[f].Some? }

  /** The cached record updated with a provider's. */
  function Merged(q: Request, r: Record): Record {
    if r.id.Some? && q.Base(r.id.value).Some?
    then Record(r.id, q.Base(r.id.value).value.fields + r.fields) else r
  }

  datatype Progress = Progress(remaining: seq<int>, fetched: seq<Record>)

  function Covered(q: Request, p: Progress, c: Coverage): seq<int> {
    Kept(p.remaining, id => q.Unresolved(id) <= c.fields)
  }

  /** The records that settle ids when coverage c is tried. */
  function Settling(q: Request, b: Backends, p: Progress, c: Coverage): seq<Record> {
    var asked := Covered(q, p, c);
    if asked == [] || c.provider == Unsupported then []
    else
      match b.ask(c.provider, asked)
      case Unavailable => []
      case Returned(records) => Kept(Accepted(records, asked, |records|), r => Settles(q, r))
  }

  function MergedAll(q: Request, records: seq<Record>, n: nat): seq<Record>
    requires n <= |records|
  {
    if n == 0 then [] else MergedAll(q, records, n - 1) + [Merged(q, records[n - 1])]
  }

  function Without(ids: seq<int>, gone: set<int>): seq<int> { Kept(ids, id => id !in gone) }

  function Round(q: Request, b: Backends, p: Progress, c: Coverage): Progress {
    var got := Settling(q, b, p, c);
    Progress(Without(p.remaining, IdsOf(got, |got|)), p.fetched + MergedAll(q, got, |got|))
  }

  /** Where k providers leave the ids to refresh. */
  function Rounds(q: Request, b: Backends, refresh: seq<int>, k: nat): Progress
    requires k <= |q.coverage|
  {
    Folded((p: Progress, c: Coverage) => Round(q, b, p, c), Progress(refresh, []), q.coverage, k)
  }

  // ---- The result ------------------------------------------------------------------------

  /** The last record of an id: a dict built in order. */
  function LastOf(records: seq<Record>, id: int, n: nat): Option<Record>
    requires n <= |records|
  {
    if n == 0 then None
    else if records[n - 1].id == Some(id) then Some(records[n - 1])
    else LastOf(records, id, n - 1)
  }

  function Fetched(q: Request, b: Backends, ids: seq<int>): seq<Record> {
    var p := Rounds(q, b, q.RefreshIds(ids), |q.coverage|);
    p.fetched + if p.remaining == [] then [] else b.ytdlp(p.remaining)
  }

  /** The row of one occurrence of id, if anything resolved it. */
  function RowOf(q: Request, fetched: seq<Record>, id: int): Option<Record> {
    var last := LastOf(fetched, id, |fetched|);
    if last.Some? then last else q.Base(id)
  }

  function Rows(q: Request, fetched: seq<Record>, ids: seq<int>): seq<Record> {
    if ids == [] then []
    else
      var row := RowOf(q, fetched, ids[|ids| - 1]);
      Rows(q, fetched, ids[..|ids| - 1]) + if row.Some? then [row.value] else []
  }

  datatype Stats = Stats(examined: nat, hits: nat, stale: nat, misses: nat, refreshed: nat)

  /** _cached_or_refresh_metadata. */
  method CachedOrRefresh(q: Request, b: Backends, ids: seq<int>) returns (records: seq<Record>, stats: Stats)
    ensures records == Rows(q, Fetched(q, b, ids), ids)
    ensures stats.hits == |Kept(ids, id => Cached(q, id).Some? && Cached(q, id).value.stale == {})|
    ensures stats.stale == |Kept(ids, id => Cached(q, id).Some? && Cached(q, id).value.stale != {})|
    ensures stats.misses == |Kept(ids, id => q.cache.Some? && Cached(q, id).None?)|
    ensures stats.examined == (if q.cache.Some? then |ids| else 0)
    ensures stats.hits + stats.stale + stats.misses == stats.examined
    ensures stats.refreshed == |Fetched(q, b, ids)|
    ensures forall i | 0 <= i < |records| :: Sourced(q, b, ids, records[i])
  {
    var refresh, hits, stale, misses := LookUp(q, ids);
    var p := TryProviders(q, b, refresh);
    var fetched := p.fetched;
    if p.remaining != [] {
      fetched := fetched + b.ytdlp(p.remaining);
    }
    assert fetched == Fetched(q, b, ids);
    records := Collect(q, fetched, ids);
    RowsAreSourced(q, b, ids, ids, fetched);
    CountsAre(q, ids);
    CountsAreConserved(q, ids);
    stats := Stats(if q.cache.Some? then |ids| else 0, hits, stale, misses, |fetched|);
  }

  lemma CountsAre(q: Request, ids: seq<int>)
    ensures q.Hits(ids) == |Kept(ids, id => Cached(q, id).Some? && Cached(q, id).value.stale == {})|
    ensures q.Stales(ids) == |Kept(ids, id => Cached(q, id).Some? && Cached(q, id).value.stale != {})|
    ensures q.Misses(ids) == |Kept(ids, id => q.cache.Some? && Cached(q, id).None?)|
  {
    KeptSame(ids, id => q.Hit(id), id => Cached(q, id).Some? && Cached(q, id).value.stale == {});
    KeptSame(ids, id => q.Stale(id), id => Cached(q, id).Some? && Cached(q, id).value.stale != {});
    KeptSame(ids, id => q.cache.Some? && !q.Held(id), id => q.cache.Some? && Cached(q, id).None?);
  }

  method LookUp(q: Request, ids: seq<int>) returns (refresh: seq<int>, hits: nat, stale: nat, misses: nat)
    ensures refresh == q.RefreshIds(ids)
    ensures hits == q.Hits(ids) && stale == q.Stales(ids)
    ensures misses == q.Misses(ids)
  {
    var wanted: seq<int> := [];
    hits, stale, misses := 0, 0, 0;
    for n := 0 to |ids|
      invariant wanted == Kept(ids[..n], id => !q.Hit(id))
      invariant hits == q.Hits(ids[..n]) && stale == q.Stales(ids[..n])
      invariant misses == q.Misses(ids[..n])
    {
      var id := ids[n];
      assert ids[..n + 1] == ids[..n] + [id];
      KeptSnoc(ids[..n], id, id => !q.Hit(id));
      KeptSnoc(ids[..n], id, id => q.Hit(id));
      KeptSnoc(ids[..n], id, id => q.Stale(id));
      KeptSnoc(ids[..n], id, id => q.cache.Some? && !q.Held(id));
      if q.cache.None? {
        wanted := wanted + [id];
      } else if id !in q.cache.value {
        misses := misses + 1;
        wanted := wanted + [id];
      } else if q.cache.value[id].stale == {} {
        hits := hits + 1;
      } else {
        stale := stale + 1;
        wanted := wanted + [id];
      }
    }
    assert ids[..|ids|] == ids;
    refresh := Distinct(wanted);
  }

  method TryProviders(q: Request, b: Backends, refresh: seq<int>) returns (p: Progress)
    ensures p == Rounds(q, b, refresh, |q.coverage|)
  {
    p := Progress(refresh, []);
    for k := 0 to |q.coverage|
      invariant p == Rounds(q, b, refresh, k)
    {
      p := TryProvider(q, b, p, q.coverage[k]);
    }
  }

  method TryProvider(q: Request, b: Backends, p: Progress, c: Coverage) returns (next: Progress)
    ensures next == Round(q, b, p, c)
  {
    var asked := Covered(q, p, c);
    NothingSettles(q, p);
    if asked == [] || c.provider == Unsupported { return p; }
    match b.ask(c.provider, asked) {
      case Unavailable =>
        next := p;
      case Returned(records) =>
        var accepted := AcceptSpecialised(records, asked);
        var usable := Kept(accepted, r => Settles(q, r));
        next := Progress(Without(p.remaining, IdsOf(usable, |usable|)), p.fetched + MergedAll(q, usable, |usable|));
    }
  }

  lemma NothingSettles(q: Request, p: Progress)
    ensures Progress(Without(p.remaining, IdsOf([], 0)), p.fetched + MergedAll(q, [], 0)) == p
  {
    assert IdsOf([], 0) == {};
    KeptAll(p.remaining, id => id !in IdsOf([], 0));
  }

  method Collect(q: Request, fetched: seq<Record>, ids: seq<int>) returns (records: seq<Record>)
    ensures records == Rows(q, fetched, ids)
  {
    records := [];
    for n := 0 to |ids|
      invariant records == Rows(q, fetched, ids[..n])
    {
      assert ids[..n + 1][..n] == ids[..n];
      var row := RowOf(q, fetched, ids[n]);
      if row.Some? {
        records := records + [row.value];
      }
    }
    assert ids[..|ids|] == ids;
  }

  // ---- What the acquisition did ----------------------------------------------------------

  /** With a cache every occurrence is a hit, stale or a miss; without one, none is. */
  lemma {:induction false} CountsAreConserved(q: Request, ids: seq<int>)
    ensures q.Hits(ids) + q.Stales(ids) + q.Misses(ids) == if q.cache.Some? then |ids| else 0
  {
    if ids != [] {
      CountsAreConserved(q, ids[..|ids| - 1]);
    }
  }

  ghost predicate DistinctIds(records: seq<Record>) {
    && (forall i | 0 <= i < |records| :: records[i].id.Some?)
    && (forall i, j | 0 <= i < j < |records| :: records[i].id != records[j].id)
  }

  lemma {:induction false} AcceptedFacts(records: seq<Record>, expected: seq<int>, n: nat)
    requires n <= |records|
    ensures var a := Accepted(records, expected, n);
            DistinctIds(a) && forall i | 0 <= i < |a| :: a[i].id.value in expected && a[i] in records[..n]
    ensures forall i | 0 <= i < n :: records[i].id.Some? && records[i].id.value in expected ==>
              records[i].id.value in IdsOf(Accepted(records, expected, n), |Accepted(records, expected, n)|)
  {
    if n > 0 {
      AcceptedFacts(records, expected, n - 1);
      var before, r := Accepted(records, expected, n - 1), records[n - 1];
      assert records[..n] == records[..n - 1] + [r];
      if r.id.Some? {
        IdsOfSnoc(before, r);
      }
    }
  }

  lemma {:induction false} KeptRecords(records: seq<Record>, keep: Record -> bool)
    requires DistinctIds(records)
    ensures DistinctIds(Kept(records, keep))
    ensures forall r | r in Kept(records, keep) :: r in records && keep(r)
  {
    if records != [] {
      var front := records[..|records| - 1];
      KeptRecords(front, keep);
      assert records == front + [records[|records| - 1]];
      forall r | r in Kept(front, keep) ensures r.id != records[|records| - 1].id {
        assert r in front;
      }
    }
  }

  lemma SettlingDistinct(q: Request, b: Backends, p: Progress, c: Coverage)
    ensures DistinctIds(Settling(q, b, p, c))
  {
    var asked := Covered(q, p, c);
    if asked != [] && c.provider != Unsupported && b.ask(c.provider, asked).Returned? {
      var records := b.ask(c.provider, asked).records;
      AcceptedFacts(records, asked, |records|);
      KeptRecords(Accepted(records, asked, |records|), r => Settles(q, r));
    }
  }

  /** Every record that settles an id is one the provider returned for an id that was
      asked for, remained, and needed only fields the provider covers. */
  lemma SettlingFact(q: Request, b: Backends, p: Progress, c: Coverage, r: Record)
    requires r in Settling(q, b, p, c)
    ensures c.provider != Unsupported && b.ask(c.provider, Covered(q, p, c)).Returned?
    ensures r in b.ask(c.provider, Covered(q, p, c)).records
    ensures r.id.Some? && r.id.value in p.remaining && q.Unresolved(r.id.value) <= c.fields && Settles(q, r)
  {
    var asked := Covered(q, p, c);
    var records := b.ask(c.provider, asked).records;
    var accepted := Accepted(records, asked, |records|);
    AcceptedFacts(records, asked, |records|);
    KeptMember(accepted, r => Settles(q, r), r);
    var i :| 0 <= i < |accepted| && accepted[i] == r;
    KeptMember(p.remaining, id => q.Unresolved(id) <= c.fields, r.id.value);
  }

  lemma {:induction false} MergedAllAt(q: Request, records: seq<Record>, n: nat)
    requires n <= |records|
    ensures |MergedAll(q, records, n)| == n
    ensures forall i | 0 <= i < n :: MergedAll(q, records, n)[i] == Merged(q, records[i])
  {
    if n > 0 {
      MergedAllAt(q, records, n - 1);
    }
  }

  /** A record of the result of trying coverage c. */
  ghost predicate SettledBy(q: Request, b: Backends, p: Progress, c: Coverage, fetched: Record) {
    exists r :: r in Settling(q, b, p, c) && fetched == Merged(q, r)
  }

  ghost predicate SettledWithin(q: Request, b: Backends, refresh: seq<int>, k: nat, fetched: Record)
    requires k <= |q.coverage|
  {
    exists j :: 0 <= j < k && SettledBy(q, b, Rounds(q, b, refresh, j), q.coverage[j], fetched)
  }

  ghost predicate Partitioned(refresh: seq<int>, p: Progress) {
    && DistinctIds(p.fetched)
    && IdsOf(p.fetched, |p.fetched|) <= (set id | id in refresh)
    && p.remaining == Without(refresh, IdsOf(p.fetched, |p.fetched|))
  }

  /** After k providers: the records fetched have distinct ids, and exactly the other
      ids to refresh remain, in order. */
  lemma RoundsPartition(q: Request, b: Backends, refresh: seq<int>, k: nat)
    requires k <= |q.coverage|
    ensures Partitioned(refresh, Rounds(q, b, refresh, k))
  {
    var step := (p: Progress, c: Coverage) => Round(q, b, p, c);
    var holds := (i: int, p: Progress) => Partitioned(refresh, p);
    NothingYet(refresh);
    forall i: nat, p | i < |q.coverage| && holds(i, p) ensures holds(i + 1, step(p, q.coverage[i])) {
      RoundPartitions(q, b, refresh, p, q.coverage[i]);
    }
    FoldedKeeps(step, Progress(refresh, []), q.coverage, k, holds);
  }

  lemma NothingYet(refresh: seq<int>)
    ensures Partitioned(refresh, Progress(refresh, []))
  {
    assert IdsOf([], 0) == {};
    KeptAll(refresh, id => id !in IdsOf([], 0));
  }

  lemma RoundPartitions(q: Request, b: Backends, refresh: seq<int>, p: Progress, c: Coverage)
    requires Partitioned(refresh, p)
    ensures Partitioned(refresh, Round(q, b, p, c))
  {
    var got, n := Settling(q, b, p, c), Round(q, b, p, c);
    var was, more := IdsOf(p.fetched, |p.fetched|), IdsOf(got, |got|);
    MergedAllAt(q, got, |got|);
    SettlingAreNew(q, b, refresh, p, c);
    FetchedTogether(p.fetched, got, n.fetched);
    WithoutTwice(refresh, was, more);
  }

  lemma WithoutTwice(refresh: seq<int>, a: set<int>, b: set<int>)
    ensures Without(Without(refresh, a), b) == Without(refresh, a + b)
  {
    KeptTwice(refresh, id => id !in a, id => id !in b, id => id !in a + b);
  }

  lemma SettlingAreNew(q: Request, b: Backends, refresh: seq<int>, p: Progress, c: Coverage)
    requires Partitioned(refresh, p)
    ensures var got := Settling(q, b, p, c);
            && DistinctIds(got)
            && (forall i | 0 <= i < |got| :: got[i].id.value in refresh && got[i].id.value !in IdsOf(p.fetched, |p.fetched|))
  {
    var got := Settling(q, b, p, c);
    var was := IdsOf(p.fetched, |p.fetched|);
    SettlingDistinct(q, b, p, c);
    forall i | 0 <= i < |got| ensures got[i].id.value in refresh && got[i].id.value !in was {
      SettlingFact(q, b, p, c, got[i]);
      KeptMember(refresh, id => id !in was, got[i].id.value);
    }
  }

  lemma FetchedTogether(a: seq<Record>, b: seq<Record>, all: seq<Record>)
    requires DistinctIds(a) && DistinctIds(b) && |all| == |a| + |b|
    requires forall i | 0 <= i < |a| :: all[i].id == a[i].id
    requires forall i | 0 <= i < |b| :: all[|a| + i].id == b[i].id
    requires forall i | 0 <= i < |b| :: b[i].id.value !in IdsOf(a, |a|)
    ensures DistinctIds(all) && IdsOf(all, |all|) == IdsOf(a, |a|) + IdsOf(b, |b|)
  {
    IdsOfParts(a, b, all);
    forall i | 0 <= i < |all| ensures all[i].id == if i < |a| then a[i].id else b[i - |a|].id {
      if i >= |a| {
        assert all[|a| + (i - |a|)].id == b[i - |a|].id;
      }
    }
    forall i, j | 0 <= i < j < |all| ensures all[i].id != all[j].id {
      if i < |a| <= j {
        assert a[i].id.value in IdsOf(a, |a|);
      }
    }
  }

  /** Every fetched record came from one provider, for an id it was asked for. */
  lemma {:induction false} RoundsSettle(q: Request, b: Backends, refresh: seq<int>, k: nat, r: Record)
    requires k <= |q.coverage| && r in Rounds(q, b, refresh, k).fetched
    ensures SettledWithin(q, b, refresh, k, r)
  {
    if k > 0 {
      var p := Rounds(q, b, refresh, k - 1);
      if r in p.fetched {
        RoundsSettle(q, b, refresh, k - 1, r);
      } else {
        RoundSettles(q, b, p, q.coverage[k - 1], r);
      }
    }
  }

  lemma RoundSettles(q: Request, b: Backends, p: Progress, c: Coverage, r: Record)
    requires r in Round(q, b, p, c).fetched && r !in p.fetched
    ensures SettledBy(q, b, p, c, r)
  {
    var got := Settling(q, b, p, c);
    MergedAllAt(q, got, |got|);
    var i :| 0 <= i < |got| && MergedAll(q, got, |got|)[i] == r;
    assert got[i] in got;
  }

  lemma IdsOfParts(a: seq<Record>, b: seq<Record>, all: seq<Record>)
    requires |all| == |a| + |b|
    requires forall i | 0 <= i < |a| :: all[i].id == a[i].id
    requires forall i | 0 <= i < |b| :: all[|a| + i].id == b[i].id
    ensures IdsOf(all, |all|) == IdsOf(a, |a|) + IdsOf(b, |b|)
  {
    forall id | id in IdsOf(a, |a|) + IdsOf(b, |b|) ensures id in IdsOf(all, |all|) {
      if id in IdsOf(a, |a|) {
        var i :| 0 <= i < |a| && a[i].id == Some(id);
        assert all[i].id == Some(id);
      } else {
        var i :| 0 <= i < |b| && b[i].id == Some(id);
        assert all[|a| + i].id == Some(id);
      }
    }
    forall id | id in IdsOf(all, |all|) ensures id in IdsOf(a, |a|) + IdsOf(b, |b|) {
      var i :| 0 <= i < |all| && all[i].id == Some(id);
      if i >= |a| {
        assert b[i - |a|].id == Some(id);
      }
    }
  }

  lemma {:induction false} LastOfAppend(a: seq<Record>, b: seq<Record>, id: int)
    ensures LastOf(a + b, id, |a + b|) ==
            if LastOf(b, id, |b|).Some? then LastOf(b, id, |b|) else LastOf(a, id, |a|)
  {
    if b == [] {
      assert a + b == a;
    } else {
      var front := b[..|b| - 1];
      LastOfAppend(a, front, id);
      LastOfPrefix(a + front, a + b, id, |a + front|);
      LastOfPrefix(front, b, id, |front|);
    }
  }

  lemma {:induction false} LastOfPrefix(a: seq<Record>, b: seq<Record>, id: int, n: nat)
    requires n <= |a| && n <= |b| && a[..n] == b[..n]
    ensures LastOf(a, id, n) == LastOf(b, id, n)
  {
    if n > 0 {
      assert a[..n - 1] == a[..n][..n - 1] && b[..n - 1] == b[..n][..n - 1];
      assert a[n - 1] == a[..n][n - 1] && b[n - 1] == b[..n][n - 1];
      LastOfPrefix(a, b, id, n - 1);
    }
  }

  lemma {:induction false} LastOfIs(records: seq<Record>, id: int, n: nat)
    requires n <= |records|
    ensures LastOf(records, id, n).Some? <==> id in IdsOf(records, n)
    ensures DistinctIds(records) ==> forall i | 0 <= i < n && records[i].id == Some(id) :: LastOf(records, id, n) == Some(records[i])
  {
    if n > 0 {
      LastOfIs(records, id, n - 1);
      if LastOf(records, id, n - 1).Some? {
        var i :| 0 <= i < n - 1 && records[i].id == Some(id);
      }
    }
  }

  /** The ids refreshed are the distinct ids without a fresh row, and each of them is
      either settled by one specialised record or left for yt-dlp, never both. */
  lemma RefreshIsExact(q: Request, b: Backends, ids: seq<int>, id: int)
    ensures var refresh := q.RefreshIds(ids);
            var p := Rounds(q, b, refresh, |q.coverage|);
            && NoDuplicates(refresh) && NoDuplicates(p.remaining) && DistinctIds(p.fetched)
            && (id in refresh <==> id in ids && !q.Hit(id))
            && (id in refresh <==> id in p.remaining || id in IdsOf(p.fetched, |p.fetched|))
            && !(id in p.remaining && id in IdsOf(p.fetched, |p.fetched|))
  {
    var refresh := q.RefreshIds(ids);
    DistinctFacts(Kept(ids, id => !q.Hit(id)));
    KeptMember(ids, id => !q.Hit(id), id);
    var p := Rounds(q, b, refresh, |q.coverage|);
    RoundsPartition(q, b, refresh, |q.coverage|);
    var settled := IdsOf(p.fetched, |p.fetched|);
    KeptNoDuplicates(refresh, id => id !in settled);
    KeptMember(refresh, id => id !in settled, id);
  }

  /** A specialised record settles its id: the provider covers what the id lacked, was
      asked for the id, and answered with its first record for it, merged onto the
      cached row; an upload date that was needed is known. */
  lemma SettledByCoveringProvider(q: Request, b: Backends, ids: seq<int>, fetched: Record)
    requires fetched in Rounds(q, b, q.RefreshIds(ids), |q.coverage|).fetched
    ensures exists j, r :: 0 <= j < |q.coverage| && SettledAs(q, b, ids, j, r, fetched)
  {
    var refresh := q.RefreshIds(ids);
    RoundsSettle(q, b, refresh, |q.coverage|, fetched);
    var j :| 0 <= j < |q.coverage| && SettledBy(q, b, Rounds(q, b, refresh, j), q.coverage[j], fetched);
    var r :| r in Settling(q, b, Rounds(q, b, refresh, j), q.coverage[j]) && fetched == Merged(q, r);
    SettlingFact(q, b, Rounds(q, b, refresh, j), q.coverage[j], r);
    MergedUpdates(q, r);
    assert SettledAs(q, b, ids, j, r, fetched);
  }

  lemma MergedUpdates(q: Request, r: Record)
    requires r.id.Some?
    ensures Merged(q, r).id == r.id && Updated(q.Base(r.id.value), r.fields, Merged(q, r).fields)
  {
  }

  ghost predicate SettledAs(q: Request, b: Backends, ids: seq<int>, j: int, r: Record, fetched: Record)
    requires 0 <= j < |q.coverage|
  {
    var p := Rounds(q, b, q.RefreshIds(ids), j);
    var c := q.coverage[j];
    var answer := b.ask(c.provider, Covered(q, p, c));
    && c.provider != Unsupported && answer.Returned? && r in answer.records
    && r.id.Some? && r.id.value in p.remaining && q.Unresolved(r.id.value) <= c.fields
    && (UPLOAD_DATE in q.Unresolved(r.id.value) ==> Known(r, UPLOAD_DATE))
    && fetched.id == r.id && Updated(q.Base(r.id.value), r.fields, fetched.fields)
  }

  /** A cached record updated with what a provider said: every member of the answer at the
      answer's value, every other member of the record as it was, and no others. */
  predicate Updated(was: Option<Record>, said: Fields, fields: Fields) {
    && (forall f | f in said :: f in fields && fields[f] == said[f])
    && (forall f | f in fields && f !in said :: was.Some? && f in was.value.fields && fields[f] == was.value.fields[f])
    && (was.Some? ==> forall f | f in was.value.fields :: f in fields)
  }

  /** Every record returned is yt-dlp's, or a cached one, or a cached one updated with the
      answer of a covering provider. */
  ghost predicate Sourced(q: Request, b: Backends, ids: seq<int>, record: Record) {
    || record in FromYtDlp(q, b, ids)
    || (exists id :: id in ids && q.Held(id) && record == q.cache.value[id].record)
    || exists j, r :: 0 <= j < |q.coverage| && SettledAs(q, b, ids, j, r, record)
  }

  lemma FetchedIsSourced(q: Request, b: Backends, ids: seq<int>, record: Record)
    requires record in Fetched(q, b, ids)
    ensures Sourced(q, b, ids, record)
  {
    var p := Rounds(q, b, q.RefreshIds(ids), |q.coverage|);
    if record in p.fetched {
      SettledByCoveringProvider(q, b, ids, record);
    }
  }

  lemma {:induction false} LastOfMember(records: seq<Record>, id: int, n: nat)
    requires n <= |records|
    ensures LastOf(records, id, n).Some? ==> LastOf(records, id, n).value in records && LastOf(records, id, n).value.id == Some(id)
  {
    if n > 0 {
      LastOfMember(records, id, n - 1);
    }
  }

  lemma RowIsSourced(q: Request, b: Backends, all: seq<int>, id: int)
    requires id in all
    ensures RowOf(q, Fetched(q, b, all), id).Some? ==> Sourced(q, b, all, RowOf(q, Fetched(q, b, all), id).value)
  {
    var fetched := Fetched(q, b, all);
    LastOfMember(fetched, id, |fetched|);
    if LastOf(fetched, id, |fetched|).Some? {
      FetchedIsSourced(q, b, all, LastOf(fetched, id, |fetched|).value);
    }
  }

  lemma {:induction false} RowsAreSourced(q: Request, b: Backends, all: seq<int>, ids: seq<int>, fetched: seq<Record>)
    requires (forall i | 0 <= i < |ids| :: ids[i] in all) && fetched == Fetched(q, b, all)
    ensures forall i | 0 <= i < |Rows(q, fetched, ids)| :: Sourced(q, b, all, Rows(q, fetched, ids)[i])
  {
    if ids != [] {
      RowsAreSourced(q, b, all, ids[..|ids| - 1], fetched);
      RowIsSourced(q, b, all, ids[|ids| - 1]);
    }
  }

  /** What yt-dlp returned, if it was needed. */
  function FromYtDlp(q: Request, b: Backends, ids: seq<int>): seq<Record> {
    var p := Rounds(q, b, q.RefreshIds(ids), |q.coverage|);
    if p.remaining == [] then [] else b.ytdlp(p.remaining)
  }

  /** Where the row of an id comes from: yt-dlp's last record for it, else the one
      specialised record, else the cached row. */
  lemma RowSource(q: Request, b: Backends, ids: seq<int>, id: int)
    ensures var y := FromYtDlp(q, b, ids);
            var p := Rounds(q, b, q.RefreshIds(ids), |q.coverage|);
            RowOf(q, Fetched(q, b, ids), id) ==
            if LastOf(y, id, |y|).Some? then LastOf(y, id, |y|)
            else if LastOf(p.fetched, id, |p.fetched|).Some? then LastOf(p.fetched, id, |p.fetched|)
            else q.Base(id)
  {
    var p := Rounds(q, b, q.RefreshIds(ids), |q.coverage|);
    LastOfAppend(p.fetched, FromYtDlp(q, b, ids), id);
  }

  /** A fresh hit is answered from the cache exactly when yt-dlp returns no other
      record under its id; it is never asked for one. */
  lemma HitIsServedExactly(q: Request, b: Backends, ids: seq<int>, id: int)
    requires id in ids && q.Hit(id)
    ensures id !in q.RefreshIds(ids)
    ensures var y := FromYtDlp(q, b, ids);
            RowOf(q, Fetched(q, b, ids), id) == q.Base(id)
            <==> LastOf(y, id, |y|).None? || LastOf(y, id, |y|) == q.Base(id)
  {
    RefreshIsExact(q, b, ids, id);
    RowSource(q, b, ids, id);
    var p := Rounds(q, b, q.RefreshIds(ids), |q.coverage|);
    LastOfIs(p.fetched, id, |p.fetched|);
  }

  /** Specialised providers cannot replace a hit; yt-dlp can: answers to the detailed
      command are not checked against the ids it was given. */
  lemma StrayRecordReplacesHit(b: Backends)
    requires b.ytdlp([2]) == [Record(Some(1), map[])]
    ensures var q := Request(Some(map[1 := Item(Record(Some(1), map[7 := Some(7)]), {})]), {7}, []);
            && q.Hit(1) && q.RefreshIds([1, 2]) == [2]
            && Rows(q, Fetched(q, b, [1, 2]), [1, 2]) == [Record(Some(1), map[])]
  {
    var q := Request(Some(map[1 := Item(Record(Some(1), map[7 := Some(7)]), {})]), {7}, []);
    var keep := id => !q.Hit(id);
    assert Kept([1, 2], keep) == [2] by {
      assert [1, 2] == [1] + [2] && [1] == [] + [1];
      KeptSnoc([1], 2, keep);
      KeptSnoc([], 1, keep);
    }
    assert q.RefreshIds([1, 2]) == [2] by {
      assert Kept([1, 2], id => !q.Hit(id)) == [2];
      assert [2][..0] == [];
    }
    var fetched := [Record(Some(1), map[])];
    assert Fetched(q, b, [1, 2]) == fetched;
    assert RowOf(q, fetched, 1) == Some(fetched[0]) && RowOf(q, fetched, 2) == None;
    assert [1, 2][..1] == [1] && [1][..0] == [];
    assert Rows(q, fetched, [1]) == fetched;
  }

  /** One row per occurrence of a resolved id, in input order. */
  lemma {:induction false} RowsFollowInput(q: Request, fetched: seq<Record>, ids: seq<int>)
    ensures var resolved := Kept(ids, id => RowOf(q, fetched, id).Some?);
            && |Rows(q, fetched, ids)| == |resolved|
            && forall i | 0 <= i < |resolved| :: Some(Rows(q, fetched, ids)[i]) == RowOf(q, fetched, resolved[i])
  {
    if ids != [] {
      RowsFollowInput(q, fetched, ids[..|ids| - 1]);
    }
  }

  // ---- Backends that answer id by id ------------------------------------------------------

  /** A provider is up or not, and what it says of an id does not depend on the other
      ids asked for with it. */
  datatype Answers = Answers(up: Provider -> bool, says: (Provider, int) -> Option<Fields>, detailed: int -> Option<Fields>)

  function Replies(says: int -> Option<Fields>, ids: seq<int>): seq<Record> {
    if ids == [] then []
    else
      var id := ids[|ids| - 1];
      Replies(says, ids[..|ids| - 1]) + if says(id).Some? then [Record(Some(id), says(id).value)] else []
  }

  function PerId(a: Answers): Backends {
    Backends((p, ids) => if a.up(p) then Returned(Replies(id => a.says(p, id), ids)) else Unavailable,
             ids => Replies(a.detailed, ids))
  }

  /** What coverage c says of an id it is asked for. */
  function Said(q: Request, a: Answers, c: Coverage, id: int): Option<Record> {
    if c.provider == Unsupported || !(q.Unresolved(id) <= c.fields) || !a.up(c.provider) then None
    else
      match a.says(c.provider, id)
      case None => None
      case Some(fields) =>
        if Settles(q, Record(Some(id), fields)) then Some(Merged(q, Record(Some(id), fields))) else None
  }

  /** The record of an id after k providers. */
  function SaidBy(q: Request, a: Answers, id: int, k: nat): Option<Record>
    requires k <= |q.coverage|
  {
    if k == 0 then None
    else if SaidBy(q, a, id, k - 1).Some? then SaidBy(q, a, id, k - 1)
    else Said(q, a, q.coverage[k - 1], id)
  }

  /** The row of one id, looked at alone: a fresh hit, the first covering provider that
      settles it, yt-dlp, or the stale row. */
  function RowAlone(q: Request, a: Answers, id: int): Option<Record> {
    if q.Hit(id) then q.Base(id)
    else if SaidBy(q, a, id, |q.coverage|).Some? then SaidBy(q, a, id, |q.coverage|)
    else if a.detailed(id).Some? then Some(Record(Some(id), a.detailed(id).value))
    else q.Base(id)
  }

  function RowsAlone(q: Request, a: Answers, ids: seq<int>): seq<Record> {
    if ids == [] then []
    else
      var row := RowAlone(q, a, ids[|ids| - 1]);
      RowsAlone(q, a, ids[..|ids| - 1]) + if row.Some? then [row.value] else []
  }

  lemma {:induction false} RepliesAre(says: int -> Option<Fields>, ids: seq<int>, r: Record)
    ensures r in Replies(says, ids) <==> r.id.Some? && r.id.value in ids && says(r.id.value) == Some(r.fields)
  {
    if ids != [] {
      var front := ids[..|ids| - 1];
      RepliesAre(says, front, r);
      assert ids == front + [ids[|ids| - 1]];
    }
  }

  lemma {:induction false} LastReply(says: int -> Option<Fields>, ids: seq<int>, id: int)
    ensures LastOf(Replies(says, ids), id, |Replies(says, ids)|) ==
            if id in ids && says(id).Some? then Some(Record(Some(id), says(id).value)) else None
  {
    if ids != [] {
      var front, last := ids[..|ids| - 1], ids[|ids| - 1];
      LastReply(says, front, id);
      assert ids == front + [last];
      if says(last).Some? {
        var r := Record(Some(last), says(last).value);
        assert LastOf([r], id, 1) == if last == id then Some(r) else LastOf([r], id, 0);
        LastOfAppend(Replies(says, front), [r], id);
      } else {
        assert Replies(says, ids) == Replies(says, front);
      }
    }
  }

  lemma SettlingPerId(q: Request, a: Answers, p: Progress, c: Coverage, id: int)
    ensures var got := Settling(q, PerId(a), p, c);
            && (id in IdsOf(got, |got|) <==> id in p.remaining && Said(q, a, c, id).Some?)
            && forall i | 0 <= i < |got| && got[i].id == Some(id) :: Some(Merged(q, got[i])) == Said(q, a, c, id)
  {
    var b := PerId(a);
    var got, asked := Settling(q, b, p, c), Covered(q, p, c);
    var says := id => a.says(c.provider, id);
    forall i | 0 <= i < |got| && got[i].id == Some(id)
      ensures id in p.remaining && Some(Merged(q, got[i])) == Said(q, a, c, id)
    {
      SettlingFact(q, b, p, c, got[i]);
      assert b.ask(c.provider, asked) == Returned(Replies(says, asked));
      RepliesAre(says, asked, got[i]);
      assert got[i] == Record(Some(id), got[i].fields);
    }
    if id in IdsOf(got, |got|) {
      var i :| 0 <= i < |got| && got[i].id == Some(id);
    }
    if id in p.remaining && Said(q, a, c, id).Some? {
      KeptMember(p.remaining, id => q.Unresolved(id) <= c.fields, id);
      var r := Record(Some(id), a.says(c.provider, id).value);
      RepliesAre(says, asked, r);
      SaidIsAccepted(q, a, asked, c, r);
    }
  }

  lemma SaidIsAccepted(q: Request, a: Answers, asked: seq<int>, c: Coverage, r: Record)
    requires r in Replies(id => a.says(c.provider, id), asked) && Settles(q, r) && r.id.value in asked
    ensures var records := Replies(id => a.says(c.provider, id), asked);
            var got := Kept(Accepted(records, asked, |records|), r => Settles(q, r));
            r.id.value in IdsOf(got, |got|)
  {
    var says := id => a.says(c.provider, id);
    var records := Replies(says, asked);
    var accepted := Accepted(records, asked, |records|);
    AcceptedFacts(records, asked, |records|);
    assert records[..|records|] == records;
    var i :| 0 <= i < |accepted| && accepted[i].id == r.id;
    RepliesAre(says, asked, r);
    RepliesAre(says, asked, accepted[i]);
    assert accepted[i] == r;
    KeptMember(accepted, r => Settles(q, r), r);
  }

  /** After k providers the record fetched for an id is what they say of it. */
  predicate FetchedAlone(q: Request, a: Answers, refresh: seq<int>, k: nat, p: Progress, id: int)
    requires k <= |q.coverage|
  {
    LastOf(p.fetched, id, |p.fetched|) == if id in refresh then SaidBy(q, a, id, k) else None
  }

  lemma RoundsPerId(q: Request, a: Answers, refresh: seq<int>, k: nat, id: int)
    requires k <= |q.coverage|
    ensures FetchedAlone(q, a, refresh, k, Rounds(q, PerId(a), refresh, k), id)
  {
    var b := PerId(a);
    var step := (p: Progress, c: Coverage) => Round(q, b, p, c);
    var holds := (i: int, p: Progress) => AloneAt(q, a, refresh, i, p, id);
    NothingYet(refresh);
    forall i: nat, p | i < |q.coverage| && holds(i, p) ensures holds(i + 1, step(p, q.coverage[i])) {
      AloneNext(q, a, refresh, i, p, id);
    }
    FoldedKeeps(step, Progress(refresh, []), q.coverage, k, holds);
  }

  ghost predicate AloneAt(q: Request, a: Answers, refresh: seq<int>, i: int, p: Progress, id: int) {
    0 <= i <= |q.coverage| && Partitioned(refresh, p) && FetchedAlone(q, a, refresh, i, p, id)
  }

  lemma AloneNext(q: Request, a: Answers, refresh: seq<int>, i: nat, p: Progress, id: int)
    requires i < |q.coverage| && AloneAt(q, a, refresh, i, p, id)
    ensures AloneAt(q, a, refresh, i + 1, Round(q, PerId(a), p, q.coverage[i]), id)
  {
    RoundPartitions(q, PerId(a), refresh, p, q.coverage[i]);
    RoundPerId(q, a, refresh, p, q.coverage[i], id);
  }

  lemma RoundPerId(q: Request, a: Answers, refresh: seq<int>, p: Progress, c: Coverage, id: int)
    requires Partitioned(refresh, p)
    ensures var was, n := LastOf(p.fetched, id, |p.fetched|), Round(q, PerId(a), p, c);
            LastOf(n.fetched, id, |n.fetched|) == if was.Some? then was else if id in refresh then Said(q, a, c, id) else None
  {
    var got, was := Settling(q, PerId(a), p, c), IdsOf(p.fetched, |p.fetched|);
    KeptMember(refresh, id => id !in was, id);
    LastOfIs(p.fetched, id, |p.fetched|);
    SettlingPerId(q, a, p, c, id);
    SettlingDistinct(q, PerId(a), p, c);
    LastMerged(q, got, id);
    LastOfAppend(p.fetched, MergedAll(q, got, |got|), id);
    if id in IdsOf(got, |got|) {
      var i :| 0 <= i < |got| && got[i].id == Some(id);
    }
  }

  lemma LastMerged(q: Request, got: seq<Record>, id: int)
    requires DistinctIds(got)
    ensures var m := MergedAll(q, got, |got|);
            && (LastOf(m, id, |m|).Some? <==> id in IdsOf(got, |got|))
            && forall i | 0 <= i < |got| && got[i].id == Some(id) :: LastOf(m, id, |m|) == Some(Merged(q, got[i]))
  {
    var m := MergedAll(q, got, |got|);
    MergedAllAt(q, got, |got|);
    assert forall i | 0 <= i < |m| :: m[i].id == got[i].id;
    LastOfIs(m, id, |m|);
    if id in IdsOf(got, |got|) {
      var i :| 0 <= i < |got| && got[i].id == Some(id);
      assert m[i].id == Some(id);
    }
  }

  function Cached(q: Request, id: int): Option<Item> {
    if q.cache.Some? && id in q.cache.value then Some(q.cache.value[id]) else None
  }

  /** Coverage k covers what the id lacks, its provider is up, and it answers for the id,
      with the upload date where that is lacking. */
  predicate AnswersFor(q: Request, a: Answers, k: int, id: int)
    requires 0 <= k < |q.coverage|
  {
    var c, lacking := q.coverage[k], if Cached(q, id).Some? then Cached(q, id).value.stale else q.needed;
    && c.provider != Unsupported && a.up(c.provider) && lacking <= c.fields
    && a.says(c.provider, id).Some?
    && (UPLOAD_DATE in lacking ==> UPLOAD_DATE in a.says(c.provider, id).value && a.says(c.provider, id).value[UPLOAD_DATE].Some?)
  }

  /** Coverage k is the first that answers for the id. */
  predicate FirstAnswers(q: Request, a: Answers, k: int, id: int) {
    0 <= k < |q.coverage| && AnswersFor(q, a, k, id) && forall j | 0 <= j < k :: !AnswersFor(q, a, j, id)
  }

  /** The row of an id: a fresh cached record as it is; else the cached record updated with
      the first provider that answers for the id; else yt-dlp's; else the stale one. */
  ghost predicate RowMeans(q: Request, a: Answers, id: int, row: Option<Record>) {
    var cached := if Cached(q, id).Some? then Some(Cached(q, id).value.record) else None;
    if Cached(q, id).Some? && Cached(q, id).value.stale == {} then row == cached
    else if exists k :: FirstAnswers(q, a, k, id) then
      && row.Some? && row.value.id == Some(id)
      && forall k | FirstAnswers(q, a, k, id) :: Updated(cached, a.says(q.coverage[k].provider, id).value, row.value.fields)
    else if a.detailed(id).Some? then row == Some(Record(Some(id), a.detailed(id).value))
    else row == cached
  }

  lemma {:induction false} SaidByFirst(q: Request, a: Answers, id: int, n: nat) returns (k: int)
    requires n <= |q.coverage|
    ensures SaidBy(q, a, id, n).None? ==> forall j | 0 <= j < n :: !AnswersFor(q, a, j, id)
    ensures SaidBy(q, a, id, n).Some? ==>
              && 0 <= k < n && FirstAnswers(q, a, k, id)
              && SaidBy(q, a, id, n).value == Merged(q, Record(Some(id), a.says(q.coverage[k].provider, id).value))
  {
    k := 0;
    if n > 0 {
      k := SaidByFirst(q, a, id, n - 1);
      if SaidBy(q, a, id, n - 1).None? {
        k := n - 1;
      }
    }
  }

  /** Batches do not matter: each row is what its id would get alone. */
  lemma RowIsAlone(q: Request, a: Answers, ids: seq<int>, id: int)
    requires id in ids
    ensures RowOf(q, Fetched(q, PerId(a), ids), id) == RowAlone(q, a, id)
    ensures RowMeans(q, a, id, RowAlone(q, a, id))
  {
    var b, refresh := PerId(a), q.RefreshIds(ids);
    var p := Rounds(q, b, refresh, |q.coverage|);
    RefreshIsExact(q, b, ids, id);
    RowSource(q, b, ids, id);
    RoundsPerId(q, a, refresh, |q.coverage|, id);
    LastOfIs(p.fetched, id, |p.fetched|);
    LastReply(a.detailed, p.remaining, id);
    RowAloneMeans(q, a, id);
  }

  lemma RowAloneMeans(q: Request, a: Answers, id: int)
    ensures RowMeans(q, a, id, RowAlone(q, a, id))
  {
    var k := SaidByFirst(q, a, id, |q.coverage|);
    forall j | FirstAnswers(q, a, j, id) && FirstAnswers(q, a, k, id) ensures j == k {
    }
  }

  lemma {:induction false} RowsAreAlone(q: Request, a: Answers, all: seq<int>, ids: seq<int>)
    requires forall i | 0 <= i < |ids| :: ids[i] in all
    ensures Rows(q, Fetched(q, PerId(a), all), ids) == RowsAlone(q, a, ids)
  {
    if ids != [] {
      RowsAreAlone(q, a, all, ids[..|ids| - 1]);
      RowIsAlone(q, a, all, ids[|ids| - 1]);
    }
  }

  lemma {:induction false} RowsAloneAppend(q: Request, a: Answers, x: seq<int>, y: seq<int>)
    ensures RowsAlone(q, a, x + y) == RowsAlone(q, a, x) + RowsAlone(q, a, y)
  {
    if y == [] {
      assert x + y == x;
    } else {
      var front := y[..|y| - 1];
      assert (x + y)[..|x + y| - 1] == x + front;
      RowsAloneAppend(q, a, x, front);
    }
  }
}
