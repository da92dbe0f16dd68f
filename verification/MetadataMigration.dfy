/** Phase "populate v4 representation": replays the v3 metadata records, oldest
    first, into one row per media identity, in batches of BATCH_SIZE. */
module MetadataMigration {
  import opened Options
  import opened SqlOrder
  import opened CacheTables
  import opened Batches
  import opened SourceMigration

  /** Media and details: all that this phase writes. */
  datatype Catalogue = Catalogue(media: Media, details: Details)

  /** The column values written for a record: the registered fields it states as a
      scalar or null, after SQLite's type affinity; arrays and objects are passed over. */
  function StoredColumns(platform: Platform, p: Provider, record: Record): map<Name, Scalar> {
    map f | f in p.fields && Lookup(record, f).Plain? :: platform.stored(p.fields[f], Lookup(record, f).value)
  }

  function StoredCollections(p: Provider, record: Record): map<Name, Option<Json>> {
    map c | c in p.collections :: if c in record then Some(record[c]) else None
  }

  /** _normalise_record_into_v4 for one historical record, or None where it raises:
      an unusable identity, a timestamp without a zone, or a time before the last
      attempt already recorded. */
  function PutRecord(platform: Platform, p: Provider, c: Catalogue, id: Text, fetched: Text, record: Record)
    : Option<Catalogue>
  {
    if !platform.Identity(id) || !platform.parse(fetched).At? then None
    else
      var media := WithEntity(c.media, id);
      var e := media.ids[id];
      if e in c.details.acquisition && LaterThan(platform, c.details.acquisition[e].attempt, fetched) then None
      else
        var was := if e in c.details.columns then c.details.columns[e] else map[];
        Some(Catalogue(media, Details(
          c.details.columns[e := was + StoredColumns(platform, p, record)],
          c.details.collections[e := StoredCollections(p, record)],
          c.details.acquisition[e := Acquisition(Success, fetched, Some(fetched))])))
  }

  /** The instant of a is after the instant of b, both being read as instants. */
  predicate LaterThan(platform: Platform, a: Text, b: Text) {
    platform.parse(a).At? && platform.parse(b).At? && platform.parse(a).instant > platform.parse(b).instant
  }

  function RecordAt(metadata: map<(Text, Text), MetaRow>, k: Key): Record {
    if (k.1, k.2) in metadata then metadata[(k.1, k.2)].record else map[]
  }

  /** The step for one (fetched_at, source_url, video_id) row of metadata. */
  function Replay(platform: Platform, p: Provider, metadata: map<(Text, Text), MetaRow>)
    : (Catalogue, Key) -> Option<Catalogue>
  {
    (c: Catalogue, k: Key) => PutRecord(platform, p, c, k.2, k.0, RecordAt(metadata, k))
  }

  // ---- When the replay succeeds, and what it leaves ----------------------------

  /** What the first n records must satisfy: usable identities, zoned times, and
      for each media identity, times that follow the text order of the rows. */
  ghost predicate Replayable(platform: Platform, q: seq<Key>, n: nat)
    requires n <= |q|
  {
    && (forall i | 0 <= i < n :: q[i].2 != EMPTY_TEXT && platform.trimmed(q[i].2) && platform.parse(q[i].0).At?)
    && (forall i, j {:trigger q[i], q[j]} | 0 <= i < j < n && q[i].2 == q[j].2 ::
          platform.parse(q[i].0).instant <= platform.parse(q[j].0).instant)
  }

  /** The last of the first n records of one media identity. */
  function Latest(q: seq<Key>, n: nat, id: Text): Option<Key>
    requires n <= |q|
  {
    if n == 0 then None
    else if q[n - 1].2 == id then Some(q[n - 1])
    else Latest(q, n - 1, id)
  }

  lemma LatestIs(q: seq<Key>, n: nat, id: Text) returns (i: int)
    requires n <= |q|
    ensures Latest(q, n, id).Some? ==> 0 <= i < n && q[i].2 == id && Latest(q, n, id).value == q[i]
    ensures Latest(q, n, id).Some? ==> forall j | i < j < n :: q[j].2 != id
    ensures Latest(q, n, id).None? ==> forall j | 0 <= j < n :: q[j].2 != id
  {
    if n == 0 {
      i := 0;
    } else if q[n - 1].2 == id {
      i := n - 1;
    } else {
      i := LatestIs(q, n - 1, id);
    }
  }

  /** One media identity's rows are those of its latest record k. */
  ghost predicate Holds(platform: Platform, p: Provider, d: Details, e: int, k: Key, record: Record) {
    && e in d.columns && e in d.collections && e in d.acquisition
    && (forall f {:trigger f in p.fields} | f in p.fields && Lookup(record, f).Plain? ::
          f in d.columns[e] && d.columns[e][f] == platform.stored(p.fields[f], Lookup(record, f).value))
    && d.collections[e] == StoredCollections(p, record)
    && d.acquisition[e] == Acquisition(Success, k.0, Some(k.0))
  }

  /** After n records: each identity holds its latest record, and no row was
      written for an identity without one. */
  ghost predicate Replayed(platform: Platform, p: Provider, metadata: map<(Text, Text), MetaRow>,
                           start: Media, c: Catalogue, q: seq<Key>, n: nat)
    requires n <= |q|
  {
    && c.media.Unique() && Grows(start.ids, c.media.ids)
    && (forall v {:trigger Latest(q, n, v)} :: v in c.media.ids <==> v in start.ids || Latest(q, n, v).Some?)
    && (forall v {:trigger HoldsLatest(platform, p, metadata, c, q, n, v)} | v in c.media.ids ::
          HoldsLatest(platform, p, metadata, c, q, n, v))
    && (forall e {:trigger NoRows(c.details, e)} | e >= c.media.next :: NoRows(c.details, e))
  }

  ghost predicate HoldsLatest(platform: Platform, p: Provider, metadata: map<(Text, Text), MetaRow>,
                              c: Catalogue, q: seq<Key>, n: nat, v: Text)
    requires n <= |q| && v in c.media.ids
  {
    match Latest(q, n, v)
    case None => NoRows(c.details, c.media.ids[v])
    case Some(k) => Holds(platform, p, c.details, c.media.ids[v], k, RecordAt(metadata, k))
  }

  ghost predicate NoRows(d: Details, e: int) {
    e !in d.columns && e !in d.collections && e !in d.acquisition
  }

  lemma ReplayStep(platform: Platform, p: Provider, metadata: map<(Text, Text), MetaRow>,
                   start: Media, c: Catalogue, q: seq<Key>, n: nat)
    requires n < |q| && Replayed(platform, p, metadata, start, c, q, n) && Replayable(platform, q, n)
    ensures var next := PutRecord(platform, p, c, q[n].2, q[n].0, RecordAt(metadata, q[n]));
            && (next.Some? <==> Replayable(platform, q, n + 1))
            && (next.Some? ==> Replayed(platform, p, metadata, start, next.value, q, n + 1))
  {
    var k := q[n];
    var next := PutRecord(platform, p, c, k.2, k.0, RecordAt(metadata, k));
    StepAccepted(platform, p, metadata, start, c, q, n);
    if next.Some? {
      var d := next.value;
      WithEntityFacts(c.media, k.2);
      forall v ensures v in d.media.ids <==> v in start.ids || Latest(q, n + 1, v).Some? {
        assert v in c.media.ids <==> v in start.ids || Latest(q, n, v).Some?;
      }
      forall v | v in d.media.ids ensures HoldsLatest(platform, p, metadata, d, q, n + 1, v) {
        assert v in c.media.ids <==> v in start.ids || Latest(q, n, v).Some?;
        StepHolds(platform, p, metadata, c, d, q, n, v);
      }
      forall e | e >= d.media.next ensures NoRows(d.details, e) {
        assert NoRows(c.details, e);
      }
    }
  }

  lemma StepHolds(platform: Platform, p: Provider, metadata: map<(Text, Text), MetaRow>,
                  c: Catalogue, d: Catalogue, q: seq<Key>, n: nat, v: Text)
    requires n < |q| && c.media.Unique() && d.media.Unique()
    requires PutRecord(platform, p, c, q[n].2, q[n].0, RecordAt(metadata, q[n])) == Some(d)
    requires v in d.media.ids
    requires v in c.media.ids ==> HoldsLatest(platform, p, metadata, c, q, n, v)
    requires v !in c.media.ids ==> v == q[n].2
    ensures HoldsLatest(platform, p, metadata, d, q, n + 1, v)
  {
    if v != q[n].2 {
      assert Latest(q, n + 1, v) == Latest(q, n, v);
      assert d.media.ids[v] != d.media.ids[q[n].2];
    }
  }

  lemma StepAccepted(platform: Platform, p: Provider, metadata: map<(Text, Text), MetaRow>,
                     start: Media, c: Catalogue, q: seq<Key>, n: nat)
    requires n < |q| && Replayed(platform, p, metadata, start, c, q, n) && Replayable(platform, q, n)
    ensures PutRecord(platform, p, c, q[n].2, q[n].0, RecordAt(metadata, q[n])).Some? <==> Replayable(platform, q, n + 1)
  {
    var k := q[n];
    var i := LatestIs(q, n, k.2);
    var last := Latest(q, n, k.2);
    assert k.2 in c.media.ids <==> k.2 in start.ids || last.Some?;
    assert NoRows(c.details, c.media.next);
    assert k.2 in c.media.ids ==> HoldsLatest(platform, p, metadata, c, q, n, k.2);
    if last.Some? {
      assert Holds(platform, p, c.details, c.media.ids[k.2], q[i], RecordAt(metadata, q[i]));
      forall j | 0 <= j < n && q[j].2 == k.2 && platform.parse(k.0).At? && !LaterThan(platform, q[i].0, k.0)
        ensures platform.parse(q[j].0).instant <= platform.parse(k.0).instant
      {
        assert platform.parse(q[i].0).At? && platform.parse(q[j].0).At?;
        if j < i { assert platform.parse(q[j].0).instant <= platform.parse(q[i].0).instant; }
      }
    }
  }

  /** The replay of n records succeeds exactly when they are replayable, and then
      every identity holds its latest record. */
  lemma {:induction false} ReplayMeaning(platform: Platform, p: Provider, metadata: map<(Text, Text), MetaRow>,
                      start: Media, q: seq<Key>, n: nat)
    requires n <= |q| && start.Unique()
    ensures var c := Fold(Replay(platform, p, metadata), Catalogue(start, Details(map[], map[], map[])), q, n);
            && (c.Some? <==> Replayable(platform, q, n))
            && (c.Some? ==> Replayed(platform, p, metadata, start, c.value, q, n))
  {
    if n > 0 {
      ReplayMeaning(platform, p, metadata, start, q, n - 1);
      var c := Fold(Replay(platform, p, metadata), Catalogue(start, Details(map[], map[], map[])), q, n - 1);
      if c.Some? {
        ReplayStep(platform, p, metadata, start, c.value, q, n - 1);
      }
    }
  }
}
