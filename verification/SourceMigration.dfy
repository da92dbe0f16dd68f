/** Phase "populate v4 source state": copies v3 source tables into a fresh v4
    destination, allocating media entities as it meets them. */
module SourceMigration {
  import opened Options
  import opened SqlOrder
  import opened CacheTables

  const EMPTY_STORE := V4(Media(map[], 1), SourceTable(map[], 1), map[], Details(map[], map[], map[]))

  /** What the v4 CHECK constraints demand of the v3 rows of one source. */
  predicate SourceAccepted(v3: V3, url: Text) {
    && (url in v3.observations ==> v3.observations[url].row.entries >= 0)
    && (url in v3.coverage ==>
          var c := v3.coverage[url].row; c.observed >= 0 && c.cached >= 0 && c.complete in {0, 1})
    && (url in v3.frontiers ==>
          v3.frontiers[url].row.known >= 0 && v3.frontiers[url].row.confirmations >= 0)
  }

  /** A row of one source mentions media identity v. */
  ghost predicate Mentions(v3: V3, url: Text, v: Text) {
    (url, v) in v3.entries || (url in v3.frontiers && v3.frontiers[url].row.head == v)
  }

  ghost predicate Named(ids: map<Text, int>, v: Text, entityId: int) {
    v in ids && ids[v] == entityId
  }

  /** Entity references of one source's rows resolve. */
  ghost predicate NoDangling(ids: map<Text, int>, rows: SourceRows) {
    && (forall e | e in rows.entries :: exists v :: Named(ids, v, e))
    && (rows.frontier.Some? ==> exists v :: Named(ids, v, rows.frontier.value.head))
  }

  /** db holds exactly the v3 state of the sources in done, and nothing else. */
  ghost predicate Imported(v3: V3, db: V4, done: set<Text>, unknown: Text) {
    && db.KeysUnique()
    && db.sources.byUrl.Keys == done
    && (forall u {:trigger SourceReads(v3, db, u, unknown)} | u in done :: SourceReads(v3, db, u, unknown))
    && RowsOwned(db.media.ids, db.sources.byUrl, db.rows)
  }

  /** Every row belongs to a source and refers to known media. */
  ghost predicate RowsOwned(ids: map<Text, int>, sources: map<Text, Source>, rows: map<int, SourceRows>) {
    && (forall i {:trigger rows[i]} | i in rows :: NoDangling(ids, rows[i]))
    && (forall i {:trigger Owned(sources, i)} | i in rows :: Owned(sources, i))
  }

  /** Some source has this id. */
  ghost predicate Owned(sources: map<Text, Source>, id: int) {
    exists u {:trigger Owner(sources, u, id)} :: Owner(sources, u, id)
  }

  ghost predicate Owner(sources: map<Text, Source>, u: Text, id: int) { u in sources && sources[u].id == id }

  /** Entities are only ever added, and never renumbered. */
  ghost predicate Grows(was: map<Text, int>, now: map<Text, int>) {
    forall v | v in was :: v in now && now[v] == was[v]
  }

  // ---- What the phase computes ------------------------------------------------

  /** INSERT ... ON CONFLICT DO NOTHING into media_entities. */
  function WithEntity(media: Media, id: Text): (now: Media)
    ensures id in now.ids
  {
    if id in media.ids then media else Media(media.ids[id := media.next], media.next + 1)
  }

  function WithEntities(media: Media, q: seq<Key>, n: nat): Media
    requires n <= |q|
  {
    if n == 0 then media else WithEntity(WithEntities(media, q, n - 1), q[n - 1].1)
  }

  /** INSERT ... ON CONFLICT(source_url, facet) DO UPDATE SET source_kind. */
  function WithSource(sources: SourceTable, url: Text, kind: Text): (now: SourceTable)
    ensures url in now.byUrl
  {
    if url in sources.byUrl
    then sources.(byUrl := sources.byUrl[url := sources.byUrl[url].(kind := kind)])
    else SourceTable(sources.byUrl[url := Source(sources.next, kind)], sources.next + 1)
  }

  /** Every entity one source's rows mention. */
  ghost function WithMediaOf(v3: V3, media: Media, url: Text): Media {
    var listed := WithEntities(media, v3.EntryRows(url), |v3.EntryRows(url)|);
    if url in v3.frontiers then WithEntity(listed, v3.frontiers[url].row.head) else listed
  }

  ghost function RowsFor(v3: V3, ids: map<Text, int>, url: Text): SourceRows {
    var q := v3.EntryRows(url);
    SourceRows(
      Unkinded(v3.observations, url),
      if Known(ids, q, |q|) then EntryTable(ids, q, |q|) else map[],
      Unkinded(v3.coverage, url),
      if url in v3.frontiers && v3.frontiers[url].row.head in ids
        then Some(v3.frontiers[url].row.(head := ids[v3.frontiers[url].row.head])) else None)
  }

  /** db after one source's rows. */
  ghost function WithSourceRows(v3: V3, db: V4, url: Text, unknown: Text): V4 {
    var media := WithMediaOf(v3, db.media, url);
    var sources := WithSource(db.sources, url, v3.KindOf(url, unknown));
    V4(media, sources, db.rows[sources.byUrl[url].id := RowsFor(v3, media.ids, url)], db.details)
  }

  /** db after the first n sources of urls. */
  ghost function WithSources(v3: V3, db: V4, urls: seq<Text>, n: nat, unknown: Text): V4
    requires n <= |urls|
  {
    if n == 0 then db else WithSourceRows(v3, WithSources(v3, db, urls, n - 1, unknown), urls[n - 1], unknown)
  }

  class Destination {
    var media: Media
    var sources: SourceTable
    var rows: map<int, SourceRows>
    var details: Details

    constructor ()
      ensures Store() == EMPTY_STORE
    {
      media, sources, rows := Media(map[], 1), SourceTable(map[], 1), map[];
      details := Details(map[], map[], map[]);
    }

    function Store(): V4
      reads this
    {
      V4(media, sources, rows, details)
    }

    /** INSERT ... ON CONFLICT DO NOTHING, then SELECT entity_id. */
    method EntityFor(id: Text) returns (entityId: int)
      modifies this`media
      ensures media == WithEntity(old(media), id) && entityId == media.ids[id]
    {
      if id !in media.ids {
        media := Media(media.ids[id := media.next], media.next + 1);
      }
      entityId := media.ids[id];
    }

    /** One entity and one entry row per ordered v3 entry, numbered from zero. */
    method InsertEntries(q: seq<Key>) returns (entries: map<int, int>)
      modifies this`media
      ensures media == WithEntities(old(media), q, |q|)
      ensures Known(media.ids, q, |q|) && entries == EntryTable(media.ids, q, |q|)
    {
      entries := map[];
      var i := 0;
      while i < |q|
        invariant 0 <= i <= |q|
        invariant media == WithEntities(old(media), q, i)
        invariant Known(media.ids, q, i) && entries == EntryTable(media.ids, q, i)
      {
        ghost var was := media.ids;
        var entityId := EntityFor(q[i].1);
        EntryTableKept(was, media.ids, q, i);
        entries := entries[entityId := i];
        i := i + 1;
      }
    }

    /** One source: identity, observation, entries, coverage and frontier.
        A row that a CHECK constraint refuses ends the whole transaction. */
    method ImportSource(v3: V3, url: Text, unknown: Text) returns (ok: bool)
      modifies this`media, this`sources, this`rows
      ensures ok <==> SourceAccepted(v3, url)
      ensures ok ==> Store() == WithSourceRows(v3, old(Store()), url, unknown)
    {
      sources := WithSource(sources, url, v3.KindOf(url, unknown));
      var mine := NO_ROWS;
      if url in v3.observations {
        if v3.observations[url].row.entries < 0 { return false; }
        mine := mine.(observation := Some(v3.observations[url].row));
      }
      var q := v3.EntryRows(url);
      var entries := InsertEntries(q);
      mine := mine.(entries := entries);
      if url in v3.coverage {
        var c := v3.coverage[url].row;
        if c.observed < 0 || c.cached < 0 || c.complete !in {0, 1} { return false; }
        mine := mine.(coverage := Some(c));
      }
      if url in v3.frontiers {
        var f := v3.frontiers[url].row;
        ghost var listed := media.ids;
        var head := EntityFor(f.head);
        if f.known < 0 || f.confirmations < 0 { return false; }
        mine := mine.(frontier := Some(f.(head := head)));
        EntryTableKept(listed, media.ids, q, |q|);
      }
      rows := rows[sources.byUrl[url].id := mine];
      ok := true;
    }

    /** Every source of urls in one transaction. */
    method ImportSources(v3: V3, urls: seq<Text>, unknown: Text) returns (ok: bool)
      modifies this`media, this`sources, this`rows
      ensures ok <==> forall j | 0 <= j < |urls| :: SourceAccepted(v3, urls[j])
      ensures ok ==> Store() == WithSources(v3, old(Store()), urls, |urls|, unknown)
      ensures !ok ==> Store() == old(Store())
    {
      var begun := Store();
      var i := 0;
      while i < |urls|
        invariant 0 <= i <= |urls|
        invariant Store() == WithSources(v3, old(Store()), urls, i, unknown)
        invariant forall j | 0 <= j < i :: SourceAccepted(v3, urls[j])
      {
        ok := ImportSource(v3, urls[i], unknown);
        if !ok {
          media, sources, rows := begun.media, begun.sources, begun.rows;
          return;
        }
        i := i + 1;
      }
      ok := true;
    }

    /** The phase: the sources with any v3 state, in URL order. */
    method PopulateSourceState(v3: V3, unknown: Text) returns (ok: bool)
      requires Store() == EMPTY_STORE
      modifies this`media, this`sources, this`rows
      ensures ok <==> forall u | u in v3.StateUrls() :: SourceAccepted(v3, u)
      ensures ok ==> Store() == SourcePhase(v3, unknown)
      ensures !ok ==> Store() == old(Store())
    {
      ok := ImportSources(v3, Sorted(v3.StateUrls()), unknown);
      SortedLists(v3.StateUrls());
    }
  }

  /** What the phase leaves in an empty destination. */
  ghost function SourcePhase(v3: V3, unknown: Text): V4 {
    WithSources(v3, EMPTY_STORE, Sorted(v3.StateUrls()), |Sorted(v3.StateUrls())|, unknown)
  }

  // ---- What that store says ---------------------------------------------------

  lemma EntryRowsFacts(v3: V3, url: Text)
    ensures var q := v3.EntryRows(url);
            && (forall j | 0 <= j < |q| :: (url, q[j].1) in v3.entries)
            && (forall i, j | 0 <= i < j < |q| :: q[i].1 != q[j].1)
            && (forall v | (url, v) in v3.entries :: exists j :: 0 <= j < |q| && q[j].1 == v)
  {
    var s := set k | k in v3.entries && k.0 == url :: (v3.entries[k], k.1, 0);
    var q := v3.EntryRows(url);
    OrderByLists(s);
    forall j | 0 <= j < |q| ensures (url, q[j].1) in v3.entries && q[j].0 == v3.entries[(url, q[j].1)] {
      assert q[j] in q;
      assert q[j] in s;
    }
    forall v | (url, v) in v3.entries ensures exists j :: 0 <= j < |q| && q[j].1 == v {
      var k := (url, v);
      assert (v3.entries[k], k.1, 0) in s;
      assert (v3.entries[k], k.1, 0) in q;
    }
    forall i, j | 0 <= i < j < |q| ensures q[i].1 != q[j].1 {
      assert Before(q[i], q[j]);
      assert q[i] in s && q[j] in s;
    }
  }

  /** The media identities of the first n rows. */
  ghost function RowIds(q: seq<Key>, n: nat): set<int>
    requires n <= |q|
  {
    if n == 0 then {} else RowIds(q, n - 1) + {q[n - 1].1}
  }

  lemma RowIdsMember(q: seq<Key>, n: nat)
    requires n <= |q|
    ensures forall v :: v in RowIds(q, n) <==> exists j :: 0 <= j < n && q[j].1 == v
  {
    if n > 0 {
      RowIdsMember(q, n - 1);
    }
  }

  lemma RowIdsAre(v3: V3, url: Text)
    ensures forall v :: v in RowIds(v3.EntryRows(url), |v3.EntryRows(url)|) <==> (url, v) in v3.entries
  {
    RowIdsMember(v3.EntryRows(url), |v3.EntryRows(url)|);
    EntryRowsFacts(v3, url);
  }

  /** The entry rows of the first n listed media: entity id to position. */
  ghost function EntryTable(ids: map<Text, int>, q: seq<Key>, n: nat): map<int, int>
    requires n <= |q| && Known(ids, q, n)
  {
    if n == 0 then map[] else EntryTable(ids, q, n - 1)[ids[q[n - 1].1] := n - 1]
  }

  ghost predicate Known(ids: map<Text, int>, q: seq<Key>, n: nat)
    requires n <= |q|
  {
    forall j | 0 <= j < n :: q[j].1 in ids
  }

  lemma EntryTableKept(was: map<Text, int>, now: map<Text, int>, q: seq<Key>, n: nat)
    requires n <= |q| && Known(was, q, n) && Grows(was, now)
    ensures Known(now, q, n) && EntryTable(now, q, n) == EntryTable(was, q, n)
  {
    forall j | 0 <= j < n ensures q[j].1 in now && now[q[j].1] == was[q[j].1] {
      var v: Text := q[j].1;
      assert v in was;
      assert v in now && now[v] == was[v];
    }
    if n > 0 {
      EntryTableKept(was, now, q, n - 1);
    }
  }

  lemma EntryTableAt(media: Media, q: seq<Key>, n: nat, j: nat)
    requires j < n <= |q| && Known(media.ids, q, n) && media.Unique()
    requires forall i, k | 0 <= i < k < |q| :: q[i].1 != q[k].1
    ensures media.ids[q[j].1] in EntryTable(media.ids, q, n)
    ensures EntryTable(media.ids, q, n)[media.ids[q[j].1]] == j
  {
    if j < n - 1 {
      EntryTableAt(media, q, n - 1, j);
    }
  }

  lemma EntryTableFrom(ids: map<Text, int>, q: seq<Key>, n: nat, e: int) returns (j: nat)
    requires n <= |q| && Known(ids, q, n) && e in EntryTable(ids, q, n)
    ensures j < n && ids[q[j].1] == e
  {
    if e == ids[q[n - 1].1] {
      j := n - 1;
    } else {
      j := EntryTableFrom(ids, q, n - 1, e);
    }
  }

  lemma EntriesListed(media: Media, q: seq<Key>)
    requires media.Unique() && Known(media.ids, q, |q|)
    requires forall i, k | 0 <= i < k < |q| :: q[i].1 != q[k].1
    ensures ListEntries(media.ids, EntryTable(media.ids, q, |q|)) == Enumerated(q)
  {
    var ids := media.ids;
    var entries := EntryTable(ids, q, |q|);
    var s := set v | v in ids && ids[v] in entries :: (entries[ids[v]], v, 0);
    var r := Enumerated(q);
    forall k | k in s ensures k in r {
      var v :| v in ids && ids[v] in entries && k == (entries[ids[v]], v, 0);
      var j := EntryTableFrom(ids, q, |q|, ids[v]);
      EntryTableAt(media, q, |q|, j);
      assert r[j] == k;
    }
    forall k | k in r ensures k in s {
      var j :| 0 <= j < |r| && r[j] == k;
      EntryTableAt(media, q, |q|, j);
    }
    OrderByIs(s, r);
  }

  /** Rows whose entities resolve read the same after more entities arrive. */
  lemma ReadsKept(was: map<Text, int>, now: Media, rows: SourceRows)
    requires Grows(was, now.ids) && now.Unique() && NoDangling(was, rows)
    ensures ListEntries(now.ids, rows.entries) == ListEntries(was, rows.entries)
    ensures ReadFrontier(now.ids, rows.frontier) == ReadFrontier(was, rows.frontier)
    ensures NoDangling(now.ids, rows)
  {
    var s := set v | v in was && was[v] in rows.entries :: (rows.entries[was[v]], v, 0);
    var t := set v | v in now.ids && now.ids[v] in rows.entries :: (rows.entries[now.ids[v]], v, 0);
    forall v | v in now.ids && now.ids[v] in rows.entries ensures v in was {
      var w :| Named(was, w, now.ids[v]);
    }
    assert s == t;
    forall e | e in rows.entries ensures exists v :: Named(now.ids, v, e) {
      var v :| Named(was, v, e);
      assert Named(now.ids, v, e);
    }
    if rows.frontier.Some? {
      var v :| Named(was, v, rows.frontier.value.head);
      assert Named(now.ids, v, rows.frontier.value.head);
      ExternalIdInverts(Media(was, now.next), v);
      ExternalIdInverts(now, v);
    }
  }

  lemma WithEntityFacts(media: Media, id: Text)
    requires media.Unique()
    ensures var now := WithEntity(media, id);
            now.Unique() && Grows(media.ids, now.ids) && now.ids.Keys == media.ids.Keys + {id}
  {
  }

  lemma WithEntitiesFacts(media: Media, q: seq<Key>, n: nat)
    requires n <= |q| && media.Unique()
    ensures var now := WithEntities(media, q, n);
            && now.Unique() && Grows(media.ids, now.ids)
            && now.ids.Keys == media.ids.Keys + RowIds(q, n)
            && Known(now.ids, q, n)
  {
    if n > 0 {
      WithEntitiesFacts(media, q, n - 1);
      WithEntityFacts(WithEntities(media, q, n - 1), q[n - 1].1);
    }
  }

  ghost function MediaOf(v3: V3, url: Text): set<Text> {
    RowIds(v3.EntryRows(url), |v3.EntryRows(url)|)
    + (if url in v3.frontiers then {v3.frontiers[url].row.head} else {})
  }

  lemma WithMediaOfFacts(v3: V3, media: Media, url: Text)
    requires media.Unique()
    ensures var now := WithMediaOf(v3, media, url);
            && now.Unique() && Grows(media.ids, now.ids)
            && now.ids.Keys == media.ids.Keys + MediaOf(v3, url)
            && Known(now.ids, v3.EntryRows(url), |v3.EntryRows(url)|)
            && (url in v3.frontiers ==> v3.frontiers[url].row.head in now.ids)
  {
    var q := v3.EntryRows(url);
    WithEntitiesFacts(media, q, |q|);
    if url in v3.frontiers {
      WithEntityFacts(WithEntities(media, q, |q|), v3.frontiers[url].row.head);
    }
  }

  lemma NewRowsRead(v3: V3, media: Media, url: Text)
    requires media.Unique() && Known(media.ids, v3.EntryRows(url), |v3.EntryRows(url)|)
    requires url in v3.frontiers ==> v3.frontiers[url].row.head in media.ids
    ensures RowsRead(v3, media.ids, RowsFor(v3, media.ids, url), url)
    ensures NoDangling(media.ids, RowsFor(v3, media.ids, url))
  {
    var q := v3.EntryRows(url);
    EntryRowsFacts(v3, url);
    EntriesListed(media, q);
    if url in v3.frontiers {
      var head := v3.frontiers[url].row.head;
      ExternalIdInverts(media, head);
      assert Named(media.ids, head, media.ids[head]);
    }
    forall e | e in EntryTable(media.ids, q, |q|) ensures exists v :: Named(media.ids, v, e) {
      var j := EntryTableFrom(media.ids, q, |q|, e);
      assert Named(media.ids, q[j].1, e);
    }
  }

  lemma ImportExtends(v3: V3, was: V4, done: set<Text>, url: Text, unknown: Text)
    requires Imported(v3, was, done, unknown) && url !in done
    ensures Imported(v3, WithSourceRows(v3, was, url, unknown), done + {url}, unknown)
  {
    var db := WithSourceRows(v3, was, url, unknown);
    WithMediaOfFacts(v3, was.media, url);
    NewRowsRead(v3, db.media, url);
    OwnedKept(was, db, url, RowsFor(v3, db.media.ids, url));
    forall u | u in done + {url} ensures SourceReads(v3, db, u, unknown) {
      if u != url {
        assert SourceReads(v3, was, u, unknown);
        var id := was.sources.byUrl[u].id;
        assert NoDangling(was.media.ids, RowsOf(was.rows, id)) by {
          if id in was.rows { assert NoDangling(was.media.ids, was.rows[id]); }
        }
        ReadsKept(was.media.ids, db.media, RowsOf(was.rows, id));
      }
    }
  }

  lemma OwnedKept(was: V4, db: V4, url: Text, rows: SourceRows)
    requires was.sources.Unique() && RowsOwned(was.media.ids, was.sources.byUrl, was.rows)
    requires Grows(was.media.ids, db.media.ids) && db.media.Unique()
    requires url !in was.sources.byUrl && url in db.sources.byUrl && db.sources.byUrl[url].id == was.sources.next
    requires db.sources.byUrl == was.sources.byUrl[url := db.sources.byUrl[url]]
    requires db.rows == was.rows[was.sources.next := rows] && NoDangling(db.media.ids, rows)
    ensures RowsOwned(db.media.ids, db.sources.byUrl, db.rows)
  {
    assert Owner(db.sources.byUrl, url, was.sources.next);
    forall i | i in db.rows ensures NoDangling(db.media.ids, db.rows[i]) && Owned(db.sources.byUrl, i) {
      if i != was.sources.next {
        assert Owned(was.sources.byUrl, i);
        var u :| Owner(was.sources.byUrl, u, i);
        assert Owner(db.sources.byUrl, u, i);
        ReadsKept(was.media.ids, db.media, was.rows[i]);
      }
    }
  }

  /** Every source of urls reads back as in v3, no row belongs to anything
      else, and exactly the media they mention are entities. */
  lemma {:induction false} SourcesImport(v3: V3, urls: seq<Text>, n: nat, unknown: Text)
    requires n <= |urls|
    requires forall i, j | 0 <= i < j < |urls| :: urls[i] != urls[j]
    ensures var db := WithSources(v3, EMPTY_STORE, urls, n, unknown);
            && Imported(v3, db, First(urls, n), unknown)
            && (forall v {:trigger MentionedIn(v3, First(urls, n), v)} ::
                  v in db.media.ids <==> MentionedIn(v3, First(urls, n), v))
            && db.details == EMPTY_STORE.details
  {
    if n > 0 {
      SourcesImport(v3, urls, n - 1, unknown);
      var was, url := WithSources(v3, EMPTY_STORE, urls, n - 1, unknown), urls[n - 1];
      var done := First(urls, n - 1);
      assert First(urls, n) == done + {url};
      ImportExtends(v3, was, done, url, unknown);
      WithMediaOfFacts(v3, was.media, url);
      MentionsExtend(v3, was.media.ids.Keys, done, url);
    }
  }

  ghost function First(urls: seq<Text>, n: nat): set<Text>
    requires n <= |urls|
  {
    set i | 0 <= i < n :: urls[i]
  }

  lemma FirstAll(urls: seq<Text>, all: set<Text>)
    requires forall i | 0 <= i < |urls| :: urls[i] in all
    requires forall u | u in all :: exists i :: 0 <= i < |urls| && urls[i] == u
    ensures First(urls, |urls|) == all
  {
    forall u | u in all ensures u in First(urls, |urls|) {
      var i :| 0 <= i < |urls| && urls[i] == u;
      assert urls[i] in First(urls, |urls|);
    }
    forall u | u in First(urls, |urls|) ensures u in all {
      var i :| 0 <= i < |urls| && urls[i] == u;
      assert urls[i] in urls;
    }
  }

  /** The phase imports every v3 source with state. */
  lemma PhaseImports(v3: V3, unknown: Text)
    ensures var db := SourcePhase(v3, unknown);
            && Imported(v3, db, v3.StateUrls(), unknown)
            && (forall v {:trigger MentionedIn(v3, v3.StateUrls(), v)} ::
                  v in db.media.ids <==> MentionedIn(v3, v3.StateUrls(), v))
            && db.details == EMPTY_STORE.details
  {
    var urls := Sorted(v3.StateUrls());
    SortedLists(v3.StateUrls());
    SourcesImport(v3, urls, |urls|, unknown);
    FirstAll(urls, v3.StateUrls());
  }

  ghost predicate MentionedIn(v3: V3, urls: set<Text>, v: Text) {
    exists u {:trigger Mentions(v3, u, v)} :: u in urls && Mentions(v3, u, v)
  }

  lemma MentionsExtend(v3: V3, was: set<Text>, urls: set<Text>, url: Text)
    requires forall v {:trigger MentionedIn(v3, urls, v)} :: v in was <==> MentionedIn(v3, urls, v)
    ensures forall v {:trigger MentionedIn(v3, urls + {url}, v)} ::
              v in was + MediaOf(v3, url) <==> MentionedIn(v3, urls + {url}, v)
  {
    RowIdsAre(v3, url);
    forall v ensures v in was + MediaOf(v3, url) <==> MentionedIn(v3, urls + {url}, v) {
      assert v in was + MediaOf(v3, url) <==> MentionedIn(v3, urls, v) || Mentions(v3, url, v);
      assert Mentions(v3, url, v) ==> url in urls + {url} && MentionedIn(v3, urls + {url}, v);
      if MentionedIn(v3, urls, v) {
        var u :| u in urls && Mentions(v3, u, v);
        assert u in urls + {url};
      }
    }
  }
}
