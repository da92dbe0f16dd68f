/** The tables of the two cache schemas: the source-scoped v3 store and the
    deduplicated v4 store, each as a value.  Text columns are integer codes in
    the order SQLite sorts the texts, so ORDER BY on text is order on codes. */
module CacheTables {
  import opened Options
  import opened SqlOrder

  type Text = int
  type Name = int

  const EMPTY_TEXT: Text := 0

  /** A JSON or SQLite scalar. */
  datatype Scalar = Null | Bool(b: bool) | Int(i: int) | Real(r: real) | Str(t: Text)

  /** A member of a backend record: a scalar, or an array or object. */
  datatype Json = Plain(value: Scalar) | Nested(code: int)

  type Record = map<Name, Json>

  function Lookup(record: Record, name: Name): Json {
    if name in record then record[name] else Plain(Null)
  }

  /** A timestamp text as datetime.fromisoformat reads it. */
  datatype Time = Malformed | Naive | At(instant: int)

  datatype Affinity = IntegerAffinity | RealAffinity | TextAffinity

  /** What Python and SQLite decide about texts and stored values. */
  datatype Platform = Platform(
    parse: Text -> Time,
    trimmed: Text -> bool,
    stored: (Affinity, Scalar) -> Scalar
  ) {
    /** A usable media identity: not empty and without surrounding space. */
    predicate Identity(text: Text) { text != EMPTY_TEXT && trimmed(text) }
  }

  /** The provider's registered scalar columns and its collection columns. */
  datatype Provider = Provider(fields: map<Name, Affinity>, collections: set<Name>)

  datatype Kinded<T> = Kinded(kind: Text, row: T)
  datatype Observation = Observation(at: Text, entries: int)
  datatype Coverage = Coverage(at: Text, observed: int, cached: int, complete: int, reason: Text)
  datatype Frontier = Frontier(at: Text, known: int, head: int, confirmations: int)
  datatype MetaRow = MetaRow(fetchedAt: Text, record: Record)

  /** The v3 tables, keyed by their primary keys (source URL, or URL and media id); an
      entry row is its source_index, and its observed_at is kept beside it. */
  datatype V3 = V3(
    metadata: map<(Text, Text), MetaRow>,
    observations: map<Text, Kinded<Observation>>,
    entries: map<(Text, Text), int>,
    coverage: map<Text, Kinded<Coverage>>,
    frontiers: map<Text, Kinded<Frontier>>,
    entryTimes: map<(Text, Text), Text>
  ) {
    /** SELECT video_id FROM source_entries WHERE source_url=? ORDER BY source_index, video_id. */
    function EntryRows(url: Text): seq<Key> {
      OrderBy(set k | k in entries && k.0 == url :: (entries[k], k.1, 0))
    }

    function StateUrls(): set<Text> {
      observations.Keys + coverage.Keys + frontiers.Keys + (set k | k in entries :: k.0)
    }

    /** The first of observation, coverage and frontier that names a kind. */
    function KindOf(url: Text, unknown: Text): Text {
      if url in observations then observations[url].kind
      else if url in coverage then coverage[url].kind
      else if url in frontiers then frontiers[url].kind
      else unknown
    }

    /** Metadata rows in (fetched_at, source_url, video_id) order. */
    function RecordOrder(): (q: seq<Key>) {
      OrderBy(set k | k in metadata :: (metadata[k].fetchedAt, k.0, k.1))
    }

    /** Every media identity a v3 row mentions. */
    function MediaIds(): set<Text> {
      (set k | k in metadata :: k.1) + EntryIds() + HeadIds()
    }

    function EntryIds(): set<Text> { set k | k in entries :: k.1 }

    function HeadIds(): set<Text> { set u | u in frontiers :: frontiers[u].row.head }
  }

  /** media_entities of one service: external id to row id.  Row ids are
      allocated above every id in use, as INTEGER PRIMARY KEY does. */
  datatype Media = Media(ids: map<Text, int>, next: int) {
    ghost predicate Unique() {
      && (forall u, v {:trigger ids[u], ids[v]} | u in ids && v in ids :: ids[u] == ids[v] ==> u == v)
      && (forall u {:trigger ids[u]} | u in ids :: ids[u] < next)
    }
  }

  datatype Source = Source(id: int, kind: Text)

  /** The facet-free rows of cache_v4_sources, by URL. */
  datatype SourceTable = SourceTable(byUrl: map<Text, Source>, next: int) {
    ghost predicate Unique() {
      && (forall u, v {:trigger byUrl[u], byUrl[v]} | u in byUrl && v in byUrl :: byUrl[u].id == byUrl[v].id ==> u == v)
      && (forall u {:trigger byUrl[u]} | u in byUrl :: byUrl[u].id < next)
    }
  }

  datatype Outcome = Success | Failed
  datatype Acquisition = Acquisition(outcome: Outcome, attempt: Text, success: Option<Text>)

  /** The rows keyed by one source_id: at most one observation, coverage and
      frontier row, and the entry rows as entity id to source_index. */
  datatype SourceRows = SourceRows(
    observation: Option<Observation>,
    entries: map<int, int>,
    coverage: Option<Coverage>,
    frontier: Option<Frontier>
  )

  const NO_ROWS := SourceRows(None, map[], None, None)

  /** The provider's metadata, collection and acquisition rows by entity id. */
  datatype Details = Details(
    columns: map<int, map<Name, Scalar>>,
    collections: map<int, map<Name, Option<Json>>>,
    acquisition: map<int, Acquisition>
  )

  /** The v4 tables one provider and service populate. */
  datatype V4 = V4(media: Media, sources: SourceTable, rows: map<int, SourceRows>, details: Details) {
    /** Row ids are primary keys. */
    ghost predicate KeysUnique() { media.Unique() && sources.Unique() }
  }

  function RowsOf(rows: map<int, SourceRows>, sourceId: int): SourceRows {
    if sourceId in rows then rows[sourceId] else NO_ROWS
  }

  function EntryKeys(rows: map<int, SourceRows>): set<(int, int)> {
    set i, e | i in rows && e in rows[i].entries :: (i, e)
  }

  /** source_entries JOIN media_entities, ORDER BY source_index, external_id. */
  function ListEntries(ids: map<Text, int>, entries: map<int, int>): seq<Key> {
    OrderBy(set v | v in ids && ids[v] in entries :: (entries[ids[v]], v, 0))
  }

  /** The external id behind an entity id, or None for a dangling id. */
  function ExternalId(ids: map<Text, int>, entityId: int): Option<Text> {
    var found := OrderBy(set v | v in ids && ids[v] == entityId :: (v, 0, 0));
    if found == [] then None else Some(found[0].0)
  }

  /** source_frontiers JOIN media_entities. */
  function ReadFrontier(ids: map<Text, int>, frontier: Option<Frontier>): Option<Frontier> {
    match frontier
    case None => None
    case Some(f) =>
      match ExternalId(ids, f.head)
      case Some(head) => Some(f.(head := head))
      case None => None
  }

  lemma ExternalIdInverts(media: Media, id: Text)
    requires media.Unique() && id in media.ids
    ensures ExternalId(media.ids, media.ids[id]) == Some(id)
  {
    var s := set v | v in media.ids && media.ids[v] == media.ids[id] :: (v, 0, 0);
    assert (id, 0, 0) in s;
    assert forall k | k in s :: k.0 == id;
    OrderByLists(s);
    assert OrderBy(s)[0] in OrderBy(s);
  }

  lemma ExternalIdSound(ids: map<Text, int>, entityId: int)
    ensures ExternalId(ids, entityId).Some? ==>
              var id := ExternalId(ids, entityId).value; id in ids && ids[id] == entityId
  {
    var s := set v | v in ids && ids[v] == entityId :: (v, 0, 0);
    OrderByLists(s);
    if s != {} {
      assert OrderBy(s)[0] in OrderBy(s);
    }
  }

  /** ORDER BY the first column, then the second, then the third. */
  ghost predicate InOrder(q: seq<Key>) {
    forall i, j | 0 <= i < j < |q| ::
      if q[i].0 != q[j].0 then q[i].0 < q[j].0 else if q[i].1 != q[j].1 then q[i].1 < q[j].1 else q[i].2 < q[j].2
  }

  lemma OrderedInOrder(s: set<Key>)
    ensures InOrder(OrderBy(s)) && forall k :: k in OrderBy(s) <==> k in s
  {
    OrderByLists(s);
    var q := OrderBy(s);
    forall i, j | 0 <= i < j < |q|
      ensures if q[i].0 != q[j].0 then q[i].0 < q[j].0 else if q[i].1 != q[j].1 then q[i].1 < q[j].1 else q[i].2 < q[j].2
    {
      assert Before(q[i], q[j]);
    }
  }

  /** A source's entries, by index and then by id. */
  lemma EntryRowsAre(v3: V3, url: Text, k: Key)
    ensures InOrder(v3.EntryRows(url))
    ensures k in v3.EntryRows(url) <==> (url, k.1) in v3.entries && v3.entries[(url, k.1)] == k.0 && k.2 == 0
  {
    var rows := set l | l in v3.entries && l.0 == url :: (v3.entries[l], l.1, 0);
    OrderedInOrder(rows);
    if (url, k.1) in v3.entries && v3.entries[(url, k.1)] == k.0 && k.2 == 0 {
      var l := (url, k.1);
      assert k == (v3.entries[l], l.1, 0);
    }
  }

  /** The metadata records, by time text, then source, then media id. */
  lemma RecordOrderIs(v3: V3, k: Key)
    ensures InOrder(v3.RecordOrder())
    ensures k in v3.RecordOrder() <==> (k.1, k.2) in v3.metadata && v3.metadata[(k.1, k.2)].fetchedAt == k.0
  {
    var records := set l | l in v3.metadata :: (v3.metadata[l].fetchedAt, l.0, l.1);
    OrderedInOrder(records);
    if (k.1, k.2) in v3.metadata && v3.metadata[(k.1, k.2)].fetchedAt == k.0 {
      var l := (k.1, k.2);
      assert k == (v3.metadata[l].fetchedAt, l.0, l.1);
    }
  }

  /** The entries v4 lists, by index and then by external id. */
  lemma ListEntriesAre(ids: map<Text, int>, entries: map<int, int>, k: Key)
    ensures InOrder(ListEntries(ids, entries))
    ensures k in ListEntries(ids, entries) <==> k.1 in ids && ids[k.1] in entries && entries[ids[k.1]] == k.0 && k.2 == 0
  {
    var listed := set v | v in ids && ids[v] in entries :: (entries[ids[v]], v, 0);
    OrderedInOrder(listed);
    assert ListEntries(ids, entries) == OrderBy(listed);
    if k.1 in ids && ids[k.1] in entries && entries[ids[k.1]] == k.0 && k.2 == 0 {
      var v: Text := k.1;
      assert (entries[ids[v]], v, 0) in listed;
    }
  }

  /** The media that v3 mentions: in a record, in an entry, or as the head of a frontier. */
  lemma MediaIdsAre(v3: V3, v: Text)
    ensures v in v3.MediaIds() <==>
              || (exists k :: k in v3.metadata && k.1 == v)
              || (exists k :: k in v3.entries && k.1 == v)
              || exists u :: u in v3.frontiers && v3.frontiers[u].row.head == v
  {
  }

  /** The sources that v3 has any state of, and the kind each is given: that of its
      observation, else of its coverage, else of its frontier. */
  lemma StateUrlsAre(v3: V3, url: Text, unknown: Text)
    ensures url in v3.StateUrls() <==>
              || url in v3.observations || url in v3.coverage || url in v3.frontiers
              || exists k :: k in v3.entries && k.0 == url
    ensures Some(v3.KindOf(url, unknown)) ==
              if url in v3.observations then KindIn(v3.observations, url)
              else if KindIn(v3.coverage, url).Some? then KindIn(v3.coverage, url)
              else if KindIn(v3.frontiers, url).Some? then KindIn(v3.frontiers, url)
              else Some(unknown)
  {
  }

  function KindIn<T>(table: map<Text, Kinded<T>>, url: Text): Option<Text> {
    if url in table then Some(table[url].kind) else None
  }

  /** SELECT video_id ... with its position, as both phases enumerate it. */
  function Enumerated(q: seq<Key>): seq<Key>
  {
    seq(|q|, i requires 0 <= i < |q| => (i, q[i].1, 0))
  }

  function Unkinded<T>(table: map<Text, Kinded<T>>, url: Text): Option<T> {
    if url in table then Some(table[url].row) else None
  }

  /** Every row of one v3 source reads back unchanged from v4. */
  predicate SourceReads(v3: V3, db: V4, url: Text, unknown: Text) {
    && url in db.sources.byUrl
    && db.sources.byUrl[url].kind == v3.KindOf(url, unknown)
    && RowsRead(v3, db.media.ids, RowsOf(db.rows, db.sources.byUrl[url].id), url)
  }

  predicate RowsRead(v3: V3, ids: map<Text, int>, rows: SourceRows, url: Text) {
    && rows.observation == Unkinded(v3.observations, url)
    && ListEntries(ids, rows.entries) == Enumerated(v3.EntryRows(url))
    && rows.coverage == Unkinded(v3.coverage, url)
    && ReadFrontier(ids, rows.frontier) == Unkinded(v3.frontiers, url)
  }
}
