/** Certification of a migrated v4 store against its v3 source: row accounting,
    the latest record of each media identity, and every source's state. */
module Certifier {
  import opened Options
  import opened SqlOrder
  import opened CacheTables
  import opened SourceMigration
  import opened MetadataMigration

  /** What certification compares a stored column with: booleans as integers. */
  function Expected(value: Scalar): Scalar {
    match value
    case Bool(b) => Int(if b then 1 else 0)
    case _ => value
  }

  function ColumnOf(row: map<Name, Scalar>, f: Name): Scalar {
    if f in row then row[f] else Null
  }

  /** A stored collection text read back; SQL NULL reads as JSON null. */
  function CollectionOf(row: map<Name, Option<Json>>, c: Name): Json {
    if c in row && row[c].Some? then row[c].value else Plain(Null)
  }

  function ObservationRows(rows: map<int, SourceRows>): set<int> { set i | i in rows && rows[i].observation.Some? }

  function CoverageRows(rows: map<int, SourceRows>): set<int> { set i | i in rows && rows[i].coverage.Some? }

  function FrontierRows(rows: map<int, SourceRows>): set<int> { set i | i in rows && rows[i].frontier.Some? }

  /** Identity sets and row counts agree. */
  predicate Accounted(v3: V3, db: V4) {
    && db.media.ids.Keys == v3.MediaIds()
    && |ObservationRows(db.rows)| == |v3.observations|
    && |CoverageRows(db.rows)| == |v3.coverage|
    && |FrontierRows(db.rows)| == |v3.frontiers|
    && |EntryKeys(db.rows)| == |v3.entries|
  }

  /** One registered column holds what the record says; a value that is an
      array or object has no expected column and fails. */
  predicate ColumnVerified(record: Record, row: map<Name, Scalar>, f: Name) {
    Lookup(record, f).Plain? && ColumnOf(row, f) == Expected(Lookup(record, f).value)
  }

  /** A scalar reads back as itself, a boolean as one or zero, and NULL also from a column
      that is not there; arrays and objects never do. */
  lemma ColumnVerifiedExactly(record: Record, row: map<Name, Scalar>, f: Name)
    ensures ColumnVerified(record, row, f) <==>
              match Lookup(record, f)
              case Nested(_) => false
              case Plain(Null) => f !in row || row[f] == Null
              case Plain(Bool(b)) => f in row && row[f] == (if b then Int(1) else Int(0))
              case Plain(value) => f in row && row[f] == value
    ensures Lookup(record, f) == if f in record then record[f] else Plain(Null)
  {
  }

  /** A collection is verified when its text is there and says what the record says, or
      when neither says anything. */
  lemma CollectionVerifiedExactly(record: Record, row: map<Name, Option<Json>>, c: Name)
    ensures CollectionOf(row, c) == Lookup(record, c) <==>
              if c in record && record[c] != Plain(Null) then c in row && row[c] == Some(record[c])
              else c !in row || row[c] == None || row[c] == Some(Plain(Null))
  {
  }

  /** Columns, collections and acquisition of one identity match its record. */
  ghost predicate EntityVerified(p: Provider, db: V4, k: Key, record: Record) {
    && k.2 in db.media.ids
    && RowsVerified(p, db.details, db.media.ids[k.2], k.0, record)
  }

  ghost predicate RowsVerified(p: Provider, d: Details, e: int, fetched: Text, record: Record) {
    && e in d.columns && e in d.collections && e in d.acquisition
    && (forall f {:trigger f in p.fields} | f in p.fields :: ColumnVerified(record, d.columns[e], f))
    && (forall c {:trigger c in p.collections} | c in p.collections :: CollectionOf(d.collections[e], c) == Lookup(record, c))
    && d.acquisition[e] == Acquisition(Success, fetched, Some(fetched))
  }

  ghost predicate AllVerified(p: Provider, v3: V3, db: V4, ids: set<Text>) {
    forall v {:trigger VerifiedAt(p, v3, db, v)} | v in ids :: VerifiedAt(p, v3, db, v)
  }

  /** The latest record of v, when it has one, is what v4 holds. */
  ghost predicate VerifiedAt(p: Provider, v3: V3, db: V4, v: Text) {
    match LatestOf(v3, v)
    case None => true
    case Some(k) => EntityVerified(p, db, k, RecordAt(v3.metadata, k))
  }

  function LatestOf(v3: V3, v: Text): Option<Key> { Latest(v3.RecordOrder(), |v3.RecordOrder()|, v) }

  ghost predicate AllReads(v3: V3, db: V4, urls: set<Text>, unknown: Text) {
    forall u {:trigger SourceReads(v3, db, u, unknown)} | u in urls :: SourceReads(v3, db, u, unknown)
  }

  /** Everything certification checks for the selected identities. */
  ghost predicate Certified(p: Provider, v3: V3, db: V4, selected: set<Text>, unknown: Text) {
    && Accounted(v3, db)
    && AllVerified(p, v3, db, selected)
    && AllReads(v3, db, v3.StateUrls(), unknown)
  }

  function RecordIds(q: seq<Key>): set<Text> { set i | 0 <= i < |q| :: q[i].2 }

  /** _latest_v3_records: later rows overwrite earlier ones. */
  method LatestRecords(q: seq<Key>) returns (latest: map<Text, Key>)
    ensures latest.Keys == RecordIds(q)
    ensures forall v | v in latest :: Latest(q, |q|, v) == Some(latest[v])
  {
    latest := map[];
    var i := 0;
    while i < |q|
      invariant 0 <= i <= |q|
      invariant latest.Keys == set j | 0 <= j < i :: q[j].2
      invariant forall v | v in latest :: Latest(q, i, v) == Some(latest[v])
    {
      latest := latest[q[i].2 := q[i]];
      i := i + 1;
    }
  }

  method VerifyColumns(p: Provider, record: Record, row: map<Name, Scalar>) returns (ok: bool)
    ensures ok <==> forall f {:trigger f in p.fields} | f in p.fields :: ColumnVerified(record, row, f)
  {
    var q := Sorted(p.fields.Keys);
    SortedLists(p.fields.Keys);
    ok := true;
    for i := 0 to |q|
      invariant ok <==> forall j | 0 <= j < i :: ColumnVerified(record, row, q[j])
    {
      if !ColumnVerified(record, row, q[i]) { ok := false; }
    }
  }

  method VerifyCollections(p: Provider, record: Record, row: map<Name, Option<Json>>) returns (ok: bool)
    ensures ok <==> forall c {:trigger c in p.collections} | c in p.collections :: CollectionOf(row, c) == Lookup(record, c)
  {
    var q := Sorted(p.collections);
    SortedLists(p.collections);
    for i := 0 to |q|
      invariant forall j | 0 <= j < i :: CollectionOf(row, q[j]) == Lookup(record, q[j])
    {
      if CollectionOf(row, q[i]) != Lookup(record, q[i]) { return false; }
    }
    ok := true;
  }

  method VerifyEntity(p: Provider, db: V4, k: Key, record: Record) returns (ok: bool)
    ensures ok <==> EntityVerified(p, db, k, record)
  {
    if k.2 !in db.media.ids { return false; }
    var e := db.media.ids[k.2];
    if e !in db.details.columns { return false; }
    ok := VerifyColumns(p, record, db.details.columns[e]);
    if !ok || e !in db.details.collections { return false; }
    ok := VerifyCollections(p, record, db.details.collections[e]);
    if !ok || e !in db.details.acquisition { return false; }
    ok := db.details.acquisition[e] == Acquisition(Success, k.0, Some(k.0));
  }

  /** certify_v3_to_v4, for the identities its mode selects: all of them in full
      mode, a sample in normal mode. */
  method Certify(p: Provider, v3: V3, db: V4, selected: set<Text>, unknown: Text) returns (ok: bool)
    requires selected <= RecordIds(v3.RecordOrder())
    ensures ok <==> Certified(p, v3, db, selected, unknown)
  {
    if !Accounted(v3, db) { return false; }
    var latest := LatestRecords(v3.RecordOrder());
    ok := VerifySelected(p, v3, db, latest, selected);
    if ok {
      ok := VerifySources(v3, db, v3.StateUrls(), unknown);
    }
  }

  method VerifySelected(p: Provider, v3: V3, db: V4, latest: map<Text, Key>, selected: set<Text>) returns (ok: bool)
    requires selected <= latest.Keys
    requires forall v | v in latest :: LatestOf(v3, v) == Some(latest[v])
    ensures ok <==> AllVerified(p, v3, db, selected)
  {
    var q := Sorted(selected);
    SortedLists(selected);
    for i := 0 to |q|
      invariant forall j | 0 <= j < i :: VerifiedAt(p, v3, db, q[j])
    {
      var v := q[i];
      assert LatestOf(v3, v) == Some(latest[v]);
      ok := VerifyEntity(p, db, latest[v], RecordAt(v3.metadata, latest[v]));
      assert ok <==> VerifiedAt(p, v3, db, v);
      if !ok { return; }
    }
    ok := true;
  }

  method VerifySources(v3: V3, db: V4, urls: set<Text>, unknown: Text) returns (ok: bool)
    ensures ok <==> AllReads(v3, db, urls, unknown)
  {
    var q := Sorted(urls);
    SortedLists(urls);
    for i := 0 to |q|
      invariant forall j | 0 <= j < i :: SourceReads(v3, db, q[j], unknown)
    {
      ok := SourceReads(v3, db, q[i], unknown);
      if !ok { return; }
    }
    ok := true;
  }

  // ---- Soundness: what a certified store contains, and nothing more -----------

  /** Every source-state row of v4 is the image of a v3 row. */
  ghost predicate NothingExtra(v3: V3, db: V4) {
    && (forall i | i in ObservationRows(db.rows) :: exists u :: u in v3.observations && Owner(db.sources.byUrl, u, i))
    && (forall i | i in CoverageRows(db.rows) :: exists u :: u in v3.coverage && Owner(db.sources.byUrl, u, i))
    && (forall i | i in FrontierRows(db.rows) :: exists u :: u in v3.frontiers && Owner(db.sources.byUrl, u, i))
    && (forall r | r in EntryKeys(db.rows) :: exists k :: k in v3.entries && EntryImage(db, k) == Some(r))
  }

  ghost function EntryImage(db: V4, k: (Text, Text)): Option<(int, int)> {
    if k.0 in db.sources.byUrl && k.1 in db.media.ids
    then Some((db.sources.byUrl[k.0].id, db.media.ids[k.1])) else None
  }

  ghost function SourceIds(db: V4, urls: set<Text>): set<int>
    requires urls <= db.sources.byUrl.Keys
  {
    set u | u in urls :: db.sources.byUrl[u].id
  }

  lemma SourceIdCount(db: V4, urls: set<Text>)
    requires db.sources.Unique() && urls <= db.sources.byUrl.Keys
    ensures |SourceIds(db, urls)| == |urls|
  {
    var f := map u | u in urls :: db.sources.byUrl[u].id;
    forall a, b | a in urls && b in urls && f[a] == f[b] ensures a == b {
      assert db.sources.byUrl[a].id == db.sources.byUrl[b].id;
    }
    assert SourceIds(db, urls) == set u | u in urls :: f[u];
    ImageSize(urls, f, SourceIds(db, urls));
  }

  /** Rows of one kind: certified counts leave no room for a row of another source. */
  lemma OnlyTheseSources(db: V4, urls: set<Text>, present: set<int>)
    requires db.sources.Unique() && urls <= db.sources.byUrl.Keys
    requires forall u | u in urls :: db.sources.byUrl[u].id in present
    requires |present| == |urls|
    ensures present == SourceIds(db, urls)
  {
    SourceIdCount(db, urls);
    SameSizeSubset(SourceIds(db, urls), present);
  }

  ghost predicate RowsPresent(v3: V3, db: V4, u: Text)
    requires u in db.sources.byUrl
  {
    var i := db.sources.byUrl[u].id;
    && (u in v3.observations ==> i in ObservationRows(db.rows))
    && (u in v3.coverage ==> i in CoverageRows(db.rows))
    && (u in v3.frontiers ==> i in FrontierRows(db.rows))
  }

  lemma ReadsHaveRows(v3: V3, db: V4, u: Text, unknown: Text)
    requires SourceReads(v3, db, u, unknown)
    ensures RowsPresent(v3, db, u)
  {
  }

  lemma EntryKeyIn(rows: map<int, SourceRows>, i: int, e: int)
    requires i in rows && e in rows[i].entries
    ensures (i, e) in EntryKeys(rows)
  {
  }

  lemma ReadsHaveEntry(v3: V3, db: V4, k: (Text, Text), unknown: Text)
    requires SourceReads(v3, db, k.0, unknown) && k in v3.entries
    ensures EntryImage(db, k).Some? && EntryImage(db, k).value in EntryKeys(db.rows)
  {
    var id := db.sources.byUrl[k.0].id;
    var entries, ids := RowsOf(db.rows, id).entries, db.media.ids;
    var q := v3.EntryRows(k.0);
    EntryRowsFacts(v3, k.0);
    var v: Text := k.1;
    assert k == (k.0, v) && (k.0, v) in v3.entries;
    var j :| 0 <= j < |q| && q[j].1 == v;
    assert Enumerated(q)[j] == (j, k.1, 0);
    var s := set v | v in ids && ids[v] in entries :: (entries[ids[v]], v, 0);
    OrderByLists(s);
    assert (j, k.1, 0) in OrderBy(s);
    assert (j, k.1, 0) in s;
    assert id in db.rows && ids[k.1] in db.rows[id].entries;
    EntryKeyIn(db.rows, id, ids[k.1]);
  }

  lemma EntryCount(v3: V3, db: V4, image: set<(int, int)>)
    requires db.KeysUnique() && forall k | k in v3.entries :: EntryImage(db, k).Some?
    requires image == set k | k in v3.entries :: EntryImage(db, k).value
    ensures |image| == |v3.entries|
  {
    var f := map k | k in v3.entries :: EntryImage(db, k).value;
    forall a, b | a in v3.entries && b in v3.entries && f[a] == f[b] ensures a == b {
      assert EntryImage(db, a) == EntryImage(db, b);
      assert db.sources.byUrl[a.0].id == db.sources.byUrl[b.0].id && db.media.ids[a.1] == db.media.ids[b.1];
      assert a.0 == b.0 && a.1 == b.1;
    }
    assert image == set k | k in v3.entries.Keys :: f[k];
    ImageSize(v3.entries.Keys, f, image);
    assert |v3.entries.Keys| == |v3.entries|;
  }

  /** Full certification is sound: media identities agree, every source reads
      back as in v3, every identity holds its latest record, and by counting,
      no observation, coverage, frontier or entry row is left over. */
  lemma CertifiedIsSound(p: Provider, v3: V3, db: V4, unknown: Text)
    requires db.KeysUnique()
    requires Certified(p, v3, db, RecordIds(v3.RecordOrder()), unknown)
    ensures db.media.ids.Keys == v3.MediaIds()
    ensures forall u | u in v3.StateUrls() :: SourceReads(v3, db, u, unknown)
    ensures forall v | v in RecordIds(v3.RecordOrder()) :: VerifiedAt(p, v3, db, v)
    ensures NothingExtra(v3, db)
  {
    forall u | u in v3.StateUrls() ensures SourceReads(v3, db, u, unknown) {}
    forall v | v in RecordIds(v3.RecordOrder()) ensures VerifiedAt(p, v3, db, v) {}
    NoExtraSourceRows(v3, db, unknown);
    NoExtraEntries(v3, db, unknown);
  }

  lemma NoExtraSourceRows(v3: V3, db: V4, unknown: Text)
    requires db.KeysUnique() && Accounted(v3, db) && AllReads(v3, db, v3.StateUrls(), unknown)
    ensures forall i | i in ObservationRows(db.rows) :: exists u :: u in v3.observations && Owner(db.sources.byUrl, u, i)
    ensures forall i | i in CoverageRows(db.rows) :: exists u :: u in v3.coverage && Owner(db.sources.byUrl, u, i)
    ensures forall i | i in FrontierRows(db.rows) :: exists u :: u in v3.frontiers && Owner(db.sources.byUrl, u, i)
  {
    forall u | u in v3.observations || u in v3.coverage || u in v3.frontiers
      ensures u in db.sources.byUrl && RowsPresent(v3, db, u)
    {
      assert u in v3.StateUrls();
      assert SourceReads(v3, db, u, unknown);
      ReadsHaveRows(v3, db, u, unknown);
    }
    OwnedByUrls(db, v3.observations.Keys, ObservationRows(db.rows));
    OwnedByUrls(db, v3.coverage.Keys, CoverageRows(db.rows));
    OwnedByUrls(db, v3.frontiers.Keys, FrontierRows(db.rows));
  }

  lemma OwnedByUrls(db: V4, urls: set<Text>, present: set<int>)
    requires db.sources.Unique() && |present| == |urls|
    requires forall u | u in urls :: u in db.sources.byUrl && db.sources.byUrl[u].id in present
    ensures forall i | i in present :: exists u :: u in urls && Owner(db.sources.byUrl, u, i)
  {
    forall u | u in urls ensures u in db.sources.byUrl {}
    OnlyTheseSources(db, urls, present);
    forall i | i in present ensures exists u :: u in urls && Owner(db.sources.byUrl, u, i) {
      assert i in SourceIds(db, urls);
      var u :| u in urls && db.sources.byUrl[u].id == i;
      assert Owner(db.sources.byUrl, u, i);
    }
  }

  lemma NoExtraEntries(v3: V3, db: V4, unknown: Text)
    requires db.KeysUnique() && Accounted(v3, db) && AllReads(v3, db, v3.StateUrls(), unknown)
    ensures forall r | r in EntryKeys(db.rows) :: exists k :: k in v3.entries && EntryImage(db, k) == Some(r)
  {
    forall k | k in v3.entries
      ensures EntryImage(db, k).Some? && EntryImage(db, k).value in EntryKeys(db.rows)
    {
      assert k.0 in v3.StateUrls();
      assert SourceReads(v3, db, k.0, unknown);
      ReadsHaveEntry(v3, db, k, unknown);
    }
    var image := set k | k in v3.entries :: EntryImage(db, k).value;
    EntryCount(v3, db, image);
    SameSizeSubset(image, EntryKeys(db.rows));
    forall r | r in EntryKeys(db.rows) ensures exists k :: k in v3.entries && EntryImage(db, k) == Some(r) {
      var k :| k in v3.entries && EntryImage(db, k).value == r;
    }
  }
}
