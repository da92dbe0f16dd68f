/** The v3 to v4 transition as a whole: contract check, population, certification. */
module CacheMigration {
  import opened Options
  import opened SqlOrder
  import opened CacheTables
  import opened Batches
  import opened SourceMigration
  import opened MetadataMigration
  import opened Certifier

  /** The frozen v3 contract: every timestamp parses, every ordering is numbered
      from one without gaps, every frontier agrees with its ordering. */
  predicate ContractValid(platform: Platform, v3: V3) {
    && (forall k | k in v3.metadata :: !platform.parse(v3.metadata[k].fetchedAt).Malformed?)
    && (forall u | u in v3.observations :: !platform.parse(v3.observations[u].row.at).Malformed?)
    && (forall k | k in v3.entryTimes :: !platform.parse(v3.entryTimes[k]).Malformed?)
    && (forall u | u in v3.coverage :: !platform.parse(v3.coverage[u].row.at).Malformed?)
    && (forall u | u in v3.frontiers ::
          !platform.parse(v3.frontiers[u].row.at).Malformed? && FrontierAgrees(v3.frontiers[u].row, v3.EntryRows(u)))
    && (forall k | k in v3.entries :: Numbered(v3.EntryRows(k.0)))
  }

  predicate FrontierAgrees(f: Frontier, q: seq<Key>) {
    q != [] && f.known == |q| && f.head == q[0].1
  }

  predicate Numbered(q: seq<Key>) {
    forall i | 0 <= i < |q| :: q[i].0 == i + 1
  }

  /** The CHECK constraints of the v4 tables, on the v3 rows that fill them. */
  predicate ConstraintsHold(v3: V3) {
    && (forall u | u in v3.observations :: v3.observations[u].row.entries >= 0)
    && (forall u | u in v3.coverage :: v3.coverage[u].row.observed >= 0 && v3.coverage[u].row.cached >= 0)
    && (forall u | u in v3.coverage :: v3.coverage[u].row.complete == 0 || v3.coverage[u].row.complete == 1)
    && (forall u | u in v3.frontiers :: v3.frontiers[u].row.known >= 0 && v3.frontiers[u].row.confirmations >= 0)
  }

  /** What the two population phases demand beyond the contract. */
  ghost predicate Migratable(platform: Platform, v3: V3) {
    ConstraintsHold(v3) && Replayable(platform, v3.RecordOrder(), |v3.RecordOrder()|)
  }

  /** The store the two phases build, or None where one of them raises. */
  ghost function Populated(platform: Platform, p: Provider, v3: V3, unknown: Text): Option<V4> {
    var src := SourcePhase(v3, unknown);
    if forall u | u in v3.StateUrls() :: SourceAccepted(v3, u) then
      match Fold(Replay(platform, p, v3.metadata), Catalogue(src.media, src.details), v3.RecordOrder(), |v3.RecordOrder()|)
      case None => None
      case Some(c) => Some(V4(c.media, src.sources, src.rows, c.details))
    else None
  }

  datatype Outcome = OutsideContract | PopulationFailed | CertificationFailed | Complete(db: V4)

  /** The population phases, on a fresh destination. */
  method Populate(platform: Platform, p: Provider, v3: V3, unknown: Text) returns (db: Option<V4>)
    ensures db == Populated(platform, p, v3, unknown)
  {
    var destination := new Destination();
    var ok := destination.PopulateSourceState(v3, unknown);
    if !ok { return None; }
    var start := Catalogue(destination.media, destination.details);
    var replayed, c, migrated := RunBatches(Replay(platform, p, v3.metadata), v3.RecordOrder(), start);
    db := if replayed then Some(V4(c.media, destination.sources, destination.rows, c.details)) else None;
  }

  /** execute_v3_to_v4: only a certified destination is complete. */
  method ExecuteV3ToV4(platform: Platform, p: Provider, v3: V3, selected: set<Text>, unknown: Text)
    returns (outcome: Outcome)
    requires selected <= RecordIds(v3.RecordOrder())
    ensures outcome.OutsideContract? <==> !ContractValid(platform, v3)
    ensures outcome.PopulationFailed? <==>
              ContractValid(platform, v3) && Populated(platform, p, v3, unknown).None?
    ensures outcome.Complete? <==>
              && ContractValid(platform, v3)
              && Populated(platform, p, v3, unknown).Some?
              && Certified(p, v3, Populated(platform, p, v3, unknown).value, selected, unknown)
    ensures outcome.Complete? ==> Populated(platform, p, v3, unknown) == Some(outcome.db)
  {
    if !ContractValid(platform, v3) { return OutsideContract; }
    var db := Populate(platform, p, v3, unknown);
    if db.None? { return PopulationFailed; }
    var ok := Certify(p, v3, db.value, selected, unknown);
    outcome := if ok then Complete(db.value) else CertificationFailed;
  }

  // ---- What the populated store says ------------------------------------------

  /** The phases succeed exactly on migratable stores, and then: every source
      reads back as in v3, no row belongs to anything else, the media are exactly
      those v3 mentions, and each holds its last record in
      (fetched_at, source_url, video_id) order. */
  lemma MigrationPreservesMeaning(platform: Platform, p: Provider, v3: V3, unknown: Text)
    ensures Populated(platform, p, v3, unknown).Some? <==> Migratable(platform, v3)
    ensures Populated(platform, p, v3, unknown).Some? ==>
              var db := Populated(platform, p, v3, unknown).value;
              && Imported(v3, db, v3.StateUrls(), unknown)
              && db.media.ids.Keys == v3.MediaIds()
              && forall v | v in db.media.ids :: HoldsLatestOf(platform, p, v3, db, v)
  {
    var src := SourcePhase(v3, unknown);
    ConstraintsAre(v3);
    PhaseImports(v3, unknown);
    var q := v3.RecordOrder();
    ReplayMeaning(platform, p, v3.metadata, src.media, q, |q|);
    if Populated(platform, p, v3, unknown).Some? {
      var db := Populated(platform, p, v3, unknown).value;
      ImportedKept(v3, src, db, unknown);
      var c := Catalogue(db.media, db.details);
      assert Replayed(platform, p, v3.metadata, src.media, c, q, |q|);
      forall v | v in db.media.ids ensures HoldsLatestOf(platform, p, v3, db, v) {
        assert HoldsLatest(platform, p, v3.metadata, c, q, |q|, v);
      }
      MediaAreV3Media(v3, src.media.ids.Keys, db.media.ids.Keys);
    }
  }

  /** Every source is accepted exactly when the constraints hold. */
  lemma ConstraintsAre(v3: V3)
    ensures (forall u | u in v3.StateUrls() :: SourceAccepted(v3, u)) <==> ConstraintsHold(v3)
  {
    if forall u | u in v3.StateUrls() :: SourceAccepted(v3, u) {
      forall u | u in v3.observations || u in v3.coverage || u in v3.frontiers ensures SourceAccepted(v3, u) {
        assert u in v3.StateUrls();
      }
    }
  }

  /** The contract in full: what parses, what is numbered, and what a frontier says. */
  lemma ContractIs(platform: Platform, v3: V3)
    ensures ContractValid(platform, v3) <==>
              && (forall k | k in v3.metadata :: platform.parse(v3.metadata[k].fetchedAt) != Malformed)
              && (forall u | u in v3.observations :: platform.parse(v3.observations[u].row.at) != Malformed)
              && (forall u | u in v3.coverage :: platform.parse(v3.coverage[u].row.at) != Malformed)
              && (forall u | u in v3.frontiers :: platform.parse(v3.frontiers[u].row.at) != Malformed)
              && (forall k | k in v3.entryTimes :: platform.parse(v3.entryTimes[k]) != Malformed)
              && (forall u, i | u in v3.StateUrls() && 0 <= i < |v3.EntryRows(u)| :: v3.EntryRows(u)[i].0 == i + 1)
              && (forall u | u in v3.frontiers ::
                    var (f, q) := (v3.frontiers[u].row, v3.EntryRows(u)); q != [] && |q| == f.known && q[0].1 == f.head)
  {
    forall k | k in v3.entries ensures k.0 in v3.StateUrls() {
    }
    if ContractValid(platform, v3) {
      forall u, i | u in v3.StateUrls() && 0 <= i < |v3.EntryRows(u)| ensures v3.EntryRows(u)[i].0 == i + 1 {
        EntryRowsFacts(v3, u);
        var k := (u, v3.EntryRows(u)[i].1);
        assert k in v3.entries && Numbered(v3.EntryRows(k.0));
      }
    }
  }

  /** Media v holds its latest v3 record, or no record rows when v3 has none. */
  ghost predicate HoldsLatestOf(platform: Platform, p: Provider, v3: V3, db: V4, v: Text)
    requires v in db.media.ids
  {
    match LatestOf(v3, v)
    case None => NoRows(db.details, db.media.ids[v])
    case Some(k) => Holds(platform, p, db.details, db.media.ids[v], k, RecordAt(v3.metadata, k))
  }

  lemma ImportedKept(v3: V3, src: V4, db: V4, unknown: Text)
    requires Imported(v3, src, v3.StateUrls(), unknown)
    requires db.media.Unique() && Grows(src.media.ids, db.media.ids)
    requires db.sources == src.sources && db.rows == src.rows
    ensures Imported(v3, db, v3.StateUrls(), unknown)
  {
    forall i | i in db.rows ensures NoDangling(db.media.ids, db.rows[i]) && Owned(db.sources.byUrl, i) {
      ReadsKept(src.media.ids, db.media, src.rows[i]);
      assert Owned(src.sources.byUrl, i);
    }
    forall u | u in v3.StateUrls() ensures SourceReads(v3, db, u, unknown) {
      assert SourceReads(v3, src, u, unknown);
      var id := src.sources.byUrl[u].id;
      assert NoDangling(src.media.ids, RowsOf(src.rows, id)) by {
        if id in src.rows { assert NoDangling(src.media.ids, src.rows[id]); }
      }
      ReadsKept(src.media.ids, db.media, RowsOf(src.rows, id));
    }
  }

  lemma MediaAreV3Media(v3: V3, src: set<Text>, ids: set<Text>)
    requires forall v {:trigger MentionedIn(v3, v3.StateUrls(), v)} :: v in src <==> MentionedIn(v3, v3.StateUrls(), v)
    requires forall v {:trigger LatestOf(v3, v)} :: v in ids <==> v in src || LatestOf(v3, v).Some?
    ensures ids == v3.MediaIds()
  {
    forall v ensures v in ids <==> v in v3.MediaIds() {
      RecordIdsAre(v3, v);
      MentionedAre(v3, v);
      assert v in ids <==> v in src || LatestOf(v3, v).Some?;
      assert v in src <==> MentionedIn(v3, v3.StateUrls(), v);
    }
  }

  lemma RecordIdsAre(v3: V3, v: Text)
    ensures LatestOf(v3, v).Some? <==> exists k :: k in v3.metadata && k.1 == v
    ensures LatestOf(v3, v).Some? <==> v in RecordIds(v3.RecordOrder())
  {
    var s := set k | k in v3.metadata :: (v3.metadata[k].fetchedAt, k.0, k.1);
    var q := v3.RecordOrder();
    OrderByLists(s);
    var i := LatestIs(q, |q|, v);
    if LatestOf(v3, v).Some? {
      assert q[i] in q;
      var k :| k in v3.metadata && q[i] == (v3.metadata[k].fetchedAt, k.0, k.1);
    }
    forall k | k in v3.metadata && k.1 == v ensures LatestOf(v3, v).Some? {
      assert (v3.metadata[k].fetchedAt, k.0, k.1) in s;
      var j :| 0 <= j < |q| && q[j] == (v3.metadata[k].fetchedAt, k.0, k.1);
      assert q[j].2 == v;
    }
  }

  lemma MentionedAre(v3: V3, v: Text)
    ensures MentionedIn(v3, v3.StateUrls(), v) <==> v in v3.EntryIds() + v3.HeadIds()
  {
    if MentionedIn(v3, v3.StateUrls(), v) {
      var u :| u in v3.StateUrls() && Mentions(v3, u, v);
      if (u, v) in v3.entries { assert (u, v).1 == v; }
    }
    if v in v3.EntryIds() {
      var k :| k in v3.entries && k.1 == v;
      assert k == (k.0, v) && k.0 in v3.StateUrls() && Mentions(v3, k.0, v);
    }
    if v in v3.HeadIds() {
      var u :| u in v3.frontiers && v3.frontiers[u].row.head == v;
      assert u in v3.StateUrls() && Mentions(v3, u, v);
    }
  }

  // ---- When the certifier accepts it -------------------------------------------

  /** A record every registered value of which is a scalar or null that SQLite
      stores unchanged, booleans counting as the integers they become. */
  ghost predicate Faithful(platform: Platform, p: Provider, record: Record) {
    forall f {:trigger f in p.fields} | f in p.fields ::
      Lookup(record, f).Plain?
      && platform.stored(p.fields[f], Lookup(record, f).value) == Expected(Lookup(record, f).value)
  }

  /** Full certification accepts the migration's own output exactly when the
      latest record of every media identity is faithful. */
  lemma OwnOutputCertifies(platform: Platform, p: Provider, v3: V3, unknown: Text)
    requires Populated(platform, p, v3, unknown).Some?
    ensures Certified(p, v3, Populated(platform, p, v3, unknown).value, RecordIds(v3.RecordOrder()), unknown)
            <==> forall v | v in RecordIds(v3.RecordOrder()) ::
                   LatestOf(v3, v).Some? && Faithful(platform, p, RecordAt(v3.metadata, LatestOf(v3, v).value))
  {
    MigrationPreservesMeaning(platform, p, v3, unknown);
    var db := Populated(platform, p, v3, unknown).value;
    OwnOutputAccounted(v3, db, unknown);
    var ids := RecordIds(v3.RecordOrder());
    forall v | v in ids
      ensures LatestOf(v3, v).Some?
      ensures VerifiedAt(p, v3, db, v) <==> Faithful(platform, p, RecordAt(v3.metadata, LatestOf(v3, v).value))
    {
      RecordIdsAre(v3, v);
      assert v in v3.MediaIds();
      assert HoldsLatestOf(platform, p, v3, db, v);
      var i := LatestIs(v3.RecordOrder(), |v3.RecordOrder()|, v);
      HeldVerifies(platform, p, db.details, db.media.ids[v], LatestOf(v3, v).value, RecordAt(v3.metadata, LatestOf(v3, v).value));
    }
    assert AllReads(v3, db, v3.StateUrls(), unknown);
  }

  lemma HeldVerifies(platform: Platform, p: Provider, d: Details, e: int, k: Key, record: Record)
    requires Holds(platform, p, d, e, k, record)
    ensures RowsVerified(p, d, e, k.0, record) <==> Faithful(platform, p, record)
  {
    forall f | f in p.fields && Lookup(record, f).Plain?
      ensures ColumnVerified(record, d.columns[e], f) <==>
              platform.stored(p.fields[f], Lookup(record, f).value) == Expected(Lookup(record, f).value)
    {
    }
    forall c | c in p.collections ensures CollectionOf(d.collections[e], c) == Lookup(record, c) {
    }
  }

  lemma OwnOutputAccounted(v3: V3, db: V4, unknown: Text)
    requires Imported(v3, db, v3.StateUrls(), unknown) && db.media.ids.Keys == v3.MediaIds()
    ensures Accounted(v3, db)
  {
    var observed, covered, headed := v3.observations.Keys, v3.coverage.Keys, v3.frontiers.Keys;
    forall u | u in observed + covered + headed ensures u in db.sources.byUrl && RowsPresent(v3, db, u) {
      assert u in v3.StateUrls();
      assert SourceReads(v3, db, u, unknown);
      ReadsHaveRows(v3, db, u, unknown);
    }
    forall i | i in db.rows
      ensures i in ObservationRows(db.rows) ==> i in SourceIds(db, observed)
      ensures i in CoverageRows(db.rows) ==> i in SourceIds(db, covered)
      ensures i in FrontierRows(db.rows) ==> i in SourceIds(db, headed)
    {
      RowHasOwner(v3, db, i, unknown);
    }
    CountedBySource(db, observed, ObservationRows(db.rows));
    CountedBySource(db, covered, CoverageRows(db.rows));
    CountedBySource(db, headed, FrontierRows(db.rows));
    EntriesCounted(v3, db, unknown);
  }

  lemma RowHasOwner(v3: V3, db: V4, i: int, unknown: Text)
    requires Imported(v3, db, v3.StateUrls(), unknown) && i in db.rows
    requires v3.observations.Keys + v3.coverage.Keys + v3.frontiers.Keys <= db.sources.byUrl.Keys
    ensures i in ObservationRows(db.rows) ==> i in SourceIds(db, v3.observations.Keys)
    ensures i in CoverageRows(db.rows) ==> i in SourceIds(db, v3.coverage.Keys)
    ensures i in FrontierRows(db.rows) ==> i in SourceIds(db, v3.frontiers.Keys)
  {
    var u := OwnerOf(v3, db, i, unknown);
    if db.rows[i].frontier.Some? {
      var v :| Named(db.media.ids, v, db.rows[i].frontier.value.head);
      ExternalIdInverts(db.media, v);
    }
  }

  lemma CountedBySource(db: V4, urls: set<Text>, present: set<int>)
    requires db.sources.Unique() && urls <= db.sources.byUrl.Keys
    requires forall u | u in urls :: db.sources.byUrl[u].id in present
    requires forall i | i in present :: i in SourceIds(db, urls)
    ensures |present| == |urls|
  {
    SourceIdCount(db, urls);
    forall i | i in SourceIds(db, urls) ensures i in present {
      var u :| u in urls && db.sources.byUrl[u].id == i;
    }
    assert SourceIds(db, urls) <= present;
    assert present <= SourceIds(db, urls) by {
      forall i | i in present ensures i in SourceIds(db, urls) {}
    }
    SetsEqual(present, SourceIds(db, urls));
  }

  lemma SetsEqual(a: set<int>, b: set<int>)
    requires a <= b && b <= a
    ensures a == b
  {
  }

  lemma OwnerOf(v3: V3, db: V4, i: int, unknown: Text) returns (u: Text)
    requires Imported(v3, db, v3.StateUrls(), unknown) && i in db.rows
    ensures u in db.sources.byUrl && db.sources.byUrl[u].id == i
    ensures RowsRead(v3, db.media.ids, db.rows[i], u)
    ensures NoDangling(db.media.ids, db.rows[i])
  {
    assert Owned(db.sources.byUrl, i);
    u :| Owner(db.sources.byUrl, u, i);
    assert SourceReads(v3, db, u, unknown);
  }

  lemma EntriesCounted(v3: V3, db: V4, unknown: Text)
    requires Imported(v3, db, v3.StateUrls(), unknown)
    ensures |EntryKeys(db.rows)| == |v3.entries|
  {
    forall k | k in v3.entries ensures EntryImage(db, k).Some? && EntryImage(db, k).value in EntryKeys(db.rows) {
      assert k.0 in v3.StateUrls();
      assert SourceReads(v3, db, k.0, unknown);
      ReadsHaveEntry(v3, db, k, unknown);
    }
    var image := set k | k in v3.entries :: EntryImage(db, k).value;
    forall r | r in EntryKeys(db.rows) ensures r in image {
      EntryFromV3(v3, db, r, unknown);
    }
    assert image == EntryKeys(db.rows);
    EntryCount(v3, db, image);
  }

  lemma EntryFromV3(v3: V3, db: V4, r: (int, int), unknown: Text)
    requires Imported(v3, db, v3.StateUrls(), unknown) && r in EntryKeys(db.rows)
    ensures exists k :: k in v3.entries && EntryImage(db, k) == Some(r)
  {
    var u := OwnerOf(v3, db, r.0, unknown);
    var ids, entries := db.media.ids, db.rows[r.0].entries;
    var v :| Named(ids, v, r.1);
    var s := set w | w in ids && ids[w] in entries :: (entries[ids[w]], w, 0);
    OrderByLists(s);
    assert (entries[ids[v]], v, 0) in s;
    var q := v3.EntryRows(u);
    assert (entries[ids[v]], v, 0) in Enumerated(q);
    var j :| 0 <= j < |q| && Enumerated(q)[j] == (entries[ids[v]], v, 0);
    EntryRowsFacts(v3, u);
    assert (u, q[j].1) in v3.entries && q[j].1 == v;
    assert EntryImage(db, (u, v)) == Some((r.0, r.1));
  }

  // ---- Times -------------------------------------------------------------------

  /** A store whose sources pass the constraints, with usable identities and zoned times
      that do not fall from one record to the next, is migrated. */
  lemma RisingTimesMigrate(platform: Platform, p: Provider, v3: V3, unknown: Text)
    requires ConstraintsHold(v3)
    requires forall k | k in v3.metadata :: platform.Identity(k.1) && platform.parse(v3.metadata[k].fetchedAt).At?
    requires var q := v3.RecordOrder();
             forall i, j | 0 <= i < j < |q| && platform.parse(q[i].0).At? && platform.parse(q[j].0).At? ::
               platform.parse(q[i].0).instant <= platform.parse(q[j].0).instant
    ensures Populated(platform, p, v3, unknown).Some?
  {
    MigrationPreservesMeaning(platform, p, v3, unknown);
    ConstraintsAre(v3);
    forall i | 0 <= i < |v3.RecordOrder()|
      ensures platform.Identity(v3.RecordOrder()[i].2) && platform.parse(v3.RecordOrder()[i].0).At?
    {
      RecordOrderHas(v3, i);
    }
  }

  lemma RecordOrderHas(v3: V3, i: int)
    requires 0 <= i < |v3.RecordOrder()|
    ensures var r := v3.RecordOrder()[i];
            (r.1, r.2) in v3.metadata && v3.metadata[(r.1, r.2)].fetchedAt == r.0
  {
    var s := set k | k in v3.metadata :: (v3.metadata[k].fetchedAt, k.0, k.1);
    OrderByLists(s);
    assert v3.RecordOrder()[i] in v3.RecordOrder();
    var k :| k in v3.metadata && v3.RecordOrder()[i] == (v3.metadata[k].fetchedAt, k.0, k.1);
    assert k == (k.0, k.1);
  }

  /** One medium, recorded from two sources under rising texts. */
  function TwoRecords(first: Text, second: Text): V3 {
    V3(map[(1, 9) := MetaRow(first, map[]), (2, 9) := MetaRow(second, map[])], map[], map[], map[], map[], map[])
  }

  lemma TwoRecordsOrder(first: Text, second: Text)
    requires first < second
    ensures TwoRecords(first, second).RecordOrder() == [(first, 1, 9), (second, 2, 9)]
  {
    var v3, q := TwoRecords(first, second), [(first, 1, 9), (second, 2, 9)];
    var s := set k | k in v3.metadata :: (v3.metadata[k].fetchedAt, k.0, k.1);
    assert (1, 9) in v3.metadata && (2, 9) in v3.metadata;
    forall k ensures k in q <==> k in s {
      assert k in q <==> k == (first, 1, 9) || k == (second, 2, 9);
    }
    OrderByIs(s, q);
  }

  /** It is migrated exactly when the second record is not of an earlier instant. */
  lemma TwoRecordsMigrateExactly(platform: Platform, p: Provider, first: Text, second: Text, unknown: Text)
    requires first < second && platform.Identity(9) && platform.parse(first).At? && platform.parse(second).At?
    ensures Populated(platform, p, TwoRecords(first, second), unknown).Some?
            <==> platform.parse(first).instant <= platform.parse(second).instant
  {
    var v3 := TwoRecords(first, second);
    TwoRecordsOrder(first, second);
    MigrationPreservesMeaning(platform, p, v3, unknown);
    var q := v3.RecordOrder();
    assert q[0] == (first, 1, 9) && q[1] == (second, 2, 9);
  }

  // ---- Stores the contract admits and the migration refuses --------------------

  /** A one-record store. */
  function SingleRecord(fetched: Text, record: Record): V3 {
    V3(map[(1, 1) := MetaRow(fetched, record)], map[], map[], map[], map[], map[])
  }

  lemma SingleRecordOrder(fetched: Text, record: Record)
    ensures SingleRecord(fetched, record).RecordOrder() == [(fetched, 1, 1)]
  {
    var v3 := SingleRecord(fetched, record);
    assert (set k | k in v3.metadata :: (v3.metadata[k].fetchedAt, k.0, k.1)) == {(fetched, 1, 1)} by {
      assert (1, 1) in v3.metadata;
    }
    OrderByIs({(fetched, 1, 1)}, [(fetched, 1, 1)]);
  }

  /** A timestamp without a zone is inside the v3 contract, yet cannot be migrated. */
  lemma ContractValidIsNotEnough(platform: Platform, p: Provider, fetched: Text, unknown: Text)
    requires platform.parse(fetched).Naive?
    ensures ContractValid(platform, SingleRecord(fetched, map[]))
    ensures Populated(platform, p, SingleRecord(fetched, map[]), unknown).None?
  {
    SingleRecordOrder(fetched, map[]);
    var q := [(fetched, 1, 1)];
    assert platform.parse(q[0].0).Naive?;
    MigrationPreservesMeaning(platform, p, SingleRecord(fetched, map[]), unknown);
  }

  lemma SingleRecordMigrates(platform: Platform, p: Provider, fetched: Text, record: Record, unknown: Text)
    requires platform.parse(fetched).At? && platform.Identity(1)
    ensures ContractValid(platform, SingleRecord(fetched, record))
    ensures Populated(platform, p, SingleRecord(fetched, record), unknown).Some?
  {
    SingleRecordOrder(fetched, record);
    MigrationPreservesMeaning(platform, p, SingleRecord(fetched, record), unknown);
  }

  lemma SingleRecordCertifies(platform: Platform, p: Provider, fetched: Text, record: Record, unknown: Text)
    requires platform.parse(fetched).At? && platform.Identity(1)
    ensures var v3 := SingleRecord(fetched, record);
            && ContractValid(platform, v3) && Populated(platform, p, v3, unknown).Some?
            && (Certified(p, v3, Populated(platform, p, v3, unknown).value, RecordIds(v3.RecordOrder()), unknown)
                <==> Faithful(platform, p, record))
  {
    var v3 := SingleRecord(fetched, record);
    SingleRecordMigrates(platform, p, fetched, record, unknown);
    SingleRecordOrder(fetched, record);
    OwnOutputCertifies(platform, p, v3, unknown);
    SingleRecordLatest(fetched, record);
  }

  lemma SingleRecordLatest(fetched: Text, record: Record)
    ensures var v3 := SingleRecord(fetched, record);
            && LatestOf(v3, 1) == Some((fetched, 1, 1)) && RecordAt(v3.metadata, (fetched, 1, 1)) == record
            && RecordIds(v3.RecordOrder()) == {1}
  {
    SingleRecordOrder(fetched, record);
    var q := SingleRecord(fetched, record).RecordOrder();
    assert q == [(fetched, 1, 1)] && q[0].2 == 1;
    assert RecordIds(q) == {1} by {
      assert 1 in RecordIds(q);
    }
  }

  /** A whole-number float in an integer column (a duration of 12.0) is stored as
      the integer, and full certification then refuses the destination. */
  lemma WholeFloatFailsCertification(platform: Platform, fetched: Text, duration: Name, unknown: Text)
    requires platform.parse(fetched).At? && platform.Identity(1)
    requires platform.stored(IntegerAffinity, Real(12.0)) == Int(12)
    ensures var v3 := SingleRecord(fetched, map[duration := Plain(Real(12.0))]);
            var p := Provider(map[duration := IntegerAffinity], {});
            && ContractValid(platform, v3) && Populated(platform, p, v3, unknown).Some?
            && !Certified(p, v3, Populated(platform, p, v3, unknown).value, RecordIds(v3.RecordOrder()), unknown)
  {
    var p := Provider(map[duration := IntegerAffinity], {});
    SingleRecordCertifies(platform, p, fetched, map[duration := Plain(Real(12.0))], unknown);
    assert duration in p.fields;
  }
}
