/** Retention: an immutable plan of provider contributions and source states to drop,
    and its execution with collection of the entities nothing refers to any more. */
module CacheRetention {
  import opened Options
  import opened SqlOrder

  const YTDLP := 0   // the provider key "yt-dlp"

  datatype Provider = Provider(id: int, table: int)

  /** Registry rows by provider key, the metadata tables that exist, and the provider
      definitions the caller passes. */
  datatype Registry = Registry(rows: map<int, Provider>, tables: set<int>, defined: set<int>) {
    ghost predicate Unique() {
      forall p, q {:trigger rows[p], rows[q]} | p in rows && q in rows :: rows[p].id == rows[q].id || rows[p].table == rows[q].table ==> p == q
    }
  }

  /** What providers contributed: metadata rows by (table, entity), acquisition rows by
      (entity, provider id, group) with their last success, yt-dlp collection rows. */
  datatype Contributions = Contributions(
    metadata: map<(int, int), int>, acquisition: map<(int, int, int), Option<int>>, collections: map<int, int>)

  /** Source rows by id, and the rows that refer to them; a frontier row is its head. */
  datatype SourceState = SourceState(
    sources: map<int, int>, observations: map<int, int>, entries: map<(int, int), int>,
    coverage: map<int, int>, frontiers: map<int, int>)

  datatype Selection = Selection(provider: int, entity: int)
  datatype Plan = Plan(contributions: seq<Selection>, sources: seq<int>)
  datatype Outcome = Unauthorised | Failed | Done(planned: nat, removedContributions: nat, removedSources: nat, collected: seq<int>)

  // ---- Provider contributions --------------------------------------------------------

  predicate HasRows(c: Contributions, p: Provider, e: int) {
    (p.table, e) in c.metadata || exists k :: k in c.acquisition && k.0 == e && k.1 == p.id
  }

  function Without(c: Contributions, p: Provider, e: int, ytdlp: bool): Contributions {
    Contributions(c.metadata - {(p.table, e)},
                  map k | k in c.acquisition && !(k.0 == e && k.1 == p.id) :: c.acquisition[k],
                  if ytdlp then c.collections - {e} else c.collections)
  }

  datatype Removal = Removal(c: Contributions, removed: nat, affected: set<int>)

  /** The removals of the first n selections, or None once one raises: a provider without
      a definition, or one whose table is missing. */
  function Removed(r: Registry, c: Contributions, q: seq<Selection>, n: nat): Option<Removal>
    requires n <= |q|
  {
    if n == 0 then Some(Removal(c, 0, {}))
    else
      match Removed(r, c, q, n - 1)
      case None => None
      case Some(d) =>
        var s := q[n - 1];
        if s.provider !in r.defined then None
        else if s.provider !in r.rows then Some(d)
        else
          var p := r.rows[s.provider];
          if p.table !in r.tables then None
          else
            var had := HasRows(d.c, p, s.entity);
            Some(Removal(Without(d.c, p, s.entity, s.provider == YTDLP),
                         if had then d.removed + 1 else d.removed, if had then d.affected + {s.entity} else d.affected))
  }

  ghost predicate Raises(r: Registry, s: Selection) {
    s.provider !in r.defined || (s.provider in r.rows && r.rows[s.provider].table !in r.tables)
  }

  /** Selection s names the provider with this key at entity e. */
  ghost predicate Selects(r: Registry, s: Selection, key: int, e: int) { s.provider == key && s.entity == e && key in r.rows }

  ghost predicate Selected(r: Registry, q: seq<Selection>, n: int, key: int, e: int)
    requires n <= |q|
  {
    exists i :: 0 <= i < n && Selects(r, q[i], key, e)
  }

  ghost predicate NamesTable(r: Registry, s: Selection, table: int, e: int) {
    s.provider in r.rows && r.rows[s.provider].table == table && s.entity == e
  }

  ghost predicate SelectedTable(r: Registry, q: seq<Selection>, n: int, table: int, e: int)
    requires n <= |q|
  {
    exists i :: 0 <= i < n && NamesTable(r, q[i], table, e)
  }

  ghost predicate NamesId(r: Registry, s: Selection, id: int, e: int) {
    s.provider in r.rows && r.rows[s.provider].id == id && s.entity == e
  }

  ghost predicate SelectedId(r: Registry, q: seq<Selection>, n: int, id: int, e: int)
    requires n <= |q|
  {
    exists i :: 0 <= i < n && NamesId(r, q[i], id, e)
  }

  /** The selected units that have rows, as (provider key, entity). */
  ghost function Units(r: Registry, c: Contributions, q: seq<Selection>, n: nat): set<(int, int)>
    requires n <= |q|
  {
    set i | 0 <= i < n && q[i].provider in r.rows && HasRows(c, r.rows[q[i].provider], q[i].entity) :: (q[i].provider, q[i].entity)
  }

  /** What a removal leaves: exactly the rows of units nobody selected. */
  ghost predicate Leaves(r: Registry, c: Contributions, q: seq<Selection>, n: nat, d: Contributions)
    requires n <= |q|
  {
    && (forall k {:trigger k in d.metadata} :: k in d.metadata <==> k in c.metadata && !SelectedTable(r, q, n, k.0, k.1))
    && (forall k {:trigger d.metadata[k]} | k in d.metadata :: d.metadata[k] == c.metadata[k])
    && (forall k {:trigger k in d.acquisition} :: k in d.acquisition <==> k in c.acquisition && !SelectedId(r, q, n, k.1, k.0))
    && (forall k {:trigger d.acquisition[k]} | k in d.acquisition :: d.acquisition[k] == c.acquisition[k])
    && (forall e {:trigger e in d.collections} :: e in d.collections <==> e in c.collections && !Selected(r, q, n, YTDLP, e))
    && (forall e {:trigger d.collections[e]} | e in d.collections :: d.collections[e] == c.collections[e])
  }

  lemma SelectedMore(r: Registry, q: seq<Selection>, n: nat, key: int, e: int)
    requires 0 < n <= |q|
    ensures Selected(r, q, n, key, e) <==> Selected(r, q, n - 1, key, e) || Selects(r, q[n - 1], key, e)
  {
    if Selected(r, q, n - 1, key, e) {
      var i :| 0 <= i < n - 1 && Selects(r, q[i], key, e);
    }
  }

  lemma SelectedTableMore(r: Registry, q: seq<Selection>, n: nat, table: int, e: int)
    requires 0 < n <= |q|
    ensures SelectedTable(r, q, n, table, e) <==> SelectedTable(r, q, n - 1, table, e) || NamesTable(r, q[n - 1], table, e)
  {
    if SelectedTable(r, q, n - 1, table, e) {
      var i :| 0 <= i < n - 1 && NamesTable(r, q[i], table, e);
    }
  }

  lemma SelectedIdMore(r: Registry, q: seq<Selection>, n: nat, id: int, e: int)
    requires 0 < n <= |q|
    ensures SelectedId(r, q, n, id, e) <==> SelectedId(r, q, n - 1, id, e) || NamesId(r, q[n - 1], id, e)
  {
    if SelectedId(r, q, n - 1, id, e) {
      var i :| 0 <= i < n - 1 && NamesId(r, q[i], id, e);
    }
  }

  lemma LeavesMore(r: Registry, c: Contributions, q: seq<Selection>, n: nat, d: Contributions)
    requires 0 < n <= |q| && Leaves(r, c, q, n - 1, d)
    ensures var s := q[n - 1];
            Leaves(r, c, q, n, if s.provider in r.rows then Without(d, r.rows[s.provider], s.entity, s.provider == YTDLP) else d)
  {
    var s := q[n - 1];
    forall k: (int, int)
      ensures SelectedTable(r, q, n, k.0, k.1) <==> (SelectedTable(r, q, n - 1, k.0, k.1) || NamesTable(r, s, k.0, k.1))
    {
      SelectedTableMore(r, q, n, k.0, k.1);
    }
    forall k: (int, int, int)
      ensures SelectedId(r, q, n, k.1, k.0) <==> (SelectedId(r, q, n - 1, k.1, k.0) || NamesId(r, s, k.1, k.0))
    {
      SelectedIdMore(r, q, n, k.1, k.0);
    }
    forall e ensures Selected(r, q, n, YTDLP, e) <==> (Selected(r, q, n - 1, YTDLP, e) || Selects(r, s, YTDLP, e)) {
      SelectedMore(r, q, n, YTDLP, e);
    }
  }

  lemma SelectedByName(r: Registry, q: seq<Selection>, n: nat, key: int, e: int)
    requires n <= |q| && r.Unique() && key in r.rows
    ensures SelectedTable(r, q, n, r.rows[key].table, e) <==> Selected(r, q, n, key, e)
    ensures SelectedId(r, q, n, r.rows[key].id, e) <==> Selected(r, q, n, key, e)
  {
    forall i | 0 <= i < n
      ensures NamesTable(r, q[i], r.rows[key].table, e) <==> Selects(r, q[i], key, e)
      ensures NamesId(r, q[i], r.rows[key].id, e) <==> Selects(r, q[i], key, e)
    {
    }
  }

  /** A unit still has rows exactly when it had some and was not selected before. */
  lemma StillHasRows(r: Registry, c: Contributions, q: seq<Selection>, n: nat, d: Contributions, key: int, e: int)
    requires n <= |q| && Leaves(r, c, q, n, d) && r.Unique() && key in r.rows
    ensures HasRows(d, r.rows[key], e) <==> HasRows(c, r.rows[key], e) && !Selected(r, q, n, key, e)
  {
    var p := r.rows[key];
    SelectedByName(r, q, n, key, e);
    if (p.table, e) in c.metadata && !Selected(r, q, n, key, e) {
      assert (p.table, e) in d.metadata;
    }
    if k :| k in c.acquisition && k.0 == e && k.1 == p.id && !Selected(r, q, n, key, e) {
      assert k in d.acquisition;
    }
  }

  lemma UnitIn(r: Registry, c: Contributions, q: seq<Selection>, n: nat, key: int, e: int)
    requires n <= |q|
    ensures (key, e) in Units(r, c, q, n) <==> key in r.rows && HasRows(c, r.rows[key], e) && Selected(r, q, n, key, e)
  {
    if key in r.rows && Selected(r, q, n, key, e) {
      var i :| 0 <= i < n && Selects(r, q[i], key, e);
      assert (q[i].provider, q[i].entity) == (key, e);
    }
    if (key, e) in Units(r, c, q, n) {
      var i :| 0 <= i < n && q[i].provider in r.rows && HasRows(c, r.rows[q[i].provider], q[i].entity)
               && (q[i].provider, q[i].entity) == (key, e);
      assert Selects(r, q[i], key, e);
    }
  }

  /** The unit selection n - 1 adds to those that have rows. */
  lemma UnitsMore(r: Registry, c: Contributions, q: seq<Selection>, n: nat)
    requires 0 < n <= |q|
    ensures var s := q[n - 1];
            Units(r, c, q, n) == Units(r, c, q, n - 1)
              + if s.provider in r.rows && HasRows(c, r.rows[s.provider], s.entity) then {(s.provider, s.entity)} else {}
  {
  }

  ghost predicate NewUnit(r: Registry, c: Contributions, q: seq<Selection>, n: nat)
    requires 0 < n <= |q|
  {
    var s := q[n - 1];
    s.provider in r.rows && HasRows(c, r.rows[s.provider], s.entity) && !Selected(r, q, n - 1, s.provider, s.entity)
  }

  /** A step that finds rows adds its unit and its entity; another adds neither. */
  lemma NewUnitCounts(r: Registry, c: Contributions, q: seq<Selection>, n: nat)
    requires 0 < n <= |q| && NewUnit(r, c, q, n)
    ensures |Units(r, c, q, n)| == |Units(r, c, q, n - 1)| + 1
    ensures Entities(Units(r, c, q, n)) == Entities(Units(r, c, q, n - 1)) + {q[n - 1].entity}
  {
    var u := (q[n - 1].provider, q[n - 1].entity);
    UnitsMore(r, c, q, n);
    UnitIn(r, c, q, n - 1, u.0, u.1);
    AffectedMore(Units(r, c, q, n - 1), u);
  }

  lemma OldUnitDoesNot(r: Registry, c: Contributions, q: seq<Selection>, n: nat)
    requires 0 < n <= |q| && !NewUnit(r, c, q, n)
    ensures Units(r, c, q, n) == Units(r, c, q, n - 1)
  {
    UnitsMore(r, c, q, n);
    UnitIn(r, c, q, n - 1, q[n - 1].provider, q[n - 1].entity);
  }

  /** Removal of the first n selections raises exactly on a bad selection, and leaves
      exactly the rows nobody selected. */
  lemma {:induction false} RemovalLeaves(r: Registry, c: Contributions, q: seq<Selection>, n: nat)
    requires n <= |q|
    ensures Removed(r, c, q, n).None? <==> exists i :: 0 <= i < n && Raises(r, q[i])
    ensures Removed(r, c, q, n).Some? ==> Leaves(r, c, q, n, Removed(r, c, q, n).value.c)
  {
    if n > 0 {
      RemovalLeaves(r, c, q, n - 1);
      if Removed(r, c, q, n - 1).Some? && !Raises(r, q[n - 1]) {
        LeavesMore(r, c, q, n, Removed(r, c, q, n - 1).value.c);
      }
    }
  }

  /** It counts every selected unit that had rows once, and its entity is affected. */
  lemma {:induction false} RemovalCounts(r: Registry, c: Contributions, q: seq<Selection>, n: nat)
    requires n <= |q| && r.Unique() && Removed(r, c, q, n).Some?
    ensures Removed(r, c, q, n).value.removed == |Units(r, c, q, n)|
    ensures Removed(r, c, q, n).value.affected == Entities(Units(r, c, q, n))
  {
    if n == 0 {
      assert Units(r, c, q, 0) == {} && Entities({}) == {};
    } else {
      RemovalCounts(r, c, q, n - 1);
      RemovalLeaves(r, c, q, n - 1);
      var s, d := q[n - 1], Removed(r, c, q, n - 1).value.c;
      if s.provider in r.rows {
        StillHasRows(r, c, q, n - 1, d, s.provider, s.entity);
      }
      if NewUnit(r, c, q, n) {
        NewUnitCounts(r, c, q, n);
      } else {
        OldUnitDoesNot(r, c, q, n);
      }
    }
  }

  ghost function Entities(units: set<(int, int)>): set<int> { set v | v in units :: v.1 }

  lemma AffectedMore(units: set<(int, int)>, u: (int, int))
    ensures Entities(units + {u}) == Entities(units) + {u.1}
  {
    assert u in units + {u};
    forall v | v in units ensures v.1 in Entities(units + {u}) {
      assert v in units + {u};
    }
  }

  // ---- Source states ---------------------------------------------------------------------

  /** Rows deleted with their source: ON DELETE CASCADE. */
  function WithoutSources(s: SourceState, gone: set<int>): SourceState {
    SourceState(s.sources - gone, s.observations - gone,
                map k | k in s.entries && k.0 !in gone :: s.entries[k],
                s.coverage - gone, s.frontiers - gone)
  }

  /** The entities the entries and frontier heads of some sources name. */
  function NamedBy(s: SourceState, ids: set<int>): set<int> {
    (set k | k in s.entries && k.0 in ids :: k.1) + (set i | i in s.frontiers && i in ids :: s.frontiers[i])
  }

  function Ids(q: seq<int>, n: nat): set<int>
    requires n <= |q|
  {
    set i | 0 <= i < n :: q[i]
  }

  ghost predicate SourcesIntact(s: SourceState) {
    && (forall k {:trigger k in s.entries} | k in s.entries :: k.0 in s.sources)
    && s.observations.Keys <= s.sources.Keys && s.coverage.Keys <= s.sources.Keys && s.frontiers.Keys <= s.sources.Keys
  }

  lemma IdsMore(q: seq<int>, n: nat)
    requires n < |q|
    ensures Ids(q, n + 1) == Ids(q, n) + {q[n]}
  {
  }

  /** Removing one more source, if it is still there. */
  lemma SourceStep(s: SourceState, was: set<int>, i: int)
    requires SourcesIntact(s)
    ensures var rest := WithoutSources(s, was);
            && WithoutSources(s, was + {i}) == (if i in rest.sources then WithoutSources(rest, {i}) else rest)
            && NamedBy(s, was + {i}) == NamedBy(s, was) + NamedBy(rest, {i})
  {
    MoreNamed(s, was, {i});
    if i in s.sources && i !in was {
      WithoutBoth(s, was, {i});
    } else {
      WithoutNothing(s, was, i);
    }
  }

  lemma CountStep(s: SourceState, was: set<int>, i: int)
    ensures |(was + {i}) * s.sources.Keys| ==
            |was * s.sources.Keys| + if i in WithoutSources(s, was).sources then 1 else 0
  {
    if i in s.sources && i !in was {
      assert (was + {i}) * s.sources.Keys == was * s.sources.Keys + {i};
    } else {
      assert (was + {i}) * s.sources.Keys == was * s.sources.Keys;
    }
  }

  /** What the removal of some sources leaves, counts and collects. */
  ghost predicate SourcesGone(s: SourceState, was: set<int>, now: SourceState, removed: nat, already: set<int>, affected: set<int>) {
    now == WithoutSources(s, was) && removed == |was * s.sources.Keys| && affected == already + NamedBy(s, was)
  }

  lemma SourceGone(s: SourceState, was: set<int>, i: int, now: SourceState, removed: nat, already: set<int>, affected: set<int>)
    requires SourcesIntact(s) && SourcesGone(s, was, now, removed, already, affected)
    ensures SourcesGone(s, was + {i}, if i in now.sources then WithoutSources(now, {i}) else now,
                        if i in now.sources then removed + 1 else removed, already, affected + NamedBy(now, {i}))
  {
    SourceStep(s, was, i);
    CountStep(s, was, i);
  }

  lemma WithoutNone(s: SourceState)
    ensures WithoutSources(s, {}) == s && NamedBy(s, {}) == {}
  {
    assert WithoutSources(s, {}).entries == s.entries;
  }

  lemma WithoutBoth(s: SourceState, a: set<int>, b: set<int>)
    ensures WithoutSources(WithoutSources(s, a), b) == WithoutSources(s, a + b)
  {
    assert WithoutSources(WithoutSources(s, a), b).entries == WithoutSources(s, a + b).entries;
    assert WithoutSources(WithoutSources(s, a), b).sources == WithoutSources(s, a + b).sources;
    assert WithoutSources(WithoutSources(s, a), b).observations == WithoutSources(s, a + b).observations;
    assert WithoutSources(WithoutSources(s, a), b).coverage == WithoutSources(s, a + b).coverage;
    assert WithoutSources(WithoutSources(s, a), b).frontiers == WithoutSources(s, a + b).frontiers;
  }

  lemma WithoutNothing(s: SourceState, was: set<int>, i: int)
    requires SourcesIntact(s) && (i !in s.sources || i in was)
    ensures WithoutSources(s, was + {i}) == WithoutSources(s, was)
  {
    var a, b := WithoutSources(s, was + {i}), WithoutSources(s, was);
    assert a.entries == b.entries;
    assert a.sources == b.sources && a.observations == b.observations;
    assert a.coverage == b.coverage && a.frontiers == b.frontiers;
  }

  lemma MoreNamed(s: SourceState, a: set<int>, b: set<int>)
    ensures NamedBy(s, a + b) == NamedBy(s, a) + NamedBy(WithoutSources(s, a), b)
  {
    var rest := WithoutSources(s, a);
    forall e | e in NamedBy(s, a + b) ensures e in NamedBy(s, a) + NamedBy(rest, b) {
      NamedHas(s, a + b, e);
      if k :| k in s.entries && k.0 in a + b && k.1 == e {
        assert k.0 !in a ==> k in rest.entries;
      }
    }
  }

  lemma NamedHas(s: SourceState, ids: set<int>, e: int)
    ensures e in NamedBy(s, ids) <==>
            (exists k :: k in s.entries && k.0 in ids && k.1 == e) || (exists i :: i in s.frontiers && i in ids && s.frontiers[i] == e)
  {
  }

  // ---- Collection --------------------------------------------------------------------------

  datatype Database = Database(c: Contributions, s: SourceState, entities: map<int, int>)

  /** not _entity_is_unreferenced: an acquisition row, a source entry, a frontier head, or
      a row in the existing metadata table of any registered provider. */
  predicate Referenced(r: Registry, c: Contributions, s: SourceState, e: int) {
    || (exists k :: k in c.acquisition && k.0 == e)
    || (exists k :: k in s.entries && k.1 == e)
    || (exists i :: i in s.frontiers && s.frontiers[i] == e)
    || (exists p :: p in r.rows && r.rows[p].table in r.tables && (r.rows[p].table, e) in c.metadata)
  }

  /** Rows deleted with their entity: ON DELETE CASCADE. */
  function Cascade(c: Contributions, gone: set<int>): Contributions {
    Contributions(map k | k in c.metadata && k.1 !in gone :: c.metadata[k],
                  map k | k in c.acquisition && k.0 !in gone :: c.acquisition[k],
                  c.collections - gone)
  }

  lemma CascadeKeepsOthers(r: Registry, c: Contributions, s: SourceState, gone: set<int>, e: int)
    requires e !in gone
    ensures Referenced(r, Cascade(c, gone), s, e) <==> Referenced(r, c, s, e)
  {
    var d := Cascade(c, gone);
    forall p | p in r.rows ensures (r.rows[p].table, e) in d.metadata <==> (r.rows[p].table, e) in c.metadata {
    }
    if k :| k in c.acquisition && k.0 == e {
      assert k in d.acquisition;
    }
    if k :| k in d.acquisition && k.0 == e {
      assert k in c.acquisition;
    }
  }

  lemma CascadeMore(c: Contributions, gone: set<int>, e: int)
    ensures Cascade(Cascade(c, gone), {e}) == Cascade(c, gone + {e})
  {
    var a, b := Cascade(Cascade(c, gone), {e}), Cascade(c, gone + {e});
    assert a.metadata == b.metadata;
    assert a.acquisition == b.acquisition;
    assert a.collections == b.collections;
  }

  function Collectable(r: Registry, db: Database, affected: set<int>): set<int> {
    set e | e in affected && e in db.entities && !Referenced(r, db.c, db.s, e)
  }

  function Collect(db: Database, gone: set<int>): Database {
    Database(Cascade(db.c, gone), db.s, db.entities - gone)
  }

  // ---- Execution ---------------------------------------------------------------------------

  datatype Report = Report(db: Database, removedContributions: nat, removedSources: nat, collected: set<int>)

  /** The whole plan as one transaction, or None where it raises and is rolled back. */
  function Executed(r: Registry, db: Database, plan: Plan): Option<Report> {
    match Removed(r, db.c, plan.contributions, |plan.contributions|)
    case None => None
    case Some(d) =>
      var gone := Ids(plan.sources, |plan.sources|);
      var left := Database(d.c, WithoutSources(db.s, gone), db.entities);
      var collected := Collectable(r, left, d.affected + NamedBy(db.s, gone));
      Some(Report(Collect(left, collected), d.removed, |gone * db.s.sources.Keys|, collected))
  }

  /** The v4 database as maintenance sees it. */
  class CacheDatabase {
    const registry: Registry
    var contributions: Contributions
    var state: SourceState
    var entities: map<int, int>

    constructor (registry: Registry, db: Database)
      ensures this.registry == registry && Contents() == db
    {
      this.registry := registry;
      contributions, state, entities := db.c, db.s, db.entities;
    }

    function Contents(): Database reads this { Database(contributions, state, entities) }

    method RemoveContributions(q: seq<Selection>) returns (removed: nat, affected: set<int>, ok: bool)
      modifies this`contributions
      ensures ok <==> Removed(registry, old(contributions), q, |q|).Some?
      ensures ok ==> Removed(registry, old(contributions), q, |q|) == Some(Removal(contributions, removed, affected))
    {
      removed, affected, ok := 0, {}, true;
      for n := 0 to |q|
        invariant Removed(registry, old(contributions), q, n) == Some(Removal(contributions, removed, affected))
      {
        var s := q[n];
        if s.provider !in registry.defined {
          RaisedStays(registry, old(contributions), q, n + 1, |q|);
          return removed, affected, false;
        }
        if s.provider !in registry.rows { continue; }
        var p := registry.rows[s.provider];
        if p.table !in registry.tables {
          RaisedStays(registry, old(contributions), q, n + 1, |q|);
          return removed, affected, false;
        }
        var had := HasRows(contributions, p, s.entity);
        contributions := Without(contributions, p, s.entity, s.provider == YTDLP);
        if had {
          removed := removed + 1;
          affected := affected + {s.entity};
        }
      }
    }

    method RemoveSources(q: seq<int>, already: set<int>) returns (removed: nat, affected: set<int>)
      requires SourcesIntact(state)
      modifies this`state
      ensures state == WithoutSources(old(state), Ids(q, |q|))
      ensures removed == |Ids(q, |q|) * old(state).sources.Keys|
      ensures affected == already + NamedBy(old(state), Ids(q, |q|))
    {
      removed, affected := 0, already;
      WithoutNone(state);
      assert Ids(q, 0) == {};
      for n := 0 to |q|
        invariant SourcesGone(old(state), Ids(q, n), state, removed, already, affected)
      {
        ghost var before := state;
        var found, named := RemoveSource(q[n]);
        SourceGone(old(state), Ids(q, n), q[n], before, removed, already, affected);
        IdsMore(q, n);
        affected := affected + named;
        removed := if found then removed + 1 else removed;
      }
    }

    /** One selected source: what it names is read before its row, and all that refers to
        it, goes. */
    method RemoveSource(i: int) returns (found: bool, named: set<int>)
      modifies this`state
      ensures found <==> i in old(state).sources
      ensures named == NamedBy(old(state), {i})
      ensures state == if found then WithoutSources(old(state), {i}) else old(state)
    {
      named := NamedBy(state, {i});
      found := i in state.sources;
      if found {
        state := WithoutSources(state, {i});
      }
    }

    /** The affected entities nothing refers to, in ascending order. */
    method CollectEntities(affected: set<int>) returns (collected: seq<int>)
      modifies this`contributions, this`entities
      ensures Listing(collected, Collectable(registry, old(Contents()), affected))
      ensures Contents() == Collect(old(Contents()), Collectable(registry, old(Contents()), affected))
    {
      collected := [];
      var order := Sorted(affected);
      SortedLists(affected);
      ghost var gone: set<int> := {};
      NothingCollected(Contents());
      for n := 0 to |order|
        invariant Contents() == Collect(old(Contents()), gone) && Listing(collected, gone)
        invariant forall e | e in gone :: n == |order| || e < order[n]
        invariant forall i | 0 <= i < n :: order[i] in gone <==> order[i] in Collectable(registry, old(Contents()), affected)
        invariant gone <= Collectable(registry, old(Contents()), affected)
      {
        var e := order[n];
        CollectStep(registry, old(Contents()), affected, gone, e);
        var took := CollectIfUnreferenced(e);
        if took {
          ListingMore(collected, gone, e);
          collected := collected + [e];
          gone := gone + {e};
        }
      }
      forall e | e in Collectable(registry, old(Contents()), affected) ensures e in gone {
        var i :| 0 <= i < |order| && order[i] == e;
      }
    }

    /** execute_cache_maintenance: one transaction, rolled back whole on any exception. */
    method Execute(plan: Plan, destructive: bool) returns (out: Outcome)
      requires SourcesIntact(state)
      modifies this
      ensures plan == Plan([], []) ==> out == Done(0, 0, 0, []) && Contents() == old(Contents())
      ensures out.Unauthorised? <==> plan != Plan([], []) && !destructive
      ensures out.Failed? <==> plan != Plan([], []) && destructive && Executed(registry, old(Contents()), plan).None?
      ensures !out.Done? ==> Contents() == old(Contents())
      ensures out.Done? && plan != Plan([], []) ==>
                var done := Executed(registry, old(Contents()), plan).value;
                Contents() == done.db && Matches(out, plan, done)
    {
      if plan.contributions == [] && plan.sources == [] { return Done(0, 0, 0, []); }
      if !destructive { return Unauthorised; }
      var saved := Contents();
      var removedContributions, touched, ok := RemoveContributions(plan.contributions);
      if !ok {
        contributions, state, entities := saved.c, saved.s, saved.entities;
        return Failed;
      }
      var removedSources, affected := RemoveSources(plan.sources, touched);
      var collected := CollectEntities(affected);
      out := Done(|plan.contributions| + |plan.sources|, removedContributions, removedSources, collected);
    }

    method CollectIfUnreferenced(e: int) returns (took: bool)
      modifies this`contributions, this`entities
      ensures took <==> !Referenced(registry, old(contributions), state, e) && e in old(entities)
      ensures Contents() == if took then Database(Cascade(old(contributions), {e}), state, old(entities) - {e}) else old(Contents())
    {
      took := !Referenced(registry, contributions, state, e) && e in entities;
      if took {
        contributions := Cascade(contributions, {e});
        entities := entities - {e};
      }
    }
  }

  ghost predicate Matches(out: Outcome, plan: Plan, done: Report) {
    && out.Done? && out.planned == |plan.contributions| + |plan.sources|
    && out.removedContributions == done.removedContributions && out.removedSources == done.removedSources
    && Listing(out.collected, done.collected)
  }

  lemma ListingMore(q: seq<int>, s: set<int>, e: int)
    requires Listing(q, s) && forall x | x in s :: x < e
    ensures Listing(q + [e], s + {e})
  {
    forall i | 0 <= i < |q| ensures q[i] < e {
      assert q[i] in q;
    }
  }

  /** q lists s in ascending order. */
  ghost predicate Listing(q: seq<int>, s: set<int>) {
    && (forall e :: e in q <==> e in s)
    && forall i, j | 0 <= i < j < |q| :: q[i] < q[j]
  }

  lemma NothingCollected(db: Database)
    ensures Collect(db, {}) == db
  {
    assert Cascade(db.c, {}).metadata == db.c.metadata && Cascade(db.c, {}).acquisition == db.c.acquisition;
  }

  lemma CollectStep(r: Registry, db: Database, affected: set<int>, gone: set<int>, e: int)
    requires e in affected && e !in gone
    ensures var now := Collect(db, gone);
            && (e in Collectable(r, db, affected) <==> e in now.entities && !Referenced(r, now.c, now.s, e))
            && Database(Cascade(now.c, {e}), now.s, now.entities - {e}) == Collect(db, gone + {e})
  {
    CascadeKeepsOthers(r, db.c, db.s, gone, e);
    CascadeMore(db.c, gone, e);
  }

  lemma {:induction false} RaisedStays(r: Registry, c: Contributions, q: seq<Selection>, n: nat, m: nat)
    requires n <= m <= |q| && Removed(r, c, q, n).None?
    ensures Removed(r, c, q, m).None?
  {
    if n < m {
      RaisedStays(r, c, q, n, m - 1);
    }
  }

  // ---- What an execution does ------------------------------------------------------------------

  ghost predicate Registered(r: Registry, table: int) {
    exists p :: p in r.rows && r.rows[p].table == table && table in r.tables
  }

  /** Declared references hold, and every metadata row is in a registered provider's table. */
  ghost predicate Intact(r: Registry, db: Database) {
    && SourcesIntact(db.s)
    && (forall k {:trigger k in db.c.metadata} | k in db.c.metadata :: k.1 in db.entities && Registered(r, k.0))
    && (forall k {:trigger k in db.c.acquisition} | k in db.c.acquisition :: k.0 in db.entities)
    && db.c.collections.Keys <= db.entities.Keys
    && (forall k {:trigger k in db.s.entries} | k in db.s.entries :: k.1 in db.entities)
    && (forall i {:trigger db.s.frontiers[i]} | i in db.s.frontiers :: db.s.frontiers[i] in db.entities)
  }

  lemma RemovalKeepsIntact(r: Registry, db: Database, q: seq<Selection>, gone: set<int>, d: Contributions)
    requires Intact(r, db) && Leaves(r, db.c, q, |q|, d)
    ensures Intact(r, Database(d, WithoutSources(db.s, gone), db.entities))
  {
    assert forall e | e in d.collections :: e in db.c.collections;
  }

  lemma CollectKeepsIntact(r: Registry, db: Database, gone: set<int>)
    requires Intact(r, db) && forall e | e in gone :: !Referenced(r, db.c, db.s, e)
    ensures Intact(r, Collect(db, gone))
  {
    forall k | k in db.s.entries ensures k.1 !in gone {
      if k.1 in gone {
        assert Referenced(r, db.c, db.s, k.1);
      }
    }
    forall i | i in db.s.frontiers ensures db.s.frontiers[i] !in gone {
      if db.s.frontiers[i] in gone {
        assert Referenced(r, db.c, db.s, db.s.frontiers[i]);
      }
    }
  }

  /** The database after both removals, before collection. */
  function Left(r: Registry, db: Database, plan: Plan): Database
    requires Executed(r, db, plan).Some?
  {
    Database(Removed(r, db.c, plan.contributions, |plan.contributions|).value.c,
             WithoutSources(db.s, Ids(plan.sources, |plan.sources|)), db.entities)
  }

  /** Referential integrity survives every plan. */
  lemma ExecutionKeepsIntegrity(r: Registry, db: Database, plan: Plan)
    requires Intact(r, db) && Executed(r, db, plan).Some?
    ensures Intact(r, Executed(r, db, plan).value.db)
  {
    var q := plan.contributions;
    RemovalLeaves(r, db.c, q, |q|);
    var left := Left(r, db, plan);
    RemovalKeepsIntact(r, db, q, Ids(plan.sources, |plan.sources|), left.c);
    CollectKeepsIntact(r, left, Executed(r, db, plan).value.collected);
  }

  /** The entities a plan touches: of the selected units that had rows, of the entries
      and frontier heads of the selected sources. */
  ghost function Affected(r: Registry, db: Database, plan: Plan): set<int> {
    Entities(Units(r, db.c, plan.contributions, |plan.contributions|)) + NamedBy(db.s, Ids(plan.sources, |plan.sources|))
  }

  /** Collection is exact: an affected entity goes if and only if nothing in the final
      database refers to it; an entity the plan does not touch stays. */
  lemma CollectionIsExact(r: Registry, db: Database, plan: Plan, e: int)
    requires r.Unique() && Executed(r, db, plan).Some?
    ensures var done := Executed(r, db, plan).value;
            && (e in done.collected <==>
                  && e in db.entities && e in Affected(r, db, plan)
                  && (forall k | k in done.db.c.acquisition :: k.0 != e)
                  && (forall p | p in r.rows && r.rows[p].table in r.tables :: (r.rows[p].table, e) !in done.db.c.metadata)
                  && (forall k | k in done.db.s.entries :: k.1 != e)
                  && (forall i | i in done.db.s.frontiers :: done.db.s.frontiers[i] != e))
            && (e in done.db.entities <==> e in db.entities && e !in done.collected)
  {
    var q := plan.contributions;
    RemovalCounts(r, db.c, q, |q|);
    var done, left := Executed(r, db, plan).value, Left(r, db, plan);
    if e in done.collected {
      CascadeForgets(r, left.c, left.s, done.collected, e);
    } else {
      CascadeKeepsOthers(r, left.c, left.s, done.collected, e);
    }
  }

  lemma CascadeForgets(r: Registry, c: Contributions, s: SourceState, gone: set<int>, e: int)
    requires e in gone && !Referenced(r, c, s, e)
    ensures !Referenced(r, Cascade(c, gone), s, e)
  {
  }

  /** The counts are of distinct units: contributions that had rows, sources that existed. */
  lemma CountsAreOfUnits(r: Registry, db: Database, plan: Plan)
    requires r.Unique() && Executed(r, db, plan).Some?
    ensures var done := Executed(r, db, plan).value;
            && done.removedContributions == |Units(r, db.c, plan.contributions, |plan.contributions|)|
            && done.removedSources == |Ids(plan.sources, |plan.sources|) * db.s.sources.Keys|
  {
    RemovalCounts(r, db.c, plan.contributions, |plan.contributions|);
  }

  /** Everything else is untouched: the metadata and acquisition rows of a unit nobody
      selected stay as they are, cascades included, and so do the rows of a source
      nobody selected. */
  lemma OtherRowsStay(r: Registry, db: Database, plan: Plan)
    requires Intact(r, db) && Executed(r, db, plan).Some?
    ensures var done, q := Executed(r, db, plan).value.db, plan.contributions;
            && (forall k {:trigger k in done.c.metadata} | k in db.c.metadata && !SelectedTable(r, q, |q|, k.0, k.1) ::
                  k in done.c.metadata && done.c.metadata[k] == db.c.metadata[k])
            && (forall k {:trigger k in done.c.acquisition} | k in db.c.acquisition && !SelectedId(r, q, |q|, k.1, k.0) ::
                  k in done.c.acquisition && done.c.acquisition[k] == db.c.acquisition[k])
            && done.s == WithoutSources(db.s, Ids(plan.sources, |plan.sources|))
  {
    var q := plan.contributions;
    RemovalLeaves(r, db.c, q, |q|);
    var left, gone := Left(r, db, plan), Executed(r, db, plan).value.collected;
    forall k | k in db.c.metadata && !SelectedTable(r, q, |q|, k.0, k.1) ensures k.1 !in gone {
      assert k in left.c.metadata && Registered(r, k.0);
      var p :| p in r.rows && r.rows[p].table == k.0 && k.0 in r.tables;
      assert (r.rows[p].table, k.1) in left.c.metadata;
    }
    forall k | k in db.c.acquisition && !SelectedId(r, q, |q|, k.1, k.0) ensures k.0 !in gone {
      assert k in left.c.acquisition;
    }
  }

  /** The selected units are gone: no unit of the plan has a row left. */
  lemma SelectedUnitsAreGone(r: Registry, db: Database, plan: Plan, i: int)
    requires r.Unique() && Executed(r, db, plan).Some? && 0 <= i < |plan.contributions|
    requires plan.contributions[i].provider in r.rows
    ensures !HasRows(Executed(r, db, plan).value.db.c, r.rows[plan.contributions[i].provider], plan.contributions[i].entity)
  {
    var q, s := plan.contributions, plan.contributions[i];
    RemovalLeaves(r, db.c, q, |q|);
    var left, gone := Left(r, db, plan), Executed(r, db, plan).value.collected;
    assert Selects(r, q[i], s.provider, s.entity);
    StillHasRows(r, db.c, q, |q|, left.c, s.provider, s.entity);
    var after := Cascade(left.c, gone);
    assert forall k | k in after.acquisition :: k in left.c.acquisition;
  }

  /** Running the same plan again removes nothing and changes nothing. */
  lemma SecondRunDoesNothing(r: Registry, db: Database, plan: Plan)
    requires r.Unique() && Executed(r, db, plan).Some?
    ensures var after := Executed(r, db, plan).value.db;
            Executed(r, after, plan) == Some(Report(after, 0, 0, {}))
  {
    var after, q := Executed(r, db, plan).value.db, plan.contributions;
    var ids := Ids(plan.sources, |plan.sources|);
    RemovalLeaves(r, db.c, q, |q|);
    RemovalLeaves(r, after.c, q, |q|);
    RemovalCounts(r, after.c, q, |q|);
    NothingToRemove(r, db, plan);
    WithoutTwice(db.s, ids);
    NothingCollected(after);
    assert Entities({}) == {};
    assert Collectable(r, Left(r, after, plan), {}) == {};
  }

  lemma NothingToRemove(r: Registry, db: Database, plan: Plan)
    requires r.Unique() && Executed(r, db, plan).Some?
    ensures var after, q := Executed(r, db, plan).value.db, plan.contributions;
            && Units(r, after.c, q, |q|) == {}
            && (Removed(r, after.c, q, |q|).Some? ==> Removed(r, after.c, q, |q|).value.c == after.c)
  {
    var after, q := Executed(r, db, plan).value.db, plan.contributions;
    forall i | 0 <= i < |q| && q[i].provider in r.rows
      ensures !HasRows(after.c, r.rows[q[i].provider], q[i].entity)
    {
      SelectedUnitsAreGone(r, db, plan, i);
    }
    NoRowsNoChange(r, db, plan);
  }

  lemma WithoutTwice(s: SourceState, ids: set<int>)
    ensures WithoutSources(WithoutSources(s, ids), ids) == WithoutSources(s, ids)
    ensures NamedBy(WithoutSources(s, ids), ids) == {}
    ensures ids * WithoutSources(s, ids).sources.Keys == {}
  {
    WithoutBoth(s, ids, ids);
    assert ids + ids == ids;
  }

  lemma {:induction false} RemovesNothing(r: Registry, c: Contributions, q: seq<Selection>, n: nat)
    requires n <= |q| && Removed(r, c, q, n).Some?
    requires forall i | 0 <= i < n && q[i].provider in r.rows :: Without(c, r.rows[q[i].provider], q[i].entity, q[i].provider == YTDLP) == c
    ensures Removed(r, c, q, n).value.c == c
  {
    if n > 0 {
      RemovesNothing(r, c, q, n - 1);
    }
  }

  lemma NoRowsNoChange(r: Registry, db: Database, plan: Plan)
    requires r.Unique() && Executed(r, db, plan).Some?
    ensures var after, q := Executed(r, db, plan).value.db, plan.contributions;
            Removed(r, after.c, q, |q|).Some? ==> Removed(r, after.c, q, |q|).value.c == after.c
  {
    var after, q := Executed(r, db, plan).value.db, plan.contributions;
    RemovalLeaves(r, db.c, q, |q|);
    forall i | 0 <= i < |q| && q[i].provider in r.rows
      ensures Without(after.c, r.rows[q[i].provider], q[i].entity, q[i].provider == YTDLP) == after.c
    {
      SelectedUnitsAreGone(r, db, plan, i);
      assert Selects(r, q[i], q[i].provider, q[i].entity);
      UnchangedWithout(after.c, r.rows[q[i].provider], q[i].entity, q[i].provider == YTDLP);
    }
    if Removed(r, after.c, q, |q|).Some? {
      RemovesNothing(r, after.c, q, |q|);
    }
  }

  lemma UnchangedWithout(c: Contributions, p: Provider, e: int, ytdlp: bool)
    requires !HasRows(c, p, e) && (ytdlp ==> e !in c.collections)
    ensures Without(c, p, e, ytdlp) == c
  {
    var d := Without(c, p, e, ytdlp);
    assert d.metadata == c.metadata;
    assert d.acquisition == c.acquisition;
    assert d.collections == c.collections;
  }

  // ---- Planning --------------------------------------------------------------------------------

  /** A timestamp text as an instant; None where reading it raises. */
  type Clock = int -> Option<int>

  /** Acquisition row k is a success of one provider at one entity. */
  predicate Success(c: Contributions, id: int, e: int, k: (int, int, int)) {
    k in c.acquisition && k.0 == e && k.1 == id && c.acquisition[k].Some?
  }

  /** The success with MAX(last_success_at), which compares texts. */
  predicate Latest(c: Contributions, id: int, e: int, k: (int, int, int)) {
    Success(c, id, e, k) && forall l | l in c.acquisition && Success(c, id, e, l) :: c.acquisition[l].value <= c.acquisition[k].value
  }

  predicate Expired(clock: Clock, c: Contributions, id: int, e: int, cutoff: int) {
    exists k :: k in c.acquisition && Latest(c, id, e, k)
                && clock(c.acquisition[k].value).Some? && clock(c.acquisition[k].value).value < cutoff
  }

  /** Every success is before the cutoff, and there is one. */
  ghost predicate AllBefore(clock: Clock, c: Contributions, id: int, e: int, cutoff: int)
    requires Readable(clock, c, id, e)
  {
    && (exists k :: k in c.acquisition && k.0 == e && k.1 == id && c.acquisition[k].Some?)
    && forall k | k in c.acquisition && k.0 == e && k.1 == id && c.acquisition[k].Some? ::
         clock(c.acquisition[k].value).value < cutoff
  }

  ghost predicate Readable(clock: Clock, c: Contributions, id: int, e: int) {
    forall k | k in c.acquisition && k.0 == e && k.1 == id && c.acquisition[k].Some? :: clock(c.acquisition[k].value).Some?
  }

  /** No success is later than one with the last text. */
  ghost predicate LatestIsLast(clock: Clock, c: Contributions, id: int, e: int)
    requires Readable(clock, c, id, e)
  {
    forall k, l | Latest(c, id, e, k) && Success(c, id, e, l) ::
      clock(c.acquisition[l].value).value <= clock(c.acquisition[k].value).value
  }

  lemma SomeIsLatest(c: Contributions, id: int, e: int, k: (int, int, int)) returns (l: (int, int, int))
    requires Success(c, id, e, k)
    ensures Latest(c, id, e, l)
  {
    var successes := set l | l in c.acquisition && Success(c, id, e, l) :: (c.acquisition[l].value, 0, 0);
    OrderByLists(successes);
    var q := OrderBy(successes);
    assert (c.acquisition[k].value, 0, 0) in q;
    var last := q[|q| - 1];
    assert last in q;
    l :| l in c.acquisition && Success(c, id, e, l) && (c.acquisition[l].value, 0, 0) == last;
    forall m | m in c.acquisition && Success(c, id, e, m) ensures c.acquisition[m].value <= c.acquisition[l].value {
      assert (c.acquisition[m].value, 0, 0) in q;
      var i :| 0 <= i < |q| && q[i] == (c.acquisition[m].value, 0, 0);
      assert i < |q| - 1 ==> Before(q[i], q[|q| - 1]);
    }
  }

  /** Expired means that every success is before the cutoff, whatever the cutoff, exactly
      when the success with the last text is the last success. */
  lemma ExpiredExactly(clock: Clock, c: Contributions, id: int, e: int)
    requires Readable(clock, c, id, e)
    ensures (forall cutoff: int :: Expired(clock, c, id, e, cutoff) <==> AllBefore(clock, c, id, e, cutoff))
            <==> LatestIsLast(clock, c, id, e)
  {
    if LatestIsLast(clock, c, id, e) {
      forall cutoff: int ensures Expired(clock, c, id, e, cutoff) <==> AllBefore(clock, c, id, e, cutoff) {
        ExpiredWhenLast(clock, c, id, e, cutoff);
      }
    } else {
      var k, l :| Latest(c, id, e, k) && Success(c, id, e, l)
                  && clock(c.acquisition[l].value).value > clock(c.acquisition[k].value).value;
      var cutoff := clock(c.acquisition[k].value).value + 1;
      assert Expired(clock, c, id, e, cutoff) && !AllBefore(clock, c, id, e, cutoff);
    }
  }

  lemma ExpiredWhenLast(clock: Clock, c: Contributions, id: int, e: int, cutoff: int)
    requires Readable(clock, c, id, e) && LatestIsLast(clock, c, id, e)
    ensures Expired(clock, c, id, e, cutoff) <==> AllBefore(clock, c, id, e, cutoff)
  {
    if k :| Success(c, id, e, k) {
      var l := SomeIsLatest(c, id, e, k);
    }
  }

  /** In particular where the texts sort as the instants they stand for. */
  lemma ExpiredMeans(clock: Clock, c: Contributions, id: int, e: int, cutoff: int)
    requires Readable(clock, c, id, e)
    requires forall k, l | Success(c, id, e, k) && Success(c, id, e, l) && c.acquisition[k].value <= c.acquisition[l].value ::
               clock(c.acquisition[k].value).value <= clock(c.acquisition[l].value).value
    ensures Expired(clock, c, id, e, cutoff) <==> AllBefore(clock, c, id, e, cutoff)
  {
    ExpiredWhenLast(clock, c, id, e, cutoff);
  }

  /** The contributions of one registered provider that retention selects. */
  function ExpiredOf(clock: Clock, r: Registry, c: Contributions, key: int, cutoff: int): set<Key> {
    if key !in r.rows then {}
    else set k | k in c.metadata && k.0 == r.rows[key].table && Expired(clock, c, r.rows[key].id, k.1, cutoff) :: (key, k.1, 0)
  }

  function ExpiredOfAll(clock: Clock, r: Registry, c: Contributions, keys: seq<int>, n: nat, cutoff: int): set<Key>
    requires n <= |keys|
  {
    if n == 0 then {} else ExpiredOfAll(clock, r, c, keys, n - 1, cutoff) + ExpiredOf(clock, r, c, keys[n - 1], cutoff)
  }

  function AsSelections(q: seq<Key>): (p: seq<Selection>)
    ensures |p| == |q|
  {
    seq(|q|, i requires 0 <= i < |q| => Selection(q[i].0, q[i].1))
  }

  /** The sources whose last observation is before the cutoff. */
  function ExpiredSources(clock: Clock, s: SourceState, cutoff: int): set<int> {
    set i | i in s.observations && i in s.sources
            && clock(s.observations[i]).Some? && clock(s.observations[i]).value < cutoff
  }

  /** A latest success, or the observation of a source, that does not read as an instant. */
  predicate Unreadable(clock: Clock, r: Registry, c: Contributions, key: int) {
    key in r.rows
    && exists k, l :: k in c.metadata && l in c.acquisition && k.0 == r.rows[key].table
                      && Latest(c, r.rows[key].id, k.1, l) && clock(c.acquisition[l].value).None?
  }

  predicate UnreadableSource(clock: Clock, s: SourceState) {
    exists i :: i in s.observations && i in s.sources && clock(s.observations[i]).None?
  }

  /** plan_cache_retention: None where a registered provider's table is missing or a
      timestamp it needs does not read. */
  method PlanRetention(clock: Clock, r: Registry, db: Database, keys: seq<int>, providerCutoff: Option<int>, sourceCutoff: Option<int>)
    returns (plan: Option<Plan>)
    ensures plan.None? <==>
              || (providerCutoff.Some? && exists i ::
                    && 0 <= i < |keys| && keys[i] in r.rows
                    && (r.rows[keys[i]].table !in r.tables || Unreadable(clock, r, db.c, keys[i])))
              || (sourceCutoff.Some? && exists i ::
                    i in db.s.observations && i in db.s.sources && clock(db.s.observations[i]).None?)
    ensures plan.Some? ==>
              && plan.value.contributions == (if providerCutoff.None? then []
                   else AsSelections(OrderBy(ExpiredOfAll(clock, r, db.c, keys, |keys|, providerCutoff.value))))
              && plan.value.sources == (if sourceCutoff.None? then [] else Sorted(ExpiredSources(clock, db.s, sourceCutoff.value)))
    ensures plan.Some? ==> forall i: int :: i in plan.value.sources <==>
              && sourceCutoff.Some? && i in db.s.sources && i in db.s.observations
              && clock(db.s.observations[i]).Some? && clock(db.s.observations[i]).value < sourceCutoff.value
    ensures plan.Some? ==> forall x: Selection :: x in plan.value.contributions <==>
              && providerCutoff.Some? && x.provider in keys && x.provider in r.rows
              && (r.rows[x.provider].table, x.entity) in db.c.metadata
              && Expired(clock, db.c, r.rows[x.provider].id, x.entity, providerCutoff.value)
    ensures plan.Some? ==> forall x: Selection |
              && providerCutoff.Some? && x.provider in keys && x.provider in r.rows
              && (r.rows[x.provider].table, x.entity) in db.c.metadata
              && Readable(clock, db.c, r.rows[x.provider].id, x.entity)
              && LatestIsLast(clock, db.c, r.rows[x.provider].id, x.entity) ::
              x in plan.value.contributions <==> AllBefore(clock, db.c, r.rows[x.provider].id, x.entity, providerCutoff.value)
  {
    var found: set<Key> := {};
    if providerCutoff.Some? {
      for n := 0 to |keys|
        invariant found == ExpiredOfAll(clock, r, db.c, keys, n, providerCutoff.value)
        invariant forall i | 0 <= i < n :: !TableMissing(r, keys[i]) && !Unreadable(clock, r, db.c, keys[i])
      {
        if TableMissing(r, keys[n]) || Unreadable(clock, r, db.c, keys[n]) { return None; }
        found := found + ExpiredOf(clock, r, db.c, keys[n], providerCutoff.value);
      }
    }
    assert OrderBy({}) == [];
    if sourceCutoff.Some? && UnreadableSource(clock, db.s) { return None; }
    plan := Some(Plan(AsSelections(OrderBy(found)),
                      if sourceCutoff.None? then [] else Sorted(ExpiredSources(clock, db.s, sourceCutoff.value))));
    if sourceCutoff.Some? {
      SourcesSelected(clock, db.s, sourceCutoff.value);
    }
    if providerCutoff.Some? {
      ContributionsSelected(clock, r, db.c, keys, providerCutoff.value);
      ContributionsAreOld(clock, r, db.c, keys, providerCutoff.value);
    }
  }

  /** The sources of a plan are those whose observation is before the cutoff. */
  lemma SourcesSelected(clock: Clock, s: SourceState, cutoff: int)
    ensures forall i: int :: i in Sorted(ExpiredSources(clock, s, cutoff)) <==>
              && i in s.sources && i in s.observations
              && clock(s.observations[i]).Some? && clock(s.observations[i]).value < cutoff
  {
    var chosen := ExpiredSources(clock, s, cutoff);
    SortedLists(chosen);
    forall i: int ensures i in Sorted(chosen) <==> i in chosen {
      if i in chosen {
        var j :| 0 <= j < |Sorted(chosen)| && Sorted(chosen)[j] == i;
      }
    }
  }

  /** Provider and entity of a selection, among those the plan looked at. */
  ghost predicate Considered(r: Registry, c: Contributions, keys: seq<int>, x: Selection) {
    x.provider in keys && x.provider in r.rows && (r.rows[x.provider].table, x.entity) in c.metadata
  }

  lemma {:induction false} ExpiredOfAllIs(clock: Clock, r: Registry, c: Contributions, keys: seq<int>, n: nat, cutoff: int, k: Key)
    requires n <= |keys|
    ensures k in ExpiredOfAll(clock, r, c, keys, n, cutoff) <==>
              && k.2 == 0 && k.0 in keys[..n] && k.0 in r.rows && (r.rows[k.0].table, k.1) in c.metadata
              && Expired(clock, c, r.rows[k.0].id, k.1, cutoff)
  {
    if n > 0 {
      ExpiredOfAllIs(clock, r, c, keys, n - 1, cutoff, k);
      assert keys[..n] == keys[..n - 1] + [keys[n - 1]];
      assert k.0 in r.rows && (r.rows[k.0].table, k.1) in c.metadata ==> (r.rows[k.0].table, k.1).0 == r.rows[k.0].table;
    }
  }

  /** The contributions of a plan are those of the providers asked about that have expired. */
  lemma ContributionsSelected(clock: Clock, r: Registry, c: Contributions, keys: seq<int>, cutoff: int)
    ensures forall x: Selection :: x in AsSelections(OrderBy(ExpiredOfAll(clock, r, c, keys, |keys|, cutoff))) <==>
              Considered(r, c, keys, x) && Expired(clock, c, r.rows[x.provider].id, x.entity, cutoff)
  {
    var found := ExpiredOfAll(clock, r, c, keys, |keys|, cutoff);
    assert keys[..|keys|] == keys;
    forall k | k in found ensures k.2 == 0 {
      ExpiredOfAllIs(clock, r, c, keys, |keys|, cutoff, k);
    }
    forall x: Selection
      ensures x in AsSelections(OrderBy(found)) <==>
              Considered(r, c, keys, x) && Expired(clock, c, r.rows[x.provider].id, x.entity, cutoff)
    {
      ExpiredOfAllIs(clock, r, c, keys, |keys|, cutoff, (x.provider, x.entity, 0));
      SelectionListed(found, x);
    }
  }

  lemma SelectionListed(found: set<Key>, x: Selection)
    requires forall k | k in found :: k.2 == 0
    ensures x in AsSelections(OrderBy(found)) <==> (x.provider, x.entity, 0) in found
  {
    var rows, k := OrderBy(found), (x.provider, x.entity, 0);
    OrderByLists(found);
    if k in found {
      var i :| 0 <= i < |rows| && rows[i] == k;
      assert AsSelections(rows)[i] == x;
    }
    if i :| 0 <= i < |rows| && AsSelections(rows)[i] == x {
      assert rows[i] in rows;
    }
  }

  /** Where the last text is the last success, they are those all of whose successes are
      before the cutoff. */
  lemma ContributionsAreOld(clock: Clock, r: Registry, c: Contributions, keys: seq<int>, cutoff: int)
    ensures forall x: Selection |
              && Considered(r, c, keys, x) && Readable(clock, c, r.rows[x.provider].id, x.entity)
              && LatestIsLast(clock, c, r.rows[x.provider].id, x.entity) ::
              x in AsSelections(OrderBy(ExpiredOfAll(clock, r, c, keys, |keys|, cutoff)))
              <==> AllBefore(clock, c, r.rows[x.provider].id, x.entity, cutoff)
  {
    ContributionsSelected(clock, r, c, keys, cutoff);
    forall x: Selection |
      && Considered(r, c, keys, x) && Readable(clock, c, r.rows[x.provider].id, x.entity)
      && LatestIsLast(clock, c, r.rows[x.provider].id, x.entity)
      ensures x in AsSelections(OrderBy(ExpiredOfAll(clock, r, c, keys, |keys|, cutoff)))
              <==> AllBefore(clock, c, r.rows[x.provider].id, x.entity, cutoff)
    {
      ExpiredWhenLast(clock, c, r.rows[x.provider].id, x.entity, cutoff);
    }
  }

  /** A provider with two groups, of which s is the earlier text and the later instant: a
      plan can be made, and selects the contribution though one success is not before the
      cutoff. */
  lemma LatestTextIsNotLatestTime(clock: Clock, r: Registry, c: Contributions, key: int, p: Provider, e: int,
                                  s: int, t: int, cutoff: int)
    requires key in r.rows && r.rows[key] == p && p.table in r.tables
    requires c.metadata.Keys == {(p.table, e)} && c.acquisition == map[(e, p.id, 1) := Some(s), (e, p.id, 2) := Some(t)]
    requires s < t && clock(s).Some? && clock(t).Some? && clock(t).value < cutoff <= clock(s).value
    ensures !TableMissing(r, key) && !Unreadable(clock, r, c, key)
    ensures AsSelections(OrderBy(ExpiredOfAll(clock, r, c, [key], 1, cutoff))) == [Selection(key, e)]
    ensures Readable(clock, c, p.id, e) && !AllBefore(clock, c, p.id, e, cutoff)
  {
    assert Success(c, p.id, e, (e, p.id, 1)) && Latest(c, p.id, e, (e, p.id, 2));
    assert forall l | Latest(c, p.id, e, l) :: l == (e, p.id, 2);
    assert ExpiredOf(clock, r, c, key, cutoff) == {(key, e, 0)};
    assert ExpiredOfAll(clock, r, c, [key], 1, cutoff) == ExpiredOfAll(clock, r, c, [key], 0, cutoff) + {(key, e, 0)};
    assert ExpiredOfAll(clock, r, c, [key], 1, cutoff) == {(key, e, 0)};
    assert Ascending([(key, e, 0)]);
    OrderByIs({(key, e, 0)}, [(key, e, 0)]);
  }

  predicate TableMissing(r: Registry, key: int) { key in r.rows && r.rows[key].table !in r.tables }

  lemma {:induction false} ExpiredAre(clock: Clock, r: Registry, c: Contributions, keys: seq<int>, n: nat, cutoff: int)
    requires n <= |keys|
    ensures forall k | k in ExpiredOfAll(clock, r, c, keys, n, cutoff) ::
              k.2 == 0 && k.0 in r.rows && k.0 in keys && HasRows(c, r.rows[k.0], k.1)
  {
    if n > 0 {
      ExpiredAre(clock, r, c, keys, n - 1, cutoff);
      assert keys[n - 1] in keys;
    }
  }

  /** A plan just made can be executed, and removes every unit it selects. */
  lemma FreshPlanIsExecutedWhole(clock: Clock, r: Registry, db: Database, keys: seq<int>, cutoff: int, sources: set<int>, plan: Plan)
    requires r.Unique() && (forall i | 0 <= i < |keys| :: keys[i] in r.defined && !TableMissing(r, keys[i]))
    requires sources <= db.s.sources.Keys
    requires plan == Plan(AsSelections(OrderBy(ExpiredOfAll(clock, r, db.c, keys, |keys|, cutoff))), Sorted(sources))
    ensures Executed(r, db, plan).Some?
    ensures Executed(r, db, plan).value.removedContributions == |plan.contributions|
    ensures Executed(r, db, plan).value.removedSources == |plan.sources|
  {
    var q := plan.contributions;
    ContributionsFound(clock, r, db.c, keys, cutoff, q);
    RemovalLeaves(r, db.c, q, |q|);
    CountsAreOfUnits(r, db, plan);
    SortedSize(sources);
    assert Ids(plan.sources, |plan.sources|) * db.s.sources.Keys == sources;
  }

  lemma ContributionsFound(clock: Clock, r: Registry, c: Contributions, keys: seq<int>, cutoff: int, q: seq<Selection>)
    requires forall i | 0 <= i < |keys| :: keys[i] in r.defined && !TableMissing(r, keys[i])
    requires q == AsSelections(OrderBy(ExpiredOfAll(clock, r, c, keys, |keys|, cutoff)))
    ensures forall i | 0 <= i < |q| :: !Raises(r, q[i])
    ensures |Units(r, c, q, |q|)| == |q|
  {
    var found := ExpiredOfAll(clock, r, c, keys, |keys|, cutoff);
    var rows := OrderBy(found);
    ExpiredAre(clock, r, c, keys, |keys|, cutoff);
    OrderByLists(found);
    forall i | 0 <= i < |q|
      ensures rows[i].2 == 0 && !Raises(r, q[i]) && q[i].provider in r.rows && HasRows(c, r.rows[q[i].provider], q[i].entity)
    {
      assert rows[i] in rows && rows[i] in found;
      var j :| 0 <= j < |keys| && keys[j] == rows[i].0;
    }
    EveryUnitCounts(r, c, rows, q, |q|);
  }

  lemma {:induction false} EveryUnitCounts(r: Registry, c: Contributions, rows: seq<Key>, q: seq<Selection>, n: nat)
    requires Ascending(rows) && q == AsSelections(rows) && n <= |q| && forall i | 0 <= i < |rows| :: rows[i].2 == 0
    requires forall i | 0 <= i < |q| :: q[i].provider in r.rows && HasRows(c, r.rows[q[i].provider], q[i].entity)
    ensures |Units(r, c, q, n)| == n
  {
    if n > 0 {
      EveryUnitCounts(r, c, rows, q, n - 1);
      var u := (q[n - 1].provider, q[n - 1].entity);
      UnitsMore(r, c, q, n);
      forall i | 0 <= i < n - 1 ensures (q[i].provider, q[i].entity) != u {
        assert Before(rows[i], rows[n - 1]);
      }
    }
  }

  lemma {:induction false} AscendingSize(q: seq<int>, n: nat)
    requires n <= |q| && forall i, j | 0 <= i < j < |q| :: q[i] < q[j]
    ensures |Ids(q, n)| == n
  {
    if n == 0 {
      assert Ids(q, 0) == {};
    } else {
      AscendingSize(q, n - 1);
      IdsMore(q, n - 1);
      assert q[n - 1] !in Ids(q, n - 1);
    }
  }

  lemma SortedSize(s: set<int>)
    ensures |Sorted(s)| == |s| && Ids(Sorted(s), |Sorted(s)|) == s
  {
    SortedLists(s);
    var q := Sorted(s);
    AscendingSize(q, |q|);
    forall u | u in s ensures u in Ids(q, |q|) {
      var i :| 0 <= i < |q| && q[i] == u;
    }
    assert Ids(q, |q|) == s;
  }
}
