/** The persistent half of the provider registry: stable identities, append-only
    registration order, and deployment policy that declarations never rewrite. */
module ProviderRegistry {
  import opened Options

  datatype Freshness = Immutable | AlwaysRefresh | MaxAge(seconds: int)

  datatype ProviderRow = ProviderRow(
    id: int, order: int, enabled: bool, priority: int, revision: int, table: int, applicability: int, declared: bool)
  datatype GroupRow = GroupRow(id: int, order: int, declared: bool)
  datatype FieldRow = FieldRow(
    id: int, storage: int, group: int, order: int, kind: int, freshness: Freshness,
    priorityOverride: Option<int>, freshnessOverride: Option<Freshness>, declared: bool)

  type Providers = map<int, ProviderRow>           // by provider key
  type Groups = map<(int, int), GroupRow>          // by provider id and group key
  type Fields = map<(int, int), FieldRow>          // by provider id and field name

  datatype Registry = Registry(providers: Providers, groups: Groups, fields: Fields)

  datatype FieldDefinition = FieldDefinition(name: int, storage: int, group: int, kind: int, freshness: Freshness)
  datatype Definition = Definition(
    key: int, revision: int, table: int, applicability: int, groups: seq<int>, fields: seq<FieldDefinition>)
  {
    /** What ProviderDefinition checks when it is made. */
    ghost predicate Valid() {
      && revision > 0
      && (forall i, j | 0 <= i < j < |groups| :: groups[i] != groups[j])
      && (forall i, j | 0 <= i < j < |fields| :: fields[i].name != fields[j].name && fields[i].storage != fields[j].storage)
      && (forall i | 0 <= i < |fields| :: fields[i].group in groups)
    }
  }

  /** COALESCE(MAX(x), 0). */
  function Max(s: set<int>): (m: int)
    ensures forall x | x in s :: x <= m
  {
    if s == {} then 0
    else
      MaxExists(s);
      var m :| m in s && forall x | x in s :: x <= m;
      m
  }

  lemma {:induction false} MaxExists(s: set<int>)
    requires s != {}
    ensures exists m :: m in s && forall x | x in s :: x <= m
  {
    var y := Member(s);
    var rest := s - {y};
    assert forall x | x in s :: x == y || x in rest;
    if rest != {} {
      MaxExists(rest);
      var n :| n in rest && forall x | x in rest :: x <= n;
      assert (if y > n then y else n) in s;
    }
  }

  lemma Member<T>(s: set<T>) returns (y: T)
    requires s != {}
    ensures y in s
  {
    y :| y in s;
  }

  function ProviderIds(p: Providers): set<int> { set k | k in p :: p[k].id }
  function ProviderOrders(p: Providers): set<int> { set k | k in p :: p[k].order }
  function GroupIds(g: Groups): set<int> { set k | k in g :: g[k].id }
  function GroupOrders(g: Groups, provider: int): set<int> { set k | k in g && k.0 == provider :: g[k].order }
  function FieldIds(f: Fields): set<int> { set k | k in f :: f[k].id }
  function FieldOrders(f: Fields, provider: int): set<int> { set k | k in f && k.0 == provider :: f[k].order }

  // ---- Reconciling one declaration -----------------------------------------------------

  /** UPDATE ... SET declared = 0. */
  function Undeclared(r: Registry): Registry {
    Registry(map k | k in r.providers :: r.providers[k].(declared := false),
             map k | k in r.groups :: r.groups[k].(declared := false),
             map k | k in r.fields :: r.fields[k].(declared := false))
  }

  function PutProvider(p: Providers, d: Definition): Option<Providers> {
    if d.key !in p then
      Some(p[d.key := ProviderRow(Max(ProviderIds(p)) + 1, Max(ProviderOrders(p)) + 1, true, 0,
                                  d.revision, d.table, d.applicability, true)])
    else
      var row := p[d.key];
      if row.table != d.table || row.revision > d.revision || row.applicability != d.applicability then None
      else Some(p[d.key := row.(declared := true, revision := d.revision)])
  }

  function PutGroup(g: Groups, provider: int, key: int): Groups {
    if (provider, key) in g then g[(provider, key) := g[(provider, key)].(declared := true)]
    else g[(provider, key) := GroupRow(Max(GroupIds(g)) + 1, Max(GroupOrders(g, provider)) + 1, true)]
  }

  function PutGroups(g: Groups, provider: int, keys: seq<int>, n: nat): Groups
    requires n <= |keys|
  {
    if n == 0 then g else PutGroup(PutGroups(g, provider, keys, n - 1), provider, keys[n - 1])
  }

  /** UNIQUE(provider_id, storage_name). */
  predicate StorageTaken(f: Fields, provider: int, storage: int) {
    exists k :: k in f && k.0 == provider && f[k].storage == storage
  }

  function PutField(f: Fields, provider: int, d: FieldDefinition, group: int): Option<Fields> {
    var k := (provider, d.name);
    if k !in f then
      if StorageTaken(f, provider, d.storage) then None
      else
        Some(f[k := FieldRow(Max(FieldIds(f)) + 1, d.storage, group, Max(FieldOrders(f, provider)) + 1,
                             d.kind, d.freshness, None, None, true)])
    else if f[k].storage != d.storage || f[k].group != group || f[k].kind != d.kind then None
    else Some(f[k := f[k].(declared := true, freshness := d.freshness)])
  }

  function PutFields(f: Fields, g: Groups, provider: int, ds: seq<FieldDefinition>, n: nat): Option<Fields>
    requires n <= |ds| && forall i | 0 <= i < |ds| :: (provider, ds[i].group) in g
  {
    if n == 0 then Some(f)
    else
      match PutFields(f, g, provider, ds, n - 1)
      case None => None
      case Some(more) => PutField(more, provider, ds[n - 1], g[(provider, ds[n - 1].group)].id)
  }

  lemma {:induction false} GroupsPresent(g: Groups, provider: int, keys: seq<int>, n: nat)
    requires n <= |keys|
    ensures forall i | 0 <= i < n :: (provider, keys[i]) in PutGroups(g, provider, keys, n)
    ensures forall k | k in g :: k in PutGroups(g, provider, keys, n)
  {
    if n > 0 {
      GroupsPresent(g, provider, keys, n - 1);
    }
  }

  /** _reconcile_provider; None where a stable part of the contract changed. */
  function PutDefinition(r: Registry, d: Definition): Option<Registry>
    requires d.Valid()
  {
    match PutProvider(r.providers, d)
    case None => None
    case Some(p) =>
      var id := p[d.key].id;
      var g := PutGroups(r.groups, id, d.groups, |d.groups|);
      GroupsPresent(r.groups, id, d.groups, |d.groups|);
      match PutFields(r.fields, g, id, d.fields, |d.fields|)
      case None => None
      case Some(f) => Some(Registry(p, g, f))
  }

  function PutDefinitions(r: Registry, ds: seq<Definition>, n: nat): Option<Registry>
    requires n <= |ds| && forall i | 0 <= i < |ds| :: ds[i].Valid()
  {
    if n == 0 then Some(r)
    else
      match PutDefinitions(r, ds, n - 1)
      case None => None
      case Some(more) => PutDefinition(more, ds[n - 1])
  }

  predicate DeclaredField(r: Registry, k: (int, int)) {
    && k in r.fields && r.fields[k].declared
    && exists p :: p in r.providers && r.providers[p].id == k.0 && r.providers[p].declared
  }

  /** _validate_shared_field_contracts. */
  predicate SharedTypesAgree(r: Registry) {
    forall k, l | k in r.fields && l in r.fields && k.1 == l.1 && DeclaredField(r, k) && DeclaredField(r, l) ::
      r.fields[k].kind == r.fields[l].kind
  }

  predicate DistinctKeys(ds: seq<Definition>) {
    forall i, j | 0 <= i < j < |ds| :: ds[i].key != ds[j].key
  }

  /** reconcile: the new registry, or None where it raises and is rolled back. */
  function Reconciled(r: Registry, ds: seq<Definition>): Option<Registry>
    requires forall i | 0 <= i < |ds| :: ds[i].Valid()
  {
    if !DistinctKeys(ds) then None
    else
      match PutDefinitions(Undeclared(r), ds, |ds|)
      case None => None
      case Some(s) => if SharedTypesAgree(s) then Some(s) else None
  }

  // ---- What never changes ----------------------------------------------------------------

  predicate SameProvider(a: ProviderRow, b: ProviderRow) {
    a.id == b.id && a.order == b.order && a.table == b.table && a.applicability == b.applicability && a.revision <= b.revision
  }

  predicate SameProviderPolicy(a: ProviderRow, b: ProviderRow) { a.enabled == b.enabled && a.priority == b.priority }

  predicate SameGroup(a: GroupRow, b: GroupRow) { a.id == b.id && a.order == b.order }

  predicate SameField(a: FieldRow, b: FieldRow) {
    a.id == b.id && a.storage == b.storage && a.group == b.group && a.order == b.order && a.kind == b.kind
  }

  predicate SameFieldPolicy(a: FieldRow, b: FieldRow) {
    a.priorityOverride == b.priorityOverride && a.freshnessOverride == b.freshnessOverride
  }

  ghost predicate ProvidersKept(a: Providers, b: Providers) {
    forall k {:trigger a[k]} {:trigger b[k]} | k in a :: k in b && SameProvider(a[k], b[k])
  }

  ghost predicate GroupsKept(a: Groups, b: Groups) {
    forall k {:trigger a[k]} {:trigger b[k]} | k in a :: k in b && SameGroup(a[k], b[k])
  }

  ghost predicate FieldsKept(a: Fields, b: Fields) {
    forall k {:trigger a[k]} {:trigger b[k]} | k in a :: k in b && SameField(a[k], b[k])
  }

  /** Every provider of b that a does not have is registered after all of a's. */
  ghost predicate ProvidersAppended(a: Providers, b: Providers) {
    forall k, l {:trigger b[k], a[l]} | k in b && k !in a && l in a :: a[l].id < b[k].id && a[l].order < b[k].order
  }

  /** The same for groups; their order counts within a provider. */
  ghost predicate GroupsAppended(a: Groups, b: Groups) {
    forall k, l {:trigger b[k], a[l]} | k in b && k !in a && l in a ::
      a[l].id < b[k].id && (k.0 == l.0 ==> a[l].order < b[k].order)
  }

  ghost predicate FieldsAppended(a: Fields, b: Fields) {
    forall k, l {:trigger b[k], a[l]} | k in b && k !in a && l in a ::
      a[l].id < b[k].id && (k.0 == l.0 ==> a[l].order < b[k].order)
  }

  ghost predicate Kept(a: Registry, b: Registry) {
    ProvidersKept(a.providers, b.providers) && GroupsKept(a.groups, b.groups) && FieldsKept(a.fields, b.fields)
  }

  ghost predicate Appended(a: Registry, b: Registry) {
    ProvidersAppended(a.providers, b.providers) && GroupsAppended(a.groups, b.groups) && FieldsAppended(a.fields, b.fields)
  }

  /** Every row of a is in b with the same identity, order and stable contract, and every
      other row of b comes after those of a. */
  ghost predicate Stable(a: Registry, b: Registry) { Kept(a, b) && Appended(a, b) }

  ghost predicate PoliciesKept(a: Registry, b: Registry) {
    && (forall k {:trigger a.providers[k]} | k in a.providers && k in b.providers :: SameProviderPolicy(a.providers[k], b.providers[k]))
    && (forall k {:trigger a.fields[k]} | k in a.fields && k in b.fields :: SameFieldPolicy(a.fields[k], b.fields[k]))
  }

  ghost predicate ProvidersUnique(p: Providers) {
    forall k, l {:trigger p[k], p[l]} | k in p && l in p && (p[k].id == p[l].id || p[k].order == p[l].order) :: k == l
  }

  ghost predicate GroupsUnique(g: Groups) {
    forall k, l {:trigger g[k], g[l]} | k in g && l in g && (g[k].id == g[l].id || (k.0 == l.0 && g[k].order == g[l].order)) :: k == l
  }

  ghost predicate FieldsUnique(f: Fields) {
    forall k, l {:trigger f[k], f[l]} | k in f && l in f
      && (f[k].id == f[l].id || (k.0 == l.0 && (f[k].order == f[l].order || f[k].storage == f[l].storage))) :: k == l
  }

  ghost predicate Unique(r: Registry) {
    ProvidersUnique(r.providers) && GroupsUnique(r.groups) && FieldsUnique(r.fields)
  }

  lemma PutProviderKeeps(p: Providers, d: Definition)
    requires ProvidersUnique(p) && PutProvider(p, d).Some?
    ensures var q := PutProvider(p, d).value;
            && ProvidersUnique(q) && ProvidersKept(p, q) && ProvidersAppended(p, q)
            && (forall k {:trigger p[k]} | k in p :: SameProviderPolicy(p[k], q[k]))
  {
    var q := PutProvider(p, d).value;
    forall k | k in p ensures p[k].id in ProviderIds(p) && p[k].order in ProviderOrders(p) {}
  }

  lemma PutGroupKeeps(g: Groups, provider: int, key: int)
    requires GroupsUnique(g)
    ensures var h := PutGroup(g, provider, key); GroupsUnique(h) && GroupsKept(g, h) && GroupsAppended(g, h)
  {
    forall k | k in g ensures g[k].id in GroupIds(g) && (k.0 == provider ==> g[k].order in GroupOrders(g, provider)) {}
  }

  lemma {:induction false} PutGroupsKeep(g: Groups, provider: int, keys: seq<int>, n: nat)
    requires GroupsUnique(g) && n <= |keys|
    ensures var h := PutGroups(g, provider, keys, n); GroupsUnique(h) && GroupsKept(g, h) && GroupsAppended(g, h)
  {
    if n > 0 {
      var before := PutGroups(g, provider, keys, n - 1);
      PutGroupsKeep(g, provider, keys, n - 1);
      PutGroupKeeps(before, provider, keys[n - 1]);
      GroupsAppend(g, before, PutGroups(g, provider, keys, n));
    }
  }

  lemma GroupsAppend(a: Groups, b: Groups, c: Groups)
    requires GroupsKept(a, b) && GroupsKept(b, c) && GroupsAppended(a, b) && GroupsAppended(b, c)
    ensures GroupsAppended(a, c)
  {
    forall k, l | k in c && k !in a && l in a ensures a[l].id < c[k].id && (k.0 == l.0 ==> a[l].order < c[k].order) {
      assert SameGroup(a[l], b[l]);
      if k in b {
        assert SameGroup(b[k], c[k]);
      }
    }
  }

  lemma FieldsAppend(a: Fields, b: Fields, c: Fields)
    requires FieldsKept(a, b) && FieldsKept(b, c) && FieldsAppended(a, b) && FieldsAppended(b, c)
    ensures FieldsAppended(a, c)
  {
    forall k, l | k in c && k !in a && l in a ensures a[l].id < c[k].id && (k.0 == l.0 ==> a[l].order < c[k].order) {
      assert SameField(a[l], b[l]);
      if k in b {
        assert SameField(b[k], c[k]);
      }
    }
  }

  lemma ProvidersAppend(a: Providers, b: Providers, c: Providers)
    requires ProvidersKept(a, b) && ProvidersKept(b, c) && ProvidersAppended(a, b) && ProvidersAppended(b, c)
    ensures ProvidersAppended(a, c)
  {
    forall k, l | k in c && k !in a && l in a ensures a[l].id < c[k].id && a[l].order < c[k].order {
      assert SameProvider(a[l], b[l]);
      if k in b {
        assert SameProvider(b[k], c[k]);
      }
    }
  }

  ghost predicate FieldPoliciesKept(a: Fields, b: Fields) {
    forall k {:trigger a[k]} {:trigger b[k]} | k in a && k in b :: SameFieldPolicy(a[k], b[k])
  }

  lemma NewFieldKeeps(f: Fields, k: (int, int), row: FieldRow)
    requires FieldsUnique(f) && k !in f
    requires row.id == Max(FieldIds(f)) + 1 && row.order == Max(FieldOrders(f, k.0)) + 1 && !StorageTaken(f, k.0, row.storage)
    ensures var h := f[k := row]; FieldsUnique(h) && FieldsKept(f, h) && FieldsAppended(f, h) && FieldPoliciesKept(f, h)
  {
    forall l | l in f ensures f[l].id in FieldIds(f) && (l.0 == k.0 ==> f[l].order in FieldOrders(f, k.0)) {}
  }

  lemma PutFieldKeeps(f: Fields, provider: int, d: FieldDefinition, group: int)
    requires FieldsUnique(f) && PutField(f, provider, d, group).Some?
    ensures var h := PutField(f, provider, d, group).value;
            FieldsUnique(h) && FieldsKept(f, h) && FieldsAppended(f, h) && FieldPoliciesKept(f, h)
  {
    var k := (provider, d.name);
    var row := PutField(f, provider, d, group).value[k];
    if k in f {
    } else {
      NewFieldKeeps(f, k, row);
    }
  }

  lemma {:induction false} PutFieldsKeep(f: Fields, g: Groups, provider: int, ds: seq<FieldDefinition>, n: nat)
    requires n <= |ds| && forall i | 0 <= i < |ds| :: (provider, ds[i].group) in g
    requires FieldsUnique(f) && PutFields(f, g, provider, ds, n).Some?
    ensures var h := PutFields(f, g, provider, ds, n).value;
            FieldsUnique(h) && FieldsKept(f, h) && FieldsAppended(f, h) && FieldPoliciesKept(f, h)
  {
    if n > 0 {
      var before := PutFields(f, g, provider, ds, n - 1).value;
      PutFieldsKeep(f, g, provider, ds, n - 1);
      PutFieldKeeps(before, provider, ds[n - 1], g[(provider, ds[n - 1].group)].id);
      FieldsAppend(f, before, PutFields(f, g, provider, ds, n).value);
    }
  }

  lemma PutDefinitionKeeps(r: Registry, d: Definition)
    requires d.Valid() && Unique(r) && PutDefinition(r, d).Some?
    ensures var s := PutDefinition(r, d).value; Unique(s) && Stable(r, s) && PoliciesKept(r, s)
  {
    PutProviderKeeps(r.providers, d);
    var id := PutProvider(r.providers, d).value[d.key].id;
    var g := PutGroups(r.groups, id, d.groups, |d.groups|);
    GroupsPresent(r.groups, id, d.groups, |d.groups|);
    PutGroupsKeep(r.groups, id, d.groups, |d.groups|);
    PutFieldsKeep(r.fields, g, id, d.fields, |d.fields|);
  }

  lemma StableIsTransitive(a: Registry, b: Registry, c: Registry)
    requires Stable(a, b) && Stable(b, c)
    ensures Stable(a, c)
    ensures PoliciesKept(a, b) && PoliciesKept(b, c) ==> PoliciesKept(a, c)
  {
    ProvidersAppend(a.providers, b.providers, c.providers);
    GroupsAppend(a.groups, b.groups, c.groups);
    FieldsAppend(a.fields, b.fields, c.fields);
    forall k | k in a.providers ensures k in c.providers && SameProvider(a.providers[k], c.providers[k]) {
      assert SameProvider(a.providers[k], b.providers[k]);
    }
    forall k | k in a.groups ensures k in c.groups && SameGroup(a.groups[k], c.groups[k]) {
      assert SameGroup(a.groups[k], b.groups[k]);
    }
    forall k | k in a.fields ensures k in c.fields && SameField(a.fields[k], c.fields[k]) {
      assert SameField(a.fields[k], b.fields[k]);
    }
    if PoliciesKept(a, b) && PoliciesKept(b, c) {
      forall k | k in a.providers ensures SameProviderPolicy(a.providers[k], c.providers[k]) {
        assert SameProviderPolicy(b.providers[k], c.providers[k]);
      }
      forall k | k in a.fields ensures SameFieldPolicy(a.fields[k], c.fields[k]) {
        assert SameFieldPolicy(b.fields[k], c.fields[k]);
      }
    }
  }

  lemma {:induction false} PutDefinitionsKeep(r: Registry, ds: seq<Definition>, n: nat)
    requires n <= |ds| && forall i | 0 <= i < |ds| :: ds[i].Valid()
    requires Unique(r) && PutDefinitions(r, ds, n).Some?
    ensures var s := PutDefinitions(r, ds, n).value; Unique(s) && Stable(r, s) && PoliciesKept(r, s)
  {
    if n > 0 {
      PutDefinitionsKeep(r, ds, n - 1);
      var before := PutDefinitions(r, ds, n - 1).value;
      PutDefinitionKeeps(before, ds[n - 1]);
      StableIsTransitive(r, before, PutDefinitions(r, ds, n).value);
    }
  }

  /** An accepted reconcile adds rows and declarations, and keeps everything else. */
  lemma ReconcileKeeps(r: Registry, ds: seq<Definition>)
    requires (forall i | 0 <= i < |ds| :: ds[i].Valid()) && Unique(r) && Reconciled(r, ds).Some?
    ensures var s := Reconciled(r, ds).value; Unique(s) && Stable(r, s) && PoliciesKept(r, s)
  {
    var u := Undeclared(r);
    assert Unique(u) && Stable(r, u) && PoliciesKept(r, u);
    PutDefinitionsKeep(u, ds, |ds|);
    StableIsTransitive(r, u, Reconciled(r, ds).value);
  }

  // ---- What is accepted, and how a new row begins ---------------------------------------------

  /** n follows the numbers of s, which start at one. */
  predicate FollowsOn(s: set<int>, n: int) {
    if s == {} then n == 1 else n - 1 in s && forall x | x in s :: x < n
  }

  lemma MaxFollows(s: set<int>)
    ensures FollowsOn(s, Max(s) + 1)
  {
  }

  /** A provider is refused exactly when its table or applicability differs or its revision
      falls.  A new one is enabled at priority zero, numbered after all others. */
  lemma ProviderExactly(p: Providers, d: Definition)
    ensures PutProvider(p, d).Some? <==>
              (d.key in p ==> p[d.key].table == d.table && p[d.key].applicability == d.applicability && p[d.key].revision <= d.revision)
    ensures PutProvider(p, d).Some? ==>
              var q := PutProvider(p, d).value;
              && d.key in q && q == p[d.key := q[d.key]]
              && var row := q[d.key];
                 if d.key in p then row == p[d.key].(declared := true, revision := d.revision)
                 else FollowsOn(ProviderIds(p), row.id) && FollowsOn(ProviderOrders(p), row.order)
                      && row == ProviderRow(row.id, row.order, true, 0, d.revision, d.table, d.applicability, true)
  {
    MaxFollows(ProviderIds(p));
    MaxFollows(ProviderOrders(p));
  }

  lemma GroupExactly(g: Groups, provider: int, key: int)
    ensures var h := PutGroup(g, provider, key);
            && (provider, key) in h && h == g[(provider, key) := h[(provider, key)]]
            && var row := h[(provider, key)];
               if (provider, key) in g then row == g[(provider, key)].(declared := true)
               else FollowsOn(GroupIds(g), row.id) && NextGroup(g, provider, row.order) && row.declared
  {
    MaxFollows(GroupIds(g));
    NextNumbers(g, map[], provider);
  }

  /** n is the order after those of the provider's own groups, starting at one. */
  predicate NextGroup(g: Groups, provider: int, n: int) {
    && (forall k | k in g && k.0 == provider :: g[k].order < n)
    && ((exists k :: k in g && k.0 == provider && g[k].order == n - 1)
        || (n == 1 && forall k | k in g :: k.0 != provider))
  }

  predicate NextField(f: Fields, provider: int, n: int) {
    && (forall k | k in f && k.0 == provider :: f[k].order < n)
    && ((exists k :: k in f && k.0 == provider && f[k].order == n - 1)
        || (n == 1 && forall k | k in f :: k.0 != provider))
  }

  lemma NextNumbers(g: Groups, f: Fields, provider: int)
    ensures NextGroup(g, provider, Max(GroupOrders(g, provider)) + 1)
    ensures NextField(f, provider, Max(FieldOrders(f, provider)) + 1)
  {
    var orders, numbers := GroupOrders(g, provider), FieldOrders(f, provider);
    MaxFollows(orders);
    MaxFollows(numbers);
    forall k | k in g && k.0 == provider ensures g[k].order in orders {}
    forall k | k in f && k.0 == provider ensures f[k].order in numbers {}
  }

  /** What the stored rows allow a field to be: what it was, or a new name with a storage
      name that no field of the provider has. */
  predicate FieldAllowed(f: Fields, provider: int, d: FieldDefinition, group: int) {
    if (provider, d.name) in f then
      var row := f[(provider, d.name)];
      row.storage == d.storage && row.group == group && row.kind == d.kind
    else forall k | k in f && k.0 == provider :: f[k].storage != d.storage
  }

  lemma FieldExactly(f: Fields, provider: int, d: FieldDefinition, group: int)
    ensures PutField(f, provider, d, group).Some? <==> FieldAllowed(f, provider, d, group)
    ensures PutField(f, provider, d, group).Some? ==>
              var h, k := PutField(f, provider, d, group).value, (provider, d.name);
              && k in h && h == f[k := h[k]]
              && if k in f then h[k] == f[k].(declared := true, freshness := d.freshness)
                 else FollowsOn(FieldIds(f), h[k].id) && NextField(f, provider, h[k].order)
                      && h[k] == FieldRow(h[k].id, d.storage, group, h[k].order, d.kind, d.freshness, None, None, true)
  {
    MaxFollows(FieldIds(f));
    NextNumbers(map[], f, provider);
  }

  predicate NewField(g: Groups, d: FieldDefinition, k: (int, int), row: FieldRow) {
    k.1 == d.name && row.storage == d.storage && (k.0, d.group) in g && row.group == g[(k.0, d.group)].id
  }

  /** The rows after n fields: the old keys and the new names; storage names stay. */
  lemma {:induction false} FieldsAfter(f: Fields, g: Groups, provider: int, ds: seq<FieldDefinition>, n: nat, k: (int, int))
    requires n <= |ds| && forall i | 0 <= i < |ds| :: (provider, ds[i].group) in g
    requires PutFields(f, g, provider, ds, n).Some?
    ensures var h := PutFields(f, g, provider, ds, n).value;
            && (k in f ==> k in h && SameField(f[k], h[k]))
            && (k in h && k !in f ==> k.0 == provider && exists i :: 0 <= i < n && NewField(g, ds[i], k, h[k]))
  {
    if n > 0 {
      FieldsAfter(f, g, provider, ds, n - 1, k);
      var before := PutFields(f, g, provider, ds, n - 1).value;
      if k in before && k !in f {
        var i :| 0 <= i < n - 1 && NewField(g, ds[i], k, before[k]);
      } else if k !in before && k in PutFields(f, g, provider, ds, n).value {
        assert NewField(g, ds[n - 1], k, PutFields(f, g, provider, ds, n).value[k]);
      }
    }
  }

  /** Fields of one definition do not stand in each other's way. */
  lemma {:induction false} FieldsExactly(f: Fields, g: Groups, provider: int, ds: seq<FieldDefinition>, n: nat)
    requires n <= |ds| && forall i | 0 <= i < |ds| :: (provider, ds[i].group) in g
    requires forall i, j | 0 <= i < j < |ds| :: ds[i].name != ds[j].name && ds[i].storage != ds[j].storage
    ensures PutFields(f, g, provider, ds, n).Some? <==>
              forall i | 0 <= i < n :: FieldAllowed(f, provider, ds[i], g[(provider, ds[i].group)].id)
  {
    if n > 0 {
      FieldsExactly(f, g, provider, ds, n - 1);
      if PutFields(f, g, provider, ds, n - 1).Some? {
        var before, d := PutFields(f, g, provider, ds, n - 1).value, ds[n - 1];
        var group := g[(provider, d.group)].id;
        FieldExactly(before, provider, d, group);
        FieldsAfter(f, g, provider, ds, n - 1, (provider, d.name));
        forall k | k in before && k.0 == provider ensures k in f || before[k].storage != d.storage {
          FieldsAfter(f, g, provider, ds, n - 1, k);
        }
        forall k | k in f ensures k in before && before[k].storage == f[k].storage {
          FieldsAfter(f, g, provider, ds, n - 1, k);
        }
        assert FieldAllowed(before, provider, d, group) <==> FieldAllowed(f, provider, d, group);
      }
    }
  }

  // ---- What the last accepted declarations say ---------------------------------------------

  predicate GroupDeclared(g: Groups, provider: int, key: int) { (provider, key) in g && g[(provider, key)].declared }

  predicate FieldMatches(f: Fields, provider: int, d: FieldDefinition, group: int) {
    (provider, d.name) in f
    && var row := f[(provider, d.name)];
       row.declared && row.storage == d.storage && row.kind == d.kind && row.freshness == d.freshness && row.group == group
  }

  /** The rows of provider id say what the definition says. */
  ghost predicate RowsMatch(g: Groups, f: Fields, id: int, d: Definition) {
    && (forall i | 0 <= i < |d.groups| :: GroupDeclared(g, id, d.groups[i]))
    && (forall i | 0 <= i < |d.fields| ::
          (id, d.fields[i].group) in g && FieldMatches(f, id, d.fields[i], g[(id, d.fields[i].group)].id))
  }

  ghost predicate Matches(r: Registry, d: Definition) {
    d.key in r.providers
    && var row := r.providers[d.key];
       && row.declared && row.revision == d.revision && row.table == d.table && row.applicability == d.applicability
       && RowsMatch(r.groups, r.fields, row.id, d)
  }

  ghost predicate NamesGroup(r: Registry, d: Definition, k: (int, int)) {
    d.key in r.providers && r.providers[d.key].id == k.0 && k.1 in d.groups
  }

  ghost predicate NamesField(r: Registry, d: Definition, k: (int, int)) {
    d.key in r.providers && r.providers[d.key].id == k.0 && exists i :: 0 <= i < |d.fields| && d.fields[i].name == k.1
  }

  /** Nothing but the first n definitions is declared. */
  ghost predicate OnlyDeclared(r: Registry, ds: seq<Definition>, n: nat)
    requires n <= |ds|
  {
    && (forall k {:trigger r.providers[k]} | k in r.providers && r.providers[k].declared :: SomeNames(ds, n, k))
    && (forall k {:trigger r.groups[k]} | k in r.groups && r.groups[k].declared :: SomeNamesGroup(r, ds, n, k))
    && (forall k {:trigger r.fields[k]} | k in r.fields && r.fields[k].declared :: SomeNamesField(r, ds, n, k))
  }

  /** Exactly these definitions are declared, with one type per shared field. */
  ghost predicate Declares(r: Registry, ds: seq<Definition>) {
    (forall i | 0 <= i < |ds| :: Matches(r, ds[i])) && OnlyDeclared(r, ds, |ds|) && SharedTypesAgree(r)
  }

  lemma {:induction false} GroupsDeclared(g: Groups, provider: int, keys: seq<int>, n: nat)
    requires n <= |keys|
    ensures forall i | 0 <= i < n :: GroupDeclared(PutGroups(g, provider, keys, n), provider, keys[i])
  {
    if n > 0 {
      GroupsDeclared(g, provider, keys, n - 1);
    }
  }

  /** Only the groups put change. */
  lemma {:induction false} GroupAt(g: Groups, provider: int, keys: seq<int>, n: nat, k: (int, int))
    requires n <= |keys| && (k.0 != provider || k.1 !in keys)
    ensures var h := PutGroups(g, provider, keys, n); (k in h <==> k in g) && (k in g ==> h[k] == g[k])
  {
    if n > 0 {
      GroupAt(g, provider, keys, n - 1, k);
      assert keys[n - 1] in keys;
    }
  }

  ghost predicate FieldNamed(ds: seq<FieldDefinition>, name: int) {
    exists i :: 0 <= i < |ds| && ds[i].name == name
  }

  /** Only the fields put change. */
  lemma {:induction false} FieldAt(f: Fields, g: Groups, provider: int, ds: seq<FieldDefinition>, n: nat, k: (int, int))
    requires n <= |ds| && forall i | 0 <= i < |ds| :: (provider, ds[i].group) in g
    requires PutFields(f, g, provider, ds, n).Some? && (k.0 != provider || !FieldNamed(ds, k.1))
    ensures var h := PutFields(f, g, provider, ds, n).value; (k in h <==> k in f) && (k in f ==> h[k] == f[k])
  {
    if n > 0 {
      FieldAt(f, g, provider, ds, n - 1, k);
      assert ds[n - 1].name != k.1 || k.0 != provider;
    }
  }

  lemma {:induction false} FieldDeclared(f: Fields, g: Groups, provider: int, ds: seq<FieldDefinition>, n: nat, i: nat)
    requires i < n <= |ds| && forall i | 0 <= i < |ds| :: (provider, ds[i].group) in g
    requires forall i, j | 0 <= i < j < |ds| :: ds[i].name != ds[j].name
    requires PutFields(f, g, provider, ds, n).Some?
    ensures FieldMatches(PutFields(f, g, provider, ds, n).value, provider, ds[i], g[(provider, ds[i].group)].id)
  {
    if i < n - 1 {
      FieldDeclared(f, g, provider, ds, n - 1, i);
      assert ds[i].name != ds[n - 1].name;
    }
  }

  /** After a definition is put, its rows match it. */
  lemma PutMatches(r: Registry, d: Definition)
    requires d.Valid() && PutDefinition(r, d).Some?
    ensures Matches(PutDefinition(r, d).value, d)
  {
    var id := PutProvider(r.providers, d).value[d.key].id;
    var g := PutGroups(r.groups, id, d.groups, |d.groups|);
    GroupsPresent(r.groups, id, d.groups, |d.groups|);
    GroupsDeclared(r.groups, id, d.groups, |d.groups|);
    forall i | 0 <= i < |d.fields|
      ensures FieldMatches(PutDefinition(r, d).value.fields, id, d.fields[i], g[(id, d.fields[i].group)].id)
    {
      FieldDeclared(r.fields, g, id, d.fields, |d.fields|, i);
    }
  }

  /** Rows a definition does not name stay as they were. */
  lemma PutTouchesOnly(r: Registry, d: Definition, p: int, k: (int, int))
    requires d.Valid() && PutDefinition(r, d).Some?
    ensures var s := PutDefinition(r, d).value;
            && (p != d.key ==> (p in s.providers <==> p in r.providers) && (p in r.providers ==> s.providers[p] == r.providers[p]))
            && (!NamesGroup(s, d, k) ==> (k in s.groups <==> k in r.groups) && (k in r.groups ==> s.groups[k] == r.groups[k]))
            && (!NamesField(s, d, k) ==> (k in s.fields <==> k in r.fields) && (k in r.fields ==> s.fields[k] == r.fields[k]))
  {
    var s := PutDefinition(r, d).value;
    var id := PutProvider(r.providers, d).value[d.key].id;
    GroupsPresent(r.groups, id, d.groups, |d.groups|);
    if !NamesGroup(s, d, k) {
      GroupAt(r.groups, id, d.groups, |d.groups|, k);
    }
    if !NamesField(s, d, k) {
      assert k.0 == id ==> !FieldNamed(d.fields, k.1);
      FieldAt(r.fields, PutGroups(r.groups, id, d.groups, |d.groups|), id, d.fields, |d.fields|, k);
    }
  }

  /** A definition already matched stays matched when another provider is put. */
  lemma PutKeepsMatch(r: Registry, d: Definition, e: Definition)
    requires d.Valid() && PutDefinition(r, d).Some? && Matches(r, e) && e.key != d.key
    requires ProvidersUnique(PutDefinition(r, d).value.providers)
    ensures Matches(PutDefinition(r, d).value, e)
  {
    var s := PutDefinition(r, d).value;
    PutTouchesOnly(r, d, e.key, (0, 0));
    var id := r.providers[e.key].id;
    assert d.key in s.providers && s.providers[d.key].id != id;
    forall k: (int, int) | k.0 == id
      ensures (k in s.groups <==> k in r.groups) && (k in r.groups ==> s.groups[k] == r.groups[k])
      ensures (k in s.fields <==> k in r.fields) && (k in r.fields ==> s.fields[k] == r.fields[k])
    {
      PutTouchesOnly(r, d, e.key, k);
    }
    forall i | 0 <= i < |e.groups| ensures GroupDeclared(s.groups, id, e.groups[i]) {
      assert GroupDeclared(r.groups, id, e.groups[i]);
    }
    forall i | 0 <= i < |e.fields|
      ensures (id, e.fields[i].group) in s.groups
      ensures FieldMatches(s.fields, id, e.fields[i], s.groups[(id, e.fields[i].group)].id)
    {
      assert FieldMatches(r.fields, id, e.fields[i], r.groups[(id, e.fields[i].group)].id);
    }
  }

  lemma MatchStep(before: Registry, d: Definition, s: Registry, e: Definition)
    requires d.Valid() && Unique(before) && PutDefinition(before, d) == Some(s)
    requires e == d || (e.key != d.key && Matches(before, e))
    ensures Matches(s, e)
  {
    PutMatches(before, d);
    PutDefinitionKeeps(before, d);
    if e != d {
      PutKeepsMatch(before, d, e);
    }
  }

  lemma {:induction false} PutDefinitionsMatch(r: Registry, ds: seq<Definition>, n: nat, i: nat, s: Registry)
    requires i < n <= |ds| && (forall i | 0 <= i < |ds| :: ds[i].Valid()) && DistinctKeys(ds)
    requires Unique(r) && PutDefinitions(r, ds, n) == Some(s)
    ensures Matches(s, ds[i])
  {
    var before := PutDefinitions(r, ds, n - 1).value;
    PutDefinitionsKeep(r, ds, n - 1);
    if i < n - 1 {
      PutDefinitionsMatch(r, ds, n - 1, i, before);
    }
    MatchStep(before, ds[n - 1], s, ds[i]);
  }

  ghost predicate SomeNames(ds: seq<Definition>, n: nat, p: int)
    requires n <= |ds|
  {
    exists i :: 0 <= i < n && ds[i].key == p
  }

  ghost predicate SomeNamesGroup(r: Registry, ds: seq<Definition>, n: nat, k: (int, int))
    requires n <= |ds|
  {
    exists i :: 0 <= i < n && NamesGroup(r, ds[i], k)
  }

  ghost predicate SomeNamesField(r: Registry, ds: seq<Definition>, n: nat, k: (int, int))
    requires n <= |ds|
  {
    exists i :: 0 <= i < n && NamesField(r, ds[i], k)
  }

  /** A row none of the first n definitions names is the same in r and s. */
  ghost predicate Untouched(r: Registry, s: Registry, ds: seq<Definition>, n: nat, p: int, k: (int, int))
    requires n <= |ds|
  {
    && (!SomeNames(ds, n, p) ==> (p in s.providers <==> p in r.providers) && (p in r.providers ==> s.providers[p] == r.providers[p]))
    && (!SomeNamesGroup(s, ds, n, k) ==> (k in s.groups <==> k in r.groups) && (k in r.groups ==> s.groups[k] == r.groups[k]))
    && (!SomeNamesField(s, ds, n, k) ==> (k in s.fields <==> k in r.fields) && (k in r.fields ==> s.fields[k] == r.fields[k]))
  }

  lemma {:induction false} UnnamedStay(r: Registry, ds: seq<Definition>, n: nat, p: int, k: (int, int), s: Registry)
    requires n <= |ds| && (forall i | 0 <= i < |ds| :: ds[i].Valid()) && Unique(r) && PutDefinitions(r, ds, n) == Some(s)
    ensures Untouched(r, s, ds, n, p, k)
  {
    if n > 0 {
      var before := PutDefinitions(r, ds, n - 1).value;
      UnnamedStay(r, ds, n - 1, p, k, before);
      PutDefinitionsUnique(r, ds, n - 1, before);
      UnnamedStep(r, before, s, ds, n, p, k);
    }
  }

  lemma PutDefinitionsUnique(r: Registry, ds: seq<Definition>, n: nat, s: Registry)
    requires n <= |ds| && (forall i | 0 <= i < |ds| :: ds[i].Valid()) && Unique(r) && PutDefinitions(r, ds, n) == Some(s)
    ensures Unique(s)
  {
    PutDefinitionsKeep(r, ds, n);
  }

  lemma UnnamedStep(r: Registry, before: Registry, s: Registry, ds: seq<Definition>, n: nat, p: int, k: (int, int))
    requires 0 < n <= |ds| && ds[n - 1].Valid() && Unique(before) && PutDefinition(before, ds[n - 1]) == Some(s)
    requires Untouched(r, before, ds, n - 1, p, k)
    ensures Untouched(r, s, ds, n, p, k)
  {
    PutDefinitionKeeps(before, ds[n - 1]);
    PutTouchesOnly(before, ds[n - 1], p, k);
    StillNamed(before, s, ds, n, p, k);
  }

  lemma StillNamed(a: Registry, b: Registry, ds: seq<Definition>, n: nat, p: int, k: (int, int))
    requires 0 < n <= |ds| && ProvidersKept(a.providers, b.providers)
    ensures SomeNames(ds, n - 1, p) || ds[n - 1].key == p ==> SomeNames(ds, n, p)
    ensures SomeNamesGroup(a, ds, n - 1, k) || NamesGroup(b, ds[n - 1], k) ==> SomeNamesGroup(b, ds, n, k)
    ensures SomeNamesField(a, ds, n - 1, k) || NamesField(b, ds[n - 1], k) ==> SomeNamesField(b, ds, n, k)
  {
  }

  /** Exactly the definitions put are declared. */
  lemma PutDeclares(r: Registry, ds: seq<Definition>, s: Registry)
    requires (forall i | 0 <= i < |ds| :: ds[i].Valid()) && DistinctKeys(ds) && Unique(r)
    requires PutDefinitions(Undeclared(r), ds, |ds|) == Some(s)
    ensures (forall i | 0 <= i < |ds| :: Matches(s, ds[i])) && OnlyDeclared(s, ds, |ds|)
  {
    var u := Undeclared(r);
    assert Unique(u);
    forall i | 0 <= i < |ds| ensures Matches(s, ds[i]) {
      PutDefinitionsMatch(u, ds, |ds|, i, s);
    }
    forall k | k in s.providers && s.providers[k].declared ensures SomeNames(ds, |ds|, k) {
      UnnamedStay(u, ds, |ds|, k, (0, 0), s);
    }
    forall k | k in s.groups && s.groups[k].declared ensures SomeNamesGroup(s, ds, |ds|, k) {
      UnnamedStay(u, ds, |ds|, 0, k, s);
    }
    forall k | k in s.fields && s.fields[k].declared ensures SomeNamesField(s, ds, |ds|, k) {
      UnnamedStay(u, ds, |ds|, 0, k, s);
    }
  }

  /** An accepted reconcile declares exactly its definitions. */
  lemma ReconcileDeclares(r: Registry, ds: seq<Definition>)
    requires (forall i | 0 <= i < |ds| :: ds[i].Valid()) && Unique(r) && Reconciled(r, ds).Some?
    ensures Declares(Reconciled(r, ds).value, ds)
  {
    PutDeclares(r, ds, Reconciled(r, ds).value);
  }

  // ---- What is accepted ------------------------------------------------------------------------

  /** The rows refer to each other as the schema demands. */
  ghost predicate Linked(r: Registry) {
    && (forall k {:trigger r.groups[k]} | k in r.groups :: OfProvider(r, k.0))
    && (forall k {:trigger r.fields[k]} | k in r.fields :: OfProvider(r, k.0) && InGroup(r, k.0, r.fields[k].group))
  }

  ghost predicate OfProvider(r: Registry, id: int) { exists p :: p in r.providers && r.providers[p].id == id }

  ghost predicate InGroup(r: Registry, provider: int, group: int) {
    exists k :: k in r.groups && k.0 == provider && r.groups[k].id == group
  }

  /** A field of a known provider: with the storage name, type and group it has, or new,
      with a storage name that is free. */
  predicate FieldFits(r: Registry, id: int, d: FieldDefinition) {
    if (id, d.name) in r.fields then
      var row := r.fields[(id, d.name)];
      row.storage == d.storage && row.kind == d.kind && (id, d.group) in r.groups && r.groups[(id, d.group)].id == row.group
    else forall k | k in r.fields && k.0 == id :: r.fields[k].storage != d.storage
  }

  /** A definition of a new provider, or one that keeps what was stored of it. */
  predicate Compatible(r: Registry, d: Definition) {
    d.key in r.providers ==>
      var row := r.providers[d.key];
      && row.table == d.table && row.applicability == d.applicability && row.revision <= d.revision
      && forall i | 0 <= i < |d.fields| :: FieldFits(r, row.id, d.fields[i])
  }

  lemma FieldFitsExactly(r: Registry, id: int, groups: seq<int>, d: FieldDefinition)
    requires Linked(r) && GroupsUnique(r.groups) && d.group in groups
    ensures var g := PutGroups(r.groups, id, groups, |groups|);
            (id, d.group) in g && (FieldAllowed(r.fields, id, d, g[(id, d.group)].id) <==> FieldFits(r, id, d))
  {
    var g, k := PutGroups(r.groups, id, groups, |groups|), (id, d.group);
    GroupsPresent(r.groups, id, groups, |groups|);
    PutGroupsKeep(r.groups, id, groups, |groups|);
    if k in r.groups {
      assert SameGroup(r.groups[k], g[k]);
    } else if (id, d.name) in r.fields {
      assert InGroup(r, id, r.fields[(id, d.name)].group);
      var l :| l in r.groups && l.0 == id && r.groups[l].id == r.fields[(id, d.name)].group;
      assert r.groups[l].id < g[k].id;
    }
  }

  /** One definition is accepted exactly when it is compatible with what is stored. */
  lemma DefinitionExactly(r: Registry, d: Definition)
    requires d.Valid() && Unique(r) && Linked(r)
    ensures PutDefinition(r, d).Some? <==> Compatible(r, d)
  {
    ProviderExactly(r.providers, d);
    if PutProvider(r.providers, d).Some? {
      var id := PutProvider(r.providers, d).value[d.key].id;
      var g := PutGroups(r.groups, id, d.groups, |d.groups|);
      GroupsPresent(r.groups, id, d.groups, |d.groups|);
      FieldsExactly(r.fields, g, id, d.fields, |d.fields|);
      forall i | 0 <= i < |d.fields|
        ensures FieldAllowed(r.fields, id, d.fields[i], g[(id, d.fields[i].group)].id) <==> FieldFits(r, id, d.fields[i])
      {
        FieldFitsExactly(r, id, d.groups, d.fields[i]);
      }
      if d.key !in r.providers {
        NoRowsYet(r, id);
      }
    }
  }

  lemma NoRowsYet(r: Registry, id: int)
    requires Linked(r) && FollowsOn(ProviderIds(r.providers), id)
    ensures forall k | k in r.fields :: k.0 != id
  {
    forall k | k in r.fields ensures k.0 != id {
      assert OfProvider(r, k.0);
      var p :| p in r.providers && r.providers[p].id == k.0;
      assert k.0 in ProviderIds(r.providers);
    }
  }

  lemma PutKeepsLinked(r: Registry, d: Definition)
    requires d.Valid() && Unique(r) && Linked(r) && PutDefinition(r, d).Some?
    ensures Linked(PutDefinition(r, d).value)
  {
    var s := PutDefinition(r, d).value;
    var id := s.providers[d.key].id;
    PutDefinitionKeeps(r, d);
    GroupsPresent(r.groups, id, d.groups, |d.groups|);
    forall i: int | OfProvider(r, i) ensures OfProvider(s, i) {
      var p :| p in r.providers && r.providers[p].id == i;
      assert SameProvider(r.providers[p], s.providers[p]);
    }
    forall k | k in s.groups ensures OfProvider(s, k.0) {
      if k !in r.groups {
        PutTouchesOnly(r, d, 0, k);
      } else {
        assert k in r.groups && OfProvider(r, k.0) by { assert r.groups[k] == r.groups[k]; }
      }
    }
    forall k | k in s.fields ensures OfProvider(s, k.0) && InGroup(s, k.0, s.fields[k].group) {
      FieldsAfter(r.fields, s.groups, id, d.fields, |d.fields|, k);
      if k in r.fields {
        assert OfProvider(r, k.0) && InGroup(r, k.0, r.fields[k].group);
        var l :| l in r.groups && l.0 == k.0 && r.groups[l].id == r.fields[k].group;
        assert SameGroup(r.groups[l], s.groups[l]);
      } else {
        var i :| 0 <= i < |d.fields| && NewField(s.groups, d.fields[i], k, s.fields[k]);
      }
    }
  }

  /** Compatibility with what is stored does not change while other providers are put. */
  lemma CompatibleStays(r: Registry, before: Registry, ds: seq<Definition>, n: nat)
    requires n < |ds| && (forall i | 0 <= i < |ds| :: ds[i].Valid()) && DistinctKeys(ds) && Unique(r)
    requires PutDefinitions(r, ds, n) == Some(before)
    ensures Compatible(before, ds[n]) <==> Compatible(r, ds[n])
  {
    var d := ds[n];
    PutDefinitionsKeep(r, ds, n);
    forall p: int, k: (int, int) ensures Untouched(r, before, ds, n, p, k) {
      UnnamedStay(r, ds, n, p, k, before);
    }
    assert !SomeNames(ds, n, d.key);
    assert Untouched(r, before, ds, n, d.key, (0, 0));
    if d.key in r.providers {
      var id := r.providers[d.key].id;
      forall k: (int, int) | k.0 == id
        ensures (k in before.groups <==> k in r.groups) && (k in r.groups ==> before.groups[k] == r.groups[k])
        ensures (k in before.fields <==> k in r.fields) && (k in r.fields ==> before.fields[k] == r.fields[k])
      {
        OthersRows(before, ds, n, k);
        assert Untouched(r, before, ds, n, d.key, k);
      }
      forall i | 0 <= i < |d.fields| ensures FieldFits(before, id, d.fields[i]) <==> FieldFits(r, id, d.fields[i]) {
        SameRowsFit(r, before, id, d.fields[i]);
      }
    }
  }

  lemma OthersRows(s: Registry, ds: seq<Definition>, n: nat, k: (int, int))
    requires n < |ds| && DistinctKeys(ds) && ProvidersUnique(s.providers)
    requires ds[n].key in s.providers && s.providers[ds[n].key].id == k.0
    ensures !SomeNamesGroup(s, ds, n, k) && !SomeNamesField(s, ds, n, k)
  {
  }

  lemma SameRowsFit(r: Registry, s: Registry, id: int, d: FieldDefinition)
    requires forall k: (int, int) {:trigger k in s.groups} | k.0 == id ::
               (k in s.groups <==> k in r.groups) && (k in r.groups ==> s.groups[k] == r.groups[k])
    requires forall k: (int, int) {:trigger k in s.fields} | k.0 == id ::
               (k in s.fields <==> k in r.fields) && (k in r.fields ==> s.fields[k] == r.fields[k])
    ensures FieldFits(s, id, d) <==> FieldFits(r, id, d)
  {
    assert (id, d.group) in s.groups <==> (id, d.group) in r.groups;
    forall k | k in r.fields && k.0 == id ensures k in s.fields {
      assert k in s.fields <==> k in r.fields;
    }
  }

  lemma {:induction false} DefinitionsLinked(r: Registry, ds: seq<Definition>, n: nat, s: Registry)
    requires n <= |ds| && (forall i | 0 <= i < |ds| :: ds[i].Valid()) && DistinctKeys(ds) && Unique(r) && Linked(r)
    requires PutDefinitions(r, ds, n) == Some(s)
    ensures Linked(s)
  {
    if n > 0 {
      var before := PutDefinitions(r, ds, n - 1).value;
      DefinitionsLinked(r, ds, n - 1, before);
      PutDefinitionsUnique(r, ds, n - 1, before);
      PutKeepsLinked(before, ds[n - 1]);
    }
  }

  predicate AllCompatible(r: Registry, ds: seq<Definition>, n: nat)
    requires n <= |ds|
  {
    forall i | 0 <= i < n :: Compatible(r, ds[i])
  }

  lemma OneMoreCompatible(r: Registry, ds: seq<Definition>, n: nat)
    requires 0 < n <= |ds|
    ensures AllCompatible(r, ds, n) <==> AllCompatible(r, ds, n - 1) && Compatible(r, ds[n - 1])
  {
  }

  /** The first n definitions are accepted exactly when each is compatible with the registry. */
  lemma {:induction false} DefinitionsExactly(r: Registry, ds: seq<Definition>, n: nat)
    requires n <= |ds| && (forall i | 0 <= i < |ds| :: ds[i].Valid()) && DistinctKeys(ds) && Unique(r) && Linked(r)
    ensures PutDefinitions(r, ds, n).Some? <==> AllCompatible(r, ds, n)
  {
    if n > 0 {
      DefinitionsExactly(r, ds, n - 1);
      OneMoreCompatible(r, ds, n);
      if PutDefinitions(r, ds, n - 1).Some? {
        NextDefinitionExactly(r, PutDefinitions(r, ds, n - 1).value, ds, n - 1);
      }
    }
  }

  lemma NextDefinitionExactly(r: Registry, before: Registry, ds: seq<Definition>, n: nat)
    requires n < |ds| && (forall i | 0 <= i < |ds| :: ds[i].Valid()) && DistinctKeys(ds) && Unique(r)
    requires PutDefinitions(r, ds, n) == Some(before) && Linked(r)
    ensures PutDefinition(before, ds[n]).Some? <==> Compatible(r, ds[n])
  {
    PutDefinitionsUnique(r, ds, n, before);
    DefinitionsLinked(r, ds, n, before);
    CompatibleStays(r, before, ds, n);
    DefinitionExactly(before, ds[n]);
  }

  /** Fields of one name have one type, across all definitions. */
  ghost predicate OneType(ds: seq<Definition>) {
    forall i, j, a, b | 0 <= i < |ds| && 0 <= j < |ds| && 0 <= a < |ds[i].fields| && 0 <= b < |ds[j].fields|
      && ds[i].fields[a].name == ds[j].fields[b].name :: ds[i].fields[a].kind == ds[j].fields[b].kind
  }

  lemma DeclaredKind(s: Registry, ds: seq<Definition>, i: int, a: int)
    requires 0 <= i < |ds| && 0 <= a < |ds[i].fields| && Matches(s, ds[i])
    ensures var k := (s.providers[ds[i].key].id, ds[i].fields[a].name);
            DeclaredField(s, k) && s.fields[k].kind == ds[i].fields[a].kind
  {
    var id := s.providers[ds[i].key].id;
    assert FieldMatches(s.fields, id, ds[i].fields[a], s.groups[(id, ds[i].fields[a].group)].id);
  }

  lemma SharedTypesExactly(s: Registry, ds: seq<Definition>)
    requires (forall i | 0 <= i < |ds| :: Matches(s, ds[i])) && OnlyDeclared(s, ds, |ds|)
    ensures SharedTypesAgree(s) <==> OneType(ds)
  {
    if SharedTypesAgree(s) {
      forall i, j, a, b | 0 <= i < |ds| && 0 <= j < |ds| && 0 <= a < |ds[i].fields| && 0 <= b < |ds[j].fields|
        && ds[i].fields[a].name == ds[j].fields[b].name
        ensures ds[i].fields[a].kind == ds[j].fields[b].kind
      {
        DeclaredKind(s, ds, i, a);
        DeclaredKind(s, ds, j, b);
      }
    }
    if OneType(ds) {
      forall k, l | k in s.fields && l in s.fields && k.1 == l.1 && DeclaredField(s, k) && DeclaredField(s, l)
        ensures s.fields[k].kind == s.fields[l].kind
      {
        var i, a := DeclaredBy(s, ds, k);
        var j, b := DeclaredBy(s, ds, l);
      }
    }
  }

  lemma DeclaredBy(s: Registry, ds: seq<Definition>, k: (int, int)) returns (i: int, a: int)
    requires (forall i | 0 <= i < |ds| :: Matches(s, ds[i])) && OnlyDeclared(s, ds, |ds|)
    requires k in s.fields && s.fields[k].declared
    ensures 0 <= i < |ds| && 0 <= a < |ds[i].fields| && ds[i].fields[a].name == k.1 && ds[i].fields[a].kind == s.fields[k].kind
  {
    assert SomeNamesField(s, ds, |ds|, k);
    i :| 0 <= i < |ds| && NamesField(s, ds[i], k);
    a :| 0 <= a < |ds[i].fields| && ds[i].fields[a].name == k.1;
    DeclaredKind(s, ds, i, a);
  }

  lemma UndeclaredLinked(r: Registry)
    requires Unique(r) && Linked(r)
    ensures Unique(Undeclared(r)) && Linked(Undeclared(r))
  {
    var u := Undeclared(r);
    forall i: int | OfProvider(r, i) ensures OfProvider(u, i) {
      var p :| p in r.providers && r.providers[p].id == i;
      assert u.providers[p].id == i;
    }
    forall i: int, g: int | InGroup(r, i, g) ensures InGroup(u, i, g) {
      var k :| k in r.groups && k.0 == i && r.groups[k].id == g;
      assert u.groups[k].id == g;
    }
    forall k | k in u.groups ensures OfProvider(u, k.0) {
      assert OfProvider(r, k.0) by { assert r.groups[k] == r.groups[k]; }
    }
    forall k | k in u.fields ensures OfProvider(u, k.0) && InGroup(u, k.0, u.fields[k].group) {
      assert OfProvider(r, k.0) && InGroup(r, k.0, r.fields[k].group);
    }
  }

  lemma UndeclaredFits(r: Registry, d: Definition)
    ensures Compatible(Undeclared(r), d) <==> Compatible(r, d)
  {
    var u := Undeclared(r);
    forall id, f: FieldDefinition ensures FieldFits(u, id, f) <==> FieldFits(r, id, f) {
    }
  }

  /** A reconcile is accepted exactly when no key is defined twice, every definition keeps
      what is stored of its provider, and fields of one name have one type. */
  lemma ReconcileAcceptsExactly(r: Registry, ds: seq<Definition>)
    requires (forall i | 0 <= i < |ds| :: ds[i].Valid()) && Unique(r) && Linked(r)
    ensures Reconciled(r, ds).Some? <==>
              && (forall i, j | 0 <= i < j < |ds| :: ds[i].key != ds[j].key)
              && (forall i | 0 <= i < |ds| :: Compatible(r, ds[i]))
              && OneType(ds)
    ensures Reconciled(r, ds).Some? ==> Linked(Reconciled(r, ds).value)
  {
    var u := Undeclared(r);
    UndeclaredLinked(r);
    forall i | 0 <= i < |ds| ensures Compatible(u, ds[i]) <==> Compatible(r, ds[i]) {
      UndeclaredFits(r, ds[i]);
    }
    if DistinctKeys(ds) {
      DefinitionsExactly(u, ds, |ds|);
      if PutDefinitions(u, ds, |ds|).Some? {
        DefinitionsLinked(u, ds, |ds|, PutDefinitions(u, ds, |ds|).value);
        PutDeclares(r, ds, PutDefinitions(u, ds, |ds|).value);
        SharedTypesExactly(PutDefinitions(u, ds, |ds|).value, ds);
      }
    }
  }

  /** The store stays linked, as the schema demands, whatever is tried. */
  lemma {:induction false} RegistryIsLinked(r: Registry, ops: seq<Operation>, n: nat)
    requires n <= |ops| && (forall i | 0 <= i < |ops| :: ValidOperation(ops[i])) && Unique(r) && Linked(r)
    ensures Linked(After(r, ops, n))
  {
    if n > 0 {
      RegistryIsLinked(r, ops, n - 1);
      RegistryIsStable(r, ops, n - 1);
      var before, op := After(r, ops, n - 1), ops[n - 1];
      if Attempt(before, op).Some? {
        if op.Reconcile? {
          ReconcileAcceptsExactly(before, op.definitions);
        } else {
          PolicyKeepsLinked(before, op);
        }
      }
    }
  }

  lemma PolicyKeepsLinked(r: Registry, op: Operation)
    requires !op.Reconcile? && Linked(r) && Attempt(r, op).Some?
    ensures Linked(Attempt(r, op).value)
  {
    var s := Attempt(r, op).value;
    forall i: int | OfProvider(r, i) ensures OfProvider(s, i) {
      var p :| p in r.providers && r.providers[p].id == i;
      assert s.providers[p].id == i;
    }
    forall k | k in s.groups ensures OfProvider(s, k.0) {
      assert OfProvider(r, k.0) by { assert r.groups[k] == r.groups[k]; }
    }
    forall k | k in s.fields ensures OfProvider(s, k.0) && InGroup(s, k.0, s.fields[k].group) {
      assert OfProvider(r, k.0) && InGroup(r, k.0, r.fields[k].group);
    }
  }

  // ---- Policy setters -------------------------------------------------------------------------

  /** set_provider_policy; None for an unknown key. */
  function WithProviderPolicy(r: Registry, key: int, enabled: Option<bool>, priority: Option<int>): Option<Registry> {
    if key !in r.providers then None
    else
      var row := r.providers[key];
      Some(r.(providers := r.providers[key := row.(
        enabled := if enabled.Some? then enabled.value else row.enabled,
        priority := if priority.Some? then priority.value else row.priority)]))
  }

  datatype Override<T> = Keep | Clear | Set(value: T)

  function Overridden<T>(was: Option<T>, o: Override<T>): Option<T> {
    match o
    case Keep => was
    case Clear => None
    case Set(v) => Some(v)
  }

  /** set_field_overrides; None for an unknown provider or field. */
  function WithFieldOverrides(r: Registry, key: int, name: int, priority: Override<int>, freshness: Override<Freshness>): Option<Registry> {
    if key !in r.providers || (r.providers[key].id, name) !in r.fields then None
    else
      var k := (r.providers[key].id, name);
      Some(r.(fields := r.fields[k := r.fields[k].(
        priorityOverride := Overridden(r.fields[k].priorityOverride, priority),
        freshnessOverride := Overridden(r.fields[k].freshnessOverride, freshness))]))
  }

  /** A setter is refused exactly for an unknown row, and changes what it is given of that
      row and nothing else: an override is set, cleared, or left. */
  lemma SettersExactly(r: Registry, key: int, name: int, enabled: Option<bool>, priority: Option<int>,
                       fieldPriority: Override<int>, freshness: Override<Freshness>)
    ensures var s := WithProviderPolicy(r, key, enabled, priority);
            && (s.Some? <==> key in r.providers)
            && (s.Some? ==>
                  && key in s.value.providers && s.value == r.(providers := r.providers[key := s.value.providers[key]])
                  && var (was, now) := (r.providers[key], s.value.providers[key]);
                     && now == was.(enabled := now.enabled, priority := now.priority)
                     && (if enabled == None then now.enabled == was.enabled else Some(now.enabled) == enabled)
                     && (if priority == None then now.priority == was.priority else Some(now.priority) == priority))
    ensures var s := WithFieldOverrides(r, key, name, fieldPriority, freshness);
            && (s.Some? <==> key in r.providers && (r.providers[key].id, name) in r.fields)
            && (s.Some? ==>
                  var k := (r.providers[key].id, name);
                  && k in s.value.fields && s.value == r.(fields := r.fields[k := s.value.fields[k]])
                  && var (was, now) := (r.fields[k], s.value.fields[k]);
                     && now == was.(priorityOverride := now.priorityOverride, freshnessOverride := now.freshnessOverride)
                     && (fieldPriority == Keep ==> now.priorityOverride == was.priorityOverride)
                     && (fieldPriority == Clear ==> now.priorityOverride == None)
                     && (fieldPriority.Set? ==> now.priorityOverride == Some(fieldPriority.value))
                     && (freshness == Keep ==> now.freshnessOverride == was.freshnessOverride)
                     && (freshness == Clear ==> now.freshnessOverride == None)
                     && (freshness.Set? ==> now.freshnessOverride == Some(freshness.value)))
  {
  }

  // ---- Every sequence of operations ------------------------------------------------------------

  datatype Operation =
    | Reconcile(definitions: seq<Definition>)
    | SetPolicy(key: int, enabled: Option<bool>, priority: Option<int>)
    | SetOverrides(provider: int, name: int, fieldPriority: Override<int>, freshness: Override<Freshness>)

  ghost predicate ValidOperation(op: Operation) {
    op.Reconcile? ==> forall i | 0 <= i < |op.definitions| :: op.definitions[i].Valid()
  }

  /** The outcome of an operation, or None where it raises and changes nothing. */
  ghost function Attempt(r: Registry, op: Operation): Option<Registry>
    requires ValidOperation(op)
  {
    match op
    case Reconcile(ds) => Reconciled(r, ds)
    case SetPolicy(key, enabled, priority) => WithProviderPolicy(r, key, enabled, priority)
    case SetOverrides(key, name, priority, freshness) => WithFieldOverrides(r, key, name, priority, freshness)
  }

  ghost function After(r: Registry, ops: seq<Operation>, n: nat): Registry
    requires n <= |ops| && forall i | 0 <= i < |ops| :: ValidOperation(ops[i])
  {
    if n == 0 then r
    else
      var before := After(r, ops, n - 1);
      if Attempt(before, ops[n - 1]).Some? then Attempt(before, ops[n - 1]).value else before
  }

  lemma AttemptKeeps(r: Registry, op: Operation)
    requires ValidOperation(op) && Unique(r) && Attempt(r, op).Some?
    ensures Unique(Attempt(r, op).value) && Stable(r, Attempt(r, op).value)
    ensures op.Reconcile? ==> PoliciesKept(r, Attempt(r, op).value)
  {
    if op.Reconcile? {
      ReconcileKeeps(r, op.definitions);
    }
  }

  /** Whatever sequence of accepted and failing operations runs: identities, tables,
      applicability, storage names, group links, types and registration orders never
      change, orders stay unique, revisions never fall, and what is new is registered after
      everything that was there. */
  lemma {:induction false} RegistryIsStable(r: Registry, ops: seq<Operation>, n: nat)
    requires n <= |ops| && (forall i | 0 <= i < |ops| :: ValidOperation(ops[i])) && Unique(r)
    ensures Unique(After(r, ops, n)) && Stable(r, After(r, ops, n))
  {
    if n > 0 {
      RegistryIsStable(r, ops, n - 1);
      var before := After(r, ops, n - 1);
      if Attempt(before, ops[n - 1]).Some? {
        AttemptKeeps(before, ops[n - 1]);
        StableIsTransitive(r, before, After(r, ops, n));
      }
    }
  }

  /** A provider's policy is changed only by its setter. */
  lemma {:induction false} PolicyHasOneWriter(r: Registry, ops: seq<Operation>, n: nat, p: int)
    requires n <= |ops| && (forall i | 0 <= i < |ops| :: ValidOperation(ops[i])) && Unique(r) && p in r.providers
    requires forall i | 0 <= i < n :: !(ops[i].SetPolicy? && ops[i].key == p)
    ensures p in After(r, ops, n).providers && SameProviderPolicy(r.providers[p], After(r, ops, n).providers[p])
  {
    if n > 0 {
      PolicyHasOneWriter(r, ops, n - 1, p);
      RegistryIsStable(r, ops, n - 1);
      var before := After(r, ops, n - 1);
      if Attempt(before, ops[n - 1]).Some? {
        PolicyStays(before, ops[n - 1], p);
      }
    }
  }

  lemma PolicyStays(r: Registry, op: Operation, p: int)
    requires ValidOperation(op) && Unique(r) && Attempt(r, op).Some? && p in r.providers && !(op.SetPolicy? && op.key == p)
    ensures p in Attempt(r, op).value.providers && SameProviderPolicy(r.providers[p], Attempt(r, op).value.providers[p])
  {
    AttemptKeeps(r, op);
    assert SameProvider(r.providers[p], Attempt(r, op).value.providers[p]);
  }

  /** A field's overrides are changed only by their setter. */
  lemma {:induction false} OverridesHaveOneWriter(r: Registry, ops: seq<Operation>, n: nat, p: int, name: int)
    requires n <= |ops| && (forall i | 0 <= i < |ops| :: ValidOperation(ops[i])) && Unique(r)
    requires p in r.providers && (r.providers[p].id, name) in r.fields
    requires forall i | 0 <= i < n :: !(ops[i].SetOverrides? && ops[i].provider == p && ops[i].name == name)
    ensures var k := (r.providers[p].id, name);
            k in After(r, ops, n).fields && SameFieldPolicy(r.fields[k], After(r, ops, n).fields[k])
  {
    if n > 0 {
      OverridesHaveOneWriter(r, ops, n - 1, p, name);
      RegistryIsStable(r, ops, n - 1);
      var before := After(r, ops, n - 1);
      assert SameProvider(r.providers[p], before.providers[p]);
      if Attempt(before, ops[n - 1]).Some? {
        OverridesStay(before, ops[n - 1], p, name);
      }
    }
  }

  lemma OverridesStay(r: Registry, op: Operation, p: int, name: int)
    requires ValidOperation(op) && Unique(r) && Attempt(r, op).Some?
    requires p in r.providers && (r.providers[p].id, name) in r.fields
    requires !(op.SetOverrides? && op.provider == p && op.name == name)
    ensures var s, k := Attempt(r, op).value, (r.providers[p].id, name);
            k in s.fields && SameFieldPolicy(r.fields[k], s.fields[k])
  {
    var k := (r.providers[p].id, name);
    AttemptKeeps(r, op);
    assert SameField(r.fields[k], Attempt(r, op).value.fields[k]);
    if op.SetOverrides? && op.provider != p {
      assert r.providers[op.provider].id != r.providers[p].id;
    }
  }

  /** The same rows up to deployment policy. */
  ghost predicate SameDeclarations(r: Registry, s: Registry) {
    && s.groups == r.groups && s.providers.Keys == r.providers.Keys && s.fields.Keys == r.fields.Keys
    && (forall p {:trigger s.providers[p]} {:trigger r.providers[p]} | p in s.providers ::
          s.providers[p] == r.providers[p].(enabled := s.providers[p].enabled, priority := s.providers[p].priority))
    && (forall k {:trigger s.fields[k]} {:trigger r.fields[k]} | k in s.fields ::
          s.fields[k] == r.fields[k].(priorityOverride := s.fields[k].priorityOverride,
                                      freshnessOverride := s.fields[k].freshnessOverride))
  }

  lemma DeclarationsKept(r: Registry, s: Registry, ds: seq<Definition>)
    requires SameDeclarations(r, s) && Declares(r, ds)
    ensures Declares(s, ds)
  {
    forall i | 0 <= i < |ds| ensures Matches(s, ds[i]) {
    }
    NamedKept(r, s, ds);
  }

  lemma NamedKept(r: Registry, s: Registry, ds: seq<Definition>)
    requires SameDeclarations(r, s) && OnlyDeclared(r, ds, |ds|) && SharedTypesAgree(r)
    ensures OnlyDeclared(s, ds, |ds|) && SharedTypesAgree(s)
  {
    forall i, k | 0 <= i < |ds|
      ensures NamesGroup(s, ds[i], k) <==> NamesGroup(r, ds[i], k)
      ensures NamesField(s, ds[i], k) <==> NamesField(r, ds[i], k)
    {
      if ds[i].key in r.providers {
        assert s.providers[ds[i].key].id == r.providers[ds[i].key].id;
      }
    }
    forall k | k in s.groups && s.groups[k].declared ensures SomeNamesGroup(s, ds, |ds|, k) {
      assert SomeNamesGroup(r, ds, |ds|, k);
    }
    forall k | k in s.fields && s.fields[k].declared ensures SomeNamesField(s, ds, |ds|, k) {
      assert r.fields[k].declared && SomeNamesField(r, ds, |ds|, k);
    }
    forall k ensures DeclaredField(s, k) ==> DeclaredField(r, k) {
      if DeclaredField(s, k) {
        var p :| p in s.providers && s.providers[p].id == k.0 && s.providers[p].declared;
        assert r.providers[p].id == k.0;
      }
    }
  }

  lemma OperationDeclares(r: Registry, op: Operation, ds: seq<Definition>, s: Registry)
    requires ValidOperation(op) && Unique(r) && Attempt(r, op) == Some(s)
    requires if op.Reconcile? then ds == op.definitions else Declares(r, ds)
    ensures Declares(s, ds)
  {
    if op.Reconcile? {
      ReconcileDeclares(r, ds);
    } else {
      DeclarationsKept(r, s, ds);
    }
  }

  /** Operation i is a reconcile that is accepted. */
  ghost predicate Accepts(r: Registry, ops: seq<Operation>, i: int)
    requires 0 <= i < |ops| && forall i | 0 <= i < |ops| :: ValidOperation(ops[i])
  {
    ops[i].Reconcile? && Attempt(After(r, ops, i), ops[i]).Some?
  }

  /** And the last one among the first n. */
  ghost predicate LastAccepted(r: Registry, ops: seq<Operation>, j: nat, n: nat)
    requires j < n <= |ops| && forall i | 0 <= i < |ops| :: ValidOperation(ops[i])
  {
    Accepts(r, ops, j) && forall i | j < i < n :: !Accepts(r, ops, i)
  }

  lemma Sooner(r: Registry, ops: seq<Operation>, j: nat, n: nat)
    requires j < n <= |ops| && (forall i | 0 <= i < |ops| :: ValidOperation(ops[i])) && LastAccepted(r, ops, j, n)
    ensures Accepts(r, ops, j) && (j < n - 1 ==> LastAccepted(r, ops, j, n - 1) && !Accepts(r, ops, n - 1))
  {
  }

  /** What is declared is what the last accepted reconcile declared, through any policy
      changes and failing reconciles since. */
  lemma {:induction false} DeclaredMatchesLast(r: Registry, ops: seq<Operation>, j: nat, n: nat, s: Registry)
    requires (forall i | 0 <= i < |ops| :: ValidOperation(ops[i])) && Unique(r) && j < n <= |ops|
    requires LastAccepted(r, ops, j, n) && s == After(r, ops, n)
    ensures Declares(s, ops[j].definitions)
  {
    Sooner(r, ops, j, n);
    var before := After(r, ops, n - 1);
    if n > j + 1 {
      DeclaredMatchesLast(r, ops, j, n - 1, before);
      LaterOperation(r, ops, n - 1, before, ops[j].definitions, s);
    } else {
      LastOperation(r, ops, j, before, s);
    }
  }

  lemma LastOperation(r: Registry, ops: seq<Operation>, j: nat, before: Registry, s: Registry)
    requires (forall i | 0 <= i < |ops| :: ValidOperation(ops[i])) && j < |ops| && Accepts(r, ops, j) && Unique(r)
    requires before == After(r, ops, j) && s == After(r, ops, j + 1)
    ensures Declares(s, ops[j].definitions)
  {
    RegistryIsStable(r, ops, j);
    OperationDeclares(before, ops[j], ops[j].definitions, s);
  }

  lemma LaterOperation(r: Registry, ops: seq<Operation>, i: nat, before: Registry, ds: seq<Definition>, s: Registry)
    requires (forall i | 0 <= i < |ops| :: ValidOperation(ops[i])) && i < |ops| && !Accepts(r, ops, i) && Unique(r)
    requires before == After(r, ops, i) && s == After(r, ops, i + 1)
    ensures Declares(before, ds) ==> Declares(s, ds)
  {
    RegistryIsStable(r, ops, i);
    if Declares(before, ds) && Attempt(before, ops[i]).Some? {
      OperationDeclares(before, ops[i], ds, s);
    }
  }

  // ---- The store --------------------------------------------------------------------------------

  class RegistryStore {
    var providers: Providers
    var groups: Groups
    var fields: Fields

    constructor (r: Registry)
      ensures Rows() == r
    {
      providers, groups, fields := r.providers, r.groups, r.fields;
    }

    function Rows(): Registry reads this { Registry(providers, groups, fields) }

    /** reconcile: one transaction over every definition. */
    method Reconcile(ds: seq<Definition>) returns (ok: bool)
      requires forall i | 0 <= i < |ds| :: ds[i].Valid()
      modifies this
      ensures ok <==> Reconciled(old(Rows()), ds).Some?
      ensures Rows() == if ok then Reconciled(old(Rows()), ds).value else old(Rows())
    {
      if !DistinctKeys(ds) { return false; }
      var saved := Rows();
      Undeclare();
      ok := ReconcileAll(ds);
      if !ok || !SharedTypesAgree(Rows()) {
        providers, groups, fields := saved.providers, saved.groups, saved.fields;
        return false;
      }
    }

    method Undeclare()
      modifies this
      ensures Rows() == Undeclared(old(Rows()))
    {
      providers := map k | k in providers :: providers[k].(declared := false);
      groups := map k | k in groups :: groups[k].(declared := false);
      fields := map k | k in fields :: fields[k].(declared := false);
    }

    method ReconcileAll(ds: seq<Definition>) returns (ok: bool)
      requires forall i | 0 <= i < |ds| :: ds[i].Valid()
      modifies this
      ensures ok <==> PutDefinitions(old(Rows()), ds, |ds|).Some?
      ensures ok ==> Rows() == PutDefinitions(old(Rows()), ds, |ds|).value
    {
      ok := true;
      for n := 0 to |ds|
        invariant ok <==> PutDefinitions(old(Rows()), ds, n).Some?
        invariant ok ==> PutDefinitions(old(Rows()), ds, n) == Some(Rows())
      {
        if ok {
          ok := ReconcileProvider(ds[n]);
        }
      }
    }

    /** _reconcile_provider. */
    method ReconcileProvider(d: Definition) returns (ok: bool)
      requires d.Valid()
      modifies this
      ensures ok <==> PutDefinition(old(Rows()), d).Some?
      ensures ok ==> Rows() == PutDefinition(old(Rows()), d).value
    {
      var p := PutProvider(providers, d);
      if p.None? { return false; }
      providers := p.value;
      var id := providers[d.key].id;
      for n := 0 to |d.groups|
        invariant providers == p.value && fields == old(fields)
        invariant groups == PutGroups(old(groups), id, d.groups, n)
      {
        groups := PutGroup(groups, id, d.groups[n]);
      }
      GroupsPresent(old(groups), id, d.groups, |d.groups|);
      ok := ReconcileFields(id, d.fields);
    }

    method ReconcileFields(id: int, ds: seq<FieldDefinition>) returns (ok: bool)
      requires forall i | 0 <= i < |ds| :: (id, ds[i].group) in groups
      modifies this`fields
      ensures ok <==> PutFields(old(fields), groups, id, ds, |ds|).Some?
      ensures ok ==> fields == PutFields(old(fields), groups, id, ds, |ds|).value
    {
      ok := true;
      for n := 0 to |ds|
        invariant ok <==> PutFields(old(fields), groups, id, ds, n).Some?
        invariant ok ==> PutFields(old(fields), groups, id, ds, n) == Some(fields)
      {
        if ok {
          var f := PutField(fields, id, ds[n], groups[(id, ds[n].group)].id);
          ok := f.Some?;
          if ok {
            fields := f.value;
          }
        }
      }
    }

    method SetProviderPolicy(key: int, enabled: Option<bool>, priority: Option<int>) returns (ok: bool)
      modifies this`providers
      ensures ok <==> WithProviderPolicy(old(Rows()), key, enabled, priority).Some?
      ensures Rows() == if ok then WithProviderPolicy(old(Rows()), key, enabled, priority).value else old(Rows())
    {
      ok := key in providers;
      if ok && enabled.Some? {
        providers := providers[key := providers[key].(enabled := enabled.value)];
      }
      if ok && priority.Some? {
        providers := providers[key := providers[key].(priority := priority.value)];
      }
      if ok {
        assert providers == old(providers)[key := providers[key]];
      }
    }

    method SetFieldOverrides(key: int, name: int, priority: Override<int>, freshness: Override<Freshness>) returns (ok: bool)
      modifies this`fields
      ensures ok <==> WithFieldOverrides(old(Rows()), key, name, priority, freshness).Some?
      ensures Rows() == if ok then WithFieldOverrides(old(Rows()), key, name, priority, freshness).value else old(Rows())
    {
      ok := key in providers && (providers[key].id, name) in fields;
      if !ok { return; }
      var k := (providers[key].id, name);
      if !priority.Keep? {
        fields := fields[k := fields[k].(priorityOverride := Overridden(fields[k].priorityOverride, priority))];
      }
      if !freshness.Keep? {
        fields := fields[k := fields[k].(freshnessOverride := Overridden(fields[k].freshnessOverride, freshness))];
      }
      assert fields == old(fields)[k := fields[k]];
    }
  }
}
