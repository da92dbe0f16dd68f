/** Choosing the provider that answers for one field of one entity. */
module FieldResolution {
  import opened Options
  import opened SqlOrder
  import opened ProviderRegistry

  // ---- One provider's observation ---------------------------------------------------------

  datatype Kind = Unsupported | Inapplicable | NotAcquired | FailedAcquisition | Stale | KnownNull | Present

  datatype Observation = Observation(kind: Kind, value: Option<int>, latestFailed: bool)

  /** An acquisition row: the last success, if any, and whether the last attempt failed. */
  datatype Acquisition = Acquisition(succeeded: Option<int>, failed: bool)

  /** What one provider holds for one field: the declaration, whether it applies, the
      acquisition row, the metadata row with its column, and the effective freshness
      (None where the field is not reconciled). */
  datatype Holding = Holding(
    supported: bool, inapplicable: bool, acquisition: Option<Acquisition>, row: Option<Option<int>>,
    freshness: Option<Freshness>)

  predicate IsStale(observed: int, now: int, freshness: Freshness) {
    match freshness
    case Immutable => false
    case AlwaysRefresh => true
    case MaxAge(seconds) => now > observed + seconds
  }

  /** field_observation; None where it raises: a success without a metadata row, or a
      field that was never reconciled. */
  function Observe(h: Holding, now: int): Option<Observation> {
    if !h.supported then Some(Observation(Unsupported, None, false))
    else if h.inapplicable then Some(Observation(Inapplicable, None, false))
    else if h.acquisition.None? then Some(Observation(NotAcquired, None, false))
    else
      var a := h.acquisition.value;
      if a.succeeded.None? then Some(Observation(FailedAcquisition, None, true))
      else if h.row.None? || h.freshness.None? then None
      else if IsStale(a.succeeded.value, now, h.freshness.value) then Some(Observation(Stale, h.row.value, a.failed))
      else Some(Observation(if h.row.value.None? then KnownNull else Present, h.row.value, a.failed))
  }

  /** Current knowledge rests on a success that is still fresh; age only ever makes it
      stale, and a later failed attempt does not change it. */
  lemma FreshnessDecides(h: Holding, now: int, later: int)
    requires Observe(h, now).Some? && now <= later
    ensures Observe(h, later).Some?
    ensures Observe(h, now).value.kind == Present || Observe(h, now).value.kind == KnownNull ==>
              && h.acquisition.value.succeeded.Some? && !IsStale(h.acquisition.value.succeeded.value, now, h.freshness.value)
              && (Observe(h, later) == Observe(h, now) || Observe(h, later).value == Observe(h, now).value.(kind := Stale))
    ensures Observe(h, now).value.kind == Stale ==> Observe(h, later) == Observe(h, now)
  {
  }

  /** The success is still usable: for ever, never, or for so many seconds, the last of
      them included. */
  predicate StillFresh(observed: int, now: int, freshness: Freshness) {
    freshness.Immutable? || (freshness.MaxAge? && now - observed <= freshness.seconds)
  }

  /** A provider that applies and has succeeded shows its column: as a value or a known
      NULL while the success is fresh, and as stale from then on.  Nothing else shows one. */
  lemma ShowsColumnExactly(h: Holding, now: int, kind: Kind, value: Option<int>)
    requires kind == Present || kind == KnownNull || kind == Stale
    ensures (exists failed :: Observe(h, now) == Some(Observation(kind, value, failed))) <==>
              && h.supported && !h.inapplicable && h.row == Some(value) && h.freshness.Some?
              && h.acquisition.Some? && h.acquisition.value.succeeded.Some?
              && var usable := StillFresh(h.acquisition.value.succeeded.value, now, h.freshness.value);
                 kind == if !usable then Stale else if value.None? then KnownNull else Present
  {
    if Observe(h, now).Some? {
      assert Observe(h, now).value == Observation(Observe(h, now).value.kind, Observe(h, now).value.value, Observe(h, now).value.latestFailed);
    }
  }

  /** Without a success there is nothing to show, and why is told apart; where a column is
      shown, so is whether the last attempt failed. */
  lemma ShowsNothingExactly(h: Holding, now: int)
    ensures Observe(h, now) == Some(Observation(Unsupported, None, false)) <==> !h.supported
    ensures Observe(h, now) == Some(Observation(Inapplicable, None, false)) <==> h.supported && h.inapplicable
    ensures Observe(h, now) == Some(Observation(NotAcquired, None, false)) <==>
              h.supported && !h.inapplicable && h.acquisition.None?
    ensures Observe(h, now) == Some(Observation(FailedAcquisition, None, true)) <==>
              h.supported && !h.inapplicable && h.acquisition.Some? && h.acquisition.value.succeeded.None?
    ensures Observe(h, now).Some? && Answers(Observe(h, now).value.kind) ==>
              h.acquisition.Some? && Observe(h, now).value.latestFailed == h.acquisition.value.failed
  {
  }

  // ---- Candidates in precedence order ---------------------------------------------------------

  /** Whether a provider row may answer for a field. */
  predicate Eligible(r: Registry, name: int, available: set<int>, p: int) {
    && p in r.providers && r.providers[p].declared && r.providers[p].enabled && p in available
    && (r.providers[p].id, name) in r.fields && r.fields[(r.providers[p].id, name)].declared
    && exists k :: k in r.groups && r.groups[k].id == r.fields[(r.providers[p].id, name)].group && r.groups[k].declared
  }

  function Priority(r: Registry, name: int, p: int): int
    requires p in r.providers && (r.providers[p].id, name) in r.fields
  {
    var o := r.fields[(r.providers[p].id, name)].priorityOverride;
    if o.Some? then o.value else r.providers[p].priority
  }

  /** The sort key of a candidate: highest priority first, then registration order; the
      provider key only carries along. */
  function Rank(r: Registry, name: int, p: int): Key
    requires p in r.providers && (r.providers[p].id, name) in r.fields
  {
    (-Priority(r, name, p), r.providers[p].order, p)
  }

  /** field_provider_candidates, in precedence order. */
  function Candidates(r: Registry, name: int, available: set<int>): seq<Key> {
    OrderBy(set p | p in r.providers && Eligible(r, name, available, p) :: Rank(r, name, p))
  }

  /** The two columns the code sorts by. */
  predicate NotAfter(a: Key, b: Key) { a.0 < b.0 || (a.0 == b.0 && a.1 <= b.1) }

  /** Any listing of the eligible rows sorted by those two columns is that one list:
      registration orders are unique, so neither the order SQL returns rows in nor the
      order providers are passed in can matter. */
  lemma RowOrderIsIrrelevant(r: Registry, name: int, available: set<int>, q: seq<Key>)
    requires ProvidersUnique(r.providers)
    requires forall k :: k in q <==> exists p :: p in r.providers && Eligible(r, name, available, p) && k == Rank(r, name, p)
    requires forall i, j | 0 <= i < j < |q| :: q[i] != q[j] && NotAfter(q[i], q[j])
    ensures q == Candidates(r, name, available)
  {
    forall i, j | 0 <= i < j < |q| ensures Before(q[i], q[j]) {
      assert q[i] in q && q[j] in q;
      var a :| a in r.providers && Eligible(r, name, available, a) && q[i] == Rank(r, name, a);
      var b :| b in r.providers && Eligible(r, name, available, b) && q[j] == Rank(r, name, b);
      assert a != b ==> r.providers[a].order != r.providers[b].order;
    }
    OrderByIs(set p | p in r.providers && Eligible(r, name, available, p) :: Rank(r, name, p), q);
  }

  lemma CandidatesAreEligible(r: Registry, name: int, available: set<int>)
    ensures forall k :: k in Candidates(r, name, available) <==>
              exists p :: p in r.providers && Eligible(r, name, available, p) && k == Rank(r, name, p)
    ensures Ascending(Candidates(r, name, available))
  {
    OrderByLists(set p | p in r.providers && Eligible(r, name, available, p) :: Rank(r, name, p));
  }

  // ---- The winner ------------------------------------------------------------------------------

  /** Raised where an observation raises before any value is found. */
  datatype Resolution = Raised | Nothing | Answer(provider: int, observation: Observation)

  /** The kind a candidate shows, or None where observing it raises. */
  type Observer = int -> Option<Observation>

  ghost predicate Shows(see: Observer, k: Key, kind: Kind) { see(k.2).Some? && see(k.2).value.kind == kind }

  /** Candidate i is the first in precedence order that shows this kind. */
  ghost predicate First(see: Observer, q: seq<Key>, kind: Kind, i: int) {
    && 0 <= i < |q| && Shows(see, q[i], kind)
    && forall j | 0 <= j < i :: !Shows(see, q[j], kind)
  }

  ghost predicate NoneShows(see: Observer, q: seq<Key>, n: nat, kind: Kind)
    requires n <= |q|
  {
    forall j | 0 <= j < n :: !Shows(see, q[j], kind)
  }

  /** resolve_field: one pass over the candidates. */
  method ResolveField(q: seq<Key>, see: Observer) returns (r: Resolution)
    ensures r.Raised? <==> exists i :: 0 <= i < |q| && see(q[i].2).None? && NoneShows(see, q, i, Present)
    ensures r.Answer? ==> exists i :: Wins(see, q, i) && r == Answer(q[i].2, see(q[i].2).value)
    ensures r.Nothing? ==> forall i | 0 <= i < |q| :: see(q[i].2).Some? && !Answers(see(q[i].2).value.kind)
  {
    var knownNull: Option<int>, stale: Option<int> := None, None;
    for i := 0 to |q|
      invariant forall j | 0 <= j < i :: see(q[j].2).Some?
      invariant NoneShows(see, q, i, Present)
      invariant if knownNull.None? then NoneShows(see, q, i, KnownNull) else First(see, q, KnownNull, knownNull.value)
      invariant if stale.None? then NoneShows(see, q, i, Stale) else First(see, q, Stale, stale.value)
    {
      var seen := see(q[i].2);
      if seen.None? { return Raised; }
      if seen.value.kind == Present {
        assert Wins(see, q, i);
        return Answer(q[i].2, seen.value);
      }
      if seen.value.kind == KnownNull && knownNull.None? {
        knownNull := Some(i);
      } else if seen.value.kind == Stale && stale.None? {
        stale := Some(i);
      }
    }
    if knownNull.Some? {
      assert Wins(see, q, knownNull.value);
      return Answer(q[knownNull.value].2, see(q[knownNull.value].2).value);
    }
    if stale.Some? {
      assert Wins(see, q, stale.value);
      return Answer(q[stale.value].2, see(q[stale.value].2).value);
    }
    r := Nothing;
  }

  predicate Answers(kind: Kind) { kind == Present || kind == KnownNull || kind == Stale }

  /** The winner: the best-placed value; without one the best-placed known NULL; without
      either the best-placed stale observation. */
  ghost predicate Wins(see: Observer, q: seq<Key>, i: int) {
    || First(see, q, Present, i)
    || (First(see, q, KnownNull, i) && NoneShows(see, q, |q|, Present))
    || (First(see, q, Stale, i) && NoneShows(see, q, |q|, Present) && NoneShows(see, q, |q|, KnownNull))
  }

  /** There is at most one winner. */
  lemma WinnerIsUnique(see: Observer, q: seq<Key>, i: int, j: int)
    requires Wins(see, q, i) && Wins(see, q, j)
    ensures i == j
  {
    assert First(see, q, Present, i) || First(see, q, KnownNull, i) || First(see, q, Stale, i);
    assert First(see, q, Present, j) || First(see, q, KnownNull, j) || First(see, q, Stale, j);
  }

  /** A value wins exactly when nothing before it in the list is a value. */
  lemma ValueWinsAt(q: seq<Key>, see: Observer, i: int)
    requires 0 <= i < |q| && Shows(see, q[i], Present)
    ensures Wins(see, q, i) <==> forall j | 0 <= j < i :: !Shows(see, q[j], Present)
  {
  }

  /** The priority a row gives its provider for a field: its override, or the provider's own. */
  predicate Prioritised(r: Registry, name: int, p: int, priority: int)
    requires p in r.providers && (r.providers[p].id, name) in r.fields
  {
    match r.fields[(r.providers[p].id, name)].priorityOverride
    case Some(value) => priority == value
    case None => priority == r.providers[p].priority
  }

  /** Provider o goes before p: by a higher priority, or by earlier registration at the same. */
  ghost predicate GoesBefore(r: Registry, name: int, o: int, p: int)
    requires o in r.providers && (r.providers[o].id, name) in r.fields
    requires p in r.providers && (r.providers[p].id, name) in r.fields
  {
    exists x, y: int :: Prioritised(r, name, o, x) && Prioritised(r, name, p, y)
                   && (x > y || (x == y && r.providers[o].order < r.providers[p].order))
  }

  lemma RankIsByColumns(r: Registry, name: int, o: int, p: int)
    requires ProvidersUnique(r.providers) && o != p
    requires o in r.providers && (r.providers[o].id, name) in r.fields
    requires p in r.providers && (r.providers[p].id, name) in r.fields
    ensures Before(Rank(r, name, o), Rank(r, name, p)) <==> GoesBefore(r, name, o, p)
  {
    assert Prioritised(r, name, o, Priority(r, name, o)) && Prioritised(r, name, p, Priority(r, name, p));
    assert r.providers[o].order != r.providers[p].order;
  }

  /** Provider p stands at position i of the candidates. */
  ghost predicate StandsAt(r: Registry, name: int, available: set<int>, p: int, i: int) {
    0 <= i < |Candidates(r, name, available)| && Candidates(r, name, available)[i].2 == p
  }

  /** A candidate is an enabled, declared provider that the caller has, with the field and
      its group declared; each of them stands somewhere in the list, and only once. */
  lemma StandsOnce(r: Registry, name: int, available: set<int>, p: int)
    ensures (exists i :: StandsAt(r, name, available, p, i)) <==>
              p in available && p in r.providers && r.providers[p].enabled && r.providers[p].declared
              && var k := (r.providers[p].id, name);
                 k in r.fields && r.fields[k].declared
                 && exists g :: g in r.groups && r.groups[g].declared && r.groups[g].id == r.fields[k].group
    ensures forall i, j | StandsAt(r, name, available, p, i) && StandsAt(r, name, available, p, j) :: i == j
  {
    var q := Candidates(r, name, available);
    CandidatesAreEligible(r, name, available);
    if i :| StandsAt(r, name, available, p, i) {
      assert q[i] in q;
    }
    if Eligible(r, name, available, p) {
      assert Rank(r, name, p) in q;
      var i :| 0 <= i < |q| && q[i] == Rank(r, name, p);
      assert StandsAt(r, name, available, p, i);
    }
    forall i, j | 0 <= i < j < |q| ensures q[i].2 != q[j].2 {
      assert q[i] in q && q[j] in q && Before(q[i], q[j]);
    }
  }

  /** The list is in order of the two columns: candidate o stands before candidate p exactly
      when it has the higher priority, or the same and was registered earlier. */
  lemma OrderedByPriority(r: Registry, name: int, available: set<int>, o: int, p: int, i: int, j: int)
    requires ProvidersUnique(r.providers) && o != p
    requires StandsAt(r, name, available, o, i) && StandsAt(r, name, available, p, j)
    ensures o in r.providers && (r.providers[o].id, name) in r.fields
    ensures p in r.providers && (r.providers[p].id, name) in r.fields
    ensures i < j <==> GoesBefore(r, name, o, p)
  {
    var q := Candidates(r, name, available);
    CandidatesAreEligible(r, name, available);
    assert q[i] in q && q[j] in q;
    assert q[i] == Rank(r, name, o) && q[j] == Rank(r, name, p);
    RankIsByColumns(r, name, o, p);
    assert i < j ==> Before(q[i], q[j]);
    assert j < i ==> Before(q[j], q[i]);
  }

  ghost predicate ShowsValue(see: Observer, p: int) { see(p).Some? && see(p).value.kind == Present }

  /** A value wins exactly when no candidate with a higher priority, or with the same and
      registered earlier, shows one. */
  lemma ValueWinsByPriority(r: Registry, name: int, available: set<int>, see: Observer, p: int, i: int)
    requires ProvidersUnique(r.providers) && StandsAt(r, name, available, p, i) && ShowsValue(see, p)
    ensures p in r.providers && (r.providers[p].id, name) in r.fields
    ensures Wins(see, Candidates(r, name, available), i) <==>
            forall o, j | o != p && StandsAt(r, name, available, o, j) && ShowsValue(see, o) ::
              o in r.providers && (r.providers[o].id, name) in r.fields && !GoesBefore(r, name, o, p)
  {
    var q := Candidates(r, name, available);
    CandidatesAreEligible(r, name, available);
    assert q[i] in q;
    ValueWinsAt(q, see, i);
    forall o, j | o != p && StandsAt(r, name, available, o, j)
      ensures o in r.providers && (r.providers[o].id, name) in r.fields
      ensures j < i <==> GoesBefore(r, name, o, p)
    {
      OrderedByPriority(r, name, available, o, p, j, i);
    }
    if !Wins(see, q, i) {
      var j :| 0 <= j < i && Shows(see, q[j], Present);
      assert StandsAt(r, name, available, q[j].2, j) && ShowsValue(see, q[j].2);
      StandsOnce(r, name, available, p);
    }
  }
}
