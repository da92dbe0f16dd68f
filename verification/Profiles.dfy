/** Profile inheritance in the downloader's defaults file: a memoised depth-first walk
    to the root of every parent chain, with cycle detection. */
module Profiles {
  import opened Options

  type Name = int
  type Settings = map<int, int>

  datatype Raw = Raw(parent: Option<Name>, own: Settings)

  datatype Source = FromDefaults | FromProfile(name: Name)
  datatype Profile = Profile(settings: Settings, sources: map<int, Source>, ancestry: seq<Name>)

  /** Validation of one setting and of the settings together. */
  datatype Rules = Rules(normalise: (int, int) -> Option<int>, consistent: Settings -> bool) {
    /** Validating a validated value changes nothing: a normaliser may change the type of
        its value (a number becomes text, or text a number), but accepts and keeps what it
        gives. */
    ghost predicate Idempotent() {
      forall k, v {:trigger normalise(k, v)} :: normalise(k, v).Some? ==> normalise(k, normalise(k, v).value) == normalise(k, v)
    }
  }

  /** validate_profile_settings. */
  function Validate(rules: Rules, s: Settings): Option<Settings> {
    if exists k :: k in s && rules.normalise(k, s[k]).None? then None
    else
      var validated := map k | k in s :: rules.normalise(k, s[k]).value;
      if rules.consistent(validated) then Some(validated) else None
  }

  /** Settings are valid exactly when every value normalises and the normalised settings
      are consistent with each other; they are then those. */
  lemma ValidatesExactly(rules: Rules, s: Settings, v: Settings)
    ensures Validate(rules, s) == Some(v) <==>
              && v.Keys == s.Keys && rules.consistent(v)
              && forall k | k in s :: rules.normalise(k, s[k]) == Some(v[k])
  {
    if Validate(rules, s).Some? && v.Keys == s.Keys && (forall k | k in s :: rules.normalise(k, s[k]) == Some(v[k])) {
      assert Validate(rules, s).value == v;
    } else if v.Keys == s.Keys && forall k | k in s :: rules.normalise(k, s[k]) == Some(v[k]) {
      assert v == map k | k in s :: rules.normalise(k, s[k]).value;
    }
  }

  /** What load_profiles checks before it resolves: nobody is their own parent, and every
      parent exists. */
  predicate ParentsKnown(raw: map<Name, Raw>) {
    forall n | n in raw && raw[n].parent.Some? :: raw[n].parent.value != n && raw[n].parent.value in raw
  }

  // ---- What a profile is ---------------------------------------------------------------

  /** The parent chain of a name reaches a root within n steps. */
  predicate Root(raw: map<Name, Raw>, name: Name, n: nat)
    decreases n
  {
    name in raw && (raw[name].parent.None? || (n > 0 && Root(raw, raw[name].parent.value, n - 1)))
  }

  ghost predicate Rooted(raw: map<Name, Raw>, name: Name) { exists n: nat :: Root(raw, name, n) }

  /** One profile over its parent's, or None where the merged settings do not validate. */
  function Over(rules: Rules, defaults: Settings, parent: Option<(Name, Profile)>, name: Name, own: Settings): Option<Profile> {
    var settings := if parent.None? then defaults else defaults + parent.value.1.settings;
    var sources := map k | k in defaults :: FromDefaults;
    var below := if parent.None? then sources else sources + parent.value.1.sources;
    var merged := below + map k | k in own :: FromProfile(name);
    match Validate(rules, settings + own)
    case None => None
    case Some(validated) =>
      Some(Profile(validated,
                   map k | k in validated && k in merged :: merged[k],
                   if parent.None? then [] else parent.value.1.ancestry + [parent.value.0]))
  }

  function ProfileOf(raw: map<Name, Raw>, rules: Rules, defaults: Settings, name: Name, n: nat): Option<Profile>
    requires Root(raw, name, n)
    decreases n
  {
    if raw[name].parent.None? then Over(rules, defaults, None, name, raw[name].own)
    else
      match ProfileOf(raw, rules, defaults, raw[name].parent.value, n - 1)
      case None => None
      case Some(p) => Over(rules, defaults, Some((raw[name].parent.value, p)), name, raw[name].own)
  }

  /** p is the profile of name. */
  ghost predicate Is(raw: map<Name, Raw>, rules: Rules, defaults: Settings, name: Name, p: Profile) {
    exists n: nat :: Root(raw, name, n) && ProfileOf(raw, rules, defaults, name, n) == Some(p)
  }

  /** The chain reaches a root, and some profile on it does not validate. */
  ghost predicate Invalid(raw: map<Name, Raw>, rules: Rules, defaults: Settings, name: Name) {
    exists n: nat :: Root(raw, name, n) && ProfileOf(raw, rules, defaults, name, n).None?
  }

  lemma {:induction false} StepsDoNotMatter(raw: map<Name, Raw>, rules: Rules, defaults: Settings, name: Name, n: nat, m: nat)
    requires Root(raw, name, n) && Root(raw, name, m)
    ensures ProfileOf(raw, rules, defaults, name, n) == ProfileOf(raw, rules, defaults, name, m)
    decreases n
  {
    if raw[name].parent.Some? {
      StepsDoNotMatter(raw, rules, defaults, raw[name].parent.value, n - 1, m - 1);
    }
  }

  /** Every name has a profile, does not validate, or is on a chain without a root. */
  lemma OneOutcome(raw: map<Name, Raw>, rules: Rules, defaults: Settings, name: Name, p: Profile, q: Profile)
    requires Is(raw, rules, defaults, name, p)
    ensures Rooted(raw, name) && !Invalid(raw, rules, defaults, name)
    ensures Is(raw, rules, defaults, name, q) ==> p == q
  {
    var n: nat :| Root(raw, name, n) && ProfileOf(raw, rules, defaults, name, n) == Some(p);
    forall m: nat | Root(raw, name, m) ensures ProfileOf(raw, rules, defaults, name, m) == Some(p) {
      StepsDoNotMatter(raw, rules, defaults, name, n, m);
    }
  }

  // ---- Cycles ------------------------------------------------------------------------------

  /** Each name's parent is the next, and the last one's parent is after. */
  ghost predicate Linked(raw: map<Name, Raw>, q: seq<Name>, after: Name) {
    && (forall i | 0 <= i < |q| :: q[i] in raw && raw[q[i]].parent.Some?)
    && (forall i | 0 <= i < |q| - 1 :: raw[q[i]].parent.value == q[i + 1])
    && (q != [] ==> raw[q[|q| - 1]].parent.value == after)
  }

  lemma {:induction false} RootsDownChain(raw: map<Name, Raw>, q: seq<Name>, after: Name, i: nat, n: nat)
    requires Linked(raw, q, after) && i < |q| && Root(raw, q[i], n)
    ensures n >= |q| - i && Root(raw, after, n - (|q| - i))
    decreases |q| - i
  {
    if i < |q| - 1 {
      RootsDownChain(raw, q, after, i + 1, n - 1);
    }
  }

  /** A chain that comes back to a name on it never reaches a root. */
  lemma {:induction false} CycleHasNoRoot(raw: map<Name, Raw>, q: seq<Name>, i: nat, n: nat)
    requires i < |q| && Linked(raw, q, q[i])
    ensures !Root(raw, q[i], n)
    decreases n
  {
    if Root(raw, q[i], n) {
      RootsDownChain(raw, q, q[i], i, n);
      CycleHasNoRoot(raw, q, i, n - (|q| - i));
    }
  }

  /** visiting is the way from the first call down to name, without repetition. */
  ghost predicate OnTheWay(raw: map<Name, Raw>, visiting: seq<Name>, name: Name) {
    && ParentsKnown(raw) && name in raw && Linked(raw, visiting, name)
    && (forall i, j | 0 <= i < j < |visiting| :: visiting[i] != visiting[j])
  }

  lemma Descend(raw: map<Name, Raw>, visiting: seq<Name>, name: Name)
    requires OnTheWay(raw, visiting, name) && name !in visiting && raw[name].parent.Some?
    ensures OnTheWay(raw, visiting + [name], raw[name].parent.value)
  {
  }

  // ---- The loader ---------------------------------------------------------------------------

  datatype Outcome = Loaded | Cycle | NotValid

  class Loader {
    const raw: map<Name, Raw>
    const rules: Rules
    const defaults: Settings
    var profiles: map<Name, Profile>
    var visiting: seq<Name>

    constructor (raw: map<Name, Raw>, rules: Rules, defaults: Settings)
      ensures this.raw == raw && this.rules == rules && this.defaults == defaults
      ensures profiles == map[] && visiting == []
    {
      this.raw, this.rules, this.defaults := raw, rules, defaults;
      profiles, visiting := map[], [];
    }

    ghost predicate Memoised() reads this {
      forall n {:trigger profiles[n]} | n in profiles :: Is(raw, rules, defaults, n, profiles[n])
    }

    ghost function Unvisited(): set<Name> reads this { raw.Keys - set i | 0 <= i < |visiting| :: visiting[i] }

    method Resolve(name: Name) returns (out: Outcome)
      requires OnTheWay(raw, visiting, name) && Memoised()
      modifies this
      ensures Memoised() && visiting == (if out.Loaded? then old(visiting) else visiting)
      ensures old(profiles).Keys <= profiles.Keys
      ensures forall n | n in old(profiles) :: profiles[n] == old(profiles)[n]
      ensures out.Loaded? ==> name in profiles
      ensures out.Cycle? ==> !Rooted(raw, name)
      ensures out.NotValid? ==> Invalid(raw, rules, defaults, name)
      decreases |Unvisited()|
    {
      if name in profiles { return Loaded; }
      if name in visiting {
        NotRooted(name);
        return Cycle;
      }
      visiting := visiting + [name];
      FewerUnvisited(old(visiting), name);
      var parent: Option<(Name, Profile)> := None;
      if raw[name].parent.Some? {
        Descend(raw, old(visiting), name);
        out := Resolve(raw[name].parent.value);
        if !out.Loaded? {
          ParentDecides(raw, rules, defaults, name);
          return;
        }
        parent := Some((raw[name].parent.value, profiles[raw[name].parent.value]));
      }
      var profile := Over(rules, defaults, parent, name, raw[name].own);
      Builds(name, parent, profile);
      if profile.None? { return NotValid; }
      profiles := profiles[name := profile.value];
      visiting := visiting[..|visiting| - 1];
      out := Loaded;
    }

    lemma NotRooted(name: Name)
      requires OnTheWay(raw, visiting, name) && name in visiting
      ensures !Rooted(raw, name)
    {
      var i :| 0 <= i < |visiting| && visiting[i] == name;
      forall n: nat ensures !Root(raw, name, n) {
        CycleHasNoRoot(raw, visiting, i, n);
      }
    }

    lemma FewerUnvisited(was: seq<Name>, name: Name)
      requires visiting == was + [name] && name in raw && name !in was
      ensures |Unvisited()| < |raw.Keys - set i | 0 <= i < |was| :: was[i]|
    {
      var before := raw.Keys - set i | 0 <= i < |was| :: was[i];
      assert visiting[|was|] == name && forall i | 0 <= i < |was| :: visiting[i] == was[i];
      assert Unvisited() == before - {name};
      assert name in before;
    }

    /** The profile built over the parent's is the profile of the name. */
    lemma Builds(name: Name, parent: Option<(Name, Profile)>, profile: Option<Profile>)
      requires name in raw && profile == Over(rules, defaults, parent, name, raw[name].own)
      requires match parent
               case None => raw[name].parent.None?
               case Some(p) => raw[name].parent == Some(p.0) && Is(raw, rules, defaults, p.0, p.1)
      ensures profile.None? ==> Invalid(raw, rules, defaults, name)
      ensures profile.Some? ==> Is(raw, rules, defaults, name, profile.value)
    {
      if parent.None? {
        assert Root(raw, name, 0);
        assert ProfileOf(raw, rules, defaults, name, 0) == profile;
      } else {
        var (up, p) := parent.value;
        var n: nat :| Root(raw, up, n) && ProfileOf(raw, rules, defaults, up, n) == Some(p);
        assert Root(raw, name, n + 1);
        assert ProfileOf(raw, rules, defaults, name, n + 1) == profile;
      }
    }

    /** The loop over every name, in any order. */
    method LoadAll(order: seq<Name>) returns (out: Outcome)
      requires ParentsKnown(raw) && profiles == map[] && visiting == []
      requires forall n :: n in order <==> n in raw
      modifies this
      ensures out.Loaded? <==> forall n | n in raw :: Rooted(raw, n) && !Invalid(raw, rules, defaults, n)
      ensures out.Loaded? ==> forall n | n in raw :: n in profiles
      ensures out.Loaded? ==> Memoised()
    {
      for i := 0 to |order|
        invariant Memoised() && visiting == []
        invariant forall j | 0 <= j < i :: order[j] in profiles
      {
        assert order[i] in order;
        ghost var was := profiles;
        assert forall j | 0 <= j < i :: order[j] in was;
        out := Resolve(order[i]);
        if !out.Loaded? {
          return;
        }
      }
      forall n | n in raw ensures n in profiles && Rooted(raw, n) && !Invalid(raw, rules, defaults, n) {
        assert n in order;
        OneOutcome(raw, rules, defaults, n, profiles[n], profiles[n]);
      }
      out := Loaded;
    }
  }

  datatype Load = DefaultsInvalid | ParentUnknown | Refused(outcome: Outcome) | AllLoaded(profiles: map<Name, Profile>)

  /** load_profiles, from decoded profiles with their references already resolved; the
      names are visited in any order. */
  method LoadProfiles(raw: map<Name, Raw>, rules: Rules, defaults: Settings, order: seq<Name>) returns (load: Load)
    requires forall n :: n in order <==> n in raw
    ensures load.DefaultsInvalid? <==> Validate(rules, defaults).None?
    ensures load.ParentUnknown? <==>
              && Validate(rules, defaults).Some?
              && exists n :: n in raw && raw[n].parent.Some? && (raw[n].parent.value == n || raw[n].parent.value !in raw)
    ensures load.AllLoaded? <==>
              && Validate(rules, defaults).Some? && ParentsKnown(raw)
              && forall n | n in raw :: Rooted(raw, n) && !Invalid(raw, rules, Validate(rules, defaults).value, n)
    ensures load.AllLoaded? ==>
              forall n | n in raw :: n in load.profiles && Is(raw, rules, Validate(rules, defaults).value, n, load.profiles[n])
  {
    var validated := Validate(rules, defaults);
    if validated.None? { return DefaultsInvalid; }
    if !ParentsKnown(raw) { return ParentUnknown; }
    var loader := new Loader(raw, rules, validated.value);
    var outcome := loader.LoadAll(order);
    load := if outcome.Loaded? then AllLoaded(loader.profiles) else Refused(outcome);
  }

  lemma ParentDecides(raw: map<Name, Raw>, rules: Rules, defaults: Settings, name: Name)
    requires name in raw && raw[name].parent.Some?
    ensures !Rooted(raw, raw[name].parent.value) ==> !Rooted(raw, name)
    ensures Invalid(raw, rules, defaults, raw[name].parent.value) ==> Invalid(raw, rules, defaults, name)
  {
    var up := raw[name].parent.value;
    if n: nat :| Root(raw, name, n) {
      assert Root(raw, up, n - 1);
    }
    if n: nat :| Root(raw, up, n) && ProfileOf(raw, rules, defaults, up, n).None? {
      assert Root(raw, name, n + 1) && ProfileOf(raw, rules, defaults, name, n + 1).None?;
    }
  }

  // ---- What a profile holds -------------------------------------------------------------------

  /** The settings of the ancestors, root first, then the profile's own. */
  function Merged(raw: map<Name, Raw>, name: Name, n: nat): Settings
    requires Root(raw, name, n)
    decreases n
  {
    (if raw[name].parent.None? then map[] else Merged(raw, raw[name].parent.value, n - 1)) + raw[name].own
  }

  /** The nearest profile on the chain that states a key. */
  function Definer(raw: map<Name, Raw>, name: Name, n: nat, key: int): Option<Name>
    requires Root(raw, name, n)
    decreases n
  {
    if key in raw[name].own then Some(name)
    else if raw[name].parent.None? then None
    else Definer(raw, raw[name].parent.value, n - 1, key)
  }

  /** The ancestors, root first. */
  function Ancestors(raw: map<Name, Raw>, name: Name, n: nat): seq<Name>
    requires Root(raw, name, n)
    decreases n
  {
    if raw[name].parent.None? then []
    else Ancestors(raw, raw[name].parent.value, n - 1) + [raw[name].parent.value]
  }

  function SourceOf(definer: Option<Name>): Source {
    if definer.None? then FromDefaults else FromProfile(definer.value)
  }

  /** Settings every value of which is already normal. */
  ghost predicate Normal(rules: Rules, s: Settings) {
    forall k {:trigger s[k]} | k in s :: rules.normalise(k, s[k]) == Some(s[k])
  }

  /** s is raw settings, each value normalised. */
  ghost predicate Normalises(rules: Rules, raw: Settings, s: Settings) {
    s.Keys == raw.Keys && forall k {:trigger s[k]} | k in s :: rules.normalise(k, raw[k]) == Some(s[k])
  }

  lemma ValidatedIsNormal(rules: Rules, raw: Settings)
    requires rules.Idempotent() && Validate(rules, raw).Some?
    ensures Normalises(rules, raw, Validate(rules, raw).value) && Normal(rules, Validate(rules, raw).value)
  {
    var s := Validate(rules, raw).value;
    forall k | k in s ensures rules.normalise(k, s[k]) == Some(s[k]) {
      assert s[k] == rules.normalise(k, raw[k]).value;
      NormalTwice(rules, k, raw[k]);
    }
  }

  lemma NormalTwice(rules: Rules, k: int, v: int)
    requires rules.Idempotent() && rules.normalise(k, v).Some?
    ensures rules.normalise(k, rules.normalise(k, v).value) == rules.normalise(k, v)
  {
  }

  /** A resolved profile is the right-biased merge of the defaults, the ancestors from
      root to leaf and its own settings, each value normalised; each setting's source is
      the nearest profile that states it, and the ancestry is its parent chain. */
  lemma {:induction false} ProfileMeans(raw: map<Name, Raw>, rules: Rules, defaults: Settings, name: Name, n: nat, p: Profile)
    requires rules.Idempotent() && Normal(rules, defaults)
    requires Root(raw, name, n) && ProfileOf(raw, rules, defaults, name, n) == Some(p)
    ensures SettingsMean(raw, rules, defaults, name, n, p) && SourcesMean(raw, name, n, p) && p.ancestry == Ancestors(raw, name, n)
    decreases n
  {
    if raw[name].parent.None? {
      RootMeans(raw, rules, defaults, name, n, p);
    } else {
      var up := raw[name].parent.value;
      var q := ProfileOf(raw, rules, defaults, up, n - 1).value;
      ProfileMeans(raw, rules, defaults, up, n - 1, q);
      ChildSettings(raw, rules, defaults, name, n, q, p);
    }
  }

  /** The settings are the merge, normalised. */
  ghost predicate SettingsMean(raw: map<Name, Raw>, rules: Rules, defaults: Settings, name: Name, n: nat, p: Profile)
    requires Root(raw, name, n)
  {
    Normalises(rules, defaults + Merged(raw, name, n), p.settings) && Normal(rules, p.settings)
  }

  /** Every setting has a source: the nearest profile that states it, or the defaults. */
  ghost predicate SourcesMean(raw: map<Name, Raw>, name: Name, n: nat, p: Profile)
    requires Root(raw, name, n)
  {
    && p.sources.Keys == p.settings.Keys
    && forall k {:trigger p.sources[k]} | k in p.sources :: p.sources[k] == SourceOf(Definer(raw, name, n, k))
  }

  lemma ChildSettings(raw: map<Name, Raw>, rules: Rules, defaults: Settings, name: Name, n: nat, q: Profile, p: Profile)
    requires rules.Idempotent() && Normal(rules, defaults) && Root(raw, name, n) && raw[name].parent.Some?
    requires Over(rules, defaults, Some((raw[name].parent.value, q)), name, raw[name].own) == Some(p)
    requires SettingsMean(raw, rules, defaults, raw[name].parent.value, n - 1, q) && q.sources.Keys == q.settings.Keys
    ensures SettingsMean(raw, rules, defaults, name, n, p)
  {
    var up := raw[name].parent.value;
    OverMeans(rules, defaults, Merged(raw, up, n - 1), (up, q), name, raw[name].own, p);
  }

  /** A key without a source is defined nowhere on the chain. */
  lemma NoSource(raw: map<Name, Raw>, rules: Rules, defaults: Settings, name: Name, n: nat, p: Profile, k: int)
    requires Root(raw, name, n) && p.sources.Keys == p.settings.Keys
    requires Normalises(rules, defaults + Merged(raw, name, n), p.settings)
    ensures k !in p.sources ==> Definer(raw, name, n, k).None?
  {
    DefinedIsMerged(raw, name, n, k);
  }

  lemma {:induction false} DefinedIsMerged(raw: map<Name, Raw>, name: Name, n: nat, k: int)
    requires Root(raw, name, n)
    ensures k in Merged(raw, name, n) <==> Definer(raw, name, n, k).Some?
    decreases n
  {
    if raw[name].parent.Some? {
      DefinedIsMerged(raw, raw[name].parent.value, n - 1, k);
    }
  }

  lemma RootMeans(raw: map<Name, Raw>, rules: Rules, defaults: Settings, name: Name, n: nat, p: Profile)
    requires rules.Idempotent() && Normal(rules, defaults) && Root(raw, name, n) && raw[name].parent.None?
    requires Over(rules, defaults, None, name, raw[name].own) == Some(p)
    ensures SettingsMean(raw, rules, defaults, name, n, p) && SourcesMean(raw, name, n, p) && p.ancestry == []
  {
    ValidatedIsNormal(rules, defaults + raw[name].own);
    assert defaults + Merged(raw, name, n) == defaults + raw[name].own;
  }

  lemma OverMeans(rules: Rules, defaults: Settings, above: Settings, parent: (Name, Profile), name: Name, own: Settings, p: Profile)
    requires rules.Idempotent() && Normal(rules, defaults) && Over(rules, defaults, Some(parent), name, own) == Some(p)
    requires Normalises(rules, defaults + above, parent.1.settings) && Normal(rules, parent.1.settings)
    requires parent.1.sources.Keys == parent.1.settings.Keys
    ensures Normalises(rules, defaults + above + own, p.settings) && Normal(rules, p.settings)
    ensures p.sources.Keys == p.settings.Keys
    ensures forall k {:trigger p.sources[k]} | k in p.sources ::
              p.sources[k] == if k in own then FromProfile(name) else if k in parent.1.sources then parent.1.sources[k] else FromDefaults
  {
    var settings := defaults + parent.1.settings + own;
    ValidatedIsNormal(rules, settings);
    assert settings.Keys == (defaults + above + own).Keys;
    forall k | k in p.settings ensures rules.normalise(k, (defaults + above + own)[k]) == Some(p.settings[k]) {
      assert rules.normalise(k, settings[k]) == Some(p.settings[k]);
      if k !in own {
        assert k in parent.1.settings;
      }
    }
  }
}
