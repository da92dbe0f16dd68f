/** Reusable values in the downloader's defaults file: references of the form
    $values.a.b are replaced by what they name, at any depth, until none is left. */
module ValueReferences {
  import opened Options

  /** A decoded JSON value; the members of an array carry empty keys. */
  datatype Json = Text(s: string) | Other(code: int) | Array(items: Items) | Object(members: Items)
  datatype Items = Nil | Cons(key: string, value: Json, rest: Items)

  /** A text that is to be replaced: one dollar sign in front, not two. */
  predicate IsReference(s: string) { |s| > 0 && s[0] == '$' && !(|s| > 1 && s[1] == '$') }

  predicate NameChar(c: char) {
    'A' <= c <= 'Z' || 'a' <= c <= 'z' || '0' <= c <= '9' || c == '_' || c == '-'
  }

  predicate IsName(s: string) { |s| > 0 && forall i | 0 <= i < |s| :: NameChar(s[i]) }

  /** s.split("."). */
  function Split(s: string): (parts: seq<string>)
    ensures |parts| > 0
  {
    if s == "" then [""]
    else
      var front, c := Split(s[..|s| - 1]), s[|s| - 1];
      if c == '.' then front + [""] else front[..|front| - 1] + [front[|front| - 1] + [c]]
  }

  /** The names after $values, or None where VALUE_REFERENCE_RE does not match. */
  function PathOf(s: string): Option<seq<string>> {
    var parts := Split(s);
    if parts[0] == "$values" && |parts| > 1 && forall i | 1 <= i < |parts| :: IsName(parts[i]) then Some(parts[1..]) else None
  }

  // ---- How a reference is written ----------------------------------------------------------

  /** The parts with dots between them. */
  function Joined(parts: seq<string>): string {
    if parts == [] then "" else if |parts| == 1 then parts[0] else Joined(parts[..|parts| - 1]) + "." + parts[|parts| - 1]
  }

  lemma SplitSnoc(s: string, c: char, front: seq<string>)
    requires front == Split(s)
    ensures Split(s + [c]) == if c == '.' then front + [""] else front[..|front| - 1] + [front[|front| - 1] + [c]]
  {
    var more := s + [c];
    assert more[..|more| - 1] == s && more[|more| - 1] == c;
  }

  lemma JoinedSnoc(front: seq<string>, last: string)
    requires front != []
    ensures Joined(front + [last]) == Joined(front) + "." + last
  {
    assert (front + [last])[..|front|] == front;
  }

  predicate NoDots(parts: seq<string>) { forall i | 0 <= i < |parts| :: '.' !in parts[i] }

  lemma {:induction false} SplitJoins(s: string)
    ensures Joined(Split(s)) == s
  {
    if s != "" {
      var before, c := s[..|s| - 1], s[|s| - 1];
      assert s == before + [c];
      SplitJoins(before);
      NextJoins(before, c, Split(before));
    }
  }

  lemma NextJoins(s: string, c: char, parts: seq<string>)
    requires parts == Split(s) && Joined(parts) == s
    ensures Joined(Split(s + [c])) == s + [c]
  {
    SplitSnoc(s, c, parts);
    LastPart(parts);
    if c == '.' {
      JoinedSnoc(parts, "");
    } else {
      JoinedGrows(parts[..|parts| - 1], parts[|parts| - 1], [c]);
    }
  }

  lemma {:induction false} SplitHasNoDots(s: string)
    ensures NoDots(Split(s))
  {
    if s != "" {
      var front := Split(s[..|s| - 1]);
      SplitHasNoDots(s[..|s| - 1]);
      if s[|s| - 1] != '.' {
        Dotless(front[|front| - 1], s[|s| - 1]);
      }
    }
  }

  lemma LastPart(parts: seq<string>)
    requires parts != []
    ensures parts == parts[..|parts| - 1] + [parts[|parts| - 1]]
  {
  }

  lemma Dotless(s: string, c: char)
    requires '.' !in s && c != '.'
    ensures '.' !in s + [c]
  {
  }

  lemma JoinedGrows(front: seq<string>, last: string, more: string)
    ensures Joined(front + [last + more]) == Joined(front + [last]) + more
  {
    assert (front + [last + more])[..|front|] == front == (front + [last])[..|front|];
    if front != [] {
      assert Joined(front) + "." + (last + more) == Joined(front) + "." + last + more;
    }
  }

  lemma {:induction false} JoinedSplits(parts: seq<string>)
    requires parts != [] && NoDots(parts)
    ensures Split(Joined(parts)) == parts
  {
    var front, last := parts[..|parts| - 1], parts[|parts| - 1];
    assert parts == front + [last];
    if front == [] {
      SplitMore("", last);
      assert Joined(parts) == "" + last && Split("") == [""] && [""][..0] + ["" + last] == parts;
    } else {
      JoinedSplits(front);
      var dotted := Joined(front) + ".";
      assert dotted[..|dotted| - 1] == Joined(front) && dotted[|dotted| - 1] == '.';
      assert Split(dotted) == front + [""];
      assert (front + [""])[..|front|] == front;
      SplitMore(dotted, last);
      assert Joined(parts) == dotted + last && "" + last == last;
    }
  }

  lemma {:induction false} SplitMore(s: string, more: string)
    requires '.' !in more
    ensures var parts := Split(s); Split(s + more) == parts[..|parts| - 1] + [parts[|parts| - 1] + more]
  {
    if more == "" {
      NothingMore(s, Split(s));
    } else {
      SplitMore(s, more[..|more| - 1]);
      OneMore(s, more, Split(s));
    }
  }

  lemma NothingMore(s: string, parts: seq<string>)
    requires parts != []
    ensures s + "" == s && parts == parts[..|parts| - 1] + [parts[|parts| - 1] + ""]
  {
    assert parts[|parts| - 1] + "" == parts[|parts| - 1];
  }

  lemma OneMore(s: string, more: string, parts: seq<string>)
    requires parts != [] && more != "" && '.' !in more
    requires Split(s + more[..|more| - 1]) == parts[..|parts| - 1] + [parts[|parts| - 1] + more[..|more| - 1]]
    ensures Split(s + more) == parts[..|parts| - 1] + [parts[|parts| - 1] + more]
  {
    var front, c, last := more[..|more| - 1], more[|more| - 1], parts[|parts| - 1];
    SplitSnoc(s + front, c, Split(s + front));
    Appended(s, more);
    Appended(last, more);
  }

  lemma Appended(s: string, more: string)
    requires more != ""
    ensures s + more[..|more| - 1] + [more[|more| - 1]] == s + more
  {
  }

  /** A reference is exactly $values followed by dotted names. */
  lemma PathExactly(s: string, path: seq<string>)
    ensures PathOf(s) == Some(path) <==>
              path != [] && (forall i | 0 <= i < |path| :: IsName(path[i])) && s == Joined(["$values"] + path)
  {
    if PathOf(s) == Some(path) {
      PathIsWritten(s, path);
    }
    if path != [] && (forall i | 0 <= i < |path| :: IsName(path[i])) && s == Joined(["$values"] + path) {
      PathReads(path);
    }
  }

  lemma PathIsWritten(s: string, path: seq<string>)
    requires PathOf(s) == Some(path)
    ensures path != [] && (forall i | 0 <= i < |path| :: IsName(path[i])) && s == Joined(["$values"] + path)
  {
    SplitJoins(s);
    FirstAndRest(Split(s));
    assert path == Split(s)[1..];
  }

  lemma FirstAndRest(parts: seq<string>)
    requires parts != []
    ensures parts == [parts[0]] + parts[1..] && forall i | 0 <= i < |parts[1..]| :: parts[1..][i] == parts[i + 1]
  {
  }

  lemma PathReads(path: seq<string>)
    requires path != [] && forall i | 0 <= i < |path| :: IsName(path[i])
    ensures PathOf(Joined(["$values"] + path)) == Some(path)
  {
    var parts := ["$values"] + path;
    forall i | 0 <= i < |path| ensures '.' !in path[i] {
      NamesHaveNoDots(path[i]);
    }
    JoinedSplits(parts);
    FirstAndRest(parts);
    assert parts[1..] == path;
  }

  lemma NamesHaveNoDots(s: string)
    requires IsName(s)
    ensures '.' !in s
  {
  }

  /** Names are of letters, digits, underscores and hyphens, by their codes, and not empty. */
  lemma NamesAre(s: string)
    ensures IsName(s) <==> |s| >= 1 && forall i | 0 <= i < |s| ::
              var code := s[i] as int;
              (65 <= code < 65 + 26) || (97 <= code < 97 + 26) || (48 <= code < 48 + 10) || code == 95 || code == 45
  {
  }

  /** One dollar sign in front asks for a replacement; two stand for one. */
  lemma DollarsAre(s: string, values: Json, chain: seq<string>)
    ensures IsReference("$" + s) <==> s == "" || s[0] != '$'
    ensures (s == "" || s[0] != '$') ==> !IsReference(s)
    ensures Resolve(Text("$$" + s), values, chain) == Resolved(Text("$" + s))
    ensures (s == "" || s[0] != '$') ==> Resolve(Text(s), values, chain) == Resolved(Text(s))
  {
    assert ("$$" + s)[1..] == "$" + s;
  }

  function Member(items: Items, key: string): Option<Json> {
    match items
    case Nil => None
    case Cons(k, v, rest) => if k == key then Some(v) else Member(rest, key)
  }

  function Walk(at: Json, path: seq<string>): Option<Json>
    decreases |path|
  {
    if path == [] then Some(at)
    else if !at.Object? || Member(at.members, path[0]).None? then None
    else Walk(Member(at.members, path[0]).value, path[1..])
  }

  /** What a reference names. */
  function Target(values: Json, s: string): Option<Json> {
    if PathOf(s).None? then None else Walk(values, PathOf(s).value)
  }

  function References(v: Json): set<string> {
    match v
    case Text(s) => if IsReference(s) then {s} else {}
    case Other(_) => {}
    case Array(items) => ItemReferences(items)
    case Object(items) => ItemReferences(items)
  }

  function ItemReferences(items: Items): set<string> {
    match items
    case Nil => {}
    case Cons(_, v, rest) => References(v) + ItemReferences(rest)
  }

  lemma MemberReferences(items: Items, key: string)
    requires Member(items, key).Some?
    ensures References(Member(items, key).value) <= ItemReferences(items)
  {
  }

  lemma {:induction false} WalkReferences(at: Json, path: seq<string>)
    requires Walk(at, path).Some?
    ensures References(Walk(at, path).value) <= References(at)
    decreases |path|
  {
    if path != [] {
      MemberReferences(at.members, path[0]);
      WalkReferences(Member(at.members, path[0]).value, path[1..]);
    }
  }

  // ---- Resolution ------------------------------------------------------------------------

  datatype Resolution = Resolved(value: Json) | Invalid | Unknown | Cyclic
  datatype ItemsResolution = AllResolved(items: Items) | ItemFailed(why: Resolution)

  function Seen(chain: seq<string>): set<string> { set i | 0 <= i < |chain| :: chain[i] }

  /** The references that may still be followed. */
  function Pending(refs: set<string>, values: Json, chain: seq<string>): set<string> {
    refs + References(values) - Seen(chain)
  }

  lemma FollowingShrinks(values: Json, chain: seq<string>, s: string)
    requires s !in chain && Target(values, s).Some?
    ensures |Pending(References(Target(values, s).value), values, chain + [s])| < |Pending({s}, values, chain)|
  {
    WalkReferences(values, PathOf(s).value);
    var before := Pending({s}, values, chain);
    var after := Pending(References(Target(values, s).value), values, chain + [s]);
    SeenMore(chain, s);
    assert s in before && s !in after && after <= before - {s};
    SubsetSize(after, before - {s});
  }

  lemma SeenMore(chain: seq<string>, s: string)
    ensures Seen(chain + [s]) == Seen(chain) + {s}
  {
    var more := chain + [s];
    assert more[|chain|] == s && forall i | 0 <= i < |chain| :: more[i] == chain[i];
    assert forall t :: t in Seen(chain) ==> t in Seen(more);
  }

  lemma SubsetSize<T>(a: set<T>, b: set<T>)
    requires a <= b
    ensures |a| <= |b|
  {
    assert b == a + (b - a);
  }

  lemma FewerPending(a: set<string>, b: set<string>, values: Json, chain: seq<string>)
    requires a <= b
    ensures |Pending(a, values, chain)| <= |Pending(b, values, chain)|
  {
    SubsetSize(Pending(a, values, chain), Pending(b, values, chain));
  }

  /** _resolve_reusable_value.  It ends on every table: each reference followed leaves
      the pending ones, otherwise the value is smaller. */
  function Resolve(v: Json, values: Json, chain: seq<string>): (r: Resolution)
    decreases |Pending(References(v), values, chain)|, v, 1
  {
    match v
    case Text(s) =>
      if |s| > 1 && s[0] == '$' && s[1] == '$' then Resolved(Text(s[1..]))
      else if !IsReference(s) then Resolved(v)
      else if PathOf(s).None? then Invalid
      else if s in chain then Cyclic
      else if Target(values, s).None? then Unknown
      else
        FollowingShrinks(values, chain, s);
        Resolve(Target(values, s).value, values, chain + [s])
    case Other(_) => Resolved(v)
    case Array(items) =>
      (match ResolveItems(items, values, chain)
       case AllResolved(r) => Resolved(Array(r))
       case ItemFailed(why) => why)
    case Object(items) =>
      (match ResolveItems(items, values, chain)
       case AllResolved(r) => Resolved(Object(r))
       case ItemFailed(why) => why)
  }

  function ResolveItems(items: Items, values: Json, chain: seq<string>): (r: ItemsResolution)
    ensures r.ItemFailed? ==> !r.why.Resolved?
    decreases |Pending(ItemReferences(items), values, chain)|, items, 0
  {
    match items
    case Nil => AllResolved(Nil)
    case Cons(k, v, rest) =>
      FewerPending(References(v), ItemReferences(items), values, chain);
      FewerPending(ItemReferences(rest), ItemReferences(items), values, chain);
      match Resolve(v, values, chain)
      case Resolved(w) =>
        (match ResolveItems(rest, values, chain)
         case AllResolved(more) => AllResolved(Cons(k, w, more))
         case ItemFailed(why) => ItemFailed(why))
      case why => ItemFailed(why)
  }

  // ---- When resolution succeeds ---------------------------------------------------------------

  /** Well formed and known. */
  predicate Good(values: Json, s: string) { Target(values, s).Some? }

  /** A chain of references: the first occurs in v, each later one in what the one
      before it names. */
  ghost predicate IsPath(v: Json, values: Json, p: seq<string>) {
    && |p| > 0 && p[0] in References(v) && Linked(values, p)
  }

  ghost predicate Linked(values: Json, p: seq<string>) {
    forall i | 0 <= i < |p| - 1 :: Leads(values, p[i], p[i + 1])
  }

  ghost predicate Leads(values: Json, s: string, t: string) { Good(values, s) && t in References(Target(values, s).value) }

  function Last(p: seq<string>): string
    requires |p| > 0
  {
    p[|p| - 1]
  }

  /** A path ends badly at a malformed or unknown reference, or at one met before. */
  ghost predicate EndsBadly(values: Json, chain: seq<string>, p: seq<string>)
    requires |p| > 0
  {
    !Good(values, Last(p)) || Last(p) in chain + p[..|p| - 1]
  }

  lemma Extend(values: Json, chain: seq<string>, s: string, p: seq<string>)
    requires |p| > 0 && Good(values, s) && IsPath(Target(values, s).value, values, p)
    ensures Linked(values, [s] + p) && Last([s] + p) == Last(p)
    ensures chain + ([s] + p)[..|p|] == (chain + [s]) + p[..|p| - 1]
  {
    var q := [s] + p;
    forall i | 0 <= i < |q| - 1 ensures Leads(values, q[i], q[i + 1]) {
      if i > 0 {
        assert Leads(values, p[i - 1], p[i]);
      }
    }
  }

  /** A path from every failure to its cause. */
  lemma {:induction false} FailurePath(v: Json, values: Json, chain: seq<string>) returns (p: seq<string>)
    requires !Resolve(v, values, chain).Resolved?
    ensures IsPath(v, values, p) && EndsBadly(values, chain, p)
    ensures Resolve(v, values, chain).Cyclic? ==> Last(p) in chain + p[..|p| - 1]
    decreases |Pending(References(v), values, chain)|, v, 1
  {
    match v
    case Text(s) =>
      p := [s];
      if PathOf(s).Some? && s !in chain && Good(values, s) {
        FollowingShrinks(values, chain, s);
        var rest := FailurePath(Target(values, s).value, values, chain + [s]);
        Extend(values, chain, s, rest);
        p := [s] + rest;
      }
    case Array(items) => p := ItemFailurePath(items, values, chain);
    case Object(items) => p := ItemFailurePath(items, values, chain);
  }

  lemma {:induction false} ItemFailurePath(items: Items, values: Json, chain: seq<string>) returns (p: seq<string>)
    requires ResolveItems(items, values, chain).ItemFailed?
    ensures |p| > 0 && p[0] in ItemReferences(items) && Linked(values, p) && EndsBadly(values, chain, p)
    ensures ResolveItems(items, values, chain).why.Cyclic? ==> Last(p) in chain + p[..|p| - 1]
    decreases |Pending(ItemReferences(items), values, chain)|, items, 0
  {
    FewerPending(References(items.value), ItemReferences(items), values, chain);
    FewerPending(ItemReferences(items.rest), ItemReferences(items), values, chain);
    if Resolve(items.value, values, chain).Resolved? {
      p := ItemFailurePath(items.rest, values, chain);
    } else {
      p := FailurePath(items.value, values, chain);
    }
  }

  /** A path that ends badly makes resolution fail. */
  lemma {:induction false} BadPathFails(v: Json, values: Json, chain: seq<string>, p: seq<string>)
    requires IsPath(v, values, p) && EndsBadly(values, chain, p)
    ensures !Resolve(v, values, chain).Resolved?
    decreases |Pending(References(v), values, chain)|, v, 1
  {
    match v
    case Text(s) =>
      assert p[0] == s;
      if |p| == 1 {
        assert chain + p[..0] == chain;
      } else {
        assert Leads(values, p[0], p[1]);
        if s !in chain {
          FollowingShrinks(values, chain, s);
          TailPath(values, chain, s, p);
          BadPathFails(Target(values, s).value, values, chain + [s], p[1..]);
        }
      }
    case Array(items) => BadItemPathFails(items, values, chain, p);
    case Object(items) => BadItemPathFails(items, values, chain, p);
  }

  lemma TailPath(values: Json, chain: seq<string>, s: string, p: seq<string>)
    requires |p| > 1 && p[0] == s && Linked(values, p) && EndsBadly(values, chain, p)
    ensures Good(values, s) && IsPath(Target(values, s).value, values, p[1..])
    ensures EndsBadly(values, chain + [s], p[1..])
  {
    var rest := p[1..];
    assert Leads(values, p[0], p[1]);
    forall i | 0 <= i < |rest| - 1 ensures Leads(values, rest[i], rest[i + 1]) {
      assert Leads(values, p[i + 1], p[i + 2]);
    }
    assert chain + p[..|p| - 1] == (chain + [s]) + rest[..|rest| - 1];
  }

  lemma {:induction false} BadItemPathFails(items: Items, values: Json, chain: seq<string>, p: seq<string>)
    requires |p| > 0 && p[0] in ItemReferences(items) && Linked(values, p) && EndsBadly(values, chain, p)
    ensures ResolveItems(items, values, chain).ItemFailed?
    decreases |Pending(ItemReferences(items), values, chain)|, items, 0
  {
    FewerPending(References(items.value), ItemReferences(items), values, chain);
    FewerPending(ItemReferences(items.rest), ItemReferences(items), values, chain);
    if p[0] in References(items.value) {
      BadPathFails(items.value, values, chain, p);
    } else {
      BadItemPathFails(items.rest, values, chain, p);
    }
  }

  /** Resolution succeeds exactly when no path of references from the value reaches a
      malformed or unknown reference, or returns to one it passed. */
  lemma ResolvesExactly(v: Json, values: Json)
    ensures Resolve(v, values, []).Resolved? <==> !exists p :: IsPath(v, values, p) && EndsBadly(values, [], p)
  {
    if Resolve(v, values, []).Resolved? {
      forall p | IsPath(v, values, p) ensures !EndsBadly(values, [], p) {
        if EndsBadly(values, [], p) {
          BadPathFails(v, values, [], p);
        }
      }
    } else {
      var p := FailurePath(v, values, []);
    }
  }

  ghost predicate ReturnsTo(v: Json, values: Json, p: seq<string>) {
    IsPath(v, values, p) && Last(p) in p[..|p| - 1]
  }

  /** Every reference in sight is well formed and known. */
  ghost predicate AllGood(v: Json, values: Json) {
    forall s :: s in References(v) + References(values) ==> Good(values, s)
  }

  lemma {:induction false} PathStaysInSight(v: Json, values: Json, p: seq<string>, i: nat)
    requires IsPath(v, values, p) && i < |p|
    ensures p[i] in References(v) + References(values)
  {
    if i > 0 {
      assert Leads(values, p[i - 1], p[i]);
      WalkReferences(values, PathOf(p[i - 1]).value);
    }
  }

  /** With well-formed, known references, the cycle error is raised exactly when the
      references reachable from the value form a cycle; otherwise the value resolves. */
  lemma CyclicExactly(v: Json, values: Json)
    requires AllGood(v, values)
    ensures Resolve(v, values, []).Cyclic? <==> exists p :: ReturnsTo(v, values, p)
    ensures Resolve(v, values, []).Cyclic? || Resolve(v, values, []).Resolved?
  {
    if !Resolve(v, values, []).Resolved? {
      var p := FailurePath(v, values, []);
      PathStaysInSight(v, values, p, |p| - 1);
      assert [] + p[..|p| - 1] == p[..|p| - 1];
      assert ReturnsTo(v, values, p);
      GoodIsCyclic(v, values, []);
    }
    if p :| ReturnsTo(v, values, p) {
      assert [] + p[..|p| - 1] == p[..|p| - 1];
      BadPathFails(v, values, [], p);
    }
  }

  lemma {:induction false} GoodIsCyclic(v: Json, values: Json, chain: seq<string>)
    requires AllGood(v, values) && !Resolve(v, values, chain).Resolved?
    ensures Resolve(v, values, chain).Cyclic?
    decreases |Pending(References(v), values, chain)|, v, 1
  {
    match v
    case Text(s) =>
      assert Good(values, s);
      if s !in chain {
        FollowingShrinks(values, chain, s);
        WalkReferences(values, PathOf(s).value);
        GoodIsCyclic(Target(values, s).value, values, chain + [s]);
      }
    case Array(items) => GoodItemsAreCyclic(items, values, chain);
    case Object(items) => GoodItemsAreCyclic(items, values, chain);
  }

  lemma {:induction false} GoodItemsAreCyclic(items: Items, values: Json, chain: seq<string>)
    requires forall s :: s in ItemReferences(items) + References(values) ==> Good(values, s)
    requires ResolveItems(items, values, chain).ItemFailed?
    ensures ResolveItems(items, values, chain).why.Cyclic?
    decreases |Pending(ItemReferences(items), values, chain)|, items, 0
  {
    FewerPending(References(items.value), ItemReferences(items), values, chain);
    FewerPending(ItemReferences(items.rest), ItemReferences(items), values, chain);
    if Resolve(items.value, values, chain).Resolved? {
      GoodItemsAreCyclic(items.rest, values, chain);
    } else {
      GoodIsCyclic(items.value, values, chain);
    }
  }

  // ---- References are transparent -------------------------------------------------------------

  lemma FewerSeen(fewer: seq<string>, chain: seq<string>, s: string)
    requires Seen(fewer) <= Seen(chain)
    ensures s in fewer ==> s in chain
    ensures Seen(fewer + [s]) <= Seen(chain + [s])
  {
    assert forall i | 0 <= i < |fewer| :: fewer[i] in Seen(fewer);
    SeenMore(chain, s);
    SeenMore(fewer, s);
  }

  /** How a value was reached does not show in what it resolves to. */
  lemma {:induction false} ChainIsIrrelevant(v: Json, values: Json, chain: seq<string>, fewer: seq<string>)
    requires Seen(fewer) <= Seen(chain) && Resolve(v, values, chain).Resolved?
    ensures Resolve(v, values, fewer) == Resolve(v, values, chain)
    decreases |Pending(References(v), values, chain)|, v, 1
  {
    match v
    case Text(s) =>
      if IsReference(s) {
        FewerSeen(fewer, chain, s);
        FollowingShrinks(values, chain, s);
        ChainIsIrrelevant(Target(values, s).value, values, chain + [s], fewer + [s]);
      }
    case Array(items) => ItemsChainIsIrrelevant(items, values, chain, fewer);
    case Object(items) => ItemsChainIsIrrelevant(items, values, chain, fewer);
    case _ =>
  }

  lemma {:induction false} ItemsChainIsIrrelevant(items: Items, values: Json, chain: seq<string>, fewer: seq<string>)
    requires Seen(fewer) <= Seen(chain) && ResolveItems(items, values, chain).AllResolved?
    ensures ResolveItems(items, values, fewer) == ResolveItems(items, values, chain)
    decreases |Pending(ItemReferences(items), values, chain)|, items, 0
  {
    if items.Cons? {
      FewerPending(References(items.value), ItemReferences(items), values, chain);
      FewerPending(ItemReferences(items.rest), ItemReferences(items), values, chain);
      ChainIsIrrelevant(items.value, values, chain, fewer);
      ItemsChainIsIrrelevant(items.rest, values, chain, fewer);
    }
  }

  /** A reference resolves to exactly what the value it names resolves to on its own. */
  lemma ReferenceIsTransparent(s: string, values: Json)
    requires IsReference(s) && Resolve(Text(s), values, []).Resolved?
    ensures Good(values, s) && Resolve(Text(s), values, []) == Resolve(Target(values, s).value, values, [])
  {
    assert [] + [s] == [s];
    ChainIsIrrelevant(Target(values, s).value, values, [s], []);
  }
}
