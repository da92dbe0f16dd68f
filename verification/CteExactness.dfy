/** The other half of projection pruning: what a plan leaves out is seen.  A body that the
    plan does not cover gives other required outputs for some engine and some rows that
    agree on the planned fields. */
module CteExactness {
  import opened Options
  import opened QueryEvaluation
  import opened CteDependencies

  // ---- An engine in which one value spoils everything computed from it -----------------------

  function Spoil(spoiled: bool, bad: int): Value { if spoiled then Some(bad) else TRUE }

  function Spoiling(f: Name, bad: int): Engine {
    Engine((_, a, b) => Spoil(a == Some(bad) || b == Some(bad), bad),
           (_, a, b) => Spoil(a == Some(bad) || b == Some(bad), bad),
           (_, vs) => Spoil(Some(bad) in vs, bad),
           (_, _) => TRUE,
           (_, cells) => Spoil(f in cells && cells[f] == Some(bad), bad),
           (_, x, y) => x < y,
           (_, _) => 0)
  }

  predicate Avoids(e: Expr, bad: int) {
    match e
    case Const(v) => v != Some(bad)
    case Call(_, l, r) => Avoids(l, bad) && Avoids(r, bad)
    case Infix(_, l, r) => Avoids(l, bad) && Avoids(r, bad)
    case Aggregate(_, a) => Avoids(a, bad)
    case _ => true
  }

  /** No aggregate inside an aggregate. */
  predicate Flat(e: Expr) {
    match e
    case Call(_, l, r) => Flat(l) && Flat(r)
    case Infix(_, l, r) => Flat(l) && Flat(r)
    case Aggregate(_, a) => !ContainsAggregate(a)
    case _ => true
  }

  predicate Touches(e: Expr, f: Name) { f in Fields(e) || !Seedless(e) }

  /** The expression reads a bad cell of the row. */
  predicate Spoiled(e: Expr, r: Row, f: Name, bad: int) {
    (exists x :: x in Fields(e) && Cell(r, x) == Some(bad)) || (!Seedless(e) && Cell(r, f) == Some(bad))
  }

  predicate Clean(r: Row, bad: int) { forall x | x in r.cells :: r.cells[x] != Some(bad) }

  lemma CleanIsUnspoiled(e: Expr, r: Row, f: Name, bad: int)
    requires Clean(r, bad)
    ensures !Spoiled(e, r, f, bad)
  {
  }

  lemma SpoiledParts(e: Expr, a: Expr, b: Expr, r: Row, f: Name, bad: int)
    requires Fields(e) == Fields(a) + Fields(b) && (Seedless(e) <==> Seedless(a) && Seedless(b))
    ensures Spoiled(e, r, f, bad) <==> Spoiled(a, r, f, bad) || Spoiled(b, r, f, bad)
  {
  }

  /** A value is bad exactly when something bad is read; otherwise a compound value, and
      one that touches a field that is TRUE, is TRUE. */
  lemma {:induction false} EvalSpoils(e: Expr, r: Row, f: Name, bad: int)
    requires !ContainsAggregate(e) && Avoids(e, bad) && bad > 3
    ensures var v := Eval(Spoiling(f, bad), e, r);
            && (v == Some(bad) <==> Spoiled(e, r, f, bad))
            && (v != Some(bad) && (e.Infix? || (Touches(e, f) && Cell(r, f) == TRUE)) ==> v == TRUE)
  {
    match e
    case Call(_, a, b) =>
      EvalSpoils(a, r, f, bad);
      EvalSpoils(b, r, f, bad);
      SpoiledParts(e, a, b, r, f, bad);
    case Infix(_, a, b) =>
      EvalSpoils(a, r, f, bad);
      EvalSpoils(b, r, f, bad);
      SpoiledParts(e, a, b, r, f, bad);
    case Ref(x) => assert Spoiled(e, r, f, bad) <==> Cell(r, x) == Some(bad);
    case _ =>
  }

  /** The same over the group of one row. */
  lemma {:induction false} GroupSpoils(e: Expr, r: Row, f: Name, bad: int)
    requires Flat(e) && Avoids(e, bad) && bad > 3
    ensures var v := EvalGroup(Spoiling(f, bad), e, [r]);
            && (v == Some(bad) <==> Spoiled(e, r, f, bad))
            && (v != Some(bad) && (e.Infix? || (Touches(e, f) && Cell(r, f) == TRUE)) ==> v == TRUE)
  {
    match e
    case Call(_, a, b) =>
      GroupSpoils(a, r, f, bad);
      GroupSpoils(b, r, f, bad);
      SpoiledParts(e, a, b, r, f, bad);
    case Infix(_, a, b) =>
      GroupSpoils(a, r, f, bad);
      GroupSpoils(b, r, f, bad);
      SpoiledParts(e, a, b, r, f, bad);
    case Aggregate(_, a) =>
      EvalSpoils(a, r, f, bad);
      assert EvalRows(Spoiling(f, bad), a, [r]) == [Eval(Spoiling(f, bad), a, r)];
      assert Spoiled(e, r, f, bad) <==> Spoiled(a, r, f, bad);
    case _ => EvalSpoils(e, r, f, bad);
  }

  // ---- Rows that differ in one cell -----------------------------------------------------------

  /** TRUE under every key, but for two of them. */
  function Make(keys: set<Name>, h: Name, hv: int, f: Name, fv: int): Row {
    Row(map k | k in keys :: if k == f then Some(fv) else if k == h then Some(hv) else TRUE, 0)
  }

  lemma MadeAgree(keys: set<Name>, h: Name, hv: int, f: Name, fv: int, fv': int, scope: Scope, fields: set<Name>)
    requires keys <= scope.names && (scope.exact ==> keys == scope.names) && f !in fields
    ensures Agree(Make(keys, h, hv, f, fv), Make(keys, h, hv, f, fv'), scope, fields)
  {
  }

  lemma MadeIsClean(keys: set<Name>, h: Name, hv: int, f: Name, bad: int)
    requires bad > 3 && hv <= 3
    ensures Clean(Make(keys, h, hv, f, 1), bad)
  {
  }

  /** Only what touches f sees a bad f. */
  lemma UntouchedIsUnspoiled(e: Expr, keys: set<Name>, h: Name, hv: int, f: Name, fv: int, bad: int)
    requires bad > 3 && hv <= 3 && !Touches(e, f)
    ensures !Spoiled(e, Make(keys, h, hv, f, fv), f, bad)
  {
  }

  lemma Outside<T>(a: set<T>, b: set<T>) returns (x: T)
    requires !(a <= b)
    ensures x in a && x !in b
  {
    x :| x in a && x !in b;
  }

  /** An expression that reads more than the fields touches some name among no fields. */
  lemma TouchedOutside(e: Expr, scope: Scope, fields: set<Name>) returns (f: Name)
    requires !ReadsOnly(e, scope, fields) && Fields(e) <= scope.names
    ensures f in scope.names && f !in fields && Touches(e, f)
  {
    if Fields(e) <= fields {
      f := Outside(scope.names, fields);
    } else {
      f := Outside(Fields(e), fields);
    }
  }

  lemma UntouchedWhenRead(e: Expr, scope: Scope, fields: set<Name>, f: Name)
    requires ReadsOnly(e, scope, fields) && f in scope.names && f !in fields
    ensures !Touches(e, f)
  {
  }

  // ---- Sorting two rows ------------------------------------------------------------------------

  /** The positions of two values. */
  lemma OrderOfTwo(f: Name, bad: int, u: Value, v: Value, descending: bool)
    ensures var g := Spoiling(f, bad);
            OrderPositions(g, [u, v], descending) ==
            if v.Some? && (u.None? || (if descending then u.value < v.value else v.value < u.value)) then [1, 0] else [0, 1]
  {
    var g, vs := Spoiling(f, bad), [u, v];
    assert SortedPresent(g, vs, descending, 0) == [];
    var one := SortedPresent(g, vs, descending, 1);
    if u.Some? {
      assert Insert(g, vs, descending, [], 0) == [0];
    }
    assert one == if u.Some? then [0] else [];
    if v.Some? {
      assert Insert(g, vs, descending, [], 1) == [1];
      if u.Some? {
        assert [0][..0] == [];
        var earlier := if descending then u.value < v.value else v.value < u.value;
        assert Insert(g, vs, descending, [0], 1) == if earlier then Insert(g, vs, descending, [], 1) + [0] else [0] + [1];
      }
    }
    assert Missing(vs, 0) == [];
    assert Missing(vs, 1) == if u.None? then [0] else [];
  }

  /** Whether the first of two values goes first. */
  predicate Leads(u: Value, v: Value, descending: bool)
    requires u.Some? && v.Some?
  {
    if descending then u.value > v.value else u.value < v.value
  }

  /** One pass over two things with the values u and v. */
  function Passed<T>(f: Name, bad: int, u: Value, v: Value, descending: bool, a: T, b: T): (q: seq<T>)
    ensures |q| == 2
  {
    var positions := OrderPositions(Spoiling(f, bad), [u, v], descending);
    OrderOfTwo(f, bad, u, v, descending);
    Pick([a, b], positions)
  }

  lemma PassedEither<T>(f: Name, bad: int, u: Value, v: Value, descending: bool, a: T, b: T)
    ensures var q := Passed(f, bad, u, v, descending, a, b); q == [a, b] || q == [b, a]
    ensures u == v ==> Passed(f, bad, u, v, descending, a, b) == [a, b]
  {
    OrderOfTwo(f, bad, u, v, descending);
  }

  lemma PassedLeads<T>(f: Name, bad: int, u: Value, v: Value, descending: bool, a: T, b: T)
    requires u.Some? && v.Some? && Leads(u, v, descending)
    ensures Passed(f, bad, u, v, descending, a, b) == [a, b]
    ensures Passed(f, bad, v, u, descending, b, a) == [a, b]
  {
    OrderOfTwo(f, bad, u, v, descending);
    OrderOfTwo(f, bad, v, u, descending);
  }

  lemma SortPass(f: Name, bad: int, terms: seq<OrderTerm>, a: Row, b: Row)
    requires terms != []
    ensures var g, t := Spoiling(f, bad), terms[|terms| - 1];
            Sort(g, terms, [a, b]) ==
            Sort(g, terms[..|terms| - 1], Passed(f, bad, Eval(g, t.expr, a), Eval(g, t.expr, b), t.descending, a, b))
  {
    var g, t := Spoiling(f, bad), terms[|terms| - 1];
    SortStep(g, terms, [a, b], [Eval(g, t.expr, a), Eval(g, t.expr, b)]);
  }

  lemma SortStep(g: Engine, terms: seq<OrderTerm>, rows: seq<Row>, vs: seq<Value>)
    requires terms != [] && |vs| == |rows|
    requires forall i | 0 <= i < |rows| :: vs[i] == Eval(g, terms[|terms| - 1].expr, rows[i])
    ensures Sort(g, terms, rows) ==
            Sort(g, terms[..|terms| - 1], Pick(rows, OrderPositions(g, vs, terms[|terms| - 1].descending)))
  {
    assert EvalRows(g, terms[|terms| - 1].expr, rows) == vs;
  }

  lemma GroupPass(f: Name, bad: int, terms: seq<OrderTerm>, a: seq<Row>, b: seq<Row>)
    requires terms != []
    ensures var g, t := Spoiling(f, bad), terms[|terms| - 1];
            SortGroups(g, terms, [a, b]) ==
            SortGroups(g, terms[..|terms| - 1], Passed(f, bad, EvalGroup(g, t.expr, a), EvalGroup(g, t.expr, b), t.descending, a, b))
  {
    var g, t := Spoiling(f, bad), terms[|terms| - 1];
    GroupStep(g, terms, [a, b], [EvalGroup(g, t.expr, a), EvalGroup(g, t.expr, b)]);
  }

  lemma GroupStep(g: Engine, terms: seq<OrderTerm>, groups: seq<seq<Row>>, vs: seq<Value>)
    requires terms != [] && |vs| == |groups|
    requires forall i | 0 <= i < |groups| :: vs[i] == EvalGroup(g, terms[|terms| - 1].expr, groups[i])
    ensures SortGroups(g, terms, groups) ==
            SortGroups(g, terms[..|terms| - 1], Pick(groups, OrderPositions(g, vs, terms[|terms| - 1].descending)))
  {
    assert EvalGroups(g, terms[|terms| - 1].expr, groups) == vs;
  }

  predicate Ties(f: Name, bad: int, t: OrderTerm, a: Row, b: Row) {
    Eval(Spoiling(f, bad), t.expr, a) == Eval(Spoiling(f, bad), t.expr, b)
  }

  predicate GoesFirst(f: Name, bad: int, t: OrderTerm, a: Row, b: Row) {
    var u, v := Eval(Spoiling(f, bad), t.expr, a), Eval(Spoiling(f, bad), t.expr, b);
    u.Some? && v.Some? && Leads(u, v, t.descending)
  }

  predicate GroupTies(f: Name, bad: int, t: OrderTerm, a: seq<Row>, b: seq<Row>) {
    EvalGroup(Spoiling(f, bad), t.expr, a) == EvalGroup(Spoiling(f, bad), t.expr, b)
  }

  predicate GroupGoesFirst(f: Name, bad: int, t: OrderTerm, a: seq<Row>, b: seq<Row>) {
    var u, v := EvalGroup(Spoiling(f, bad), t.expr, a), EvalGroup(Spoiling(f, bad), t.expr, b);
    u.Some? && v.Some? && Leads(u, v, t.descending)
  }

  lemma SortTiePass(f: Name, bad: int, terms: seq<OrderTerm>, a: Row, b: Row)
    requires terms != [] && Ties(f, bad, terms[|terms| - 1], a, b)
    ensures Sort(Spoiling(f, bad), terms, [a, b]) == Sort(Spoiling(f, bad), terms[..|terms| - 1], [a, b])
  {
    var t := terms[|terms| - 1];
    SortPass(f, bad, terms, a, b);
    PassedEither(f, bad, Eval(Spoiling(f, bad), t.expr, a), Eval(Spoiling(f, bad), t.expr, b), t.descending, a, b);
  }

  lemma SortEitherPass(f: Name, bad: int, terms: seq<OrderTerm>, a: Row, b: Row)
    requires terms != []
    ensures var g, rest := Spoiling(f, bad), terms[..|terms| - 1];
            Sort(g, terms, [a, b]) == Sort(g, rest, [a, b]) || Sort(g, terms, [a, b]) == Sort(g, rest, [b, a])
  {
    var t := terms[|terms| - 1];
    SortPass(f, bad, terms, a, b);
    PassedEither(f, bad, Eval(Spoiling(f, bad), t.expr, a), Eval(Spoiling(f, bad), t.expr, b), t.descending, a, b);
  }

  lemma SortDecidingPass(f: Name, bad: int, terms: seq<OrderTerm>, a: Row, b: Row)
    requires terms != [] && GoesFirst(f, bad, terms[|terms| - 1], a, b)
    ensures var g, rest := Spoiling(f, bad), terms[..|terms| - 1];
            Sort(g, terms, [a, b]) == Sort(g, rest, [a, b]) == Sort(g, terms, [b, a])
  {
    var t := terms[|terms| - 1];
    SortPass(f, bad, terms, a, b);
    SortPass(f, bad, terms, b, a);
    PassedLeads(f, bad, Eval(Spoiling(f, bad), t.expr, a), Eval(Spoiling(f, bad), t.expr, b), t.descending, a, b);
  }

  lemma GroupTiePass(f: Name, bad: int, terms: seq<OrderTerm>, a: seq<Row>, b: seq<Row>)
    requires terms != [] && GroupTies(f, bad, terms[|terms| - 1], a, b)
    ensures SortGroups(Spoiling(f, bad), terms, [a, b]) == SortGroups(Spoiling(f, bad), terms[..|terms| - 1], [a, b])
  {
    var t := terms[|terms| - 1];
    GroupPass(f, bad, terms, a, b);
    PassedEither(f, bad, EvalGroup(Spoiling(f, bad), t.expr, a), EvalGroup(Spoiling(f, bad), t.expr, b), t.descending, a, b);
  }

  lemma GroupEitherPass(f: Name, bad: int, terms: seq<OrderTerm>, a: seq<Row>, b: seq<Row>)
    requires terms != []
    ensures var g, rest := Spoiling(f, bad), terms[..|terms| - 1];
            SortGroups(g, terms, [a, b]) == SortGroups(g, rest, [a, b]) || SortGroups(g, terms, [a, b]) == SortGroups(g, rest, [b, a])
  {
    var t := terms[|terms| - 1];
    GroupPass(f, bad, terms, a, b);
    PassedEither(f, bad, EvalGroup(Spoiling(f, bad), t.expr, a), EvalGroup(Spoiling(f, bad), t.expr, b), t.descending, a, b);
  }

  lemma GroupDecidingPass(f: Name, bad: int, terms: seq<OrderTerm>, a: seq<Row>, b: seq<Row>)
    requires terms != [] && GroupGoesFirst(f, bad, terms[|terms| - 1], a, b)
    ensures var g, rest := Spoiling(f, bad), terms[..|terms| - 1];
            SortGroups(g, terms, [a, b]) == SortGroups(g, rest, [a, b]) == SortGroups(g, terms, [b, a])
  {
    var t := terms[|terms| - 1];
    GroupPass(f, bad, terms, a, b);
    GroupPass(f, bad, terms, b, a);
    PassedLeads(f, bad, EvalGroup(Spoiling(f, bad), t.expr, a), EvalGroup(Spoiling(f, bad), t.expr, b), t.descending, a, b);
  }

  lemma {:induction false} TiesStay(f: Name, bad: int, terms: seq<OrderTerm>, a: Row, b: Row)
    requires forall j | 0 <= j < |terms| :: Ties(f, bad, terms[j], a, b)
    ensures Sort(Spoiling(f, bad), terms, [a, b]) == [a, b]
  {
    if terms != [] {
      SortTiePass(f, bad, terms, a, b);
      TiesStay(f, bad, terms[..|terms| - 1], a, b);
    }
  }

  /** The first term on which two rows differ decides, whatever their order was. */
  lemma {:induction false} FirstDifferenceDecides(f: Name, bad: int, terms: seq<OrderTerm>, k: int, a: Row, b: Row)
    requires 0 <= k < |terms| && GoesFirst(f, bad, terms[k], a, b)
    requires forall j | 0 <= j < k :: Ties(f, bad, terms[j], a, b)
    ensures Sort(Spoiling(f, bad), terms, [a, b]) == [a, b] && Sort(Spoiling(f, bad), terms, [b, a]) == [a, b]
  {
    var rest := terms[..|terms| - 1];
    if k < |terms| - 1 {
      SortEitherPass(f, bad, terms, a, b);
      SortEitherPass(f, bad, terms, b, a);
      FirstDifferenceDecides(f, bad, rest, k, a, b);
    } else {
      SortDecidingPass(f, bad, terms, a, b);
      TiesStay(f, bad, rest, a, b);
    }
  }

  lemma {:induction false} GroupTiesStay(f: Name, bad: int, terms: seq<OrderTerm>, a: seq<Row>, b: seq<Row>)
    requires forall j | 0 <= j < |terms| :: GroupTies(f, bad, terms[j], a, b)
    ensures SortGroups(Spoiling(f, bad), terms, [a, b]) == [a, b]
  {
    if terms != [] {
      GroupTiePass(f, bad, terms, a, b);
      GroupTiesStay(f, bad, terms[..|terms| - 1], a, b);
    }
  }

  lemma {:induction false} FirstGroupDecides(f: Name, bad: int, terms: seq<OrderTerm>, k: int, a: seq<Row>, b: seq<Row>)
    requires 0 <= k < |terms| && GroupGoesFirst(f, bad, terms[k], a, b)
    requires forall j | 0 <= j < k :: GroupTies(f, bad, terms[j], a, b)
    ensures SortGroups(Spoiling(f, bad), terms, [a, b]) == [a, b] && SortGroups(Spoiling(f, bad), terms, [b, a]) == [a, b]
  {
    var rest := terms[..|terms| - 1];
    if k < |terms| - 1 {
      GroupEitherPass(f, bad, terms, a, b);
      GroupEitherPass(f, bad, terms, b, a);
      FirstGroupDecides(f, bad, rest, k, a, b);
    } else {
      GroupDecidingPass(f, bad, terms, a, b);
      GroupTiesStay(f, bad, rest, a, b);
    }
  }

  // ---- Bodies the resolver accepts ---------------------------------------------------------------

  predicate Plain(e: Expr, names: set<Name>) { !ContainsAggregate(e) && !ContainsRandom(e) && Fields(e) <= names }

  /** WHERE and HAVING are tests, not constants, and without RANDOM; HAVING needs a group
      or an aggregate; only known names are read; outputs are distinct. */
  predicate Accepted(s: Query, names: set<Name>) {
    && DistinctOutputs(s.select)
    && (s.condition.Some? ==> s.condition.value.Infix? && Plain(s.condition.value, names))
    && (forall i | 0 <= i < |s.groupBy| :: Plain(s.groupBy[i], names))
    && (s.having.Some? ==>
          var e := s.having.value; e.Infix? && Flat(e) && !ContainsRandom(e) && Fields(e) <= names && Aggregating(s))
    && (forall i | 0 <= i < |s.orderBy| :: Flat(s.orderBy[i].expr) && Fields(s.orderBy[i].expr) <= names)
    && (forall i | 0 <= i < |s.select| :: Flat(s.select[i].expr) && Fields(s.select[i].expr) <= names)
  }

  /** OFFSET and LIMIT let a row through, and two of them where DISTINCT merges rows. */
  predicate Open(s: Query) { s.offset == 0 && (s.limit.None? || s.limit.value >= if s.distinct then 2 else 1) }

  predicate AllAvoid(s: Query, bad: int) {
    && (s.condition.Some? ==> Avoids(s.condition.value, bad)) && (s.having.Some? ==> Avoids(s.having.value, bad))
    && (forall i | 0 <= i < |s.groupBy| :: Avoids(s.groupBy[i], bad))
    && (forall i | 0 <= i < |s.orderBy| :: Avoids(s.orderBy[i].expr, bad))
    && (forall i | 0 <= i < |s.select| :: Avoids(s.select[i].expr, bad))
  }

  /** A value above every constant of an expression. */
  function Above(e: Expr): int {
    match e
    case Const(Some(c)) => if c < 3 then 3 else c
    case Call(_, l, r) => if Above(l) < Above(r) then Above(r) else Above(l)
    case Infix(_, l, r) => if Above(l) < Above(r) then Above(r) else Above(l)
    case Aggregate(_, a) => Above(a)
    case _ => 3
  }

  function AboveAll(es: seq<Expr>): int {
    if es == [] then 3
    else
      var rest, e := AboveAll(es[..|es| - 1]), es[|es| - 1];
      if rest < Above(e) then Above(e) else rest
  }

  lemma {:induction false} AboveAvoids(e: Expr, bad: int)
    requires bad > Above(e)
    ensures Avoids(e, bad)
  {
    match e
    case Call(_, l, r) =>
      AboveAvoids(l, bad);
      AboveAvoids(r, bad);
    case Infix(_, l, r) =>
      AboveAvoids(l, bad);
      AboveAvoids(r, bad);
    case Aggregate(_, a) => AboveAvoids(a, bad);
    case _ =>
  }

  lemma {:induction false} AboveAllAvoid(es: seq<Expr>, bad: int, i: int)
    requires bad > AboveAll(es)
    ensures 0 <= i < |es| ==> Avoids(es[i], bad)
  {
    if es != [] {
      AboveAllAvoid(es[..|es| - 1], bad, i);
      AboveAvoids(es[|es| - 1], bad);
    }
  }

  function OrderList(terms: seq<OrderTerm>): (es: seq<Expr>)
    ensures |es| == |terms|
  {
    seq(|terms|, i requires 0 <= i < |terms| => terms[i].expr)
  }

  function AboveOption(e: Option<Expr>): int { if e.None? then 3 else Above(e.value) }

  lemma {:induction false} AboveIsBig(e: Expr)
    ensures Above(e) >= 3
  {
    match e
    case Call(_, l, r) => AboveIsBig(l);
    case Infix(_, l, r) => AboveIsBig(l);
    case Aggregate(_, a) => AboveIsBig(a);
    case _ =>
  }

  lemma {:induction false} AboveAllIsBig(es: seq<Expr>)
    ensures AboveAll(es) >= 3
  {
    if es != [] {
      AboveAllIsBig(es[..|es| - 1]);
    }
  }

  lemma ListAvoids(es: seq<Expr>, bad: int)
    requires bad > AboveAll(es)
    ensures forall i | 0 <= i < |es| :: Avoids(es[i], bad)
  {
    forall i | 0 <= i < |es| ensures Avoids(es[i], bad) {
      AboveAllAvoid(es, bad, i);
    }
  }

  lemma OptionAvoids(e: Option<Expr>, bad: int)
    requires bad > AboveOption(e)
    ensures e.Some? ==> Avoids(e.value, bad)
    ensures AboveOption(e) >= 3
  {
    if e.Some? {
      AboveAvoids(e.value, bad);
      AboveIsBig(e.value);
    }
  }

  lemma BadValue(s: Query) returns (bad: int)
    ensures AllAvoid(s, bad) && bad > 3
  {
    var orders, selects := OrderList(s.orderBy), SelectList(s.select);
    var a, b := AboveOption(s.condition), AboveOption(s.having);
    if s.condition.Some? { AboveIsBig(s.condition.value); }
    if s.having.Some? { AboveIsBig(s.having.value); }
    AboveAllIsBig(s.groupBy);
    AboveAllIsBig(orders);
    AboveAllIsBig(selects);
    bad := a + b + AboveAll(s.groupBy) + AboveAll(orders) + AboveAll(selects);
    OptionAvoids(s.condition, bad);
    OptionAvoids(s.having, bad);
    ListAvoids(s.groupBy, bad);
    ListAvoids(orders, bad);
    ListAvoids(selects, bad);
    assert forall i | 0 <= i < |s.orderBy| :: orders[i] == s.orderBy[i].expr;
    assert forall i | 0 <= i < |s.select| :: selects[i] == s.select[i].expr;
  }

  /** A body, what is known of its rows, and a value none of its constants has. */
  predicate Setting(s: Query, scope: Scope, bad: int) {
    Accepted(s, scope.names) && Open(s) && AllAvoid(s, bad) && bad > 3
  }

  // ---- One or two rows through a body -------------------------------------------------------------

  lemma {:induction false} AllTrue(vs: seq<Value>)
    requires forall i | 0 <= i < |vs| :: vs[i] == TRUE
    ensures TruePositions(vs) == seq(|vs|, i => i)
  {
    if vs != [] {
      AllTrue(vs[..|vs| - 1]);
    }
  }

  /** Rows on which the test reads nothing bad all pass. */
  lemma TestPasses(f: Name, bad: int, s: Query, scope: Scope, rows: seq<Row>)
    requires Setting(s, scope, bad)
    requires s.condition.Some? ==> forall i | 0 <= i < |rows| :: !Spoiled(s.condition.value, rows[i], f, bad)
    ensures Filter(Spoiling(f, bad), s.condition, rows) == rows
  {
    if s.condition.Some? {
      var e, g := s.condition.value, Spoiling(f, bad);
      forall i | 0 <= i < |rows| ensures Eval(g, e, rows[i]) == TRUE {
        EvalSpoils(e, rows[i], f, bad);
      }
      AllTrue(EvalRows(g, e, rows));
    }
  }

  function Singles(rows: seq<Row>): seq<seq<Row>> { seq(|rows|, i requires 0 <= i < |rows| => [rows[i]]) }

  lemma HavingPasses(f: Name, bad: int, s: Query, scope: Scope, rows: seq<Row>)
    requires Setting(s, scope, bad)
    requires s.having.Some? ==> forall i | 0 <= i < |rows| :: !Spoiled(s.having.value, rows[i], f, bad)
    ensures FilterGroups(Spoiling(f, bad), s.having, Singles(rows)) == Singles(rows)
  {
    if s.having.Some? {
      var e, g := s.having.value, Spoiling(f, bad);
      forall i | 0 <= i < |rows| ensures EvalGroup(g, e, [rows[i]]) == TRUE {
        GroupSpoils(e, rows[i], f, bad);
      }
      AllTrue(EvalGroups(g, e, Singles(rows)));
    }
  }

  lemma FirstOfOne(keys: seq<seq<Value>>)
    requires |keys| == 1
    ensures FirstPositions(keys) == [0]
  {
    assert keys[..0] == [] && FirstPositions([]) == [];
  }

  lemma FirstOfTwo(keys: seq<seq<Value>>)
    requires |keys| == 2
    ensures FirstPositions(keys) == if keys[0] == keys[1] then [0] else [0, 1]
  {
    FirstOfOne(keys[..1]);
  }

  /** One row makes one group, two rows with distinct keys make two. */
  lemma GroupsAreSingles(g: Engine, keyed: seq<Expr>, rows: seq<Row>)
    requires |rows| == 1 || (|rows| == 2 && keyed != [] && KeyOf(g, keyed, rows[0]) != KeyOf(g, keyed, rows[1]))
    ensures Groups(g, keyed, rows) == Singles(rows)
  {
    if keyed != [] {
      var keys := KeysOf(g, keyed, rows);
      if |rows| == 1 {
        FirstOfOne(keys);
        assert PositionsOf(keys, keys[0], 1) == PositionsOf(keys, keys[0], 0) + [0] == [0];
        assert Pick(rows, [0]) == [rows[0]];
      } else {
        FirstOfTwo(keys);
        assert PositionsOf(keys, keys[0], 0) == PositionsOf(keys, keys[1], 0) == [];
        assert PositionsOf(keys, keys[0], 1) == [0] && PositionsOf(keys, keys[1], 1) == [];
        assert PositionsOf(keys, keys[0], 2) == [0] && PositionsOf(keys, keys[1], 2) == [1];
        assert Pick(rows, [0]) == [rows[0]] && Pick(rows, [1]) == [rows[1]];
      }
    } else {
      assert rows == [rows[0]];
    }
  }

  lemma OnePass(g: Engine, terms: seq<OrderTerm>, a: Row)
    requires terms != []
    ensures Sort(g, terms, [a]) == Sort(g, terms[..|terms| - 1], [a])
  {
    var t := terms[|terms| - 1];
    SortStep(g, terms, [a], [Eval(g, t.expr, a)]);
    OrderOfOne(g, Eval(g, t.expr, a), t.descending);
    assert Pick([a], [0]) == [a];
  }

  lemma {:induction false} SortOfOne(g: Engine, terms: seq<OrderTerm>, a: Row)
    ensures Sort(g, terms, [a]) == [a]
  {
    if terms != [] {
      OnePass(g, terms, a);
      SortOfOne(g, terms[..|terms| - 1], a);
    }
  }

  lemma OneGroupPass(g: Engine, terms: seq<OrderTerm>, a: seq<Row>)
    requires terms != []
    ensures SortGroups(g, terms, [a]) == SortGroups(g, terms[..|terms| - 1], [a])
  {
    var t := terms[|terms| - 1];
    GroupStep(g, terms, [a], [EvalGroup(g, t.expr, a)]);
    OrderOfOne(g, EvalGroup(g, t.expr, a), t.descending);
    assert Pick([a], [0]) == [a];
  }

  lemma {:induction false} SortOfOneGroup(g: Engine, terms: seq<OrderTerm>, a: seq<Row>)
    ensures SortGroups(g, terms, [a]) == [a]
  {
    if terms != [] {
      OneGroupPass(g, terms, a);
      SortOfOneGroup(g, terms[..|terms| - 1], a);
    }
  }

  lemma OrderOfOne(g: Engine, v: Value, descending: bool)
    ensures OrderPositions(g, [v], descending) == [0]
  {
    assert SortedPresent(g, [v], descending, 0) == [] && Missing([v], 0) == [];
    if v.Some? {
      assert Insert(g, [v], descending, [], 0) == [0];
    }
    assert SortedPresent(g, [v], descending, 1) == if v.Some? then [0] else [];
    assert Missing([v], 1) == if v.None? then [0] else [];
  }

  lemma {:induction false} NoGroupsStay(g: Engine, terms: seq<OrderTerm>)
    ensures SortGroups(g, terms, []) == []
  {
    if terms != [] {
      GroupStep(g, terms, [], []);
      NoGroupsStay(g, terms[..|terms| - 1]);
    }
  }

  // ---- What a body exports -------------------------------------------------------------------------

  lemma {:induction false} ExportAt(select: seq<SelectTerm>, values: seq<Value>, n: nat, i: int)
    requires DistinctOutputs(select) && 0 <= i < n <= |select| == |values|
    ensures select[i].output in Export(select, values, n) && Export(select, values, n)[select[i].output] == values[i]
  {
    if i < n - 1 {
      ExportAt(select, values, n - 1, i);
    }
  }

  lemma PlainCell(g: Engine, id: int, marked: bool, s: Query, rows: seq<Row>, k: int, i: int)
    requires !Aggregating(s) && DistinctOutputs(s.select) && 0 <= i < |s.select|
    ensures |Body(g, id, marked, s, rows)| == |KeptRows(g, marked, s, rows)|
    ensures 0 <= k < |Body(g, id, marked, s, rows)| ==>
              Cell(Body(g, id, marked, s, rows)[k], s.select[i].output) ==
              Held(g, marked, s.select[i], WithDraws(g, s.select, |s.select|, KeptRows(g, marked, s, rows)[k]))
  {
    if 0 <= k < |KeptRows(g, marked, s, rows)| {
      ExportAt(s.select, HeldKeys(g, marked, s.select, PlainRows(g, marked, s, rows))[k], |s.select|, i);
    }
  }

  lemma PlainCount(g: Engine, id: int, marked: bool, s: Query, rows: seq<Row>)
    requires !Aggregating(s)
    ensures |Body(g, id, marked, s, rows)| == |KeptRows(g, marked, s, rows)|
  {
  }

  lemma AggregateCell(g: Engine, id: int, marked: bool, s: Query, rows: seq<Row>, k: int, i: int)
    requires Aggregating(s) && DistinctOutputs(s.select) && 0 <= i < |s.select|
    requires 0 <= k < |AggregateValues(g, s, rows)| && |AggregateValues(g, s, rows)[k]| == |s.select|
    ensures |Body(g, id, marked, s, rows)| == |AggregateValues(g, s, rows)|
    ensures Cell(Body(g, id, marked, s, rows)[k], s.select[i].output) == AggregateValues(g, s, rows)[k][i]
  {
    ExportAt(s.select, AggregateValues(g, s, rows)[k], |s.select|, i);
  }

  /** The groups of single rows a body keeps give one row of values each. */
  lemma SingleValues(f: Name, bad: int, s: Query, scope: Scope, rows: seq<Row>, sorted: seq<Row>)
    requires Setting(s, scope, bad) && Aggregating(s) && 1 <= |rows| <= 2 && |sorted| == |rows|
    requires |rows| == 2 ==> s.groupBy != [] && KeyOf(Spoiling(f, bad), s.groupBy, rows[0]) != KeyOf(Spoiling(f, bad), s.groupBy, rows[1])
    requires s.condition.Some? ==> forall i | 0 <= i < |rows| :: !Spoiled(s.condition.value, rows[i], f, bad)
    requires s.having.Some? ==> forall i | 0 <= i < |rows| :: !Spoiled(s.having.value, rows[i], f, bad)
    requires SortGroups(Spoiling(f, bad), s.orderBy, Singles(rows)) == Singles(sorted)
    ensures var values := AggregateValues(Spoiling(f, bad), s, rows);
            |values| >= 1 && values[0] == GroupKey(Spoiling(f, bad), SelectList(s.select), [sorted[0]])
  {
    var g, es := Spoiling(f, bad), SelectList(s.select);
    TestPasses(f, bad, s, scope, rows);
    GroupsAreSingles(g, s.groupBy, rows);
    HavingPasses(f, bad, s, scope, rows);
    var keys := GroupKeys(g, es, Singles(sorted));
    assert keys[0] == GroupKey(g, es, [sorted[0]]);
    if |keys| == 1 {
      FirstOfOne(keys);
    } else {
      FirstOfTwo(keys);
    }
  }

  // ---- What is left out is seen ---------------------------------------------------------------------

  /** An engine and two inputs. */
  datatype Trial = Trial(g: Engine, p: seq<Row>, r: seq<Row>)

  /** Inputs that agree on the fields give rows that agree on the required outputs. */
  ghost predicate Preserved(s: Query, required: set<Name>, scope: Scope, fields: set<Name>, x: Trial) {
    AgreeAll(x.p, x.r, scope, fields) ==>
    AgreeAll(Body(x.g, 0, scope.exact, s, x.p), Body(x.g, 0, scope.exact, s, x.r), Scope(Outputs(s), true), required)
  }

  lemma CellIsSeen(s: Query, required: set<Name>, scope: Scope, fields: set<Name>, x: Trial, f: Name)
    requires AgreeAll(x.p, x.r, scope, fields) && f in required
    requires var a, b := Body(x.g, 0, scope.exact, s, x.p), Body(x.g, 0, scope.exact, s, x.r);
             |a| > 0 && |b| > 0 && Cell(a[0], f) != Cell(b[0], f)
    ensures !Preserved(s, required, scope, fields, x)
  {
  }

  lemma CountIsSeen(s: Query, required: set<Name>, scope: Scope, fields: set<Name>, x: Trial)
    requires AgreeAll(x.p, x.r, scope, fields)
    requires |Body(x.g, 0, scope.exact, s, x.p)| != |Body(x.g, 0, scope.exact, s, x.r)|
    ensures !Preserved(s, required, scope, fields, x)
  {
  }

  /** The keys of a row that shows f, and h, and no more than it must. */
  function Keys(scope: Scope, f: Name, h: Name): set<Name> { if scope.exact then scope.names else {f, h} }

  lemma TestIsUnspoiled(s: Query, scope: Scope, fields: set<Name>, h: Name, hv: int, f: Name, fv: int, bad: int)
    requires Setting(s, scope, bad) && hv <= 3 && f in scope.names && f !in fields
    requires s.condition.Some? ==> ReadsOnly(s.condition.value, scope, fields)
    ensures s.condition.Some? ==> !Spoiled(s.condition.value, Make(Keys(scope, f, h), h, hv, f, fv), f, bad)
  {
    if s.condition.Some? {
      UntouchedWhenRead(s.condition.value, scope, fields, f);
      UntouchedIsUnspoiled(s.condition.value, Keys(scope, f, h), h, hv, f, fv, bad);
    }
  }

  lemma HavingIsUnspoiled(s: Query, scope: Scope, fields: set<Name>, h: Name, hv: int, f: Name, fv: int, bad: int)
    requires Setting(s, scope, bad) && hv <= 3 && f in scope.names && f !in fields
    requires s.having.Some? ==> ReadsOnly(s.having.value, scope, fields)
    ensures s.having.Some? ==> !Spoiled(s.having.value, Make(Keys(scope, f, h), h, hv, f, fv), f, bad)
  {
    if s.having.Some? {
      UntouchedWhenRead(s.having.value, scope, fields, f);
      UntouchedIsUnspoiled(s.having.value, Keys(scope, f, h), h, hv, f, fv, bad);
    }
  }

  lemma TouchedIsSpoiled(e: Expr, scope: Scope, h: Name, hv: int, f: Name, bad: int)
    requires Touches(e, f) && f in Keys(scope, f, h)
    ensures Spoiled(e, Make(Keys(scope, f, h), h, hv, f, bad), f, bad)
  {
    assert Cell(Make(Keys(scope, f, h), h, hv, f, bad), f) == Some(bad);
  }

  // ---- HAVING ---------------------------------------------------------------------------------------

  /** One row, whose group HAVING drops when the field it reads is bad. */
  lemma HavingIsSeen(s: Query, required: set<Name>, scope: Scope, fields: set<Name>) returns (x: Trial)
    requires Accepted(s, scope.names) && Open(s) && s.having.Some? && !ReadsOnly(s.having.value, scope, fields)
    requires s.condition.Some? ==> ReadsOnly(s.condition.value, scope, fields)
    ensures !Preserved(s, required, scope, fields, x)
  {
    var bad := BadValue(s);
    var f := TouchedOutside(s.having.value, scope, fields);
    var keys := Keys(scope, f, f);
    var a, b := Make(keys, f, 1, f, 1), Make(keys, f, 1, f, bad);
    x := Trial(Spoiling(f, bad), [a], [b]);
    MadeAgree(keys, f, 1, f, 1, bad, scope, fields);
    TestIsUnspoiled(s, scope, fields, f, 1, f, 1, bad);
    TestIsUnspoiled(s, scope, fields, f, 1, f, bad, bad);
    MadeIsClean(keys, f, 1, f, bad);
    CleanIsUnspoiled(s.having.value, a, f, bad);
    TouchedIsSpoiled(s.having.value, scope, f, 1, f, bad);
    GroupIsDropped(s, scope, f, b, bad);
    GroupIsKept(s, scope, f, a, bad);
    CountIsSeen(s, required, scope, fields, x);
  }

  lemma GroupIsKept(s: Query, scope: Scope, f: Name, a: Row, bad: int)
    requires Setting(s, scope, bad) && Aggregating(s)
    requires s.condition.Some? ==> !Spoiled(s.condition.value, a, f, bad)
    requires s.having.Some? ==> !Spoiled(s.having.value, a, f, bad)
    ensures |Body(Spoiling(f, bad), 0, scope.exact, s, [a])| > 0
  {
    SortOfOneGroup(Spoiling(f, bad), s.orderBy, [a]);
    assert Singles([a]) == [[a]];
    SingleValues(f, bad, s, scope, [a], [a]);
    AggregateCount(Spoiling(f, bad), scope.exact, s, [a]);
  }

  lemma AggregateCount(g: Engine, marked: bool, s: Query, rows: seq<Row>)
    requires Aggregating(s)
    ensures |Body(g, 0, marked, s, rows)| == |AggregateValues(g, s, rows)|
  {
  }

  lemma GroupIsDropped(s: Query, scope: Scope, f: Name, b: Row, bad: int)
    requires Setting(s, scope, bad) && s.having.Some? && Spoiled(s.having.value, b, f, bad)
    requires s.condition.Some? ==> !Spoiled(s.condition.value, b, f, bad)
    ensures |Body(Spoiling(f, bad), 0, scope.exact, s, [b])| == 0
  {
    var g, e := Spoiling(f, bad), s.having.value;
    TestPasses(f, bad, s, scope, [b]);
    GroupsAreSingles(g, s.groupBy, [b]);
    GroupSpoils(e, b, f, bad);
    var vs := EvalGroups(g, e, Singles([b]));
    assert vs[0] == Some(bad) && vs[..0] == [] && TruePositions([]) == [];
    assert TruePositions(vs) == [];
    NoGroupsStay(g, s.orderBy);
    assert FirstPositions([]) == [];
    AggregateCount(g, scope.exact, s, [b]);
  }

  // ---- SELECT, with groups ---------------------------------------------------------------------------

  lemma GroupTermIsSeen(s: Query, required: set<Name>, scope: Scope, fields: set<Name>, i: int) returns (x: Trial)
    requires Accepted(s, scope.names) && Open(s) && Aggregating(s)
    requires 0 <= i < |s.select| && s.select[i].output in required && !ReadsOnly(s.select[i].expr, scope, fields)
    requires s.condition.Some? ==> ReadsOnly(s.condition.value, scope, fields)
    requires s.having.Some? ==> ReadsOnly(s.having.value, scope, fields)
    ensures !Preserved(s, required, scope, fields, x)
  {
    var bad := BadValue(s);
    var e := s.select[i].expr;
    var f := TouchedOutside(e, scope, fields);
    var keys := Keys(scope, f, f);
    var a, b := Make(keys, f, 1, f, 1), Make(keys, f, 1, f, bad);
    x := Trial(Spoiling(f, bad), [a], [b]);
    MadeAgree(keys, f, 1, f, 1, bad, scope, fields);
    OneGroupValue(s, scope, fields, f, 1, bad, i);
    OneGroupValue(s, scope, fields, f, bad, bad, i);
    MadeIsClean(keys, f, 1, f, bad);
    CleanIsUnspoiled(e, a, f, bad);
    TouchedIsSpoiled(e, scope, f, 1, f, bad);
    GroupSpoils(e, a, f, bad);
    GroupSpoils(e, b, f, bad);
    CellIsSeen(s, required, scope, fields, x, s.select[i].output);
  }

  lemma OneGroupValue(s: Query, scope: Scope, fields: set<Name>, f: Name, fv: int, bad: int, i: int)
    requires Setting(s, scope, bad) && Aggregating(s) && f in scope.names && f !in fields && 0 <= i < |s.select|
    requires s.condition.Some? ==> ReadsOnly(s.condition.value, scope, fields)
    requires s.having.Some? ==> ReadsOnly(s.having.value, scope, fields)
    ensures var a := Make(Keys(scope, f, f), f, 1, f, fv);
            var rows := Body(Spoiling(f, bad), 0, scope.exact, s, [a]);
            |rows| > 0 && Cell(rows[0], s.select[i].output) == EvalGroup(Spoiling(f, bad), s.select[i].expr, [a])
  {
    var a := Make(Keys(scope, f, f), f, 1, f, fv);
    TestIsUnspoiled(s, scope, fields, f, 1, f, fv, bad);
    HavingIsUnspoiled(s, scope, fields, f, 1, f, fv, bad);
    SortOfOneGroup(Spoiling(f, bad), s.orderBy, [a]);
    assert Singles([a]) == [[a]];
    SingleValues(f, bad, s, scope, [a], [a]);
    AggregateCell(Spoiling(f, bad), 0, scope.exact, s, [a], 0, i);
  }

  // ---- SELECT, without groups ------------------------------------------------------------------------

  /** A term whose value the fields do not decide shows a bad cell of its row. */
  lemma HeldTells(t: SelectTerm, marked: bool, scope: Scope, fields: set<Name>, bad: int) returns (f: Name)
    requires !HeldReadsOnly(t, marked, scope, fields) && (marked ==> scope.exact) && bad > 3
    requires !ContainsAggregate(t.expr) && Avoids(t.expr, bad) && Fields(t.expr) <= scope.names
    ensures f in scope.names && f !in fields
    ensures Held(Spoiling(f, bad), marked, t, Make(Keys(scope, f, f), f, 1, f, bad)) == Some(bad)
    ensures Held(Spoiling(f, bad), marked, t, Make(Keys(scope, f, f), f, 1, f, 1)) != Some(bad)
    ensures t.output in Keys(scope, f, f) && (marked || ContainsRandom(t.expr)) ==> t.output == f
    ensures (t.output in Keys(scope, f, f) && (marked || ContainsRandom(t.expr))) || Touches(t.expr, f)
  {
    var looks := marked || ContainsRandom(t.expr);
    if looks && t.output in scope.names && t.output !in fields {
      f := t.output;
    } else {
      f := TouchedOutside(t.expr, scope, fields);
      var a, b := Make(Keys(scope, f, f), f, 1, f, 1), Make(Keys(scope, f, f), f, 1, f, bad);
      TouchedIsSpoiled(t.expr, scope, f, 1, f, bad);
      MadeIsClean(Keys(scope, f, f), f, 1, f, bad);
      CleanIsUnspoiled(t.expr, a, f, bad);
      EvalSpoils(t.expr, a, f, bad);
      EvalSpoils(t.expr, b, f, bad);
    }
  }

  predicate NoAggregates(select: seq<SelectTerm>) { forall i | 0 <= i < |select| :: !ContainsAggregate(select[i].expr) }

  predicate TermsAvoid(select: seq<SelectTerm>, bad: int) { forall i | 0 <= i < |select| :: Avoids(select[i].expr, bad) }

  /** Draws do not spoil a clean row. */
  lemma {:induction false} DrawsStayClean(select: seq<SelectTerm>, n: nat, a: Row, f: Name, bad: int)
    requires n <= |select| && NoAggregates(select) && TermsAvoid(select, bad) && Clean(a, bad) && bad > 3
    ensures Clean(WithDraws(Spoiling(f, bad), select, n, a), bad)
  {
    if n > 0 {
      DrawsStayClean(select, n - 1, a, f, bad);
      var t := select[n - 1];
      CleanIsUnspoiled(t.expr, a, f, bad);
      EvalSpoils(t.expr, a, f, bad);
    }
  }

  /** Nor do they hide a cell the row has. */
  lemma OwnCellStays(g: Engine, select: seq<SelectTerm>, a: Row, f: Name)
    requires DistinctOutputs(select) && NoAggregates(select) && f in a.cells
    ensures var w := WithDraws(g, select, |select|, a); f in w.cells && w.cells[f] == a.cells[f]
  {
    DrawsAt(g, select, |select|, a, f);
    if j :| 0 <= j < |select| && ContainsRandom(select[j].expr) && select[j].output == f {
      assert Held(g, false, select[j], a) == a.cells[f];
    }
  }

  /** The exported value of a clean row's term is not bad. */
  lemma CleanExport(select: seq<SelectTerm>, i: int, marked: bool, a: Row, f: Name, bad: int)
    requires 0 <= i < |select| && NoAggregates(select) && TermsAvoid(select, bad) && Clean(a, bad) && bad > 3
    ensures Held(Spoiling(f, bad), marked, select[i], WithDraws(Spoiling(f, bad), select, |select|, a)) != Some(bad)
  {
    var w := WithDraws(Spoiling(f, bad), select, |select|, a);
    DrawsStayClean(select, |select|, a, f, bad);
    CleanIsUnspoiled(select[i].expr, w, f, bad);
    EvalSpoils(select[i].expr, w, f, bad);
  }

  /** A term shown bad on its row is exported bad. */
  lemma HeldIsExported(select: seq<SelectTerm>, i: int, marked: bool, scope: Scope, f: Name, b: Row, bad: int)
    requires 0 <= i < |select| && NoAggregates(select) && TermsAvoid(select, bad) && DistinctOutputs(select) && bad > 3
    requires b == Make(Keys(scope, f, f), f, 1, f, bad) && f in b.cells
    requires Held(Spoiling(f, bad), marked, select[i], b) == Some(bad)
    requires (select[i].output in b.cells && (marked || ContainsRandom(select[i].expr))) || Touches(select[i].expr, f)
    ensures Held(Spoiling(f, bad), marked, select[i], WithDraws(Spoiling(f, bad), select, |select|, b)) == Some(bad)
  {
    var g, t := Spoiling(f, bad), select[i];
    var w := WithDraws(g, select, |select|, b);
    DrawsAt(g, select, |select|, b, t.output);
    if !ContainsRandom(t.expr) && !(marked && t.output in b.cells) {
      NoRandomIsSeedless(t.expr);
      OwnCellStays(g, select, b, f);
      assert Cell(w, f) == Some(bad);
      assert Spoiled(t.expr, w, f, bad);
      EvalSpoils(t.expr, w, f, bad);
    }
  }

  /** A term the fields do not decide is exported bad from some row and not bad from the
      row that differs from it in one cell outside the fields. */
  lemma ExportTells(select: seq<SelectTerm>, i: int, marked: bool, scope: Scope, fields: set<Name>, bad: int) returns (f: Name)
    requires 0 <= i < |select| && NoAggregates(select) && TermsAvoid(select, bad) && DistinctOutputs(select) && bad > 3
    requires (marked ==> scope.exact) && forall j | 0 <= j < |select| :: Fields(select[j].expr) <= scope.names
    requires !ExportReadsOnly(select, i, marked, scope, fields)
    ensures f in scope.names && f !in fields
    ensures var b := Make(Keys(scope, f, f), f, 1, f, bad);
            Held(Spoiling(f, bad), marked, select[i], WithDraws(Spoiling(f, bad), select, |select|, b)) == Some(bad)
  {
    var t := select[i];
    if !HeldReadsOnly(t, marked, scope, fields) {
      f := HeldTells(t, marked, scope, fields, bad);
      HeldIsExported(select, i, marked, scope, f, Make(Keys(scope, f, f), f, 1, f, bad), bad);
    } else {
      var j :| 0 <= j < |select| && ContainsRandom(select[j].expr) && select[j].output in Fields(t.expr)
               && !HeldReadsOnly(select[j], false, scope, fields);
      f := HeldTells(select[j], false, scope, fields, bad);
      var g, b := Spoiling(f, bad), Make(Keys(scope, f, f), f, 1, f, bad);
      var w := WithDraws(g, select, |select|, b);
      DrawsAt(g, select, |select|, b, select[j].output);
      DrawsAt(g, select, |select|, b, t.output);
      assert Cell(w, select[j].output) == Some(bad);
      assert Spoiled(t.expr, w, f, bad);
      EvalSpoils(t.expr, w, f, bad);
    }
  }

  lemma OneRowIsKept(s: Query, scope: Scope, fields: set<Name>, f: Name, fv: int, bad: int)
    requires Setting(s, scope, bad) && f in scope.names && f !in fields
    requires s.condition.Some? ==> ReadsOnly(s.condition.value, scope, fields)
    ensures var a := Make(Keys(scope, f, f), f, 1, f, fv);
            KeptRows(Spoiling(f, bad), scope.exact, s, [a]) == [a]
  {
    var g, a := Spoiling(f, bad), Make(Keys(scope, f, f), f, 1, f, fv);
    TestIsUnspoiled(s, scope, fields, f, 1, f, fv, bad);
    TestPasses(f, bad, s, scope, [a]);
    SortOfOne(g, s.orderBy, a);
    FirstOfOne(HeldKeys(g, scope.exact, s.select, [a]));
    assert Pick([a], [0]) == [a];
  }

  lemma TermIsSeen(s: Query, required: set<Name>, scope: Scope, fields: set<Name>, i: int) returns (x: Trial)
    requires Accepted(s, scope.names) && Open(s) && !Aggregating(s)
    requires 0 <= i < |s.select| && s.select[i].output in required
    requires !ExportReadsOnly(s.select, i, scope.exact, scope, fields)
    requires s.condition.Some? ==> ReadsOnly(s.condition.value, scope, fields)
    ensures !Preserved(s, required, scope, fields, x)
  {
    var bad := BadValue(s);
    var f := ExportTells(s.select, i, scope.exact, scope, fields, bad);
    var keys := Keys(scope, f, f);
    var a, b := Make(keys, f, 1, f, 1), Make(keys, f, 1, f, bad);
    x := Trial(Spoiling(f, bad), [a], [b]);
    MadeAgree(keys, f, 1, f, 1, bad, scope, fields);
    OneRowIsKept(s, scope, fields, f, 1, bad);
    OneRowIsKept(s, scope, fields, f, bad, bad);
    MadeIsClean(keys, f, 1, f, bad);
    CleanExport(s.select, i, scope.exact, a, f, bad);
    PlainCell(x.g, 0, scope.exact, s, [a], 0, i);
    PlainCell(x.g, 0, scope.exact, s, [b], 0, i);
    CellIsSeen(s, required, scope, fields, x, s.select[i].output);
  }

  // ---- DISTINCT ---------------------------------------------------------------------------------------

  /** Two equal rows are one, until a cell that only a key reads tells them apart. */
  lemma DistinctIsSeen(s: Query, required: set<Name>, scope: Scope, fields: set<Name>, i: int) returns (x: Trial)
    requires Accepted(s, scope.names) && Open(s) && !Aggregating(s) && s.distinct
    requires 0 <= i < |s.select| && !HeldReadsOnly(s.select[i], scope.exact, scope, fields)
    requires s.condition.Some? ==> ReadsOnly(s.condition.value, scope, fields)
    requires OrderReadsOnly(s.orderBy, scope, fields)
    ensures !Preserved(s, required, scope, fields, x)
  {
    var bad := BadValue(s);
    var f := HeldTells(s.select[i], scope.exact, scope, fields, bad);
    var keys := Keys(scope, f, f);
    var a, b := Make(keys, f, 1, f, 1), Make(keys, f, 1, f, bad);
    x := Trial(Spoiling(f, bad), [a, a], [a, b]);
    DistinctAgree(scope, fields, f, bad);
    DistinctCounts(s, scope, fields, f, bad, i);
    CountIsSeen(s, required, scope, fields, x);
  }

  lemma DistinctAgree(scope: Scope, fields: set<Name>, f: Name, bad: int)
    requires f in scope.names && f !in fields
    ensures var a, b := Make(Keys(scope, f, f), f, 1, f, 1), Make(Keys(scope, f, f), f, 1, f, bad);
            AgreeAll([a, a], [a, b], scope, fields)
  {
    MadeAgree(Keys(scope, f, f), f, 1, f, 1, bad, scope, fields);
    MadeAgree(Keys(scope, f, f), f, 1, f, 1, 1, scope, fields);
  }

  lemma DistinctCounts(s: Query, scope: Scope, fields: set<Name>, f: Name, bad: int, i: int)
    requires Setting(s, scope, bad) && !Aggregating(s) && s.distinct && f in scope.names && f !in fields && 0 <= i < |s.select|
    requires s.condition.Some? ==> ReadsOnly(s.condition.value, scope, fields)
    requires OrderReadsOnly(s.orderBy, scope, fields)
    requires Held(Spoiling(f, bad), scope.exact, s.select[i], Make(Keys(scope, f, f), f, 1, f, bad)) == Some(bad)
    requires Held(Spoiling(f, bad), scope.exact, s.select[i], Make(Keys(scope, f, f), f, 1, f, 1)) != Some(bad)
    ensures var g, a, b := Spoiling(f, bad), Make(Keys(scope, f, f), f, 1, f, 1), Make(Keys(scope, f, f), f, 1, f, bad);
            |Body(g, 0, scope.exact, s, [a, a])| == 1 && |Body(g, 0, scope.exact, s, [a, b])| == 2
  {
    var g, a, b := Spoiling(f, bad), Make(Keys(scope, f, f), f, 1, f, 1), Make(Keys(scope, f, f), f, 1, f, bad);
    TwoRowsStay(s, scope, fields, f, 1, bad);
    TwoRowsStay(s, scope, fields, f, bad, bad);
    DistinctCount(g, scope.exact, s, a, a);
    DistinctCount(g, scope.exact, s, a, b);
    assert HeldKey(g, scope.exact, s.select, a)[i] != HeldKey(g, scope.exact, s.select, b)[i];
  }

  lemma DistinctCount(g: Engine, marked: bool, s: Query, a: Row, b: Row)
    requires Open(s) && s.distinct && !Aggregating(s) && Sort(g, s.orderBy, Filter(g, s.condition, [a, b])) == [a, b]
    ensures |Body(g, 0, marked, s, [a, b])| ==
            if HeldKey(g, marked, s.select, a) == HeldKey(g, marked, s.select, b) then 1 else 2
  {
    FirstOfTwo(HeldKeys(g, marked, s.select, [a, b]));
    PlainCount(g, 0, marked, s, [a, b]);
  }

  /** Rows that differ outside the fields tie in every ORDER BY term. */
  lemma TwoRowsStay(s: Query, scope: Scope, fields: set<Name>, f: Name, fv: int, bad: int)
    requires Setting(s, scope, bad) && !Aggregating(s) && f in scope.names && f !in fields
    requires s.condition.Some? ==> ReadsOnly(s.condition.value, scope, fields)
    requires OrderReadsOnly(s.orderBy, scope, fields)
    ensures var a, b := Make(Keys(scope, f, f), f, 1, f, 1), Make(Keys(scope, f, f), f, 1, f, fv);
            Sort(Spoiling(f, bad), s.orderBy, Filter(Spoiling(f, bad), s.condition, [a, b])) == [a, b]
  {
    var g := Spoiling(f, bad);
    var a, b := Make(Keys(scope, f, f), f, 1, f, 1), Make(Keys(scope, f, f), f, 1, f, fv);
    TestIsUnspoiled(s, scope, fields, f, 1, f, 1, bad);
    TestIsUnspoiled(s, scope, fields, f, 1, f, fv, bad);
    TestPasses(f, bad, s, scope, [a, b]);
    MadeAgree(Keys(scope, f, f), f, 1, f, 1, fv, scope, fields);
    forall j | 0 <= j < |s.orderBy| ensures Ties(f, bad, s.orderBy[j], a, b) {
      EvalAgrees(g, s.orderBy[j].expr, a, b, scope, fields);
    }
    TiesStay(f, bad, s.orderBy, a, b);
  }

  // ---- ORDER BY ----------------------------------------------------------------------------------------

  /** Required term i is a bare column that no ORDER BY term reads, so it tells which row
      came first; with groups it is one of the keys. */
  predicate Tells(s: Query, required: set<Name>, i: int) {
    && 0 <= i < |s.select| && s.select[i].output in required && s.select[i].expr == Ref(s.select[i].output)
    && (forall k | 0 <= k < |s.orderBy| :: s.select[i].output !in Fields(s.orderBy[k].expr))
    && (Aggregating(s) ==> s.select[i].expr in s.groupBy)
  }

  /** The first term that touches f. */
  lemma FirstTouching(terms: seq<OrderTerm>, f: Name, k: int) returns (first: int)
    requires 0 <= k < |terms| && Touches(terms[k].expr, f)
    ensures 0 <= first <= k && Touches(terms[first].expr, f)
    ensures forall j | 0 <= j < first :: !Touches(terms[j].expr, f)
  {
    first := 0;
    while !Touches(terms[first].expr, f)
      invariant 0 <= first <= k && forall j | 0 <= j < first :: !Touches(terms[j].expr, f)
      decreases k - first
    {
      first := first + 1;
    }
  }

  /** Two rows with different h, one of them with a bad f. */
  function Pair(keys: set<Name>, h: Name, f: Name, u: int, v: int): seq<Row> {
    [Make(keys, h, 2, f, u), Make(keys, h, 3, f, v)]
  }

  lemma PairsAgree(scope: Scope, fields: set<Name>, h: Name, f: Name, bad: int)
    requires f in scope.names && h in scope.names && f !in fields
    ensures AgreeAll(Pair(Keys(scope, f, h), h, f, bad, 1), Pair(Keys(scope, f, h), h, f, 1, bad), scope, fields)
  {
    MadeAgree(Keys(scope, f, h), h, 2, f, bad, 1, scope, fields);
    MadeAgree(Keys(scope, f, h), h, 3, f, 1, bad, scope, fields);
  }

  /** An expression that touches neither f nor h does not see which of the two it is on. */
  lemma BlindTerm(g: Engine, e: Expr, scope: Scope, h: Name, f: Name, u: int, v: int)
    requires f in scope.names && h in scope.names && !Touches(e, f) && h !in Fields(e)
    ensures var rows := Pair(Keys(scope, f, h), h, f, u, v);
            Eval(g, e, rows[0]) == Eval(g, e, rows[1]) && EvalGroup(g, e, [rows[0]]) == EvalGroup(g, e, [rows[1]])
  {
    var rows := Pair(Keys(scope, f, h), h, f, u, v);
    assert Agree(rows[0], rows[1], scope, Fields(e));
    EvalAgrees(g, e, rows[0], rows[1], scope, Fields(e));
    GroupEvalAgrees(g, e, [rows[0]], [rows[1]], scope, Fields(e));
  }

  /** The first of the sorted pair: the row without the bad cell in ascending order, the
      row with it in descending order. */
  function Leader(rows: seq<Row>, firstIsBad: bool, descending: bool): (q: seq<Row>)
    requires |rows| == 2
    ensures |q| == 2
  {
    if firstIsBad == descending then rows else [rows[1], rows[0]]
  }

  lemma PairIsSorted(s: Query, scope: Scope, h: Name, f: Name, k: int, firstIsBad: bool, bad: int)
    requires Setting(s, scope, bad) && !Aggregating(s) && f in scope.names && h in scope.names && f != h
    requires 0 <= k < |s.orderBy| && Touches(s.orderBy[k].expr, f)
    requires forall j | 0 <= j < k :: !Touches(s.orderBy[j].expr, f)
    requires forall j | 0 <= j < |s.orderBy| :: h !in Fields(s.orderBy[j].expr)
    ensures var rows := Pair(Keys(scope, f, h), h, f, if firstIsBad then bad else 1, if firstIsBad then 1 else bad);
            Sort(Spoiling(f, bad), s.orderBy, rows) == Leader(rows, firstIsBad, s.orderBy[k].descending)
  {
    var g, t, keys := Spoiling(f, bad), s.orderBy[k], Keys(scope, f, h);
    var rows := Pair(keys, h, f, if firstIsBad then bad else 1, if firstIsBad then 1 else bad);
    var clean, spoiled := if firstIsBad then rows[1] else rows[0], if firstIsBad then rows[0] else rows[1];
    forall j | 0 <= j < k ensures Ties(f, bad, s.orderBy[j], rows[0], rows[1]) {
      BlindTerm(g, s.orderBy[j].expr, scope, h, f, if firstIsBad then bad else 1, if firstIsBad then 1 else bad);
    }
    MadeIsClean(keys, h, if firstIsBad then 3 else 2, f, bad);
    CleanIsUnspoiled(t.expr, clean, f, bad);
    TouchedIsSpoiled(t.expr, scope, h, if firstIsBad then 2 else 3, f, bad);
    EvalSpoils(t.expr, clean, f, bad);
    EvalSpoils(t.expr, spoiled, f, bad);
    if firstIsBad == t.descending {
      FirstDifferenceDecides(f, bad, s.orderBy, k, rows[0], rows[1]);
    } else {
      FirstDifferenceDecides(f, bad, s.orderBy, k, rows[1], rows[0]);
    }
  }

  lemma GroupPairIsSorted(s: Query, scope: Scope, h: Name, f: Name, k: int, firstIsBad: bool, bad: int)
    requires Setting(s, scope, bad) && f in scope.names && h in scope.names && f != h
    requires 0 <= k < |s.orderBy| && Touches(s.orderBy[k].expr, f)
    requires forall j | 0 <= j < k :: !Touches(s.orderBy[j].expr, f)
    requires forall j | 0 <= j < |s.orderBy| :: h !in Fields(s.orderBy[j].expr)
    ensures var rows := Pair(Keys(scope, f, h), h, f, if firstIsBad then bad else 1, if firstIsBad then 1 else bad);
            SortGroups(Spoiling(f, bad), s.orderBy, Singles(rows)) == Singles(Leader(rows, firstIsBad, s.orderBy[k].descending))
  {
    var g, t, keys := Spoiling(f, bad), s.orderBy[k], Keys(scope, f, h);
    var rows := Pair(keys, h, f, if firstIsBad then bad else 1, if firstIsBad then 1 else bad);
    var clean, spoiled := if firstIsBad then rows[1] else rows[0], if firstIsBad then rows[0] else rows[1];
    forall j | 0 <= j < k ensures GroupTies(f, bad, s.orderBy[j], [rows[0]], [rows[1]]) {
      BlindTerm(g, s.orderBy[j].expr, scope, h, f, if firstIsBad then bad else 1, if firstIsBad then 1 else bad);
    }
    MadeIsClean(keys, h, if firstIsBad then 3 else 2, f, bad);
    CleanIsUnspoiled(t.expr, clean, f, bad);
    TouchedIsSpoiled(t.expr, scope, h, if firstIsBad then 2 else 3, f, bad);
    GroupSpoils(t.expr, clean, f, bad);
    GroupSpoils(t.expr, spoiled, f, bad);
    assert Singles(rows) == [[rows[0]], [rows[1]]];
    if firstIsBad == t.descending {
      FirstGroupDecides(f, bad, s.orderBy, k, [rows[0]], [rows[1]]);
    } else {
      FirstGroupDecides(f, bad, s.orderBy, k, [rows[1]], [rows[0]]);
    }
  }

  /** What the telling term shows of the first row of a body over a pair. */
  lemma FirstOfPlain(s: Query, required: set<Name>, scope: Scope, i: int, f: Name, rows: seq<Row>, sorted: seq<Row>, bad: int)
    requires Setting(s, scope, bad) && !Aggregating(s) && Tells(s, required, i) && |rows| == |sorted| == 2
    requires s.condition.Some? ==> forall k | 0 <= k < 2 :: !Spoiled(s.condition.value, rows[k], f, bad)
    requires Sort(Spoiling(f, bad), s.orderBy, rows) == sorted && s.select[i].output in sorted[0].cells
    ensures var out := Body(Spoiling(f, bad), 0, scope.exact, s, rows);
            |out| > 0 && Cell(out[0], s.select[i].output) == Cell(sorted[0], s.select[i].output)
  {
    var g, h := Spoiling(f, bad), s.select[i].output;
    TestPasses(f, bad, s, scope, rows);
    FirstOfTwo(HeldKeys(g, scope.exact, s.select, sorted));
    assert KeptRows(g, scope.exact, s, rows)[0] == sorted[0];
    OwnCellStays(g, s.select, sorted[0], h);
    PlainCell(g, 0, scope.exact, s, rows, 0, i);
  }

  lemma FirstOfGroups(s: Query, required: set<Name>, scope: Scope, i: int, f: Name, rows: seq<Row>, sorted: seq<Row>, bad: int)
    requires Setting(s, scope, bad) && Aggregating(s) && Tells(s, required, i) && |rows| == |sorted| == 2
    requires s.condition.Some? ==> forall k | 0 <= k < 2 :: !Spoiled(s.condition.value, rows[k], f, bad)
    requires s.having.Some? ==> forall k | 0 <= k < 2 :: !Spoiled(s.having.value, rows[k], f, bad)
    requires Cell(rows[0], s.select[i].output) != Cell(rows[1], s.select[i].output)
    requires SortGroups(Spoiling(f, bad), s.orderBy, Singles(rows)) == Singles(sorted)
    ensures var out := Body(Spoiling(f, bad), 0, scope.exact, s, rows);
            |out| > 0 && Cell(out[0], s.select[i].output) == Cell(sorted[0], s.select[i].output)
  {
    var g, h := Spoiling(f, bad), s.select[i].output;
    var j :| 0 <= j < |s.groupBy| && s.groupBy[j] == Ref(h);
    assert KeyOf(g, s.groupBy, rows[0])[j] != KeyOf(g, s.groupBy, rows[1])[j];
    SingleValues(f, bad, s, scope, rows, sorted);
    AggregateCell(g, 0, scope.exact, s, rows, 0, i);
  }

  lemma PairIsUnspoiled(s: Query, scope: Scope, fields: set<Name>, h: Name, f: Name, u: int, v: int, bad: int)
    requires Setting(s, scope, bad) && f in scope.names && f !in fields
    requires s.condition.Some? ==> ReadsOnly(s.condition.value, scope, fields)
    requires s.having.Some? ==> ReadsOnly(s.having.value, scope, fields)
    ensures var rows := Pair(Keys(scope, f, h), h, f, u, v);
            && (s.condition.Some? ==> forall k | 0 <= k < 2 :: !Spoiled(s.condition.value, rows[k], f, bad))
            && (s.having.Some? ==> forall k | 0 <= k < 2 :: !Spoiled(s.having.value, rows[k], f, bad))
  {
    TestIsUnspoiled(s, scope, fields, h, 2, f, u, bad);
    TestIsUnspoiled(s, scope, fields, h, 3, f, v, bad);
    HavingIsUnspoiled(s, scope, fields, h, 2, f, u, bad);
    HavingIsUnspoiled(s, scope, fields, h, 3, f, v, bad);
  }

  /** What the telling term shows first, where one of the pair is bad. */
  lemma FirstOfPair(s: Query, required: set<Name>, scope: Scope, fields: set<Name>, i: int, f: Name, k: int, firstIsBad: bool, bad: int)
    requires Setting(s, scope, bad) && Tells(s, required, i) && f in scope.names && f !in fields && s.select[i].output in fields
    requires s.condition.Some? ==> ReadsOnly(s.condition.value, scope, fields)
    requires s.having.Some? ==> ReadsOnly(s.having.value, scope, fields)
    requires 0 <= k < |s.orderBy| && Touches(s.orderBy[k].expr, f)
    requires forall j | 0 <= j < k :: !Touches(s.orderBy[j].expr, f)
    ensures var h := s.select[i].output;
            var rows := Pair(Keys(scope, f, h), h, f, if firstIsBad then bad else 1, if firstIsBad then 1 else bad);
            var out := Body(Spoiling(f, bad), 0, scope.exact, s, rows);
            |out| > 0 && Cell(out[0], h) == Some(if firstIsBad == s.orderBy[k].descending then 2 else 3)
  {
    var h := s.select[i].output;
    assert h in Fields(s.select[i].expr);
    var u, v := if firstIsBad then bad else 1, if firstIsBad then 1 else bad;
    var rows := Pair(Keys(scope, f, h), h, f, u, v);
    var sorted := Leader(rows, firstIsBad, s.orderBy[k].descending);
    PairIsUnspoiled(s, scope, fields, h, f, u, v, bad);
    if Aggregating(s) {
      GroupPairIsSorted(s, scope, h, f, k, firstIsBad, bad);
      FirstOfGroups(s, required, scope, i, f, rows, sorted, bad);
    } else {
      PairIsSorted(s, scope, h, f, k, firstIsBad, bad);
      FirstOfPlain(s, required, scope, i, f, rows, sorted, bad);
    }
  }

  /** Two rows, one of which has a bad cell that only ORDER BY reads: which one decides
      the row that comes first. */
  lemma OrderIsSeen(s: Query, required: set<Name>, scope: Scope, fields: set<Name>, i: int, j: int) returns (x: Trial)
    requires Accepted(s, scope.names) && Open(s) && Tells(s, required, i) && s.select[i].output in fields
    requires 0 <= j < |s.orderBy| && !ReadsOnly(s.orderBy[j].expr, scope, fields)
    requires s.condition.Some? ==> ReadsOnly(s.condition.value, scope, fields)
    requires s.having.Some? ==> ReadsOnly(s.having.value, scope, fields)
    ensures !Preserved(s, required, scope, fields, x)
  {
    var h := s.select[i].output;
    var bad := BadValue(s);
    assert h in Fields(s.select[i].expr);
    var f := TouchedOutside(s.orderBy[j].expr, scope, fields);
    var k := FirstTouching(s.orderBy, f, j);
    x := Trial(Spoiling(f, bad), Pair(Keys(scope, f, h), h, f, bad, 1), Pair(Keys(scope, f, h), h, f, 1, bad));
    PairsAgree(scope, fields, h, f, bad);
    FirstOfPair(s, required, scope, fields, i, f, k, true, bad);
    FirstOfPair(s, required, scope, fields, i, f, k, false, bad);
    CellIsSeen(s, required, scope, fields, x, h);
  }

  // ---- Exactly the covered bodies ----------------------------------------------------------------------

  /** What the plan sees to by itself: WHERE and GROUP BY, and with groups and DISTINCT
      the whole SELECT list. */
  ghost predicate GroundCovered(s: Query, scope: Scope, fields: set<Name>) {
    && (s.condition.Some? ==> ReadsOnly(s.condition.value, scope, fields)) && AllReadOnly(s.groupBy, scope, fields)
    && (Aggregating(s) && s.distinct ==> SelectReadsOnly(s.select, Outputs(s), scope, fields))
  }

  /** A body whose fields are not all named loses something. */
  lemma UncoveredIsSeen(s: Query, required: set<Name>, scope: Scope, fields: set<Name>, i: int) returns (x: Trial)
    requires Accepted(s, scope.names) && Open(s) && GroundCovered(s, scope, fields)
    requires s.orderBy != [] ==> Tells(s, required, i)
    requires !BodyReadsOnly(s, required, scope, fields)
    ensures !Preserved(s, required, scope, fields, x)
  {
    if s.having.Some? && !ReadsOnly(s.having.value, scope, fields) {
      x := HavingIsSeen(s, required, scope, fields);
    } else if Aggregating(s) {
      if k :| 0 <= k < |s.select| && s.select[k].output in required && !ReadsOnly(s.select[k].expr, scope, fields) {
        x := GroupTermIsSeen(s, required, scope, fields, k);
      } else {
        var j := UncoveredOrder(s, required, scope, fields);
        x := OrderIsSeen(s, required, scope, fields, i, j);
      }
    } else {
      if k :| 0 <= k < |s.select| && s.select[k].output in required && !ExportReadsOnly(s.select, k, scope.exact, scope, fields) {
        x := TermIsSeen(s, required, scope, fields, k);
      } else if j :| 0 <= j < |s.orderBy| && !ReadsOnly(s.orderBy[j].expr, scope, fields) {
        assert HeldReadsOnly(s.select[i], scope.exact, scope, fields);
        x := OrderIsSeen(s, required, scope, fields, i, j);
      } else {
        var k :| 0 <= k < |s.select| && !HeldReadsOnly(s.select[k], scope.exact, scope, fields);
        x := DistinctIsSeen(s, required, scope, fields, k);
      }
    }
  }

  lemma UncoveredOrder(s: Query, required: set<Name>, scope: Scope, fields: set<Name>) returns (j: int)
    requires Aggregating(s) && GroundCovered(s, scope, fields) && !BodyReadsOnly(s, required, scope, fields)
    requires s.having.Some? ==> ReadsOnly(s.having.value, scope, fields)
    requires SelectReadsOnly(s.select, required, scope, fields)
    ensures 0 <= j < |s.orderBy| && !ReadsOnly(s.orderBy[j].expr, scope, fields)
  {
    j :| 0 <= j < |s.orderBy| && !ReadsOnly(s.orderBy[j].expr, scope, fields);
  }

  lemma PreservedWhenRead(s: Query, required: set<Name>, scope: Scope, fields: set<Name>, x: Trial)
    requires Accepted(s, scope.names) && BodyReadsOnly(s, required, scope, fields)
    ensures Preserved(s, required, scope, fields, x)
  {
    if AgreeAll(x.p, x.r, scope, fields) {
      BodyAgrees(x.g, 0, s, x.p, x.r, required, scope, fields);
    }
  }

  /** A resolved body gives the required outputs from the fields alone, for every engine
      and all rows, exactly when it reads no more than the fields. */
  lemma ReadsExactly(s: Query, required: set<Name>, scope: Scope, fields: set<Name>, i: int)
    requires Accepted(s, scope.names) && Open(s) && GroundCovered(s, scope, fields)
    requires s.orderBy != [] ==> Tells(s, required, i)
    ensures BodyReadsOnly(s, required, scope, fields)
            <==> forall x: Trial {:trigger Preserved(s, required, scope, fields, x)} :: Preserved(s, required, scope, fields, x)
  {
    if BodyReadsOnly(s, required, scope, fields) {
      forall x: Trial ensures Preserved(s, required, scope, fields, x) {
        PreservedWhenRead(s, required, scope, fields, x);
      }
    } else {
      var x := UncoveredIsSeen(s, required, scope, fields, i);
      assert !Preserved(s, required, scope, fields, x);
    }
  }

  /** What a caller can check of a body for its plan to be exact. */
  predicate Revealing(q: Query, required: set<Name>, scope: Scope, i: int) {
    var s := ResolveQuery(q);
    && Accepted(s, scope.names) && Open(s)
    && (s.orderBy != [] ==> Tells(s, required, i))
    && (Aggregating(s) && s.distinct ==> forall k | 0 <= k < |s.select| :: Seedless(s.select[k].expr))
  }

  lemma GroundIsPlanned(q: Query, required: set<Name>, scope: Scope, i: int)
    requires Revealing(q, required, scope, i)
    ensures GroundCovered(ResolveQuery(q), scope, Producer(q, required).input)
  {
    var s, input := ResolveQuery(q), Producer(q, required).input;
    if s.condition.Some? {
      NoRandomIsSeedless(s.condition.value);
    }
    forall k | 0 <= k < |s.groupBy| ensures ReadsOnly(s.groupBy[k], scope, input) {
      NoRandomIsSeedless(s.groupBy[k]);
      forall f | f in Fields(s.groupBy[k]) ensures f in ListFields(q.groupBy) {
        assert f in Fields(q.groupBy[k]);
      }
    }
    if Aggregating(s) && s.distinct {
      SelectIsPlanned(q, Outputs(q), scope);
    }
  }

  /** The plan of a producer is exact: it preserves the required outputs, for every engine
      and all input rows that agree on the planned fields, if and only if it covers the
      resolved body. */
  lemma PlanIsExact(q: Query, required: set<Name>, scope: Scope, i: int)
    requires Revealing(q, required, scope, i)
    ensures var s, input := ResolveQuery(q), Producer(q, required).input;
            Covered(q, required, scope)
            <==> forall x: Trial {:trigger Preserved(s, required, scope, input, x)} :: Preserved(s, required, scope, input, x)
  {
    GroundIsPlanned(q, required, scope, i);
    ReadsExactly(ResolveQuery(q), required, scope, Producer(q, required).input, i);
  }
}
