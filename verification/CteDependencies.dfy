/** Backward field requirements through common table expressions, and when the rows of
    the chain do not depend on any other field. */
module CteDependencies {
  import opened Options
  import opened QueryEvaluation

  // ---- The plan -------------------------------------------------------------------

  /** analyse_expression(...).required_fields: a seeded RANDOM names none. */
  function Fields(e: Expr): set<Name> {
    match e
    case Ref(f) => {f}
    case Call(_, l, r) => Fields(l) + Fields(r)
    case Infix(_, l, r) => Fields(l) + Fields(r)
    case Aggregate(_, a) => Fields(a)
    case _ => {}
  }

  function OptionFields(e: Option<Expr>): set<Name> { if e.None? then {} else Fields(e.value) }

  /** Only an unseeded RANDOM is volatile. */
  predicate Deterministic(e: Expr) {
    match e
    case Call(_, l, r) => Deterministic(l) && Deterministic(r)
    case Infix(_, l, r) => Deterministic(l) && Deterministic(r)
    case Aggregate(_, a) => Deterministic(a)
    case Random(_) => false
    case _ => true
  }

  /** getattr(expression, "name", ""): functions have one as well as fields. */
  function NameOf(e: Expr): Option<Name> {
    match e
    case Ref(f) => Some(f)
    case Call(name, _, _) => Some(name)
    case Aggregate(name, _) => Some(name)
    case Random(_) => Some(RANDOM)
    case Seeded(_) => Some(RANDOM)
    case _ => None
  }

  /** The fields of the select terms exported under a name. */
  function OutputFields(select: seq<SelectTerm>, name: Name): set<Name> {
    set i, f | 0 <= i < |select| && select[i].output == name && f in Fields(select[i].expr) :: f
  }

  function OrderFields(q: Query, e: Expr): set<Name> {
    if NameOf(e).Some? && NameOf(e).value in Outputs(q) then OutputFields(q.select, NameOf(e).value) else Fields(e)
  }

  function ListFields(es: seq<Expr>): set<Name> { set i, f | 0 <= i < |es| && f in Fields(es[i]) :: f }

  function AllOrderFields(q: Query): set<Name> {
    set i, f | 0 <= i < |q.orderBy| && f in OrderFields(q, q.orderBy[i].expr) :: f
  }

  /** _non_projection_fields. */
  function NonProjectionFields(q: Query): set<Name> {
    OptionFields(q.condition) + OptionFields(q.having) + ListFields(q.groupBy) + AllOrderFields(q)
  }

  function SelectFields(q: Query, retained: set<Name>): set<Name> {
    set i, f | 0 <= i < |q.select| && q.select[i].output in retained && f in Fields(q.select[i].expr) :: f
  }

  function Volatile(q: Query): set<Name> {
    set i | 0 <= i < |q.select| && !Deterministic(q.select[i].expr) :: q.select[i].output
  }

  datatype Dependency = Dependency(required: set<Name>, retained: set<Name>, pruned: set<Name>, input: set<Name>, applied: bool)

  /** _producer_input_fields. */
  function Producer(q: Query, required: set<Name>): Dependency {
    var outputs := Outputs(q);
    if q.distinct || !(required <= outputs) then
      Dependency(required, outputs, {}, NonProjectionFields(q) + SelectFields(q, outputs), false)
    else
      var retained := required + Volatile(q);
      Dependency(required, retained, outputs - retained, NonProjectionFields(q) + SelectFields(q, retained), true)
  }

  /** What the main query reads of CTE i. */
  function MainReferences(main: Query, i: int): set<Name> {
    if main.from == Cte(i) then NonProjectionFields(main) + SelectFields(main, Outputs(main)) else {}
  }

  /** What the main query and every CTE from k on require of CTE i. */
  function RequiredFrom(ctes: seq<Query>, main: Query, i: int, k: nat): set<Name>
    requires 0 <= i < k <= |ctes|
    decreases |ctes| - i, |ctes| - k
  {
    if k == |ctes| then MainReferences(main, i)
    else RequiredFrom(ctes, main, i, k + 1)
         + if ctes[k].from == Cte(i) then Planned(ctes, main, k).input else {}
  }

  function Planned(ctes: seq<Query>, main: Query, i: int): Dependency
    requires 0 <= i < |ctes|
    decreases |ctes| - i, |ctes|
  {
    Producer(ctes[i], RequiredFrom(ctes, main, i, i + 1))
  }

  /** The plan of one CTE. */
  function PlanOf(ctes: seq<Query>, main: Query, i: int): Dependency
    requires 0 <= i < |ctes|
  {
    Planned(ctes, main, i)
  }

  /** plan_cte_dependencies: one walk from the last CTE to the first. */
  method PlanCteDependencies(ctes: seq<Query>, main: Query) returns (planned: seq<Dependency>)
    requires forall i | 0 <= i < |ctes| :: ctes[i].from.Cte? ==> ctes[i].from.index < i
    ensures |planned| == |ctes|
    ensures forall i | 0 <= i < |ctes| :: planned[i] == Planned(ctes, main, i)
  {
    var required: seq<set<Name>> := seq(|ctes|, i => MainReferences(main, i));
    planned := seq(|ctes|, i => Dependency({}, {}, {}, {}, false));
    var k := |ctes|;
    while k > 0
      invariant 0 <= k <= |ctes| && |required| == |ctes| && |planned| == |ctes|
      invariant forall i | 0 <= i < k :: required[i] == RequiredFrom(ctes, main, i, k)
      invariant forall i | k <= i < |ctes| :: planned[i] == Planned(ctes, main, i)
    {
      k := k - 1;
      planned := planned[k := Producer(ctes[k], required[k])];
      required := Propagate(ctes, main, required, k, planned[k]);
    }
  }

  method Propagate(ctes: seq<Query>, main: Query, required: seq<set<Name>>, k: nat, d: Dependency)
    returns (more: seq<set<Name>>)
    requires k < |ctes| == |required|
    requires forall i | 0 <= i < k :: required[i] == RequiredFrom(ctes, main, i, k + 1)
    requires d == Producer(ctes[k], RequiredFrom(ctes, main, k, k + 1))
    ensures |more| == |ctes| && forall i | 0 <= i < k :: more[i] == RequiredFrom(ctes, main, i, k)
  {
    var source := ctes[k].from;
    more := required;
    if source.Cte? && 0 <= source.index < k {
      more := required[source.index := required[source.index] + d.input];
    }
    forall i | 0 <= i < k ensures more[i] == RequiredFrom(ctes, main, i, k) {
    }
  }

  /** A term is kept: nothing is pruned, somebody requires its output, or it draws. */
  predicate Keeps(q: Query, required: set<Name>, i: int)
    requires 0 <= i < |q.select|
  {
    || q.distinct || !(required <= Outputs(q))
    || q.select[i].output in required || exists j :: 0 <= j < |q.select| && q.select[j].output == q.select[i].output
                                                    && !Deterministic(q.select[j].expr)
  }

  /** An ORDER BY term stands for the select terms exported under its name, if any. */
  predicate OrderNames(q: Query, e: Expr, f: Name) {
    if NameOf(e).Some? && exists i :: 0 <= i < |q.select| && q.select[i].output == NameOf(e).value
    then exists i :: 0 <= i < |q.select| && q.select[i].output == NameOf(e).value && f in Fields(q.select[i].expr)
    else f in Fields(e)
  }

  /** The plan names a field exactly when the condition, HAVING, a grouping, an ordering or a
      kept term does; what is pruned are the outputs of the other terms. */
  lemma PlanNamesExactly(q: Query, required: set<Name>, f: Name)
    ensures f in Producer(q, required).input <==>
              || (q.condition.Some? && f in Fields(q.condition.value))
              || (q.having.Some? && f in Fields(q.having.value))
              || (exists i :: 0 <= i < |q.groupBy| && f in Fields(q.groupBy[i]))
              || (exists i :: 0 <= i < |q.orderBy| && OrderNames(q, q.orderBy[i].expr, f))
              || exists i :: 0 <= i < |q.select| && Keeps(q, required, i) && f in Fields(q.select[i].expr)
    ensures forall i | 0 <= i < |q.select| :: q.select[i].output in Producer(q, required).pruned <==> !Keeps(q, required, i)
    ensures Producer(q, required).required == required
    ensures Producer(q, required).applied <==> !q.distinct && required <= Outputs(q)
  {
    var d := Producer(q, required);
    forall i | 0 <= i < |q.select| ensures q.select[i].output in d.retained <==> Keeps(q, required, i) {
      KeptTerms(q, required, i);
    }
    forall i | 0 <= i < |q.orderBy| ensures f in OrderFields(q, q.orderBy[i].expr) <==> OrderNames(q, q.orderBy[i].expr, f) {
    }
    assert d.input == NonProjectionFields(q) + SelectFields(q, d.retained);
  }

  lemma KeptTerms(q: Query, required: set<Name>, i: int)
    requires 0 <= i < |q.select|
    ensures q.select[i].output in Producer(q, required).retained <==> Keeps(q, required, i)
    ensures q.select[i].output in Producer(q, required).pruned <==> !Keeps(q, required, i)
  {
    assert q.select[i].output in Outputs(q);
    VolatileIs(q, q.select[i].output);
  }

  lemma VolatileIs(q: Query, name: Name)
    ensures name in Volatile(q) <==> exists j :: 0 <= j < |q.select| && q.select[j].output == name && !Deterministic(q.select[j].expr)
  {
  }

  /** Required of a CTE is exactly what the main query names, if it reads the CTE, and what
      the plan of a later CTE that reads it names. */
  lemma {:induction false} RequiredExactly(ctes: seq<Query>, main: Query, i: int, k: nat, f: Name)
    requires 0 <= i < k <= |ctes|
    ensures f in RequiredFrom(ctes, main, i, k) <==>
              || (main.from == Cte(i) && MainNames(main, f))
              || exists j :: k <= j < |ctes| && ctes[j].from == Cte(i) && f in Planned(ctes, main, j).input
    decreases |ctes| - k
  {
    if k < |ctes| {
      RequiredExactly(ctes, main, i, k + 1, f);
    } else {
      MainNamesExactly(main, i, f);
    }
  }

  /** The main query keeps all its terms. */
  predicate MainNames(main: Query, f: Name) {
    || (main.condition.Some? && f in Fields(main.condition.value))
    || (main.having.Some? && f in Fields(main.having.value))
    || (exists i :: 0 <= i < |main.groupBy| && f in Fields(main.groupBy[i]))
    || (exists i :: 0 <= i < |main.orderBy| && OrderNames(main, main.orderBy[i].expr, f))
    || exists i :: 0 <= i < |main.select| && f in Fields(main.select[i].expr)
  }

  lemma MainNamesExactly(main: Query, i: int, f: Name)
    ensures f in MainReferences(main, i) <==> main.from == Cte(i) && MainNames(main, f)
  {
    forall k | 0 <= k < |main.orderBy| ensures f in OrderFields(main, main.orderBy[k].expr) <==> OrderNames(main, main.orderBy[k].expr, f) {
    }
    forall k | 0 <= k < |main.select| ensures main.select[k].output in Outputs(main) {
    }
  }

  // ---- What evaluation reads -----------------------------------------------------------

  /** What is known of input rows: their keys are among the names, or, for the rows of a
      CTE, exactly the names. */
  datatype Scope = Scope(names: set<Name>, exact: bool)

  predicate InScope(r: Row, scope: Scope) {
    r.cells.Keys <= scope.names && (scope.exact ==> r.cells.Keys == scope.names)
  }

  /** The same draw, and the same keys and cells under every name in fields. */
  ghost predicate Agree(a: Row, b: Row, scope: Scope, fields: set<Name>) {
    && a.draw == b.draw && InScope(a, scope) && InScope(b, scope)
    && forall f {:trigger f in fields} | f in fields :: (f in a.cells <==> f in b.cells) && Cell(a, f) == Cell(b, f)
  }

  ghost predicate AgreeAll(p: seq<Row>, q: seq<Row>, scope: Scope, fields: set<Name>) {
    |p| == |q| && forall i | 0 <= i < |p| :: Agree(p[i], q[i], scope, fields)
  }

  ghost predicate AgreeGroups(p: seq<seq<Row>>, q: seq<seq<Row>>, scope: Scope, fields: set<Name>) {
    |p| == |q| && forall i | 0 <= i < |p| :: AgreeAll(p[i], q[i], scope, fields)
  }

  predicate Seedless(e: Expr) {
    match e
    case Call(_, l, r) => Seedless(l) && Seedless(r)
    case Infix(_, l, r) => Seedless(l) && Seedless(r)
    case Aggregate(_, a) => Seedless(a)
    case Seeded(_) => false
    case _ => true
  }

  /** The expression reads no more than the fields; a seeded draw may read every cell. */
  predicate ReadsOnly(e: Expr, scope: Scope, fields: set<Name>) {
    Fields(e) <= fields && (Seedless(e) || scope.names <= fields)
  }

  lemma SameCells(a: Row, b: Row, scope: Scope, fields: set<Name>)
    requires Agree(a, b, scope, fields) && scope.names <= fields
    ensures a == b
  {
    forall f ensures f in a.cells <==> f in b.cells {
      assert f in scope.names ==> f in fields;
    }
    forall f | f in a.cells ensures a.cells[f] == b.cells[f] {
      assert f in fields && Cell(a, f) == Cell(b, f);
    }
    assert a.cells == b.cells;
  }

  lemma {:induction false} EvalAgrees(g: Engine, e: Expr, a: Row, b: Row, scope: Scope, fields: set<Name>)
    requires Agree(a, b, scope, fields) && ReadsOnly(e, scope, fields)
    ensures Eval(g, e, a) == Eval(g, e, b)
  {
    match e
    case Call(_, l, r) =>
      EvalAgrees(g, l, a, b, scope, fields);
      EvalAgrees(g, r, a, b, scope, fields);
    case Infix(_, l, r) =>
      EvalAgrees(g, l, a, b, scope, fields);
      EvalAgrees(g, r, a, b, scope, fields);
    case Seeded(_) => SameCells(a, b, scope, fields);
    case _ =>
  }

  lemma RowsEvalAgree(g: Engine, e: Expr, p: seq<Row>, q: seq<Row>, scope: Scope, fields: set<Name>)
    requires AgreeAll(p, q, scope, fields) && ReadsOnly(e, scope, fields)
    ensures EvalRows(g, e, p) == EvalRows(g, e, q)
  {
    forall i | 0 <= i < |p| ensures Eval(g, e, p[i]) == Eval(g, e, q[i]) {
      EvalAgrees(g, e, p[i], q[i], scope, fields);
    }
  }

  lemma {:induction false} GroupEvalAgrees(g: Engine, e: Expr, p: seq<Row>, q: seq<Row>, scope: Scope, fields: set<Name>)
    requires AgreeAll(p, q, scope, fields) && ReadsOnly(e, scope, fields)
    ensures EvalGroup(g, e, p) == EvalGroup(g, e, q)
  {
    match e
    case Call(_, l, r) =>
      GroupEvalAgrees(g, l, p, q, scope, fields);
      GroupEvalAgrees(g, r, p, q, scope, fields);
    case Infix(_, l, r) =>
      GroupEvalAgrees(g, l, p, q, scope, fields);
      GroupEvalAgrees(g, r, p, q, scope, fields);
    case Aggregate(_, a) =>
      RowsEvalAgree(g, a, p, q, scope, fields);
    case _ =>
      if p != [] {
        EvalAgrees(g, e, p[0], q[0], scope, fields);
      }
  }

  lemma GroupsEvalAgree(g: Engine, e: Expr, p: seq<seq<Row>>, q: seq<seq<Row>>, scope: Scope, fields: set<Name>)
    requires AgreeGroups(p, q, scope, fields) && ReadsOnly(e, scope, fields)
    ensures EvalGroups(g, e, p) == EvalGroups(g, e, q)
  {
    forall i | 0 <= i < |p| ensures EvalGroup(g, e, p[i]) == EvalGroup(g, e, q[i]) {
      GroupEvalAgrees(g, e, p[i], q[i], scope, fields);
    }
  }

  ghost predicate AllReadOnly(es: seq<Expr>, scope: Scope, fields: set<Name>) {
    forall i | 0 <= i < |es| :: ReadsOnly(es[i], scope, fields)
  }

  lemma KeysAgree(g: Engine, es: seq<Expr>, p: seq<Row>, q: seq<Row>, scope: Scope, fields: set<Name>)
    requires AgreeAll(p, q, scope, fields) && AllReadOnly(es, scope, fields)
    ensures KeysOf(g, es, p) == KeysOf(g, es, q)
  {
    forall i | 0 <= i < |p| ensures KeyOf(g, es, p[i]) == KeyOf(g, es, q[i]) {
      forall j | 0 <= j < |es| ensures Eval(g, es[j], p[i]) == Eval(g, es[j], q[i]) {
        EvalAgrees(g, es[j], p[i], q[i], scope, fields);
      }
    }
  }

  lemma FilterAgrees(g: Engine, e: Option<Expr>, p: seq<Row>, q: seq<Row>, scope: Scope, fields: set<Name>)
    requires AgreeAll(p, q, scope, fields) && (e.Some? ==> ReadsOnly(e.value, scope, fields))
    ensures AgreeAll(Filter(g, e, p), Filter(g, e, q), scope, fields)
  {
    if e.Some? {
      RowsEvalAgree(g, e.value, p, q, scope, fields);
    }
  }

  lemma FilterGroupsAgrees(g: Engine, e: Option<Expr>, p: seq<seq<Row>>, q: seq<seq<Row>>, scope: Scope, fields: set<Name>)
    requires AgreeGroups(p, q, scope, fields) && (e.Some? ==> ReadsOnly(e.value, scope, fields))
    ensures AgreeGroups(FilterGroups(g, e, p), FilterGroups(g, e, q), scope, fields)
  {
    if e.Some? {
      GroupsEvalAgree(g, e.value, p, q, scope, fields);
    }
  }

  ghost predicate OrderReadsOnly(terms: seq<OrderTerm>, scope: Scope, fields: set<Name>) {
    forall i | 0 <= i < |terms| :: ReadsOnly(terms[i].expr, scope, fields)
  }

  lemma {:induction false} SortAgrees(g: Engine, terms: seq<OrderTerm>, p: seq<Row>, q: seq<Row>, scope: Scope, fields: set<Name>)
    requires AgreeAll(p, q, scope, fields) && OrderReadsOnly(terms, scope, fields)
    ensures AgreeAll(Sort(g, terms, p), Sort(g, terms, q), scope, fields)
  {
    if terms != [] {
      var t, rest := terms[|terms| - 1], terms[..|terms| - 1];
      RowsEvalAgree(g, t.expr, p, q, scope, fields);
      var positions := OrderPositions(g, EvalRows(g, t.expr, p), t.descending);
      SortAgrees(g, rest, Pick(p, positions), Pick(q, positions), scope, fields);
    }
  }

  lemma {:induction false} SortGroupsAgrees(g: Engine, terms: seq<OrderTerm>, p: seq<seq<Row>>, q: seq<seq<Row>>,
                                            scope: Scope, fields: set<Name>)
    requires AgreeGroups(p, q, scope, fields) && OrderReadsOnly(terms, scope, fields)
    ensures AgreeGroups(SortGroups(g, terms, p), SortGroups(g, terms, q), scope, fields)
  {
    if terms != [] {
      var t, rest := terms[|terms| - 1], terms[..|terms| - 1];
      GroupsEvalAgree(g, t.expr, p, q, scope, fields);
      var positions := OrderPositions(g, EvalGroups(g, t.expr, p), t.descending);
      SortGroupsAgrees(g, rest, Pick(p, positions), Pick(q, positions), scope, fields);
    }
  }

  lemma GroupsAgree(g: Engine, keyed: seq<Expr>, p: seq<Row>, q: seq<Row>, scope: Scope, fields: set<Name>)
    requires AgreeAll(p, q, scope, fields) && AllReadOnly(keyed, scope, fields)
    ensures AgreeGroups(Groups(g, keyed, p), Groups(g, keyed, q), scope, fields)
  {
    if keyed != [] {
      KeysAgree(g, keyed, p, q, scope, fields);
    }
  }

  // ---- What a select term reads ------------------------------------------------------------

  /** The fields decide the value of a select term on an input row: its own column, where
      the row certainly has it, else the expression, and whether there is a column. */
  predicate HeldReadsOnly(t: SelectTerm, marked: bool, scope: Scope, fields: set<Name>) {
    if !(marked || ContainsRandom(t.expr)) || t.output !in scope.names then ReadsOnly(t.expr, scope, fields)
    else t.output in fields && (scope.exact || ReadsOnly(t.expr, scope, fields))
  }

  /** The term is evaluated, with the random outputs of its row in sight. */
  predicate SeesDraws(t: SelectTerm, marked: bool, scope: Scope) {
    !ContainsRandom(t.expr) && !(marked && t.output in scope.names)
  }

  /** The fields decide the exported value of term i. */
  ghost predicate ExportReadsOnly(select: seq<SelectTerm>, i: int, marked: bool, scope: Scope, fields: set<Name>)
    requires 0 <= i < |select|
  {
    && HeldReadsOnly(select[i], marked, scope, fields)
    && (SeesDraws(select[i], marked, scope) ==>
          forall j | 0 <= j < |select| && ContainsRandom(select[j].expr) && select[j].output in Fields(select[i].expr) ::
            HeldReadsOnly(select[j], false, scope, fields))
  }

  lemma HeldAgrees(g: Engine, marked: bool, t: SelectTerm, a: Row, b: Row, scope: Scope, fields: set<Name>)
    requires Agree(a, b, scope, fields) && HeldReadsOnly(t, marked, scope, fields) && !ContainsAggregate(t.expr)
    requires marked ==> scope.exact
    ensures Held(g, marked, t, a) == Held(g, marked, t, b)
  {
    if ReadsOnly(t.expr, scope, fields) {
      EvalAgrees(g, t.expr, a, b, scope, fields);
    }
    if t.output in scope.names && t.output in fields {
      assert Cell(a, t.output) == Cell(b, t.output);
    }
  }

  lemma HeldKeysAgree(g: Engine, marked: bool, select: seq<SelectTerm>, p: seq<Row>, q: seq<Row>, scope: Scope, fields: set<Name>)
    requires AgreeAll(p, q, scope, fields) && (marked ==> scope.exact)
    requires forall i | 0 <= i < |select| :: HeldReadsOnly(select[i], marked, scope, fields) && !ContainsAggregate(select[i].expr)
    ensures HeldKeys(g, marked, select, p) == HeldKeys(g, marked, select, q)
  {
    forall k | 0 <= k < |p| ensures HeldKey(g, marked, select, p[k]) == HeldKey(g, marked, select, q[k]) {
      forall i | 0 <= i < |select| ensures Held(g, marked, select[i], p[k]) == Held(g, marked, select[i], q[k]) {
        HeldAgrees(g, marked, select[i], p[k], q[k], scope, fields);
      }
    }
  }

  predicate DistinctOutputs(select: seq<SelectTerm>) {
    forall i, j | 0 <= i < j < |select| :: select[i].output != select[j].output
  }

  /** After the first n draws: a random output is what the row holds of it, every other
      cell is the row's own. */
  lemma {:induction false} DrawsAt(g: Engine, select: seq<SelectTerm>, n: nat, r: Row, f: Name)
    requires n <= |select| && DistinctOutputs(select)
    ensures var w := WithDraws(g, select, n, r);
            && w.draw == r.draw
            && (forall j | 0 <= j < n && ContainsRandom(select[j].expr) && select[j].output == f ::
                  f in w.cells && w.cells[f] == Held(g, false, select[j], r))
            && ((forall j | 0 <= j < n && ContainsRandom(select[j].expr) :: select[j].output != f) ==>
                  (f in w.cells <==> f in r.cells) && Cell(w, f) == Cell(r, f))
  {
    if n > 0 {
      DrawsAt(g, select, n - 1, r, f);
    }
  }

  lemma DrawnCellAgrees(g: Engine, select: seq<SelectTerm>, a: Row, b: Row, scope: Scope, fields: set<Name>, f: Name)
    requires DistinctOutputs(select) && Agree(a, b, scope, fields) && f in fields
    requires forall j | 0 <= j < |select| :: !ContainsAggregate(select[j].expr)
    requires forall j | 0 <= j < |select| && ContainsRandom(select[j].expr) && select[j].output == f ::
               HeldReadsOnly(select[j], false, scope, fields)
    ensures var v, w := WithDraws(g, select, |select|, a), WithDraws(g, select, |select|, b);
            (f in v.cells <==> f in w.cells) && Cell(v, f) == Cell(w, f)
  {
    DrawsAt(g, select, |select|, a, f);
    DrawsAt(g, select, |select|, b, f);
    if j :| 0 <= j < |select| && ContainsRandom(select[j].expr) && select[j].output == f {
      HeldAgrees(g, false, select[j], a, b, scope, fields);
    }
  }

  lemma {:induction false} SeedlessEval(g: Engine, e: Expr, a: Row, b: Row)
    requires Seedless(e) && a.draw == b.draw && forall f | f in Fields(e) :: Cell(a, f) == Cell(b, f)
    ensures Eval(g, e, a) == Eval(g, e, b)
  {
    match e
    case Call(_, l, r) =>
      SeedlessEval(g, l, a, b);
      SeedlessEval(g, r, a, b);
    case Infix(_, l, r) =>
      SeedlessEval(g, l, a, b);
      SeedlessEval(g, r, a, b);
    case _ =>
  }

  lemma {:induction false} NoRandomIsSeedless(e: Expr)
    requires !ContainsRandom(e)
    ensures Seedless(e)
  {
    match e
    case Call(_, l, r) =>
      NoRandomIsSeedless(l);
      NoRandomIsSeedless(r);
    case Infix(_, l, r) =>
      NoRandomIsSeedless(l);
      NoRandomIsSeedless(r);
    case Aggregate(_, a) => NoRandomIsSeedless(a);
    case _ =>
  }

  lemma ExportAgrees(g: Engine, marked: bool, select: seq<SelectTerm>, i: int, a: Row, b: Row, scope: Scope, fields: set<Name>)
    requires 0 <= i < |select| && DistinctOutputs(select) && Agree(a, b, scope, fields) && (marked ==> scope.exact)
    requires forall j | 0 <= j < |select| :: !ContainsAggregate(select[j].expr)
    requires ExportReadsOnly(select, i, marked, scope, fields)
    ensures Held(g, marked, select[i], WithDraws(g, select, |select|, a)) == Held(g, marked, select[i], WithDraws(g, select, |select|, b))
  {
    var t := select[i];
    var v, w := WithDraws(g, select, |select|, a), WithDraws(g, select, |select|, b);
    DrawsAt(g, select, |select|, a, t.output);
    DrawsAt(g, select, |select|, b, t.output);
    if SeesDraws(t, marked, scope) {
      NoRandomIsSeedless(t.expr);
      forall f | f in Fields(t.expr) ensures Cell(v, f) == Cell(w, f) {
        DrawnCellAgrees(g, select, a, b, scope, fields, f);
      }
      SeedlessEval(g, t.expr, v, w);
    } else if ContainsRandom(t.expr) {
      if marked && t.output in scope.names {
        assert Cell(a, t.output) == Cell(b, t.output);
      }
      HeldAgrees(g, false, t, a, b, scope, fields);
    } else {
      assert Cell(a, t.output) == Cell(b, t.output);
    }
  }

  // ---- A body ------------------------------------------------------------------------------

  /** Two lists of select values that agree on every term exported under a required name. */
  ghost predicate ValuesAgree(select: seq<SelectTerm>, p: seq<seq<Value>>, q: seq<seq<Value>>, required: set<Name>) {
    |p| == |q| && forall k | 0 <= k < |p| :: KeyAgrees(select, p[k], q[k], required)
  }

  ghost predicate KeyAgrees(select: seq<SelectTerm>, a: seq<Value>, b: seq<Value>, required: set<Name>) {
    |a| == |b| == |select| && forall i | 0 <= i < |a| && select[i].output in required :: a[i] == b[i]
  }

  ghost predicate SelectReadsOnly(select: seq<SelectTerm>, required: set<Name>, scope: Scope, fields: set<Name>) {
    forall i | 0 <= i < |select| && select[i].output in required :: ReadsOnly(select[i].expr, scope, fields)
  }

  lemma GroupSelectedAgree(g: Engine, select: seq<SelectTerm>, p: seq<seq<Row>>, q: seq<seq<Row>>,
                           required: set<Name>, scope: Scope, fields: set<Name>)
    requires AgreeGroups(p, q, scope, fields) && SelectReadsOnly(select, required, scope, fields)
    ensures ValuesAgree(select, GroupKeys(g, SelectList(select), p), GroupKeys(g, SelectList(select), q), required)
  {
    forall k, i | 0 <= k < |p| && 0 <= i < |select| && select[i].output in required
      ensures EvalGroup(g, select[i].expr, p[k]) == EvalGroup(g, select[i].expr, q[k])
    {
      GroupEvalAgrees(g, select[i].expr, p[k], q[k], scope, fields);
    }
  }

  lemma {:induction false} ExportedAgree(select: seq<SelectTerm>, a: seq<Value>, b: seq<Value>, n: nat, required: set<Name>, f: Name)
    requires KeyAgrees(select, a, b, required) && n <= |select| && f in required
    ensures var x, y := Export(select, a, n), Export(select, b, n);
            (f in x <==> f in y) && (f in x ==> x[f] == y[f])
  {
    if n > 0 {
      ExportedAgree(select, a, b, n - 1, required, f);
    }
  }

  lemma {:induction false} ExportedNames(select: seq<SelectTerm>, values: seq<Value>, n: nat)
    requires n <= |select| == |values|
    ensures Export(select, values, n).Keys == set i | 0 <= i < n :: select[i].output
  {
    if n > 0 {
      ExportedNames(select, values, n - 1);
    }
  }

  lemma MaterialisedAgree(g: Engine, id: int, q: Query, p: seq<seq<Value>>, r: seq<seq<Value>>, required: set<Name>)
    requires ValuesAgree(q.select, p, r, required)
    ensures AgreeAll(Materialise(g, id, ExportAll(q.select, p)), Materialise(g, id, ExportAll(q.select, r)),
                     Scope(Outputs(q), true), required)
  {
    forall k | 0 <= k < |p|
      ensures Agree(Materialise(g, id, ExportAll(q.select, p))[k], Materialise(g, id, ExportAll(q.select, r))[k],
                    Scope(Outputs(q), true), required)
    {
      assert KeyAgrees(q.select, p[k], r[k], required);
      ExportedNames(q.select, p[k], |q.select|);
      ExportedNames(q.select, r[k], |q.select|);
      forall f | f in required
        ensures var x, y := Export(q.select, p[k], |q.select|), Export(q.select, r[k], |q.select|);
                (f in x <==> f in y) && (f in x ==> x[f] == y[f])
      {
        ExportedAgree(q.select, p[k], r[k], |q.select|, required, f);
      }
    }
  }

  /** A resolved body reads no more than the fields, apart from its SELECT list. */
  ghost predicate ClausesReadOnly(q: Query, scope: Scope, fields: set<Name>) {
    && (q.condition.Some? ==> ReadsOnly(q.condition.value, scope, fields))
    && (q.having.Some? ==> ReadsOnly(q.having.value, scope, fields))
    && AllReadOnly(q.groupBy, scope, fields) && OrderReadsOnly(q.orderBy, scope, fields)
  }

  /** The fields decide the required outputs; with DISTINCT, every output decides which
      rows there are.  keyed and exported tell which select terms find their own columns. */
  ghost predicate SelectCovered(q: Query, keyed: bool, exported: bool, required: set<Name>, scope: Scope, fields: set<Name>) {
    if Aggregating(q) then SelectReadsOnly(q.select, if q.distinct then Outputs(q) + required else required, scope, fields)
    else
      && (q.distinct ==> forall i | 0 <= i < |q.select| :: HeldReadsOnly(q.select[i], keyed, scope, fields))
      && forall i | 0 <= i < |q.select| && q.select[i].output in required ::
           ExportReadsOnly(q.select, i, exported, scope, fields)
  }

  /** A resolved body reads no more than the fields to produce the required outputs. */
  ghost predicate BodyReadsOnly(q: Query, required: set<Name>, scope: Scope, fields: set<Name>) {
    ClausesReadOnly(q, scope, fields) && SelectCovered(q, scope.exact, scope.exact, required, scope, fields)
  }

  lemma FinishedRowsAgree(g: Engine, marked: bool, q: Query, p: seq<Row>, r: seq<Row>, scope: Scope, fields: set<Name>)
    requires !Aggregating(q) && AgreeAll(p, r, scope, fields) && (marked ==> scope.exact)
    requires q.distinct ==> forall i | 0 <= i < |q.select| :: HeldReadsOnly(q.select[i], marked, scope, fields)
    ensures AgreeAll(FinishedRows(g, marked, q, p), FinishedRows(g, marked, q, r), scope, fields)
  {
    if q.distinct {
      HeldKeysAgree(g, marked, q.select, p, r, scope, fields);
      var firsts := FirstPositions(HeldKeys(g, marked, q.select, p));
      SliceAgrees(Pick(p, firsts), Pick(r, firsts), q.offset, q.limit, scope, fields);
    } else {
      SliceAgrees(p, r, q.offset, q.limit, scope, fields);
    }
  }

  lemma SliceAgrees(p: seq<Row>, r: seq<Row>, offset: nat, limit: Option<int>, scope: Scope, fields: set<Name>)
    requires AgreeAll(p, r, scope, fields)
    ensures AgreeAll(Slice(p, offset, limit), Slice(r, offset, limit), scope, fields)
  {
  }

  lemma KeptRowsAgree(g: Engine, marked: bool, q: Query, p: seq<Row>, r: seq<Row>, scope: Scope, fields: set<Name>)
    requires !Aggregating(q) && AgreeAll(p, r, scope, fields) && ClausesReadOnly(q, scope, fields) && (marked ==> scope.exact)
    requires q.distinct ==> forall i | 0 <= i < |q.select| :: HeldReadsOnly(q.select[i], marked, scope, fields)
    ensures AgreeAll(KeptRows(g, marked, q, p), KeptRows(g, marked, q, r), scope, fields)
  {
    FilterAgrees(g, q.condition, p, r, scope, fields);
    SortAgrees(g, q.orderBy, Filter(g, q.condition, p), Filter(g, q.condition, r), scope, fields);
    FinishedRowsAgree(g, marked, q, Sort(g, q.orderBy, Filter(g, q.condition, p)), Sort(g, q.orderBy, Filter(g, q.condition, r)),
                      scope, fields);
  }

  lemma PlainValuesAgree(g: Engine, keyed: bool, exported: bool, q: Query, p: seq<Row>, r: seq<Row>,
                         required: set<Name>, scope: Scope, fields: set<Name>)
    requires !Aggregating(q) && AgreeAll(p, r, scope, fields) && DistinctOutputs(q.select)
    requires (keyed || exported) ==> scope.exact
    requires ClausesReadOnly(q, scope, fields) && SelectCovered(q, keyed, exported, required, scope, fields)
    ensures ValuesAgree(q.select, HeldKeys(g, exported, q.select, PlainRows(g, keyed, q, p)),
                        HeldKeys(g, exported, q.select, PlainRows(g, keyed, q, r)), required)
  {
    KeptRowsAgree(g, keyed, q, p, r, scope, fields);
    var a, b := KeptRows(g, keyed, q, p), KeptRows(g, keyed, q, r);
    forall k, i | 0 <= k < |a| && 0 <= i < |q.select| && q.select[i].output in required
      ensures Held(g, exported, q.select[i], Drawn(g, q.select, a)[k]) == Held(g, exported, q.select[i], Drawn(g, q.select, b)[k])
    {
      assert Agree(a[k], b[k], scope, fields);
      ExportAgrees(g, exported, q.select, i, a[k], b[k], scope, fields);
    }
  }

  lemma SurvivorsAgree(g: Engine, q: Query, p: seq<Row>, r: seq<Row>, scope: Scope, fields: set<Name>)
    requires AgreeAll(p, r, scope, fields) && ClausesReadOnly(q, scope, fields)
    ensures AgreeGroups(SurvivingGroups(g, q, p), SurvivingGroups(g, q, r), scope, fields)
  {
    GroupsAgree(g, q.groupBy, p, r, scope, fields);
    FilterGroupsAgrees(g, q.having, Groups(g, q.groupBy, p), Groups(g, q.groupBy, r), scope, fields);
    SortGroupsAgrees(g, q.orderBy, FilterGroups(g, q.having, Groups(g, q.groupBy, p)),
                     FilterGroups(g, q.having, Groups(g, q.groupBy, r)), scope, fields);
  }

  lemma FinishedAgree(q: Query, p: seq<seq<Value>>, r: seq<seq<Value>>, required: set<Name>)
    requires ValuesAgree(q.select, p, r, if q.distinct then Outputs(q) + required else required)
    ensures ValuesAgree(q.select, Finished(q, p), Finished(q, r), required)
  {
    var wanted := if q.distinct then Outputs(q) + required else required;
    if q.distinct {
      EqualKeys(q, p, r, wanted);
    }
    assert forall k | 0 <= k < |p| :: KeyAgrees(q.select, p[k], r[k], wanted);
  }

  lemma EqualKeys(q: Query, p: seq<seq<Value>>, r: seq<seq<Value>>, wanted: set<Name>)
    requires ValuesAgree(q.select, p, r, wanted) && Outputs(q) <= wanted
    ensures p == r
  {
    forall k | 0 <= k < |p| ensures p[k] == r[k] {
      assert KeyAgrees(q.select, p[k], r[k], wanted);
      forall i | 0 <= i < |q.select| ensures p[k][i] == r[k][i] {
        assert q.select[i].output in Outputs(q);
      }
    }
  }

  lemma AggregateValuesAgree(g: Engine, q: Query, p: seq<Row>, r: seq<Row>, required: set<Name>, scope: Scope, fields: set<Name>)
    requires Aggregating(q) && AgreeAll(p, r, scope, fields) && ClausesReadOnly(q, scope, fields)
    requires SelectReadsOnly(q.select, if q.distinct then Outputs(q) + required else required, scope, fields)
    ensures ValuesAgree(q.select, AggregateValues(g, q, p), AggregateValues(g, q, r), required)
  {
    var es := SelectList(q.select);
    var kept, kept' := Filter(g, q.condition, p), Filter(g, q.condition, r);
    FilterAgrees(g, q.condition, p, r, scope, fields);
    SurvivorsAgree(g, q, kept, kept', scope, fields);
    var groups, groups' := SurvivingGroups(g, q, kept), SurvivingGroups(g, q, kept');
    var wanted := if q.distinct then Outputs(q) + required else required;
    GroupSelectedAgree(g, q.select, groups, groups', wanted, scope, fields);
    FinishedAgree(q, GroupKeys(g, es, groups), GroupKeys(g, es, groups'), required);
  }

  /** Rows that agree on what a body reads give rows that agree on the required outputs. */
  lemma BodyAgrees(g: Engine, id: int, q: Query, p: seq<Row>, r: seq<Row>, required: set<Name>, scope: Scope, fields: set<Name>)
    requires AgreeAll(p, r, scope, fields) && BodyReadsOnly(q, required, scope, fields) && DistinctOutputs(q.select)
    ensures AgreeAll(Body(g, id, scope.exact, q, p), Body(g, id, scope.exact, q, r), Scope(Outputs(q), true), required)
  {
    if Aggregating(q) {
      AggregateValuesAgree(g, q, p, r, required, scope, fields);
      MaterialisedAgree(g, id, q, AggregateValues(g, q, p), AggregateValues(g, q, r), required);
    } else {
      PlainValuesAgree(g, scope.exact, scope.exact, q, p, r, required, scope, fields);
      MaterialisedAgree(g, id, q, HeldKeys(g, scope.exact, q.select, PlainRows(g, scope.exact, q, p)),
                        HeldKeys(g, scope.exact, q.select, PlainRows(g, scope.exact, q, r)), required);
    }
  }

  /** The main body, whose rows are written without their marks. */
  lemma WrittenAgrees(g: Engine, q: Query, p: seq<Row>, r: seq<Row>, scope: Scope, fields: set<Name>)
    requires AgreeAll(p, r, scope, fields) && ClausesReadOnly(q, scope, fields) && DistinctOutputs(q.select)
    requires SelectCovered(q, scope.exact, false, Outputs(q), scope, fields)
    ensures Written(g, scope.exact, q, p) == Written(g, scope.exact, q, r)
  {
    if Aggregating(q) {
      AggregateValuesAgree(g, q, p, r, Outputs(q), scope, fields);
      EqualKeys(q, AggregateValues(g, q, p), AggregateValues(g, q, r), Outputs(q));
    } else {
      PlainValuesAgree(g, scope.exact, false, q, p, r, Outputs(q), scope, fields);
      EqualKeys(q, HeldKeys(g, false, q.select, PlainRows(g, scope.exact, q, p)),
                HeldKeys(g, false, q.select, PlainRows(g, scope.exact, q, r)), Outputs(q));
    }
  }

  // ---- The chain --------------------------------------------------------------------------

  predicate WellFormed(ctes: seq<Query>, main: Query) {
    && (forall i | 0 <= i < |ctes| :: (ctes[i].from.Cte? ==> 0 <= ctes[i].from.index < i) && DistinctOutputs(ctes[i].select))
    && (main.from.Cte? ==> 0 <= main.from.index < |ctes|) && DistinctOutputs(main.select)
  }

  /** What is known of the rows a body reads: a record has some of the known keys, a CTE
      row has exactly its outputs. */
  function ScopeOf(ctes: seq<Query>, known: set<Name>, from: Relation): Scope {
    if from.Cte? && 0 <= from.index < |ctes| then Scope(Outputs(ctes[from.index]), true) else Scope(known, false)
  }

  /** The fields the plan names for a producer are all that its resolved body reads. */
  ghost predicate Covered(q: Query, required: set<Name>, scope: Scope) {
    BodyReadsOnly(ResolveQuery(q), required, scope, Producer(q, required).input)
  }

  function MainFields(main: Query): set<Name> { NonProjectionFields(main) + SelectFields(main, Outputs(main)) }

  ghost predicate MainCovered(main: Query, scope: Scope) {
    && ClausesReadOnly(ResolveQuery(main), scope, MainFields(main))
    && SelectCovered(ResolveQuery(main), scope.exact, false, Outputs(main), scope, MainFields(main))
  }

  ghost predicate AllCovered(ctes: seq<Query>, main: Query, known: set<Name>) {
    && (forall i | 0 <= i < |ctes| :: Covered(ctes[i], PlanOf(ctes, main, i).required, ScopeOf(ctes, known, ctes[i].from)))
    && MainCovered(main, ScopeOf(ctes, known, main.from))
  }

  function PhysicalInput(ctes: seq<Query>, main: Query, i: int): set<Name>
    requires 0 <= i < |ctes|
  {
    if ctes[i].from.Physical? then PlanOf(ctes, main, i).input else {}
  }

  /** The fields the plan asks of physical records. */
  function PhysicalFields(ctes: seq<Query>, main: Query): set<Name> {
    (set i, f | 0 <= i < |ctes| && f in PhysicalInput(ctes, main, i) :: f)
    + if main.from.Physical? then MainFields(main) else {}
  }

  /** Requirements reach the producer: whatever a consumer's plan reads of CTE i is
      required of it. */
  lemma {:induction false} RequirementsPropagate(ctes: seq<Query>, main: Query, i: int, k: nat, j: int)
    requires 0 <= i < k <= j < |ctes| && ctes[j].from == Cte(i)
    ensures PlanOf(ctes, main, j).input <= RequiredFrom(ctes, main, i, k)
    decreases |ctes| - k
  {
    if k < j {
      RequirementsPropagate(ctes, main, i, k + 1, j);
    }
  }

  lemma {:induction false} MainPropagates(ctes: seq<Query>, main: Query, i: int, k: nat)
    requires 0 <= i < k <= |ctes|
    ensures MainReferences(main, i) <= RequiredFrom(ctes, main, i, k)
    decreases |ctes| - k
  {
    if k < |ctes| {
      MainPropagates(ctes, main, i, k + 1);
    }
  }

  lemma FewerFields(p: seq<Row>, r: seq<Row>, scope: Scope, more: set<Name>, fewer: set<Name>)
    requires AgreeAll(p, r, scope, more) && fewer <= more
    ensures AgreeAll(p, r, scope, fewer)
  {
    assert forall i | 0 <= i < |p| :: Agree(p[i], r[i], scope, more);
  }

  lemma InputIsHeld(ctes: seq<Query>, main: Query, i: int, held: set<Name>)
    requires WellFormed(ctes, main) && 0 <= i < |ctes|
    requires held == match ctes[i].from
                     case Physical => PhysicalFields(ctes, main)
                     case Cte(j) => PlanOf(ctes, main, j).required
    ensures PlanOf(ctes, main, i).input <= held
  {
    if ctes[i].from.Cte? {
      RequirementsPropagate(ctes, main, ctes[i].from.index, ctes[i].from.index + 1, i);
    } else {
      forall f | f in PlanOf(ctes, main, i).input ensures f in PhysicalFields(ctes, main) {
        assert f in PhysicalInput(ctes, main, i);
      }
    }
  }

  lemma CteBodyAgrees(g: Engine, i: int, q: Query, d: Dependency, input: seq<Row>, input': seq<Row>, scope: Scope, held: set<Name>)
    requires AgreeAll(input, input', scope, held) && d.input <= held && DistinctOutputs(q.select)
    requires BodyReadsOnly(ResolveQuery(q), d.required, scope, d.input)
    ensures AgreeAll(Body(g, i, scope.exact, ResolveQuery(q), input), Body(g, i, scope.exact, ResolveQuery(q), input'),
                     Scope(Outputs(q), true), d.required)
  {
    FewerFields(input, input', scope, held, d.input);
    BodyAgrees(g, i, ResolveQuery(q), input, input', d.required, scope, d.input);
    assert Outputs(ResolveQuery(q)) == Outputs(q);
  }

  /** Every CTE materialises the same rows on the planned physical fields, up to the
      outputs nobody requires. */
  lemma {:induction false} CteAgrees(g: Engine, ctes: seq<Query>, main: Query, known: set<Name>, p: seq<Row>, r: seq<Row>,
                                     i: int, d: Dependency)
    requires WellFormed(ctes, main) && AllCovered(ctes, main, known) && 0 <= i < |ctes| && d == PlanOf(ctes, main, i)
    requires AgreeAll(p, r, Scope(known, false), PhysicalFields(ctes, main))
    ensures AgreeAll(CteRows(g, ctes, p, i), CteRows(g, ctes, r, i), Scope(Outputs(ctes[i]), true), d.required)
    decreases i
  {
    var scope := ScopeOf(ctes, known, ctes[i].from);
    assert Covered(ctes[i], d.required, scope);
    if ctes[i].from.Cte? {
      var j := ctes[i].from.index;
      var e := PlanOf(ctes, main, j);
      CteAgrees(g, ctes, main, known, p, r, j, e);
      InputIsHeld(ctes, main, i, e.required);
      CteBodyAgrees(g, i, ctes[i], d, CteRows(g, ctes, p, j), CteRows(g, ctes, r, j), scope, e.required);
    } else {
      InputIsHeld(ctes, main, i, PhysicalFields(ctes, main));
      CteBodyAgrees(g, i, ctes[i], d, p, r, scope, PhysicalFields(ctes, main));
    }
  }

  /** Projection pruning preserves results: where the plan covers every body, records
      that agree on the planned physical fields give the same answer, row for row. */
  lemma PruningPreservesAnswer(g: Engine, ctes: seq<Query>, main: Query, known: set<Name>, p: seq<Row>, r: seq<Row>)
    requires WellFormed(ctes, main) && AllCovered(ctes, main, known)
    requires AgreeAll(p, r, Scope(known, false), PhysicalFields(ctes, main))
    ensures Answer(g, ctes, main, p) == Answer(g, ctes, main, r)
  {
    var scope := ScopeOf(ctes, known, main.from);
    if main.from.Cte? {
      var j := main.from.index;
      var d := PlanOf(ctes, main, j);
      CteAgrees(g, ctes, main, known, p, r, j, d);
      MainInputIsHeld(ctes, main, j);
      MainAgrees(g, main, CteRows(g, ctes, p, j), CteRows(g, ctes, r, j), scope, d.required);
    } else {
      MainAgrees(g, main, p, r, scope, PhysicalFields(ctes, main));
    }
  }

  lemma MainInputIsHeld(ctes: seq<Query>, main: Query, j: int)
    requires 0 <= j < |ctes| && main.from == Cte(j)
    ensures MainFields(main) <= PlanOf(ctes, main, j).required
  {
    MainPropagates(ctes, main, j, j + 1);
    assert MainReferences(main, j) == MainFields(main);
  }

  lemma MainAgrees(g: Engine, main: Query, input: seq<Row>, input': seq<Row>, scope: Scope, held: set<Name>)
    requires AgreeAll(input, input', scope, held) && MainFields(main) <= held && DistinctOutputs(main.select)
    requires MainCovered(main, scope)
    ensures Written(g, scope.exact, ResolveQuery(main), input) == Written(g, scope.exact, ResolveQuery(main), input')
  {
    FewerFields(input, input', scope, held, MainFields(main));
    assert Outputs(ResolveQuery(main)) == Outputs(main);
    WrittenAgrees(g, ResolveQuery(main), input, input', scope, MainFields(main));
  }

  // ---- Which queries the plan covers --------------------------------------------------------

  /** No explicit SELECT alias is named inside. */
  predicate AliasFree(select: seq<SelectTerm>, e: Expr) {
    match e
    case Ref(f) => AliasOf(select, f, |select|).None?
    case Call(_, l, r) => AliasFree(select, l) && AliasFree(select, r)
    case Infix(_, l, r) => AliasFree(select, l) && AliasFree(select, r)
    case Aggregate(_, a) => AliasFree(select, a)
    case _ => true
  }

  /** An ORDER BY term the planner reads as the resolver does: one bare name, or an
      expression that names no alias and is not itself called like an output. */
  predicate OrderPlain(q: Query, e: Expr) {
    if e.Ref? then
      || AliasOf(q.select, e.field, |q.select|).Some?
      || e.field !in Outputs(q)
      || e.field in OutputFields(q.select, e.field)
    else AliasFree(q.select, e) && (NameOf(e).None? || NameOf(e).value !in Outputs(q))
  }

  predicate OptionSeedless(e: Option<Expr>) { e.None? || Seedless(e.value) }

  /** No select term finds a column of its input under its output's name, unless it is
      that very column; a random term finds none at all. */
  predicate Unshadowed(q: Query, looked: bool, names: set<Name>) {
    forall i | 0 <= i < |q.select| && q.select[i].output in names ::
      !ContainsRandom(q.select[i].expr) && (looked ==> q.select[i].expr == Ref(q.select[i].output))
  }

  /** What a caller can check of one query body before trusting its plan.  looked: select
      terms find columns of their input rows, as all but aggregate bodies do in a CTE that
      reads a CTE, and under DISTINCT in a main query that reads one. */
  predicate PlainNames(q: Query, looked: bool, names: set<Name>) {
    && OptionSeedless(q.condition) && OptionSeedless(q.having)
    && (forall i | 0 <= i < |q.groupBy| :: Seedless(q.groupBy[i]))
    && (forall i | 0 <= i < |q.select| :: Seedless(q.select[i].expr))
    && (q.having.Some? ==> AliasFree(q.select, q.having.value))
    && (forall i | 0 <= i < |q.orderBy| :: Seedless(q.orderBy[i].expr) && OrderPlain(q, q.orderBy[i].expr))
    && (Aggregating(ResolveQuery(q)) || Unshadowed(q, looked, names))
  }

  lemma {:induction false} AliasFreeResolves(select: seq<SelectTerm>, e: Expr)
    requires AliasFree(select, e)
    ensures Resolved(select, e) == e
  {
    match e
    case Call(_, l, r) =>
      AliasFreeResolves(select, l);
      AliasFreeResolves(select, r);
    case Infix(_, l, r) =>
      AliasFreeResolves(select, l);
      AliasFreeResolves(select, r);
    case Aggregate(_, a) => AliasFreeResolves(select, a);
    case _ =>
  }

  lemma {:induction false} AliasIsSelected(select: seq<SelectTerm>, f: Name, n: nat)
    requires n <= |select| && AliasOf(select, f, n).Some?
    ensures exists i :: 0 <= i < n && select[i].output == f && select[i].expr == AliasOf(select, f, n).value
  {
    if !(select[n - 1].aliased && select[n - 1].output == f) {
      AliasIsSelected(select, f, n - 1);
    }
  }

  lemma OrderIsPlanned(q: Query, k: int, scope: Scope)
    requires 0 <= k < |q.orderBy| && Seedless(q.orderBy[k].expr) && OrderPlain(q, q.orderBy[k].expr)
    requires forall i | 0 <= i < |q.select| :: Seedless(q.select[i].expr)
    ensures ReadsOnly(Resolved(q.select, q.orderBy[k].expr), scope, NonProjectionFields(q))
  {
    var e := q.orderBy[k].expr;
    assert OrderPlain(q, e);
    forall f | f in OrderFields(q, e) ensures f in AllOrderFields(q) {
      assert f in OrderFields(q, q.orderBy[k].expr);
    }
    if e.Ref? {
      var alias := AliasOf(q.select, e.field, |q.select|);
      if alias.Some? {
        AliasIsSelected(q.select, e.field, |q.select|);
        var i :| 0 <= i < |q.select| && q.select[i].output == e.field && q.select[i].expr == alias.value;
        forall f | f in Fields(alias.value) ensures f in OutputFields(q.select, e.field) {
          assert f in Fields(q.select[i].expr);
        }
      }
    } else {
      AliasFreeResolves(q.select, e);
    }
  }

  lemma SelectIsPlanned(q: Query, retained: set<Name>, scope: Scope)
    requires forall i | 0 <= i < |q.select| :: Seedless(q.select[i].expr)
    ensures SelectReadsOnly(q.select, retained, scope, SelectFields(q, retained))
  {
    forall i | 0 <= i < |q.select| && q.select[i].output in retained
      ensures Fields(q.select[i].expr) <= SelectFields(q, retained)
    {
      forall f | f in Fields(q.select[i].expr) ensures f in SelectFields(q, retained) {
        assert q.select[i].output in retained && f in Fields(q.select[i].expr);
      }
    }
  }

  lemma PlainClausesReadOnly(q: Query, looked: bool, scope: Scope, input: set<Name>)
    requires PlainNames(q, looked, scope.names) && NonProjectionFields(q) <= input
    ensures ClausesReadOnly(ResolveQuery(q), scope, input)
  {
    var r := ResolveQuery(q);
    if q.having.Some? {
      AliasFreeResolves(q.select, q.having.value);
    }
    forall i | 0 <= i < |q.groupBy| ensures ReadsOnly(q.groupBy[i], scope, input) {
      forall f | f in Fields(q.groupBy[i]) ensures f in ListFields(q.groupBy) {
        assert f in Fields(q.groupBy[i]);
      }
    }
    forall k | 0 <= k < |r.orderBy| ensures ReadsOnly(r.orderBy[k].expr, scope, input) {
      OrderIsPlanned(q, k, scope);
    }
  }

  lemma {:induction false} RandomIsVolatile(e: Expr)
    requires Seedless(e)
    ensures Deterministic(e) <==> !ContainsRandom(e)
  {
    match e
    case Call(_, l, r) =>
      RandomIsVolatile(l);
      RandomIsVolatile(r);
    case Infix(_, l, r) =>
      RandomIsVolatile(l);
      RandomIsVolatile(r);
    case Aggregate(_, a) => RandomIsVolatile(a);
    case _ =>
  }

  /** A term whose fields are planned, and that finds no column but itself. */
  lemma UnshadowedHeld(q: Query, i: int, marked: bool, looked: bool, scope: Scope, fields: set<Name>)
    requires 0 <= i < |q.select| && Unshadowed(q, looked, scope.names) && (marked ==> looked && scope.exact)
    requires ReadsOnly(q.select[i].expr, scope, fields)
    ensures HeldReadsOnly(q.select[i], marked, scope, fields)
  {
  }

  lemma PlainSelectCovered(q: Query, keyed: bool, exported: bool, looked: bool, required: set<Name>, retained: set<Name>,
                           scope: Scope, input: set<Name>)
    requires PlainNames(q, looked, scope.names) && (((keyed && q.distinct) || exported) ==> looked && scope.exact)
    requires SelectFields(q, retained) <= input && Volatile(q) <= retained
    requires forall i | 0 <= i < |q.select| && q.select[i].output in required :: q.select[i].output in retained
    requires q.distinct ==> Outputs(q) <= retained
    ensures SelectCovered(ResolveQuery(q), keyed, exported, required, scope, input)
  {
    SelectIsPlanned(q, retained, scope);
    forall i | 0 <= i < |q.select| && q.distinct ensures q.select[i].output in retained {
      assert q.select[i].output in Outputs(q);
    }
    forall j | 0 <= j < |q.select| && ContainsRandom(q.select[j].expr) ensures q.select[j].output in retained {
      RandomIsVolatile(q.select[j].expr);
      assert q.select[j].output in Volatile(q);
    }
    if !Aggregating(ResolveQuery(q)) {
      forall i | 0 <= i < |q.select| && q.select[i].output in retained
        ensures HeldReadsOnly(q.select[i], false, scope, input) && HeldReadsOnly(q.select[i], exported, scope, input)
        ensures q.distinct ==> HeldReadsOnly(q.select[i], keyed, scope, input)
      {
        UnshadowedHeld(q, i, false, looked, scope, input);
        UnshadowedHeld(q, i, exported, looked, scope, input);
        if q.distinct {
          UnshadowedHeld(q, i, keyed, looked, scope, input);
        }
      }
    }
  }

  lemma PlainIsCovered(q: Query, required: set<Name>, scope: Scope)
    requires PlainNames(q, scope.exact, scope.names)
    ensures Covered(q, required, scope)
  {
    var d := Producer(q, required);
    forall i | 0 <= i < |q.select| && q.select[i].output in required ensures q.select[i].output in d.retained {
      assert q.select[i].output in Outputs(q);
    }
    PlainClausesReadOnly(q, scope.exact, scope, d.input);
    PlainSelectCovered(q, scope.exact, scope.exact, scope.exact, required, d.retained, scope, d.input);
  }

  /** The body of a CTE, and of the main query, checked by name. */
  predicate PlainCte(ctes: seq<Query>, known: set<Name>, q: Query) {
    var scope := ScopeOf(ctes, known, q.from);
    PlainNames(q, scope.exact, scope.names)
  }

  predicate PlainMain(ctes: seq<Query>, known: set<Name>, main: Query) {
    var scope := ScopeOf(ctes, known, main.from);
    PlainNames(main, scope.exact && main.distinct, scope.names)
  }

  /** Plans of plain chains are sound: no seeded RANDOM, no SELECT alias inside a HAVING
      condition or a compound ORDER BY expression, and no output that shadows another
      column of the CTE it is read from or, if random, a key a record may have. */
  lemma PlainPlansAreSound(g: Engine, ctes: seq<Query>, main: Query, known: set<Name>, p: seq<Row>, r: seq<Row>)
    requires WellFormed(ctes, main) && PlainMain(ctes, known, main)
    requires forall i | 0 <= i < |ctes| :: PlainCte(ctes, known, ctes[i])
    requires AgreeAll(p, r, Scope(known, false), PhysicalFields(ctes, main))
    ensures Answer(g, ctes, main, p) == Answer(g, ctes, main, r)
  {
    forall i | 0 <= i < |ctes| ensures Covered(ctes[i], PlanOf(ctes, main, i).required, ScopeOf(ctes, known, ctes[i].from)) {
      PlainIsCovered(ctes[i], PlanOf(ctes, main, i).required, ScopeOf(ctes, known, ctes[i].from));
    }
    var scope := ScopeOf(ctes, known, main.from);
    PlainClausesReadOnly(main, scope.exact && main.distinct, scope, MainFields(main));
    PlainSelectCovered(main, scope.exact, false, scope.exact && main.distinct, Outputs(main), Outputs(main), scope, MainFields(main));
    PruningPreservesAnswer(g, ctes, main, known, p, r);
  }
}
