/** Chains whose plan loses something: concrete queries, records, and the same records
    with the planned fields only. */
module CteLosses {
  import opened Options
  import opened QueryEvaluation
  import opened CteDependencies
  import opened CteExactness

  const ID: Name := 1
  const DURATION: Name := 2
  const VIEWS: Name := 3
  const V: Name := 10
  const D: Name := 11
  const LENGTH: Name := 20
  const MAX: Name := 30

  const RECORDS := Scope({ID, DURATION, VIEWS}, false)

  /** SELECT ... FROM <from>, and no other clause. */
  predicate OnlySelects(q: Query, from: Relation) {
    && q.from == from && q.condition.None? && q.groupBy == [] && q.having.None? && q.orderBy == []
    && !q.distinct && q.offset == 0 && q.limit.None?
    && DistinctOutputs(q.select) && forall j | 0 <= j < |q.select| :: q.select[j].expr.Ref?
  }

  // ---- An output that shadows another column ------------------------------------------------

  predicate Column(q: Query, i: int, field: Name, output: Name) {
    0 <= i < |q.select| && q.select[i].expr == Ref(field) && q.select[i].output == output
  }

  predicate IsA(a: Query) {
    OnlySelects(a, Physical) && |a.select| == 3 && Column(a, 0, ID, ID) && Column(a, 1, VIEWS, V) && Column(a, 2, DURATION, D)
  }

  /** Two columns under two names. */
  predicate SelectsTwo(q: Query, from: Relation, x: Name, v: Name, y: Name, w: Name) {
    OnlySelects(q, from) && |q.select| == 2 && Column(q, 0, x, v) && Column(q, 1, y, w)
  }

  /** WITH a AS (SELECT id, view_count AS v, duration AS d FROM @x),
      b AS (SELECT id, v AS d FROM a) SELECT id, d FROM b. */
  predicate Shadowing(a: Query, b: Query, main: Query) {
    IsA(a) && SelectsTwo(b, Cte(0), ID, ID, V, D) && SelectsTwo(main, Cte(1), ID, ID, D, D)
  }

  /** What a body that only selects makes of one row. */
  lemma OneRowSelected(g: Engine, id: int, marked: bool, q: Query, row: Row, i: int)
    requires OnlySelects(q, q.from) && 0 <= i < |q.select|
    ensures ResolveQuery(q) == q && |Body(g, id, marked, q, [row])| == 1
    ensures Body(g, id, marked, q, [row])[0].cells.Keys == Outputs(q)
    ensures Cell(Body(g, id, marked, q, [row])[0], q.select[i].output) == Held(g, marked, q.select[i], row)
  {
    OneRowPasses(g, marked, q, row);
    ExportedNames(q.select, HeldKeys(g, marked, q.select, [row])[0], |q.select|);
    PlainCell(g, id, marked, q, [row], 0, i);
  }

  lemma OneRowPasses(g: Engine, marked: bool, q: Query, row: Row)
    requires OnlySelects(q, q.from)
    ensures ResolveQuery(q) == q && !Aggregating(q) && KeptRows(g, marked, q, [row]) == PlainRows(g, marked, q, [row]) == [row]
    ensures WithDraws(g, q.select, |q.select|, row) == row
  {
    assert ResolveQuery(q).orderBy == [];
    NoDraws(g, q.select, |q.select|, row);
  }

  lemma OneRowWritten(g: Engine, marked: bool, q: Query, row: Row, values: seq<Value>)
    requires OnlySelects(q, q.from) && |values| == |q.select|
    requires forall i | 0 <= i < |values| :: values[i] == Held(g, false, q.select[i], row)
    ensures Written(g, marked, ResolveQuery(q), [row]) == [values]
  {
    OneRowPasses(g, marked, q, row);
    assert HeldKey(g, false, q.select, row) == values;
  }

  lemma {:induction false} NoDraws(g: Engine, select: seq<SelectTerm>, n: nat, row: Row)
    requires n <= |select| && forall j | 0 <= j < |select| :: select[j].expr.Ref?
    ensures WithDraws(g, select, n, row) == row
  {
    if n > 0 {
      NoDraws(g, select, n - 1, row);
    }
  }

  /** The plan of such a body: the fields behind the required outputs. */
  lemma SelectingPlan(q: Query, required: set<Name>)
    requires OnlySelects(q, q.from) && required <= Outputs(q)
    ensures NonProjectionFields(q) == {}
    ensures Producer(q, required).required == required && Producer(q, required).pruned == Outputs(q) - required
    ensures Producer(q, required).input == SelectFields(q, required)
  {
    assert Volatile(q) == {};
  }

  lemma TwoColumns(q: Query, from: Relation, x: Name, v: Name, y: Name, w: Name)
    requires SelectsTwo(q, from, x, v, y, w)
    ensures Outputs(q) == {v, w} && SelectFields(q, {v, w}) == {x, y}
  {
    assert x in Fields(q.select[0].expr) && y in Fields(q.select[1].expr);
    assert q.select[0].output == v && q.select[1].output == w;
  }

  lemma ColumnsOfA(a: Query)
    requires IsA(a)
    ensures Outputs(a) == {ID, V, D} && SelectFields(a, {ID, V}) == {ID, VIEWS}
  {
    assert ID in Fields(a.select[0].expr) && VIEWS in Fields(a.select[1].expr);
    assert a.select[0].output == ID && a.select[1].output == V && a.select[2].output == D;
  }

  lemma PlanOfA(a: Query)
    requires IsA(a)
    ensures Producer(a, {ID, V}).required == {ID, V} && D in Producer(a, {ID, V}).pruned
    ensures Producer(a, {ID, V}).input == {ID, VIEWS}
  {
    ColumnsOfA(a);
    SelectingPlan(a, {ID, V});
  }

  lemma PlanOfColumns(q: Query, from: Relation, x: Name, v: Name, y: Name, w: Name)
    requires SelectsTwo(q, from, x, v, y, w)
    ensures Producer(q, {v, w}).input == {x, y} && NonProjectionFields(q) + SelectFields(q, Outputs(q)) == {x, y}
  {
    TwoColumns(q, from, x, v, y, w);
    SelectingPlan(q, {v, w});
  }

  /** The plan requires id and v of a, and id and view_count of the records. */
  lemma ShadowPlan(a: Query, b: Query, main: Query)
    requires Shadowing(a, b, main)
    ensures PlanOf([a, b], main, 0).required == {ID, V} && D in PlanOf([a, b], main, 0).pruned
    ensures PhysicalFields([a, b], main) == {ID, VIEWS}
  {
    PlanOfA(a);
    PlanOfColumns(b, Cte(0), ID, ID, V, D);
    PlanOfColumns(main, Cte(1), ID, ID, D, D);
    PlanOfTwo(a, b, main, {ID, D}, {ID, V}, {ID, VIEWS});
  }

  /** The backward walk over two CTEs in a row. */
  lemma PlanOfTwo(a: Query, b: Query, main: Query, ofB: set<Name>, ofA: set<Name>, ofRecords: set<Name>)
    requires a.from == Physical && b.from == Cte(0) && main.from == Cte(1)
    requires ofB == NonProjectionFields(main) + SelectFields(main, Outputs(main))
    requires ofA == Producer(b, ofB).input && ofRecords == Producer(a, ofA).input
    ensures PlanOf([a, b], main, 0) == Producer(a, ofA)
    ensures PhysicalFields([a, b], main) == ofRecords
  {
    var ctes := [a, b];
    assert RequiredFrom(ctes, main, 1, 2) == ofB;
    assert Planned(ctes, main, 1) == Producer(b, ofB);
    assert RequiredFrom(ctes, main, 0, 2) == {};
    assert RequiredFrom(ctes, main, 0, 1) == ofA;
    assert PhysicalInput(ctes, main, 0) == ofRecords && PhysicalInput(ctes, main, 1) == {};
    forall f ensures f in PhysicalFields(ctes, main) <==> f in ofRecords {
      assert f in PhysicalInput(ctes, main, 0) ==> f in PhysicalFields(ctes, main);
    }
  }

  /** b.d finds a.d, which nobody requires: the duration on the whole record, nothing on
      the planned fields of it. */
  lemma ShadowedColumnIsLost(g: Engine, a: Query, b: Query, main: Query, whole: Row, planned: Row)
    requires Shadowing(a, b, main) && whole.cells.Keys == {ID, VIEWS, DURATION}
    requires planned == Row(whole.cells - {DURATION}, whole.draw)
    ensures WellFormed([a, b], main) && AgreeAll([whole], [planned], RECORDS, PhysicalFields([a, b], main))
    ensures Answer(g, [a, b], main, [whole]) == [[Cell(whole, ID), Cell(whole, DURATION)]]
    ensures Answer(g, [a, b], main, [planned]) == [[Cell(whole, ID), None]]
  {
    ShadowIsWellFormed(a, b, main);
    ShadowPlan(a, b, main);
    WithoutDuration(whole, planned, {ID, VIEWS});
    ShadowAnswer(g, a, b, main, whole);
    ShadowAnswer(g, a, b, main, planned);
  }

  lemma ShadowIsWellFormed(a: Query, b: Query, main: Query)
    requires Shadowing(a, b, main)
    ensures WellFormed([a, b], main)
  {
  }

  lemma WithoutDuration(a: Row, b: Row, fields: set<Name>)
    requires a.draw == b.draw && b.cells == a.cells - {DURATION} && InScope(a, RECORDS) && DURATION !in fields
    ensures Agree(a, b, RECORDS, fields)
  {
  }

  lemma ShadowAnswer(g: Engine, a: Query, b: Query, main: Query, row: Row)
    requires Shadowing(a, b, main)
    ensures Answer(g, [a, b], main, [row]) == [[Cell(row, ID), Cell(row, DURATION)]]
  {
    var x := RowOfA(g, a, row);
    var y := RowOfB(g, b, x);
    WrittenOfMain(g, main, y);
    var ctes := [a, b];
    assert CteRows(g, ctes, [row], 0) == [x];
    assert CteRows(g, ctes, [row], 1) == [y];
  }

  lemma RowOfA(g: Engine, a: Query, row: Row) returns (x: Row)
    requires IsA(a)
    ensures Body(g, 0, false, ResolveQuery(a), [row]) == [x] && x.cells.Keys == {ID, V, D}
    ensures Cell(x, ID) == Cell(row, ID) && Cell(x, D) == Cell(row, DURATION)
  {
    ColumnsOfA(a);
    OneRowSelected(g, 0, false, a, row, 0);
    OneRowSelected(g, 0, false, a, row, 2);
    x := Body(g, 0, false, a, [row])[0];
  }

  lemma RowOfB(g: Engine, b: Query, x: Row) returns (y: Row)
    requires SelectsTwo(b, Cte(0), ID, ID, V, D) && x.cells.Keys == {ID, V, D}
    ensures Body(g, 1, true, ResolveQuery(b), [x]) == [y]
    ensures Cell(y, ID) == Cell(x, ID) && Cell(y, D) == Cell(x, D)
  {
    TwoColumns(b, Cte(0), ID, ID, V, D);
    OneRowSelected(g, 1, true, b, x, 0);
    OneRowSelected(g, 1, true, b, x, 1);
    y := Body(g, 1, true, b, [x])[0];
  }

  lemma WrittenOfMain(g: Engine, main: Query, y: Row)
    requires SelectsTwo(main, Cte(1), ID, ID, D, D)
    ensures Written(g, true, ResolveQuery(main), [y]) == [[Cell(y, ID), Cell(y, D)]]
  {
    OneRowWritten(g, true, main, y, [Cell(y, ID), Cell(y, D)]);
  }

  // ---- An alias inside an expression ----------------------------------------------------------

  /** SELECT id, <length> AS length FROM the physical source. */
  function SelectLength(having: Option<Expr>, orderBy: seq<OrderTerm>, length: Expr, limit: Option<int>): Query {
    Query(Physical, None, [], having, orderBy,
          [SelectTerm(Ref(ID), ID, false), SelectTerm(length, LENGTH, true)], false, 0, limit)
  }

  /** With only id required, the plan of such a body names id and what its clauses name. */
  lemma LengthIsPruned(having: Option<Expr>, orderBy: seq<OrderTerm>, length: Expr, limit: Option<int>)
    requires Deterministic(length)
    ensures var q := SelectLength(having, orderBy, length, limit);
            Producer(q, {ID}).input == NonProjectionFields(q) + {ID} && Producer(q, {ID}).pruned == {LENGTH}
  {
    var q := SelectLength(having, orderBy, length, limit);
    assert q.select[0].output == ID && q.select[1].output == LENGTH;
    assert Outputs(q) == {ID, LENGTH};
    assert Volatile(q) == {};
    assert SelectFields(q, {ID}) == {ID} by {
      assert ID in Fields(q.select[0].expr);
    }
  }

  lemma LengthResolves(q: Query, op: int)
    requires |q.select| == 2 && q.select[1].aliased && q.select[1].output == LENGTH
    ensures Resolved(q.select, Infix(op, Ref(LENGTH), Const(Some(0)))) == Infix(op, q.select[1].expr, Const(Some(0)))
  {
    assert AliasOf(q.select, LENGTH, |q.select|) == Some(q.select[1].expr);
    assert Resolved(q.select, Ref(LENGTH)) == q.select[1].expr;
    assert Resolved(q.select, Const(Some(0))) == Const(Some(0));
  }

  /** SELECT id, MAX(duration) AS length ... HAVING length > 0: the plan names length,
      which no record has, and the durations are lost with the group. */
  lemma HavingAliasIsLost(g: Engine)
    requires g.aggregate(MAX, [Some(5)]) == Some(5) && g.aggregate(MAX, [None]) == None
    requires g.infix(0, Some(5), Some(0)) == TRUE && g.infix(0, None, Some(0)) == None
    ensures var q := SelectLength(Some(Infix(0, Ref(LENGTH), Const(Some(0)))), [], Aggregate(MAX, Ref(DURATION)), None);
            var p, r := [Row(map[ID := Some(7), DURATION := Some(5)], 0)], [Row(map[ID := Some(7)], 0)];
            && AgreeAll(p, r, RECORDS, Producer(q, {ID}).input)
            && |Body(g, 0, false, ResolveQuery(q), p)| == 1 && |Body(g, 0, false, ResolveQuery(q), r)| == 0
  {
    var having := Infix(0, Ref(LENGTH), Const(Some(0)));
    var q := SelectLength(Some(having), [], Aggregate(MAX, Ref(DURATION)), None);
    LengthIsPruned(Some(having), [], Aggregate(MAX, Ref(DURATION)), None);
    assert NonProjectionFields(q) == {LENGTH};
    var s := ResolveQuery(q);
    LengthResolves(q, 0);
    assert s.having.value == Infix(0, Aggregate(MAX, Ref(DURATION)), Const(Some(0)));
    HavingOfOneRow(g, s, Row(map[ID := Some(7), DURATION := Some(5)], 0));
    HavingOfOneRow(g, s, Row(map[ID := Some(7)], 0));
  }

  lemma OneTrue(v: Value)
    ensures TruePositions([v]) == if v == TRUE then [0] else []
  {
    assert [v][..0] == [];
    assert TruePositions([]) == [];
  }

  lemma HavingOfOneRow(g: Engine, s: Query, row: Row)
    requires s.condition.None? && s.groupBy == [] && s.orderBy == [] && !s.distinct && s.offset == 0 && s.limit.None?
    requires s.having == Some(Infix(0, Aggregate(MAX, Ref(DURATION)), Const(Some(0))))
    ensures |Body(g, 0, false, s, [row])| ==
            if g.infix(0, g.aggregate(MAX, [Cell(row, DURATION)]), Some(0)) == TRUE then 1 else 0
  {
    var e := s.having.value;
    assert ContainsAggregate(e) && Aggregating(s);
    assert EvalRows(g, Ref(DURATION), [row]) == [Cell(row, DURATION)];
    var v := EvalGroup(g, e, [row]);
    assert EvalGroup(g, Aggregate(MAX, Ref(DURATION)), [row]) == g.aggregate(MAX, [Cell(row, DURATION)]);
    assert EvalGroup(g, Const(Some(0)), [row]) == Some(0);
    assert EvalGroups(g, e, [[row]]) == [v];
    OneTrue(v);
    assert |FilterGroups(g, s.having, [[row]])| == if v == TRUE then 1 else 0;
    assert SurvivingGroups(g, s, [row]) == FilterGroups(g, s.having, [[row]]);
    AggregateCount(g, false, s, [row]);
  }

  /** SELECT id, duration AS length ... ORDER BY length + 0 LIMIT 1. */
  predicate CompoundOrder(q: Query) {
    q == SelectLength(None, [OrderTerm(Infix(1, Ref(LENGTH), Const(Some(0))), false)], Ref(DURATION), Some(1))
  }

  predicate ExportsOnly(rows: seq<Row>, id: Value) { |rows| == 1 && Cell(rows[0], ID) == id }

  /** The bare alias would be planned, inside an expression it is not, and another row
      comes first. */
  lemma CompoundOrderIsLost(g: Engine, q: Query, p: seq<Row>, r: seq<Row>)
    requires CompoundOrder(q)
    requires g.infix(1, Some(5), Some(0)) == Some(5) && g.infix(1, Some(3), Some(0)) == Some(3)
    requires g.infix(1, None, Some(0)) == None && g.before([Some(5), Some(3)], 3, 5)
    requires p == [Row(map[ID := Some(1), DURATION := Some(5)], 0), Row(map[ID := Some(2), DURATION := Some(3)], 1)]
    requires r == [Row(map[ID := Some(1)], 0), Row(map[ID := Some(2)], 1)]
    ensures AgreeAll(p, r, RECORDS, Producer(q, {ID}).input)
    ensures ExportsOnly(Body(g, 0, false, ResolveQuery(q), p), Some(2))
    ensures ExportsOnly(Body(g, 0, false, ResolveQuery(q), r), Some(1))
  {
    CompoundOrderPlan(q);
    WithoutDuration(p[0], r[0], {ID, LENGTH});
    WithoutDuration(p[1], r[1], {ID, LENGTH});
    FiveThenThree(g);
    NullsInOrder(g);
    CompoundBody(g, q, p, [Some(5), Some(3)], 1);
    CompoundBody(g, q, r, [None, None], 0);
  }

  lemma CompoundBody(g: Engine, q: Query, rows: seq<Row>, vs: seq<Value>, first: int)
    requires CompoundOrder(q) && |rows| == |vs| == 2 && 0 <= first < 2
    requires g.infix(1, Cell(rows[0], DURATION), Some(0)) == vs[0]
    requires g.infix(1, Cell(rows[1], DURATION), Some(0)) == vs[1]
    requires |OrderPositions(g, vs, false)| == 2 && OrderPositions(g, vs, false)[0] == first
    ensures ExportsOnly(Body(g, 0, false, ResolveQuery(q), rows), Cell(rows[first], ID))
  {
    CompoundOrderPlan(q);
    var s := ResolveQuery(q);
    SortedByLength(g, s.orderBy, rows, vs);
    FirstIsExported(g, s, rows, Pick(rows, OrderPositions(g, vs, false)));
  }

  lemma SortedByLength(g: Engine, terms: seq<OrderTerm>, rows: seq<Row>, vs: seq<Value>)
    requires terms == [OrderTerm(Infix(1, Ref(DURATION), Const(Some(0))), false)] && |rows| == |vs| == 2
    requires g.infix(1, Cell(rows[0], DURATION), Some(0)) == vs[0]
    requires g.infix(1, Cell(rows[1], DURATION), Some(0)) == vs[1]
    ensures Sort(g, terms, rows) == Pick(rows, OrderPositions(g, vs, false))
  {
    forall i | 0 <= i < 2 ensures vs[i] == Eval(g, terms[0].expr, rows[i]) {
      assert Eval(g, Ref(DURATION), rows[i]) == Cell(rows[i], DURATION) && Eval(g, Const(Some(0)), rows[i]) == Some(0);
    }
    SortStep(g, terms, rows, vs);
    assert terms[..0] == [];
  }

  /** SELECT id, duration AS length and ORDER BY one scalar, LIMIT 1. */
  predicate OrderedLength(s: Query) {
    && s.select == [SelectTerm(Ref(ID), ID, false), SelectTerm(Ref(DURATION), LENGTH, true)]
    && s.condition.None? && s.groupBy == [] && s.having.None? && !s.distinct && s.offset == 0 && s.limit == Some(1)
    && |s.orderBy| == 1 && !ContainsAggregate(s.orderBy[0].expr)
  }

  lemma OneIsKept(g: Engine, s: Query, rows: seq<Row>, sorted: seq<Row>)
    requires OrderedLength(s) && Sort(g, s.orderBy, rows) == sorted && |sorted| == 2
    ensures !Aggregating(s) && KeptRows(g, false, s, rows) == [sorted[0]]
  {
  }

  lemma FirstIsExported(g: Engine, s: Query, rows: seq<Row>, sorted: seq<Row>)
    requires OrderedLength(s) && Sort(g, s.orderBy, rows) == sorted && |sorted| == 2
    ensures ExportsOnly(Body(g, 0, false, s, rows), Cell(sorted[0], ID))
  {
    OneIsKept(g, s, rows, sorted);
    NoDraws(g, s.select, 2, sorted[0]);
    PlainCell(g, 0, false, s, rows, 0, 0);
  }

  lemma CompoundOrderPlan(q: Query)
    requires CompoundOrder(q)
    ensures Producer(q, {ID}).input == {ID, LENGTH}
    ensures ResolveQuery(q).orderBy == [OrderTerm(Infix(1, Ref(DURATION), Const(Some(0))), false)]
  {
    LengthIsPruned(None, q.orderBy, Ref(DURATION), Some(1));
    assert NonProjectionFields(q) == {LENGTH} by {
      assert OrderFields(q, q.orderBy[0].expr) == {LENGTH};
    }
    LengthResolves(q, 1);
  }

  lemma FiveThenThree(g: Engine)
    requires g.before([Some(5), Some(3)], 3, 5)
    ensures OrderPositions(g, [Some(5), Some(3)], false) == [1, 0]
  {
    var vs: seq<Value> := [Some(5), Some(3)];
    assert SortedPresent(g, vs, false, 1) == Insert(g, vs, false, SortedPresent(g, vs, false, 0), 0) == [0];
    assert [0][..0] == [];
    assert Insert(g, vs, false, [0], 1) == Insert(g, vs, false, [], 1) + [0] == [1, 0];
    assert SortedPresent(g, vs, false, 2) == [1, 0];
    assert Missing(vs, 1) == Missing(vs, 0) == [] && Missing(vs, 2) == [];
  }

  lemma NullsInOrder(g: Engine)
    ensures OrderPositions(g, [None, None], false) == [0, 1]
  {
    var vs: seq<Value> := [None, None];
    assert SortedPresent(g, vs, false, 1) == SortedPresent(g, vs, false, 0) == [];
    assert SortedPresent(g, vs, false, 2) == [];
    assert Missing(vs, 1) == Missing(vs, 0) + [0] == [0] && Missing(vs, 2) == [0] + [1];
  }

  // ---- Seeded draws -------------------------------------------------------------------------------

  /** SELECT id, RANDOM(7) AS length: a seeded draw counts as reading nothing, but it is a
      function of the row's identity, which the plan does not name. */
  lemma SeededDrawIsLost(g: Engine, p: Row, r: Row)
    requires p.draw == r.draw && InScope(p, RECORDS) && InScope(r, RECORDS)
    requires ID in p.cells && ID in r.cells && p.cells[ID] == r.cells[ID]
    requires g.seeded(7, p.cells) != g.seeded(7, r.cells)
    ensures var q := SelectLength(None, [], Seeded(7), None);
            && AgreeAll([p], [r], RECORDS, Producer(q, {ID, LENGTH}).input)
            && Cell(Body(g, 0, false, ResolveQuery(q), [p])[0], LENGTH) != Cell(Body(g, 0, false, ResolveQuery(q), [r])[0], LENGTH)
  {
    var q := SelectLength(None, [], Seeded(7), None);
    assert q.select[0].output == ID && q.select[1].output == LENGTH;
    assert Outputs(q) == {ID, LENGTH} && NonProjectionFields(q) == {};
    assert SelectFields(q, {ID, LENGTH}) == {ID} by {
      assert ID in Fields(q.select[0].expr);
    }
    assert Volatile(q) == {};
    SeededCell(g, q, p);
    SeededCell(g, q, r);
  }

  lemma SeededCell(g: Engine, q: Query, row: Row)
    requires q == SelectLength(None, [], Seeded(7), None) && InScope(row, RECORDS)
    ensures |Body(g, 0, false, ResolveQuery(q), [row])| == 1
    ensures Cell(Body(g, 0, false, ResolveQuery(q), [row])[0], LENGTH) == g.seeded(7, row.cells)
  {
    var s := ResolveQuery(q);
    assert s.orderBy == [] && !Aggregating(s);
    assert KeptRows(g, false, s, [row]) == [row];
    DrawsAt(g, s.select, 2, row, LENGTH);
    PlainCell(g, 0, false, s, [row], 0, 1);
  }
}
