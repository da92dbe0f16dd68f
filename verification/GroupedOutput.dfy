/** What is written for a main query with groups, against the values its groups have.  The
    rows hold the outputs, but have lost the mark by which a term would find its own. */
module GroupedOutput {
  import opened Options
  import opened QueryEvaluation
  import opened CteDependencies
  import opened CteExactness

  /** A column exported under its own name. */
  predicate Bare(select: seq<SelectTerm>, f: Name) {
    exists j :: 0 <= j < |select| && select[j].expr == Ref(f) && select[j].output == f
  }

  /** A term that is found under its output on any row, or reads nothing but columns that
      are still there under their own names. */
  predicate Rereadable(select: seq<SelectTerm>, e: Expr) {
    ContainsAggregate(e) || ContainsRandom(e) || forall f | f in Fields(e) :: Bare(select, f)
  }

  predicate AllRereadable(select: seq<SelectTerm>) { forall i | 0 <= i < |select| :: Rereadable(select, select[i].expr) }

  // ---- Rereadable terms are written as computed ----------------------------------------------

  function Head(group: seq<Row>): Row { if group == [] then NO_ROW else group[0] }

  lemma {:induction false} HeadDecides(g: Engine, e: Expr, group: seq<Row>)
    requires !ContainsAggregate(e)
    ensures EvalGroup(g, e, group) == Eval(g, e, Head(group))
  {
    match e
    case Call(_, l, r) =>
      HeadDecides(g, l, group);
      HeadDecides(g, r, group);
    case Infix(_, l, r) =>
      HeadDecides(g, l, group);
      HeadDecides(g, r, group);
    case _ =>
  }

  lemma {:induction false} CellsDecide(g: Engine, e: Expr, a: Row, b: Row)
    requires !ContainsRandom(e) && forall f | f in Fields(e) :: Cell(a, f) == Cell(b, f)
    ensures Eval(g, e, a) == Eval(g, e, b)
  {
    match e
    case Call(_, l, r) =>
      CellsDecide(g, l, a, b);
      CellsDecide(g, r, a, b);
    case Infix(_, l, r) =>
      CellsDecide(g, l, a, b);
      CellsDecide(g, r, a, b);
    case _ =>
  }

  /** The row of outputs one group gives. */
  function OutputRow(g: Engine, select: seq<SelectTerm>, group: seq<Row>, draw: int): Row {
    Row(Export(select, GroupKey(g, SelectList(select), group), |select|), draw)
  }

  lemma TermIsReread(g: Engine, select: seq<SelectTerm>, group: seq<Row>, draw: int, i: int)
    requires DistinctOutputs(select) && 0 <= i < |select| && Rereadable(select, select[i].expr)
    ensures Held(g, false, select[i], OutputRow(g, select, group, draw)) == EvalGroup(g, select[i].expr, group)
  {
    var e, key, row := select[i].expr, GroupKey(g, SelectList(select), group), OutputRow(g, select, group, draw);
    ExportAt(select, key, |select|, i);
    if !ContainsAggregate(e) && !ContainsRandom(e) {
      forall f | f in Fields(e) ensures Cell(row, f) == Cell(Head(group), f) {
        assert Bare(select, f);
        var j :| 0 <= j < |select| && select[j].expr == Ref(f) && select[j].output == f;
        ExportAt(select, key, |select|, j);
        HeadDecides(g, Ref(f), group);
      }
      HeadDecides(g, e, group);
      CellsDecide(g, e, row, Head(group));
    }
  }

  lemma FinishedAreKeys(q: Query, keys: seq<seq<Value>>, k: int) returns (at: int)
    requires 0 <= k < |Finished(q, keys)|
    ensures 0 <= at < |keys| && Finished(q, keys)[k] == keys[at]
  {
    at := if q.distinct then FirstPositions(keys)[k + q.offset] else k + q.offset;
  }

  /** Every row of values is that of one group. */
  lemma ValuesAreOfGroups(g: Engine, q: Query, rows: seq<Row>, k: int) returns (group: seq<Row>)
    requires 0 <= k < |AggregateValues(g, q, rows)|
    ensures AggregateValues(g, q, rows)[k] == GroupKey(g, SelectList(q.select), group)
  {
    var groups := SurvivingGroups(g, q, Filter(g, q.condition, rows));
    var at := FinishedAreKeys(q, GroupKeys(g, SelectList(q.select), groups), k);
    group := groups[at];
  }

  /** For every engine, all rows and either kind of input. */
  lemma WrittenWhenRereadable(g: Engine, marked: bool, q: Query, rows: seq<Row>)
    requires Aggregating(q) && DistinctOutputs(q.select) && AllRereadable(q.select)
    ensures Written(g, marked, q, rows) == AggregateValues(g, q, rows)
  {
    var values, written := AggregateValues(g, q, rows), Written(g, marked, q, rows);
    forall k | 0 <= k < |values| ensures written[k] == values[k] {
      var group := ValuesAreOfGroups(g, q, rows, k);
      var row := OutputRow(g, q.select, group, g.draw(0, k));
      assert written[k] == HeldKey(g, false, q.select, row);
      forall i | 0 <= i < |q.select| ensures written[k][i] == values[k][i] {
        TermIsReread(g, q.select, group, g.draw(0, k), i);
      }
    }
  }

  // ---- An engine whose results tell their arguments apart -----------------------------------------

  function Code(v: Value): nat { if v.None? then 0 else if v.value >= 0 then 2 * v.value + 1 else -2 * v.value }

  function Triangle(n: nat): nat { if n == 0 then 0 else Triangle(n - 1) + n }

  function PairCode(a: nat, b: nat): nat { Triangle(a + b) + b }

  lemma {:induction false} TriangleGrows(m: nat, n: nat)
    requires m < n
    ensures Triangle(m) + m < Triangle(n)
  {
    if m < n - 1 {
      TriangleGrows(m, n - 1);
    }
  }

  lemma PairsDiffer(a: nat, b: nat, c: nat, d: nat)
    requires PairCode(a, b) == PairCode(c, d)
    ensures a == c && b == d
  {
    if a + b < c + d {
      TriangleGrows(a + b, c + d);
    } else if c + d < a + b {
      TriangleGrows(c + d, a + b);
    }
  }

  function Coded(base: int, a: Value, b: Value): Value { Some(base + PairCode(Code(a), Code(b))) }

  lemma CodesTell(base: int, a: Value, b: Value, c: Value, d: Value)
    requires Coded(base, a, b) == Coded(base, c, d)
    ensures a == c && b == d
  {
    PairsDiffer(Code(a), Code(b), Code(c), Code(d));
  }

  function Telling(tests: set<int>, base: int): Engine {
    Engine((_, a, b) => Coded(base, a, b),
           (op, a, b) => if op in tests then TRUE else Coded(base, a, b),
           (_, _) => Some(base),
           (_, _) => Some(base),
           (_, _) => Some(base),
           (_, x, y) => x < y,
           (_, _) => 0)
  }

  predicate Without(e: Expr, tests: set<int>) {
    match e
    case Call(_, l, r) => Without(l, tests) && Without(r, tests)
    case Infix(op, l, r) => op !in tests && Without(l, tests) && Without(r, tests)
    case Aggregate(_, a) => Without(a, tests)
    case _ => true
  }

  /** Equal values come from equal cells. */
  lemma {:induction false} ValuesTell(e: Expr, tests: set<int>, base: int, a: Row, b: Row)
    requires !ContainsAggregate(e) && !ContainsRandom(e) && Without(e, tests)
    requires Eval(Telling(tests, base), e, a) == Eval(Telling(tests, base), e, b)
    ensures forall f | f in Fields(e) :: Cell(a, f) == Cell(b, f)
  {
    var g := Telling(tests, base);
    match e
    case Call(_, l, r) =>
      CodesTell(base, Eval(g, l, a), Eval(g, r, a), Eval(g, l, b), Eval(g, r, b));
      ValuesTell(l, tests, base, a, b);
      ValuesTell(r, tests, base, a, b);
    case Infix(_, l, r) =>
      CodesTell(base, Eval(g, l, a), Eval(g, r, a), Eval(g, l, b), Eval(g, r, b));
      ValuesTell(l, tests, base, a, b);
      ValuesTell(r, tests, base, a, b);
    case _ =>
  }

  /** A value that no constant has and no function gives is that of its own column only. */
  lemma OnlyBareShows(e: Expr, tests: set<int>, f: Name, atom: int)
    requires Avoids(e, atom) && Without(e, tests) && e != Ref(f) && atom > 3
    ensures EvalGroup(Telling(tests, atom + 1), e, [Row(map[f := Some(atom)], 0)]) != Some(atom)
  {
  }

  // ---- Exactly the rereadable lists --------------------------------------------------------------

  /** OFFSET and LIMIT let a row through. */
  predicate LetsOne(q: Query) { q.offset == 0 && (q.limit.None? || q.limit.value >= 1) }

  function TestOperators(q: Query): set<int> {
    (if q.condition.Some? && q.condition.value.Infix? then {q.condition.value.op} else {})
    + (if q.having.Some? && q.having.value.Infix? then {q.having.value.op} else {})
  }

  /** WHERE and HAVING are tests, whose outermost operators are none of SELECT's. */
  predicate TestsApart(q: Query) {
    && (q.condition.Some? ==> q.condition.value.Infix?) && (q.having.Some? ==> q.having.value.Infix?)
    && forall i | 0 <= i < |q.select| :: Without(q.select[i].expr, TestOperators(q))
  }

  /** One row that passes both tests is one group. */
  lemma OneGroup(g: Engine, q: Query, row: Row)
    requires Aggregating(q) && LetsOne(q)
    requires q.condition.Some? ==> Eval(g, q.condition.value, row) == TRUE
    requires q.having.Some? ==> EvalGroup(g, q.having.value, [row]) == TRUE
    ensures AggregateValues(g, q, [row]) == [GroupKey(g, SelectList(q.select), [row])]
  {
    PassesAlone(g, q, row);
    var es, groups := SelectList(q.select), [[row]];
    assert SurvivingGroups(g, q, [row]) == groups;
    assert GroupKeys(g, es, groups) == [GroupKey(g, es, [row])];
    FirstOfOne(GroupKeys(g, es, groups));
  }

  lemma PassesAlone(g: Engine, q: Query, row: Row)
    requires q.condition.Some? ==> Eval(g, q.condition.value, row) == TRUE
    requires q.having.Some? ==> EvalGroup(g, q.having.value, [row]) == TRUE
    ensures Filter(g, q.condition, [row]) == [row] && SurvivingGroups(g, q, [row]) == [[row]]
  {
    assert seq(1, i => i) == [0] && Pick([row], [0]) == [row] && Pick([[row]], [0]) == [[row]];
    if q.condition.Some? {
      AllTrue(EvalRows(g, q.condition.value, [row]));
    }
    assert Filter(g, q.condition, [row]) == [row];
    GroupsAreSingles(g, q.groupBy, [row]);
    assert Singles([row]) == [[row]];
    if q.having.Some? {
      AllTrue(EvalGroups(g, q.having.value, [[row]]));
    }
    assert FilterGroups(g, q.having, [[row]]) == [[row]];
    SortOfOneGroup(g, q.orderBy, [row]);
  }

  /** An engine, whether the input rows are marked, and the rows. */
  datatype Case = Case(g: Engine, marked: bool, rows: seq<Row>)

  predicate AsComputed(q: Query, x: Case) { Written(x.g, x.marked, q, x.rows) == AggregateValues(x.g, q, x.rows) }

  /** The record with one column, on which term i is computed from a value and written
      without it. */
  lemma RereadIsSeen(q: Query, i: int, f: Name) returns (x: Case)
    requires Aggregating(q) && DistinctOutputs(q.select) && LetsOne(q) && TestsApart(q) && 0 <= i < |q.select|
    requires var e := q.select[i].expr; !ContainsAggregate(e) && !ContainsRandom(e) && f in Fields(e) && !Bare(q.select, f)
    ensures !AsComputed(q, x)
  {
    var tests, es := TestOperators(q), SelectList(q.select);
    var atom := AboveAll(es) + 1;
    AboveAllIsBig(es);
    ListAvoids(es, atom);
    var g, row := Telling(tests, atom + 1), Row(map[f := Some(atom)], 0);
    x := Case(g, false, [row]);
    OneGroup(g, q, row);
    OtherCell(q, tests, f, atom, row);
    RereadDiffers(q, i, f, tests, atom, row);
  }

  /** The row of outputs does not hold the value under f. */
  lemma OtherCell(q: Query, tests: set<int>, f: Name, atom: int, row: Row)
    requires DistinctOutputs(q.select) && !Bare(q.select, f) && row == Row(map[f := Some(atom)], 0) && atom > 3
    requires forall j | 0 <= j < |q.select| :: Without(q.select[j].expr, tests) && Avoids(SelectList(q.select)[j], atom)
    ensures Cell(OutputRow(Telling(tests, atom + 1), q.select, [row], 0), f) != Some(atom)
  {
    var g := Telling(tests, atom + 1);
    var key := GroupKey(g, SelectList(q.select), [row]);
    ExportedNames(q.select, key, |q.select|);
    if j :| 0 <= j < |q.select| && q.select[j].output == f {
      ExportAt(q.select, key, |q.select|, j);
      OnlyBareShows(q.select[j].expr, tests, f, atom);
    }
  }

  lemma RereadDiffers(q: Query, i: int, f: Name, tests: set<int>, atom: int, row: Row)
    requires Aggregating(q) && 0 <= i < |q.select| && row == Row(map[f := Some(atom)], 0)
    requires var e := q.select[i].expr; !ContainsAggregate(e) && !ContainsRandom(e) && f in Fields(e) && Without(e, tests)
    requires AggregateValues(Telling(tests, atom + 1), q, [row]) == [GroupKey(Telling(tests, atom + 1), SelectList(q.select), [row])]
    requires Cell(OutputRow(Telling(tests, atom + 1), q.select, [row], 0), f) != Some(atom)
    ensures !AsComputed(q, Case(Telling(tests, atom + 1), false, [row]))
  {
    var g, e := Telling(tests, atom + 1), q.select[i].expr;
    var out := OutputRow(g, q.select, [row], 0);
    var written := Written(g, false, q, [row]);
    assert written == [HeldKey(g, false, q.select, out)];
    assert written[0][i] == Eval(g, e, out);
    HeadDecides(g, e, [row]);
    if Eval(g, e, out) == Eval(g, e, row) {
      ValuesTell(e, tests, atom + 1, out, row);
    }
  }

  /** A grouped main query is written as computed, for every engine and all rows, exactly
      when every select term has an aggregate or RANDOM, or reads only columns that are
      exported bare. */
  lemma WrittenExactly(q: Query)
    requires Aggregating(q) && DistinctOutputs(q.select) && LetsOne(q) && TestsApart(q)
    ensures (forall x: Case {:trigger AsComputed(q, x)} :: AsComputed(q, x)) <==> AllRereadable(q.select)
  {
    if AllRereadable(q.select) {
      forall x: Case ensures AsComputed(q, x) {
        WrittenWhenRereadable(x.g, x.marked, q, x.rows);
      }
    } else {
      var i :| 0 <= i < |q.select| && !Rereadable(q.select, q.select[i].expr);
      var f :| f in Fields(q.select[i].expr) && !Bare(q.select, f);
      var x := RereadIsSeen(q, i, f);
      assert !AsComputed(q, x);
    }
  }

  // ---- Tests that also are select terms ------------------------------------------------------------

  lemma {:induction false} TrueAreTrue(vs: seq<Value>)
    ensures forall i | 0 <= i < |TruePositions(vs)| :: vs[TruePositions(vs)[i]] == TRUE
  {
    if vs != [] {
      var front := vs[..|vs| - 1];
      TrueAreTrue(front);
      assert forall i | 0 <= i < |TruePositions(front)| :: vs[TruePositions(front)[i]] == front[TruePositions(front)[i]];
    }
  }

  lemma {:induction false} SortedAreGroups(g: Engine, terms: seq<OrderTerm>, groups: seq<seq<Row>>, group: seq<Row>)
    requires group in SortGroups(g, terms, groups)
    ensures group in groups
  {
    if terms != [] {
      var t, rest := terms[|terms| - 1], terms[..|terms| - 1];
      var picked := Pick(groups, OrderPositions(g, EvalGroups(g, t.expr, groups), t.descending));
      SortedAreGroups(g, rest, picked, group);
    }
  }

  lemma {:induction false} PositionsHold(keys: seq<seq<Value>>, key: seq<Value>, n: nat, at: int)
    requires 0 <= at < n <= |keys| && keys[at] == key
    ensures PositionsOf(keys, key, n) != []
  {
    if at < n - 1 {
      PositionsHold(keys, key, n - 1, at);
    }
  }

  /** With GROUP BY a surviving group has a row, which passed WHERE, and passes HAVING. */
  lemma SurvivorPasses(g: Engine, q: Query, rows: seq<Row>, group: seq<Row>)
    requires q.groupBy != [] && q.condition.Some? && q.having.Some?
    requires group in SurvivingGroups(g, q, Filter(g, q.condition, rows))
    ensures group != [] && Eval(g, q.condition.value, group[0]) == TRUE && EvalGroup(g, q.having.value, group) == TRUE
  {
    var kept := Filter(g, q.condition, rows);
    var groups := Groups(g, q.groupBy, kept);
    TrueAreTrue(EvalRows(g, q.condition.value, rows));
    TrueAreTrue(EvalGroups(g, q.having.value, groups));
    SortedAreGroups(g, q.orderBy, FilterGroups(g, q.having, groups), group);
    assert group in groups && EvalGroup(g, q.having.value, group) == TRUE;
    GroupIsOfRows(g, q.groupBy, kept, group);
  }

  lemma GroupIsOfRows(g: Engine, keyed: seq<Expr>, rows: seq<Row>, group: seq<Row>)
    requires keyed != [] && group in Groups(g, keyed, rows)
    ensures group != [] && group[0] in rows
  {
    var keys := KeysOf(g, keyed, rows);
    var firsts := FirstPositions(keys);
    var i :| 0 <= i < |firsts| && group == Pick(rows, PositionsOf(keys, keys[firsts[i]], |keys|));
    PositionsHold(keys, keys[firsts[i]], |keys|, firsts[i]);
  }

  /** SELECT a > b AS c, 2 AS a, 1 AS b ... WHERE a > b GROUP BY a > b HAVING 2 > 1. */
  predicate SharesTest(q: Query, op: int, a: Name, b: Name, c: Name) {
    && a != b && a != c && b != c
    && q == Query(Physical, Some(Infix(op, Ref(a), Ref(b))), [Infix(op, Ref(a), Ref(b))],
                  Some(Infix(op, Const(Some(2)), Const(Some(1)))), [],
                  [SelectTerm(Infix(op, Ref(a), Ref(b)), c, true), SelectTerm(Const(Some(2)), a, true),
                   SelectTerm(Const(Some(1)), b, true)], false, 0, None)
  }

  /** Where SELECT repeats a test, WHERE fixes the value that is computed and HAVING the one
      that is written: it is always as computed, though a and b are not exported bare. */
  lemma SharedTestIsKept(q: Query, op: int, a: Name, b: Name, c: Name, x: Case)
    requires SharesTest(q, op, a, b, c)
    ensures AsComputed(q, x) && !AllRereadable(q.select)
  {
    SharedTestIsReread(q, op, a, b, c);
    var values, written := AggregateValues(x.g, q, x.rows), Written(x.g, x.marked, q, x.rows);
    forall k | 0 <= k < |values| ensures written[k] == values[k] {
      var groups := SurvivingGroups(x.g, q, Filter(x.g, q.condition, x.rows));
      var keys := GroupKeys(x.g, SelectList(q.select), groups);
      AllFinish(q, keys);
      SurvivorPasses(x.g, q, x.rows, groups[k]);
      var row := OutputRow(x.g, q.select, groups[k], x.g.draw(0, k));
      assert written[k] == HeldKey(x.g, false, q.select, row);
      SharedTestRow(x.g, q, op, a, b, c, groups[k], row);
    }
  }

  lemma SharedTestIsReread(q: Query, op: int, a: Name, b: Name, c: Name)
    requires SharesTest(q, op, a, b, c)
    ensures !AllRereadable(q.select)
  {
    var e := q.select[0].expr;
    assert q.select[1].expr.Const? && q.select[2].expr.Const? && e.Infix?;
    assert forall j | 0 <= j < 3 :: !q.select[j].expr.Ref?;
    assert !Bare(q.select, a) && a in Fields(e);
    assert !ContainsAggregate(Ref(a)) && !ContainsAggregate(Ref(b)) && !ContainsRandom(Ref(a)) && !ContainsRandom(Ref(b));
    assert !Rereadable(q.select, e);
  }

  lemma AllFinish(q: Query, keys: seq<seq<Value>>)
    requires !q.distinct && q.offset == 0 && q.limit.None?
    ensures Finished(q, keys) == keys
  {
  }

  lemma SharedTestRow(g: Engine, q: Query, op: int, a: Name, b: Name, c: Name, group: seq<Row>, row: Row)
    requires SharesTest(q, op, a, b, c) && row == OutputRow(g, q.select, group, row.draw)
    requires group != [] && Eval(g, q.condition.value, group[0]) == TRUE && EvalGroup(g, q.having.value, group) == TRUE
    ensures HeldKey(g, false, q.select, row) == GroupKey(g, SelectList(q.select), group)
  {
    var key := GroupKey(g, SelectList(q.select), group);
    ExportAt(q.select, key, 3, 1);
    ExportAt(q.select, key, 3, 2);
    HeadDecides(g, q.select[0].expr, group);
    HeadDecides(g, q.having.value, group);
    assert key[1] == Some(2) && key[2] == Some(1) && key[0] == TRUE;
    assert Cell(row, a) == Some(2) && Cell(row, b) == Some(1);
    assert Eval(g, Ref(a), row) == Some(2) && Eval(g, Ref(b), row) == Some(1);
    assert Eval(g, Const(Some(2)), group[0]) == Some(2) && Eval(g, Const(Some(1)), group[0]) == Some(1);
    assert g.infix(op, Some(2), Some(1)) == TRUE;
    assert !ContainsAggregate(Ref(a)) && !ContainsAggregate(Ref(b)) && !ContainsRandom(Ref(a)) && !ContainsRandom(Ref(b));
    assert Held(g, false, q.select[0], row) == TRUE;
    assert Held(g, false, q.select[1], row) == Some(2) && Held(g, false, q.select[2], row) == Some(1);
  }

  // ---- A value that is lost ----------------------------------------------------------------------

  /** A grouping column whose name is no output is written as NULL. */
  lemma GroupedAliasIsWrittenNull(g: Engine, marked: bool, q: Query, rows: seq<Row>, i: int, f: Name, k: int)
    requires Aggregating(q) && 0 <= i < |q.select| && q.select[i].expr == Ref(f) && f !in Outputs(q)
    requires 0 <= k < |Written(g, marked, q, rows)|
    ensures Written(g, marked, q, rows)[k][i] == None
  {
    var values := AggregateValues(g, q, rows);
    if |values[k]| == |q.select| {
      ExportedNames(q.select, values[k], |q.select|);
    }
  }

  /** SELECT f AS u ... GROUP BY f on one record: the group has its value, and NULL is
      written. */
  lemma GroupedAliasIsLost(g: Engine, marked: bool, q: Query, f: Name, u: Name, v: int)
    requires f != u && q == Query(Physical, None, [Ref(f)], None, [], [SelectTerm(Ref(f), u, true)], false, 0, None)
    ensures var rows := [Row(map[f := Some(v)], 0)];
            AggregateValues(g, q, rows) == [[Some(v)]] && Written(g, marked, q, rows) == [[None]]
  {
    var row := Row(map[f := Some(v)], 0);
    OneGroup(g, q, row);
    assert GroupKey(g, SelectList(q.select), [row]) == [Some(v)];
    assert q.select[0].output == u;
    GroupedAliasIsWrittenNull(g, marked, q, [row], 0, f, 0);
    var written := Written(g, marked, q, [row])[0];
    assert written == [written[0]];
  }
}
