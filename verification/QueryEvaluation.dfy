/** Evaluation of resolved query bodies and of chains of common table expressions. */
module QueryEvaluation {
  import opened Options

  type Value = Option<int>   // None is NULL
  type Name = int

  const RANDOM: Name := -1

  /** A scalar expression.  Call is a named function, Infix an operator or CASE;
      Random is RANDOM() at one place of the text, Seeded is RANDOM(seed). */
  datatype Expr =
    | Const(value: Value)
    | Ref(field: Name)
    | Call(name: Name, left: Expr, right: Expr)
    | Infix(op: int, left: Expr, right: Expr)
    | Aggregate(name: Name, arg: Expr)
    | Random(site: int)
    | Seeded(seed: int)

  datatype SelectTerm = SelectTerm(expr: Expr, output: Name, aliased: bool)
  datatype OrderTerm = OrderTerm(expr: Expr, descending: bool)

  datatype Relation = Physical | Cte(index: int)

  /** A query body with an explicit SELECT and one FROM; a missing predicate is TRUE. */
  datatype Query = Query(
    from: Relation, condition: Option<Expr>, groupBy: seq<Expr>, having: Option<Expr>,
    orderBy: seq<OrderTerm>, select: seq<SelectTerm>, distinct: bool, offset: nat, limit: Option<int>)

  function Outputs(q: Query): set<Name> { set i | 0 <= i < |q.select| :: q.select[i].output }

  // ---- Expressions, groups and order --------------------------------------------------------

  /** A row: its cells, and the draw its volatile expressions take from. */
  datatype Row = Row(cells: map<Name, Value>, draw: int)

  function Cell(r: Row, f: Name): Value { if f in r.cells then r.cells[f] else None }

  /** The scalar functions, the order of values, and the source of randomness. */
  datatype Engine = Engine(
    call: (Name, Value, Value) -> Value,
    infix: (int, Value, Value) -> Value,
    aggregate: (Name, seq<Value>) -> Value,
    random: (int, int) -> Value,
    seeded: (int, map<Name, Value>) -> Value,
    before: (seq<Value>, int, int) -> bool,
    draw: (int, int) -> int)

  function Eval(g: Engine, e: Expr, r: Row): Value {
    match e
    case Const(v) => v
    case Ref(f) => Cell(r, f)
    case Call(name, a, b) => g.call(name, Eval(g, a, r), Eval(g, b, r))
    case Infix(op, a, b) => g.infix(op, Eval(g, a, r), Eval(g, b, r))
    case Aggregate(_, _) => None
    case Random(site) => g.random(r.draw, site)
    case Seeded(seed) => g.seeded(seed, r.cells)
  }

  function EvalRows(g: Engine, e: Expr, rows: seq<Row>): (vs: seq<Value>)
    ensures |vs| == |rows|
  {
    seq(|rows|, i requires 0 <= i < |rows| => Eval(g, e, rows[i]))
  }

  const NO_ROW := Row(map[], 0)

  /** An expression over a group: aggregates over its rows, the rest over the first. */
  function EvalGroup(g: Engine, e: Expr, group: seq<Row>): Value {
    match e
    case Call(name, a, b) => g.call(name, EvalGroup(g, a, group), EvalGroup(g, b, group))
    case Infix(op, a, b) => g.infix(op, EvalGroup(g, a, group), EvalGroup(g, b, group))
    case Aggregate(name, a) => g.aggregate(name, EvalRows(g, a, group))
    case _ => Eval(g, e, if group == [] then NO_ROW else group[0])
  }

  function EvalGroups(g: Engine, e: Expr, groups: seq<seq<Row>>): (vs: seq<Value>)
    ensures |vs| == |groups|
  {
    seq(|groups|, i requires 0 <= i < |groups| => EvalGroup(g, e, groups[i]))
  }

  predicate Within(positions: seq<int>, count: int) {
    forall i | 0 <= i < |positions| :: 0 <= positions[i] < count
  }

  function Pick<T>(q: seq<T>, positions: seq<int>): (r: seq<T>)
    requires Within(positions, |q|)
    ensures |r| == |positions|
  {
    seq(|positions|, i requires 0 <= i < |positions| => q[positions[i]])
  }

  const TRUE: Value := Some(1)

  /** The positions of the values that are TRUE. */
  function TruePositions(vs: seq<Value>): (p: seq<int>)
    ensures Within(p, |vs|)
  {
    if vs == [] then []
    else TruePositions(vs[..|vs| - 1]) + if vs[|vs| - 1] == TRUE then [|vs| - 1] else []
  }

  /** The position of the last value goes behind every present one it does not precede. */
  function Insert(g: Engine, vs: seq<Value>, descending: bool, sorted: seq<int>, x: int): (p: seq<int>)
    requires Within(sorted, |vs|) && 0 <= x < |vs| && vs[x].Some?
    requires forall i | 0 <= i < |sorted| :: vs[sorted[i]].Some?
    ensures Within(p, |vs|) && forall i | 0 <= i < |p| :: vs[p[i]].Some?
  {
    if sorted == [] then [x]
    else
      var y := sorted[|sorted| - 1];
      var earlier := if descending then g.before(vs, vs[y].value, vs[x].value) else g.before(vs, vs[x].value, vs[y].value);
      if earlier then Insert(g, vs, descending, sorted[..|sorted| - 1], x) + [y] else sorted + [x]
  }

  function SortedPresent(g: Engine, vs: seq<Value>, descending: bool, n: nat): (p: seq<int>)
    requires n <= |vs|
    ensures Within(p, |vs|) && forall i | 0 <= i < |p| :: vs[p[i]].Some?
  {
    if n == 0 then []
    else
      var before := SortedPresent(g, vs, descending, n - 1);
      if vs[n - 1].Some? then Insert(g, vs, descending, before, n - 1) else before
  }

  function Missing(vs: seq<Value>, n: nat): (p: seq<int>)
    requires n <= |vs|
    ensures Within(p, |vs|)
  {
    if n == 0 then [] else Missing(vs, n - 1) + if vs[n - 1].None? then [n - 1] else []
  }

  /** One ORDER BY term: stable, NULLs last; before depends on all the values, which
      decide whether they are compared as they are or as text. */
  function OrderPositions(g: Engine, vs: seq<Value>, descending: bool): (p: seq<int>)
    ensures Within(p, |vs|)
  {
    SortedPresent(g, vs, descending, |vs|) + Missing(vs, |vs|)
  }

  /** The first position of every distinct key. */
  function FirstPositions(keys: seq<seq<Value>>): (p: seq<int>)
    ensures Within(p, |keys|)
  {
    if keys == [] then []
    else
      var front := keys[..|keys| - 1];
      FirstPositions(front) + if keys[|keys| - 1] in front then [] else [|keys| - 1]
  }

  function PositionsOf(keys: seq<seq<Value>>, key: seq<Value>, n: nat): (p: seq<int>)
    requires n <= |keys|
    ensures Within(p, |keys|)
  {
    if n == 0 then [] else PositionsOf(keys, key, n - 1) + if keys[n - 1] == key then [n - 1] else []
  }

  function KeyOf(g: Engine, es: seq<Expr>, r: Row): seq<Value> {
    seq(|es|, i requires 0 <= i < |es| => Eval(g, es[i], r))
  }

  function KeysOf(g: Engine, es: seq<Expr>, rows: seq<Row>): (keys: seq<seq<Value>>)
    ensures |keys| == |rows|
  {
    seq(|rows|, i requires 0 <= i < |rows| => KeyOf(g, es, rows[i]))
  }

  /** GROUP BY: groups in order of first appearance; without it, one group. */
  function Groups(g: Engine, keyed: seq<Expr>, rows: seq<Row>): seq<seq<Row>> {
    if keyed == [] then [rows]
    else
      var keys := KeysOf(g, keyed, rows);
      var firsts := FirstPositions(keys);
      seq(|firsts|, i requires 0 <= i < |firsts| => Pick(rows, PositionsOf(keys, keys[firsts[i]], |keys|)))
  }

  function Slice<T>(q: seq<T>, offset: nat, limit: Option<int>): seq<T> {
    var rest := if |q| <= offset then [] else q[offset..];
    if limit.Some? && 0 <= limit.value < |rest| then rest[..limit.value] else rest
  }

  function Filter(g: Engine, e: Option<Expr>, rows: seq<Row>): seq<Row> {
    if e.None? then rows else Pick(rows, TruePositions(EvalRows(g, e.value, rows)))
  }

  function FilterGroups(g: Engine, e: Option<Expr>, groups: seq<seq<Row>>): seq<seq<Row>> {
    if e.None? then groups else Pick(groups, TruePositions(EvalGroups(g, e.value, groups)))
  }

  /** Sorted by the first n terms, the last of them first. */
  function Sort(g: Engine, terms: seq<OrderTerm>, rows: seq<Row>): seq<Row> {
    if terms == [] then rows
    else
      var t, rest := terms[|terms| - 1], terms[..|terms| - 1];
      Sort(g, rest, Pick(rows, OrderPositions(g, EvalRows(g, t.expr, rows), t.descending)))
  }

  function SortGroups(g: Engine, terms: seq<OrderTerm>, groups: seq<seq<Row>>): seq<seq<Row>> {
    if terms == [] then groups
    else
      var t, rest := terms[|terms| - 1], terms[..|terms| - 1];
      SortGroups(g, rest, Pick(groups, OrderPositions(g, EvalGroups(g, t.expr, groups), t.descending)))
  }

  function SelectList(select: seq<SelectTerm>): (es: seq<Expr>)
    ensures |es| == |select|
  {
    seq(|select|, i requires 0 <= i < |select| => select[i].expr)
  }

  /** The exported cells, given the value of every select term. */
  function Export(select: seq<SelectTerm>, values: seq<Value>, n: nat): map<Name, Value>
    requires n <= |select| == |values|
  {
    if n == 0 then map[] else Export(select, values, n - 1)[select[n - 1].output := values[n - 1]]
  }

  function GroupKey(g: Engine, es: seq<Expr>, group: seq<Row>): (key: seq<Value>)
    ensures |key| == |es|
  {
    seq(|es|, i requires 0 <= i < |es| => EvalGroup(g, es[i], group))
  }

  function GroupKeys(g: Engine, es: seq<Expr>, groups: seq<seq<Row>>): (keys: seq<seq<Value>>)
    ensures |keys| == |groups|
  {
    seq(|groups|, i requires 0 <= i < |groups| => GroupKey(g, es, groups[i]))
  }

  predicate ContainsAggregate(e: Expr) {
    match e
    case Call(_, l, r) => ContainsAggregate(l) || ContainsAggregate(r)
    case Infix(_, l, r) => ContainsAggregate(l) || ContainsAggregate(r)
    case Aggregate(_, _) => true
    case _ => false
  }

  predicate Aggregating(q: Query) {
    || q.groupBy != []
    || (exists i :: 0 <= i < |q.select| && ContainsAggregate(q.select[i].expr))
    || (exists i :: 0 <= i < |q.orderBy| && ContainsAggregate(q.orderBy[i].expr))
    || (q.having.Some? && ContainsAggregate(q.having.value))
  }

  /** The draw of the k-th row a relation materialises. */
  function Materialise(g: Engine, id: int, cells: seq<map<Name, Value>>): (rows: seq<Row>)
    ensures |rows| == |cells|
  {
    seq(|cells|, k requires 0 <= k < |cells| => Row(cells[k], g.draw(id, k)))
  }

  // ---- Select terms ---------------------------------------------------------------------

  /** RANDOM, seeded or not, anywhere inside. */
  predicate ContainsRandom(e: Expr) {
    match e
    case Call(_, l, r) => ContainsRandom(l) || ContainsRandom(r)
    case Infix(_, l, r) => ContainsRandom(l) || ContainsRandom(r)
    case Aggregate(_, a) => ContainsRandom(a)
    case Random(_) => true
    case Seeded(_) => true
    case _ => false
  }

  /** canonical_record_value of a select term: on a marked row, which a CTE has
      materialised, and for aggregate and random terms on any row, the row's own column
      of the output's name comes before the expression. */
  function Held(g: Engine, marked: bool, t: SelectTerm, r: Row): Value {
    if (marked || ContainsAggregate(t.expr) || ContainsRandom(t.expr)) && t.output in r.cells
    then r.cells[t.output]
    else Eval(g, t.expr, r)
  }

  function HeldKey(g: Engine, marked: bool, select: seq<SelectTerm>, r: Row): (key: seq<Value>)
    ensures |key| == |select|
  {
    seq(|select|, i requires 0 <= i < |select| => Held(g, marked, select[i], r))
  }

  function HeldKeys(g: Engine, marked: bool, select: seq<SelectTerm>, rows: seq<Row>): (keys: seq<seq<Value>>)
    ensures |keys| == |rows|
  {
    seq(|rows|, k requires 0 <= k < |rows| => HeldKey(g, marked, select, rows[k]))
  }

  /** The row with the first n terms' random outputs added. */
  function WithDraws(g: Engine, select: seq<SelectTerm>, n: nat, r: Row): Row
    requires n <= |select|
  {
    if n == 0 then r
    else
      var w, t := WithDraws(g, select, n - 1, r), select[n - 1];
      if ContainsRandom(t.expr) then w.(cells := w.cells[t.output := Held(g, false, t, r)]) else w
  }

  function Drawn(g: Engine, select: seq<SelectTerm>, rows: seq<Row>): (drawn: seq<Row>)
    ensures |drawn| == |rows|
  {
    seq(|rows|, k requires 0 <= k < |rows| => WithDraws(g, select, |select|, rows[k]))
  }

  // ---- A query body ---------------------------------------------------------------------

  /** DISTINCT, OFFSET and LIMIT over the values of aggregate rows. */
  function Finished(q: Query, keys: seq<seq<Value>>): seq<seq<Value>> {
    Slice(if q.distinct then Pick(keys, FirstPositions(keys)) else keys, q.offset, q.limit)
  }

  /** DISTINCT, OFFSET and LIMIT over plain rows. */
  function FinishedRows(g: Engine, marked: bool, q: Query, rows: seq<Row>): seq<Row> {
    Slice(if q.distinct then Pick(rows, FirstPositions(HeldKeys(g, marked, q.select, rows))) else rows, q.offset, q.limit)
  }

  function SurvivingGroups(g: Engine, q: Query, kept: seq<Row>): seq<seq<Row>> {
    SortGroups(g, q.orderBy, FilterGroups(g, q.having, Groups(g, q.groupBy, kept)))
  }

  function ExportAll(select: seq<SelectTerm>, keys: seq<seq<Value>>): (cells: seq<map<Name, Value>>)
    ensures |cells| == |keys|
  {
    seq(|keys|, k requires 0 <= k < |keys| => if |keys[k]| == |select| then Export(select, keys[k], |select|) else map[])
  }

  /** The values _apply_aggregate_query gives every select term, row for row. */
  function AggregateValues(g: Engine, q: Query, rows: seq<Row>): seq<seq<Value>> {
    Finished(q, GroupKeys(g, SelectList(q.select), SurvivingGroups(g, q, Filter(g, q.condition, rows))))
  }

  /** The rows a plain body keeps, before its draws. */
  function KeptRows(g: Engine, marked: bool, q: Query, rows: seq<Row>): seq<Row> {
    FinishedRows(g, marked, q, Sort(g, q.orderBy, Filter(g, q.condition, rows)))
  }

  /** The rows _apply_query_body returns without aggregation. */
  function PlainRows(g: Engine, marked: bool, q: Query, rows: seq<Row>): seq<Row> {
    Drawn(g, q.select, KeptRows(g, marked, q, rows))
  }

  /** The rows a CTE materialises: every output of its resolved body over the input rows,
      which are marked when they come from a CTE themselves. */
  function Body(g: Engine, id: int, marked: bool, q: Query, rows: seq<Row>): seq<Row> {
    Materialise(g, id, ExportAll(q.select,
      if Aggregating(q) then AggregateValues(g, q, rows) else HeldKeys(g, marked, q.select, PlainRows(g, marked, q, rows))))
  }

  /** What is written for the main query.  Its rows have lost their marks by then: a
      column of an aggregate row that holds no aggregate is evaluated once more, on the
      row of outputs. */
  function Written(g: Engine, marked: bool, q: Query, rows: seq<Row>): seq<seq<Value>> {
    HeldKeys(g, false, q.select,
      if Aggregating(q) then Materialise(g, 0, ExportAll(q.select, AggregateValues(g, q, rows)))
      else PlainRows(g, marked, q, rows))
  }

  // ---- Resolution of names -------------------------------------------------------------

  /** The expression an explicit alias stands for. */
  function AliasOf(select: seq<SelectTerm>, name: Name, n: nat): Option<Expr>
    requires n <= |select|
  {
    if n == 0 then None
    else if select[n - 1].aliased && select[n - 1].output == name then Some(select[n - 1].expr)
    else AliasOf(select, name, n - 1)
  }

  /** ORDER BY and HAVING see the explicit aliases, at any depth, before the fields. */
  function Resolved(select: seq<SelectTerm>, e: Expr): Expr {
    match e
    case Ref(f) => if AliasOf(select, f, |select|).Some? then AliasOf(select, f, |select|).value else e
    case Call(name, l, r) => Call(name, Resolved(select, l), Resolved(select, r))
    case Infix(op, l, r) => Infix(op, Resolved(select, l), Resolved(select, r))
    case Aggregate(name, a) => Aggregate(name, Resolved(select, a))
    case _ => e
  }

  function ResolveQuery(q: Query): Query {
    q.(having := if q.having.None? then None else Some(Resolved(q.select, q.having.value)),
       orderBy := seq(|q.orderBy|, i requires 0 <= i < |q.orderBy| =>
                        OrderTerm(Resolved(q.select, q.orderBy[i].expr), q.orderBy[i].descending)))
  }

  // ---- The chain ---------------------------------------------------------------------------

  /** The rows of CTE i. */
  function CteRows(g: Engine, ctes: seq<Query>, physical: seq<Row>, i: int): seq<Row>
    requires 0 <= i < |ctes|
    decreases i
  {
    var from := ctes[i].from;
    if from.Cte? && 0 <= from.index < i
    then Body(g, i, true, ResolveQuery(ctes[i]), CteRows(g, ctes, physical, from.index))
    else Body(g, i, false, ResolveQuery(ctes[i]), physical)
  }

  /** What is written for the whole query. */
  function Answer(g: Engine, ctes: seq<Query>, main: Query, physical: seq<Row>): seq<seq<Value>> {
    var from := main.from;
    if from.Cte? && 0 <= from.index < |ctes|
    then Written(g, true, ResolveQuery(main), CteRows(g, ctes, physical, from.index))
    else Written(g, false, ResolveQuery(main), physical)
  }

  // ---- What the steps of a body compute ---------------------------------------------------

  ghost predicate Increasing(p: seq<int>) { forall i, j | 0 <= i < j < |p| :: p[i] < p[j] }

  /** WHERE and HAVING keep exactly the rows for which the value is TRUE, in their order. */
  lemma {:induction false} TruePositionsAre(vs: seq<Value>, i: int)
    ensures Increasing(TruePositions(vs))
    ensures i in TruePositions(vs) <==> 0 <= i < |vs| && vs[i] == TRUE
  {
    if vs != [] {
      TruePositionsAre(vs[..|vs| - 1], i);
    }
  }

  lemma {:induction false} FirstPositionsIncrease(keys: seq<seq<Value>>)
    ensures Increasing(FirstPositions(keys))
  {
    if keys != [] {
      FirstPositionsIncrease(keys[..|keys| - 1]);
    }
  }

  /** DISTINCT and GROUP BY keep the first position of every key, in order. */
  lemma {:induction false} FirstPositionsAre(keys: seq<seq<Value>>, i: int)
    ensures i in FirstPositions(keys) <==> 0 <= i < |keys| && forall j | 0 <= j < i :: keys[j] != keys[i]
  {
    if keys != [] {
      var front, last := keys[..|keys| - 1], keys[|keys| - 1];
      FirstPositionsAre(front, i);
      assert last in front <==> exists j :: 0 <= j < |front| && keys[j] == last;
    }
  }

  lemma {:induction false} PositionsOfAre(keys: seq<seq<Value>>, key: seq<Value>, n: nat, i: int)
    requires n <= |keys|
    ensures Increasing(PositionsOf(keys, key, n)) && forall k | 0 <= k < |PositionsOf(keys, key, n)| :: PositionsOf(keys, key, n)[k] < n
    ensures i in PositionsOf(keys, key, n) <==> 0 <= i < n && keys[i] == key
  {
    if n > 0 {
      PositionsOfAre(keys, key, n - 1, i);
    }
  }

  /** OFFSET rows are passed over, and then no more than LIMIT are kept; a negative LIMIT
      keeps all. */
  lemma SliceIs<T>(q: seq<T>, offset: nat, limit: Option<int>)
    ensures var rows := Slice(q, offset, limit);
            && |rows| == (if |q| <= offset then 0
                          else if limit.Some? && 0 <= limit.value <= |q| - offset then limit.value else |q| - offset)
            && forall i | 0 <= i < |rows| :: rows[i] == q[offset + i]
  {
  }

  /** x goes before y in the direction of the term. */
  predicate Earlier(g: Engine, vs: seq<Value>, descending: bool, x: int, y: int) {
    if descending then g.before(vs, y, x) else g.before(vs, x, y)
  }

  /** The order of values is one: no two precede each other, and where x precedes z, any
      other comes after x or before z. */
  ghost predicate WeakOrder(g: Engine, vs: seq<Value>) {
    && (forall x: int, y: int {:trigger g.before(vs, x, y)} :: g.before(vs, x, y) ==> !g.before(vs, y, x))
    && forall x: int, y: int, z: int {:trigger g.before(vs, x, y), g.before(vs, y, z)} ::
         g.before(vs, x, z) ==> g.before(vs, x, y) || g.before(vs, y, z)
  }

  /** No later position goes before an earlier one, and equals keep their order. */
  ghost predicate InOrder(g: Engine, vs: seq<Value>, descending: bool, p: seq<int>)
    requires Within(p, |vs|) && forall i | 0 <= i < |p| :: vs[p[i]].Some?
  {
    forall a, b | 0 <= a < b < |p| ::
      && !Earlier(g, vs, descending, vs[p[b]].value, vs[p[a]].value)
      && (Earlier(g, vs, descending, vs[p[a]].value, vs[p[b]].value) || p[a] < p[b])
  }

  lemma {:induction false} InsertKeepsOrder(g: Engine, vs: seq<Value>, descending: bool, sorted: seq<int>, x: int)
    requires WeakOrder(g, vs) && Within(sorted, |vs|) && 0 <= x < |vs| && vs[x].Some?
    requires (forall i | 0 <= i < |sorted| :: vs[sorted[i]].Some?) && InOrder(g, vs, descending, sorted)
    requires forall i | 0 <= i < |sorted| :: sorted[i] < x
    ensures InOrder(g, vs, descending, Insert(g, vs, descending, sorted, x))
    ensures forall i :: i in Insert(g, vs, descending, sorted, x) <==> i in sorted || i == x
    ensures |Insert(g, vs, descending, sorted, x)| == |sorted| + 1
  {
    if sorted != [] {
      var front, y := sorted[..|sorted| - 1], sorted[|sorted| - 1];
      assert sorted == front + [y];
      if Earlier(g, vs, descending, vs[x].value, vs[y].value) {
        InsertKeepsOrder(g, vs, descending, front, x);
        assert sorted[|front|] == y;
        BehindAll(g, vs, descending, Insert(g, vs, descending, front, x), front, x, y);
      } else {
        forall a | 0 <= a < |sorted| ensures !Earlier(g, vs, descending, vs[x].value, vs[sorted[a]].value) {
          assert a < |front| ==> !Earlier(g, vs, descending, vs[y].value, vs[sorted[a]].value);
        }
      }
    }
  }

  lemma BehindAll(g: Engine, vs: seq<Value>, descending: bool, p: seq<int>, front: seq<int>, x: int, y: int)
    requires WeakOrder(g, vs) && Within(p, |vs|) && (forall i | 0 <= i < |p| :: vs[p[i]].Some?) && InOrder(g, vs, descending, p)
    requires Within(front + [y], |vs|) && (forall i | 0 <= i < |front + [y]| :: vs[(front + [y])[i]].Some?)
    requires InOrder(g, vs, descending, front + [y]) && 0 <= x < |vs| && vs[x].Some? && 0 <= y < |vs| && vs[y].Some?
    requires Earlier(g, vs, descending, vs[x].value, vs[y].value)
    requires forall i :: i in p <==> i in front || i == x
    ensures InOrder(g, vs, descending, p + [y])
  {
    var all := front + [y];
    forall a | 0 <= a < |p|
      ensures !Earlier(g, vs, descending, vs[y].value, vs[p[a]].value)
      ensures Earlier(g, vs, descending, vs[p[a]].value, vs[y].value) || p[a] < y
    {
      assert p[a] in p;
      if p[a] in front {
        var i :| 0 <= i < |front| && front[i] == p[a];
        assert all[i] == p[a] && all[|front|] == y;
      } else {
        NotBoth(g, vs, descending, vs[x].value, vs[y].value);
      }
    }
  }

  lemma NotBoth(g: Engine, vs: seq<Value>, descending: bool, x: int, y: int)
    requires WeakOrder(g, vs) && Earlier(g, vs, descending, x, y)
    ensures !Earlier(g, vs, descending, y, x)
  {
  }

  /** p holds the first n positions with a value. */
  ghost predicate PresentIn(vs: seq<Value>, n: nat, p: seq<int>)
    requires n <= |vs|
  {
    forall i :: i in p <==> 0 <= i < n && vs[i].Some?
  }

  /** p lists the first n positions with a value, in order. */
  ghost predicate Sorts(g: Engine, vs: seq<Value>, descending: bool, n: nat, p: seq<int>)
    requires n <= |vs|
  {
    && Within(p, |vs|) && (forall i | 0 <= i < |p| :: vs[p[i]].Some?)
    && InOrder(g, vs, descending, p) && PresentIn(vs, n, p) && |p| + |Missing(vs, n)| == n
  }

  lemma {:induction false} SortedPresentAre(g: Engine, vs: seq<Value>, descending: bool, n: nat)
    requires n <= |vs| && WeakOrder(g, vs)
    ensures Sorts(g, vs, descending, n, SortedPresent(g, vs, descending, n))
  {
    if n > 0 {
      SortedPresentAre(g, vs, descending, n - 1);
      SortsNext(g, vs, descending, n - 1);
    }
  }

  lemma SortsNext(g: Engine, vs: seq<Value>, descending: bool, n: nat)
    requires n < |vs| && WeakOrder(g, vs)
    ensures Sorts(g, vs, descending, n, SortedPresent(g, vs, descending, n)) ==>
              Sorts(g, vs, descending, n + 1, SortedPresent(g, vs, descending, n + 1))
  {
    var p := SortedPresent(g, vs, descending, n);
    if Sorts(g, vs, descending, n, p) && vs[n].Some? {
      NextPresent(g, vs, descending, p, n);
    }
  }

  lemma NextPresent(g: Engine, vs: seq<Value>, descending: bool, p: seq<int>, x: nat)
    requires x < |vs| && vs[x].Some? && WeakOrder(g, vs) && PresentIn(vs, x, p)
    requires Within(p, |vs|) && (forall i | 0 <= i < |p| :: vs[p[i]].Some?) && InOrder(g, vs, descending, p)
    ensures InOrder(g, vs, descending, Insert(g, vs, descending, p, x)) && PresentIn(vs, x + 1, Insert(g, vs, descending, p, x))
    ensures |Insert(g, vs, descending, p, x)| == |p| + 1
  {
    forall i | 0 <= i < |p| ensures p[i] < x {
      assert p[i] in p;
    }
    InsertKeepsOrder(g, vs, descending, p, x);
  }

  lemma {:induction false} MissingAre(vs: seq<Value>, n: nat, i: int)
    requires n <= |vs|
    ensures Increasing(Missing(vs, n)) && forall k | 0 <= k < |Missing(vs, n)| :: Missing(vs, n)[k] < n
    ensures i in Missing(vs, n) <==> 0 <= i < n && vs[i].None?
  {
    if n > 0 {
      MissingAre(vs, n - 1, i);
    }
  }

  /** ORDER BY one term is a stable sort, in the direction asked for, of the rows that have a
      value, with all others behind them as they came; every row is there once. */
  lemma OrderIsStable(g: Engine, vs: seq<Value>, descending: bool)
    requires WeakOrder(g, vs)
    ensures var p := OrderPositions(g, vs, descending);
            && |p| == |vs| && (forall i :: i in p <==> 0 <= i < |vs|)
            && forall a, b | 0 <= a < b < |p| ::
                 if vs[p[a]].Some? && vs[p[b]].Some?
                 then !Earlier(g, vs, descending, vs[p[b]].value, vs[p[a]].value)
                      && (Earlier(g, vs, descending, vs[p[a]].value, vs[p[b]].value) || p[a] < p[b])
                 else vs[p[b]].None? && (vs[p[a]].None? ==> p[a] < p[b])
  {
    var present, missing := SortedPresent(g, vs, descending, |vs|), Missing(vs, |vs|);
    SortedPresentAre(g, vs, descending, |vs|);
    forall i: int ensures Increasing(missing) && (i in missing <==> 0 <= i < |vs| && vs[i].None?) {
      MissingAre(vs, |vs|, i);
    }
    forall k | 0 <= k < |missing| ensures vs[missing[k]].None? {
      assert missing[k] in missing;
    }
  }
}
