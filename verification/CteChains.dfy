/** Whole chains: what makes the answer independent of the other fields, and how far
    covering every body is needed for that. */
module CteChains {
  import opened Options
  import opened QueryEvaluation
  import opened CteDependencies
  import opened CteExactness
  import opened CteLosses
  import opened GroupedOutput

  // ---- Columns carried through a chain ---------------------------------------------------------

  /** What a body's source holds, given what every CTE and the records hold. */
  function Source(held: seq<set<Name>>, physical: set<Name>, from: Relation): set<Name> {
    if from.Cte? && 0 <= from.index < |held| then held[from.index] else physical
  }

  /** Every body gives the columns held of it from what its source holds, and the main
      query all that it writes. */
  ghost predicate Carried(ctes: seq<Query>, main: Query, known: set<Name>, held: seq<set<Name>>, physical: set<Name>) {
    && |held| == |ctes|
    && (forall i {:trigger held[i]} | 0 <= i < |held| ::
          BodyReadsOnly(ResolveQuery(ctes[i]), held[i], ScopeOf(ctes, known, ctes[i].from), Source(held, physical, ctes[i].from)))
    && ClausesReadOnly(ResolveQuery(main), ScopeOf(ctes, known, main.from), Source(held, physical, main.from))
    && SelectCovered(ResolveQuery(main), ScopeOf(ctes, known, main.from).exact, false, Outputs(main),
                     ScopeOf(ctes, known, main.from), Source(held, physical, main.from))
  }

  lemma {:induction false} CarriedRows(g: Engine, ctes: seq<Query>, main: Query, known: set<Name>, held: seq<set<Name>>,
                                       physical: set<Name>, p: seq<Row>, r: seq<Row>, i: int)
    requires WellFormed(ctes, main) && Carried(ctes, main, known, held, physical) && 0 <= i < |ctes|
    requires AgreeAll(p, r, Scope(known, false), physical)
    ensures AgreeAll(CteRows(g, ctes, p, i), CteRows(g, ctes, r, i), Scope(Outputs(ctes[i]), true), held[i])
    decreases i
  {
    var from, s := ctes[i].from, ResolveQuery(ctes[i]);
    assert Outputs(s) == Outputs(ctes[i]);
    if from.Cte? {
      CarriedRows(g, ctes, main, known, held, physical, p, r, from.index);
      BodyAgrees(g, i, s, CteRows(g, ctes, p, from.index), CteRows(g, ctes, r, from.index), held[i],
                 ScopeOf(ctes, known, from), held[from.index]);
    } else {
      BodyAgrees(g, i, s, p, r, held[i], Scope(known, false), physical);
    }
  }

  /** Records that agree on the carried physical fields give the same answer.  The columns
      held need not be those any plan requires. */
  lemma CarriedAnswer(g: Engine, ctes: seq<Query>, main: Query, known: set<Name>, held: seq<set<Name>>,
                      physical: set<Name>, p: seq<Row>, r: seq<Row>)
    requires WellFormed(ctes, main) && Carried(ctes, main, known, held, physical)
    requires AgreeAll(p, r, Scope(known, false), physical)
    ensures Answer(g, ctes, main, p) == Answer(g, ctes, main, r)
  {
    var s, scope := ResolveQuery(main), ScopeOf(ctes, known, main.from);
    assert Outputs(s) == Outputs(main);
    if main.from.Cte? {
      var j := main.from.index;
      CarriedRows(g, ctes, main, known, held, physical, p, r, j);
      WrittenAgrees(g, s, CteRows(g, ctes, p, j), CteRows(g, ctes, r, j), scope, held[j]);
    } else {
      WrittenAgrees(g, s, p, r, scope, physical);
    }
  }

  // ---- Covering every body is not needed ---------------------------------------------------------

  /** WITH a AS (SELECT id, view_count AS v, 5 AS d FROM @x), and b and main as before. */
  predicate Constant(a: Query) {
    && a.from == Physical && a.condition.None? && a.groupBy == [] && a.having.None? && a.orderBy == []
    && !a.distinct && a.offset == 0 && a.limit.None? && |a.select| == 3
    && Column(a, 0, ID, ID) && Column(a, 1, VIEWS, V) && a.select[2].expr == Const(Some(5)) && a.select[2].output == D
  }

  lemma PlanOfConstant(a: Query)
    requires Constant(a)
    ensures ResolveQuery(a) == a && !Aggregating(a) && DistinctOutputs(a.select) && Outputs(a) == {ID, V, D}
    ensures Producer(a, {ID, V}).input == {ID, VIEWS}
  {
    assert a.select[0].output == ID && a.select[1].output == V && a.select[2].output == D;
    assert Volatile(a) == {} && NonProjectionFields(a) == {};
    assert SelectFields(a, {ID, V}) == {ID, VIEWS} by {
      assert ID in Fields(a.select[0].expr) && VIEWS in Fields(a.select[1].expr);
    }
  }

  lemma ConstantCarries(a: Query, known: set<Name>)
    requires Constant(a)
    ensures BodyReadsOnly(ResolveQuery(a), {ID, V, D}, Scope(known, false), {ID, VIEWS})
  {
    PlanOfConstant(a);
  }

  lemma TwoCarry(q: Query, names: set<Name>, v: Name)
    requires SelectsTwo(q, q.from, ID, ID, v, D) && {ID, v, D} <= names
    ensures BodyReadsOnly(ResolveQuery(q), {ID, D}, Scope(names, true), {ID, v, D})
    ensures v == D ==> ClausesReadOnly(ResolveQuery(q), Scope(names, true), {ID, D})
                       && SelectCovered(ResolveQuery(q), true, false, Outputs(q), Scope(names, true), {ID, D})
  {
    assert ResolveQuery(q) == q && !Aggregating(q);
    forall i | 0 <= i < |q.select| ensures !ContainsRandom(q.select[i].expr) {
      assert q.select[i].expr.Ref?;
    }
  }

  /** b finds the constant a.d, so its plan does not cover it, and yet nothing is lost: over
      a whole chain a shadowed column must also depend on something unplanned. */
  lemma UncoveredYetPreserved(g: Engine, a: Query, b: Query, main: Query, known: set<Name>, p: seq<Row>, r: seq<Row>)
    requires Constant(a) && SelectsTwo(b, Cte(0), ID, ID, V, D) && SelectsTwo(main, Cte(1), ID, ID, D, D)
    requires AgreeAll(p, r, Scope(known, false), PhysicalFields([a, b], main))
    ensures WellFormed([a, b], main) && !AllCovered([a, b], main, known)
    ensures Answer(g, [a, b], main, p) == Answer(g, [a, b], main, r)
  {
    PlanOfConstant(a);
    PlanOfColumns(b, Cte(0), ID, ID, V, D);
    PlanOfColumns(main, Cte(1), ID, ID, D, D);
    PlanOfTwo(a, b, main, {ID, D}, {ID, V}, {ID, VIEWS});
    ConstantIsCarried(a, b, main, known);
    CarriedAnswer(g, [a, b], main, known, [{ID, V, D}, {ID, D}], {ID, VIEWS}, p, r);
    ShadowIsUncovered(a, b, main, known);
  }

  lemma ConstantIsCarried(a: Query, b: Query, main: Query, known: set<Name>)
    requires Constant(a) && SelectsTwo(b, Cte(0), ID, ID, V, D) && SelectsTwo(main, Cte(1), ID, ID, D, D)
    ensures WellFormed([a, b], main) && Carried([a, b], main, known, [{ID, V, D}, {ID, D}], {ID, VIEWS})
  {
    PlanOfConstant(a);
    ConstantCarries(a, known);
    OutputsOfTwo(b, V);
    OutputsOfTwo(main, D);
    TwoCarry(b, {ID, V, D}, V);
    TwoCarry(main, {ID, D}, D);
    CarriedByTwo(a, b, main, known, {ID, V, D}, {ID, D}, {ID, VIEWS});
  }

  lemma OutputsOfTwo(q: Query, v: Name)
    requires SelectsTwo(q, q.from, ID, ID, v, D)
    ensures Outputs(q) == {ID, D} && DistinctOutputs(q.select)
  {
    TwoColumns(q, q.from, ID, ID, v, D);
  }

  lemma CarriedByTwo(a: Query, b: Query, main: Query, known: set<Name>, ofA: set<Name>, ofB: set<Name>, physical: set<Name>)
    requires a.from == Physical && b.from == Cte(0) && main.from == Cte(1)
    requires DistinctOutputs(a.select) && DistinctOutputs(b.select) && DistinctOutputs(main.select)
    requires BodyReadsOnly(ResolveQuery(a), ofA, Scope(known, false), physical)
    requires BodyReadsOnly(ResolveQuery(b), ofB, Scope(Outputs(a), true), ofA)
    requires ClausesReadOnly(ResolveQuery(main), Scope(Outputs(b), true), ofB)
    requires SelectCovered(ResolveQuery(main), true, false, Outputs(main), Scope(Outputs(b), true), ofB)
    ensures WellFormed([a, b], main) && Carried([a, b], main, known, [ofA, ofB], physical)
  {
  }

  lemma ShadowIsUncovered(a: Query, b: Query, main: Query, known: set<Name>)
    requires Constant(a) && SelectsTwo(b, Cte(0), ID, ID, V, D) && SelectsTwo(main, Cte(1), ID, ID, D, D)
    ensures !AllCovered([a, b], main, known)
  {
    PlanOfConstant(a);
    PlanOfColumns(b, Cte(0), ID, ID, V, D);
    PlanOfColumns(main, Cte(1), ID, ID, D, D);
    assert RequiredFrom([a, b], main, 1, 2) == {ID, D};
    assert PlanOf([a, b], main, 1) == Producer(b, {ID, D});
    assert Producer(b, {ID, D}).required == {ID, D};
    assert ScopeOf([a, b], known, b.from) == Scope({ID, V, D}, true);
    ShadowIsRead(b);
  }

  lemma ShadowIsRead(b: Query)
    requires SelectsTwo(b, Cte(0), ID, ID, V, D)
    ensures !BodyReadsOnly(ResolveQuery(b), {ID, D}, Scope({ID, V, D}, true), {ID, V})
  {
    assert ResolveQuery(b) == b && !Aggregating(b);
    assert !HeldReadsOnly(b.select[1], true, Scope({ID, V, D}, true), {ID, V});
    assert !ExportReadsOnly(b.select, 1, true, Scope({ID, V, D}, true), {ID, V});
  }

  // ---- One CTE ------------------------------------------------------------------------------------

  /** SELECT some columns of the CTE under their own names. */
  predicate Passing(main: Query, required: set<Name>) {
    && OnlySelects(main, Cte(0)) && Outputs(main) == required
    && forall i | 0 <= i < |main.select| :: main.select[i].expr == Ref(main.select[i].output)
  }

  lemma PassingFields(main: Query, required: set<Name>)
    requires Passing(main, required)
    ensures NonProjectionFields(main) + SelectFields(main, Outputs(main)) == required
  {
    SelectingPlan(main, required);
    forall f ensures f in SelectFields(main, required) <==> f in required {
      if f in required {
        var i :| 0 <= i < |main.select| && main.select[i].output == f;
        assert f in Fields(main.select[i].expr);
      }
    }
  }

  lemma PassingPlan(a: Query, main: Query, required: set<Name>)
    requires a.from == Physical && Passing(main, required)
    ensures PlanOf([a], main, 0) == Producer(a, required) && PhysicalFields([a], main) == Producer(a, required).input
  {
    PassingFields(main, required);
    PlanOfOne(a, main, required);
  }

  lemma PlanOfOne(a: Query, main: Query, required: set<Name>)
    requires a.from == Physical && main.from == Cte(0) && required == NonProjectionFields(main) + SelectFields(main, Outputs(main))
    ensures PlanOf([a], main, 0) == Producer(a, required) && PhysicalFields([a], main) == Producer(a, required).input
  {
    var ctes := [a];
    assert RequiredFrom(ctes, main, 0, 1) == required;
    assert PhysicalInput(ctes, main, 0) == Producer(a, required).input;
    forall f ensures f in PhysicalFields(ctes, main) <==> f in Producer(a, required).input {
      assert f in PhysicalInput(ctes, main, 0) ==> f in PhysicalFields(ctes, main);
    }
  }

  /** The cells of the columns are written, row for row. */
  lemma PassingWrites(g: Engine, main: Query, required: set<Name>, rows: seq<Row>)
    requires Passing(main, required)
    ensures |Written(g, true, ResolveQuery(main), rows)| == |rows|
    ensures forall k, i | 0 <= k < |rows| && 0 <= i < |main.select| ::
              Written(g, true, ResolveQuery(main), rows)[k][i] == Cell(rows[k], main.select[i].output)
  {
    assert ResolveQuery(main).orderBy == [] && ResolveQuery(main) == main && !Aggregating(main);
    assert KeptRows(g, true, main, rows) == rows;
    forall k | 0 <= k < |rows| ensures WithDraws(g, main.select, |main.select|, rows[k]) == rows[k] {
      NoDraws(g, main.select, |main.select|, rows[k]);
    }
    assert PlainRows(g, true, main, rows) == rows;
  }

  /** The chain of one CTE writes the same for two inputs exactly when the CTE's rows agree
      on the required outputs. */
  lemma SameWhenRowsAgree(g: Engine, a: Query, main: Query, required: set<Name>, p: seq<Row>, r: seq<Row>)
    requires a.from == Physical && DistinctOutputs(a.select) && Passing(main, required) && required <= Outputs(a)
    ensures Answer(g, [a], main, p) == Answer(g, [a], main, r) <==>
            AgreeAll(Body(g, 0, false, ResolveQuery(a), p), Body(g, 0, false, ResolveQuery(a), r), Scope(Outputs(a), true), required)
  {
    var s := ResolveQuery(a);
    var x, y := Body(g, 0, false, s, p), Body(g, 0, false, s, r);
    PassingWrites(g, main, required, x);
    PassingWrites(g, main, required, y);
    assert Answer(g, [a], main, p) == Written(g, true, ResolveQuery(main), x);
    assert Answer(g, [a], main, r) == Written(g, true, ResolveQuery(main), y);
    RowsHaveOutputs(g, s, p);
    RowsHaveOutputs(g, s, r);
    assert Outputs(s) == Outputs(a);
    if Answer(g, [a], main, p) == Answer(g, [a], main, r) {
      forall k | 0 <= k < |x| ensures Agree(x[k], y[k], Scope(Outputs(a), true), required) {
        forall f | f in required ensures Cell(x[k], f) == Cell(y[k], f) {
          var i :| 0 <= i < |main.select| && main.select[i].output == f;
          assert Written(g, true, ResolveQuery(main), x)[k][i] == Written(g, true, ResolveQuery(main), y)[k][i];
        }
      }
    } else if AgreeAll(x, y, Scope(Outputs(a), true), required) {
      SameWritten(g, main, required, x, y, Scope(Outputs(a), true));
    }
  }

  lemma SameWritten(g: Engine, main: Query, required: set<Name>, x: seq<Row>, y: seq<Row>, scope: Scope)
    requires Passing(main, required) && AgreeAll(x, y, scope, required)
    ensures Written(g, true, ResolveQuery(main), x) == Written(g, true, ResolveQuery(main), y)
  {
    PassingWrites(g, main, required, x);
    PassingWrites(g, main, required, y);
    var u, v := Written(g, true, ResolveQuery(main), x), Written(g, true, ResolveQuery(main), y);
    forall k | 0 <= k < |u| ensures u[k] == v[k] {
      forall i | 0 <= i < |main.select| ensures u[k][i] == v[k][i] {
        assert main.select[i].output in Outputs(main);
        assert Agree(x[k], y[k], scope, required);
      }
    }
  }

  lemma RowsHaveOutputs(g: Engine, s: Query, rows: seq<Row>)
    requires DistinctOutputs(s.select)
    ensures forall k | 0 <= k < |Body(g, 0, false, s, rows)| ::
              Body(g, 0, false, s, rows)[k].cells.Keys == Outputs(s) && Body(g, 0, false, s, rows)[k].draw == g.draw(0, k)
  {
    var values := if Aggregating(s) then AggregateValues(g, s, rows) else HeldKeys(g, false, s.select, PlainRows(g, false, s, rows));
    forall k | 0 <= k < |values| ensures Body(g, 0, false, s, rows)[k].cells.Keys == Outputs(s) {
      if Aggregating(s) {
        var group := ValuesAreOfGroups(g, s, rows, k);
      }
      ExportedNames(s.select, values[k], |s.select|);
    }
  }

  /** Inputs that agree on the planned fields give one answer. */
  ghost predicate AnswerKept(a: Query, main: Query, known: set<Name>, x: Trial) {
    AgreeAll(x.p, x.r, Scope(known, false), PhysicalFields([a], main)) ==>
    Answer(x.g, [a], main, x.p) == Answer(x.g, [a], main, x.r)
  }

  /** For a chain of one CTE whose columns are passed on, the answer is preserved, for every
      engine and all records that agree on the planned fields, if and only if the plan
      covers the CTE. */
  lemma OneCteIsExact(a: Query, main: Query, known: set<Name>, required: set<Name>, i: int)
    requires a.from == Physical && required <= Outputs(a) && Passing(main, required)
    requires Revealing(a, required, Scope(known, false), i)
    ensures Covered(a, required, Scope(known, false))
            <==> forall x: Trial {:trigger AnswerKept(a, main, known, x)} :: AnswerKept(a, main, known, x)
  {
    var s, scope, input := ResolveQuery(a), Scope(known, false), Producer(a, required).input;
    PassingPlan(a, main, required);
    PlanIsExact(a, required, scope, i);
    assert Outputs(s) == Outputs(a) && s.select == a.select;
    forall x: Trial ensures AnswerKept(a, main, known, x) <==> Preserved(s, required, scope, input, x) {
      SameWhenRowsAgree(x.g, a, main, required, x.p, x.r);
    }
  }
}
