/** The top-level AND terms of WHERE that the exact values of an enumeration decide. */
module StagedPredicates {
  import opened Options
  import opened Lists
  import opened LightweightTruth

  /** analyse_expression of the nodes only the evaluator reads: the fields each one
      looks at, and whether it is deterministic and needs no group. */
  datatype Properties = Properties(fields: int -> set<Field>, settled: int -> bool)

  function FieldsOf(p: Properties, n: Node): set<Field> {
    match n
    case Always => {}
    case Not(a) => FieldsOf(p, a)
    case And(a, b) => FieldsOf(p, a) + FieldsOf(p, b)
    case Or(a, b) => FieldsOf(p, a) + FieldsOf(p, b)
    case Compare(_, f, _) => {f}
    case Between(f, _, _, _) => {f}
    case InList(f, _, _) => {f}
    case IsNull(f, _) => {f}
    case TextTest(_, f, _, _) => {f}
    case TruthTest(a, _, _) => FieldsOf(p, a)
    case Other(code) => p.fields(code)
  }

  predicate Settled(p: Properties, n: Node) {
    match n
    case Not(a) => Settled(p, a)
    case And(a, b) => Settled(p, a) && Settled(p, b)
    case Or(a, b) => Settled(p, a) && Settled(p, b)
    case TruthTest(a, _, _) => Settled(p, a)
    case Other(code) => p.settled(code)
    case _ => true
  }

  /** _enumeration_safe: it reads exact flat fields only. */
  predicate Early(p: Properties, n: Node) {
    (forall f | f in FieldsOf(p, n) :: ShownField(f)) && Settled(p, n)
  }

  /** _and_terms. */
  function Terms(n: Node): seq<Node> {
    match n
    case And(a, b) => Terms(a) + Terms(b)
    case _ => [n]
  }

  /** plan_predicate_stages. */
  function EnumerationTerms(p: Properties, n: Node): seq<Node> { Kept(Terms(n), term => Early(p, term)) }

  predicate Refutes(l: Language, p: Properties, term: Node, e: Entry) {
    (forall f | f in FieldsOf(p, term) :: f in e.shown) && Eval(l, term, e.shown) != Some(true)
  }

  predicate RejectsEarly(l: Language, p: Properties, n: Node, e: Entry) {
    var terms := EnumerationTerms(p, n);
    exists i :: 0 <= i < |terms| && Refutes(l, p, terms[i], e)
  }

  /** rejects_at_enumeration: a term with a field the entry does not have is deferred. */
  method RejectsAtEnumeration(l: Language, p: Properties, n: Node, e: Entry) returns (rejected: bool)
    ensures rejected == RejectsEarly(l, p, n, e)
  {
    var terms := EnumerationTerms(p, n);
    for k := 0 to |terms|
      invariant forall i | 0 <= i < k :: !Refutes(l, p, terms[i], e)
    {
      if exists f :: f in FieldsOf(p, terms[k]) && f !in e.shown { continue; }
      if Eval(l, terms[k], e.shown) != Some(true) {
        assert Refutes(l, p, terms[k], e);
        return true;
      }
    }
    return false;
  }

  /** A conjunction is rejected by one of its sides; anything else on its own: when it may
      be read early, all its fields are shown, and it is not true of the entry. */
  lemma RejectsExactly(l: Language, p: Properties, n: Node, e: Entry)
    ensures n.And? ==> (RejectsEarly(l, p, n, e) <==> RejectsEarly(l, p, n.left, e) || RejectsEarly(l, p, n.right, e))
    ensures !n.And? ==>
              (RejectsEarly(l, p, n, e) <==>
                && Early(p, n) && (forall f | f in FieldsOf(p, n) :: f in e.shown) && Eval(l, n, e.shown) != Some(true))
  {
    if n.And? {
      KeptAppend(Terms(n.left), Terms(n.right), term => Early(p, term));
      SomeRefutes(l, p, e, EnumerationTerms(p, n.left), EnumerationTerms(p, n.right), EnumerationTerms(p, n));
    } else {
      KeptSnoc([], n, term => Early(p, term));
      assert [] + [n] == [n] && Terms(n) == [n];
      assert Early(p, n) ==> EnumerationTerms(p, n)[0] == n;
    }
  }

  lemma SomeRefutes(l: Language, p: Properties, e: Entry, a: seq<Node>, b: seq<Node>, both: seq<Node>)
    requires both == a + b
    ensures (exists i :: 0 <= i < |both| && Refutes(l, p, both[i], e)) <==>
              (exists i :: 0 <= i < |a| && Refutes(l, p, a[i], e)) || exists i :: 0 <= i < |b| && Refutes(l, p, b[i], e)
  {
    if i :| 0 <= i < |a| && Refutes(l, p, a[i], e) {
      assert both[i] == a[i];
    }
    if i :| 0 <= i < |b| && Refutes(l, p, b[i], e) {
      assert both[|a| + i] == b[i];
    }
  }

  /** The opaque nodes inside a node. */
  predicate Contains(n: Node, code: int) {
    match n
    case Not(a) => Contains(a, code)
    case And(a, b) => Contains(a, code) || Contains(b, code)
    case Or(a, b) => Contains(a, code) || Contains(b, code)
    case TruthTest(a, _, _) => Contains(a, code)
    case Other(c) => c == code
    case _ => false
  }

  /** A settled node has settled nodes inside only, and any other has one that is not. */
  lemma {:induction false} SettledMeans(p: Properties, n: Node, code: int)
    requires Settled(p, n) && Contains(n, code)
    ensures p.settled(code)
  {
    match n
    case Not(a) => SettledMeans(p, a, code);
    case And(a, b) =>
      if Contains(a, code) { SettledMeans(p, a, code); } else { SettledMeans(p, b, code); }
    case Or(a, b) =>
      if Contains(a, code) { SettledMeans(p, a, code); } else { SettledMeans(p, b, code); }
    case TruthTest(a, _, _) => SettledMeans(p, a, code);
    case _ =>
  }

  lemma {:induction false} UnsettledHas(p: Properties, n: Node) returns (code: int)
    requires !Settled(p, n)
    ensures Contains(n, code) && !p.settled(code)
  {
    match n
    case Not(a) => code := UnsettledHas(p, a);
    case And(a, b) =>
      if !Settled(p, a) { code := UnsettledHas(p, a); } else { code := UnsettledHas(p, b); }
    case Or(a, b) =>
      if !Settled(p, a) { code := UnsettledHas(p, a); } else { code := UnsettledHas(p, b); }
    case TruthTest(a, _, _) => code := UnsettledHas(p, a);
    case Other(c) => code := c;
  }

  // ---- What evaluation depends on ---------------------------------------------------------

  ghost predicate SameOn(fields: set<Field>, x: Record, y: Record) {
    forall f | f in fields :: ValueOf(x, f) == ValueOf(y, f)
  }

  /** The fields named for a node are those it looks at. */
  ghost predicate ReadsOnly(l: Language, p: Properties) {
    forall code: int, x: Record, y: Record {:trigger l.other(code, x), l.other(code, y)} ::
      SameOn(p.fields(code), x, y) ==> l.other(code, x) == l.other(code, y)
  }

  /** Evaluation depends on the fields of the predicate only. */
  lemma {:induction false} EvalReads(l: Language, p: Properties, n: Node, x: Record, y: Record)
    requires ReadsOnly(l, p) && SameOn(FieldsOf(p, n), x, y)
    ensures Eval(l, n, x) == Eval(l, n, y)
  {
    match n
    case Not(a) => EvalReads(l, p, a, x, y);
    case And(a, b) =>
      EvalReads(l, p, a, x, y);
      EvalReads(l, p, b, x, y);
    case Or(a, b) =>
      EvalReads(l, p, a, x, y);
      EvalReads(l, p, b, x, y);
    case TruthTest(a, _, _) => EvalReads(l, p, a, x, y);
    case _ =>
  }

  lemma {:induction false} ResolvedFields(l: Language, p: Properties, n: Node)
    requires Resolve(l, n).Some?
    ensures FieldsOf(p, Resolve(l, n).value) == FieldsOf(p, n)
  {
    match n
    case Not(a) => ResolvedFields(l, p, a);
    case And(a, b) =>
      ResolvedFields(l, p, a);
      ResolvedFields(l, p, b);
    case Or(a, b) =>
      ResolvedFields(l, p, a);
      ResolvedFields(l, p, b);
    case TruthTest(a, _, _) => ResolvedFields(l, p, a);
    case _ =>
  }

  // ---- Soundness ----------------------------------------------------------------------------

  /** Id and title: what an entry can decide, as no entry shows a source_index. */
  predicate ShownOnly(p: Properties, term: Node) { forall f | f in FieldsOf(p, term) :: f == Id || f == Title }

  /** The parser's literals for id and title already are what resolution makes of them. */
  lemma {:induction false} EarlyResolves(l: Language, p: Properties, term: Node)
    requires Sane(l) && FromParser(term) && Resolve(l, term).Some? && ShownOnly(p, term)
    ensures Resolve(l, term) == Some(term)
  {
    match term
    case Not(a) =>
      assert FieldsOf(p, a) <= FieldsOf(p, term);
      EarlyResolves(l, p, a);
    case And(a, b) =>
      assert FieldsOf(p, a) <= FieldsOf(p, term) && FieldsOf(p, b) <= FieldsOf(p, term);
      EarlyResolves(l, p, a);
      EarlyResolves(l, p, b);
    case Or(a, b) =>
      assert FieldsOf(p, a) <= FieldsOf(p, term) && FieldsOf(p, b) <= FieldsOf(p, term);
      EarlyResolves(l, p, a);
      EarlyResolves(l, p, b);
    case TruthTest(a, _, _) =>
      assert FieldsOf(p, a) <= FieldsOf(p, term);
      EarlyResolves(l, p, a);
    case Compare(_, f, v) =>
      assert f in FieldsOf(p, term);
      ParsedIsStable(l, f, v);
    case Between(f, lower, upper, _) =>
      assert f in FieldsOf(p, term);
      ParsedIsStable(l, f, lower);
      ParsedIsStable(l, f, upper);
    case InList(f, values, _) =>
      assert f in FieldsOf(p, term);
      ParsedAreStable(l, f, values);
      ResolvedAll(l, f, values);
    case _ =>
  }

  lemma BothTrue(x: Truth, y: Truth)
    ensures AndTruth(x, y) == Some(true) ==> x == y == Some(true)
  {
    match (x, y)
    case (Some(b), Some(c)) => assert b == true || b == false;
    case _ =>
  }

  lemma ConjunctDecides(l: Language, a: Node, b: Node, record: Record)
    requires Resolve(l, And(a, b)).Some?
    ensures Resolve(l, a).Some? && Resolve(l, b).Some?
    ensures Eval(l, Resolve(l, And(a, b)).value, record) == Some(true) ==>
              Eval(l, Resolve(l, a).value, record) == Eval(l, Resolve(l, b).value, record) == Some(true)
  {
    var x, y := Resolve(l, a), Resolve(l, b);
    assert x.Some? && y.Some? && Resolve(l, And(a, b)) == Some(And(x.value, y.value));
    BothTrue(Eval(l, x.value, record), Eval(l, y.value, record));
  }

  /** A conjunction is not true where one of its early terms is not. */
  lemma {:induction false} TermDecides(l: Language, p: Properties, n: Node, term: Node, record: Record)
    requires Sane(l) && FromParser(n) && Resolve(l, n).Some? && term in Terms(n)
    requires ShownOnly(p, term) && Eval(l, term, record) != Some(true)
    ensures Eval(l, Resolve(l, n).value, record) != Some(true)
  {
    if n.And? {
      ConjunctDecides(l, n.left, n.right, record);
      if term in Terms(n.left) {
        TermDecides(l, p, n.left, term, record);
      } else {
        TermDecides(l, p, n.right, term, record);
      }
    } else {
      assert term == n;
      EarlyResolves(l, p, n);
    }
  }

  /** An entry rejected at enumeration belongs to no row of the result. */
  lemma EarlyRejectionIsSafe(l: Language, p: Properties, n: Node, r: Node, e: Entry, record: Record)
    requires Sane(l) && ReadsOnly(l, p) && FromParser(n) && Resolve(l, n) == Some(r)
    requires SourceIndex !in e.shown && Consistent(e, record)
    ensures RejectsEarly(l, p, n, e) ==> Eval(l, r, record) != Some(true)
  {
    var terms := EnumerationTerms(p, n);
    if i :| 0 <= i < |terms| && Refutes(l, p, terms[i], e) {
      var term := terms[i];
      KeptMember(Terms(n), term => Early(p, term), term);
      forall f | f in FieldsOf(p, term) ensures ValueOf(record, f) == ValueOf(e.shown, f) {
        assert Exact(e, f);
      }
      EvalReads(l, p, term, record, e.shown);
      TermDecides(l, p, n, term, record);
    }
  }
}
