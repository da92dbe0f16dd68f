/** Discarding candidates on the metadata an enumeration already shows: a
    three-valued reading of the WHERE predicate over exact values and an interval
    for the upload date, against full evaluation of the resolved predicate. */
module LightweightTruth {
  import opened Options
  import opened Lists

  type Truth = Option<bool>   // None is SQL's NULL, and "not proved" for a claim

  datatype Value =
    | Null | Bool(b: bool) | Number(r: real) | Text(t: int) | Date(day: int)
    | Infinity(positive: bool)

  datatype Field = Id | Title | SourceIndex | UploadDate | OtherField(name: int)

  datatype Operator = Eq | Ne | Lt | Le | Gt | Ge
  datatype TextOperator = Contains | Like | ILike | Matches
  datatype Inspection = IsTrue | IsFalse | IsUnknown

  /** A predicate.  Other stands for every node only the evaluator reads: bare
      literals, comparisons of expressions, and quantifiers over collections. */
  datatype Node =
    | Always
    | Not(operand: Node)
    | And(left: Node, right: Node)
    | Or(left: Node, right: Node)
    | Compare(op: Operator, field: Field, value: Value)
    | Between(field: Field, lower: Value, upper: Value, negated: bool)
    | InList(field: Field, values: seq<Value>, negated: bool)
    | IsNull(field: Field, negated: bool)
    | TextTest(test: TextOperator, field: Field, value: Value, negated: bool)
    | TruthTest(operand: Node, inspection: Inspection, negated: bool)
    | Other(code: int)

  type Record = map<Field, Value>

  /** What a flat entry shows: its own keys, and approximate date bounds that parse. */
  datatype Entry = Entry(shown: Record, interval: Option<(int, int)>)

  /** Text and literal parsing, and text matching. */
  datatype Language = Language(
    str: Value -> int,
    parseDate: int -> Option<int>,
    infinity: int -> Option<bool>,
    count: int -> Option<real>,
    otherLiteral: (int, Value) -> Option<Value>,
    matches: (TextOperator, int, int) -> bool,
    other: (int, Record) -> Truth
  )

  /** str of a text is itself; a date's text parses back to it; neither None, True,
      False nor an infinity is a date. */
  ghost predicate Sane(l: Language) {
    && (forall t {:trigger l.str(Text(t))} :: l.str(Text(t)) == t)
    && (forall d {:trigger l.str(Date(d))} :: l.parseDate(l.str(Date(d))) == Some(d) && l.infinity(l.str(Date(d))).None?)
    && (forall t {:trigger l.infinity(t)} :: l.infinity(t).Some? ==> l.parseDate(t).None?)
    && l.parseDate(l.str(Null)).None?
    && (forall b {:trigger l.str(Bool(b))} :: l.parseDate(l.str(Bool(b))).None?)
  }

  function ValueOf(record: Record, f: Field): Value {
    if f in record then record[f] else Null
  }

  // ---- Python comparison --------------------------------------------------------------

  /** Booleans are numbers. */
  function Numeric(v: Value): Option<real> {
    match v
    case Number(r) => Some(r)
    case Bool(b) => Some(if b then 1.0 else 0.0)
    case _ => None
  }

  predicate SameValue(a: Value, b: Value) {
    if Numeric(a).Some? && Numeric(b).Some? then Numeric(a) == Numeric(b) else a == b
  }

  /** The sign of a - b, or None for a TypeError. */
  function Order(a: Value, b: Value): Option<int> {
    if Numeric(a).Some? && Numeric(b).Some? then
      Some(if Numeric(a).value < Numeric(b).value then -1 else if Numeric(a) == Numeric(b) then 0 else 1)
    else
      match (a, b)
      case (Text(s), Text(t)) => Some(s - t)
      case (Date(d), Date(e)) => Some(d - e)
      case (Date(_), Infinity(positive)) => Some(if positive then -1 else 1)
      case (Infinity(positive), Date(_)) => Some(if positive then 1 else -1)
      case _ => None
  }

  /** The operator on two values that are not None; a TypeError counts as false. */
  predicate Holds(op: Operator, a: Value, b: Value) {
    match op
    case Eq => SameValue(a, b)
    case Ne => !SameValue(a, b)
    case Lt => Order(a, b).Some? && Order(a, b).value < 0
    case Le => Order(a, b).Some? && Order(a, b).value <= 0
    case Gt => Order(a, b).Some? && Order(a, b).value > 0
    case Ge => Order(a, b).Some? && Order(a, b).value >= 0
  }

  /** lower <= value <= upper; a TypeError counts as false. */
  predicate Within(lower: Value, v: Value, upper: Value) {
    Holds(Le, lower, v) && Holds(Le, v, upper)
  }

  function Signed(b: bool, negated: bool): bool { if negated then !b else b }

  function NotTruth(a: Truth): Truth { if a.None? then None else Some(!a.value) }

  function AndTruth(a: Truth, b: Truth): Truth {
    if a == Some(false) then Some(false)
    else if b == Some(false) then Some(false)
    else if a.None? || b.None? then None
    else Some(true)
  }

  function OrTruth(a: Truth, b: Truth): Truth {
    if a == Some(true) then Some(true)
    else if b == Some(true) then Some(true)
    else if a.None? || b.None? then None
    else Some(false)
  }

  // ---- Full evaluation of the resolved predicate --------------------------------------------

  function ResolveLiteral(l: Language, f: Field, v: Value): Option<Value> {
    if v.Null? || v.Bool? then Some(v)
    else
      var text := l.str(v);
      match f
      case UploadDate =>
        if l.infinity(text).Some? then Some(Infinity(l.infinity(text).value))
        else if l.parseDate(text).Some? then Some(Date(l.parseDate(text).value))
        else None
      case Id | Title => if l.infinity(text).Some? then None else Some(Text(text))
      case SourceIndex =>
        if l.infinity(text).Some? || l.count(text).None? then None else Some(Number(l.count(text).value))
      case OtherField(name) => l.otherLiteral(name, v)
  }

  function ResolveAll(l: Language, f: Field, values: seq<Value>): (r: Option<seq<Value>>)
    ensures r.Some? ==> |r.value| == |values|
  {
    if values == [] then Some([])
    else
      var head, rest := ResolveLiteral(l, f, values[0]), ResolveAll(l, f, values[1..]);
      if head.None? || rest.None? then None else Some([head.value] + rest.value)
  }

  /** The resolved predicate, or None for a semantic error. */
  function Resolve(l: Language, n: Node): Option<Node> {
    match n
    case Not(a) => var x := Resolve(l, a); if x.None? then None else Some(Not(x.value))
    case And(a, b) =>
      var x, y := Resolve(l, a), Resolve(l, b);
      if x.None? || y.None? then None else Some(And(x.value, y.value))
    case Or(a, b) =>
      var x, y := Resolve(l, a), Resolve(l, b);
      if x.None? || y.None? then None else Some(Or(x.value, y.value))
    case Compare(op, f, v) =>
      var x := ResolveLiteral(l, f, v);
      if x.None? || x.value.Null? then None else Some(Compare(op, f, x.value))
    case Between(f, lower, upper, negated) =>
      var x, y := ResolveLiteral(l, f, lower), ResolveLiteral(l, f, upper);
      if x.None? || y.None? then None else Some(Between(f, x.value, y.value, negated))
    case InList(f, values, negated) =>
      var x := ResolveAll(l, f, values);
      if x.None? then None else Some(InList(f, x.value, negated))
    case TextTest(test, f, v, negated) =>
      if f == SourceIndex || f == UploadDate then None else Some(n)
    case TruthTest(a, inspection, negated) =>
      var x := Resolve(l, a); if x.None? then None else Some(TruthTest(x.value, inspection, negated))
    case _ => Some(n)
  }

  /** _evaluate_boolean_expression. */
  function Eval(l: Language, n: Node, record: Record): Truth {
    match n
    case Always => Some(true)
    case Not(a) => NotTruth(Eval(l, a, record))
    case And(a, b) => AndTruth(Eval(l, a, record), Eval(l, b, record))
    case Or(a, b) => OrTruth(Eval(l, a, record), Eval(l, b, record))
    case Compare(op, f, v) =>
      if ValueOf(record, f).Null? || v.Null? then None else Some(Holds(op, ValueOf(record, f), v))
    case Between(f, lower, upper, negated) =>
      if ValueOf(record, f).Null? then None else Some(Signed(Within(lower, ValueOf(record, f), upper), negated))
    case InList(f, values, negated) =>
      if ValueOf(record, f).Null? then None
      else Some(Signed(exists i :: 0 <= i < |values| && SameValue(ValueOf(record, f), values[i]), negated))
    case IsNull(f, negated) => Some(Signed(ValueOf(record, f).Null?, negated))
    case TextTest(test, f, v, negated) =>
      (match ValueOf(record, f)
       case Null => None
       case Text(t) => Some(Signed(l.matches(test, l.str(v), t), negated))
       case _ => Some(false))
    case TruthTest(a, inspection, negated) =>
      var x := Eval(l, a, record);
      Some(Signed(match inspection case IsTrue => x == Some(true) case IsFalse => x == Some(false) case IsUnknown => x.None?,
                  negated))
    case Other(code) => l.other(code, record)
  }

  // ---- What evaluation computes ---------------------------------------------------------------

  /** Python's comparisons: numbers and booleans by value, texts and dates by their order,
      infinities beyond every date.  Anything else is unequal and never ordered. */
  lemma ComparisonsAre(op: Operator, a: Value, b: Value)
    ensures Numeric(Number(0.0)) == Numeric(Bool(false)) == Some(0.0) && Numeric(Bool(true)) == Some(1.0)
    ensures Numeric(a).Some? <==> a.Number? || a.Bool?
    ensures Numeric(a).Some? && Numeric(b).Some? ==>
              (Holds(Eq, a, b) <==> Numeric(a).value == Numeric(b).value)
              && (Holds(Lt, a, b) <==> Numeric(a).value < Numeric(b).value)
    ensures a.Text? && b.Text? ==> (Holds(Eq, a, b) <==> a.t == b.t) && (Holds(Lt, a, b) <==> a.t < b.t)
    ensures a.Date? && b.Date? ==> (Holds(Eq, a, b) <==> a.day == b.day) && (Holds(Lt, a, b) <==> a.day < b.day)
    ensures a.Date? ==> Holds(Lt, a, Infinity(true)) && Holds(Gt, a, Infinity(false))
    ensures Holds(Ne, a, b) <==> !Holds(Eq, a, b)
    ensures Order(a, b).Some? ==> (Holds(Le, a, b) <==> Holds(Lt, a, b) || Order(a, b) == Some(0))
    ensures Order(a, b).Some? && !(a.Infinity? || b.Infinity?) ==> (Order(a, b) == Some(0) <==> Holds(Eq, a, b))
    ensures Holds(Gt, a, b) <==> Holds(Lt, b, a)
    ensures Holds(Ge, a, b) <==> Holds(Le, b, a)
    ensures Order(a, b).None? ==> !Holds(Lt, a, b) && !Holds(Le, a, b)
    ensures a.Null? || (a.Text? && !b.Text?) || (a.Number? && (b.Date? || b.Infinity?)) ==> Order(a, b).None?
    ensures a.Text? && !b.Text? ==> !Holds(Eq, a, b)
  {
  }

  /** NULL in, NULL out, but for the tests that ask for it; a text test of another value is
      false; IS TRUE, IS FALSE and IS UNKNOWN always decide. */
  lemma TestsAre(l: Language, record: Record, f: Field, op: Operator, test: TextOperator, v: Value, values: seq<Value>, a: Node)
    ensures ValueOf(record, f).Null? ==>
              && Eval(l, Compare(op, f, v), record) == None && Eval(l, Between(f, v, v, false), record) == None
              && Eval(l, InList(f, values, false), record) == None && Eval(l, TextTest(test, f, v, false), record) == None
    ensures Eval(l, IsNull(f, false), record) == Some(ValueOf(record, f).Null?)
    ensures Eval(l, IsNull(f, true), record) == Some(!ValueOf(record, f).Null?)
    ensures !ValueOf(record, f).Null? && !ValueOf(record, f).Text? ==> Eval(l, TextTest(test, f, v, false), record) == Some(false)
    ensures Eval(l, TruthTest(a, IsTrue, false), record) == Some(Eval(l, a, record) == Some(true))
    ensures Eval(l, TruthTest(a, IsFalse, false), record) == Some(Eval(l, a, record) == Some(false))
    ensures Eval(l, TruthTest(a, IsUnknown, false), record) == Some(Eval(l, a, record) == None)
  {
  }

  /** A text literal becomes the day, number or text it denotes for its field, or an error:
      infinities are for dates only. */
  lemma LiteralsResolve(l: Language, t: int)
    requires Sane(l)
    ensures ResolveLiteral(l, Title, Text(t)) == ResolveLiteral(l, Id, Text(t))
    ensures ResolveLiteral(l, Title, Text(t)) == if l.infinity(t).Some? then None else Some(Text(t))
    ensures ResolveLiteral(l, SourceIndex, Text(t)) ==
              if l.infinity(t).None? && l.count(t).Some? then Some(Number(l.count(t).value)) else None
    ensures l.parseDate(t).Some? ==> ResolveLiteral(l, UploadDate, Text(t)) == Some(Date(l.parseDate(t).value))
    ensures l.infinity(t).Some? ==> ResolveLiteral(l, UploadDate, Text(t)) == Some(Infinity(l.infinity(t).value))
    ensures l.parseDate(t).None? && l.infinity(t).None? ==> ResolveLiteral(l, UploadDate, Text(t)) == None
  {
    assert l.str(Text(t)) == t;
  }

  // ---- The lightweight reading -----------------------------------------------------------------

  /** _exact_value. */
  predicate Exact(e: Entry, f: Field) {
    (f == Id || f == Title || f == SourceIndex) && f in e.shown
  }

  /** _date_literal. */
  function DateLiteral(l: Language, v: Value): Option<int> {
    if v.Date? then Some(v.day) else l.parseDate(l.str(v))
  }

  /** _date_comparison_truth: what every day of the interval agrees on. */
  function DateClaim(oldest: int, newest: int, op: Operator, target: int): Truth {
    match op
    case Lt => if newest < target then Some(true) else if oldest >= target then Some(false) else None
    case Le => if newest <= target then Some(true) else if oldest > target then Some(false) else None
    case Gt => if oldest > target then Some(true) else if newest <= target then Some(false) else None
    case Ge => if oldest >= target then Some(true) else if newest < target then Some(false) else None
    case Eq =>
      if oldest == newest == target then Some(true)
      else if target < oldest || target > newest then Some(false) else None
    case Ne =>
      if target < oldest || target > newest then Some(true)
      else if oldest == newest == target then Some(false) else None
  }

  function DateRangeClaim(oldest: int, newest: int, lower: int, upper: int): Truth {
    if newest < lower || oldest > upper then Some(false)
    else if oldest >= lower && newest <= upper then Some(true)
    else None
  }

  /** lightweight_truth, on the predicate as parsed. */
  function Claim(l: Language, n: Node, e: Entry): Truth {
    match n
    case Always => Some(true)
    case Not(a) => NotTruth(Claim(l, a, e))
    case And(a, b) =>
      var x, y := Claim(l, a, e), Claim(l, b, e);
      if x == Some(false) || y == Some(false) then Some(false)
      else if x == Some(true) && y == Some(true) then Some(true)
      else None
    case Or(a, b) =>
      var x, y := Claim(l, a, e), Claim(l, b, e);
      if x == Some(true) || y == Some(true) then Some(true)
      else if x == Some(false) && y == Some(false) then Some(false)
      else None
    case Compare(op, f, v) =>
      if f == UploadDate then
        var target := DateLiteral(l, v);
        if e.interval.None? || target.None? then None
        else DateClaim(e.interval.value.0, e.interval.value.1, op, target.value)
      else if !Exact(e, f) || e.shown[f].Null? then None
      else Some(Holds(op, e.shown[f], v))
    case Between(f, lower, upper, negated) =>
      if f == UploadDate then
        var x, y := DateLiteral(l, lower), DateLiteral(l, upper);
        if x.None? || y.None? || e.interval.None? then None
        else
          var r := DateRangeClaim(e.interval.value.0, e.interval.value.1, x.value, y.value);
          if r.None? then None else Some(Signed(r.value, negated))
      else if !Exact(e, f) || e.shown[f].Null? then None
      else Some(Signed(Within(lower, e.shown[f], upper), negated))
    case InList(f, values, negated) =>
      if !Exact(e, f) || e.shown[f].Null? then None
      else Some(Signed(exists i :: 0 <= i < |values| && SameValue(e.shown[f], values[i]), negated))
    case IsNull(f, negated) =>
      if !Exact(e, f) then None else Some(Signed(e.shown[f].Null?, negated))
    case TextTest(test, f, v, negated) =>
      if !Exact(e, f) || !e.shown[f].Text? || test == Matches then None
      else Some(Signed(l.matches(test, l.str(v), e.shown[f].t), negated))
    case _ => None
  }

  /** safely_reject_lightweight. */
  predicate Rejected(l: Language, n: Node, e: Entry) { Claim(l, n, e) == Some(false) }

  /** The full record keeps what the entry shows, and its date, if known, is inside. */
  ghost predicate Consistent(e: Entry, record: Record) {
    && (forall f {:trigger Exact(e, f)} | Exact(e, f) :: ValueOf(record, f) == e.shown[f])
    && DateInside(e, record)
  }

  predicate DateInside(e: Entry, record: Record) {
    e.interval.Some? && !ValueOf(record, UploadDate).Null? ==>
      && ValueOf(record, UploadDate).Date?
      && e.interval.value.0 <= ValueOf(record, UploadDate).day <= e.interval.value.1
  }

  // ---- Soundness -------------------------------------------------------------------------------

  /** A claim b leaves room for b and for NULL, never for the opposite. */
  predicate Allows(claim: Truth, truth: Truth) { claim.None? || truth.None? || truth == claim }

  predicate ShownField(f: Field) { f == Id || f == Title || f == SourceIndex }

  /** Resolution does not change what the literal compares as. */
  predicate Stable(l: Language, f: Field, v: Value) {
    ShownField(f) ==> ResolveLiteral(l, f, v) == Some(v)
  }

  /** A literal as the parser makes it: NULL, TRUE, FALSE, or else a text. */
  predicate Parsed(v: Value) { v.Null? || v.Bool? || v.Text? }

  predicate ParsedFor(f: Field, v: Value) { f == Id || f == Title ==> Parsed(v) }

  /** The literals compared with id and title are the parser's. */
  predicate FromParser(n: Node) {
    match n
    case Not(a) => FromParser(a)
    case And(a, b) => FromParser(a) && FromParser(b)
    case Or(a, b) => FromParser(a) && FromParser(b)
    case Compare(_, f, v) => ParsedFor(f, v)
    case Between(f, lower, upper, _) => ParsedFor(f, lower) && ParsedFor(f, upper)
    case InList(f, values, _) => forall i | 0 <= i < |values| :: ParsedFor(f, values[i])
    case TruthTest(a, _, _) => FromParser(a)
    case _ => true
  }

  predicate TypedFor(l: Language, f: Field, v: Value) { f == SourceIndex ==> Stable(l, f, v) }

  /** The literals compared with source_index already have its type, unlike the parser's. */
  predicate IndexTyped(l: Language, n: Node) {
    match n
    case Not(a) => IndexTyped(l, a)
    case And(a, b) => IndexTyped(l, a) && IndexTyped(l, b)
    case Or(a, b) => IndexTyped(l, a) && IndexTyped(l, b)
    case Compare(_, f, v) => TypedFor(l, f, v)
    case Between(f, lower, upper, _) => TypedFor(l, f, lower) && TypedFor(l, f, upper)
    case InList(f, values, _) => forall i | 0 <= i < |values| :: TypedFor(l, f, values[i])
    case _ => true
  }

  /** The reading of n on an entry: source_index matters only where the entry shows one. */
  predicate Readable(l: Language, n: Node, e: Entry) {
    FromParser(n) && (SourceIndex in e.shown ==> IndexTyped(l, n))
  }

  /** Resolution leaves the parser's literals for id and title as they are. */
  lemma ParsedIsStable(l: Language, f: Field, v: Value)
    requires Sane(l) && (f == Id || f == Title) && Parsed(v) && ResolveLiteral(l, f, v).Some?
    ensures Stable(l, f, v)
  {
    if v.Text? {
      assert l.str(Text(v.t)) == v.t;
    }
  }

  lemma {:induction false} ParsedAreStable(l: Language, f: Field, values: seq<Value>)
    requires Sane(l) && (f == Id || f == Title) && ResolveAll(l, f, values).Some?
    requires forall i | 0 <= i < |values| :: Parsed(values[i])
    ensures forall i | 0 <= i < |values| :: Stable(l, f, values[i])
  {
    if values != [] {
      ParsedIsStable(l, f, values[0]);
      ParsedAreStable(l, f, values[1..]);
      forall i | 0 <= i < |values| ensures Stable(l, f, values[i]) {
        assert i > 0 ==> values[i] == values[1..][i - 1];
      }
    }
  }

  lemma {:induction false} ResolvedAll(l: Language, f: Field, values: seq<Value>)
    requires ShownField(f) && ResolveAll(l, f, values).Some?
    requires forall i | 0 <= i < |values| :: Stable(l, f, values[i])
    ensures ResolveAll(l, f, values).value == values
  {
    if values != [] {
      forall i | 0 <= i < |values[1..]| ensures Stable(l, f, values[1..][i]) {
        assert values[1..][i] == values[i + 1];
      }
      ResolvedAll(l, f, values[1..]);
      assert Stable(l, f, values[0]);
    }
  }

  /** A date literal both readings accept denotes the same day. */
  lemma SameDay(l: Language, v: Value)
    requires Sane(l) && DateLiteral(l, v).Some? && ResolveLiteral(l, UploadDate, v).Some?
    ensures ResolveLiteral(l, UploadDate, v) == Some(Date(DateLiteral(l, v).value))
  {
    match v
    case Date(d) =>
      assert l.parseDate(l.str(Date(d))) == Some(d);
    case Bool(_) =>
    case Null =>
    case _ =>
      assert l.infinity(l.str(v)).Some? ==> l.parseDate(l.str(v)).None?;
  }

  lemma LeafIsSound(l: Language, n: Node, r: Node, e: Entry, record: Record)
    requires Sane(l) && Readable(l, n, e) && Resolve(l, n) == Some(r) && Consistent(e, record)
    requires n.Compare? || n.Between? || n.InList? || n.IsNull? || n.TextTest?
    ensures Allows(Claim(l, n, e), Eval(l, r, record))
  {
    match n
    case Compare(op, f, v) =>
      assert Exact(e, f) ==> ValueOf(record, f) == e.shown[f];
      if f == UploadDate && DateLiteral(l, v).Some? {
        SameDay(l, v);
      } else if f == Id || f == Title {
        ParsedIsStable(l, f, v);
      }
    case Between(f, lower, upper, negated) =>
      assert Exact(e, f) ==> ValueOf(record, f) == e.shown[f];
      if f == UploadDate && DateLiteral(l, lower).Some? && DateLiteral(l, upper).Some? {
        SameDay(l, lower);
        SameDay(l, upper);
      } else if f == Id || f == Title {
        ParsedIsStable(l, f, lower);
        ParsedIsStable(l, f, upper);
      }
    case InList(f, values, negated) =>
      assert Exact(e, f) ==> ValueOf(record, f) == e.shown[f];
      if f == Id || f == Title {
        ParsedAreStable(l, f, values);
        ResolvedAll(l, f, values);
      } else if f == SourceIndex && f in e.shown {
        ResolvedAll(l, f, values);
      }
    case IsNull(f, negated) =>
      assert Exact(e, f) ==> ValueOf(record, f) == e.shown[f];
    case TextTest(test, f, v, negated) =>
      assert Exact(e, f) ==> ValueOf(record, f) == e.shown[f];
  }

  /** Whatever the full record turns out to be, evaluation never contradicts a claim. */
  lemma {:induction false} ClaimIsSound(l: Language, n: Node, r: Node, e: Entry, record: Record)
    requires Sane(l) && Readable(l, n, e) && Resolve(l, n) == Some(r) && Consistent(e, record)
    ensures Allows(Claim(l, n, e), Eval(l, r, record))
  {
    match n
    case Not(a) =>
      ClaimIsSound(l, a, r.operand, e, record);
    case And(a, b) =>
      ClaimIsSound(l, a, r.left, e, record);
      ClaimIsSound(l, b, r.right, e, record);
    case Or(a, b) =>
      ClaimIsSound(l, a, r.left, e, record);
      ClaimIsSound(l, b, r.right, e, record);
    case Compare(_, _, _) => LeafIsSound(l, n, r, e, record);
    case Between(_, _, _, _) => LeafIsSound(l, n, r, e, record);
    case InList(_, _, _) => LeafIsSound(l, n, r, e, record);
    case IsNull(_, _) => LeafIsSound(l, n, r, e, record);
    case TextTest(_, _, _, _) => LeafIsSound(l, n, r, e, record);
    case _ =>
  }

  /** A rejected candidate never satisfies the predicate. */
  lemma RejectionIsSafe(l: Language, n: Node, r: Node, e: Entry, record: Record)
    requires Sane(l) && Readable(l, n, e) && Resolve(l, n) == Some(r) && Consistent(e, record)
    ensures Rejected(l, n, e) ==> Eval(l, r, record) != Some(true)
    ensures Rejected(l, Not(n), e) ==> Eval(l, r, record) != Some(false)
  {
    ClaimIsSound(l, n, r, e, record);
  }

  // ---- Precision -------------------------------------------------------------------------------

  /** A predicate on fields that the entry shows as texts or NULL, of the kinds read early. */
  predicate ShownWhole(n: Node, e: Entry) {
    match n
    case Always => true
    case Not(a) => ShownWhole(a, e)
    case And(a, b) => ShownWhole(a, e) && ShownWhole(b, e)
    case Or(a, b) => ShownWhole(a, e) && ShownWhole(b, e)
    case Compare(_, f, v) => Exact(e, f) && !v.Null?
    case Between(f, _, _, _) => Exact(e, f)
    case InList(f, _, _) => Exact(e, f)
    case IsNull(f, _) => Exact(e, f)
    case TextTest(test, f, _, _) => Exact(e, f) && test != Matches && (e.shown[f].Null? || e.shown[f].Text?)
    case _ => false
  }

  /** Nothing is lost on what an entry shows: there the claim is what evaluation says. */
  lemma {:induction false} ClaimIsEvaluation(l: Language, n: Node, e: Entry)
    requires ShownWhole(n, e)
    ensures Claim(l, n, e) == Eval(l, n, e.shown)
  {
    match n
    case Not(a) => ClaimIsEvaluation(l, a, e);
    case And(a, b) =>
      ClaimIsEvaluation(l, a, e);
      ClaimIsEvaluation(l, b, e);
      ClaimsCombine(l, a, b, e);
    case Or(a, b) =>
      ClaimIsEvaluation(l, a, e);
      ClaimIsEvaluation(l, b, e);
      ClaimsCombine(l, a, b, e);
    case _ =>
  }

  /** Claims combine as truth values do: AND is false with one false side and true with two
      true ones, OR the other way about. */
  lemma ClaimsCombine(l: Language, a: Node, b: Node, e: Entry)
    ensures var x, y := Claim(l, a, e), Claim(l, b, e);
            && (Claim(l, And(a, b), e) == Some(false) <==> x == Some(false) || y == Some(false))
            && (Claim(l, And(a, b), e) == Some(true) <==> x == Some(true) && y == Some(true))
            && (Claim(l, Or(a, b), e) == Some(true) <==> x == Some(true) || y == Some(true))
            && (Claim(l, Or(a, b), e) == Some(false) <==> x == Some(false) && y == Some(false))
  {
  }

  /** On a date interval the claim is the best there is: b exactly when every day
      of the interval makes the comparison b. */
  lemma DateClaimIsBest(oldest: int, newest: int, op: Operator, target: int, b: bool)
    requires oldest <= newest
    ensures DateClaim(oldest, newest, op, target) == Some(b)
            <==> forall d | oldest <= d <= newest :: Holds(op, Date(d), Date(target)) == b
  {
    if forall d | oldest <= d <= newest :: Holds(op, Date(d), Date(target)) == b {
      assert Holds(op, Date(oldest), Date(target)) == b && Holds(op, Date(newest), Date(target)) == b;
      if oldest <= target <= newest {
        assert Holds(op, Date(target), Date(target)) == b;
      }
    }
  }

  /** Every day of the interval makes the range test b. */
  ghost predicate Unanimous(oldest: int, newest: int, lower: int, upper: int, b: bool) {
    forall d | oldest <= d <= newest :: Within(Date(lower), Date(d), Date(upper)) == b
  }

  /** BETWEEN on dates misses a claim only for bounds in the wrong order that both
      fall inside the interval: no day satisfies it, and none is proved. */
  lemma DateRangeMisses(oldest: int, newest: int, lower: int, upper: int)
    requires oldest <= newest
    ensures forall b :: DateRangeClaim(oldest, newest, lower, upper) == Some(b)
              ==> Unanimous(oldest, newest, lower, upper, b)
    ensures DateRangeClaim(oldest, newest, lower, upper).None?
            && (exists b :: Unanimous(oldest, newest, lower, upper, b))
            <==> upper < lower <= newest && oldest <= upper
  {
    if DateRangeClaim(oldest, newest, lower, upper).None? {
      if upper < lower {
        assert Unanimous(oldest, newest, lower, upper, false);
      } else {
        assert Within(Date(lower), Date(if lower < oldest then oldest else lower), Date(upper));
        assert !Unanimous(oldest, newest, lower, upper, false);
        assert !Within(Date(lower), Date(oldest), Date(upper)) || !Within(Date(lower), Date(newest), Date(upper));
        assert !Unanimous(oldest, newest, lower, upper, true);
      }
    }
  }

  function Showing(f: Field, x: Value): Record { map[f := x] }

  /** A predicate as parsed makes no claim against the resolved one, on a shown index. */
  predicate IndexReadsSoundly(l: Language, parsed: Node, resolved: Node, x: Value) {
    Allows(Claim(l, parsed, Entry(Showing(SourceIndex, x), None)), Eval(l, resolved, Showing(SourceIndex, x)))
  }

  /** A comparison of source_index is read soundly exactly when its literal already
      compares as the number it resolves to.  A literal left as text does not: the
      candidate whose index matches it is rejected. */
  lemma IndexComparisonSoundExactly(l: Language, op: Operator, v: Value, w: Value)
    requires ResolveLiteral(l, SourceIndex, v) == Some(w) && w.Number?
    ensures SameValue(v, w) <==>
            forall x: Value :: IndexReadsSoundly(l, Compare(op, SourceIndex, v), Compare(op, SourceIndex, w), x)
  {
    if !SameValue(v, w) {
      var x := IndexWitness(op, v, w);
      assert !IndexReadsSoundly(l, Compare(op, SourceIndex, v), Compare(op, SourceIndex, w), x);
    }
  }

  lemma IndexWitness(op: Operator, v: Value, w: Value) returns (x: Value)
    requires w.Number? && !SameValue(v, w)
    ensures !x.Null? && Holds(op, x, v) != Holds(op, x, w)
  {
    var below := Numeric(v).Some? && Numeric(v).value < w.r;
    var above := Numeric(v).Some? && Numeric(v).value > w.r;
    match op
    case Eq => x := w;
    case Ne => x := w;
    case Lt => x := if below then v else if above then w else Number(w.r - 1.0);
    case Le => x := if above then v else w;
    case Gt => x := if below then w else if above then v else Number(w.r + 1.0);
    case Ge => x := if below then v else w;
  }

  lemma ListReads(l: Language, values: seq<Value>, numbers: seq<Value>, negated: bool, x: Value)
    ensures IndexReadsSoundly(l, InList(SourceIndex, values, negated), InList(SourceIndex, numbers, negated), x)
            <==> x.Null? || (Among(x, values) <==> Among(x, numbers))
  {
  }

  /** An IN list on source_index is read soundly exactly when its literals compare as the
      numbers they resolve to, as a set. */
  lemma IndexListSoundExactly(l: Language, values: seq<Value>, numbers: seq<Value>, negated: bool)
    requires ResolveAll(l, SourceIndex, values) == Some(numbers) && forall i | 0 <= i < |numbers| :: numbers[i].Number?
    requires forall i | 0 <= i < |values| :: !values[i].Null?
    ensures AllAmong(values, numbers) && AllAmong(numbers, values) <==>
            forall x: Value :: IndexReadsSoundly(l, InList(SourceIndex, values, negated), InList(SourceIndex, numbers, negated), x)
  {
    forall x: Value
      ensures IndexReadsSoundly(l, InList(SourceIndex, values, negated), InList(SourceIndex, numbers, negated), x)
              <==> x.Null? || (Among(x, values) <==> Among(x, numbers))
    {
      ListReads(l, values, numbers, negated, x);
    }
    if AllAmong(values, numbers) && AllAmong(numbers, values) {
      forall x: Value ensures Among(x, values) <==> Among(x, numbers) {
        AmongTransitive(x, values, numbers);
        AmongTransitive(x, numbers, values);
      }
    } else if !AllAmong(values, numbers) {
      var x := Stranger(values, numbers);
    } else {
      var x := Stranger(numbers, values);
    }
  }

  predicate AllAmong(a: seq<Value>, b: seq<Value>) { forall i | 0 <= i < |a| :: Among(a[i], b) }

  lemma AmongTransitive(x: Value, a: seq<Value>, b: seq<Value>)
    requires AllAmong(a, b)
    ensures Among(x, a) ==> Among(x, b)
  {
    if i :| 0 <= i < |a| && SameValue(x, a[i]) {
      assert Among(a[i], b);
      var j :| 0 <= j < |b| && SameValue(a[i], b[j]);
      assert SameValue(x, b[j]);
    }
  }

  lemma Stranger(a: seq<Value>, b: seq<Value>) returns (x: Value)
    requires !AllAmong(a, b) && forall i | 0 <= i < |a| :: !a[i].Null?
    ensures !x.Null? && Among(x, a) && !Among(x, b)
  {
    var i :| 0 <= i < |a| && !Among(a[i], b);
    x := a[i];
    assert SameValue(x, a[i]);
  }

  predicate Among(x: Value, values: seq<Value>) { exists i :: 0 <= i < |values| && SameValue(x, values[i]) }

  /** No value at all is between the two. */
  predicate Empty(lower: Value, upper: Value) {
    && !Within(lower, lower, upper) && !Within(lower, upper, upper)
    && !(lower == Infinity(false) && upper == Infinity(true))
  }

  lemma EmptyIsEmpty(lower: Value, upper: Value)
    ensures Empty(lower, upper) <==> forall x: Value {:trigger Within(lower, x, upper)} :: !Within(lower, x, upper)
  {
    if lower == Infinity(false) && upper == Infinity(true) {
      assert Within(lower, Date(0), upper);
    }
  }

  /** BETWEEN on source_index is read soundly exactly when both bounds compare as the
      numbers they resolve to, or neither range has a member. */
  lemma IndexRangeSoundExactly(l: Language, lower: Value, upper: Value, first: Value, last: Value, negated: bool)
    requires ResolveLiteral(l, SourceIndex, lower) == Some(first) && ResolveLiteral(l, SourceIndex, upper) == Some(last)
    requires first.Number? && last.Number?
    ensures (SameValue(lower, first) && SameValue(upper, last)) || (Empty(lower, upper) && Empty(first, last))
            <==>
            forall x: Value :: IndexReadsSoundly(l, Between(SourceIndex, lower, upper, negated), Between(SourceIndex, first, last, negated), x)
  {
    forall x: Value
      ensures IndexReadsSoundly(l, Between(SourceIndex, lower, upper, negated), Between(SourceIndex, first, last, negated), x)
              <==> x.Null? || (Within(lower, x, upper) <==> Within(first, x, last))
    {
      RangeReads(l, lower, upper, first, last, negated, x);
    }
    if SameValue(lower, first) && SameValue(upper, last) {
      forall x: Value ensures Within(lower, x, upper) <==> Within(first, x, last) {
        SameRange(lower, upper, first, last, x);
      }
    }
    EmptyIsEmpty(lower, upper);
    EmptyIsEmpty(first, last);
    if !(SameValue(lower, first) && SameValue(upper, last)) && !(Empty(lower, upper) && Empty(first, last)) {
      var x := RangeWitness(lower, upper, first, last);
    }
  }

  lemma SameRange(lower: Value, upper: Value, first: Value, last: Value, x: Value)
    requires SameValue(lower, first) && SameValue(upper, last) && first.Number? && last.Number?
    ensures Within(lower, x, upper) <==> Within(first, x, last)
  {
  }

  lemma RangeReads(l: Language, lower: Value, upper: Value, first: Value, last: Value, negated: bool, x: Value)
    ensures IndexReadsSoundly(l, Between(SourceIndex, lower, upper, negated), Between(SourceIndex, first, last, negated), x)
            <==> x.Null? || (Within(lower, x, upper) <==> Within(first, x, last))
  {
  }

  lemma RangeWitness(lower: Value, upper: Value, first: Value, last: Value) returns (x: Value)
    requires first.Number? && last.Number?
    requires !(SameValue(lower, first) && SameValue(upper, last)) && !(Empty(lower, upper) && Empty(first, last))
    ensures !x.Null? && Within(lower, x, upper) != Within(first, x, last)
  {
    EmptyIsEmpty(lower, upper);
    EmptyIsEmpty(first, last);
    if Within(lower, first, upper) != Within(first, first, last) {
      x := first;
    } else if Within(lower, last, upper) != Within(first, last, last) {
      x := last;
    } else if Within(lower, lower, upper) != Within(first, lower, last) {
      x := lower;
    } else if Within(lower, upper, upper) != Within(first, upper, last) {
      x := upper;
    } else {
      x := Date(0);
    }
  }
}
