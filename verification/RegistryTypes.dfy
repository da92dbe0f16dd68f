/** The stored form of a field's type: a JSON payload that determines the type. */
module RegistryTypes {
  import opened Options

  datatype Ordering = Stable | Unordered | Unknown
  datatype Shape = Opaque | Declared | Dynamic

  datatype QueryType =
    | Scalar(kind: string, nullable: bool)
    | Collection(element: QueryType, ordering: Ordering, nullable: bool)
    | Structured(shape: Shape, members: Members, nullable: bool)
  datatype Members = Nil | Cons(name: string, valueType: QueryType, rest: Members)

  function Names(m: Members): set<string> {
    match m case Nil => {} case Cons(name, _, rest) => {name} + Names(rest)
  }

  /** What QueryType and StructuredMember check when they are made. */
  predicate Valid(t: QueryType) {
    match t
    case Scalar(kind, _) => kind != "collection" && kind != "structured"
    case Collection(e, _, _) => Valid(e)
    case Structured(shape, m, _) => (shape == Opaque ==> m == Nil) && ValidMembers(m)
  }

  predicate ValidMembers(m: Members) {
    match m
    case Nil => true
    case Cons(name, t, rest) => name != "" && name !in Names(rest) && Valid(t) && ValidMembers(rest)
  }

  datatype Json = Text(s: string) | Flag(b: bool) | List(items: Entries) | Object(entries: Entries)
  datatype Entries = NoEntries | Entry(key: string, value: Json, rest: Entries)

  function Find(e: Entries, key: string): Option<Json> {
    match e
    case NoEntries => None
    case Entry(k, v, rest) => if k == key then Some(v) else Find(rest, key)
  }

  function OrderingText(o: Ordering): string {
    match o case Stable => "stable" case Unordered => "unordered" case Unknown => "unknown"
  }

  function ShapeText(s: Shape): string {
    match s case Opaque => "opaque" case Declared => "declared" case Dynamic => "dynamic"
  }

  /** _type_payload. */
  function Payload(t: QueryType): Json {
    match t
    case Scalar(kind, nullable) =>
      Object(Entry("kind", Text(kind), Entry("nullable", Flag(nullable), NoEntries)))
    case Collection(e, o, nullable) =>
      Object(Entry("kind", Text("collection"), Entry("nullable", Flag(nullable),
             Entry("element_type", Payload(e), Entry("ordering", Text(OrderingText(o)), NoEntries)))))
    case Structured(shape, m, nullable) =>
      Object(Entry("kind", Text("structured"), Entry("nullable", Flag(nullable),
             Entry("structured_shape", Text(ShapeText(shape)), Entry("members", List(MemberPayloads(m)), NoEntries)))))
  }

  function MemberPayloads(m: Members): Entries {
    match m
    case Nil => NoEntries
    case Cons(name, t, rest) =>
      Entry("", Object(Entry("name", Text(name), Entry("value_type", Payload(t), NoEntries))), MemberPayloads(rest))
  }

  function OrderingOf(s: string): Option<Ordering> {
    if s == "stable" then Some(Stable) else if s == "unordered" then Some(Unordered)
    else if s == "unknown" then Some(Unknown) else None
  }

  function ShapeOf(s: string): Option<Shape> {
    if s == "opaque" then Some(Opaque) else if s == "declared" then Some(Declared)
    else if s == "dynamic" then Some(Dynamic) else None
  }

  /** _type_from_payload, or None where the payload is refused. */
  function FromPayload(j: Json): Option<QueryType>
    decreases j, 1
  {
    if !j.Object? then None
    else
      var kind, nullable := Find(j.entries, "kind"), Find(j.entries, "nullable");
      if kind.None? || !kind.value.Text? || nullable.None? || !nullable.value.Flag? then None
      else if kind.value.s == "collection" then CollectionFrom(j.entries, nullable.value.b)
      else if kind.value.s == "structured" then StructuredFrom(j.entries, nullable.value.b)
      else Some(Scalar(kind.value.s, nullable.value.b))
  }

  function CollectionFrom(e: Entries, nullable: bool): Option<QueryType>
    decreases e, 0
  {
    var element, ordering := Find(e, "element_type"), Find(e, "ordering");
    FindIsSmaller(e, "element_type");
    if element.None? || !element.value.Object? || ordering.None? || !ordering.value.Text? then None
    else
      var t, o := FromPayload(element.value), OrderingOf(ordering.value.s);
      if t.None? || o.None? then None else Some(Collection(t.value, o.value, nullable))
  }

  function StructuredFrom(e: Entries, nullable: bool): Option<QueryType>
    decreases e, 0
  {
    var shape, members := Find(e, "structured_shape"), Find(e, "members");
    FindIsSmaller(e, "members");
    if shape.None? || !shape.value.Text? || ShapeOf(shape.value.s).None? then None
    else if ShapeOf(shape.value.s).value == Opaque then Some(Structured(Opaque, Nil, nullable))
    else if members.None? then Some(Structured(ShapeOf(shape.value.s).value, Nil, nullable))
    else if !members.value.List? then None
    else
      var m := MembersFrom(members.value.items);
      if m.None? || !DistinctNames(m.value) then None else Some(Structured(ShapeOf(shape.value.s).value, m.value, nullable))
  }

  predicate DistinctNames(m: Members) {
    match m case Nil => true case Cons(name, _, rest) => name != "" && name !in Names(rest) && DistinctNames(rest)
  }

  function MembersFrom(items: Entries): Option<Members>
    decreases items, 0
  {
    match items
    case NoEntries => Some(Nil)
    case Entry(_, v, rest) =>
      if !v.Object? then None
      else
        var name, valueType := Find(v.entries, "name"), Find(v.entries, "value_type");
        FindIsSmaller(v.entries, "value_type");
        if name.None? || !name.value.Text? || valueType.None? || !valueType.value.Object? then None
        else
          var t, more := FromPayload(valueType.value), MembersFrom(rest);
          if t.None? || more.None? then None else Some(Cons(name.value.s, t.value, more.value))
  }

  lemma FindIsSmaller(e: Entries, key: string)
    ensures Find(e, key).Some? ==> Find(e, key).value < e
  {
  }

  lemma KeysDiffer()
    ensures "kind" != "nullable" && "kind" != "element_type" && "kind" != "ordering"
    ensures "kind" != "structured_shape" && "kind" != "members"
    ensures "nullable" != "element_type" && "nullable" != "ordering"
    ensures "nullable" != "structured_shape" && "nullable" != "members"
    ensures "element_type" != "ordering" && "structured_shape" != "members" && "collection" != "structured"
  {
    assert "nullable"[0] != "ordering"[0] && "collection"[0] != "structured"[0];
  }

  /** The payload's four members, by their keys. */
  lemma FindFour(k1: string, v1: Json, k2: string, v2: Json, k3: string, v3: Json, k4: string, v4: Json)
    requires k1 != k2 && k1 != k3 && k1 != k4 && k2 != k3 && k2 != k4 && k3 != k4
    ensures var e := Entry(k1, v1, Entry(k2, v2, Entry(k3, v3, Entry(k4, v4, NoEntries))));
            Find(e, k1) == Some(v1) && Find(e, k2) == Some(v2) && Find(e, k3) == Some(v3) && Find(e, k4) == Some(v4)
  {
    var e4 := Entry(k4, v4, NoEntries);
    var e3 := Entry(k3, v3, e4);
    var e2 := Entry(k2, v2, e3);
    assert Find(e3, k4) == Find(e4, k4) && Find(e2, k4) == Find(e3, k4) && Find(e2, k3) == Find(e3, k3);
  }

  lemma TextsInvert(o: Ordering, s: Shape)
    ensures OrderingOf(OrderingText(o)) == Some(o) && ShapeOf(ShapeText(s)) == Some(s)
  {
    assert "stable"[0] == 's' && "unordered"[2] == 'o' && "unknown"[2] == 'k';
    assert "opaque"[0] == 'o' && "declared"[1] == 'e' && "dynamic"[1] == 'y';
  }

  /** A stored type reads back as itself. */
  lemma {:induction false} TypeRoundTrip(t: QueryType)
    requires Valid(t)
    ensures FromPayload(Payload(t)) == Some(t)
  {
    KeysDiffer();
    var e := Payload(t).entries;
    match t
    case Scalar(kind, nullable) =>
      assert Find(e.rest, "nullable") == Some(Flag(nullable));
    case Collection(element, o, nullable) =>
      TypeRoundTrip(element);
      TextsInvert(o, Opaque);
      FindFour("kind", Text("collection"), "nullable", Flag(nullable),
               "element_type", Payload(element), "ordering", Text(OrderingText(o)));
      assert CollectionFrom(e, nullable) == Some(t);
    case Structured(shape, m, nullable) =>
      MembersRoundTrip(m);
      TextsInvert(Stable, shape);
      FindFour("kind", Text("structured"), "nullable", Flag(nullable),
               "structured_shape", Text(ShapeText(shape)), "members", List(MemberPayloads(m)));
      assert StructuredFrom(e, nullable) == Some(t);
  }

  lemma {:induction false} MembersRoundTrip(m: Members)
    requires ValidMembers(m)
    ensures MembersFrom(MemberPayloads(m)) == Some(m) && DistinctNames(m)
  {
    if m.Cons? {
      TypeRoundTrip(m.valueType);
      MembersRoundTrip(m.rest);
      var v := MemberPayloads(m).value;
      assert Find(v.entries, "name") == Some(Text(m.name)) && Find(v.entries, "value_type") == Some(Payload(m.valueType));
    }
  }

  /** Two types are stored alike only when they are the same: comparing stored types, as
      reconciliation does, compares the types. */
  lemma PayloadIsInjective(a: QueryType, b: QueryType)
    requires Valid(a) && Valid(b) && Payload(a) == Payload(b)
    ensures a == b
  {
    TypeRoundTrip(a);
    TypeRoundTrip(b);
  }

  /** Whatever the stored text has become, what is read from it is a well-made type. */
  lemma {:induction false} DecodedIsValid(j: Json)
    ensures FromPayload(j).Some? ==> Valid(FromPayload(j).value)
    decreases j, 1
  {
    if j.Object? && FromPayload(j).Some? {
      var kind := Find(j.entries, "kind");
      if kind.value.s == "collection" {
        FindIsSmaller(j.entries, "element_type");
        assert CollectionFrom(j.entries, Find(j.entries, "nullable").value.b).Some?;
        DecodedIsValid(Find(j.entries, "element_type").value);
      } else if kind.value.s == "structured" {
        StructuredIsValid(j.entries, Find(j.entries, "nullable").value.b);
      }
    }
  }

  lemma {:induction false} StructuredIsValid(e: Entries, nullable: bool)
    ensures StructuredFrom(e, nullable).Some? ==> Valid(StructuredFrom(e, nullable).value)
    decreases e, 0
  {
    var members := Find(e, "members");
    FindIsSmaller(e, "members");
    if members.Some? && members.value.List? {
      MembersAreValid(members.value.items);
    }
  }

  lemma {:induction false} MembersAreValid(items: Entries)
    ensures MembersFrom(items).Some? && DistinctNames(MembersFrom(items).value) ==> ValidMembers(MembersFrom(items).value)
    decreases items, 0
  {
    if items.Entry? && items.value.Object? && MembersFrom(items).Some? {
      FindIsSmaller(items.value.entries, "value_type");
      DecodedIsValid(Find(items.value.entries, "value_type").value);
      MembersAreValid(items.rest);
    }
  }
}
