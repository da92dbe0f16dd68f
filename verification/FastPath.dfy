/** Discovery along a bounded enumeration: candidates are screened on what the flat
    entries show, acquired cache-first in LIMIT batches, overlaid with the entries'
    exact values and evaluated. */
module FastPath {
  import opened Options
  import opened Lists
  import opened Acquisition
  import opened LimitAcquisition
  import L = LightweightTruth
  import S = StagedPredicates

  type Entries = seq<(int, L.Entry)>

  // ---- Operations -----------------------------------------------------------------------------

  /** Flat entries as (video id, entry), screened once per id. */
  datatype Screened = Screened(observed: seq<int>, candidates: seq<int>, rejected: nat)

  function Step(s: Screened, id: int, rejected: bool): Screened {
    if id in s.observed then s
    else if rejected then Screened(s.observed + [id], s.candidates, s.rejected + 1)
    else Screened(s.observed + [id], s.candidates + [id], s.rejected)
  }

  function Screen(entries: Entries, k: nat, rejects: L.Entry -> bool): Screened
    requires k <= |entries|
  {
    if k == 0 then Screened([], [], 0)
    else Step(Screen(entries, k - 1, rejects), entries[k - 1].0, rejects(entries[k - 1].1))
  }

  /** The last entry of an id: a dict built in order. */
  function LastEntry(entries: Entries, id: int, k: nat): Option<L.Entry>
    requires k <= |entries|
  {
    if k == 0 then None
    else if entries[k - 1].0 == id then Some(entries[k - 1].1)
    else LastEntry(entries, id, k - 1)
  }

  /** A row with the entry's values of the enumerated fields. */
  function Overlay(row: Row, e: L.Entry, enumerated: set<L.Field>): Row {
    row + map f | f in enumerated && f in e.shown && f != L.SourceIndex :: e.shown[f]
  }

  /** One query on one enumeration: n is WHERE as parsed and r as resolved, enumerated the
      fields the query needs that flat entries show exactly, plain the normalisation of an
      acquired record. */
  datatype Path = Path(l: L.Language, p: S.Properties, n: L.Node, r: L.Node, entries: Entries,
                       enumerated: set<L.Field>, plain: Record -> Row) {
    predicate Discards(e: L.Entry) { S.RejectsEarly(l, p, n, e) || L.Rejected(l, n, e) }

    function Screening(): Screened { Screen(entries, |entries|, e => Discards(e)) }

    function Shown(id: int): Option<L.Entry> { LastEntry(entries, id, |entries|) }

    function Overlaid(raw: Record): Row {
      if raw.id.None? || Shown(raw.id.value).None? then plain(raw)
      else Overlay(plain(raw), Shown(raw.id.value).value, enumerated)
    }

    function Where(resolves: seq<Record> -> bool): Evaluation {
      Evaluation(row => L.Eval(l, r, row) == Some(true), plain, raw => Overlaid(raw), resolves)
    }
  }

  /** Candidate selection. */
  method ScreenEntries(path: Path) returns (s: Screened)
    ensures s == path.Screening()
  {
    var observed: seq<int>, candidates: seq<int>, rejected: nat := [], [], 0;
    for k := 0 to |path.entries|
      invariant Screened(observed, candidates, rejected) == Screen(path.entries, k, e => path.Discards(e))
    {
      var (id, e) := path.entries[k];
      if id in observed { continue; }
      observed := observed + [id];
      var early := S.RejectsAtEnumeration(path.l, path.p, path.n, e);
      if early {
        rejected := rejected + 1;
        continue;
      }
      if L.Rejected(path.l, path.n, e) {
        rejected := rejected + 1;
        continue;
      }
      candidates := candidates + [id];
    }
    s := Screened(observed, candidates, rejected);
  }

  /** The overlay of the acquired rows, their numbering and the final evaluation. */
  method FinalRows(path: Path, raw: seq<Record>, resolves: seq<Record> -> bool) returns (rows: seq<Row>)
    ensures rows == AllResults(path.Where(resolves), raw)
  {
    var flat: map<int, L.Entry> := map[];
    for k := 0 to |path.entries|
      invariant forall id :: LastEntry(path.entries, id, k) == if id in flat then Some(flat[id]) else None
    {
      flat := flat[path.entries[k].0 := path.entries[k].1];
    }
    rows := [];
    for k := 0 to |raw|
      invariant rows == Results(path.Where(resolves), raw, k)
    {
      var row := path.plain(raw[k]);
      if raw[k].id.Some? && raw[k].id.value in flat {
        row := Overlay(row, flat[raw[k].id.value], path.enumerated);
      }
      assert raw[k].id.Some? ==>
          path.Shown(raw[k].id.value) == LastEntry(path.entries, raw[k].id.value, |path.entries|);
      row := row[L.SourceIndex := L.Number((k + 1) as real)];
      if L.Eval(path.l, path.r, row) == Some(true) {
        rows := rows + [row];
      }
    }
  }

  // ---- Screening loses no result ------------------------------------------------------------------

  lemma OverlayValue(row: Row, e: L.Entry, enumerated: set<L.Field>, f: L.Field)
    ensures L.ValueOf(Overlay(row, e, enumerated), f)
         == if f in enumerated && f in e.shown && f != L.SourceIndex then e.shown[f] else L.ValueOf(row, f)
  {
  }

  /** The query resolves, its literals are the parser's, and enumerated are exact flat
      fields with all those WHERE reads among them. */
  ghost predicate Planned(path: Path) {
    && L.Sane(path.l) && S.ReadsOnly(path.l, path.p)
    && L.FromParser(path.n) && L.Resolve(path.l, path.n) == Some(path.r)
    && (forall f | f in path.enumerated :: L.ShownField(f))
    && (forall f | f in S.FieldsOf(path.p, path.n) && L.ShownField(f) :: f in path.enumerated)
  }

  predicate First(entries: Entries, i: nat)
    requires i < |entries|
  {
    forall j | 0 <= j < i :: entries[j].0 != entries[i].0
  }

  /** What the first entry of an id shows of a field is what the last one shows, and the
      entries do not number themselves. */
  predicate Repeats(path: Path, i: nat)
    requires i < |path.entries|
  {
    && L.SourceIndex !in path.entries[i].1.shown
    && forall f | f in path.enumerated && f in path.entries[i].1.shown ::
      && path.Shown(path.entries[i].0).Some?
      && f in path.Shown(path.entries[i].0).value.shown
      && path.Shown(path.entries[i].0).value.shown[f] == path.entries[i].1.shown[f]
  }

  /** The rows of a source, against its enumeration: the date of a row is in the interval
      that screening went by.  Of the other fields nothing is assumed. */
  ghost predicate Fits(path: Path, rows: int -> Option<Record>) {
    forall i | 0 <= i < |path.entries| && First(path.entries, i) :: Repeats(path, i) && Dated(path, rows, i)
  }

  ghost predicate Carry(rows: int -> Option<Record>) {
    forall id {:trigger rows(id)} :: rows(id).Some? ==> rows(id).value.id == Some(id)
  }

  predicate Dated(path: Path, rows: int -> Option<Record>, i: nat)
    requires i < |path.entries|
  {
    rows(path.entries[i].0).Some? ==> L.DateInside(path.entries[i].1, path.plain(rows(path.entries[i].0).value))
  }

  /** A row with every exact field as entry e shows it. */
  function Completed(row: Row, e: L.Entry): Row {
    row + map f | f in e.shown && L.ShownField(f) :: e.shown[f]
  }

  lemma CompletedValue(row: Row, e: L.Entry, f: L.Field)
    ensures L.ValueOf(Completed(row, e), f) == if f in e.shown && L.ShownField(f) then e.shown[f] else L.ValueOf(row, f)
  {
  }

  lemma FinalValue(path: Path, e: Evaluation, raw: Record, i: int, id: int, f: L.Field)
    requires e == path.Where(e.resolves) && raw.id == Some(id) && path.Shown(id).Some? && f != L.SourceIndex
    ensures L.ValueOf(e.Final(raw, i), f) ==
            if f in path.enumerated && f in path.Shown(id).value.shown then path.Shown(id).value.shown[f]
            else L.ValueOf(path.plain(raw), f)
  {
    OverlayValue(path.plain(raw), path.Shown(id).value, path.enumerated, f);
  }

  lemma {:induction false} LastEntryOf(entries: Entries, k: nat, i: nat)
    requires i < k <= |entries|
    ensures LastEntry(entries, entries[i].0, k).Some?
  {
    if i < k - 1 && entries[k - 1].0 != entries[i].0 {
      LastEntryOf(entries, k - 1, i);
    }
  }

  /** On the fields the predicate reads, the final row of an id is as its first entry shows. */
  lemma FinalIsShown(path: Path, e: Evaluation, raw: Record, j: nat, i: int)
    requires Planned(path) && e == path.Where(e.resolves)
    requires j < |path.entries| && raw.id == Some(path.entries[j].0) && Repeats(path, j)
    requires L.DateInside(path.entries[j].1, path.plain(raw))
    ensures var final, shown := e.Final(raw, i), path.entries[j].1;
            S.SameOn(S.FieldsOf(path.p, path.n), final, Completed(final, shown))
            && L.Consistent(shown, Completed(final, shown))
  {
    var final, id, shown := e.Final(raw, i), path.entries[j].0, path.entries[j].1;
    LastEntryOf(path.entries, |path.entries|, j);
    forall f: L.Field | f in S.FieldsOf(path.p, path.n)
      ensures L.ValueOf(final, f) == L.ValueOf(Completed(final, shown), f)
    {
      CompletedValue(final, shown, f);
      if f in shown.shown && L.ShownField(f) {
        FinalValue(path, e, raw, i, id, f);
      }
    }
    forall f | L.Exact(shown, f) ensures L.ValueOf(Completed(final, shown), f) == shown.shown[f] {
      CompletedValue(final, shown, f);
    }
    CompletedValue(final, shown, L.UploadDate);
    FinalValue(path, e, raw, i, id, L.UploadDate);
  }

  /** The row of a discarded entry is no result, wherever it would be numbered. */
  lemma DiscardedIsNoResult(path: Path, e: Evaluation, raw: Record, j: nat, i: int)
    requires Planned(path) && e == path.Where(e.resolves)
    requires j < |path.entries| && raw.id == Some(path.entries[j].0) && Repeats(path, j)
    requires L.DateInside(path.entries[j].1, path.plain(raw)) && path.Discards(path.entries[j].1)
    ensures !e.Keeps(raw, i)
  {
    var final, shown := e.Final(raw, i), path.entries[j].1;
    FinalIsShown(path, e, raw, j, i);
    S.ResolvedFields(path.l, path.p, path.n);
    S.EvalReads(path.l, path.p, path.r, final, Completed(final, shown));
    L.RejectionIsSafe(path.l, path.n, path.r, shown, Completed(final, shown));
    S.EarlyRejectionIsSafe(path.l, path.p, path.n, path.r, shown, Completed(final, shown));
  }

  lemma {:induction false} ScreenObserves(entries: Entries, k: nat, rejects: L.Entry -> bool, id: int)
    requires k <= |entries|
    ensures id in Screen(entries, k, rejects).observed <==> exists j :: 0 <= j < k && entries[j].0 == id
  {
    if k > 0 {
      ScreenObserves(entries, k - 1, rejects, id);
    }
  }

  lemma {:induction false} ScreenKeeps(entries: Entries, k: nat, rejects: L.Entry -> bool, matched: int -> bool)
    requires k <= |entries|
    requires forall i | 0 <= i < k && First(entries, i) && rejects(entries[i].1) :: !matched(entries[i].0)
    ensures Balanced(Screen(entries, k, rejects), matched)
  {
    if k > 0 {
      ScreenKeeps(entries, k - 1, rejects, matched);
      var s, id := Screen(entries, k - 1, rejects), entries[k - 1].0;
      ScreenObserves(entries, k - 1, rejects, id);
      assert id !in s.observed ==> First(entries, k - 1);
      StepKeeps(s, id, rejects(entries[k - 1].1), matched);
    }
  }

  /** Nothing matched was lost, and every observed id is a candidate or rejected. */
  predicate Balanced(s: Screened, matched: int -> bool) {
    Kept(s.observed, matched) == Kept(s.candidates, matched) && |s.observed| == |s.candidates| + s.rejected
  }

  lemma StepKeeps(s: Screened, id: int, rejected: bool, matched: int -> bool)
    requires Balanced(s, matched) && (id !in s.observed && rejected ==> !matched(id))
    ensures Balanced(Step(s, id, rejected), matched)
  {
    KeptSnoc(s.observed, id, matched);
    KeptSnoc(s.candidates, id, matched);
    if id !in s.observed && rejected {
      assert Kept(s.observed + [id], matched) == Kept(s.observed, matched);
    }
  }

  /** matched are the ids whose row is a result when it has index i. */
  ghost predicate MatchedAt(e: Evaluation, rows: int -> Option<Record>, i: int, matched: int -> bool) {
    forall id {:trigger matched(id)} :: matched(id) <==> rows(id).Some? && e.Keeps(rows(id).value, i)
  }

  /** Screening loses no row of the result: among every observed id those whose row is a
      result at index i are, in order, those among the candidates. */
  lemma ScreeningKeepsMatches(path: Path, e: Evaluation, rows: int -> Option<Record>, i: int, matched: int -> bool)
    requires Planned(path) && Fits(path, rows) && Carry(rows)
    requires e == path.Where(e.resolves) && MatchedAt(e, rows, i, matched)
    ensures Balanced(path.Screening(), matched)
  {
    var entries := path.entries;
    forall j | 0 <= j < |entries| && First(entries, j) && path.Discards(entries[j].1) ensures !matched(entries[j].0) {
      var id := entries[j].0;
      assert Repeats(path, j) && Dated(path, rows, j);
      assert matched(id) ==> rows(id).Some?;
      if rows(id).Some? {
        DiscardedIsNoResult(path, e, rows(id).value, j, i);
      }
    }
    ScreenKeeps(entries, |entries|, e => path.Discards(e), matched);
  }

  // ---- Discarded candidates renumber the rest --------------------------------------------------------

  function Bare(row: Row): Row { row - {L.SourceIndex} }

  /** Rows without their source_index. */
  function Unnumbered(rows: seq<Row>): seq<Row> { seq(|rows|, i requires 0 <= i < |rows| => Bare(rows[i])) }

  function BareRows(e: Evaluation, raw: seq<Record>): seq<Row> {
    seq(|raw|, i requires 0 <= i < |raw| => Bare(e.overlaid(raw[i])))
  }

  /** Whether the row of an id is a result does not depend on its number. */
  ghost predicate Decided(e: Evaluation, rows: int -> Option<Record>, id: int, matched: bool) {
    rows(id).Some? ==> forall i: int {:trigger e.Keeps(rows(id).value, i)} | i > 0 :: e.Keeps(rows(id).value, i) == matched
  }

  /** The results are then the rows of the matched ids, in order. */
  lemma {:induction false} ResultsOfMatched(e: Evaluation, rows: int -> Option<Record>, ids: seq<int>, matched: int -> bool)
    requires forall k | 0 <= k < |ids| :: Decided(e, rows, ids[k], matched(ids[k]))
    ensures Unnumbered(AllResults(e, RowsBy(rows, ids))) == BareRows(e, RowsBy(rows, Kept(ids, matched)))
  {
    if ids != [] {
      var front, id := ids[..|ids| - 1], ids[|ids| - 1];
      ResultsOfMatched(e, rows, front, matched);
      assert Decided(e, rows, id, matched(id));
      NextResult(e, rows, front, id, matched(id), Kept(front, matched));
    }
  }

  lemma NextResult(e: Evaluation, rows: int -> Option<Record>, front: seq<int>, id: int, matched: bool, kept: seq<int>)
    requires Decided(e, rows, id, matched)
    requires Unnumbered(AllResults(e, RowsBy(rows, front))) == BareRows(e, RowsBy(rows, kept))
    ensures Unnumbered(AllResults(e, RowsBy(rows, front + [id])))
         == BareRows(e, RowsBy(rows, kept + if matched then [id] else []))
  {
    var raw, row := RowsBy(rows, front), rows(id);
    RowOfOne(rows, id);
    RowsByAppend(rows, front, [id]);
    RowsByAppend(rows, kept, [id]);
    assert kept + [] == kept;
    if row.Some? {
      assert e.Keeps(row.value, |raw| + 1) == matched;
      NextRow(e, raw, row.value, RowsBy(rows, kept));
    } else {
      assert raw + [] == raw && RowsBy(rows, kept) + [] == RowsBy(rows, kept);
    }
  }

  lemma NextRow(e: Evaluation, raw: seq<Record>, row: Record, kept: seq<Record>)
    requires Unnumbered(AllResults(e, raw)) == BareRows(e, kept)
    ensures Unnumbered(AllResults(e, raw + [row])) == BareRows(e, kept + if e.Keeps(row, |raw| + 1) then [row] else [])
  {
    var n := |raw| + 1;
    ResultsPrefix(e, raw, [row], |raw|);
    if e.Keeps(row, n) {
      assert AllResults(e, raw + [row]) == AllResults(e, raw) + [e.Final(row, n)];
      assert Bare(e.Final(row, n)) == Bare(e.overlaid(row));
      assert Unnumbered(AllResults(e, raw + [row])) == Unnumbered(AllResults(e, raw)) + [Bare(e.overlaid(row))];
      assert BareRows(e, kept + [row]) == BareRows(e, kept) + [Bare(e.overlaid(row))];
    } else {
      assert kept + [] == kept;
    }
  }

  lemma RowOfOne(rows: int -> Option<Record>, id: int)
    ensures RowsBy(rows, [id]) == if rows(id).Some? then [rows(id).value] else []
  {
    assert [id][..0] == [] && RowsBy(rows, []) == [];
  }

  lemma SliceUnnumbered(rows: seq<Row>, offset: nat, limit: nat)
    ensures Unnumbered(Slice(rows, offset, limit)) == Slice(Unnumbered(rows), offset, limit)
  {
  }

  /** Candidates of a source, and which of them are discarded. */
  datatype Discarding = Discarding(rows: int -> Option<Record>, ids: seq<int>, discarded: int -> bool)

  /** No row that would be a result is discarded. */
  ghost predicate Harmless(e: Evaluation, d: Discarding) {
    forall id {:trigger d.discarded(id)} :: d.discarded(id) ==> Decided(e, d.rows, id, false)
  }

  /** Discarding changes no result, apart from its number. */
  predicate SameAfter(e: Evaluation, d: Discarding) {
    Unnumbered(AllResults(e, RowsBy(d.rows, Kept(d.ids, id => !d.discarded(id))))) == Unnumbered(AllResults(e, RowsBy(d.rows, d.ids)))
  }

  ghost predicate IndexStable(e: Evaluation) {
    forall r: Record, i: int {:trigger e.Keeps(r, i)} :: i > 0 ==> e.Keeps(r, i) == e.Keeps(r, 1)
  }

  /** With a row that is never a result, as a discarded one is, discarding changes no
      results of any source exactly when no row's number decides whether it is one. */
  lemma RenumberingIsExactly(e: Evaluation, never: Record)
    requires forall i: int {:trigger e.Keeps(never, i)} :: i > 0 ==> !e.Keeps(never, i)
    ensures (forall d: Discarding {:trigger SameAfter(e, d)} :: Harmless(e, d) ==> SameAfter(e, d)) <==> IndexStable(e)
  {
    if IndexStable(e) {
      forall d: Discarding | Harmless(e, d) ensures SameAfter(e, d) {
        StableIsSame(e, d);
      }
    } else {
      var r: Record, i: int :| i > 0 && e.Keeps(r, i) != e.Keeps(r, 1);
      var d := RenumberedRow(e, never, r, i);
    }
  }

  lemma StableIsSame(e: Evaluation, d: Discarding)
    requires IndexStable(e) && Harmless(e, d)
    ensures SameAfter(e, d)
  {
    var matched := id => d.rows(id).Some? && e.Keeps(d.rows(id).value, 1);
    var left := Kept(d.ids, id => !d.discarded(id));
    ResultsOfMatched(e, d.rows, d.ids, matched);
    ResultsOfMatched(e, d.rows, left, matched);
    forall k | 0 <= k < |d.ids| ensures matched(d.ids[k]) == (!d.discarded(d.ids[k]) && matched(d.ids[k])) {
      var id := d.ids[k];
      if d.discarded(id) {
        assert Decided(e, d.rows, id, false);
        assert d.rows(id).Some? ==> !e.Keeps(d.rows(id).value, 1);
      }
    }
    KeptTwice(d.ids, id => !d.discarded(id), matched, matched);
  }

  /** The row at position i, after rows that are no results. */
  function Behind(never: Record, r: Record, i: nat): Discarding
    requires i > 0
  {
    Discarding(id => if id == 0 then Some(never) else Some(r), Repeat(0, i - 1) + [1], id => id == 0)
  }

  lemma RenumberedRow(e: Evaluation, never: Record, r: Record, i: nat) returns (d: Discarding)
    requires i > 0 && e.Keeps(r, i) != e.Keeps(r, 1)
    requires forall j: int {:trigger e.Keeps(never, j)} :: j > 0 ==> !e.Keeps(never, j)
    ensures Harmless(e, d) && !SameAfter(e, d)
  {
    d := Behind(never, r, i);
    assert Decided(e, d.rows, 0, false);
    BehindRows(never, r, i, d);
    BehindResults(e, never, r, i);
  }

  lemma BehindRows(never: Record, r: Record, i: nat, d: Discarding)
    requires i > 0 && d == Behind(never, r, i)
    ensures RowsBy(d.rows, d.ids) == Repeat(never, i - 1) + [r]
    ensures RowsBy(d.rows, Kept(d.ids, id => !d.discarded(id))) == [r]
  {
    RepeatedRows(d.rows, 0, i - 1);
    RowOfOne(d.rows, 1);
    RowsByAppend(d.rows, Repeat(0, i - 1), [1]);
    OnlyLastKept(Repeat(0, i - 1), 1, id => !d.discarded(id));
  }

  lemma OnlyLastKept(ids: seq<int>, last: int, keep: int -> bool)
    requires keep(last) && forall k | 0 <= k < |ids| :: !keep(ids[k])
    ensures Kept(ids + [last], keep) == [last]
  {
    KeptSnoc(ids, last, keep);
    KeptNone(ids, keep);
    assert [] + [last] == [last];
  }

  lemma BehindResults(e: Evaluation, never: Record, r: Record, i: nat)
    requires i > 0 && forall j: int {:trigger e.Keeps(never, j)} :: j > 0 ==> !e.Keeps(never, j)
    ensures |AllResults(e, Repeat(never, i - 1) + [r])| == if e.Keeps(r, i) then 1 else 0
    ensures |AllResults(e, [r])| == if e.Keeps(r, 1) then 1 else 0
  {
    var raw := Repeat(never, i - 1) + [r];
    NoMoreResults(e, raw, 0, i - 1);
    assert Results(e, raw, i) == Results(e, raw, i - 1) + if e.Keeps(r, i) then [e.Final(r, i)] else [];
    assert Results(e, [r], 1) == Results(e, [r], 0) + if e.Keeps(r, 1) then [e.Final(r, 1)] else [];
  }

  lemma {:induction false} RepeatedRows(rows: int -> Option<Record>, id: int, n: nat)
    requires rows(id).Some?
    ensures RowsBy(rows, Repeat(id, n)) == Repeat(rows(id).value, n)
  {
    if n > 0 {
      RepeatedRows(rows, id, n - 1);
      assert Repeat(id, n)[..n - 1] == Repeat(id, n - 1);
    }
  }

  // ---- The whole path ----------------------------------------------------------------------------------

  /** A cached record has the id it is cached under. */
  ghost predicate CarriesIds(q: Request) {
    forall id {:trigger q.Held(id)} :: q.Held(id) ==> q.cache.value[id].record.id == Some(id)
  }

  lemma {:induction false} SaidCarriesId(q: Request, a: Answers, id: int, k: nat)
    requires k <= |q.coverage|
    ensures SaidBy(q, a, id, k).Some? ==> SaidBy(q, a, id, k).value.id == Some(id)
  {
    if k > 0 {
      SaidCarriesId(q, a, id, k - 1);
    }
  }

  lemma AloneCarries(q: Request, a: Answers, rows: int -> Option<Record>)
    requires CarriesIds(q) && forall id {:trigger rows(id)} :: rows(id) == RowAlone(q, a, id)
    ensures Carry(rows)
  {
    forall id ensures rows(id).Some? ==> rows(id).value.id == Some(id) {
      SaidCarriesId(q, a, id, |q.coverage|);
      assert q.Held(id) ==> q.cache.value[id].record.id == Some(id);
      assert rows(id) == RowAlone(q, a, id);
    }
  }

  /** No candidate is a result at one number and none at another. */
  ghost predicate Unaffected(e: Evaluation, rows: int -> Option<Record>, ids: seq<int>) {
    forall k | 0 <= k < |ids| :: Decided(e, rows, ids[k], rows(ids[k]).Some? && e.Keeps(rows(ids[k]).value, 1))
  }

  predicate Rejecting(path: Path, j: nat, id: int) {
    j < |path.entries| && First(path.entries, j) && path.entries[j].0 == id && path.Discards(path.entries[j].1)
  }

  /** An observed id is a candidate, or its first entry was rejected. */
  lemma {:induction false} ObservedSplit(path: Path, k: nat, id: int)
    requires k <= |path.entries|
    ensures var s := Screen(path.entries, k, e => path.Discards(e));
            id in s.observed ==> id in s.candidates || exists j: nat :: Rejecting(path, j, id)
  {
    if k > 0 {
      ObservedSplit(path, k - 1, id);
      var rejects := (e: L.Entry) => path.Discards(e);
      ScreenObserves(path.entries, k - 1, rejects, id);
      var s := Screen(path.entries, k - 1, rejects);
      if id !in s.observed && path.entries[k - 1].0 == id && rejects(path.entries[k - 1].1) {
        assert Rejecting(path, k - 1, id);
      }
    }
  }

  lemma {:induction false} NothingRejected(entries: Entries, k: nat, rejects: L.Entry -> bool)
    requires k <= |entries| && Screen(entries, k, rejects).rejected == 0
    ensures Screen(entries, k, rejects).candidates == Screen(entries, k, rejects).observed
  {
    if k > 0 {
      NothingRejected(entries, k - 1, rejects);
    }
  }

  /** Every observed id is decided: the candidates are, and rejected ids have no result. */
  lemma ObservedAreDecided(path: Path, e: Evaluation, rows: int -> Option<Record>, s: Screened, matched: int -> bool, id: int)
    requires Planned(path) && Fits(path, rows) && Carry(rows) && s == path.Screening() && id in s.observed
    requires e == path.Where(e.resolves) && MatchedAt(e, rows, 1, matched) && Unaffected(e, rows, s.candidates)
    ensures Decided(e, rows, id, matched(id))
  {
    ObservedSplit(path, |path.entries|, id);
    if id in s.candidates {
      var k :| 0 <= k < |s.candidates| && s.candidates[k] == id;
      assert Decided(e, rows, s.candidates[k], rows(id).Some? && e.Keeps(rows(id).value, 1));
    } else {
      var j: nat :| Rejecting(path, j, id);
      assert Repeats(path, j) && Dated(path, rows, j);
      if rows(id).Some? {
        forall i: int ensures !e.Keeps(rows(id).value, i) {
          DiscardedIsNoResult(path, e, rows(id).value, j, i);
        }
      }
    }
  }

  /** The results of the candidates are those of every observed id, but for their numbers. */
  lemma ScreenedResults(path: Path, e: Evaluation, rows: int -> Option<Record>, s: Screened)
    requires Planned(path) && Fits(path, rows) && Carry(rows) && s == path.Screening()
    requires e == path.Where(e.resolves) && Unaffected(e, rows, s.candidates)
    ensures Unnumbered(AllResults(e, RowsBy(rows, s.candidates))) == Unnumbered(AllResults(e, RowsBy(rows, s.observed)))
  {
    var matched := id => rows(id).Some? && e.Keeps(rows(id).value, 1);
    ScreeningKeepsMatches(path, e, rows, 1, matched);
    forall k | 0 <= k < |s.observed| ensures Decided(e, rows, s.observed[k], matched(s.observed[k])) {
      ObservedAreDecided(path, e, rows, s, matched, s.observed[k]);
    }
    ResultsOfMatched(e, rows, s.observed, matched);
    ResultsOfMatched(e, rows, s.candidates, matched);
  }

  /** Discarding on the enumeration, batching by LIMIT, reusing the cache and laying the
      enumeration's values over the acquired rows give the rows of acquiring every
      observed id: with their numbers where nothing was discarded, else apart from them. */
  lemma FastPathIsExact(path: Path, s: Screened, e: Evaluation, q: Request, a: Answers, rows: int -> Option<Record>,
                        fetch: Fetch, offset: nat, limit: nat, k: nat)
    requires Planned(path) && Fits(path, rows) && s == path.Screening() && e == path.Where(e.resolves)
    requires CachesFirst(q, PerId(a), fetch) && CarriesIds(q)
    requires forall id {:trigger rows(id)} :: rows(id) == RowAlone(q, a, id)
    requires CountSafe(e, fetch(s.candidates)) && (s.rejected == 0 || Unaffected(e, rows, s.candidates))
    requires StopsAt(e, fetch, s.candidates, offset + limit, k)
    ensures var part, whole := AllResults(e, Acquired(fetch, s.candidates, k)), AllResults(e, fetch(s.observed));
            && Unnumbered(Slice(part, offset, limit)) == Unnumbered(Slice(whole, offset, limit))
            && (s.rejected == 0 ==> Slice(part, offset, limit) == Slice(whole, offset, limit))
  {
    AloneCarries(q, a, rows);
    CacheFirstIsAlone(q, a, fetch);
    forall ids ensures fetch(ids) == RowsBy(rows, ids) {
      AloneIsOneByOne(q, a, ids, rows);
    }
    BatchingRefinesExhaustive(e, rows, fetch, s.candidates, offset, limit, k);
    if s.rejected == 0 {
      NothingRejected(path.entries, |path.entries|, e => path.Discards(e));
    } else {
      ScreenedResults(path, e, rows, s);
      SliceUnnumbered(AllResults(e, fetch(s.candidates)), offset, limit);
      SliceUnnumbered(AllResults(e, fetch(s.observed)), offset, limit);
    }
  }

  // ---- When the counts are safe ------------------------------------------------------------------------

  /** Where the predicate reads a field that the overlay replaces, the acquired value is
      the one shown. */
  predicate UpToDate(path: Path, raw: Record) {
    raw.id.Some? && path.Shown(raw.id.value).Some? ==>
      var shown := path.Shown(raw.id.value).value.shown;
      forall f | f in S.FieldsOf(path.p, path.n) && f in path.enumerated && f in shown ::
        L.ValueOf(path.plain(raw), f) == shown[f]
  }

  lemma FinalReads(path: Path, e: Evaluation, raw: Record, i: int)
    requires Planned(path) && e == path.Where(e.resolves)
    requires L.SourceIndex !in S.FieldsOf(path.p, path.n)
    ensures e.Keeps(raw, i) == e.truth(path.Overlaid(raw))
    ensures UpToDate(path, raw) ==> e.Keeps(raw, i) == e.Counts(raw)
  {
    S.ResolvedFields(path.l, path.p, path.n);
    S.EvalReads(path.l, path.p, path.r, e.Final(raw, i), path.Overlaid(raw));
    if UpToDate(path, raw) {
      forall f: L.Field | f in S.FieldsOf(path.p, path.n)
        ensures L.ValueOf(path.Overlaid(raw), f) == L.ValueOf(path.plain(raw), f)
      {
        if raw.id.Some? && path.Shown(raw.id.value).Some? {
          OverlayValue(path.plain(raw), path.Shown(raw.id.value).value, path.enumerated, f);
        }
      }
      S.EvalReads(path.l, path.p, path.r, path.Overlaid(raw), path.plain(raw));
    }
  }

  /** A predicate that does not read source_index, on rows whose id and title, where it
      reads them, are as shown, has safe counts; nor do the numbers of its results
      matter.  One that reads no enumerated field has such rows only. */
  lemma UpToDateIsSafe(path: Path, e: Evaluation, rows: int -> Option<Record>, ids: seq<int>)
    requires Planned(path) && e == path.Where(e.resolves) && L.SourceIndex !in S.FieldsOf(path.p, path.n)
    ensures Unaffected(e, rows, ids)
    ensures (forall f | f in S.FieldsOf(path.p, path.n) :: f !in path.enumerated) ==>
              forall raw: Record {:trigger UpToDate(path, raw)} :: UpToDate(path, raw)
    ensures (forall k | 0 <= k < |RowsBy(rows, ids)| :: UpToDate(path, RowsBy(rows, ids)[k])) ==>
              CountSafe(e, RowsBy(rows, ids))
  {
    forall k | 0 <= k < |ids| ensures Decided(e, rows, ids[k], rows(ids[k]).Some? && e.Keeps(rows(ids[k]).value, 1)) {
      if rows(ids[k]).Some? {
        var raw := rows(ids[k]).value;
        forall i: int ensures e.Keeps(raw, i) == e.Keeps(raw, 1) {
          FinalReads(path, e, raw, i);
          FinalReads(path, e, raw, 1);
        }
      }
    }
    var whole := RowsBy(rows, ids);
    if forall k | 0 <= k < |whole| :: UpToDate(path, whole[k]) {
      UpToDateCounts(path, e, whole);
    }
  }

  lemma UpToDateCounts(path: Path, e: Evaluation, whole: seq<Record>)
    requires Planned(path) && e == path.Where(e.resolves) && L.SourceIndex !in S.FieldsOf(path.p, path.n)
    requires forall k | 0 <= k < |whole| :: UpToDate(path, whole[k])
    ensures CountSafe(e, whole)
  {
    forall i | 0 <= i < |whole| ensures !Miscounted(e, whole[i], i + 1) {
      FinalReads(path, e, whole[i], i + 1);
    }
    SafeRowsSuffice(e, whole);
  }
}
