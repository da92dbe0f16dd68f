/** Where the fast path loses rows: titles that changed since they were cached, and ids
    that one enumeration shows in two ways. */
module FastPathLosses {
  import opened Options
  import opened Lists
  import opened Acquisition
  import opened LimitAcquisition
  import opened FastPath
  import L = LightweightTruth
  import S = StagedPredicates

  const TITLE := 1
  const VIEWS := 2
  const SHOWN := 3      // the title in the enumeration
  const SOUGHT := 4     // the text the predicate looks for

  function Video(id: int, title: int, views: int): Record {
    Record(Some(id), map[TITLE := Some(title), VIEWS := Some(views)])
  }

  function Member(raw: Record, f: int): int {
    if f in raw.fields && raw.fields[f].Some? then raw.fields[f].value else 0
  }

  function Normalised(raw: Record): Row {
    map[L.Title := L.Text(Member(raw, TITLE)), L.OtherField(VIEWS) := L.Number(Member(raw, VIEWS) as real),
        L.UploadDate := L.Date(0)]
  }

  function Since(): L.Node { L.Compare(L.Ge, L.UploadDate, L.Date(0)) }

  function Named(): L.Node { L.TextTest(L.Contains, L.Title, L.Text(SOUGHT), false) }

  function Viewed(): L.Node { L.Compare(L.Gt, L.OtherField(VIEWS), L.Number(10.0)) }

  /** upload_date >= day 0 AND (title CONTAINS sought OR view_count > 10). */
  function Seeking(): L.Node { L.And(Since(), L.Or(Named(), Viewed())) }

  function TitleEntry(): L.Entry { L.Entry(map[L.Title := L.Text(SHOWN)], None) }

  /** 26 entries that show another title. */
  function TitlePath(l: L.Language, p: S.Properties): Path {
    Path(l, p, Seeking(), Seeking(), seq(26, i => (i, TitleEntry())), {L.Id, L.Title}, raw => Normalised(raw))
  }

  /** The first candidate is cached and fresh, under an old title; the last has the views. */
  function OldTitle(): Request { Request(Some(map[0 := Item(Video(0, SOUGHT, 5), {})]), {VIEWS}, []) }

  function Details(id: int): Option<Fields> {
    if 0 < id < 25 then Some(Video(id, SHOWN, 5).fields)
    else if id == 25 then Some(Video(id, SHOWN, 20).fields)
    else None
  }

  function FromYouTube(): Answers { Answers(_ => false, (_, _) => None, id => Details(id)) }

  function VideoOf(id: int): Record {
    if id == 0 then Video(0, SOUGHT, 5) else if id < 25 then Video(id, SHOWN, 5) else Video(id, SHOWN, 20)
  }

  function Videos(n: nat): seq<Record> { seq(n, i => VideoOf(i)) }

  predicate Literals(l: L.Language) {
    && l.otherLiteral(VIEWS, L.Number(10.0)) == Some(L.Number(10.0))
    && l.matches(L.Contains, SOUGHT, SOUGHT) && !l.matches(L.Contains, SOUGHT, SHOWN)
  }

  lemma SinceReads(l: L.Language, row: Row)
    requires L.ValueOf(row, L.UploadDate) == L.Date(0)
    ensures L.Eval(l, Since(), row) == Some(true)
  {
  }

  lemma NamedReads(l: L.Language, row: Row, title: int)
    requires L.Sane(l) && L.ValueOf(row, L.Title) == L.Text(title)
    ensures L.Eval(l, Named(), row) == Some(l.matches(L.Contains, SOUGHT, title))
  {
    assert l.str(L.Text(SOUGHT)) == SOUGHT;
  }

  lemma ViewedReads(l: L.Language, row: Row, views: real)
    requires L.ValueOf(row, L.OtherField(VIEWS)) == L.Number(views)
    ensures L.Eval(l, Viewed(), row) == Some(views > 10.0)
  {
  }

  lemma AndOrReads(l: L.Language, a: L.Node, b: L.Node, c: L.Node, row: Row, x: bool, y: bool)
    requires L.Eval(l, a, row) == Some(true) && L.Eval(l, b, row) == Some(x) && L.Eval(l, c, row) == Some(y)
    ensures L.Eval(l, L.And(a, L.Or(b, c)), row) == Some(x || y)
  {
    assert L.Eval(l, L.Or(b, c), row) == Some(x || y);
  }

  lemma SeekingReads(l: L.Language, row: Row, title: int, views: real)
    requires L.Sane(l) && L.ValueOf(row, L.UploadDate) == L.Date(0)
    requires L.ValueOf(row, L.Title) == L.Text(title) && L.ValueOf(row, L.OtherField(VIEWS)) == L.Number(views)
    ensures L.Eval(l, Seeking(), row) == Some(l.matches(L.Contains, SOUGHT, title) || views > 10.0)
  {
    SinceReads(l, row);
    NamedReads(l, row, title);
    ViewedReads(l, row, views);
    AndOrReads(l, Since(), Named(), Viewed(), row, l.matches(L.Contains, SOUGHT, title), views > 10.0);
  }

  lemma SeekingResolves(l: L.Language)
    requires L.Sane(l) && Literals(l)
    ensures L.Resolve(l, Seeking()) == Some(Seeking())
  {
    assert l.parseDate(l.str(L.Date(0))) == Some(0) && l.infinity(l.str(L.Date(0))).None?;
    assert L.Resolve(l, Since()) == Some(Since()) && L.Resolve(l, Named()) == Some(Named());
    assert L.Resolve(l, Viewed()) == Some(Viewed());
    assert L.Resolve(l, L.Or(Named(), Viewed())) == Some(L.Or(Named(), Viewed()));
  }

  lemma NoneIsEarly(p: S.Properties)
    ensures !S.Early(p, Since()) && !S.Early(p, L.Or(Named(), Viewed()))
  {
    assert L.UploadDate in S.FieldsOf(p, Since());
    assert L.OtherField(VIEWS) in S.FieldsOf(p, Viewed());
    assert L.OtherField(VIEWS) in S.FieldsOf(p, L.Or(Named(), Viewed()));
  }

  lemma NothingEarly(p: S.Properties)
    ensures S.EnumerationTerms(p, Seeking()) == []
  {
    var first, second := Since(), L.Or(Named(), Viewed());
    assert S.Terms(first) == [first] && S.Terms(second) == [second];
    NoneIsEarly(p);
    KeptNone([first] + [second], term => S.Early(p, term));
  }

  lemma NothingClaimed(l: L.Language)
    ensures L.Claim(l, Seeking(), TitleEntry()) != Some(false)
  {
    assert L.Claim(l, Since(), TitleEntry()).None? && L.Claim(l, Viewed(), TitleEntry()).None?;
    assert L.Claim(l, L.Or(Named(), Viewed()), TitleEntry()) != Some(false);
  }

  // ---- The enumeration ------------------------------------------------------------------------------

  function FirstIds(k: nat): seq<int> { seq(k, i => i) }

  function Same(e: L.Entry, n: nat): Entries { seq(n, i => (i, e)) }

  lemma {:induction false} ScreensAll(e: L.Entry, n: nat, k: nat, rejects: L.Entry -> bool)
    requires k <= n && !rejects(e)
    ensures Screen(Same(e, n), k, rejects) == Screened(FirstIds(k), FirstIds(k), 0)
  {
    if k > 0 {
      ScreensAll(e, n, k - 1, rejects);
      assert FirstIds(k) == FirstIds(k - 1) + [k - 1];
    } else {
      assert FirstIds(0) == [];
    }
  }

  lemma {:induction false} ShownLast(e: L.Entry, n: nat, k: nat, id: int)
    requires k <= n && 0 <= id < k
    ensures LastEntry(Same(e, n), id, k) == Some(e)
  {
    if id < k - 1 {
      ShownLast(e, n, k - 1, id);
    }
  }

  lemma SeekingFields(p: S.Properties)
    ensures S.FieldsOf(p, Seeking()) == {L.UploadDate, L.Title, L.OtherField(VIEWS)}
  {
    var rest := L.Or(Named(), Viewed());
    assert S.FieldsOf(p, rest) == S.FieldsOf(p, Named()) + S.FieldsOf(p, Viewed());
    assert S.FieldsOf(p, Seeking()) == S.FieldsOf(p, Since()) + S.FieldsOf(p, rest);
  }

  lemma TitleIsPlanned(l: L.Language, p: S.Properties, path: Path)
    requires L.Sane(l) && S.ReadsOnly(l, p) && Literals(l) && path == TitlePath(l, p)
    ensures Planned(path)
  {
    SeekingResolves(l);
    NothingEarly(p);
    SeekingFields(p);
  }

  lemma OldTitleCarries()
    ensures CarriesIds(OldTitle())
  {
  }

  lemma TitleIsScreened(l: L.Language, p: S.Properties, path: Path)
    requires path == TitlePath(l, p)
    ensures path.Screening() == Screened(FirstIds(26), FirstIds(26), 0)
    ensures forall rows {:trigger Fits(path, rows)} :: Fits(path, rows)
  {
    NothingEarly(p);
    NothingClaimed(l);
    assert path.entries == Same(TitleEntry(), 26);
    ScreensAll(TitleEntry(), 26, 26, e => path.Discards(e));
    forall rows ensures Fits(path, rows) {
      forall i | 0 <= i < |path.entries| ensures Repeats(path, i) {
        ShownLast(TitleEntry(), 26, 26, i);
      }
    }
  }

  lemma RowOfVideo(id: int)
    requires 0 <= id < 26
    ensures RowAlone(OldTitle(), FromYouTube(), id) == Some(VideoOf(id))
  {
    if id > 0 {
      assert !OldTitle().Held(id);
    }
  }

  lemma {:induction false} VideosAlone(n: nat)
    requires n <= 26
    ensures RowsAlone(OldTitle(), FromYouTube(), FirstIds(n)) == Videos(n)
  {
    if n > 0 {
      VideosAlone(n - 1);
      RowOfVideo(n - 1);
      assert FirstIds(n)[..n - 1] == FirstIds(n - 1);
    }
  }

  // ---- The loss --------------------------------------------------------------------------------------

  lemma VideoIsRead(id: int, title: int, views: int)
    ensures var row := Normalised(Video(id, title, views));
            && L.ValueOf(row, L.Title) == L.Text(title) && L.ValueOf(row, L.UploadDate) == L.Date(0)
            && L.ValueOf(row, L.OtherField(VIEWS)) == L.Number(views as real)
  {
  }

  /** The old title counts; after the overlay only the views do. */
  lemma TitleTruth(l: L.Language, p: S.Properties, path: Path, e: Evaluation, id: int, i: int)
    requires L.Sane(l) && Literals(l) && path == TitlePath(l, p) && e == path.Where(e.resolves) && 0 <= id < 26
    ensures id == 0 ==> e.Counts(VideoOf(id))
    ensures e.Keeps(VideoOf(id), i) <==> id == 25
  {
    var title, views := if id == 0 then SOUGHT else SHOWN, if id == 25 then 20 else 5;
    var raw := VideoOf(id);
    assert raw == Video(id, title, views);
    VideoIsRead(id, title, views);
    SeekingReads(l, path.plain(raw), title, views as real);
    assert path.entries == Same(TitleEntry(), 26);
    ShownLast(TitleEntry(), 26, 26, id);
    FinalValue(path, e, raw, i, id, L.Title);
    FinalValue(path, e, raw, i, id, L.UploadDate);
    FinalValue(path, e, raw, i, id, L.OtherField(VIEWS));
    SeekingReads(l, e.Final(raw, i), SHOWN, views as real);
  }

  lemma TitleResults(l: L.Language, p: S.Properties, path: Path, e: Evaluation)
    requires L.Sane(l) && Literals(l) && path == TitlePath(l, p) && e == path.Where(e.resolves)
    ensures AllResults(e, Videos(25)) == [] && AllResults(e, Videos(26)) == [e.Final(VideoOf(25), 26)]
  {
    forall id, i: int | 0 <= id < 26 ensures e.Keeps(VideoOf(id), i) <==> id == 25 {
      TitleTruth(l, p, path, e, id, i);
    }
    NoMoreResults(e, Videos(25), 0, 25);
    NoMoreResults(e, Videos(26), 0, 25);
    assert Results(e, Videos(26), 26) == Results(e, Videos(26), 25) + [e.Final(VideoOf(25), 26)];
  }

  lemma {:induction false} FirstIsCounted(e: Evaluation, n: nat)
    requires n > 0 && e.Counts(VideoOf(0))
    ensures Counted(e, Videos(n)) > 0
  {
    assert Videos(n)[..n - 1] == Videos(n - 1);
    if n > 1 {
      FirstIsCounted(e, n - 1);
    }
  }

  lemma OldTitleStops(e: Evaluation, fetch: Fetch)
    requires CachesFirst(OldTitle(), PerId(FromYouTube()), fetch) && e.Counts(VideoOf(0))
    requires forall batch {:trigger e.resolves(batch)} :: e.resolves(batch)
    ensures Acquired(fetch, FirstIds(26), 1) == Videos(25) && fetch(FirstIds(26)) == Videos(26)
    ensures StopsAt(e, fetch, FirstIds(26), 1, 1)
  {
    CacheFirstIsAlone(OldTitle(), FromYouTube(), fetch);
    VideosAlone(25);
    VideosAlone(26);
    var ids := FirstIds(26);
    assert Batch(ids, 1) == FirstIds(25);
    assert Acquired(fetch, ids, 1) == Acquired(fetch, ids, 0) + fetch(FirstIds(25)) == fetch(FirstIds(25));
    MatchedAreCounted(e, fetch, ids, 1);
    FirstIsCounted(e, 25);
  }

  /** Batches count rows without the overlay.  Of 26 candidates the first is cached under
      a title that satisfies the predicate and is no longer shown; it is counted and ends
      the first batch, and LIMIT 1 answers nothing where the last candidate is a result.
      Apart from the counts, all that FastPathIsExact needs holds. */
  lemma OldTitleLosesRow(l: L.Language, p: S.Properties, path: Path, e: Evaluation, rows: int -> Option<Record>, fetch: Fetch)
    requires L.Sane(l) && S.ReadsOnly(l, p) && Literals(l) && path == TitlePath(l, p)
    requires e == path.Where(e.resolves) && forall batch {:trigger e.resolves(batch)} :: e.resolves(batch)
    requires forall id {:trigger rows(id)} :: rows(id) == RowAlone(OldTitle(), FromYouTube(), id)
    requires CachesFirst(OldTitle(), PerId(FromYouTube()), fetch)
    ensures Planned(path) && Fits(path, rows) && CarriesIds(OldTitle())
    ensures path.Screening() == Screened(FirstIds(26), FirstIds(26), 0) && Unaffected(e, rows, FirstIds(26))
    ensures StopsAt(e, fetch, FirstIds(26), 1, 1)
    ensures Slice(AllResults(e, Acquired(fetch, FirstIds(26), 1)), 0, 1) == []
    ensures Slice(AllResults(e, fetch(FirstIds(26))), 0, 1) == [e.Final(VideoOf(25), 26)]
  {
    OldTitleCarries();
    TitleIsPlanned(l, p, path);
    TitleIsScreened(l, p, path);
    SeekingFields(p);
    UpToDateIsSafe(path, e, rows, FirstIds(26));
    TitleTruth(l, p, path, e, 0, 1);
    OldTitleStops(e, fetch);
    TitleResults(l, p, path, e);
  }

  // ---- Entries that show one id in two ways ----------------------------------------------------------

  /** Ids and titles are texts or null, and no entry has a source_index. */
  predicate Flat(entries: Entries) {
    forall i | 0 <= i < |entries| ::
      && L.SourceIndex !in entries[i].1.shown
      && (forall f | f in entries[i].1.shown && L.ShownField(f) :: entries[i].1.shown[f].Null? || entries[i].1.shown[f].Text?)
  }

  /** What entry i shows as id and title is what the last entry of its id shows. */
  predicate ShownLater(entries: Entries, i: nat)
    requires i < |entries|
  {
    var last := LastEntry(entries, entries[i].0, |entries|);
    forall f | f in entries[i].1.shown && L.ShownField(f) ::
      last.Some? && f in last.value.shown && last.value.shown[f] == entries[i].1.shown[f]
  }

  /** Screening goes by the first entry of an id and the overlay by the last. */
  ghost predicate Agreeing(entries: Entries) {
    forall i | 0 <= i < |entries| && First(entries, i) :: ShownLater(entries, i)
  }

  /** A query on the enumeration, and the rows of its ids. */
  datatype Case = Case(path: Path, rows: int -> Option<Record>)

  ghost predicate Over(c: Case, entries: Entries) {
    && c.path.entries == entries && Planned(c.path) && Carry(c.rows)
    && forall i | 0 <= i < |entries| && First(entries, i) :: Dated(c.path, c.rows, i)
  }

  predicate Lost(c: Case, j: nat, i: int)
    requires j < |c.path.entries| && c.rows(c.path.entries[j].0).Some?
  {
    && First(c.path.entries, j) && c.path.Discards(c.path.entries[j].1)
    && c.path.Where(_ => true).Keeps(c.rows(c.path.entries[j].0).value, i)
  }

  /** No discarded id has a row that would be a result, at any number. */
  ghost predicate NoneLost(c: Case) {
    forall j: nat, i: int | j < |c.path.entries| && c.rows(c.path.entries[j].0).Some? :: !Lost(c, j, i)
  }

  /** On an enumeration, discarding loses no result of any query and any rows exactly when
      the first entry of each id shows nothing that the last one does not show alike. */
  lemma RepeatsAreSafeExactly(entries: Entries)
    requires Flat(entries)
    ensures (forall c: Case {:trigger Over(c, entries)} :: Over(c, entries) ==> NoneLost(c)) <==> Agreeing(entries)
  {
    if Agreeing(entries) {
      forall c: Case | Over(c, entries) ensures NoneLost(c) {
        AgreeingLosesNone(c, entries);
      }
    } else {
      var j: nat :| j < |entries| && First(entries, j) && !ShownLater(entries, j);
      var c := LosingCase(entries, j);
    }
  }

  lemma AgreeingLosesNone(c: Case, entries: Entries)
    requires Flat(entries) && Agreeing(entries) && Over(c, entries)
    ensures NoneLost(c)
  {
    var e := c.path.Where(_ => true);
    forall j: nat, i: int | j < |entries| && c.rows(entries[j].0).Some? ensures !Lost(c, j, i) {
      if First(entries, j) && c.path.Discards(entries[j].1) {
        assert ShownLater(entries, j) && Dated(c.path, c.rows, j);
        assert Repeats(c.path, j);
        DiscardedIsNoResult(c.path, e, c.rows(entries[j].0).value, j, i);
      }
    }
  }

  /** Texts are numbers; the text of a date is even. */
  function Plainly(): L.Language {
    L.Language((v: L.Value) => if v.Text? then v.t else if v.Date? then 2 * v.day else 1,
               t => if t % 2 == 0 then Some(t / 2) else None, _ => None, _ => None, (_, v) => Some(v),
               (_, needle, text) => needle == text, (_, _) => None)
  }

  lemma PlainlyIsSane()
    ensures L.Sane(Plainly())
  {
  }

  /** A predicate that is false of a value and true of another. */
  function Telling(f: L.Field, a: L.Value, v: L.Value): L.Node {
    if a.Null? then L.IsNull(f, true) else if v.Null? then L.IsNull(f, false) else L.TextTest(L.Contains, f, v, false)
  }

  function TellingCase(entries: Entries, f: L.Field, a: L.Value, v: L.Value): Case {
    var n := Telling(f, a, v);
    Case(Path(Plainly(), S.Properties(_ => {}, _ => true), n, n, entries, {f}, _ => map[f := v]),
         id => Some(Record(Some(id), map[])))
  }

  lemma TellingTells(f: L.Field, a: L.Value, v: L.Value, e: L.Entry, row: Row)
    requires f == L.Id || f == L.Title
    requires a != v && (a.Null? || a.Text?) && (v.Null? || v.Text?) && f in e.shown && e.shown[f] == a && L.ValueOf(row, f) == v
    ensures L.Rejected(Plainly(), Telling(f, a, v), e) && L.Eval(Plainly(), Telling(f, a, v), row) == Some(true)
  {
  }

  lemma TellingIsPlanned(entries: Entries, f: L.Field, a: L.Value, v: L.Value, c: Case)
    requires (f == L.Id || f == L.Title) && (a.Null? || a.Text?) && (v.Null? || v.Text?)
    requires c == TellingCase(entries, f, a, v)
    ensures Over(c, entries)
  {
    PlainlyIsSane();
    assert S.ReadsOnly(Plainly(), c.path.p);
    assert L.Resolve(Plainly(), c.path.n) == Some(c.path.n);
    assert S.FieldsOf(c.path.p, c.path.n) == {f};
  }

  lemma TellingIsLost(entries: Entries, j: nat, f: L.Field, a: L.Value, v: L.Value, c: Case)
    requires (f == L.Id || f == L.Title) && a != v && (a.Null? || a.Text?) && (v.Null? || v.Text?)
    requires j < |entries| && First(entries, j) && f in entries[j].1.shown && entries[j].1.shown[f] == a
    requires var last := LastEntry(entries, entries[j].0, |entries|);
             last.Some? && (f in last.value.shown ==> last.value.shown[f] == v)
    requires c == TellingCase(entries, f, a, v)
    ensures Lost(c, j, 1)
  {
    var where, raw := c.path.Where(_ => true), c.rows(entries[j].0).value;
    FinalValue(c.path, where, raw, 1, entries[j].0, f);
    TellingTells(f, a, v, entries[j].1, where.Final(raw, 1));
  }

  /** Another value for a field than the entry shows: the last entry's, or else the row's. */
  function OtherValue(f: L.Field, a: L.Value, last: L.Entry): L.Value {
    if f in last.shown then last.shown[f] else if a.Null? then L.Text(0) else L.Null
  }

  lemma LosingCase(entries: Entries, j: nat) returns (c: Case)
    requires Flat(entries) && j < |entries| && First(entries, j) && !ShownLater(entries, j)
    ensures Over(c, entries) && !NoneLost(c)
  {
    LastEntryOf(entries, |entries|, j);
    var last := LastEntry(entries, entries[j].0, |entries|).value;
    LastEntryIs(entries, |entries|, entries[j].0);
    var f :| f in entries[j].1.shown && L.ShownField(f)
          && (f !in last.shown || last.shown[f] != entries[j].1.shown[f]);
    var a := entries[j].1.shown[f];
    var v := OtherValue(f, a, last);
    c := TellingCase(entries, f, a, v);
    TellingIsPlanned(entries, f, a, v, c);
    TellingIsLost(entries, j, f, a, v, c);
  }

  lemma {:induction false} LastEntryIs(entries: Entries, k: nat, id: int)
    requires k <= |entries| && LastEntry(entries, id, k).Some?
    ensures exists i :: 0 <= i < k && entries[i].1 == LastEntry(entries, id, k).value
  {
    if entries[k - 1].0 != id {
      LastEntryIs(entries, k - 1, id);
    }
  }
}
