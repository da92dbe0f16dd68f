/** A download queue file: its targets, the removal of completed ones before and during
    a run, and the report that accounts for every requested target. */
module DownloadQueue {
  import opened Options
  import opened Lists

  datatype Mode = Ids | Rows   // --remove-completed-ids, --remove-completed-rows

  predicate Space(c: char) { c == ' ' || c == '\t' || c == '\r' || c == '\n' }

  /** line.strip(). */
  function Strip(s: string): string
    decreases |s|
  {
    if s == "" then ""
    else if Space(s[0]) then Strip(s[1..])
    else if Space(s[|s| - 1]) then Strip(s[..|s| - 1])
    else s
  }

  /** The text up to the first space. */
  function FirstField(s: string): string {
    if s == "" || Space(s[0]) then "" else [s[0]] + FirstField(s[1..])
  }

  /** What stands between the space around a line: it neither begins nor ends with space,
      and nothing but space was removed. */
  lemma {:induction false} StripIs(s: string) returns (i: int, j: int)
    ensures 0 <= i <= j <= |s| && Strip(s) == s[i..j]
    ensures (forall k | 0 <= k < i || j <= k < |s| :: Space(s[k]))
    ensures i < j ==> !Space(s[i]) && !Space(s[j - 1])
    decreases |s|
  {
    if s == "" {
      i, j := 0, 0;
    } else if Space(s[0]) {
      i, j := StripIs(s[1..]);
      assert s[1..][i..j] == s[i + 1..j + 1];
      forall k | 0 <= k < i + 1 || j + 1 <= k < |s| ensures Space(s[k]) {
        assert k > 0 ==> s[k] == s[1..][k - 1];
      }
      i, j := i + 1, j + 1;
    } else if Space(s[|s| - 1]) {
      i, j := StripIs(s[..|s| - 1]);
      assert s[..|s| - 1][i..j] == s[i..j];
      forall k | 0 <= k < i || j <= k < |s| ensures Space(s[k]) {
        assert k < |s| - 1 ==> s[k] == s[..|s| - 1][k];
      }
    } else {
      i, j := 0, |s|;
    }
  }

  /** The longest beginning without space. */
  lemma {:induction false} FirstFieldIs(s: string)
    ensures FirstField(s) <= s && forall k | 0 <= k < |FirstField(s)| :: !Space(s[k])
    ensures |FirstField(s)| == |s| || Space(s[|FirstField(s)|])
  {
    if s != "" && !Space(s[0]) {
      FirstFieldIs(s[1..]);
      assert s == [s[0]] + s[1..];
    }
  }

  /** Comments are lines that begin with #, in row mode also with ; or ]. */
  predicate Comment(mode: Mode, text: string)
    requires text != ""
  {
    text[0] in (if mode == Ids then "#" else "#;]")
  }

  /** A line names a target unless it is blank or a comment: its text, or in row mode the
      first field of it. */
  lemma TargetIs(mode: Mode, line: string, t: string)
    ensures TargetOf(mode, line) == Some(t) <==>
              && Strip(line) != "" && !Comment(mode, Strip(line))
              && (if mode == Ids then t == Strip(line)
                  else t <= Strip(line) && (forall k | 0 <= k < |t| :: !Space(t[k])) && (t == Strip(line) || Space(Strip(line)[|t|])))
  {
    var text, field := Strip(line), FirstField(Strip(line));
    FirstFieldIs(text);
    if t <= text && |t| < |field| {
      assert text[|t|] == field[|t|];
    } else if t <= text && |t| > |field| {
      assert t[|field|] == text[|field|];
    } else if t <= text {
      assert t == text[..|field|] == field;
    }
  }

  /** The target a line names; blank lines and comments name none. */
  function TargetOf(mode: Mode, line: string): Option<string> {
    var text := Strip(line);
    if text == "" || text[0] == '#' then None
    else if mode == Ids then Some(text)
    else if text[0] == ';' || text[0] == ']' then None
    else Some(FirstField(text))
  }

  /** Whether removing id drops the line. */
  predicate Matches(mode: Mode, line: string, id: string) {
    if mode == Ids then Strip(line) == id else TargetOf(Rows, line) == Some(id)
  }

  /** An id no blank line or comment can be taken for. */
  predicate Proper(id: string) { id != "" && id[0] != '#' }

  lemma TargetsAreProper(mode: Mode, line: string)
    ensures TargetOf(mode, line).Some? ==> Proper(TargetOf(mode, line).value)
  {
    var text := Strip(line);
    if mode == Rows && text != "" {
      NotSpaceFirst(line);
    }
  }

  lemma {:induction false} NotSpaceFirst(s: string)
    ensures Strip(s) != "" ==> !Space(Strip(s)[0])
    decreases |s|
  {
    if s == "" {
    } else if Space(s[0]) {
      NotSpaceFirst(s[1..]);
    } else if Space(s[|s| - 1]) {
      NotSpaceFirst(s[..|s| - 1]);
    }
  }

  /** Removal drops exactly the lines whose target is the id. */
  lemma RemovalIsByTarget(mode: Mode, line: string, id: string)
    requires Proper(id)
    ensures Matches(mode, line, id) <==> TargetOf(mode, line) == Some(id)
  {
  }

  /** In id mode the comment marker protects a line only from ids without it. */
  lemma CommentCanMatch()
    ensures TargetOf(Ids, "#x") == None && Matches(Ids, "#x", "#x") && !Matches(Rows, "#x", "#x")
  {
    assert Strip("#x") == "#x";
  }

  // ---- Reading and removing ------------------------------------------------------------

  /** The targets of the first n lines, each once, in order of first appearance. */
  function Targets(mode: Mode, lines: seq<string>, n: nat): seq<string>
    requires n <= |lines|
  {
    if n == 0 then []
    else
      var before, t := Targets(mode, lines, n - 1), TargetOf(mode, lines[n - 1]);
      if t.None? || t.value in before then before else before + [t.value]
  }

  method QueueTargets(mode: Mode, lines: seq<string>) returns (targets: seq<string>)
    ensures targets == Targets(mode, lines, |lines|)
  {
    targets := [];
    var seen: set<string> := {};
    for n := 0 to |lines|
      invariant targets == Targets(mode, lines, n) && seen == set t | t in targets
    {
      var t := TargetOf(mode, lines[n]);
      if t.None? || t.value in seen { continue; }
      targets := targets + [t.value];
      seen := seen + {t.value};
    }
  }

  /** The lines left when every id of a set has been removed. */
  function Survivors(mode: Mode, lines: seq<string>, gone: set<string>): seq<string> {
    Kept(lines, line => forall id | id in gone :: !Matches(mode, line, id))
  }

  /** The queue file. */
  class Queue {
    const mode: Mode
    var lines: seq<string>

    constructor (mode: Mode, lines: seq<string>)
      ensures this.mode == mode && this.lines == lines
    {
      this.mode, this.lines := mode, lines;
    }

    /** remove_completed_id and remove_completed_row, also as the after_move callback. */
    method Remove(id: string) returns (removed: bool)
      modifies this
      ensures lines == Kept(old(lines), line => !Matches(mode, line, id))
      ensures removed <==> lines != old(lines)
    {
      var retained: seq<string> := [];
      removed := false;
      for n := 0 to |lines|
        invariant lines == old(lines)
        invariant retained == Kept(lines[..n], line => !Matches(mode, line, id))
        invariant if removed then |retained| < n else retained == lines[..n]
      {
        assert lines[..n + 1] == lines[..n] + [lines[n]];
        KeptSnoc(lines[..n], lines[n], line => !Matches(mode, line, id));
        if Matches(mode, lines[n], id) {
          removed := true;
        } else {
          retained := retained + [lines[n]];
        }
      }
      assert lines[..|lines|] == lines;
      if removed {
        lines := retained;
      }
    }

    /** remove_archived_ids and remove_archived_rows, and any sequence of callbacks. */
    method RemoveAll(ids: seq<string>) returns (removed: nat)
      modifies this
      ensures lines == Survivors(mode, old(lines), Members(ids, |ids|))
      ensures removed <= |ids|
    {
      removed := 0;
      NothingGone(mode, lines);
      assert Members(ids, 0) == {};
      for n := 0 to |ids|
        invariant lines == Survivors(mode, old(lines), Members(ids, n)) && removed <= n
      {
        OneMoreGone(mode, old(lines), Members(ids, n), ids[n]);
        assert Members(ids, n + 1) == Members(ids, n) + {ids[n]};
        var one := Remove(ids[n]);
        if one {
          removed := removed + 1;
        }
      }
    }
  }

  function Members(ids: seq<string>, n: nat): set<string>
    requires n <= |ids|
  {
    set i | 0 <= i < n :: ids[i]
  }

  lemma {:induction false} NothingGone(mode: Mode, lines: seq<string>)
    ensures Survivors(mode, lines, {}) == lines
  {
    if lines != [] {
      NothingGone(mode, lines[..|lines| - 1]);
    }
  }

  lemma OneMoreGone(mode: Mode, lines: seq<string>, gone: set<string>, id: string)
    ensures Kept(Survivors(mode, lines, gone), line => !Matches(mode, line, id)) == Survivors(mode, lines, gone + {id})
  {
    KeptTwice(lines, line => forall g | g in gone :: !Matches(mode, line, g), line => !Matches(mode, line, id),
              line => forall g | g in gone + {id} :: !Matches(mode, line, g));
  }

  // ---- The report ---------------------------------------------------------------------------

  datatype Report = Report(requested: seq<string>, alreadyArchived: seq<string>, completed: seq<string>, unresolved: seq<string>)

  /** queue_run_report. */
  function RunReport(requested: seq<string>, archivedBefore: set<string>, remaining: seq<string>): Report {
    Report(requested,
           Kept(requested, t => t in archivedBefore),
           Kept(requested, t => t !in archivedBefore && t !in remaining),
           Kept(requested, t => t in remaining))
  }

  /** One run: the targets requested, the archive as read for the report, the archive as
      read for removal, the completed callbacks in order, and the targets left. */
  method RunQueue(mode: Mode, lines: seq<string>, archivedBefore: set<string>, archived: seq<string>, callbacks: seq<string>)
    returns (left: seq<string>, report: Report)
    ensures left == Survivors(mode, lines, Gone(archived, callbacks))
    ensures report == RunReport(Targets(mode, lines, |lines|), archivedBefore, Targets(mode, left, |left|))
  {
    var queue := new Queue(mode, lines);
    var requested := QueueTargets(mode, queue.lines);
    var atStart := queue.RemoveAll(archived);
    var during := queue.RemoveAll(callbacks);
    SurvivorsTwice(mode, lines, Members(archived, |archived|), Members(callbacks, |callbacks|));
    left := queue.lines;
    var remaining := QueueTargets(mode, left);
    report := RunReport(requested, archivedBefore, remaining);
  }

  function Gone(archived: seq<string>, callbacks: seq<string>): set<string> {
    Members(archived, |archived|) + Members(callbacks, |callbacks|)
  }

  lemma SurvivorsTwice(mode: Mode, lines: seq<string>, a: set<string>, b: set<string>)
    ensures Survivors(mode, Survivors(mode, lines, a), b) == Survivors(mode, lines, a + b)
  {
    KeptTwice(lines, line => forall id | id in a :: !Matches(mode, line, id), line => forall id | id in b :: !Matches(mode, line, id),
              line => forall id | id in a + b :: !Matches(mode, line, id));
  }

  lemma {:induction false} TargetIsNamed(mode: Mode, lines: seq<string>, n: nat, t: string)
    requires n <= |lines|
    ensures t in Targets(mode, lines, n) <==> exists i :: 0 <= i < n && TargetOf(mode, lines[i]) == Some(t)
  {
    if n > 0 {
      TargetIsNamed(mode, lines, n - 1, t);
    }
  }

  /** Further lines only add targets at the end: the order is that of first appearance. */
  lemma {:induction false} TargetsGrow(mode: Mode, lines: seq<string>, m: nat, n: nat)
    requires m <= n <= |lines|
    ensures Targets(mode, lines, m) <= Targets(mode, lines, n)
  {
    if m < n {
      TargetsGrow(mode, lines, m, n - 1);
    }
  }

  lemma {:induction false} TargetsAreDistinct(mode: Mode, lines: seq<string>, n: nat)
    requires n <= |lines|
    ensures NoDuplicates(Targets(mode, lines, n))
  {
    if n > 0 {
      TargetsAreDistinct(mode, lines, n - 1);
    }
  }

  /** A requested target is left exactly when nobody removed it. */
  lemma LeftUnlessRemoved(mode: Mode, lines: seq<string>, gone: set<string>, t: string)
    requires t in Targets(mode, lines, |lines|)
    ensures var left := Survivors(mode, lines, gone); t in Targets(mode, left, |left|) <==> t !in gone
  {
    var left := Survivors(mode, lines, gone);
    TargetIsNamed(mode, lines, |lines|, t);
    TargetIsNamed(mode, left, |left|, t);
    var i :| 0 <= i < |lines| && TargetOf(mode, lines[i]) == Some(t);
    TargetsAreProper(mode, lines[i]);
    if t in gone {
      forall j | 0 <= j < |left| ensures TargetOf(mode, left[j]) != Some(t) {
        KeptMember(lines, line => forall id | id in gone :: !Matches(mode, line, id), left[j]);
        assert left[j] in left;
        RemovalIsByTarget(mode, left[j], t);
      }
    } else {
      forall id | id in gone ensures !Matches(mode, lines[i], id) {
        if mode == Ids {
          assert Strip(lines[i]) == t;
        }
      }
      KeptMember(lines, line => forall id | id in gone :: !Matches(mode, line, id), lines[i]);
      var j :| 0 <= j < |left| && left[j] == lines[i];
    }
  }

  /** The report when exactly the ids in gone were removed: every requested target is in
      it, and completed overlaps neither other list. */
  lemma ReportOf(mode: Mode, lines: seq<string>, archivedBefore: set<string>, gone: set<string>, t: string)
    requires t in Targets(mode, lines, |lines|)
    ensures var left := Survivors(mode, lines, gone);
            var r := RunReport(Targets(mode, lines, |lines|), archivedBefore, Targets(mode, left, |left|));
            && (t in r.alreadyArchived <==> t in archivedBefore)
            && (t in r.unresolved <==> t !in gone)
            && (t in r.completed <==> t !in archivedBefore && t in gone)
  {
    var left := Survivors(mode, lines, gone);
    var requested, remaining := Targets(mode, lines, |lines|), Targets(mode, left, |left|);
    LeftUnlessRemoved(mode, lines, gone, t);
    KeptMember(requested, t => t in archivedBefore, t);
    KeptMember(requested, t => t !in archivedBefore && t !in remaining, t);
    KeptMember(requested, t => t in remaining, t);
  }

  /** Every requested target is in the report; completed overlaps neither other list, and
      means a callback, or an archive entry that appeared between the two readings. */
  lemma ReportAccounts(mode: Mode, lines: seq<string>, archivedBefore: set<string>, archived: seq<string>,
                       callbacks: seq<string>, t: string)
    requires t in Targets(mode, lines, |lines|)
    ensures var left := Survivors(mode, lines, Gone(archived, callbacks));
            var r := RunReport(Targets(mode, lines, |lines|), archivedBefore, Targets(mode, left, |left|));
            && (t in r.alreadyArchived <==> t in archivedBefore)
            && (t in r.unresolved <==> t !in archived && t !in callbacks)
            && (t in r.completed <==> t !in archivedBefore && (t in callbacks || t in archived))
            && (t in r.alreadyArchived || t in r.completed || t in r.unresolved)
            && !(t in r.completed && (t in r.alreadyArchived || t in r.unresolved))
  {
    ReportOf(mode, lines, archivedBefore, Gone(archived, callbacks), t);
    assert t in Gone(archived, callbacks) <==> t in archived || t in callbacks;
  }

  /** The three lists split the requested targets exactly when every target the report
      takes for archived was really removed. */
  lemma SplitsWhenRemoved(mode: Mode, lines: seq<string>, archivedBefore: set<string>, gone: set<string>)
    ensures var left := Survivors(mode, lines, gone);
            var requested := Targets(mode, lines, |lines|);
            var r := RunReport(requested, archivedBefore, Targets(mode, left, |left|));
            && |r.requested| <= |r.alreadyArchived| + |r.completed| + |r.unresolved|
            && (|r.requested| == |r.alreadyArchived| + |r.completed| + |r.unresolved|
                <==> forall i | 0 <= i < |requested| && requested[i] in archivedBefore :: requested[i] in gone)
  {
    var left := Survivors(mode, lines, gone);
    var requested, remaining := Targets(mode, lines, |lines|), Targets(mode, left, |left|);
    CountParts(requested, archivedBefore, remaining);
    forall i | 0 <= i < |requested| ensures requested[i] in remaining <==> requested[i] !in gone {
      ReportOf(mode, lines, archivedBefore, gone, requested[i]);
      KeptMember(requested, t => t in remaining, requested[i]);
    }
  }

  /** Undisturbed, that is: removed at the start or by a callback. */
  lemma SplitsExactly(mode: Mode, lines: seq<string>, archivedBefore: set<string>, archived: seq<string>, callbacks: seq<string>)
    ensures var left := Survivors(mode, lines, Gone(archived, callbacks));
            var requested := Targets(mode, lines, |lines|);
            var r := RunReport(requested, archivedBefore, Targets(mode, left, |left|));
            && |r.requested| <= |r.alreadyArchived| + |r.completed| + |r.unresolved|
            && (|r.requested| == |r.alreadyArchived| + |r.completed| + |r.unresolved|
                <==> forall i | 0 <= i < |requested| && requested[i] in archivedBefore ::
                       requested[i] in archived || requested[i] in callbacks)
  {
    SplitsWhenRemoved(mode, lines, archivedBefore, Gone(archived, callbacks));
    assert forall t :: t in Gone(archived, callbacks) <==> t in archived || t in callbacks;
  }

  lemma {:induction false} CountParts(requested: seq<string>, archivedBefore: set<string>, remaining: seq<string>)
    ensures var r := RunReport(requested, archivedBefore, remaining);
            && |requested| <= |r.alreadyArchived| + |r.completed| + |r.unresolved|
            && (|requested| == |r.alreadyArchived| + |r.completed| + |r.unresolved|
                <==> forall i | 0 <= i < |requested| && requested[i] in archivedBefore :: requested[i] !in remaining)
  {
    if requested != [] {
      CountParts(requested[..|requested| - 1], archivedBefore, remaining);
    }
  }

  /** With an archive that only grew between the two readings the split is exact, and so
      is the division of the lines: those of removed targets are gone, all others stay. */
  lemma GrowingArchiveSplits(mode: Mode, lines: seq<string>, archivedBefore: set<string>, archived: seq<string>, callbacks: seq<string>)
    requires forall t | t in archivedBefore :: t in archived
    ensures var left := Survivors(mode, lines, Gone(archived, callbacks));
            var r := RunReport(Targets(mode, lines, |lines|), archivedBefore, Targets(mode, left, |left|));
            |r.requested| == |r.alreadyArchived| + |r.completed| + |r.unresolved|
  {
    SplitsExactly(mode, lines, archivedBefore, archived, callbacks);
  }

  /** A line that names no target and is no removed id survives, in place. */
  lemma OtherLinesSurvive(mode: Mode, lines: seq<string>, gone: set<string>, line: string)
    requires line in lines && forall id | id in gone :: Proper(id)
    ensures line in Survivors(mode, lines, gone) <==> TargetOf(mode, line).None? || TargetOf(mode, line).value !in gone
  {
    KeptMember(lines, line => forall id | id in gone :: !Matches(mode, line, id), line);
    forall id | id in gone ensures Matches(mode, line, id) <==> TargetOf(mode, line) == Some(id) {
      RemovalIsByTarget(mode, line, id);
    }
  }

  // ---- Removals that race ---------------------------------------------------------------------

  /** Steps of removing processes: each reads the whole file, filters it, and replaces the
      file if anything was dropped, without a lock; it may also fail in between. */
  datatype Step = Begin(p: int, id: string) | Finish(p: int) | Abandon(p: int)

  /** What a process removes from the version it read.  applied is history only: the ids
      whose removals made that version. */
  datatype Reading = Reading(id: string, read: seq<string>, applied: set<string>)

  datatype Race = Race(file: seq<string>, applied: set<string>, readings: map<int, Reading>)

  function Next(mode: Mode, r: Race, s: Step): Race {
    match s
    case Begin(p, id) => r.(readings := r.readings[p := Reading(id, r.file, r.applied)])
    case Finish(p) =>
      if p !in r.readings then r
      else
        var mine := r.readings[p];
        var retained := Kept(mine.read, line => !Matches(mode, line, mine.id));
        if retained == mine.read then r.(readings := r.readings - {p})
        else Race(retained, mine.applied + {mine.id}, r.readings - {p})
    case Abandon(p) => r.(readings := r.readings - {p})
  }

  function After(mode: Mode, lines: seq<string>, steps: seq<Step>, n: nat): Race
    requires n <= |steps|
  {
    if n == 0 then Race(lines, {}, map[]) else Next(mode, After(mode, lines, steps, n - 1), steps[n - 1])
  }

  /** The ids whose removal has begun. */
  function Begun(steps: seq<Step>, n: nat): set<string>
    requires n <= |steps|
  {
    set i | 0 <= i < n && steps[i].Begin? :: steps[i].id
  }

  /** The file, and every version being filtered, is the original lines without exactly
      the ids whose removals made it, all of them begun. */
  ghost predicate OnlyRemoved(mode: Mode, lines: seq<string>, ids: set<string>, r: Race) {
    && r.file == Survivors(mode, lines, r.applied) && r.applied <= ids
    && forall p {:trigger r.readings[p]} | p in r.readings ::
         && r.readings[p].read == Survivors(mode, lines, r.readings[p].applied)
         && r.readings[p].applied + {r.readings[p].id} <= ids
  }

  /** Whatever the interleaving, the file is the original lines without exactly the ids of
      the removals that made its last version. */
  lemma {:induction false} RacesOnlyRemove(mode: Mode, lines: seq<string>, steps: seq<Step>, n: nat)
    requires n <= |steps|
    ensures OnlyRemoved(mode, lines, Begun(steps, n), After(mode, lines, steps, n))
  {
    if n == 0 {
      NothingGone(mode, lines);
    } else {
      RacesOnlyRemove(mode, lines, steps, n - 1);
      var before, s := After(mode, lines, steps, n - 1), steps[n - 1];
      assert s.Begin? ==> s.id in Begun(steps, n);
      if s.Finish? && s.p in before.readings {
        OneMoreGone(mode, lines, before.readings[s.p].applied, before.readings[s.p].id);
      }
    }
  }

  lemma MatchesOne(mode: Mode, line: string, a: string, b: string)
    requires Matches(mode, line, a) && Matches(mode, line, b)
    ensures a == b
  {
  }

  /** A removal of an id that had lines is lost, and they are all back, exactly when it is
      none of those that made the last version. */
  lemma LostExactly(mode: Mode, lines: seq<string>, steps: seq<Step>, n: nat, id: string, line: string)
    requires n <= |steps| && line in lines && Matches(mode, line, id)
    ensures var r := After(mode, lines, steps, n);
            line in r.file <==> id !in r.applied
  {
    RacesOnlyRemove(mode, lines, steps, n);
    var gone := After(mode, lines, steps, n).applied;
    KeptMember(lines, line => forall g | g in gone :: !Matches(mode, line, g), line);
    if g :| g in gone && Matches(mode, line, g) {
      MatchesOne(mode, line, g, id);
    }
  }

  /** Process p read the file at step b, and has not begun again before step k. */
  ghost predicate ReadAt(steps: seq<Step>, b: int, k: int, p: int) {
    && 0 <= b < k <= |steps| && steps[b].Begin? && steps[b].p == p
    && forall j | b < j < k :: steps[j].p != p
  }

  /** Where the reading of a process comes from. */
  lemma {:induction false} ReadingIs(mode: Mode, lines: seq<string>, steps: seq<Step>, k: nat, p: int) returns (b: int)
    requires k <= |steps| && p in After(mode, lines, steps, k).readings
    ensures ReadAt(steps, b, k, p)
    ensures After(mode, lines, steps, k).readings[p] ==
            Reading(steps[b].id, After(mode, lines, steps, b).file, After(mode, lines, steps, b).applied)
  {
    if steps[k - 1].p == p {
      b := k - 1;
    } else {
      b := ReadingIs(mode, lines, steps, k - 1, p);
    }
  }

  /** Step k of process p replaces the file by a version made from the one it read at b. */
  ghost predicate ReplacesAt(mode: Mode, lines: seq<string>, steps: seq<Step>, b: int, k: int) {
    && 0 <= k < |steps| && steps[k].Finish? && ReadAt(steps, b, k, steps[k].p)
    && After(mode, lines, steps, k + 1).applied == After(mode, lines, steps, b).applied + {steps[b].id}
  }

  /** A removal that was in the file and no longer is was undone by a process that had read
      the file before it and replaced it after. */
  lemma {:induction false} UndoneByStaleReader(mode: Mode, lines: seq<string>, steps: seq<Step>, m: nat, n: nat, id: string)
    requires m <= n <= |steps| && id in After(mode, lines, steps, m).applied && id !in After(mode, lines, steps, n).applied
    ensures exists b, k: int :: m <= k < n && ReplacesAt(mode, lines, steps, b, k)
                                && id !in After(mode, lines, steps, b).applied && id in After(mode, lines, steps, k).applied
  {
    if id !in After(mode, lines, steps, n - 1).applied {
      UndoneByStaleReader(mode, lines, steps, m, n - 1, id);
    } else {
      var before := After(mode, lines, steps, n - 1);
      var b := ReadingIs(mode, lines, steps, n - 1, steps[n - 1].p);
      assert ReplacesAt(mode, lines, steps, b, n - 1);
    }
  }

  /** Two processes read, then both replace: the second brings the first one's line back. */
  lemma RemovalIsLost()
    ensures var steps := [Begin(1, "a"), Begin(2, "b"), Finish(1), Finish(2)];
            && After(Ids, ["a", "b"], steps, 3).file == ["b"]
            && After(Ids, ["a", "b"], steps, 4).file == ["a"]
            && After(Ids, ["a", "b"], steps, 4).readings == map[]
  {
    var lines, steps := ["a", "b"], [Begin(1, "a"), Begin(2, "b"), Finish(1), Finish(2)];
    assert Strip("a") == "a" && Strip("b") == "b" && "a"[0] != "b"[0];
    KeptOne("a", "b", "a");
    KeptOne("a", "b", "b");
    var one := After(Ids, lines, steps, 1);
    assert one == Race(lines, {}, map[1 := Reading("a", lines, {})]);
    var two := After(Ids, lines, steps, 2);
    assert two == Race(lines, {}, map[1 := Reading("a", lines, {}), 2 := Reading("b", lines, {})]);
    var three := After(Ids, lines, steps, 3);
    assert three == Race(["b"], {"a"}, map[2 := Reading("b", lines, {})]);
  }

  lemma KeptOne(x: string, y: string, id: string)
    requires Strip(x) == x && Strip(y) == y && x != y
    ensures Kept([x, y], line => !Matches(Ids, line, id)) == (if x == id then [] else [x]) + (if y == id then [] else [y])
  {
    var keep := line => !Matches(Ids, line, id);
    assert [x, y][..1] == [x] && [x][..0] == [];
    assert Kept([x], keep) == Kept([], keep) + if keep(x) then [x] else [];
    assert Kept([x, y], keep) == Kept([x], keep) + if keep(y) then [y] else [];
  }

  /** The report over a file that racing removals left: every requested target is in it,
      completed overlaps neither other list, and every completed target had a callback, or
      was removed as archived. */
  lemma RacedReportAccounts(mode: Mode, lines: seq<string>, archivedBefore: set<string>, archived: seq<string>,
                            callbacks: seq<string>, steps: seq<Step>, t: string)
    requires t in Targets(mode, lines, |lines|) && Begun(steps, |steps|) <= Gone(archived, callbacks)
    ensures var end := After(mode, lines, steps, |steps|);
            var r := RunReport(Targets(mode, lines, |lines|), archivedBefore, Targets(mode, end.file, |end.file|));
            && (t in r.unresolved <==> t !in end.applied)
            && (t in r.completed ==> t in callbacks || t in archived)
            && (t in r.alreadyArchived || t in r.completed || t in r.unresolved)
            && !(t in r.completed && (t in r.alreadyArchived || t in r.unresolved))
  {
    RacesOnlyRemove(mode, lines, steps, |steps|);
    var gone := After(mode, lines, steps, |steps|).applied;
    ReportOf(mode, lines, archivedBefore, gone, t);
    assert t in gone ==> t in Gone(archived, callbacks);
  }
}
