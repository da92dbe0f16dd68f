/** Managed cache startup: read-only discovery, then creation or migration of the
    current file under the startup lock, by any number of processes that may
    raise at any point or be killed. */
module CacheStartup {
  import opened Options
  import opened CacheTables
  import opened Certifier
  import opened CacheMigration
  import SourceMigration

  const CURRENT_VERSION := 4
  const LEGACY_VERSION := 3

  /** The transition startup runs: the v3 contract, what the phases build from a
      store, or None where one raises, and what target validation certifies. */
  datatype Transition = Transition(contract: V3 -> bool, build: V3 -> Option<V4>, certify: (V3, V4) -> bool)

  /** The transition from v3 to v4, certified in normal mode on a sample. */
  ghost function FromV3ToV4(platform: Platform, p: Provider, unknown: Text, sample: V3 -> set<Text>): Transition {
    Transition(v3 => ContractValid(platform, v3), v3 => Populated(platform, p, v3, unknown),
               (v3, db) => Certified(p, v3, db, sample(v3), unknown))
  }

  datatype Marker = Unmarked | Incomplete | Final

  /** Who made the file: history only, nothing reads it. */
  datatype Origin = Found | Created | Initialised | Migrated

  /** The file metadata-v4.sqlite3.  No version stands for a missing cache_meta
      table, a missing schema_version, or one that is not a number. */
  datatype CurrentFile = CurrentFile(
    intact: bool, version: Option<int>, marker: Marker, tables: bool, db: V4, origin: Origin)

  /** The file of the v3 cache; recognised: its tables and columns are v3's. */
  datatype LegacyFile = LegacyFile(intact: bool, version: Option<int>, recognised: bool, db: V3)

  datatype Disk = Disk(current: Option<CurrentFile>, legacy: Option<LegacyFile>)

  const NO_DATA := V4(Media(map[], 1), SourceTable(map[], 1), map[], Details(map[], map[], map[]))

  // ---- Discovery ------------------------------------------------------------------

  datatype Kind = Current | Historical
  datatype State = Valid | Corrupt | VersionMismatch | Unfinished
  datatype Candidate = Candidate(kind: Kind, state: State)
  datatype Resolution = FreshRequired | Blocked(newest: Candidate) | Active | MigrationRequired

  function ReadCurrent(f: CurrentFile): State {
    if !f.intact || f.version.None? then Corrupt
    else if f.version.value != CURRENT_VERSION then VersionMismatch
    else if f.marker != Final then Unfinished
    else if !f.tables then Corrupt
    else Valid
  }

  function ReadLegacy(contract: V3 -> bool, f: LegacyFile): State {
    if !f.intact || f.version.None? then Corrupt
    else if f.version.value != LEGACY_VERSION then VersionMismatch
    else if !f.recognised || !contract(f.db) then Corrupt
    else Valid
  }

  /** discover_caches: newest first. */
  function Candidates(contract: V3 -> bool, d: Disk): seq<Candidate> {
    (if d.current.Some? then [Candidate(Current, ReadCurrent(d.current.value))] else [])
    + (if d.legacy.Some? then [Candidate(Historical, ReadLegacy(contract, d.legacy.value))] else [])
  }

  function ResolveDiscovery(q: seq<Candidate>): Resolution {
    if q == [] then FreshRequired
    else if q[0].state != Valid then Blocked(q[0])
    else if q[0].kind == Current then Active
    else MigrationRequired
  }

  function Resolve(contract: V3 -> bool, d: Disk): Resolution {
    ResolveDiscovery(Candidates(contract, d))
  }

  predicate CurrentValid(d: Disk) { d.current.Some? && ReadCurrent(d.current.value) == Valid }

  predicate LegacyValid(contract: V3 -> bool, d: Disk) {
    d.legacy.Some? && ReadLegacy(contract, d.legacy.value) == Valid
  }

  /** What makes a file valid, and what discovery reports of one that is not: a file of
      another version before an unfinished one, and neither of a file that cannot be read. */
  lemma StatesAre(contract: V3 -> bool, f: CurrentFile, g: LegacyFile)
    ensures ReadCurrent(f) == Valid <==> f.intact && f.version == Some(4) && f.marker == Final && f.tables
    ensures ReadCurrent(f) == Unfinished <==> f.intact && f.version == Some(4) && f.marker != Final
    ensures ReadCurrent(f) == VersionMismatch <==> f.intact && f.version.Some? && f.version != Some(4)
    ensures ReadLegacy(contract, g) == Valid <==> g.intact && g.version == Some(3) && g.recognised && contract(g.db)
    ensures ReadLegacy(contract, g) == VersionMismatch <==> g.intact && g.version.Some? && g.version != Some(3)
    ensures ReadLegacy(contract, g) != Unfinished
  {
  }

  /** The newest file alone decides: a damaged or unfinished current file blocks
      startup and never falls back to the older one. */
  lemma NewestDecides(contract: V3 -> bool, d: Disk)
    ensures Resolve(contract, d) == Active <==> CurrentValid(d)
    ensures Resolve(contract, d) == MigrationRequired <==> d.current.None? && LegacyValid(contract, d)
    ensures Resolve(contract, d) == FreshRequired <==> d.current.None? && d.legacy.None?
    ensures d.current.Some? ==> Resolve(contract, d) == Resolve(contract, d.(legacy := None))
  {
    var q := Candidates(contract, d);
    if d.current.Some? {
      assert q[0] == Candidate(Current, ReadCurrent(d.current.value));
    } else if d.legacy.Some? {
      assert q[0] == Candidate(Historical, ReadLegacy(contract, d.legacy.value));
    }
  }

  // ---- One process ----------------------------------------------------------------

  /** Where a process stands.  Marked is the moment after the fresh destination of a
      migration was written with its completion markers and before they are reset. */
  datatype Pc =
    | Waiting | Resolving | Adopting
    | CreateStart | CreateBuilding | CreateDone
    | MigrateStart | MigrateBuilding | Marked | Populating | PhasesDone | Validated | Finalised | Verified
    | Running | Stopped

  datatype Process = Process(pc: Pc, keepOld: bool, keepFailed: bool)

  predicate Holding(pc: Pc) { pc != Waiting && pc != Running && pc != Stopped }

  /** A process between deciding to make the current file and handing it over. */
  predicate Making(pc: Pc) { Holding(pc) && pc != Resolving && pc != Adopting }

  datatype Event =
    | Discover(authorised: bool)   // discovery and the startup decision
    | Proceed                      // the next file action succeeds
    | Commit(db: V4)               // a transaction on the content commits
    | Raise                        // any exception
    | Kill                         // the process dies without cleanup

  /** The file initialise_v4_cache leaves. */
  function CompleteFile(origin: Origin): CurrentFile {
    CurrentFile(true, Some(CURRENT_VERSION), Final, true, NO_DATA, origin)
  }

  const BLANK_FILE := CurrentFile(true, None, Unmarked, false, NO_DATA, Created)

  /** The disk after the exception handlers of a process at pc. */
  function Cleanup(d: Disk, q: Process): Disk {
    match q.pc
    case CreateBuilding => d.(current := None)
    case MigrateBuilding => d.(current := None)
    case MigrateStart | Marked | Populating | PhasesDone | Validated | Finalised =>
      if q.keepFailed then d else d.(current := None)
    case _ => d
  }

  /** Target validation: the marker is still incomplete and certification passes. */
  ghost predicate TargetValid(t: Transition, d: Disk) {
    && d.current.Some? && d.legacy.Some?
    && d.current.value.intact && d.current.value.tables && d.current.value.marker == Incomplete
    && t.certify(d.legacy.value.db, d.current.value.db)
  }

  ghost function Built(t: Transition, d: Disk): Option<V4> {
    if d.legacy.Some? then t.build(d.legacy.value.db) else None
  }

  /** The next successful file action of a process, or its refusal and cleanup. */
  ghost function Act(t: Transition, d: Disk, q: Process): (Disk, Pc) {
    var refused := (Cleanup(d, q), Stopped);
    match q.pc
    case Adopting => (d, if CurrentValid(d) then Running else Stopped)
    case CreateStart => if d.current.Some? then refused else (d.(current := Some(BLANK_FILE)), CreateBuilding)
    case CreateBuilding => (d.(current := Some(CompleteFile(Created))), CreateDone)
    case CreateDone => (d, if CurrentValid(d) then Running else Stopped)
    case MigrateStart =>
      if d.current.Some? || !LegacyValid(t.contract, d) then refused
      else (d.(current := Some(BLANK_FILE)), MigrateBuilding)
    case MigrateBuilding => (d.(current := Some(CompleteFile(Initialised))), Marked)
    case Marked =>
      if d.current.None? then refused
      else (d.(current := Some(d.current.value.(version := Some(LEGACY_VERSION), marker := Incomplete))), Populating)
    case Populating =>
      if d.current.None? || Built(t, d).None? then refused
      else (d.(current := Some(d.current.value.(db := Built(t, d).value))), PhasesDone)
    case PhasesDone => if TargetValid(t, d) then (d, Validated) else refused
    case Validated =>
      if d.current.None? then refused
      else (d.(current := Some(d.current.value.(version := Some(CURRENT_VERSION), marker := Final, origin := Migrated))),
            Finalised)
    case Finalised => if CurrentValid(d) then (d, Verified) else refused
    case Verified => (if q.keepOld then d else d.(legacy := None), Running)
    case _ => refused
  }

  /** One step of a process, or None when it cannot take it. */
  ghost function Next(t: Transition, d: Disk, q: Process, e: Event): Option<(Disk, Pc)> {
    match e
    case Discover(authorised) =>
      if q.pc != Resolving then None
      else
        Some((d, match Resolve(t.contract, d)
                 case FreshRequired => CreateStart
                 case Active => Adopting
                 case Blocked(_) => Stopped
                 case MigrationRequired => if authorised then MigrateStart else Stopped))
    case Proceed => if Holding(q.pc) && q.pc != Resolving then Some(Act(t, d, q)) else None
    case Commit(db) =>
      if (q.pc == Populating || q.pc == Running) && d.current.Some? then
        Some((d.(current := Some(d.current.value.(db := db))), q.pc))
      else None
    case Raise => if Holding(q.pc) then Some((Cleanup(d, q), Stopped)) else None
    case Kill => if q.pc == Stopped then None else Some((d, Stopped))
  }

  // ---- Any number of processes --------------------------------------------------------

  /** The directory, the holder of the startup lock, and every process; cutover
      records the two contents at the moment a v3 file is unlinked. */
  datatype World = World(disk: Disk, lock: Option<int>, procs: map<int, Process>, cutover: Option<(V3, V4)>)

  datatype Step = Acquire(p: int) | Do(p: int, e: Event)

  ghost function Moved(w: World, p: int, d: Disk, pc: Pc): World
    requires p in w.procs
  {
    World(d,
          if Holding(w.procs[p].pc) && !Holding(pc) then None else w.lock,
          w.procs[p := w.procs[p].(pc := pc)],
          if w.disk.legacy.Some? && d.legacy.None? && d.current.Some?
          then Some((w.disk.legacy.value.db, d.current.value.db)) else w.cutover)
  }

  ghost function After(t: Transition, w: World, s: Step): Option<World> {
    if s.p !in w.procs then None
    else
      match s
      case Acquire(p) =>
        if w.lock.None? && w.procs[p].pc == Waiting then
          Some(w.(lock := Some(p), procs := w.procs[p := w.procs[p].(pc := Resolving)]))
        else None
      case Do(p, e) =>
        match Next(t, w.disk, w.procs[p], e)
        case None => None
        case Some(n) => Some(Moved(w, p, n.0, n.1))
  }

  /** The world after the first n steps of a run, or None where it is no run. */
  ghost function Exec(t: Transition, w: World, run: seq<Step>, n: nat): Option<World>
    requires n <= |run|
  {
    if n == 0 then Some(w)
    else match Exec(t, w, run, n - 1)
         case None => None
         case Some(v) => After(t, v, run[n - 1])
  }

  /** Any directory, before any process has started. */
  ghost predicate Initial(w: World) {
    w.lock.None? && w.cutover.None? && (w.disk.current.Some? ==> w.disk.current.value.origin == Found)
    && forall p {:trigger w.procs[p]} | p in w.procs :: w.procs[p].pc == Waiting
  }

  predicate LockHolder(w: World, p: int) { w.lock == Some(p) }

  ghost predicate Exclusive(w: World) {
    && (w.lock.Some? ==> w.lock.value in w.procs)
    && forall p {:trigger w.procs[p]} {:trigger LockHolder(w, p)} | p in w.procs ::
         Holding(w.procs[p].pc) <==> LockHolder(w, p)
  }

  /** What a lock holder at pc may rely on. */
  ghost predicate Expects(t: Transition, d: Disk, pc: Pc) {
    match pc
    case CreateStart => d.current.None? && d.legacy.None?
    case CreateBuilding => d.current == Some(BLANK_FILE) && d.legacy.None?
    case CreateDone => d.current == Some(CompleteFile(Created))
    case Adopting => CurrentValid(d)
    case MigrateStart => d.current.None? && LegacyValid(t.contract, d)
    case MigrateBuilding => d.current == Some(BLANK_FILE) && LegacyValid(t.contract, d)
    case Marked => d.current == Some(CompleteFile(Initialised)) && LegacyValid(t.contract, d)
    case Populating => UnderConstruction(d) && LegacyValid(t.contract, d)
    case PhasesDone => UnderConstruction(d) && LegacyValid(t.contract, d) && Built(t, d) == Some(d.current.value.db)
    case Validated => UnderConstruction(d) && CutOver(t, d)
    case Finalised | Verified => CurrentValid(d) && d.current.value.origin == Migrated && CutOver(t, d)
    case _ => true
  }

  /** A destination between the reset of its markers and their final write. */
  predicate UnderConstruction(d: Disk) {
    && d.current.Some? && d.current.value.intact && d.current.value.tables
    && d.current.value.version == Some(LEGACY_VERSION) && d.current.value.marker == Incomplete
    && d.current.value.origin == Initialised
  }

  /** The current file holds what both phases build from the v3 file, certified. */
  ghost predicate CutOver(t: Transition, d: Disk) {
    && LegacyValid(t.contract, d) && d.current.Some?
    && Carries(t, d.legacy.value.db, d.current.value.db)
  }

  ghost predicate Carries(t: Transition, v3: V3, db: V4) {
    t.build(v3) == Some(db) && t.certify(v3, db)
  }

  predicate HolderMaking(w: World) {
    w.lock.Some? && w.lock.value in w.procs && Making(w.procs[w.lock.value].pc)
  }

  /** A complete current file that no lock holder is still making. */
  predicate Settled(w: World) { CurrentValid(w.disk) && !HolderMaking(w) }

  ghost predicate Served(w: World) {
    forall p {:trigger w.procs[p]} | p in w.procs :: w.procs[p].pc == Running ==> Settled(w)
  }

  ghost predicate Invariant(t: Transition, was: Disk, w: World) {
    && Exclusive(w)
    && (w.lock.Some? ==> Expects(t, w.disk, w.procs[w.lock.value].pc))
    && Served(w)
    && LegacyKept(t, was, w)
  }

  /** The v3 file is untouched, or gone after a cut-over to a settled current file. */
  ghost predicate LegacyKept(t: Transition, was: Disk, w: World) {
    if w.cutover.None? then w.disk.legacy == was.legacy
    else
      && w.disk.legacy.None? && was.legacy.Some?
      && w.cutover.value.0 == was.legacy.value.db && Carries(t, w.cutover.value.0, w.cutover.value.1)
      && Settled(w)
  }

  lemma ActKeepsExpectations(t: Transition, d: Disk, q: Process, e: Event)
    requires Holding(q.pc) && Expects(t, d, q.pc) && Next(t, d, q, e).Some?
    ensures var n := Next(t, d, q, e).value; Holding(n.1) ==> Expects(t, n.0, n.1)
    ensures var n := Next(t, d, q, e).value; n.1 == Running ==> CurrentValid(n.0)
    ensures var n := Next(t, d, q, e).value;
            n.0.legacy != d.legacy ==>
              n.0.legacy.None? && n.0.current == d.current && CutOver(t, d) && CurrentValid(d) && n.1 == Running
  {
    NewestDecides(t.contract, d);
  }

  /** Mutual exclusion: the lock has at most one holder, whoever moves. */
  lemma StepKeepsExclusion(t: Transition, w: World, s: Step)
    requires Exclusive(w) && After(t, w, s).Some?
    ensures Exclusive(After(t, w, s).value)
    ensures Holding(w.procs[s.p].pc) ==> LockHolder(w, s.p)
  {
    var v := After(t, w, s).value;
    var q := w.procs[s.p];
    assert Holding(q.pc) <==> LockHolder(w, s.p);
    if s.Do? {
      assert Holding(v.procs[s.p].pc) ==> Holding(q.pc);
    }
  }

  /** What a step outside the lock does: it changes content at most. */
  ghost predicate FreelyMoved(w: World, v: World, p: int) {
    && p in w.procs && p in v.procs && v.procs == w.procs[p := v.procs[p]]
    && !Holding(w.procs[p].pc)
    && (CurrentValid(w.disk) ==> CurrentValid(v.disk))
    && v.disk.legacy == w.disk.legacy && v.cutover == w.cutover
    && (w.procs[p].pc != Running ==> v.disk == w.disk)
    && (v.procs[p].pc == Running ==> w.procs[p].pc == Running)
    && (v.lock == w.lock || (w.lock.None? && v.lock == Some(p) && v.procs[p].pc == Resolving))
  }

  lemma FreeStep(t: Transition, w: World, s: Step)
    requires Exclusive(w) && After(t, w, s).Some? && !Holding(w.procs[s.p].pc)
    ensures FreelyMoved(w, After(t, w, s).value, s.p)
  {
  }

  /** What a step of the lock holder does. */
  ghost predicate HolderMoved(t: Transition, w: World, v: World, p: int) {
    && p in w.procs && p in v.procs && v.procs == w.procs[p := v.procs[p]] && w.lock == Some(p)
    && (v.lock == Some(p) || v.lock.None?)
    && (v.lock == Some(p) ==> Expects(t, v.disk, v.procs[p].pc))
    && (v.procs[p].pc == Running ==> Settled(v))
    && (Settled(w) ==> Settled(v))
    && if v.disk.legacy == w.disk.legacy then v.cutover == w.cutover
       else v.disk.legacy.None? && CutOver(t, w.disk) && Settled(v)
            && v.cutover == Some((w.disk.legacy.value.db, w.disk.current.value.db))
  }

  lemma HolderStep(t: Transition, w: World, s: Step)
    requires Exclusive(w) && After(t, w, s).Some? && Holding(w.procs[s.p].pc)
    requires Expects(t, w.disk, w.procs[s.p].pc)
    ensures HolderMoved(t, w, After(t, w, s).value, s.p)
  {
    assert LockHolder(w, s.p);
    var q := w.procs[s.p];
    ActKeepsExpectations(t, w.disk, q, s.e);
    if Settled(w) {
    }
  }

  lemma ServedAfter(w: World, v: World, p: int)
    requires Served(w) && p in w.procs && p in v.procs && v.procs == w.procs[p := v.procs[p]]
    requires Settled(w) ==> Settled(v)
    requires v.procs[p].pc == Running && w.procs[p].pc != Running ==> Settled(v)
    ensures Served(v)
  {
    forall r | r in v.procs && v.procs[r].pc == Running ensures Settled(v) {
      if r != p || w.procs[p].pc == Running {
        assert w.procs[r].pc == Running;
      }
    }
  }

  lemma HolderKeepsInvariant(t: Transition, was: Disk, w: World, v: World, p: int)
    requires Invariant(t, was, w) && HolderMoved(t, w, v, p) && Exclusive(v)
    ensures Invariant(t, was, v)
  {
    ServedAfter(w, v, p);
  }

  lemma FreeKeepsInvariant(t: Transition, was: Disk, w: World, v: World, p: int)
    requires Invariant(t, was, w) && FreelyMoved(w, v, p) && Exclusive(v)
    ensures Invariant(t, was, v) && (Settled(w) ==> Settled(v))
  {
    assert LockHolder(w, p) <==> false;
    assert w.procs[p].pc == Running ==> Settled(w);
    ServedAfter(w, v, p);
  }

  lemma StepKeepsInvariant(t: Transition, was: Disk, w: World, s: Step)
    requires Invariant(t, was, w) && After(t, w, s).Some?
    ensures Invariant(t, was, After(t, w, s).value)
    ensures Settled(w) ==> Settled(After(t, w, s).value)
  {
    StepKeepsExclusion(t, w, s);
    var v := After(t, w, s).value;
    if Holding(w.procs[s.p].pc) {
      assert LockHolder(w, s.p);
      HolderStep(t, w, s);
      HolderKeepsInvariant(t, was, w, v, s.p);
    } else {
      FreeStep(t, w, s);
      FreeKeepsInvariant(t, was, w, v, s.p);
    }
  }

  // ---- Every run --------------------------------------------------------------------

  lemma {:induction false} RunsFrom(t: Transition, was: Disk, w: World, run: seq<Step>, n: nat)
    requires Invariant(t, was, w) && n <= |run| && Exec(t, w, run, n).Some?
    ensures Invariant(t, was, Exec(t, w, run, n).value)
    ensures Settled(w) ==> Settled(Exec(t, w, run, n).value)
  {
    if n > 0 {
      RunsFrom(t, was, w, run, n - 1);
      StepKeepsInvariant(t, was, Exec(t, w, run, n - 1).value, run[n - 1]);
    }
  }

  lemma RunsKeepInvariant(t: Transition, w0: World, run: seq<Step>, n: nat)
    requires Initial(w0) && n <= |run| && Exec(t, w0, run, n).Some?
    ensures Invariant(t, w0.disk, Exec(t, w0, run, n).value)
  {
    assert Exclusive(w0);
    RunsFrom(t, w0.disk, w0, run, n);
  }

  /** No information is lost in any run: the v3 file is as it was, or it was unlinked
      when the current file held exactly what both phases build from it, certified,
      and the current file has been complete and in nobody's hands ever since. */
  lemma HistoryIsConserved(t: Transition, w0: World, run: seq<Step>, n: nat)
    requires Initial(w0) && n <= |run| && Exec(t, w0, run, n).Some?
    ensures var w := Exec(t, w0, run, n).value;
            if w.cutover.None? then w.disk.legacy == w0.disk.legacy
            else
              && w0.disk.legacy.Some? && w.cutover.value.0 == w0.disk.legacy.value.db
              && t.build(w.cutover.value.0) == Some(w.cutover.value.1)
              && t.certify(w.cutover.value.0, w.cutover.value.1)
              && w.disk.legacy.None? && Resolve(t.contract, w.disk) == Active && Settled(w)
  {
    RunsKeepInvariant(t, w0, run, n);
    NewestDecides(t.contract, Exec(t, w0, run, n).value.disk);
  }

  /** What an unlinked v3 file said, the current file said at that moment: every source
      reads back as before, the media are the same, each with its last record. */
  lemma UnlinkedHistorySurvives(platform: Platform, p: Provider, unknown: Text, sample: V3 -> set<Text>,
                                w0: World, run: seq<Step>, n: nat)
    requires Initial(w0) && n <= |run| && Exec(FromV3ToV4(platform, p, unknown, sample), w0, run, n).Some?
    requires Exec(FromV3ToV4(platform, p, unknown, sample), w0, run, n).value.cutover.Some?
    ensures var (v3, db) := Exec(FromV3ToV4(platform, p, unknown, sample), w0, run, n).value.cutover.value;
            && w0.disk.legacy.Some? && v3 == w0.disk.legacy.value.db
            && SourceMigration.Imported(v3, db, v3.StateUrls(), unknown)
            && db.media.ids.Keys == v3.MediaIds()
            && forall v | v in db.media.ids :: HoldsLatestOf(platform, p, v3, db, v)
  {
    HistoryIsConserved(FromV3ToV4(platform, p, unknown, sample), w0, run, n);
    var v3 := Exec(FromV3ToV4(platform, p, unknown, sample), w0, run, n).value.cutover.value.0;
    MigrationPreservesMeaning(platform, p, v3, unknown);
  }

  /** Whatever any process does later, a process that runs keeps a complete current
      file, and nobody is making another. */
  lemma RunningKeepsItsFile(t: Transition, w0: World, run: seq<Step>, p: int, later: seq<Step>, n: nat)
    requires Initial(w0) && Exec(t, w0, run, |run|).Some?
    requires var w := Exec(t, w0, run, |run|).value;
             p in w.procs && w.procs[p].pc == Running && n <= |later| && Exec(t, w, later, n).Some?
    ensures Settled(Exec(t, Exec(t, w0, run, |run|).value, later, n).value)
  {
    RunsKeepInvariant(t, w0, run, |run|);
    RunsFrom(t, w0.disk, Exec(t, w0, run, |run|).value, later, n);
  }

  /** What allows a process to make a file: an empty directory to create one, and a valid
      v3 file and authorisation to migrate it. */
  predicate Allowed(t: Transition, d: Disk, authorised: bool, migrating: bool) {
    d.current.None? && if migrating then authorised && LegacyValid(t.contract, d) else d.legacy.None?
  }

  /** At step i process p discovered, and was allowed. */
  ghost predicate AllowedAt(t: Transition, w0: World, run: seq<Step>, p: int, i: int, migrating: bool)
    requires 0 <= i < |run|
  {
    && run[i].Do? && run[i].p == p && run[i].e.Discover?
    && Exec(t, w0, run, i).Some? && Allowed(t, Exec(t, w0, run, i).value.disk, run[i].e.authorised, migrating)
  }

  /** The last step at which process p took the lock or discovered. */
  function LastDecision(run: seq<Step>, n: nat, p: int): (i: int)
    requires n <= |run|
    ensures -1 <= i < n && (i >= 0 ==> Decides(run[i], p))
    ensures forall j | i < j < n :: !Decides(run[j], p)
  {
    if n == 0 then -1 else if Decides(run[n - 1], p) then n - 1 else LastDecision(run, n - 1, p)
  }

  predicate Decides(s: Step, p: int) { s == Acquire(p) || (s.Do? && s.p == p && s.e.Discover?) }

  /** If process p is making a file after n steps, its last decision allowed it. */
  ghost predicate MakerAllowed(t: Transition, w0: World, run: seq<Step>, n: nat, p: int)
    requires n <= |run|
  {
    Exec(t, w0, run, n).Some? && p in Exec(t, w0, run, n).value.procs && Making(Exec(t, w0, run, n).value.procs[p].pc) ==>
      var i := LastDecision(run, n, p);
      i >= 0 && AllowedAt(t, w0, run, p, i, Migrating(Exec(t, w0, run, n).value.procs[p].pc))
  }

  /** In every run, a process that is making a file last decided to: nobody migrates without
      authorisation, and nobody creates beside an older cache. */
  lemma {:induction false} MakingWasDecided(t: Transition, w0: World, run: seq<Step>, n: nat, p: int)
    requires Initial(w0) && n <= |run|
    ensures MakerAllowed(t, w0, run, n, p)
  {
    if n > 0 {
      MakingWasDecided(t, w0, run, n - 1, p);
      AllowedStep(t, w0, run, n, p);
    }
  }

  lemma AllowedStep(t: Transition, w0: World, run: seq<Step>, n: nat, p: int)
    requires Initial(w0) && 0 < n <= |run| && MakerAllowed(t, w0, run, n - 1, p)
    ensures MakerAllowed(t, w0, run, n, p)
  {
    var w := Exec(t, w0, run, n);
    if w.Some? && p in w.value.procs && Making(w.value.procs[p].pc) {
      MakerBefore(t, w0, run, n, p, w.value);
    }
  }

  lemma MakerBefore(t: Transition, w0: World, run: seq<Step>, n: nat, p: int, w: World)
    requires Initial(w0) && n <= |run| && Exec(t, w0, run, n) == Some(w)
    requires p in w.procs && Making(w.procs[p].pc)
    ensures n > 0 && Exec(t, w0, run, n - 1).Some? && p in Exec(t, w0, run, n - 1).value.procs
    ensures Decides(run[n - 1], p) ==> AllowedAt(t, w0, run, p, n - 1, Migrating(w.procs[p].pc))
    ensures var before := Exec(t, w0, run, n - 1).value.procs[p].pc;
            !Decides(run[n - 1], p) ==> Making(before) && Migrating(before) == Migrating(w.procs[p].pc)
  {
    LastStep(t, w0, run, n, p, w);
    DecisionStep(t, Exec(t, w0, run, n - 1).value, run[n - 1], p, w, w.procs[p].pc);
  }

  lemma LastStep(t: Transition, w0: World, run: seq<Step>, n: nat, p: int, w: World)
    requires Initial(w0) && n <= |run| && Exec(t, w0, run, n) == Some(w)
    requires p in w.procs && Making(w.procs[p].pc)
    ensures n > 0 && Exec(t, w0, run, n - 1).Some? && After(t, Exec(t, w0, run, n - 1).value, run[n - 1]) == Some(w)
  {
  }

  lemma DecisionStep(t: Transition, v: World, s: Step, p: int, w: World, pc: Pc)
    requires After(t, v, s) == Some(w) && p in w.procs && w.procs[p].pc == pc && Making(pc)
    ensures p in v.procs
    ensures !Decides(s, p) ==> Making(v.procs[p].pc) && Migrating(v.procs[p].pc) == Migrating(pc)
    ensures Decides(s, p) ==> s.Do? && s.e.Discover? && Allowed(t, v.disk, s.e.authorised, Migrating(pc))
  {
    NewestDecides(t.contract, v.disk);
  }

  /** So in every run the v3 file goes only by a process that was authorised to migrate. */
  lemma UnlinkingWasAuthorised(t: Transition, w0: World, run: seq<Step>, n: nat) returns (p: int, i: int)
    requires Initial(w0) && n <= |run| && LegacyChanged(t, w0, run, n)
    ensures 0 <= i < n && run[i] == Do(p, Discover(true))
  {
    var m := FirstTrue(k => 0 <= k <= |run| && LegacyChanged(t, w0, run, k), n);
    p, i := UnlinkerWasAuthorised(t, w0, run, m);
  }

  /** After n steps the v3 file is not what it was. */
  ghost predicate LegacyChanged(t: Transition, w0: World, run: seq<Step>, n: int)
    requires 0 <= n <= |run|
  {
    Exec(t, w0, run, n).Some? && Exec(t, w0, run, n).value.disk.legacy != w0.disk.legacy
  }

  lemma {:induction false} FirstTrue(holds: int -> bool, n: nat) returns (m: nat)
    requires !holds(0) && holds(n)
    ensures m < n && !holds(m) && holds(m + 1)
  {
    if holds(n - 1) {
      m := FirstTrue(holds, n - 1);
    } else {
      m := n - 1;
    }
  }

  lemma UnlinkerWasAuthorised(t: Transition, w0: World, run: seq<Step>, m: nat) returns (p: int, i: int)
    requires Initial(w0) && m < |run| && !LegacyChanged(t, w0, run, m) && LegacyChanged(t, w0, run, m + 1)
    ensures 0 <= i < m && run[i] == Do(p, Discover(true))
  {
    UnlinkerMigrates(t, w0, run, m + 1);
    p := run[m].p;
    MakingWasDecided(t, w0, run, m, p);
    i := LastDecision(run, m, p);
  }

  lemma UnlinkerMigrates(t: Transition, w0: World, run: seq<Step>, n: nat)
    requires n <= |run| && Exec(t, w0, run, n).Some? && Exec(t, w0, run, n).value.disk.legacy != w0.disk.legacy
    ensures n > 0 && Exec(t, w0, run, n - 1).Some?
    ensures var v, p := Exec(t, w0, run, n - 1).value, run[n - 1].p;
            v.disk.legacy == w0.disk.legacy ==> p in v.procs && Making(v.procs[p].pc) && Migrating(v.procs[p].pc)
  {
  }

  /** The making process has made a file. */
  predicate HasMade(pc: Pc) { Making(pc) && pc != CreateStart && pc != MigrateStart }

  /** Process p took the lock at step i and has held it to the end of n steps. */
  ghost predicate HeldSince(t: Transition, w0: World, run: seq<Step>, n: nat, p: int, i: int)
    requires n <= |run|
  {
    && 0 <= i < n && run[i] == Acquire(p)
    && forall k: nat {:trigger Exec(t, w0, run, k)} | i < k <= n ::
         Exec(t, w0, run, k).Some? && Exec(t, w0, run, k).value.lock == Some(p)
  }

  /** Step m of process p creates the current file. */
  ghost predicate CreatesAt(t: Transition, w0: World, run: seq<Step>, p: int, m: int)
    requires 0 <= m < |run|
  {
    && run[m].p == p && Exec(t, w0, run, m).Some? && Exec(t, w0, run, m + 1).Some?
    && Exec(t, w0, run, m).value.disk.current.None? && Exec(t, w0, run, m + 1).value.disk.current.Some?
  }

  lemma StillHeld(t: Transition, w0: World, run: seq<Step>, n: nat, p: int, i: int)
    requires n < |run| && HeldSince(t, w0, run, n, p, i)
    requires Exec(t, w0, run, n + 1).Some? && Exec(t, w0, run, n + 1).value.lock == Some(p)
    ensures HeldSince(t, w0, run, n + 1, p, i)
  {
  }

  lemma JustTaken(t: Transition, w0: World, run: seq<Step>, n: nat, p: int, v: World)
    requires 0 < n <= |run| && run[n - 1] == Acquire(p) && Exec(t, w0, run, n) == Some(v) && v.lock == Some(p)
    ensures HeldSince(t, w0, run, n, p, n - 1)
  {
  }

  /** A lock holder took the lock at some step, and has held it since. */
  lemma {:induction false} HolderSince(t: Transition, w0: World, run: seq<Step>, n: nat, p: int, v: World) returns (i: int)
    requires Initial(w0) && n <= |run| && Exec(t, w0, run, n) == Some(v) && v.lock == Some(p)
    ensures HeldSince(t, w0, run, n, p, i)
  {
    var w := Exec(t, w0, run, n - 1).value;
    HolderAfter(t, w0, run, n - 1, p, w, v);
    if w.lock == Some(p) {
      i := HolderSince(t, w0, run, n - 1, p, w);
      StillHeld(t, w0, run, n - 1, p, i);
    } else {
      JustTaken(t, w0, run, n, p, v);
      i := n - 1;
    }
  }

  /** If it has made a file, it made it after it took the lock. */
  lemma {:induction false} HolderMade(t: Transition, w0: World, run: seq<Step>, n: nat, p: int, v: World, i: int) returns (m: int)
    requires Initial(w0) && n <= |run| && Exec(t, w0, run, n) == Some(v) && HeldSince(t, w0, run, n, p, i)
    requires p in v.procs && HasMade(v.procs[p].pc)
    ensures i < m < n && CreatesAt(t, w0, run, p, m)
  {
    var w := Exec(t, w0, run, n - 1).value;
    HolderAfter(t, w0, run, n - 1, p, w, v);
    HeldBefore(t, w0, run, n, p, i);
    if i < n - 1 && HasMade(w.procs[p].pc) {
      m := HolderMade(t, w0, run, n - 1, p, w, i);
    } else {
      m := n - 1;
    }
  }

  lemma HeldBefore(t: Transition, w0: World, run: seq<Step>, n: nat, p: int, i: int)
    requires 0 < n <= |run| && HeldSince(t, w0, run, n, p, i)
    ensures Exec(t, w0, run, n).Some? && Exec(t, w0, run, n).value.lock == Some(p) && run[i] == Acquire(p) && i < n
    ensures i < n - 1 ==> HeldSince(t, w0, run, n - 1, p, i) && Exec(t, w0, run, n - 1).Some? && Exec(t, w0, run, n - 1).value.lock == Some(p)
  {
  }

  /** A lock holder has just taken the lock, or has made a file before, or just now. */
  lemma HolderAfter(t: Transition, w0: World, run: seq<Step>, n: nat, p: int, w: World, v: World)
    requires Initial(w0) && n < |run| && Exec(t, w0, run, n) == Some(w) && Exec(t, w0, run, n + 1) == Some(v) && v.lock == Some(p)
    ensures p in v.procs && p in w.procs
    ensures w.lock == Some(p) && HasMade(v.procs[p].pc) && !HasMade(w.procs[p].pc) ==>
              run[n].p == p && w.disk.current.None? && v.disk.current.Some?
    ensures w.lock != Some(p) ==> run[n] == Acquire(p) && !HasMade(v.procs[p].pc)
  {
    var s := run[n];
    RunsKeepInvariant(t, w0, run, n);
    StepKeepsExclusion(t, w, s);
    if w.lock == Some(p) && s.p == p && !HasMade(w.procs[p].pc) && s.Do? {
      assert LockHolder(w, p);
      MakingBegins(t, w.disk, w.procs[p], s.e);
    }
  }

  lemma MakingBegins(t: Transition, d: Disk, q: Process, e: Event)
    requires Holding(q.pc) && !HasMade(q.pc) && Expects(t, d, q.pc) && Next(t, d, q, e).Some?
    ensures var n := Next(t, d, q, e).value; HasMade(n.1) ==> d.current.None? && n.0.current.Some?
  {
  }

  /** A current file disappears only by the cleanup of the lock holder that made it since
      it took the lock, while no process runs on it. */
  lemma CleanupRemovesOwnFile(t: Transition, w0: World, run: seq<Step>, n: nat)
    requires Initial(w0) && n < |run| && Exec(t, w0, run, n).Some? && Exec(t, w0, run, n + 1).Some?
    ensures var w, v := Exec(t, w0, run, n).value, Exec(t, w0, run, n + 1).value;
            w.disk.current.Some? && v.disk.current.None? ==>
              && w.lock == Some(run[n].p) && HasMade(w.procs[run[n].p].pc)
              && (exists i, m :: i < m < n && HeldSince(t, w0, run, n, run[n].p, i) && CreatesAt(t, w0, run, run[n].p, m))
              && v.disk.legacy == w.disk.legacy
              && forall r {:trigger w.procs[r]} | r in w.procs :: w.procs[r].pc != Running
  {
    RunsKeepInvariant(t, w0, run, n);
    var w, v := Exec(t, w0, run, n).value, Exec(t, w0, run, n + 1).value;
    if w.disk.current.Some? && v.disk.current.None? {
      StepKeepsInvariant(t, w0.disk, w, run[n]);
      assert !Settled(w);
      assert run[n].Do?;
      assert Holding(w.procs[run[n].p].pc) <==> LockHolder(w, run[n].p);
      RemovalIsCleanup(t, w.disk, w.procs[run[n].p], run[n].e);
      var i := HolderSince(t, w0, run, n, run[n].p, w);
      var m := HolderMade(t, w0, run, n, run[n].p, w, i);
    }
  }

  lemma RemovalIsCleanup(t: Transition, d: Disk, q: Process, e: Event)
    requires Next(t, d, q, e).Some? && (Holding(q.pc) ==> Expects(t, d, q.pc))
    requires d.current.Some? && Next(t, d, q, e).value.0.current.None?
    ensures HasMade(q.pc) && Next(t, d, q, e).value.0.legacy == d.legacy
  {
  }

  // ---- Kills ------------------------------------------------------------------------

  predicate Migrating(pc: Pc) { Making(pc) && pc != CreateStart && pc != CreateBuilding && pc != CreateDone }

  /** What the next discovery finds after a migrating process is killed: the retry
      it was before, a block, or an active cache; the last exactly in the moment
      before the markers are reset and from finalisation on. */
  lemma KilledMigration(t: Transition, w0: World, run: seq<Step>, n: nat, p: int)
    requires Initial(w0) && n <= |run| && Exec(t, w0, run, n).Some?
    requires p in Exec(t, w0, run, n).value.procs && Migrating(Exec(t, w0, run, n).value.procs[p].pc)
    ensures var w := Exec(t, w0, run, n).value;
            var pc := w.procs[p].pc;
            var v := After(t, w, Do(p, Kill));
            && v.Some? && v.value.lock.None? && v.value.disk == w.disk
            && (Resolve(t.contract, w.disk) == Active <==> pc in {Marked, Finalised, Verified})
            && (Resolve(t.contract, w.disk) == MigrationRequired <==> pc == MigrateStart)
            && Resolve(t.contract, w.disk) != FreshRequired
  {
    RunsKeepInvariant(t, w0, run, n);
    var w := Exec(t, w0, run, n).value;
    assert Holding(w.procs[p].pc) <==> LockHolder(w, p);
    NewestDecides(t.contract, w.disk);
  }

  /** The step that leaves a freshly marked, still empty destination behind. */
  ghost predicate LeavesMarked(w: World, s: Step) {
    && s.Do? && s.p in w.procs && w.procs[s.p].pc == Marked
    && (s.e.Kill? || (s.e.Raise? && w.procs[s.p].keepFailed))
  }

  ghost predicate LeftMarked(t: Transition, w0: World, run: seq<Step>, n: nat)
    requires n <= |run|
  {
    exists i :: 0 <= i < n && LeavesMarkedAt(t, w0, run, i)
  }

  ghost predicate LeavesMarkedAt(t: Transition, w0: World, run: seq<Step>, i: int)
    requires 0 <= i < |run|
  {
    Exec(t, w0, run, i).Some? && LeavesMarked(Exec(t, w0, run, i).value, run[i])
  }

  /** The step that writes the final markers of a certified destination. */
  ghost predicate FinalisesAt(t: Transition, w0: World, run: seq<Step>, i: int)
    requires 0 <= i < |run|
  {
    && Exec(t, w0, run, i).Some?
    && var w := Exec(t, w0, run, i).value;
       && run[i].Do? && run[i].e.Proceed? && run[i].p in w.procs && w.procs[run[i].p].pc == Validated
       && CutOver(t, w.disk)
  }

  ghost predicate WasFinalised(t: Transition, w0: World, run: seq<Step>, n: nat)
    requires n <= |run|
  {
    exists i :: 0 <= i < n && FinalisesAt(t, w0, run, i)
  }

  /** A complete current file in nobody's hands that came from a bare initialise step. */
  ghost predicate Hollow(w: World) { HollowFile(w.disk) && !HolderMaking(w) }

  predicate HollowFile(d: Disk) { CurrentValid(d) && d.current.value.origin == Initialised }

  lemma MakerLeavesHollow(t: Transition, d: Disk, q: Process, e: Event)
    requires Making(q.pc) && Expects(t, d, q.pc) && Next(t, d, q, e).Some?
    ensures var n := Next(t, d, q, e).value;
            HollowFile(n.0) && !Making(n.1) <==> q.pc == Marked && (e.Kill? || (e.Raise? && q.keepFailed))
  {
  }

  lemma OthersLeaveHollow(t: Transition, d: Disk, q: Process, e: Event)
    requires !Making(q.pc) && Next(t, d, q, e).Some?
    ensures var n := Next(t, d, q, e).value;
            (HollowFile(n.0) <==> HollowFile(d)) && (Making(n.1) ==> !HollowFile(d))
  {
    NewestDecides(t.contract, d);
  }

  lemma HollowStep(t: Transition, was: Disk, w: World, s: Step)
    requires Invariant(t, was, w) && After(t, w, s).Some?
    ensures Hollow(After(t, w, s).value) <==> Hollow(w) || LeavesMarked(w, s)
  {
    var v := After(t, w, s).value;
    var q := w.procs[s.p];
    StepKeepsExclusion(t, w, s);
    assert Holding(q.pc) <==> LockHolder(w, s.p);
    assert Holding(v.procs[s.p].pc) <==> LockHolder(v, s.p);
    if s.Do? {
      if Making(q.pc) {
        MakerLeavesHollow(t, w.disk, q, s.e);
      } else {
        OthersLeaveHollow(t, w.disk, q, s.e);
      }
    }
  }

  lemma MigratedStep(t: Transition, was: Disk, w: World, s: Step)
    requires Invariant(t, was, w) && After(t, w, s).Some?
    ensures var v := After(t, w, s).value;
            && v.disk.current.Some? && v.disk.current.value.origin == Migrated ==>
              || (w.disk.current.Some? && w.disk.current.value.origin == Migrated)
              || (s.Do? && s.e.Proceed? && w.procs[s.p].pc == Validated && CutOver(t, w.disk))
  {
    if s.Do? {
      assert Holding(w.procs[s.p].pc) <==> LockHolder(w, s.p);
    }
  }

  /** With the lock free, an active cache is hollow exactly when an earlier process
      died, or kept its failed destination, in the one unprotected moment. */
  lemma {:induction false} HollowExactly(t: Transition, w0: World, run: seq<Step>, n: nat)
    requires Initial(w0) && n <= |run| && Exec(t, w0, run, n).Some?
    ensures Hollow(Exec(t, w0, run, n).value) <==> LeftMarked(t, w0, run, n)
  {
    if n > 0 {
      HollowExactly(t, w0, run, n - 1);
      RunsKeepInvariant(t, w0, run, n - 1);
      HollowStep(t, w0.disk, Exec(t, w0, run, n - 1).value, run[n - 1]);
      assert LeavesMarked(Exec(t, w0, run, n - 1).value, run[n - 1]) <==> LeavesMarkedAt(t, w0, run, n - 1);
    }
  }

  lemma {:induction false} MigratedWasFinalised(t: Transition, w0: World, run: seq<Step>, n: nat)
    requires Initial(w0) && n <= |run| && Exec(t, w0, run, n).Some?
    ensures var c := Exec(t, w0, run, n).value.disk.current;
            c.Some? && c.value.origin == Migrated ==> WasFinalised(t, w0, run, n)
  {
    if n > 0 {
      MigratedWasFinalised(t, w0, run, n - 1);
      RunsKeepInvariant(t, w0, run, n - 1);
      MigratedStep(t, w0.disk, Exec(t, w0, run, n - 1).value, run[n - 1]);
      var c := Exec(t, w0, run, n).value.disk.current;
      if c.Some? && c.value.origin == Migrated {
        assert WasFinalised(t, w0, run, n - 1) || FinalisesAt(t, w0, run, n - 1);
      }
    }
  }

  /** Never active early: where discovery under a free lock finds an active cache, it
      was there before, it was created fresh, or a destination that passed validation
      was finalised; unless a process was lost in the one unprotected moment. */
  lemma ActiveIsEarned(t: Transition, w0: World, run: seq<Step>, n: nat)
    requires Initial(w0) && n <= |run| && Exec(t, w0, run, n).Some?
    requires Exec(t, w0, run, n).value.lock.None?
    requires Resolve(t.contract, Exec(t, w0, run, n).value.disk) == Active
    ensures match Exec(t, w0, run, n).value.disk.current.value.origin
            case Migrated => WasFinalised(t, w0, run, n)
            case Initialised => LeftMarked(t, w0, run, n)
            case _ => !LeftMarked(t, w0, run, n)
  {
    NewestDecides(t.contract, Exec(t, w0, run, n).value.disk);
    HollowExactly(t, w0, run, n);
    MigratedWasFinalised(t, w0, run, n);
  }

  // ---- Runs that happen -----------------------------------------------------------------

  function Alone(d: Disk, keepOld: bool, keepFailed: bool): World {
    World(d, None, map[1 := Process(Waiting, keepOld, keepFailed)], None)
  }

  const TO_MARKED: seq<Step> := [Acquire(1), Do(1, Discover(true)), Do(1, Proceed), Do(1, Proceed)]

  /** The only process, under the lock, at pc. */
  function Held(d: Disk, pc: Pc, keepOld: bool, keepFailed: bool): World {
    World(d, Some(1), map[1 := Process(pc, keepOld, keepFailed)], None)
  }

  lemma OneMore(t: Transition, w0: World, run: seq<Step>, i: nat, d: Disk, pc: Pc, keepOld: bool, keepFailed: bool)
    requires i < |run| && run[i].Do? && run[i].p == 1 && Holding(pc) && d.legacy.Some?
    requires Exec(t, w0, run, i) == Some(Held(d, pc, keepOld, keepFailed))
    requires var n := Next(t, d, Process(pc, keepOld, keepFailed), run[i].e); n.Some? && Holding(n.value.1) && n.value.0.legacy == d.legacy
    ensures var n := Next(t, d, Process(pc, keepOld, keepFailed), run[i].e).value;
            Exec(t, w0, run, i + 1) == Some(Held(n.0, n.1, keepOld, keepFailed))
  {
    var n := Next(t, d, Process(pc, keepOld, keepFailed), run[i].e).value;
    assert map[1 := Process(pc, keepOld, keepFailed)][1 := Process(n.1, keepOld, keepFailed)]
        == map[1 := Process(n.1, keepOld, keepFailed)];
  }

  lemma ReachMarked(t: Transition, d: Disk, keepOld: bool, keepFailed: bool, run: seq<Step>)
    requires d.current.None? && LegacyValid(t.contract, d) && TO_MARKED <= run
    ensures Exec(t, Alone(d, keepOld, keepFailed), run, 4) ==
            Some(Held(d.(current := Some(CompleteFile(Initialised))), Marked, keepOld, keepFailed))
  {
    NewestDecides(t.contract, d);
    var w := Alone(d, keepOld, keepFailed);
    forall i | 0 <= i < 4 ensures run[i] == TO_MARKED[i] {}
    assert Exec(t, w, run, 1) == Some(Held(d, Resolving, keepOld, keepFailed)) by {
      assert w.procs[1 := Process(Resolving, keepOld, keepFailed)] == map[1 := Process(Resolving, keepOld, keepFailed)];
      assert Exec(t, w, run, 0) == Some(w);
    }
    OneMore(t, w, run, 1, d, Resolving, keepOld, keepFailed);
    OneMore(t, w, run, 2, d, MigrateStart, keepOld, keepFailed);
    OneMore(t, w, run, 3, d.(current := Some(BLANK_FILE)), MigrateBuilding, keepOld, keepFailed);
  }

  /** The loss: killed in the unprotected moment, a migration leaves an empty cache
      that every later discovery takes for the active one, in front of a v3 file
      that is still there. */
  lemma KillLeavesHollowCache(t: Transition, d: Disk, keepOld: bool, keepFailed: bool)
    requires d.current.None? && LegacyValid(t.contract, d)
    ensures var run := TO_MARKED + [Do(1, Kill)];
            var w := Exec(t, Alone(d, keepOld, keepFailed), run, |run|);
            && w.Some? && w.value.lock.None? && Resolve(t.contract, w.value.disk) == Active
            && w.value.disk.current.value.db == NO_DATA && w.value.disk.legacy == d.legacy
  {
    var run := TO_MARKED + [Do(1, Kill)];
    ReachMarked(t, d, keepOld, keepFailed, run);
    NewestDecides(t.contract, d.(current := Some(CompleteFile(Initialised))));
  }

  /** Where the handler around a migration still cleans up. */
  predicate CleansUp(pc: Pc) {
    pc.MigrateStart? || pc.Marked? || pc.Populating? || pc.PhasesDone? || pc.Validated? || pc.Finalised?
  }

  // ---- One process in statements ----------------------------------------------------------

  /** The events of one process, oldest first. */
  datatype Log = Start | Then(before: Log, e: Event)

  ghost function Solo(t: Transition, d: Disk, q: Process, log: Log): Option<(Disk, Pc)> {
    match log
    case Start => Some((d, q.pc))
    case Then(before, e) =>
      match Solo(t, d, q, before)
      case None => None
      case Some(at) => Next(t, at.0, q.(pc := at.1), e)
  }

  method RunPopulation(platform: Platform, p: Provider, v3: V3, unknown: Text, ghost sample: V3 -> set<Text>)
    returns (db: Option<V4>)
    ensures db == FromV3ToV4(platform, p, unknown, sample).build(v3)
  {
    db := Populate(platform, p, v3, unknown);
  }

  method RunCertifier(platform: Platform, p: Provider, v3: V3, db: V4, unknown: Text, sample: V3 -> set<Text>)
    returns (ok: bool)
    requires sample(v3) <= RecordIds(v3.RecordOrder())
    ensures ok == FromV3ToV4(platform, p, unknown, sample).certify(v3, db)
  {
    ok := Certify(p, v3, db, sample(v3), unknown);
  }

  /** After the phases, certification alone decides. */
  lemma ValidationStep(t: Transition, d: Disk, q: Process)
    requires q.pc == PhasesDone && Expects(t, d, PhasesDone)
    ensures d.current.Some? && d.legacy.Some? && Built(t, d) == Some(d.current.value.db)
    ensures d.current.value.intact && d.current.value.tables && d.current.value.marker == Incomplete
    ensures Carries(t, d.legacy.value.db, d.current.value.db) <==> t.certify(d.legacy.value.db, d.current.value.db)
    ensures t.certify(d.legacy.value.db, d.current.value.db) ==> Next(t, d, q, Proceed) == Some((d, Validated))
  {
  }

  /** execute_cache_startup, between discovery under the lock and its release. */
  class Startup {
    const platform: Platform
    const provider: Provider
    const unknown: Text
    const sample: V3 -> set<Text>
    ghost const t: Transition
    const keepOld: bool
    const keepFailed: bool
    var current: Option<CurrentFile>
    var legacy: Option<LegacyFile>
    ghost const start: Disk
    ghost var log: Log
    ghost var pc: Pc

    constructor (platform: Platform, provider: Provider, unknown: Text, sample: V3 -> set<Text>,
                 keepOld: bool, keepFailed: bool, d: Disk)
      ensures Tracked() && pc == Resolving && start == d == Files()
      ensures Concrete() && t == FromV3ToV4(platform, provider, unknown, sample)
      ensures this.sample == sample && this.keepOld == keepOld && this.keepFailed == keepFailed
    {
      this.platform, this.provider, this.unknown, this.sample := platform, provider, unknown, sample;
      t := FromV3ToV4(platform, provider, unknown, sample);
      this.keepOld, this.keepFailed := keepOld, keepFailed;
      current, legacy, start, log, pc := d.current, d.legacy, d, Log.Start, Resolving;
    }

    function Files(): Disk reads this { Disk(current, legacy) }

    ghost function Self(): Process reads this { Process(pc, keepOld, keepFailed) }

    ghost predicate Concrete() { t == FromV3ToV4(platform, provider, unknown, sample) }

    /** The sample is of the store's own records. */
    ghost predicate Sampled() reads this {
      Concrete() && (legacy.Some? ==> sample(legacy.value.db) <= RecordIds(legacy.value.db.RecordOrder()))
    }

    /** The fields are where the log of this process leads. */
    ghost predicate Tracked() reads this {
      && Solo(t, start, Process(Resolving, keepOld, keepFailed), log) == Some((Files(), pc))
      && (Holding(pc) ==> Expects(t, Files(), pc))
      && (pc == Running ==> CurrentValid(Files()))
      && (legacy == start.legacy
          || (&& legacy.None? && start.legacy.Some? && current.Some? && pc == Running
              && Carries(t, start.legacy.value.db, current.value.db)))
    }

    /** Notes that the files now are what the event makes of them. */
    ghost method Took(e: Event, was: Disk)
      requires Solo(t, start, Process(Resolving, keepOld, keepFailed), log) == Some((was, pc))
      requires Holding(pc) && Expects(t, was, pc) && was.legacy == start.legacy
      requires Next(t, was, Self(), e).Some? && Next(t, was, Self(), e).value.0 == Files()
      modifies this`log, this`pc
      ensures Tracked() && pc == Next(t, was, old(Self()), e).value.1
    {
      ActKeepsExpectations(t, was, Self(), e);
      pc := Next(t, was, Self(), e).value.1;
      log := Then(log, e);
    }

    /** discover_caches. */
    method DiscoverCaches() returns (q: seq<Candidate>)
      requires Concrete()
      ensures q == Candidates(t.contract, Files())
    {
      q := [];
      if current.Some? {
        q := q + [Candidate(Current, ReadCurrent(current.value))];
      }
      if legacy.Some? {
        q := q + [Candidate(Historical, ReadLegacy(v3 => ContractValid(platform, v3), legacy.value))];
      }
    }

    /** initialise_v4_cache: its own handler removes a half-made file. */
    method InitialiseV4Cache(fails: bool) returns (ok: bool)
      requires Tracked() && (pc == CreateStart || pc == MigrateStart)
      modifies this
      ensures Tracked() && legacy == old(legacy) && ok == !fails
      ensures ok ==> pc == if old(pc) == CreateStart then CreateDone else Marked
      ensures !ok ==> pc == Stopped && current.None?
    {
      ghost var was := Files();
      current := Some(BLANK_FILE);
      Took(Proceed, was);
      was := Files();
      if fails {
        current := None;
        Took(Raise, was);
        return false;
      }
      current := Some(CompleteFile(if legacy.Some? then Initialised else Created));
      Took(Proceed, was);
      ok := true;
    }

    /** _initialise_destination, after its fresh file: resets the markers. */
    method ResetMarkers()
      requires Tracked() && pc == Marked
      modifies this
      ensures Tracked() && pc == Populating && legacy == old(legacy)
    {
      ghost var was := Files();
      current := Some(current.value.(version := Some(LEGACY_VERSION), marker := Incomplete));
      Took(Proceed, was);
    }

    method WriteRows(rows: V4, ghost e: Event)
      requires Tracked() && pc == Populating
      requires if e == Proceed then Built(t, Files()) == Some(rows) else e == Commit(rows)
      modifies this
      ensures Tracked() && legacy == old(legacy) && pc == if e == Proceed then PhasesDone else Populating
    {
      ghost var was := Files();
      current := Some(current.value.(db := rows));
      Took(e, was);
    }

    /** The population phases; cut short, they leave what was committed so far. */
    method RunPhases(cutShort: bool, partial: V4) returns (ok: bool)
      requires Concrete() && Tracked() && pc == Populating
      modifies this
      ensures Tracked() && legacy == old(legacy) && pc == if ok then PhasesDone else Populating
      ensures ok <==> !cutShort && Built(t, Files()).Some?
    {
      var db := RunPopulation(platform, provider, legacy.value.db, unknown, sample);
      ok := !cutShort && db.Some?;
      WriteRows(if ok then db.value else partial, if ok then Proceed else Commit(partial));
    }

    /** _validate_v4_target. */
    method ValidateTarget() returns (ok: bool)
      requires Tracked() && pc == PhasesDone
      requires Sampled()
      modifies this
      ensures Tracked() && Files() == old(Files()) && pc == if ok then Validated else PhasesDone
      ensures ok <==> Carries(t, legacy.value.db, Built(t, Files()).value)
    {
      ValidationStep(t, Files(), Self());
      if !current.value.intact || !current.value.tables || current.value.marker != Incomplete { return false; }
      ok := RunCertifier(platform, provider, legacy.value.db, current.value.db, unknown, sample);
      if ok {
        Took(Proceed, Files());
      }
    }

    /** _finalise_v4_destination. */
    method Finalise()
      requires Tracked() && pc == Validated
      modifies this
      ensures Tracked() && pc == Finalised && legacy == old(legacy)
    {
      ghost var was := Files();
      current := Some(current.value.(version := Some(CURRENT_VERSION), marker := Final, origin := Migrated));
      Took(Proceed, was);
    }

    /** _verified_active_path. */
    method VerifyActive() returns (ok: bool)
      requires Concrete() && Tracked() && pc in {Adopting, CreateDone, Finalised}
      modifies this
      ensures Tracked() && ok && Files() == old(Files())
      ensures pc == if old(pc) == Finalised then Verified else Running
    {
      var candidates := DiscoverCaches();
      var resolution := ResolveDiscovery(candidates);
      NewestDecides(t.contract, Files());
      ok := resolution == Active;
      Took(Proceed, Files());
    }

    /** The exception handler around the transition. */
    method Abandon()
      requires Tracked() && (CleansUp(pc) || (pc == Stopped && current.None?))
      modifies this
      ensures Tracked() && pc == Stopped && legacy == old(legacy) && (keepFailed || current.None?)
    {
      ghost var was := Files();
      if !keepFailed {
        current := None;
      }
      if pc != Stopped {
        Took(Raise, was);
      }
    }

    /** An exception outside every handler. */
    ghost method Raised()
      requires Tracked() && pc in {Adopting, CreateStart, CreateDone, Verified}
      modifies this`log, this`pc
      ensures Tracked() && pc == Stopped
    {
      Took(Raise, Files());
    }

    /** source.unlink, unless the old cache is to be kept. */
    method UnlinkSource()
      requires Tracked() && pc == Verified
      modifies this
      ensures Tracked() && pc == Running && current == old(current) && old(legacy).Some?
      ensures legacy == if keepOld then old(legacy) else None
      ensures Carries(t, old(legacy).value.db, current.value.db)
    {
      ghost var was := Files();
      if !keepOld {
        legacy := None;
      }
      Took(Proceed, was);
    }

    /** run_logged_transition of execute_v3_to_v4, then _verified_active_path: raises
        at fault, with partial committed when population is cut short. */
    method BuildDestination(fault: Option<Pc>, partial: V4) returns (ok: bool)
      requires Tracked() && pc == MigrateStart
      requires Sampled()
      modifies this
      ensures Tracked() && legacy == old(legacy)
      ensures ok ==> pc == Verified
      ensures !ok ==> CleansUp(pc) || (pc == Stopped && current.None?)
      ensures fault.None? ==> (ok <==> Built(t, Files()).Some? && Carries(t, legacy.value.db, Built(t, Files()).value))
    {
      ok := Construct(fault, partial);
      if ok { ok := Publish(fault); }
    }

    /** Target validation, finalisation and the final discovery. */
    method Publish(fault: Option<Pc>) returns (ok: bool)
      requires Tracked() && pc == PhasesDone && Sampled()
      modifies this
      ensures Tracked() && legacy == old(legacy)
      ensures if ok then pc == Verified else pc.PhasesDone? || pc.Validated? || pc.Finalised?
      ensures fault.None? ==> (ok <==> Carries(t, legacy.value.db, Built(t, Files()).value))
    {
      if fault == Some(PhasesDone) { return false; }
      ok := ValidateTarget();
      if !ok || fault == Some(Validated) { return false; }
      Finalise();
      if fault == Some(Finalised) { return false; }
      ok := VerifyActive();
    }

    method Construct(fault: Option<Pc>, partial: V4) returns (ok: bool)
      requires Concrete() && Tracked() && pc == MigrateStart
      modifies this
      ensures Tracked() && legacy == old(legacy)
      ensures ok ==> pc == PhasesDone
      ensures !ok ==> pc.MigrateStart? || pc.Marked? || pc.Populating? || (pc == Stopped && current.None?)
      ensures fault.None? ==> (ok <==> Built(t, Files()).Some?)
    {
      if fault == Some(MigrateStart) || ReadLegacy(v3 => ContractValid(platform, v3), legacy.value) != Valid { return false; }
      ok := InitialiseV4Cache(fault == Some(MigrateBuilding));
      if !ok || fault == Some(Marked) { return false; }
      ResetMarkers();
      ok := RunPhases(fault == Some(Populating), partial);
    }

    /** One startup under the lock.  It ends running on a complete file or stopped;
        the v3 file goes only in exchange for its certified image. */
    method Run(authorised: bool, fault: Option<Pc>, partial: V4) returns (started: bool)
      requires Tracked() && pc == Resolving
      requires Sampled()
      modifies this
      ensures Tracked() && pc == if started then Running else Stopped
      ensures started ==> CurrentValid(Files())
      ensures !authorised && Resolve(t.contract, old(Files())) == MigrationRequired ==> !started && Files() == old(Files())
      ensures Resolve(t.contract, old(Files())).Blocked? ==> !started && Files() == old(Files())
      ensures Resolve(t.contract, old(Files())) == Active ==> Files() == old(Files())
      ensures started && Resolve(t.contract, old(Files())) == MigrationRequired ==> legacy == if keepOld then old(legacy) else None
      ensures !started && Resolve(t.contract, old(Files())) == MigrationRequired && !keepFailed && fault != Some(Verified) ==>
                Files() == old(Files())
      ensures legacy != old(legacy) ==>
                authorised && started && legacy.None? && !keepOld && Carries(t, old(legacy).value.db, current.value.db)
      ensures authorised && fault.None? ==>
                started == match Resolve(t.contract, old(Files()))
                           case Blocked(_) => false
                           case MigrationRequired =>
                             Built(t, old(Files())).Some? && Carries(t, old(legacy).value.db, Built(t, old(Files())).value)
                           case _ => true
    {
      var candidates := DiscoverCaches();
      var resolution := ResolveDiscovery(candidates);
      NewestDecides(t.contract, Files());
      Took(Discover(authorised), Files());
      match resolution {
        case Blocked(_) =>
          started := false;
        case Active =>
          started := fault != Some(Adopting);
          if started { started := VerifyActive(); } else { Raised(); }
        case FreshRequired =>
          started := CreateFresh(fault);
        case MigrationRequired =>
          if !authorised { return false; }
          started := BuildDestination(fault, partial);
          if !started {
            Abandon();
          } else if fault == Some(Verified) {
            started := false;
            Raised();
          } else {
            UnlinkSource();
          }
      }
    }

    method CreateFresh(fault: Option<Pc>) returns (started: bool)
      requires Concrete() && Tracked() && pc == CreateStart
      modifies this
      ensures Tracked() && legacy == old(legacy) && pc == if started then Running else Stopped
      ensures fault.None? ==> started
    {
      if fault == Some(CreateStart) {
        Raised();
        return false;
      }
      started := InitialiseV4Cache(fault == Some(CreateBuilding));
      if !started { return; }
      if fault == Some(CreateDone) {
        Raised();
        return false;
      }
      started := VerifyActive();
    }
  }
}
