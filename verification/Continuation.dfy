/** Continuation of a collection across interrupted, killed and concurrent invocations
    of the downloader. */
module Continuation {
  import opened Options
  import opened Lists

  // ---- The state and one undisturbed invocation -------------------------------------------

  function Forget(completed: set<(int, int)>, collection: int): set<(int, int)> {
    set k | k in completed && k.0 != collection
  }

  function Members(completed: set<(int, int)>, collection: int): set<int> {
    set k | k in completed && k.0 == collection :: k.1
  }

  /** reconcile_collection_targets: what is left to do, in the original order. */
  function Remaining(targets: seq<int>, completed: set<int>): seq<int> { Kept(targets, t => t !in completed) }

  /** The completions recorded by callbacks for the media in moved: only targets of the
      collection count. */
  function Recorded(completed: set<(int, int)>, collection: int, targets: seq<int>, moved: seq<int>, n: nat): set<(int, int)>
    requires n <= |moved|
  {
    if n == 0 then completed
    else
      var before := Recorded(completed, collection, targets, moved, n - 1);
      if moved[n - 1] in targets then before + {(collection, moved[n - 1])} else before
  }

  predicate AllIn(targets: seq<int>, completed: set<int>) { forall i | 0 <= i < |targets| :: targets[i] in completed }

  /** The table completed_targets. */
  class CollectionState {
    var rows: set<(int, int)>

    constructor ()
      ensures rows == {}
    {
      rows := {};
    }

    method Record(collection: int, target: int)
      modifies this
      ensures rows == old(rows) + {(collection, target)}
    {
      rows := rows + {(collection, target)};
    }

    method Clear(collection: int)
      modifies this
      ensures rows == Forget(old(rows), collection)
    {
      rows := Forget(rows, collection);
    }

    /** record_collection_completion. */
    method RecordCompletion(collection: int, targets: seq<int>, target: int) returns (ok: bool)
      modifies this
      ensures ok <==> target in targets
      ensures rows == if ok then old(rows) + {(collection, target)} else old(rows)
    {
      ok := target in targets;
      if ok {
        Record(collection, target);
      }
    }

    /** One invocation under the collection lock, during which yt-dlp moves some media. */
    method Invoke(collection: int, targets: seq<int>, reset: bool, moved: seq<int>) returns (passed: seq<int>)
      modifies this
      ensures passed == Passes(old(rows), collection, targets, reset)
      ensures rows == Invoked(old(rows), collection, targets, reset, moved)
    {
      if reset {
        Clear(collection);
      }
      ghost var start := rows;
      passed := Remaining(targets, Members(rows, collection));
      if passed != [] {
        for n := 0 to |moved|
          invariant rows == Recorded(start, collection, targets, moved, n)
        {
          var _ := RecordCompletion(collection, targets, moved[n]);
        }
      }
      if AllIn(targets, Members(rows, collection)) {
        Clear(collection);
      }
    }
  }

  // ---- Any number of invocations --------------------------------------------------------------

  /** What happened, in order: history only. */
  datatype Entry =
    | Completion(collection: int, target: int)
    | Reset(collection: int)
    | AllDone(collection: int, targets: seq<int>)
    | Passed(collection: int, targets: seq<int>, passed: seq<int>)

  /** The target was recorded for the collection, and the collection not cleared since. */
  predicate Recent(log: seq<Entry>, collection: int, target: int) {
    if log == [] then false
    else
      match log[|log| - 1]
      case Completion(c, t) => (c == collection && t == target) || Recent(log[..|log| - 1], collection, target)
      case Reset(c) => c != collection && Recent(log[..|log| - 1], collection, target)
      case AllDone(c, _) => c != collection && Recent(log[..|log| - 1], collection, target)
      case Passed(_, _, _) => Recent(log[..|log| - 1], collection, target)
  }

  /** Where an invocation stands.  Read holds what it read of the completed set, None
      where the state could not be read; Observed likewise after yt-dlp has ended. */
  datatype Pc =
    | Start | Entered | Ready | Read(snapshot: Option<set<int>>) | Running(tracked: bool)
    | Observed(seen: set<int>) | Done(orphan: bool)

  datatype Invocation = Invocation(collection: int, targets: seq<int>, reset: bool, pc: Pc)

  datatype World = World(rows: set<(int, int)>, holder: map<int, int>, runs: map<int, Invocation>, log: seq<Entry>)

  predicate Holding(pc: Pc) { !pc.Start? && !pc.Done? }

  /** Events of one invocation; every access to the state may also fail. */
  datatype Event =
    | Acquire | LockFails | ClearForReset | ResetFails | ReadCompleted | ReadFails | PassTargets
    | Callback(target: int)    // also from a yt-dlp that outlived its parent
    | Observe | ClearAll | Finish | Kill

  function Put(w: World, p: int, pc: Pc): World
    requires p in w.runs
  {
    w.(runs := w.runs[p := w.runs[p].(pc := pc)])
  }

  function Released(w: World, p: int): World
    requires p in w.runs
  {
    var i := w.runs[p];
    var orphan := (i.pc.Running? && i.pc.tracked) || i.pc.Observed? || (i.pc.Done? && i.pc.orphan);
    Put(w, p, Done(orphan)).(holder := if Holding(i.pc) then w.holder - {i.collection} else w.holder)
  }

  /** The world after an event, or None when it cannot happen. */
  function Next(w: World, p: int, e: Event): Option<World> {
    if p !in w.runs then None
    else
      var i := w.runs[p];
      match e
      case Acquire =>
        if i.pc.Start? && i.collection !in w.holder
        then Some(Put(w, p, Entered).(holder := w.holder[i.collection := p])) else None
      case LockFails =>   // everything is processed, without continuation
        if i.pc.Start? then Some(Put(w, p, Done(false)).(log := w.log + [Passed(i.collection, i.targets, i.targets)])) else None
      case ClearForReset =>
        if i.pc.Entered? && i.reset
        then Some(Put(w, p, Ready).(rows := Forget(w.rows, i.collection), log := w.log + [Reset(i.collection)])) else None
      case ResetFails => if i.pc.Entered? && i.reset then Some(Put(w, p, Read(None))) else None
      case ReadCompleted =>
        if (i.pc.Entered? && !i.reset) || i.pc.Ready?
        then Some(Put(w, p, Read(Some(Members(w.rows, i.collection))))) else None
      case ReadFails => if (i.pc.Entered? && !i.reset) || i.pc.Ready? then Some(Put(w, p, Read(None))) else None
      case PassTargets =>
        if i.pc.Read? then
          var passed := Remaining(i.targets, if i.pc.snapshot.Some? then i.pc.snapshot.value else {});
          Some(Put(w, p, Running(i.pc.snapshot.Some?)).(log := w.log + [Passed(i.collection, i.targets, passed)]))
        else None
      case Callback(t) =>
        if t in i.targets && ((i.pc.Running? && i.pc.tracked) || i.pc.Observed? || (i.pc.Done? && i.pc.orphan))
        then Some(w.(rows := w.rows + {(i.collection, t)}, log := w.log + [Completion(i.collection, t)])) else None
      case Observe => if i.pc.Running? && i.pc.tracked then Some(Put(w, p, Observed(Members(w.rows, i.collection)))) else None
      case ClearAll =>
        if i.pc.Observed? && AllIn(i.targets, i.pc.seen)
        then Some(Released(w, p).(rows := Forget(w.rows, i.collection), log := w.log + [AllDone(i.collection, i.targets)])) else None
      case Finish =>
        if i.pc.Running? || (i.pc.Observed? && !AllIn(i.targets, i.pc.seen)) then Some(Released(w, p)) else None
      case Kill => if i.pc.Done? then None else Some(Released(w, p))
  }

  ghost predicate Initial(w: World) {
    w.rows == {} && w.holder == map[] && w.log == []
    && forall p {:trigger w.runs[p]} | p in w.runs :: w.runs[p].pc.Start?
  }

  ghost predicate IsRun(worlds: seq<World>, events: seq<(int, Event)>) {
    && |worlds| == |events| + 1 && Initial(worlds[0])
    && forall i | 0 <= i < |events| :: Next(worlds[i], events[i].0, events[i].1) == Some(worlds[i + 1])
  }

  // ---- What the log proves -----------------------------------------------------------------------

  /** An entry that only a sound invocation makes: a target left out was recorded since
      the last clear, and a clear without a reset found every target recorded. */
  ghost predicate Justified(log: seq<Entry>, e: Entry) {
    match e
    case Passed(c, targets, passed) =>
      && passed == Kept(targets, t => t in passed)
      && forall i | 0 <= i < |targets| && targets[i] !in passed :: Recent(log, c, targets[i])
    case AllDone(c, targets) => forall i | 0 <= i < |targets| :: Recent(log, c, targets[i])
    case _ => true
  }

  ghost predicate Sound(log: seq<Entry>) { forall i | 0 <= i < |log| :: Justified(log[..i], log[i]) }

  ghost predicate Tracks(rows: set<(int, int)>, log: seq<Entry>) {
    forall k: (int, int) {:trigger k in rows} :: k in rows <==> Recent(log, k.0, k.1)
  }

  predicate Holds(w: World, p: int)
    requires p in w.runs
  {
    w.runs[p].collection in w.holder && w.holder[w.runs[p].collection] == p
  }

  ghost predicate Locked(w: World) {
    forall p {:trigger w.runs[p]} | p in w.runs && Holding(w.runs[p].pc) :: Holds(w, p)
  }

  /** What an invocation read is still in the state. */
  predicate StillThere(rows: set<(int, int)>, i: Invocation) {
    match i.pc
    case Read(Some(s)) => forall t | t in s :: (i.collection, t) in rows
    case Observed(s) => forall t | t in s :: (i.collection, t) in rows
    case _ => true
  }

  ghost predicate ReadsHold(w: World) {
    forall p {:trigger w.runs[p]} | p in w.runs :: StillThere(w.rows, w.runs[p])
  }

  ghost predicate Invariant(w: World) { Tracks(w.rows, w.log) && Locked(w) && ReadsHold(w) && Sound(w.log) }

  lemma LogMore(log: seq<Entry>, e: Entry)
    requires Sound(log) && Justified(log, e)
    ensures Sound(log + [e])
  {
    forall i | 0 <= i < |log| + 1 ensures Justified((log + [e])[..i], (log + [e])[i]) {
      assert (log + [e])[..i] == log[..i];
      if i == |log| {
        assert log[..i] == log;
      }
    }
  }

  lemma TracksMore(rows: set<(int, int)>, log: seq<Entry>, e: Entry)
    requires Tracks(rows, log)
    ensures Tracks(match e
                   case Completion(c, t) => rows + {(c, t)}
                   case Reset(c) => Forget(rows, c)
                   case AllDone(c, _) => Forget(rows, c)
                   case Passed(_, _, _) => rows, log + [e])
  {
    assert (log + [e])[..|log|] == log;
  }

  lemma KeptIsKept(targets: seq<int>, completed: set<int>)
    ensures var passed := Remaining(targets, completed);
            && passed == Kept(targets, t => t in passed)
            && forall i | 0 <= i < |targets| :: targets[i] in passed <==> targets[i] !in completed
  {
    var passed := Remaining(targets, completed);
    forall i | 0 <= i < |targets| ensures targets[i] in passed <==> targets[i] !in completed {
      KeptMember(targets, t => t !in completed, targets[i]);
    }
    KeptSame(targets, t => t !in completed, t => t in passed);
  }

  lemma StepKeepsLocks(w: World, p: int, e: Event)
    requires Locked(w) && Next(w, p, e).Some?
    ensures Locked(Next(w, p, e).value)
  {
    var v := Next(w, p, e).value;
    forall r | r in v.runs && Holding(v.runs[r].pc) ensures Holds(v, r) {
      if r != p {
        assert Holding(w.runs[r].pc) && Holds(w, r);
      }
    }
  }

  /** Only the holder of a collection's lock clears it, so nobody else's reading of it
      goes stale. */
  lemma StepKeepsReads(w: World, p: int, e: Event)
    requires Locked(w) && ReadsHold(w) && Next(w, p, e).Some?
    ensures ReadsHold(Next(w, p, e).value)
  {
    var v := Next(w, p, e).value;
    forall r | r in v.runs ensures StillThere(v.rows, v.runs[r]) {
      assert StillThere(w.rows, w.runs[r]);
      if r != p && Holding(w.runs[r].pc) && (e.ClearForReset? || e.ClearAll?) {
        assert Holds(w, p) && Holds(w, r);
      }
    }
  }

  lemma StepIsJustified(w: World, p: int, e: Event)
    requires Tracks(w.rows, w.log) && ReadsHold(w) && Next(w, p, e).Some?
    requires Sound(w.log)
    ensures Sound(Next(w, p, e).value.log) && Tracks(Next(w, p, e).value.rows, Next(w, p, e).value.log)
  {
    var v, i := Next(w, p, e).value, w.runs[p];
    assert StillThere(w.rows, i);
    if |v.log| > |w.log| {
      var entry := v.log[|w.log|];
      TracksMore(w.rows, w.log, entry);
      if e.PassTargets? {
        KeptIsKept(i.targets, if i.pc.snapshot.Some? then i.pc.snapshot.value else {});
        forall j | 0 <= j < |i.targets| && i.targets[j] !in entry.passed ensures Recent(w.log, i.collection, i.targets[j]) {
          assert (i.collection, i.targets[j]) in w.rows;
        }
      } else if e.LockFails? {
        AllKept(i.targets);
      } else if e.ClearAll? {
        forall j | 0 <= j < |i.targets| ensures Recent(w.log, i.collection, i.targets[j]) {
          assert (i.collection, i.targets[j]) in w.rows;
        }
      }
      LogMore(w.log, entry);
    }
  }

  lemma AllKept(targets: seq<int>)
    ensures Kept(targets, t => t in targets) == targets
  {
    KeptAll(targets, t => t in targets);
  }

  /** Across any interleaving of invocations, failures, kills and late callbacks: the
      state is exactly what was recorded since the last clear, and every entry of the
      history is justified by what came before it. */
  lemma {:induction false} EveryRunIsSound(worlds: seq<World>, events: seq<(int, Event)>, n: nat)
    requires IsRun(worlds, events) && n < |worlds|
    ensures Invariant(worlds[n])
  {
    if n > 0 {
      EveryRunIsSound(worlds, events, n - 1);
      var (p, e) := events[n - 1];
      StepKeepsLocks(worlds[n - 1], p, e);
      StepKeepsReads(worlds[n - 1], p, e);
      StepIsJustified(worlds[n - 1], p, e);
    }
  }

  /** A target is left out only if a callback recorded it for that collection since the
      last clear, and the targets passed are the collection's own, in its order. */
  lemma SkippedWasRecorded(worlds: seq<World>, events: seq<(int, Event)>, n: nat, i: nat, t: int)
    requires IsRun(worlds, events) && n < |worlds| && i < |worlds[n].log| && worlds[n].log[i].Passed?
    ensures var e := worlds[n].log[i];
            && e.passed == Kept(e.targets, t => t in e.passed)
            && (t in e.targets && t !in e.passed ==> exists j :: RecordedAt(worlds[n].log, j, i, e.collection, t))
  {
    EveryRunIsSound(worlds, events, n);
    var log, e := worlds[n].log, worlds[n].log[i];
    assert Justified(log[..i], e);
    if t in e.targets && t !in e.passed {
      var k :| 0 <= k < |e.targets| && e.targets[k] == t;
      var j := RecentIsRecorded(log[..i], e.collection, t);
      assert RecordedAt(log, j, i, e.collection, t);
    }
  }

  predicate Clears(e: Entry, collection: int) { (e.Reset? || e.AllDone?) && e.collection == collection }

  /** Entry j records the target, and nothing between j and i clears the collection. */
  ghost predicate RecordedAt(log: seq<Entry>, j: int, i: int, collection: int, target: int)
    requires i <= |log|
  {
    && 0 <= j < i && log[j] == Completion(collection, target)
    && forall k | j < k < i :: !Clears(log[k], collection)
  }

  lemma {:induction false} RecentIsRecorded(log: seq<Entry>, collection: int, target: int) returns (j: int)
    requires Recent(log, collection, target)
    ensures RecordedAt(log, j, |log|, collection, target)
  {
    var last := |log| - 1;
    if log[last] == Completion(collection, target) {
      j := last;
    } else {
      j := RecentIsRecorded(log[..last], collection, target);
      assert log[..last][j] == log[j];
      forall k | j < k < |log| ensures !Clears(log[k], collection) {
        if k < last {
          assert log[..last][k] == log[k];
        }
      }
    }
  }

  /** State is cleared only by a reset, or when every target of the collection has been
      recorded since the clear before. */
  lemma ClearedWhenComplete(worlds: seq<World>, events: seq<(int, Event)>, n: nat, i: nat, t: int)
    requires IsRun(worlds, events) && n < |worlds| && i < |worlds[n].log| && worlds[n].log[i].AllDone?
    ensures t in worlds[n].log[i].targets ==> exists j :: RecordedAt(worlds[n].log, j, i, worlds[n].log[i].collection, t)
  {
    EveryRunIsSound(worlds, events, n);
    var log, e := worlds[n].log, worlds[n].log[i];
    assert Justified(log[..i], e);
    if t in e.targets {
      var k :| 0 <= k < |e.targets| && e.targets[k] == t;
      var j := RecentIsRecorded(log[..i], e.collection, t);
      assert RecordedAt(log, j, i, e.collection, t);
    }
  }

  // ---- What one invocation does ---------------------------------------------------------------

  lemma {:induction false} RecordedIs(completed: set<(int, int)>, collection: int, targets: seq<int>, moved: seq<int>, n: nat, k: (int, int))
    requires n <= |moved|
    ensures k in Recorded(completed, collection, targets, moved, n)
            <==> k in completed || (k.0 == collection && k.1 in targets && k.1 in moved[..n])
  {
    if n > 0 {
      RecordedIs(completed, collection, targets, moved, n - 1, k);
      assert moved[..n] == moved[..n - 1] + [moved[n - 1]];
    }
  }

  /** The state after one undisturbed invocation. */
  function Invoked(rows: set<(int, int)>, collection: int, targets: seq<int>, reset: bool, moved: seq<int>): set<(int, int)> {
    var start := if reset then Forget(rows, collection) else rows;
    var after := if Passes(rows, collection, targets, reset) == [] then start
                 else Recorded(start, collection, targets, moved, |moved|);
    if AllIn(targets, Members(after, collection)) then Forget(after, collection) else after
  }

  function Passes(rows: set<(int, int)>, collection: int, targets: seq<int>, reset: bool): seq<int> {
    Remaining(targets, Members(if reset then Forget(rows, collection) else rows, collection))
  }

  /** In plain terms: the targets passed are those not yet recorded, all of them after a
      reset; afterwards the collection has what was recorded before and what was moved
      now, or nothing if that is every target; other collections are as they were. */
  lemma InvocationMeans(rows: set<(int, int)>, collection: int, targets: seq<int>, reset: bool, moved: seq<int>, c: int, t: int)
    ensures t in Passes(rows, collection, targets, reset) <==> t in targets && (reset || (collection, t) !in rows)
    ensures var was := (u: int) => !reset && (collection, u) in rows;
            var now := (u: int) => was(u) || (u in targets && u in moved && exists v :: v in targets && !was(v));
            && (c != collection ==> ((c, t) in Invoked(rows, collection, targets, reset, moved) <==> (c, t) in rows))
            && (c == collection ==> ((c, t) in Invoked(rows, collection, targets, reset, moved)
                                     <==> now(t) && exists u :: u in targets && !now(u)))
  {
    var start := if reset then Forget(rows, collection) else rows;
    RemainingIs(start, collection, targets, t);
    NothingRemains(start, collection, targets);
    var after := if Passes(rows, collection, targets, reset) == [] then start
                 else Recorded(start, collection, targets, moved, |moved|);
    AllInMeans(targets, after, collection);
    assert moved[..|moved|] == moved;
    forall k: (int, int) ensures k in Recorded(start, collection, targets, moved, |moved|)
                                 <==> k in start || (k.0 == collection && k.1 in targets && k.1 in moved)
    {
      RecordedIs(start, collection, targets, moved, |moved|, k);
    }
  }

  lemma MembersAre(rows: set<(int, int)>, collection: int, t: int)
    ensures t in Members(rows, collection) <==> (collection, t) in rows
  {
    assert (collection, t) in rows ==> (collection, t).1 == t;
  }

  lemma RemainingIs(rows: set<(int, int)>, collection: int, targets: seq<int>, t: int)
    ensures t in Remaining(targets, Members(rows, collection)) <==> t in targets && (collection, t) !in rows
  {
    KeptMember(targets, t => t !in Members(rows, collection), t);
    MembersAre(rows, collection, t);
  }

  lemma NothingRemains(rows: set<(int, int)>, collection: int, targets: seq<int>)
    ensures Remaining(targets, Members(rows, collection)) == [] <==> forall u :: u in targets ==> (collection, u) in rows
  {
    var rest := Remaining(targets, Members(rows, collection));
    forall u: int ensures u in rest <==> u in targets && (collection, u) !in rows {
      RemainingIs(rows, collection, targets, u);
    }
    if rest == [] {
      forall u | u in targets ensures (collection, u) in rows {
        assert u !in rest;
      }
    } else {
      var u := rest[0];
      assert u in rest;
      assert !(u in targets ==> (collection, u) in rows);
    }
  }

  lemma AllInMeans(targets: seq<int>, rows: set<(int, int)>, collection: int)
    ensures AllIn(targets, Members(rows, collection)) <==> forall u :: u in targets ==> (collection, u) in rows
  {
    forall u: int ensures u in Members(rows, collection) <==> (collection, u) in rows {
      MembersAre(rows, collection, u);
    }
    if forall u :: u in targets ==> (collection, u) in rows {
      forall i | 0 <= i < |targets| ensures targets[i] in Members(rows, collection) {
        assert targets[i] in targets;
      }
    }
  }

  // ---- The steps of one invocation -------------------------------------------------------------

  /** The world after the first n events, or None where one of them cannot happen. */
  function Along<W, E>(step: (W, E) -> Option<W>, w: W, events: seq<E>, n: nat): Option<W>
    requires n <= |events|
  {
    if n == 0 then Some(w)
    else
      match Along(step, w, events, n - 1)
      case None => None
      case Some(v) => step(v, events[n - 1])
  }

  predicate Reaches<W(==), E>(step: (W, E) -> Option<W>, w: W, events: seq<E>, v: W) {
    Along(step, w, events, |events|) == Some(v)
  }

  lemma {:induction false} AlongSame<W, E>(step: (W, E) -> Option<W>, w: W, a: seq<E>, b: seq<E>, n: nat)
    requires n <= |a| && n <= |b| && a[..n] == b[..n]
    ensures Along(step, w, a, n) == Along(step, w, b, n)
  {
    if n > 0 {
      assert a[..n][n - 1] == b[..n][n - 1] && a[..n][..n - 1] == a[..n - 1] && b[..n][..n - 1] == b[..n - 1];
      AlongSame(step, w, a, b, n - 1);
    }
  }

  lemma {:induction false} AlongTwice<W, E>(step: (W, E) -> Option<W>, w: W, a: seq<E>, u: W, b: seq<E>, v: W, n: nat)
    requires Reaches(step, w, a, u) && n <= |b| && Along(step, u, b, n) == Some(v)
    ensures Along(step, w, a + b, |a| + n) == Some(v)
    decreases n
  {
    if n == 0 {
      assert (a + b)[..|a|] == a == a[..|a|];
      AlongSame(step, w, a + b, a, |a|);
    } else {
      AlongTwice(step, w, a, u, b, Along(step, u, b, n - 1).value, n - 1);
    }
  }

  lemma ReachesOn<W, E>(step: (W, E) -> Option<W>, w: W, a: seq<E>, u: W, b: seq<E>, v: W)
    requires Reaches(step, w, a, u) && Reaches(step, u, b, v)
    ensures Reaches(step, w, a + b, v)
  {
    AlongTwice(step, w, a, u, b, v, |b|);
  }

  lemma ReachesOne<W, E>(step: (W, E) -> Option<W>, w: W, e: E, v: W)
    requires step(w, e) == Some(v)
    ensures Reaches(step, w, [e], v)
  {
    assert Along(step, w, [e], 0) == Some(w);
  }

  type Stepper = (World, Event) -> Option<World>

  /** The events of one invocation, while every other one rests. */
  ghost predicate Moves(step: Stepper, p: int) {
    forall w: World, e: Event {:trigger step(w, e)} :: step(w, e) == Next(w, p, e)
  }

  /** The callbacks for the media in moved, one after the other. */
  lemma {:induction false} CallbacksRun(step: Stepper, w: World, p: int, moved: seq<int>, n: nat) returns (events: seq<Event>, v: World)
    requires Moves(step, p) && p in w.runs && w.runs[p].pc == Running(true) && n <= |moved|
    ensures Reaches(step, w, events, v) && v.runs == w.runs && v.holder == w.holder
    ensures v.rows == Recorded(w.rows, w.runs[p].collection, w.runs[p].targets, moved, n)
  {
    if n == 0 {
      events, v := [], w;
    } else {
      events, v := CallbacksRun(step, w, p, moved, n - 1);
      if moved[n - 1] in w.runs[p].targets {
        var u := Next(v, p, Callback(moved[n - 1])).value;
        ReachesOne(step, v, Callback(moved[n - 1]), u);
        ReachesOn(step, w, events, v, [Callback(moved[n - 1])], u);
        events, v := events + [Callback(moved[n - 1])], u;
      }
    }
  }

  /** Up to yt-dlp's start: the reset, the reading, and the targets passed. */
  lemma StartRuns(step: Stepper, w: World, p: int) returns (events: seq<Event>, v: World)
    requires Moves(step, p) && p in w.runs && w.runs[p].pc.Start? && w.runs[p].collection !in w.holder
    ensures var i := w.runs[p];
            && Reaches(step, w, events, v) && v.runs == w.runs[p := i.(pc := Running(true))]
            && v.holder == w.holder[i.collection := p]
            && v.rows == (if i.reset then Forget(w.rows, i.collection) else w.rows)
            && v.log == w.log + (if i.reset then [Reset(i.collection)] else [])
                        + [Entry.Passed(i.collection, i.targets, Passes(w.rows, i.collection, i.targets, i.reset))]
  {
    var i := w.runs[p];
    var a := Next(w, p, Acquire).value;
    ReachesOne(step, w, Acquire, a);
    events := [Acquire];
    if i.reset {
      var c := Next(a, p, ClearForReset).value;
      ReachesOne(step, a, ClearForReset, c);
      ReachesOn(step, w, events, a, [ClearForReset], c);
      events, a := events + [ClearForReset], c;
    }
    var more;
    more, v := ReadAndPass(step, a, p);
    ReachesOn(step, w, events, a, more, v);
    events := events + more;
  }

  lemma ReadAndPass(step: Stepper, w: World, p: int) returns (events: seq<Event>, v: World)
    requires Moves(step, p) && p in w.runs && (w.runs[p].pc.Ready? || (w.runs[p].pc.Entered? && !w.runs[p].reset))
    ensures var i := w.runs[p];
            && Reaches(step, w, events, v) && v.holder == w.holder && v.rows == w.rows
            && v.runs == w.runs[p := i.(pc := Running(true))]
            && v.log == w.log + [Entry.Passed(i.collection, i.targets, Remaining(i.targets, Members(w.rows, i.collection)))]
  {
    var r := Next(w, p, ReadCompleted).value;
    v := Next(r, p, PassTargets).value;
    ReachesOne(step, w, ReadCompleted, r);
    ReachesOne(step, r, PassTargets, v);
    ReachesOn(step, w, [ReadCompleted], r, [PassTargets], v);
    events := [ReadCompleted] + [PassTargets];
  }

  lemma EndRuns(step: Stepper, w: World, p: int) returns (events: seq<Event>, v: World)
    requires Moves(step, p) && p in w.runs && w.runs[p].pc == Running(true)
    ensures var i := w.runs[p];
            && Reaches(step, w, events, v) && v.runs[p].pc.Done? && v.holder == w.holder - {i.collection}
            && v.rows == if AllIn(i.targets, Members(w.rows, i.collection)) then Forget(w.rows, i.collection) else w.rows
  {
    var u := Next(w, p, Observe).value;
    var last := if AllIn(w.runs[p].targets, u.runs[p].pc.seen) then ClearAll else Finish;
    v := Next(u, p, last).value;
    ReachesOne(step, w, Observe, u);
    ReachesOne(step, u, last, v);
    ReachesOn(step, w, [Observe], u, [last], v);
    events := [Observe] + [last];
  }

  /** An invocation that nobody disturbs can take its steps to the end, and what they do to
      the state is what the invocation does as a whole. */
  lemma UndisturbedRuns(step: Stepper, w: World, p: int, moved: seq<int>) returns (events: seq<Event>, v: World)
    requires Moves(step, p) && p in w.runs && w.runs[p].pc.Start? && w.runs[p].collection !in w.holder
    requires Passes(w.rows, w.runs[p].collection, w.runs[p].targets, w.runs[p].reset) == [] ==> moved == []
    ensures var i := w.runs[p];
            && Reaches(step, w, events, v) && v.runs[p].pc.Done? && v.holder == w.holder
            && v.rows == Invoked(w.rows, i.collection, i.targets, i.reset, moved)
  {
    var a, s := StartRuns(step, w, p);
    var b, m := CallbacksRun(step, s, p, moved, |moved|);
    var c, d := EndRuns(step, m, p);
    ReachesOn(step, w, a, s, b, m);
    ReachesOn(step, w, a + b, m, c, d);
    events, v := a + b + c, d;
  }

  // ---- Failures ----------------------------------------------------------------------------------

  /** yt-dlp was started for this invocation with its completions tracked, and may still
      be alive. */
  predicate Tracking(pc: Pc) { pc == Running(true) || pc.Observed? || pc == Done(true) }

  /** A completion is recorded exactly for a target of the collection whose yt-dlp is
      tracked, even when the invocation is gone. */
  lemma CallbackExactly(w: World, p: int, t: int)
    requires p in w.runs
    ensures Next(w, p, Callback(t)).Some? <==> t in w.runs[p].targets && Tracking(w.runs[p].pc)
    ensures Next(w, p, Callback(t)).Some? ==>
              var v := Next(w, p, Callback(t)).value;
              v.rows == w.rows + {(w.runs[p].collection, t)} && v.runs == w.runs && v.holder == w.holder
  {
  }

  /** A kill is possible until the end.  It frees the lock if it was held, leaves the state
      as it is, and yt-dlp may go on. */
  lemma KillLeaves(w: World, p: int)
    requires p in w.runs
    ensures Next(w, p, Kill).Some? <==> !w.runs[p].pc.Done?
    ensures Next(w, p, Kill).Some? ==>
              var v := Next(w, p, Kill).value;
              && v.rows == w.rows && v.log == w.log
              && v.runs == w.runs[p := w.runs[p].(pc := Done(Tracking(w.runs[p].pc)))]
              && v.holder == if w.runs[p].pc.Start? then w.holder else w.holder - {w.runs[p].collection}
  {
  }

  /** Where the lock fails, every target is processed and nothing recorded. */
  lemma LockFailurePassesAll(w: World, p: int)
    requires p in w.runs
    ensures Next(w, p, LockFails).Some? <==> w.runs[p].pc.Start?
    ensures Next(w, p, LockFails).Some? ==>
              var v := Next(w, p, LockFails).value;
              v.rows == w.rows && v.runs[p].pc == Done(false) && Last(v.log) == Some(AllOf(w.runs[p]))
  {
  }

  /** So it is where the state cannot be reset, or cannot be read. */
  lemma StateFailurePassesAll(w: World, p: int, e: Event)
    requires p in w.runs && (e == ResetFails || e == ReadFails)
    ensures Next(w, p, e).Some? <==>
              if e == ResetFails then w.runs[p].pc.Entered? && w.runs[p].reset
              else w.runs[p].pc.Ready? || (w.runs[p].pc.Entered? && !w.runs[p].reset)
    ensures Next(w, p, e).Some? ==>
              var v := Next(w, p, e).value;
              v.rows == w.rows && Next(v, p, PassTargets).Some? && Untracked(w, p, Next(v, p, PassTargets).value)
  {
    NothingCompleted(w.runs[p].targets);
  }

  /** All targets were passed, and the state will stay as it is. */
  predicate Untracked(w: World, p: int, v: World)
    requires p in w.runs
  {
    && v.rows == w.rows && Last(v.log) == Some(AllOf(w.runs[p]))
    && p in v.runs && v.runs[p].pc == Running(false)
    && Next(v, p, Observe).None? && Next(v, p, Finish).Some? && !Tracking(Next(v, p, Finish).value.runs[p].pc)
  }

  function Last(log: seq<Entry>): Option<Entry> { if log == [] then None else Some(log[|log| - 1]) }

  function AllOf(i: Invocation): Entry { Entry.Passed(i.collection, i.targets, i.targets) }

  lemma {:induction false} NothingCompleted(targets: seq<int>)
    ensures Remaining(targets, {}) == targets
  {
    var none: set<int> := {};
    KeptAll(targets, t => t !in none);
  }
}
