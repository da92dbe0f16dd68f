/** Incremental enumeration of a newest-first source: stop at a confirmed overlap with
    the stored ordering, and rebuild the whole ordering from the part seen. */
module SourceFrontier {
  import opened Options
  import opened Lists

  const CONFIRMATIONS: nat := 5

  function Ids(q: seq<int>): set<int> { set id | id in q }

  /** How many known ids in a row end the first n entries. */
  function Run(ids: seq<Option<int>>, known: set<int>, n: nat): nat
    requires n <= |ids|
  {
    if n == 0 then 0
    else if ids[n - 1].Some? && ids[n - 1].value in known then Run(ids, known, n - 1) + 1
    else 0
  }

  predicate Knows(known: set<int>, id: Option<int>) { id.Some? && id.value in known }

  /** The run is of known ids up to n, and nothing known stands before it. */
  lemma {:induction false} RunIs(ids: seq<Option<int>>, known: set<int>, n: nat)
    requires n <= |ids|
    ensures var r := Run(ids, known, n);
            && r <= n && (forall i | n - r <= i < n :: Knows(known, ids[i]))
            && (r == n || !Knows(known, ids[n - r - 1]))
  {
    if n > 0 {
      RunIs(ids, known, n - 1);
    }
  }

  /** The overlap is confirmed at n, and not before. */
  ghost predicate ConfirmedAt(ids: seq<Option<int>>, known: set<int>, n: nat) {
    n <= |ids| && Run(ids, known, n) >= CONFIRMATIONS && forall m | 0 <= m < n :: Run(ids, known, m) < CONFIRMATIONS
  }

  /** enumerate_until_known_overlap: reads entries until enough known ids in a row. */
  method EnumerateUntilOverlap(ids: seq<Option<int>>, known: set<int>) returns (n: nat, stopped: bool)
    ensures n <= |ids|
    ensures stopped ==> ConfirmedAt(ids, known, n)
    ensures !stopped ==> n == |ids| && forall m | 0 <= m <= n :: Run(ids, known, m) < CONFIRMATIONS
  {
    var consecutive := 0;
    n := 0;
    while n < |ids|
      invariant n <= |ids| && consecutive == Run(ids, known, n)
      invariant forall m | 0 <= m <= n :: Run(ids, known, m) < CONFIRMATIONS
    {
      n := n + 1;
      consecutive := if ids[n - 1].Some? && ids[n - 1].value in known then consecutive + 1 else 0;
      if consecutive >= CONFIRMATIONS { return n, true; }
    }
    stopped := false;
  }

  /** The distinct usable ids of the entries read, in order. */
  function Current(ids: seq<Option<int>>, n: nat): seq<int>
    requires n <= |ids|
  {
    if n == 0 then []
    else
      var before := Current(ids, n - 1);
      if ids[n - 1].None? || ids[n - 1].value in before then before else before + [ids[n - 1].value]
  }

  /** Each id that an entry read shows is there once, and further entries only add at the
      end: the order is that of first appearance. */
  lemma {:induction false} CurrentIs(ids: seq<Option<int>>, n: nat, m: nat, id: int)
    requires m <= n <= |ids|
    ensures NoDuplicates(Current(ids, n)) && Current(ids, m) <= Current(ids, n)
    ensures id in Current(ids, n) <==> exists i :: 0 <= i < n && ids[i] == Some(id)
  {
    if n > 0 {
      CurrentIs(ids, n - 1, if m < n then m else n - 1, id);
      if ids[n - 1].Some? {
        CurrentIs(ids, n - 1, n - 1, ids[n - 1].value);
      }
    }
  }

  function Rebuilt(current: seq<int>, prior: seq<int>): seq<int> {
    current + Kept(prior, id => id !in current)
  }

  /** What one scan of a listing shows when prior is stored: a confirmed overlap and the
      rebuilt ordering, or everything listed. */
  ghost predicate Shows(ids: seq<Option<int>>, prior: seq<int>, incremental: bool, observed: seq<int>, confirmed: bool) {
    if confirmed then
      && incremental && prior != []
      && exists n: nat :: ConfirmedAt(ids, Ids(prior), n) && observed == Rebuilt(Current(ids, n), prior)
    else observed == Current(ids, |ids|)
  }

  /** The ordering one scan observes. */
  method Observe(ids: seq<Option<int>>, prior: seq<int>, incremental: bool) returns (observed: seq<int>, confirmed: bool)
    ensures Shows(ids, prior, incremental, observed, confirmed)
    ensures incremental && prior != [] ==> (confirmed <==> exists n: nat :: ConfirmedAt(ids, Ids(prior), n))
  {
    var n := |ids|;
    confirmed := false;
    var known := Ids(prior);
    if incremental && prior != [] {
      n, confirmed := EnumerateUntilOverlap(ids, known);
    }
    var current := ReadEntries(ids, n);
    if confirmed {
      observed := Rebuilt(current, prior);
    } else {
      observed := current;
    }
  }

  method ReadEntries(ids: seq<Option<int>>, n: nat) returns (current: seq<int>)
    requires n <= |ids|
    ensures current == Current(ids, n)
  {
    current := [];
    for i := 0 to n
      invariant current == Current(ids, i)
    {
      if ids[i].None? || ids[i].value in current { continue; }
      current := current + [ids[i].value];
    }
  }

  // ---- Listings of a source -------------------------------------------------------------

  /** What a full listing of a source with this ordering shows. */
  function Listing(source: seq<int>): seq<Option<int>> { seq(|source|, i requires 0 <= i < |source| => Some(source[i])) }

  lemma {:induction false} CurrentOfListing(source: seq<int>, n: nat)
    requires NoDuplicates(source) && n <= |source|
    ensures Current(Listing(source), n) == source[..n]
  {
    if n > 0 {
      CurrentOfListing(source, n - 1);
      assert source[..n] == source[..n - 1] + [source[n - 1]];
    }
  }

  /** A confirmed scan reproduces the source exactly when the part it did not read is the
      stored ordering without the ids it read. */
  lemma ConfirmedIsExact(source: seq<int>, prior: seq<int>, n: nat)
    requires NoDuplicates(source) && n <= |source|
    ensures Rebuilt(Current(Listing(source), n), prior) == source
            <==> source[n..] == Kept(prior, id => id !in source[..n])
  {
    CurrentOfListing(source, n);
    assert source == source[..n] + source[n..];
    KeptSame(prior, id => id !in Current(Listing(source), n), id => id !in source[..n]);
    var tail := Kept(prior, id => id !in source[..n]);
    if source[..n] + tail == source {
      assert (source[..n] + tail)[n..] == tail;
    }
  }

  lemma {:induction false} RunInGrowth(head: seq<int>, prior: seq<int>, known: set<int>, n: nat)
    requires NoDuplicates(head + prior) && n <= |head| + |prior|
    requires forall id :: id in known <==> id in prior
    ensures Run(Listing(head + prior), known, n) == if n <= |head| then 0 else n - |head|
  {
    var source := head + prior;
    if n > 0 {
      RunInGrowth(head, prior, known, n - 1);
      if n <= |head| {
        assert source[n - 1] == head[n - 1];
        forall j | 0 <= j < |prior| ensures prior[j] != head[n - 1] {
          assert source[|head| + j] == prior[j];
        }
      } else {
        assert source[n - 1] == prior[n - 1 - |head|];
      }
    }
  }

  lemma {:induction false} KeptTail(q: seq<int>, k: nat, seen: seq<int>)
    requires NoDuplicates(q) && k <= |q|
    requires forall i | 0 <= i < |q| :: q[i] in seen <==> i < k
    ensures Kept(q, id => id !in seen) == q[k..]
  {
    if |q| > k {
      var front := q[..|q| - 1];
      KeptTail(front, k, seen);
      assert q[k..] == front[k..] + [q[|q| - 1]];
    } else {
      KeptNone(q, id => id !in seen);
    }
  }

  /** A source that gained entries only at its head is reproduced by a confirmed scan. */
  lemma HeadGrowthIsExact(head: seq<int>, prior: seq<int>, known: set<int>, n: nat)
    requires NoDuplicates(head + prior) && forall id :: id in known <==> id in prior
    requires ConfirmedAt(Listing(head + prior), known, n)
    ensures Rebuilt(Current(Listing(head + prior), n), prior) == head + prior
  {
    var source := head + prior;
    RunInGrowth(head, prior, known, n);
    var k := n - |head|;
    assert source[..n] == head + prior[..k] && source[n..] == prior[k..];
    assert NoDuplicates(prior) by {
      forall i, j | 0 <= i < j < |prior| ensures prior[i] != prior[j] {
        assert source[|head| + i] != source[|head| + j];
      }
    }
    forall i | 0 <= i < |prior| ensures prior[i] in source[..n] <==> i < k {
      assert source[|head| + i] == prior[i];
      if i < k {
        assert source[..n][|head| + i] == prior[i];
      }
    }
    KeptTail(prior, k, source[..n]);
    ConfirmedIsExact(source, prior, n);
  }

  /** Losing an entry below the overlap goes unnoticed: the stored tail keeps it. */
  lemma DeletedTailStays()
    ensures var source, prior := [1, 2, 3, 4, 5], [1, 2, 3, 4, 5, 6];
            && ConfirmedAt(Listing(source), Ids(prior), 5)
            && Rebuilt(Current(Listing(source), 5), prior) == prior != source
  {
    var source, prior := [1, 2, 3, 4, 5], [1, 2, 3, 4, 5, 6];
    var known := Ids(prior);
    forall m: nat | m <= 5 ensures Run(Listing(source), known, m) == m {
      AllKnown(source, known, m);
    }
    CurrentOfListing(source, 5);
    assert source[..5] == source;
    KeptTail(prior, 5, source);
    assert prior == source + prior[5..];
  }

  lemma {:induction false} AllKnown(source: seq<int>, known: set<int>, n: nat)
    requires n <= |source| && forall i | 0 <= i < |source| :: source[i] in known
    ensures Run(Listing(source), known, n) == n
  {
    if n > 0 {
      AllKnown(source, known, n - 1);
    }
  }

  // ---- Every run --------------------------------------------------------------------------

  /** The source, the stored ordering, and, for the record, the source as it stood when
      the stored ordering was last trusted. */
  datatype State = State(source: seq<int>, stored: seq<int>, trusted: seq<int>)

  /** The source gains entries at its head, or a run looks at it: incrementally when it
      may, and its ordering is stored when the run was complete and saw anything. */
  datatype Event = Gain(head: seq<int>) | Look(incremental: bool, complete: bool)

  ghost predicate Possible(s: State, e: Event) {
    e.Gain? ==> NoDuplicates(e.head + s.source)
  }

  ghost predicate Step(s: State, e: Event, t: State) {
    match e
    case Gain(head) => t == s.(source := head + s.source)
    case Look(incremental, complete) =>
      exists observed: seq<int>, confirmed: bool ::
        && Shows(Listing(s.source), s.stored, incremental, observed, confirmed)
        && t == if complete && observed != [] then s.(stored := observed, trusted := s.source) else s
  }

  ghost predicate Grown(s: State) {
    && NoDuplicates(s.source) && s.stored == s.trusted
    && exists head :: s.source == head + s.stored
  }

  lemma LookKeeps(s: State, observed: seq<int>, confirmed: bool, incremental: bool)
    requires Grown(s) && Shows(Listing(s.source), s.stored, incremental, observed, confirmed)
    ensures observed == s.source
  {
    if confirmed {
      var head :| s.source == head + s.stored;
      var n: nat :| ConfirmedAt(Listing(s.source), Ids(s.stored), n)
                    && observed == Rebuilt(Current(Listing(s.source), n), s.stored);
      HeadGrowthIsExact(head, s.stored, Ids(s.stored), n);
    } else {
      CurrentOfListing(s.source, |s.source|);
    }
  }

  lemma StepKeeps(s: State, e: Event, t: State)
    requires Grown(s) && Possible(s, e) && Step(s, e, t)
    ensures Grown(t)
    ensures e.Look? && e.complete && s.source != [] ==> t.stored == t.source
  {
    match e
    case Gain(head) =>
      var h :| s.source == h + s.stored;
      assert t.source == (head + h) + t.stored;
    case Look(incremental, complete) =>
      var observed: seq<int>, confirmed: bool :|
        && Shows(Listing(s.source), s.stored, incremental, observed, confirmed)
        && t == if complete && observed != [] then s.(stored := observed, trusted := s.source) else s;
      LookKeeps(s, observed, confirmed, incremental);
      assert t.stored == s.source ==> t.source == [] + t.stored;
  }

  ghost predicate IsRun(states: seq<State>, events: seq<Event>) {
    && |states| == |events| + 1
    && states[0].stored == states[0].trusted == [] && NoDuplicates(states[0].source)
    && forall i | 0 <= i < |events| :: Possible(states[i], events[i]) && Step(states[i], events[i], states[i + 1])
  }

  /** Through any interleaving of gains and runs, full or incremental, the stored ordering
      is the source as it stood at the last trusted run, and right after a complete run of
      a source that is not empty it is the source itself. */
  lemma {:induction false} StoredIsTrusted(states: seq<State>, events: seq<Event>, n: nat)
    requires IsRun(states, events) && n < |states|
    ensures states[n].stored == states[n].trusted && Grown(states[n])
    ensures n > 0 && events[n - 1].Look? && events[n - 1].complete && states[n - 1].source != []
            ==> states[n].stored == states[n].source
  {
    if n == 0 {
      assert states[0].source == states[0].source + states[0].stored;
    } else {
      StoredIsTrusted(states, events, n - 1);
      StepKeeps(states[n - 1], events[n - 1], states[n]);
    }
  }
}
