/** Replaying ordered rows in bounded batches, each one transaction. */
module Batches {
  import opened Options
  import opened SqlOrder
  import opened CacheTables

  /** c after the first n rows of q, or None once a row is refused. */
  function Fold<C>(step: (C, Key) -> Option<C>, c: C, q: seq<Key>, n: nat): Option<C>
    requires n <= |q|
  {
    if n == 0 then Some(c)
    else
      match Fold(step, c, q, n - 1)
      case None => None
      case Some(d) => step(d, q[n - 1])
  }

  lemma RefusedStaysRefused<C>(step: (C, Key) -> Option<C>, c: C, q: seq<Key>, n: nat, m: nat)
    requires n <= m <= |q| && Fold(step, c, q, n).None?
    ensures Fold(step, c, q, m).None?
  {
    if n < m {
      RefusedStaysRefused(step, c, q, n, m - 1);
    }
  }

  /** One batch in one transaction: committed whole, or not at all. */
  method RunBatch<C>(step: (C, Key) -> Option<C>, q: seq<Key>, from: nat, end: nat, begun: C, ghost start: C)
    returns (committed: Option<C>)
    requires from <= end <= |q|
    requires Fold(step, start, q, from) == Some(begun)
    ensures committed == Fold(step, start, q, end)
  {
    committed := Some(begun);
    var i := from;
    while i < end && committed.Some?
      invariant from <= i <= end && committed == Fold(step, start, q, i)
      decreases end - i
    {
      committed := step(committed.value, q[i]);
      i := i + 1;
    }
    if committed.None? {
      RefusedStaysRefused(step, start, q, i, end);
    }
  }

  const BATCH_SIZE: nat := 500

  /** All rows, in batches of BATCH_SIZE.  A refused row leaves exactly the batches
      committed before its own. */
  method RunBatches<C>(step: (C, Key) -> Option<C>, q: seq<Key>, start: C)
    returns (ok: bool, c: C, migrated: nat)
    ensures migrated <= |q| && Fold(step, start, q, migrated) == Some(c)
    ensures ok <==> Fold(step, start, q, |q|).Some?
    ensures ok ==> migrated == |q|
    ensures !ok ==> migrated % 500 == 0 && Fold(step, start, q, if migrated + 500 < |q| then migrated + 500 else |q|).None?
  {
    c, migrated := start, 0;
    while migrated < |q|
      invariant migrated <= |q| && Fold(step, start, q, migrated) == Some(c)
      invariant migrated == |q| || migrated % BATCH_SIZE == 0
    {
      var end := BatchEnd(migrated, |q|);
      var committed := RunBatch(step, q, migrated, end, c, start);
      if committed.None? {
        RefusedStaysRefused(step, start, q, end, |q|);
        return false, c, migrated;
      }
      c, migrated := committed.value, end;
    }
    ok := true;
  }

  /** Where the batch that starts at from ends. */
  function BatchEnd(from: nat, count: nat): nat {
    if from + BATCH_SIZE < count then from + BATCH_SIZE else count
  }
}
