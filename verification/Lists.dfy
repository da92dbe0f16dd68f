/** Order-preserving selection and de-duplication of lists. */
module Lists {
  /** The members of q that keep selects, in order. */
  function Kept<T>(q: seq<T>, keep: T -> bool): seq<T> {
    if q == [] then []
    else Kept(q[..|q| - 1], keep) + if keep(q[|q| - 1]) then [q[|q| - 1]] else []
  }

  /** The first occurrence of every member of q, in order: dict.fromkeys. */
  function Distinct<T(==)>(q: seq<T>): seq<T> {
    if q == [] then []
    else
      var rest := Distinct(q[..|q| - 1]);
      if q[|q| - 1] in rest then rest else rest + [q[|q| - 1]]
  }

  ghost predicate NoDuplicates<T>(q: seq<T>) {
    forall i, j | 0 <= i < j < |q| :: q[i] != q[j]
  }

  lemma KeptSnoc<T>(q: seq<T>, x: T, keep: T -> bool)
    ensures Kept(q + [x], keep) == Kept(q, keep) + if keep(x) then [x] else []
  {
    assert (q + [x])[..|q|] == q;
  }

  lemma {:induction false} KeptAppend<T>(a: seq<T>, b: seq<T>, keep: T -> bool)
    ensures Kept(a + b, keep) == Kept(a, keep) + Kept(b, keep)
  {
    if b == [] {
      assert a + b == a;
    } else {
      var front := b[..|b| - 1];
      assert (a + b)[..|a + b| - 1] == a + front;
      KeptAppend(a, front, keep);
    }
  }

  lemma {:induction false} KeptMember<T>(q: seq<T>, keep: T -> bool, x: T)
    ensures x in Kept(q, keep) <==> x in q && keep(x)
  {
    if q != [] {
      KeptMember(q[..|q| - 1], keep, x);
      assert q == q[..|q| - 1] + [q[|q| - 1]];
    }
  }

  lemma {:induction false} KeptNoDuplicates<T>(q: seq<T>, keep: T -> bool)
    requires NoDuplicates(q)
    ensures NoDuplicates(Kept(q, keep))
  {
    if q != [] {
      var front := q[..|q| - 1];
      KeptNoDuplicates(front, keep);
      KeptMember(front, keep, q[|q| - 1]);
    }
  }

  lemma {:induction false} KeptSame<T>(q: seq<T>, a: T -> bool, b: T -> bool)
    requires forall i | 0 <= i < |q| :: a(q[i]) == b(q[i])
    ensures Kept(q, a) == Kept(q, b)
  {
    if q != [] {
      KeptSame(q[..|q| - 1], a, b);
    }
  }

  lemma {:induction false} KeptAll<T>(q: seq<T>, keep: T -> bool)
    requires forall i | 0 <= i < |q| :: keep(q[i])
    ensures Kept(q, keep) == q
  {
    if q != [] {
      KeptAll(q[..|q| - 1], keep);
      assert q == q[..|q| - 1] + [q[|q| - 1]];
    }
  }

  lemma {:induction false} KeptNone<T>(q: seq<T>, keep: T -> bool)
    requires forall i | 0 <= i < |q| :: !keep(q[i])
    ensures Kept(q, keep) == []
  {
    if q != [] {
      KeptNone(q[..|q| - 1], keep);
    }
  }

  lemma {:induction false} KeptTwice<T>(q: seq<T>, a: T -> bool, b: T -> bool, both: T -> bool)
    requires forall i | 0 <= i < |q| :: both(q[i]) == (a(q[i]) && b(q[i]))
    ensures Kept(Kept(q, a), b) == Kept(q, both)
  {
    if q != [] {
      var front, x := q[..|q| - 1], q[|q| - 1];
      KeptTwice(front, a, b, both);
      KeptAppend(Kept(front, a), if a(x) then [x] else [], b);
    }
  }

  lemma {:induction false} DistinctFacts<T>(q: seq<T>)
    ensures NoDuplicates(Distinct(q))
    ensures forall x :: x in Distinct(q) <==> x in q
  {
    if q != [] {
      DistinctFacts(q[..|q| - 1]);
      assert q == q[..|q| - 1] + [q[|q| - 1]];
    }
  }

  /** start after the first k members of q, one after the other. */
  function Folded<P, C>(step: (P, C) -> P, start: P, q: seq<C>, k: nat): P
    requires k <= |q|
  {
    if k == 0 then start else step(Folded(step, start, q, k - 1), q[k - 1])
  }

  lemma {:induction false} FoldedKeeps<P, C>(step: (P, C) -> P, start: P, q: seq<C>, k: nat, holds: (int, P) -> bool)
    requires k <= |q| && holds(0, start)
    requires forall i: nat, p {:trigger step(p, q[i])} {:trigger holds(i, p)} | i < |q| && holds(i, p) :: holds(i + 1, step(p, q[i]))
    ensures holds(k, Folded(step, start, q, k))
  {
    if k > 0 {
      FoldedKeeps(step, start, q, k - 1, holds);
    }
  }
}
