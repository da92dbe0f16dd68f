/** ORDER BY, as the cache's SQL statements use it: rows are read in ascending
    order of at most three integer-coded columns.  A table is a set of keys, so
    nothing here can depend on the order in which rows happen to be stored. */
module SqlOrder {

  type Key = (int, int, int)

  predicate Before(a: Key, b: Key) {
    || a.0 < b.0
    || (a.0 == b.0 && a.1 < b.1)
    || (a.0 == b.0 && a.1 == b.1 && a.2 < b.2)
  }

  ghost predicate Ascending(q: seq<Key>) {
    forall i, j | 0 <= i < j < |q| :: Before(q[i], q[j])
  }

  lemma LeastExists(s: set<Key>)
    requires s != {}
    ensures exists m :: m in s && forall x | x in s :: x == m || Before(m, x)
  {
    var k :| k in s;
    if s == {k} {
    } else {
      assert s - {k} < s;
      LeastExists(s - {k});
      var m :| m in s - {k} && forall x | x in s - {k} :: x == m || Before(m, x);
      var least := if Before(k, m) then k else m;
      forall x | x in s ensures x == least || Before(least, x) {
        if x != k { assert x in s - {k}; }
      }
    }
  }

  function Least(s: set<Key>): (m: Key)
    requires s != {}
    ensures m in s && forall x | x in s :: x == m || Before(m, x)
  {
    LeastExists(s);
    var m :| m in s && forall x | x in s :: x == m || Before(m, x);
    m
  }

  /** The rows of s in ascending key order. */
  function OrderBy(s: set<Key>): seq<Key> {
    if s == {} then []
    else
      var m := Least(s);
      [m] + OrderBy(s - {m})
  }

  lemma {:induction false} OrderByLists(s: set<Key>)
    ensures |OrderBy(s)| == |s|
    ensures forall k :: k in OrderBy(s) <==> k in s
    ensures Ascending(OrderBy(s))
  {
    if s != {} {
      OrderByLists(s - {Least(s)});
    }
  }

  /** There is only one way to list a table in order. */
  lemma OrderByIs(s: set<Key>, q: seq<Key>)
    requires Ascending(q)
    requires forall k :: k in q <==> k in s
    ensures OrderBy(s) == q
  {
    OrderByLists(s);
    OrderIsUnique(OrderBy(s), q);
  }

  lemma {:induction false} OrderIsUnique(p: seq<Key>, q: seq<Key>)
    requires Ascending(p) && Ascending(q)
    requires forall k :: k in p <==> k in q
    ensures p == q
  {
    assert p != [] ==> p[0] in q;
    assert q != [] ==> q[0] in p;
    if p != [] {
      assert p[0] == q[0];
      forall k ensures k in p[1..] <==> k in q[1..] {
        assert k in p[1..] <==> k in p && k != p[0];
        assert k in q[1..] <==> k in q && k != q[0];
      }
      OrderIsUnique(p[1..], q[1..]);
    }
  }

  /** sorted(s). */
  function Sorted(s: set<int>): seq<int> {
    var rows := OrderBy(set u | u in s :: (u, 0, 0));
    seq(|rows|, i requires 0 <= i < |rows| => rows[i].0)
  }

  lemma SortedLists(s: set<int>)
    ensures forall i | 0 <= i < |Sorted(s)| :: Sorted(s)[i] in s
    ensures forall u | u in s :: exists i :: 0 <= i < |Sorted(s)| && Sorted(s)[i] == u
    ensures forall i, j | 0 <= i < j < |Sorted(s)| :: Sorted(s)[i] < Sorted(s)[j]
  {
    var keys := set u | u in s :: (u, 0, 0);
    var rows, q := OrderBy(keys), Sorted(s);
    OrderByLists(keys);
    forall i | 0 <= i < |q| ensures q[i] in s && rows[i] == (q[i], 0, 0) {
      assert rows[i] in rows;
      assert rows[i] in keys;
    }
    forall u | u in s ensures exists i :: 0 <= i < |q| && q[i] == u {
      assert (u, 0, 0) in keys;
      var i :| 0 <= i < |rows| && rows[i] == (u, 0, 0);
      assert q[i] == u;
    }
    forall i, j | 0 <= i < j < |q| ensures q[i] < q[j] {
      assert Before(rows[i], rows[j]);
    }
  }

  /** A set whose members are mapped one-to-one keeps its size. */
  lemma {:induction false} ImageSize<A, B>(s: set<A>, f: map<A, B>, image: set<B>)
    requires s <= f.Keys
    requires forall a, b | a in s && b in s && f[a] == f[b] :: a == b
    requires image == set a | a in s :: f[a]
    ensures |image| == |s|
  {
    if s != {} {
      var a :| a in s;
      var rest := image - {f[a]};
      assert f[a] in image;
      assert rest == set b | b in s - {a} :: f[b] by {
        forall b | b in rest ensures b in set c | c in s - {a} :: f[c] {
          var c :| c in s && f[c] == b;
          assert c in s - {a};
        }
      }
      ImageSize(s - {a}, f, rest);
      assert |image| == |rest| + 1;
    } else {
      assert image == {};
    }
  }

  /** A set inside another of the same size is that other set. */
  lemma SameSizeSubset<A>(small: set<A>, big: set<A>)
    requires small <= big && |small| == |big|
    ensures small == big
  {
    assert big == small + (big - small);
    assert |big| == |small| + |big - small|;
  }
}
