/** Small datatypes and set facts shared by every module. */
module Common {
  /** A nullable column, or a lookup that may miss. */
  datatype Option<+T> = None | Some(value: T)

  /** A call that returns a value or raises. */
  datatype Result<+T, +E> = Ok(value: T) | Err(error: E)

  /** The id SQLite gives an inserted row: one past the largest in the table. */
  method FreshId(taken: set<nat>) returns (id: nat)
    ensures forall x :: x in taken ==> x < id
    ensures id !in taken
  {
    id := 1;
    var rest := taken;
    while rest != {}
      invariant rest <= taken && id >= 1
      invariant forall x :: x in taken && x !in rest ==> x < id
    {
      var x :| x in rest;
      rest := rest - {x};
      if id <= x {
        id := x + 1;
      }
    }
  }

  /** Lists a set once each, in some order. */
  method Listing(s: set<nat>) returns (q: seq<nat>)
    ensures forall x :: x in q <==> x in s
    ensures |q| == |s|
    ensures forall i, j :: 0 <= i < j < |q| ==> q[i] != q[j]
  {
    q := [];
    var rest := s;
    while rest != {}
      invariant rest <= s && |q| + |rest| == |s|
      invariant forall x :: x in q <==> x in s && x !in rest
      invariant forall i, j :: 0 <= i < j < |q| ==> q[i] != q[j]
    {
      var x :| x in rest;
      rest := rest - {x};
      q := q + [x];
    }
  }

  lemma Smallest(s: set<nat>) returns (x: nat)
    requires s != {}
    ensures x in s && forall y :: y in s ==> x <= y
  {
    x :| x in s;
    var rest := s - {x};
    while rest != {}
      invariant x in s && rest <= s && forall y :: y in s && y !in rest ==> x <= y
    {
      var y :| y in rest;
      if y < x {
        x := y;
      }
      rest := rest - {y};
    }
  }

  /** Lists a set in ascending order. */
  method Ascending(s: set<nat>) returns (q: seq<nat>)
    ensures forall x :: x in q <==> x in s
    ensures |q| == |s|
    ensures forall i, j :: 0 <= i < j < |q| ==> q[i] < q[j]
  {
    q := [];
    var rest := s;
    while rest != {}
      invariant rest <= s && |q| + |rest| == |s|
      invariant forall x :: x in q <==> x in s && x !in rest
      invariant forall x, y :: x in q && y in rest ==> x < y
      invariant forall i, j :: 0 <= i < j < |q| ==> q[i] < q[j]
    {
      ghost var least := Smallest(rest);
      var x :| x in rest && forall y :: y in rest ==> x <= y;
      forall i | 0 <= i < |q| ensures q[i] < x {
        assert q[i] in q && x in rest;
      }
      rest := rest - {x};
      q := q + [x];
    }
  }

  /** The elements of a list. */
  function Members(q: seq<nat>): set<nat> {
    set x | x in q
  }

  lemma MembersOneMore(q: seq<nat>, x: nat)
    ensures Members([]) == {} && Members(q + [x]) == Members(q) + {x}
  {
  }

  lemma SizeOfParts<T>(whole: set<T>, a: set<T>, b: set<T>)
    requires forall x :: x in whole <==> x in a || x in b
    requires forall x :: x in a ==> x !in b
    ensures |whole| == |a| + |b|
  {
    assert whole == a + b && a !! b;
  }

  lemma SizeOneMore<T>(whole: set<T>, a: set<T>, x: T)
    requires x !in a && forall y :: y in whole <==> y in a || y == x
    ensures |whole| == |a| + 1
  {
    assert whole == a + {x};
  }

  lemma {:induction false} DistinctLength<K>(keys: seq<K>, s: set<K>)
    requires forall i, j :: 0 <= i < j < |keys| ==> keys[i] != keys[j]
    requires s == set k | k in keys
    ensures |s| == |keys|
  {
    if keys != [] {
      var k, front := keys[|keys| - 1], keys[..|keys| - 1];
      DistinctLength(front, set x | x in front);
      assert keys == front + [k] && k !in front;
      assert s == (set x | x in front) + {k};
    }
  }

  /** The sum of a dict's values. */
  ghost function Total<K>(m: map<K, nat>): nat {
    if m == map[] then 0 else
      var k :| k in m;
      m[k] + Total(m - {k})
  }

  lemma {:induction false} TotalWithout<K>(m: map<K, nat>, k: K)
    requires k in m
    ensures Total(m) == m[k] + Total(m - {k})
    decreases |m|
  {
    var first :| first in m && Total(m) == m[first] + Total(m - {first});
    if first != k {
      TotalWithout(m - {first}, k);
      TotalWithout(m - {k}, first);
      assert m - {first} - {k} == m - {k} - {first};
    }
  }

  lemma TotalSet<K>(m: map<K, nat>, k: K, v: nat)
    ensures Total(m[k := v]) == v + Total(m - {k})
  {
    TotalWithout(m[k := v], k);
    assert m[k := v] - {k} == m - {k};
  }

  lemma {:induction false} TotalZero<K>(m: map<K, nat>)
    requires forall k :: k in m ==> m[k] == 0
    ensures Total(m) == 0
    decreases |m|
  {
    if m != map[] {
      var k :| k in m;
      TotalWithout(m, k);
      TotalZero(m - {k});
    }
  }
}
