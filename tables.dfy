/**
 * The query vocabulary the repositories use over a table: enumerating a table
 * (a map from key to row) in key order, `Where`, `FirstOrDefault` and a stable
 * `OrderBy` over a caller-supplied order.
 */
module Tables {
  import opened Common

  /** `s.Where(p)`: the elements satisfying `p`, in their original order. */
  function Filter<T(!new)>(s: seq<T>, p: T -> bool): (r: seq<T>)
    ensures |r| <= |s|
    ensures forall x :: x in r <==> x in s && p(x)
    ensures multiset(r) <= multiset(s)
  {
    if s == [] then []
    else
      assert s == [s[0]] + s[1..];
      (if p(s[0]) then [s[0]] else []) + Filter(s[1..], p)
  }

  /** `s.FirstOrDefault(p)`: the first element satisfying `p`, if any. */
  function FirstWhere<T(!new)>(s: seq<T>, p: T -> bool): (r: Option<T>)
    ensures r.None? <==> forall x :: x in s ==> !p(x)
    ensures r.Some? ==> r.value in s && p(r.value)
  {
    if s == [] then None else if p(s[0]) then Some(s[0]) else FirstWhere(s[1..], p)
  }

  /** When exactly one element satisfies `p`, the first one found is that one. */
  lemma FirstWhereUnique<T(!new)>(s: seq<T>, p: T -> bool, x: T)
    requires x in s && p(x)
    requires forall y :: y in s && p(y) ==> y == x
    ensures FirstWhere(s, p) == Some(x)
  {
  }

  /** `leq` is a total preorder: any two elements compare, and comparison chains. */
  ghost predicate TotalPreorder<T(!new)>(leq: (T, T) -> bool)
  {
    (forall a, b :: leq(a, b) || leq(b, a)) &&
    (forall a, b, c :: leq(a, b) && leq(b, c) ==> leq(a, c))
  }

  ghost predicate SortedBy<T>(s: seq<T>, leq: (T, T) -> bool)
  {
    forall i, j :: 0 <= i < j < |s| ==> leq(s[i], s[j])
  }

  /** Inserts `x` into a sorted sequence before the first element it does not follow. */
  function Insert<T(!new)>(x: T, s: seq<T>, leq: (T, T) -> bool): (r: seq<T>)
    requires TotalPreorder(leq) && SortedBy(s, leq)
    ensures SortedBy(r, leq)
    ensures multiset(r) == multiset(s) + multiset{x}
    ensures |r| == |s| + 1
    ensures forall y :: y in r ==> y == x || y in s
  {
    if s == [] then [x]
    else
      HeadLeast(s, leq);
      if leq(x, s[0]) then
        ConsSorted(x, s, leq);
        [x] + s
      else
        var rest := Insert(x, s[1..], leq);
        assert s == [s[0]] + s[1..];
        ConsSorted(s[0], rest, leq);
        [s[0]] + rest
  }

  /** The head of a sorted sequence is below every element of it. */
  lemma HeadLeast<T(!new)>(s: seq<T>, leq: (T, T) -> bool)
    requires TotalPreorder(leq) && SortedBy(s, leq) && |s| > 0
    ensures forall y :: y in s ==> leq(s[0], y)
  {
    forall y | y in s ensures leq(s[0], y) {
      var j :| 0 <= j < |s| && s[j] == y;
      if j > 0 {
        assert leq(s[0], s[j]);
      }
    }
  }

  lemma ConsSorted<T>(h: T, rest: seq<T>, leq: (T, T) -> bool)
    requires SortedBy(rest, leq)
    requires forall y :: y in rest ==> leq(h, y)
    ensures SortedBy([h] + rest, leq)
  {
    var r := [h] + rest;
    forall i, j | 0 <= i < j < |r| ensures leq(r[i], r[j]) {
      if i == 0 {
        assert r[j] == rest[j - 1];
      } else {
        assert r[i] == rest[i - 1] && r[j] == rest[j - 1];
      }
    }
  }

  /** `s.OrderBy(...)`: a sorted permutation of `s` (insertion sort, stable). */
  function SortBy<T(!new)>(s: seq<T>, leq: (T, T) -> bool): (r: seq<T>)
    requires TotalPreorder(leq)
    ensures SortedBy(r, leq)
    ensures multiset(r) == multiset(s)
    ensures |r| == |s|
  {
    if s == [] then []
    else
      assert s == [s[0]] + s[1..];
      Insert(s[0], SortBy(s[1..], leq), leq)
  }

  predicate IsLeast(m: Guid, keys: set<Guid>)
  {
    m in keys && forall k :: k in keys ==> m <= k
  }

  lemma {:induction false} MinExists(keys: set<Guid>)
    requires keys != {}
    ensures exists m :: IsLeast(m, keys)
  {
    var x :| x in keys;
    if keys == {x} {
      assert IsLeast(x, keys);
    } else {
      MinExists(keys - {x});
      var m :| IsLeast(m, keys - {x});
      var least := if x < m then x else m;
      forall k | k in keys ensures least <= k {
        if k != x {
          assert k in keys - {x};
        }
      }
      assert IsLeast(least, keys);
    }
  }

  function MinKey(keys: set<Guid>): (m: Guid)
    requires keys != {}
    ensures m in keys && forall k :: k in keys ==> m <= k
  {
    MinExists(keys);
    var m :| IsLeast(m, keys);
    m
  }

  /** The keys of a table in ascending order: the order in which a table is enumerated. */
  function SortedKeys(keys: set<Guid>): (r: seq<Guid>)
    ensures |r| == |keys|
    ensures forall k :: k in r <==> k in keys
    ensures forall i, j :: 0 <= i < j < |r| ==> r[i] < r[j]
    decreases |keys|
  {
    if keys == {} then []
    else
      var m := MinKey(keys);
      [m] + SortedKeys(keys - {m})
  }

  function ValuesAt<V>(m: map<Guid, V>, ks: seq<Guid>): (r: seq<V>)
    requires forall k :: k in ks ==> k in m
    ensures |r| == |ks|
    ensures forall i :: 0 <= i < |ks| ==> r[i] == m[ks[i]]
  {
    if ks == [] then [] else [m[ks[0]]] + ValuesAt(m, ks[1..])
  }

  /** Every row of a table, once each, in ascending key order. */
  function TableOrder<V>(m: map<Guid, V>): (r: seq<V>)
    ensures |r| == |m|
    ensures forall i :: 0 <= i < |r| ==> r[i] == m[SortedKeys(m.Keys)[i]]
  {
    ValuesAt(m, SortedKeys(m.Keys))
  }

  /** A row is enumerated exactly when the table holds it under some key. */
  lemma TableOrderMembers<V>(m: map<Guid, V>, v: V)
    ensures v in TableOrder(m) <==> exists k :: k in m && m[k] == v
  {
    var ks := SortedKeys(m.Keys);
    var r := TableOrder(m);
    if v in r {
      var i :| 0 <= i < |r| && r[i] == v;
      assert ks[i] in m;
    }
    if exists k :: k in m && m[k] == v {
      var k :| k in m && m[k] == v;
      assert k in ks;
      var i :| 0 <= i < |ks| && ks[i] == k;
      assert r[i] == v;
    }
  }
}
