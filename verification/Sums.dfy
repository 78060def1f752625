/** Totals over finite maps, sizes of finite sets, and values outside them. */
module Sums {

  ghost function Total<K>(m: map<K, int>): int
  {
    if m == map[] then 0
    else
      var k :| k in m;
      m[k] + Total(m - {k})
  }

  /** Any entry can be taken out first. */
  lemma {:induction false} TotalRemove<K>(m: map<K, int>, k: K)
    requires k in m
    ensures Total(m) == m[k] + Total(m - {k})
    decreases m
  {
    var j :| j in m && Total(m) == m[j] + Total(m - {j});
    if j != k {
      TotalRemove(m - {j}, k);
      TotalRemove(m - {k}, j);
      assert m - {j} - {k} == m - {k} - {j};
    }
  }

  lemma {:induction false} TotalBounds<K>(m: map<K, int>)
    requires forall k :: k in m ==> m[k] >= 0
    ensures Total(m) >= 0
    decreases m
  {
    if m != map[] {
      var k :| k in m;
      TotalRemove(m, k);
      TotalBounds(m - {k});
    }
  }

  lemma {:induction false} TotalSubset<K>(m: map<K, int>, n: map<K, int>)
    requires forall k :: k in m ==> k in n && n[k] == m[k]
    requires forall k :: k in n ==> n[k] >= 0
    ensures Total(m) <= Total(n)
    decreases m
  {
    if m == map[] {
      TotalBounds(n);
    } else {
      var k :| k in m;
      TotalRemove(m, k);
      TotalRemove(n, k);
      TotalSubset(m - {k}, n - {k});
    }
  }

  /** If every entry of a is charged to an entry of b of its own that covers it, the
      total of a is covered by the total of b. */
  lemma {:induction false} TotalCharged<K, L>(a: map<K, int>, b: map<L, int>, to: map<K, L>)
    requires to.Keys == a.Keys
    requires forall k :: k in a ==> to[k] in b && a[k] <= b[to[k]]
    requires forall j, k :: j in a && k in a && j != k ==> to[j] != to[k]
    requires forall l :: l in b ==> b[l] >= 0
    ensures Total(a) <= Total(b)
    decreases a
  {
    if a == map[] {
      TotalBounds(b);
    } else {
      var k :| k in a;
      TotalRemove(a, k);
      TotalRemove(b, to[k]);
      TotalCharged(a - {k}, b - {to[k]}, to - {k});
    }
  }

  lemma {:induction false} SubsetSize<T>(a: set<T>, b: set<T>)
    requires a <= b
    ensures |a| <= |b|
  {
    if a != {} {
      var x :| x in a;
      SubsetSize(a - {x}, b - {x});
    }
  }

  /** A string that is longer than every one in a set. */
  ghost function Longer(ids: set<string>): (r: string)
    ensures forall id :: id in ids ==> |id| < |r|
  {
    if ids == {} then ""
    else
      var id :| id in ids;
      var r := Longer(ids - {id});
      assert ids == (ids - {id}) + {id};
      if |id| < |r| then r else id + "+"
  }

  /** A number above every one in a set. */
  ghost function Above(ids: set<nat>): (r: nat)
    ensures forall id :: id in ids ==> id < r
  {
    if ids == {} then 0
    else
      var id :| id in ids;
      var r := Above(ids - {id});
      assert ids == (ids - {id}) + {id};
      if id < r then r else id + 1
  }
}
