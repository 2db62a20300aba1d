/** Python's insertion-ordered `dict`, as a sequence of (key, value) entries.  Assigning an
    existing key keeps its position; a new key goes to the end.  `sorted(d.items())` on
    string keys is `SortByKey`. */
module Dicts {
  import opened Wrappers
  import PyStr

  type Dict<K, V> = seq<(K, V)>

  function Keys<K, V>(d: Dict<K, V>): set<K> {
    if d == [] then {} else {d[0].0} + Keys(d[1..])
  }

  /** What every Python dict satisfies: no key appears twice. */
  predicate UniqueKeys<K(==), V>(d: Dict<K, V>) {
    forall i, j :: 0 <= i < j < |d| ==> d[i].0 != d[j].0
  }

  lemma {:induction false} KeysIndex<K, V>(d: Dict<K, V>, k: K)
    ensures k in Keys(d) <==> exists i :: 0 <= i < |d| && d[i].0 == k
  {
    if d != [] {
      KeysIndex(d[1..], k);
      if k in Keys(d[1..]) {
        var i :| 0 <= i < |d[1..]| && d[1..][i].0 == k;
        assert d[i + 1].0 == k;
      }
      if exists i :: 0 <= i < |d| && d[i].0 == k {
        var i :| 0 <= i < |d| && d[i].0 == k;
        if i > 0 {
          assert d[1..][i - 1].0 == k;
        }
      }
    }
  }

  /** `d.get(k)`: the value stored under `k`, if any. */
  function Get<K(==), V>(d: Dict<K, V>, k: K): (r: Option<V>)
    ensures r.Some? <==> k in Keys(d)
    ensures r.Some? ==> (k, r.value) in d
  {
    if d == [] then None
    else if d[0].0 == k then Some(d[0].1)
    else Get(d[1..], k)
  }

  /** `d[k] = v` */
  function Set<K(==, !new), V>(d: Dict<K, V>, k: K, v: V): (r: Dict<K, V>)
    ensures Keys(r) == Keys(d) + {k}
    ensures Get(r, k) == Some(v)
    ensures forall k' :: k' != k ==> Get(r, k') == Get(d, k')
    ensures k in Keys(d) ==> |r| == |d|
    ensures k !in Keys(d) ==> r == d + [(k, v)]
  {
    if d == [] then [(k, v)]
    else if d[0].0 == k then [(k, v)] + d[1..]
    else [d[0]] + Set(d[1..], k, v)
  }

  lemma UniqueCons<K, V>(e: (K, V), t: Dict<K, V>)
    requires UniqueKeys(t) && e.0 !in Keys(t)
    ensures UniqueKeys([e] + t)
  {
    var r := [e] + t;
    forall i, j | 0 <= i < j < |r| ensures r[i].0 != r[j].0 {
      if i == 0 {
        assert r[j] == t[j - 1];
        KeysIndex(t, e.0);
      } else {
        assert r[i] == t[i - 1] && r[j] == t[j - 1];
      }
    }
  }

  lemma UniqueTail<K, V>(d: Dict<K, V>)
    requires UniqueKeys(d) && d != []
    ensures UniqueKeys(d[1..]) && d[0].0 !in Keys(d[1..])
  {
    KeysIndex(d[1..], d[0].0);
  }

  lemma {:induction false} SetKeepsUnique<K(!new), V>(d: Dict<K, V>, k: K, v: V)
    requires UniqueKeys(d)
    ensures UniqueKeys(Set(d, k, v))
  {
    if d != [] && d[0].0 != k {
      UniqueTail(d);
      SetKeepsUnique(d[1..], k, v);
      UniqueCons(d[0], Set(d[1..], k, v));
    } else if d != [] {
      var r := Set(d, k, v);
      assert forall j :: 0 <= j < |r| ==> r[j].0 == d[j].0;
    }
  }

  /** `d.update(e)`: every entry of `e` assigned in order, so later entries win. */
  function Update<K(==, !new), V>(d: Dict<K, V>, e: Dict<K, V>): (r: Dict<K, V>)
    ensures Keys(r) == Keys(d) + Keys(e)
    ensures UniqueKeys(e) ==> forall k :: Get(r, k) == if k in Keys(e) then Get(e, k) else Get(d, k)
    decreases |e|
  {
    if e == [] then d
    else
      var r := Update(Set(d, e[0].0, e[0].1), e[1..]);
      assert Keys(e) == {e[0].0} + Keys(e[1..]);
      if UniqueKeys(e) then
        assert UniqueKeys(e[1..]);
        assert e[0].0 !in Keys(e[1..]) by {
          KeysIndex(e[1..], e[0].0);
        }
        r
      else r
  }

  /** Keys in strictly increasing order under Python's string `<`. */
  predicate SortedByKey<V>(d: Dict<string, V>) {
    forall i, j :: 0 <= i < j < |d| ==> PyStr.Less(d[i].0, d[j].0)
  }

  /** Inserts `e` before the first entry whose key is not smaller. */
  function Insert<V>(e: (string, V), d: Dict<string, V>): (r: Dict<string, V>)
    ensures multiset(r) == multiset(d) + multiset{e}
    ensures |r| == |d| + 1
  {
    if d == [] || !PyStr.Less(d[0].0, e.0) then [e] + d
    else
      assert d == [d[0]] + d[1..];
      [d[0]] + Insert(e, d[1..])
  }

  /** `sorted(d.items())`: the entries ordered by key. */
  function SortByKey<V>(d: Dict<string, V>): (r: Dict<string, V>)
    ensures multiset(r) == multiset(d)
    ensures |r| == |d|
  {
    if d == [] then []
    else
      assert d == [d[0]] + d[1..];
      Insert(d[0], SortByKey(d[1..]))
  }

  lemma {:induction false} InsertSorted<V>(e: (string, V), d: Dict<string, V>)
    requires SortedByKey(d)
    requires forall i :: 0 <= i < |d| ==> d[i].0 != e.0
    ensures SortedByKey(Insert(e, d))
  {
    if d == [] || !PyStr.Less(d[0].0, e.0) {
      if d != [] {
        PyStr.LessTotal(d[0].0, e.0);
        var r := [e] + d;
        forall j | 1 <= j < |r| ensures PyStr.Less(e.0, r[j].0) {
          if j > 1 {
            PyStr.LessTransitive(e.0, d[0].0, d[j - 1].0);
          }
        }
      }
    } else {
      InsertSorted(e, d[1..]);
      var t := Insert(e, d[1..]);
      var r := [d[0]] + t;
      forall j | 1 <= j < |r| ensures PyStr.Less(d[0].0, r[j].0) {
        assert r[j] in multiset(t);
        assert r[j] in multiset(d[1..]) + multiset{e};
        if r[j] != e {
          assert r[j] in d[1..];
        }
      }
    }
  }

  /** The result of `SortByKey` is sorted, whenever the keys are unique. */
  lemma {:induction false} SortByKeySorted<V>(d: Dict<string, V>)
    requires UniqueKeys(d)
    ensures SortedByKey(SortByKey(d))
  {
    if d != [] {
      SortByKeySorted(d[1..]);
      var s := SortByKey(d[1..]);
      forall i | 0 <= i < |s| ensures s[i].0 != d[0].0 {
        assert s[i] in multiset(d[1..]);
        var j :| 0 <= j < |d[1..]| && d[1..][j] == s[i];
        assert d[j + 1] == s[i];
      }
      InsertSorted(d[0], s);
    }
  }

  /** `sorted(d.items())` does not depend on the insertion order of `d`. */
  lemma SortByKeyOrderIndependent<V>(d1: Dict<string, V>, d2: Dict<string, V>)
    requires UniqueKeys(d1) && UniqueKeys(d2)
    requires multiset(d1) == multiset(d2)
    ensures SortByKey(d1) == SortByKey(d2)
  {
    SortByKeySorted(d1);
    SortByKeySorted(d2);
    forall x ensures x in SortByKey(d1) <==> x in SortByKey(d2) {
      SortByKeyMembers(d1, x);
      SortByKeyMembers(d2, x);
      assert (x in d1) == (x in multiset(d1));
      assert (x in d2) == (x in multiset(d2));
    }
    SortedSameMembers(SortByKey(d1), SortByKey(d2));
  }

  /** In a dict, an entry determines the lookup of its key. */
  lemma {:induction false} GetOfEntry<K, V>(d: Dict<K, V>, k: K, v: V)
    requires UniqueKeys(d) && (k, v) in d
    ensures Get(d, k) == Some(v)
  {
    if d[0] != (k, v) {
      UniqueTail(d);
      assert (k, v) in d[1..];
      var i :| 0 <= i < |d[1..]| && d[1..][i] == (k, v);
      KeysIndex(d[1..], k);
      GetOfEntry(d[1..], k, v);
    }
  }

  /** The entries of `d[k] = v`: the new pair, and every old pair under another key. */
  lemma {:induction false} SetMembers<K(!new), V>(d: Dict<K, V>, k: K, v: V, x: (K, V))
    requires UniqueKeys(d)
    ensures x in Set(d, k, v) <==> x == (k, v) || (x.0 != k && x in d)
  {
    if d != [] {
      UniqueTail(d);
      if d[0].0 == k {
        assert Set(d, k, v) == [(k, v)] + d[1..];
        if x in d[1..] {
          var i :| 0 <= i < |d[1..]| && d[1..][i] == x;
          assert d[i + 1] == x;
        }
        if x.0 != k && x in d {
          assert x != d[0];
          assert x in d[1..];
        }
      } else {
        SetMembers(d[1..], k, v, x);
        assert Set(d, k, v) == [d[0]] + Set(d[1..], k, v);
        assert d == [d[0]] + d[1..];
      }
    }
  }

  /** Strictly sorted keys are in particular unique. */
  lemma SortedUniqueKeys<V>(a: Dict<string, V>)
    requires SortedByKey(a)
    ensures UniqueKeys(a)
  {
    forall i, j | 0 <= i < j < |a| ensures a[i].0 != a[j].0 {
      PyStr.LessIrreflexive(a[i].0);
    }
  }

  lemma SortedSameFirst<V>(a: Dict<string, V>, b: Dict<string, V>)
    requires SortedByKey(a) && SortedByKey(b) && a != []
    requires forall x :: x in a <==> x in b
    ensures b != [] && a[0] == b[0]
  {
    assert a[0] in b;
    var i :| 0 <= i < |b| && b[i] == a[0];
    assert b[0] in a;
    var j :| 0 <= j < |a| && a[j] == b[0];
    if i != 0 {
      if j != 0 {
        PyStr.LessTransitive(a[0].0, b[0].0, a[0].0);
      }
      PyStr.LessIrreflexive(a[0].0);
      assert false;
    }
  }

  lemma SortedTailMember<V>(a: Dict<string, V>, x: (string, V))
    requires SortedByKey(a) && a != []
    ensures x in a[1..] <==> x in a && x != a[0]
  {
    if x in a[1..] {
      var k :| 0 <= k < |a[1..]| && a[1..][k] == x;
      PyStr.LessIrreflexive(a[0].0);
      assert a[k + 1] == x;
    }
    if x in a && x != a[0] {
      var k :| 0 <= k < |a| && a[k] == x;
      assert a[1..][k - 1] == x;
    }
  }

  lemma EmptyIffNoMembers<T>(s: seq<T>)
    ensures s == [] <==> forall x :: x !in s
  {
    if s != [] {
      assert s[0] in s;
    }
  }

  /** Two strictly sorted entry sequences with the same members are equal. */
  lemma {:induction false} SortedSameMembers<V>(a: Dict<string, V>, b: Dict<string, V>)
    requires SortedByKey(a) && SortedByKey(b)
    requires forall x :: x in a <==> x in b
    ensures a == b
    decreases |a|
  {
    if a == [] {
      EmptyIffNoMembers(b);
    } else {
      SortedSameFirst(a, b);
      forall x ensures x in a[1..] <==> x in b[1..] {
        SortedTailMember(a, x);
        SortedTailMember(b, x);
      }
      SortedSameMembers(a[1..], b[1..]);
      assert a == [a[0]] + a[1..] && b == [b[0]] + b[1..];
    }
  }

  /** `sorted(d.items())` holds the same entries as `d`. */
  lemma SortByKeyMembers<V>(d: Dict<string, V>, x: (string, V))
    ensures x in SortByKey(d) <==> x in d
  {
    assert (x in SortByKey(d)) == (x in multiset(SortByKey(d)));
    assert (x in d) == (x in multiset(d));
  }

  /** `sorted(d.items())` keeps every key and its value. */
  lemma SortByKeyGet<V>(d: Dict<string, V>, k: string)
    requires UniqueKeys(d)
    ensures Keys(SortByKey(d)) == Keys(d)
    ensures Get(SortByKey(d), k) == Get(d, k)
  {
    var s := SortByKey(d);
    SortByKeySorted(d);
    SortedUniqueKeys(s);
    forall k' ensures k' in Keys(s) <==> k' in Keys(d) {
      KeysIndex(s, k');
      KeysIndex(d, k');
      if k' in Keys(s) {
        var i :| 0 <= i < |s| && s[i].0 == k';
        SortByKeyMembers(d, s[i]);
      }
      if k' in Keys(d) {
        var i :| 0 <= i < |d| && d[i].0 == k';
        SortByKeyMembers(d, d[i]);
      }
    }
    if Get(d, k).Some? {
      SortByKeyMembers(d, (k, Get(d, k).value));
      GetOfEntry(s, k, Get(d, k).value);
    }
  }
}
