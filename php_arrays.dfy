/**
 * PHP arrays used as ordered dictionaries: a sequence of key/value entries in
 * insertion order, the assignment `$a[$k] = $v` (overwrite in place, or append
 * a new key at the end) and `ksort` over string keys.
 */
module PhpArrays {
  import opened Wrappers

  type Assoc<K, V> = seq<(K, V)>

  /** The keys of `a`, in the array's iteration order. */
  function Keys<K, V>(a: Assoc<K, V>): (ks: seq<K>)
    ensures |ks| == |a| && forall i :: 0 <= i < |a| ==> ks[i] == a[i].0
  {
    if a == [] then [] else [a[0].0] + Keys(a[1..])
  }

  /** No key occurs twice: every array built by assignment has this shape. */
  predicate UniqueKeys<K(==), V>(a: Assoc<K, V>)
  {
    forall i, j :: 0 <= i < j < |a| ==> a[i].0 != a[j].0
  }

  /** `$a[$k] ?? null`. */
  function Get<K(==), V>(a: Assoc<K, V>, k: K): (r: Option<V>)
    ensures r.None? <==> k !in Keys(a)
    ensures r.Some? ==> (k, r.value) in a
    ensures UniqueKeys(a) ==> forall i :: 0 <= i < |a| && a[i].0 == k ==> r == Some(a[i].1)
  {
    if a == [] then None
    else
      assert Keys(a) == [a[0].0] + Keys(a[1..]);
      if a[0].0 == k then Some(a[0].1)
      else
        var r := Get(a[1..], k);
        assert forall i :: 1 <= i < |a| ==> a[1..][i - 1] == a[i];
        r
  }

  /** `$a[$k] = $v`: the key now holds `v`, and every other key is unchanged. */
  function Put<K(==, !new), V>(a: Assoc<K, V>, k: K, v: V): (r: Assoc<K, V>)
    ensures Get(r, k) == Some(v)
    ensures forall k' :: k' != k ==> Get(r, k') == Get(a, k')
  {
    if a == [] then [(k, v)]
    else if a[0].0 == k then [(k, v)] + a[1..]
    else
      var t := Put(a[1..], k, v);
      var r := [a[0]] + t;
      assert r[1..] == t;
      r
  }

  lemma KeysCons<K, V>(x: (K, V), t: Assoc<K, V>)
    ensures Keys([x] + t) == [x.0] + Keys(t)
  {
    assert ([x] + t)[1..] == t;
  }

  /** An existing key keeps its position; a new key is appended after all others. */
  lemma {:induction false} PutKeys<K(!new), V>(a: Assoc<K, V>, k: K, v: V)
    ensures Keys(Put(a, k, v)) == if k in Keys(a) then Keys(a) else Keys(a) + [k]
  {
    if a != [] {
      var x, rest := a[0], a[1..];
      assert a == [x] + rest;
      if x.0 != k {
        var t := Put(rest, k, v);
        PutKeys(rest, k, v);
        assert Put(a, k, v) == [x] + t;
        KeysConsStep(x, rest, t, k);
      } else {
        assert Put(a, k, v) == [(k, v)] + rest;
        KeysCons((k, v), rest);
        KeysCons(x, rest);
      }
    }
  }

  /** The inductive step of `PutKeys`, stated on the arrays alone. */
  lemma KeysConsStep<K, V>(x: (K, V), t: Assoc<K, V>, t': Assoc<K, V>, k: K)
    requires x.0 != k
    requires Keys(t') == if k in Keys(t) then Keys(t) else Keys(t) + [k]
    ensures Keys([x] + t') == if k in Keys([x] + t) then Keys([x] + t) else Keys([x] + t) + [k]
  {
    KeysCons(x, t);
    KeysCons(x, t');
    assert k in Keys([x] + t) <==> k in Keys(t);
  }

  /** Assignment never introduces a duplicate key. */
  lemma PutKeepsUnique<K(!new), V>(a: Assoc<K, V>, k: K, v: V)
    requires UniqueKeys(a)
    ensures UniqueKeys(Put(a, k, v))
  {
    var r := Put(a, k, v);
    PutKeys(a, k, v);
    forall i, j | 0 <= i < j < |r|
      ensures r[i].0 != r[j].0
    {
      assert Keys(r)[i] == r[i].0 && Keys(r)[j] == r[j].0;
      if j < |a| {
        assert Keys(a)[i] == a[i].0 && Keys(a)[j] == a[j].0;
      } else {
        assert Keys(a)[i] == a[i].0;
      }
    }
  }

  /** PHP's byte-wise string comparison `strcmp($a, $b) < 0`. */
  predicate StrLess(a: string, b: string)
  {
    if a == [] then b != []
    else b != [] && (a[0] < b[0] || (a[0] == b[0] && StrLess(a[1..], b[1..])))
  }

  lemma {:induction false} StrLessIrreflexive(a: string)
    ensures !StrLess(a, a)
  {
    if a != [] {
      StrLessIrreflexive(a[1..]);
    }
  }

  lemma {:induction false} StrLessTransitive(a: string, b: string, c: string)
    requires StrLess(a, b) && StrLess(b, c)
    ensures StrLess(a, c)
  {
    if a != [] && a[0] == b[0] && b[0] == c[0] {
      StrLessTransitive(a[1..], b[1..], c[1..]);
    }
  }

  lemma {:induction false} StrLessTotal(a: string, b: string)
    requires a != b
    ensures StrLess(a, b) || StrLess(b, a)
  {
    if a != [] && b != [] && a[0] == b[0] {
      assert a == [a[0]] + a[1..] && b == [b[0]] + b[1..];
      StrLessTotal(a[1..], b[1..]);
    }
  }

  /** Keys strictly ascending: what `ksort` leaves behind when keys are unique. */
  predicate SortedKeys<V>(a: Assoc<string, V>)
  {
    forall i, j :: 0 <= i < j < |a| ==> StrLess(a[i].0, a[j].0)
  }

  lemma SortedKeysUnique<V>(a: Assoc<string, V>)
    requires SortedKeys(a)
    ensures UniqueKeys(a)
  {
    forall i, j | 0 <= i < j < |a|
      ensures a[i].0 != a[j].0
    {
      StrLessIrreflexive(a[i].0);
    }
  }

  /** Insert one entry into a key-sorted array at its place. */
  function Insert<V>(s: Assoc<string, V>, p: (string, V)): (r: Assoc<string, V>)
    ensures multiset(r) == multiset(s) + multiset{p}
  {
    if s == [] then [p]
    else if StrLess(p.0, s[0].0) then [p] + s
    else
      assert s == [s[0]] + s[1..];
      [s[0]] + Insert(s[1..], p)
  }

  /** `ksort($a)`: the array's entries reordered by ascending key. */
  function KSort<V>(a: Assoc<string, V>): (r: Assoc<string, V>)
    ensures multiset(r) == multiset(a)
  {
    if a == [] then []
    else
      assert a == a[..|a| - 1] + [a[|a| - 1]];
      Insert(KSort(a[..|a| - 1]), a[|a| - 1])
  }

  /** Putting an entry in front of a sorted array keeps it sorted when its key is below all others. */
  lemma SortedCons<V>(x: (string, V), t: Assoc<string, V>)
    requires SortedKeys(t)
    requires forall j :: 0 <= j < |t| ==> StrLess(x.0, t[j].0)
    ensures SortedKeys([x] + t)
  {
    var r := [x] + t;
    forall i, j | 0 <= i < j < |r|
      ensures StrLess(r[i].0, r[j].0)
    {
      assert r[j] == t[j - 1];
      if i > 0 {
        assert r[i] == t[i - 1];
      }
    }
  }

  lemma SortedTail<V>(s: Assoc<string, V>)
    requires SortedKeys(s) && s != []
    ensures SortedKeys(s[1..])
  {
    var rest := s[1..];
    forall i, j | 0 <= i < j < |rest|
      ensures StrLess(rest[i].0, rest[j].0)
    {
      assert rest[i] == s[i + 1] && rest[j] == s[j + 1];
    }
  }

  lemma InsertElements<V>(s: Assoc<string, V>, p: (string, V))
    ensures forall j :: 0 <= j < |Insert(s, p)| ==>
              Insert(s, p)[j] == p || exists k :: 0 <= k < |s| && s[k] == Insert(s, p)[j]
  {
    var t := Insert(s, p);
    forall j | 0 <= j < |t| && t[j] != p
      ensures exists k :: 0 <= k < |s| && s[k] == t[j]
    {
      assert t[j] in multiset(t);
      assert t[j] in multiset(s);
    }
  }

  lemma {:induction false} InsertSorted<V>(s: Assoc<string, V>, p: (string, V))
    requires SortedKeys(s)
    requires p.0 !in Keys(s)
    ensures SortedKeys(Insert(s, p))
  {
    if s == [] {
    } else if StrLess(p.0, s[0].0) {
      forall j | 0 <= j < |s|
        ensures StrLess(p.0, s[j].0)
      {
        if j > 0 {
          StrLessTransitive(p.0, s[0].0, s[j].0);
        }
      }
      SortedCons(p, s);
    } else {
      var rest := s[1..];
      assert StrLess(s[0].0, p.0) by {
        assert Keys(s)[0] == s[0].0;
        StrLessTotal(p.0, s[0].0);
      }
      assert SortedKeys(rest) by {
        SortedTail(s);
      }
      assert p.0 !in Keys(rest) by {
        forall i | 0 <= i < |rest|
          ensures Keys(rest)[i] != p.0
        {
          assert rest[i] == s[i + 1] && Keys(s)[i + 1] == s[i + 1].0;
        }
      }
      InsertSorted(rest, p);
      var t := Insert(rest, p);
      assert forall j :: 0 <= j < |t| ==> StrLess(s[0].0, t[j].0) by {
        InsertElements(rest, p);
        forall j | 0 <= j < |t| && t[j] != p
          ensures StrLess(s[0].0, t[j].0)
        {
          var k :| 0 <= k < |rest| && rest[k] == t[j];
          assert s[k + 1] == t[j];
        }
      }
      SortedCons(s[0], t);
    }
  }

  lemma {:induction false} KSortSorted<V>(a: Assoc<string, V>)
    requires UniqueKeys(a)
    ensures SortedKeys(KSort(a))
  {
    if a != [] {
      var init, last := a[..|a| - 1], a[|a| - 1];
      KSortSorted(init);
      var s := KSort(init);
      forall i | 0 <= i < |s|
        ensures Keys(s)[i] != last.0
      {
        assert s[i] in multiset(init);
        var j :| 0 <= j < |init| && init[j] == s[i];
        assert a[j] == init[j];
      }
      InsertSorted(s, last);
    }
  }

  /** Two duplicate-free arrays holding the same entries answer every lookup alike. */
  lemma SameEntriesSameLookup<K, V>(a: Assoc<K, V>, b: Assoc<K, V>, k: K)
    requires UniqueKeys(a) && UniqueKeys(b)
    requires multiset(a) == multiset(b)
    ensures Get(a, k) == Get(b, k)
  {
    if Get(a, k).Some? {
      var v := Get(a, k).value;
      assert (k, v) in multiset(b);
      var i :| 0 <= i < |b| && b[i] == (k, v);
    }
    if Get(b, k).Some? {
      var w := Get(b, k).value;
      assert (k, w) in multiset(a);
      var i :| 0 <= i < |a| && a[i] == (k, w);
    }
  }

  /**
   * `ksort` on an array with unique string keys: the keys come out strictly
   * ascending, are the same set of keys, and every lookup is unchanged.
   */
  lemma KSortSpec<V>(a: Assoc<string, V>)
    requires UniqueKeys(a)
    ensures SortedKeys(KSort(a)) && UniqueKeys(KSort(a))
    ensures forall k :: k in Keys(KSort(a)) <==> k in Keys(a)
    ensures forall k :: Get(KSort(a), k) == Get(a, k)
  {
    KSortSorted(a);
    SortedKeysUnique(KSort(a));
    forall k
      ensures Get(KSort(a), k) == Get(a, k)
      ensures k in Keys(KSort(a)) <==> k in Keys(a)
    {
      SameEntriesSameLookup(KSort(a), a, k);
    }
  }
}
