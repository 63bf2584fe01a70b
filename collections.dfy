/**
 * The array operations the application uses (`filter`, `reduce` to a sum, `slice(0, n)`,
 * the stable `sort` by a numeric key with `(a, b) => key(b) - key(a)`) and the enumeration of
 * a dictionary's entries, whose order the model leaves open.
 */
module Collections {

  /** `s.slice(0, n)`. */
  function Take<T>(s: seq<T>, n: nat): (r: seq<T>)
    ensures |r| == if |s| < n then |s| else n
    ensures r <= s
  {
    if |s| < n then s else s[..n]
  }

  /** `s.filter(p)`: the elements satisfying `p`, in their order. */
  function Filter<T(==)>(s: seq<T>, p: T -> bool): (r: seq<T>)
    ensures |r| <= |s|
    ensures forall i :: 0 <= i < |r| ==> r[i] in s && p(r[i])
    ensures forall i :: 0 <= i < |s| && p(s[i]) ==> s[i] in r
  {
    if s == [] then [] else (if p(s[0]) then [s[0]] else []) + Filter(s[1..], p)
  }

  /** What a filter keeps are exactly the elements that pass it. */
  lemma FilterMembers<T>(s: seq<T>, p: T -> bool)
    ensures forall x :: x in Filter(s, p) <==> x in s && p(x)
  {
  }

  /** Filtering a concatenation filters each part: the filter keeps the order of its input. */
  lemma {:induction false} FilterAppend<T>(a: seq<T>, b: seq<T>, p: T -> bool)
    ensures Filter(a + b, p) == Filter(a, p) + Filter(b, p)
  {
    if a == [] {
      assert a + b == b;
    } else {
      assert (a + b)[0] == a[0];
      assert (a + b)[1..] == a[1..] + b;
      FilterAppend(a[1..], b, p);
    }
  }

  /** A filter whose test every element passes returns its input. */
  lemma {:induction false} FilterAllKept<T>(s: seq<T>, p: T -> bool)
    requires forall i :: 0 <= i < |s| ==> p(s[i])
    ensures Filter(s, p) == s
  {
    if s != [] {
      FilterAllKept(s[1..], p);
      assert s == [s[0]] + s[1..];
    }
  }

  /** Two filters in a row keep what passes both, in the same order as one filter testing
      both would. */
  lemma {:induction false} FilterFilter<T>(s: seq<T>, p: T -> bool, q: T -> bool, pq: T -> bool)
    requires forall x :: pq(x) == (p(x) && q(x))
    ensures Filter(Filter(s, p), q) == Filter(s, pq)
  {
    if s != [] {
      FilterFilter(s[1..], p, q, pq);
      var rest := Filter(s[1..], p);
      if p(s[0]) {
        var kept := [s[0]] + rest;
        assert Filter(s, p) == kept;
        assert kept[0] == s[0] && kept[1..] == rest;
        assert Filter(kept, q) == (if q(s[0]) then [s[0]] else []) + Filter(rest, q);
      } else {
        assert Filter(s, p) == rest;
      }
    }
  }

  /** Once the front of a list has `n` elements passing the filter, the first `n` that
      pass do not depend on what follows. */
  lemma TakeFilterAppend<T>(a: seq<T>, b: seq<T>, p: T -> bool, n: nat)
    requires |Filter(a, p)| >= n
    ensures Take(Filter(a + b, p), n) == Take(Filter(a, p), n)
  {
    FilterAppend(a, b, p);
    var fa, fb := Filter(a, p), Filter(b, p);
    assert (fa + fb)[..n] == fa[..n];
  }

  /** `s.map(f)`. */
  function MapSeq<T, U>(s: seq<T>, f: T -> U): (r: seq<U>)
    ensures |r| == |s| && forall i :: 0 <= i < |s| ==> r[i] == f(s[i])
  {
    seq(|s|, i requires 0 <= i < |s| => f(s[i]))
  }

  /** The images of a mapped sequence are exactly the images of its elements. */
  lemma MapSeqMembers<T, U>(s: seq<T>, f: T -> U)
    ensures forall u :: u in MapSeq(s, f) <==> exists j :: 0 <= j < |s| && u == f(s[j])
  {
    var r := MapSeq(s, f);
    forall u | u in r ensures exists j :: 0 <= j < |s| && u == f(s[j]) {
      var j :| 0 <= j < |r| && r[j] == u;
    }
  }

  /** `s.reduce((acc, x) => acc + f(x), 0)`. */
  function SumBy<T>(s: seq<T>, f: T -> int): int {
    if s == [] then 0 else SumBy(s[..|s| - 1], f) + f(s[|s| - 1])
  }

  lemma {:induction false} SumByAppend<T>(a: seq<T>, b: seq<T>, f: T -> int)
    ensures SumBy(a + b, f) == SumBy(a, f) + SumBy(b, f)
    decreases |b|
  {
    if b == [] {
      assert a + b == a;
    } else {
      assert (a + b)[..|a + b| - 1] == a + b[..|b| - 1];
      SumByAppend(a, b[..|b| - 1], f);
    }
  }

  lemma SumByCons<T>(x: T, s: seq<T>, f: T -> int)
    ensures SumBy([x] + s, f) == f(x) + SumBy(s, f)
  {
    SumByAppend([x], s, f);
    assert [x][..0] == [];
  }

  /** A sum of non-negative terms is non-negative. */
  lemma {:induction false} SumByNonNegative<T>(s: seq<T>, f: T -> int)
    requires forall i :: 0 <= i < |s| ==> f(s[i]) >= 0
    ensures SumBy(s, f) >= 0
  {
    if s != [] {
      SumByNonNegative(s[..|s| - 1], f);
    }
  }

  predicate SortedDesc<T>(s: seq<T>, key: T -> int) {
    forall i, j :: 0 <= i < j < |s| ==> key(s[i]) >= key(s[j])
  }

  /** Inserts `x` before the first element whose key is not above its own. */
  function InsertDesc<T(==)>(x: T, s: seq<T>, key: T -> int): (r: seq<T>)
    requires SortedDesc(s, key)
    ensures SortedDesc(r, key)
    ensures multiset(r) == multiset(s) + multiset{x}
    ensures |r| == |s| + 1
    ensures r[0] == x || (s != [] && r[0] == s[0])
  {
    if s == [] || key(x) >= key(s[0]) then
      [x] + s
    else
      var tail := InsertDesc(x, s[1..], key);
      assert s == [s[0]] + s[1..];
      assert key(s[0]) >= key(tail[0]);
      [s[0]] + tail
  }

  /** `[...s].sort((a, b) => key(b) - key(a))`: a stable insertion sort, greatest key first;
      the result is ordered and holds the same elements. */
  function SortDesc<T(==)>(s: seq<T>, key: T -> int): (r: seq<T>)
    ensures SortedDesc(r, key)
    ensures multiset(r) == multiset(s)
    ensures |r| == |s|
  {
    if s == [] then []
    else
      assert s == [s[0]] + s[1..];
      InsertDesc(s[0], SortDesc(s[1..], key), key)
  }

  /** Sorting keeps exactly the elements it was given. */
  lemma SortDescMembers<T>(s: seq<T>, key: T -> int)
    ensures forall x :: x in SortDesc(s, key) <==> x in s
  {
    var r := SortDesc(s, key);
    forall x ensures x in r <==> x in s {
      assert x in r <==> x in multiset(r);
      assert x in s <==> x in multiset(s);
    }
  }

  /** Filtering, mapping and sorting keep the images of exactly the elements that pass. */
  lemma FilterMapSortMembers<T, U>(all: seq<T>, p: T -> bool, f: T -> U, key: U -> int)
    ensures forall u :: u in SortDesc(MapSeq(Filter(all, p), f), key) <==>
              exists k :: 0 <= k < |all| && p(all[k]) && u == f(all[k])
  {
    var owned := Filter(all, p);
    var mapped := MapSeq(owned, f);
    SortDescMembers(mapped, key);
    forall u ensures u in mapped <==> exists k :: 0 <= k < |all| && p(all[k]) && u == f(all[k]) {
      if u in mapped {
        var i :| 0 <= i < |mapped| && mapped[i] == u;
        var k :| 0 <= k < |all| && all[k] == owned[i];
      }
      if k :| 0 <= k < |all| && p(all[k]) && u == f(all[k]) {
        var j :| 0 <= j < |owned| && owned[j] == all[k];
        assert mapped[j] == u;
      }
    }
  }

  /** Adding a key to a dictionary adds that key and leaves every other entry alone. */
  lemma MapInsertFacts<K, V>(m: map<K, V>, k: K, v: V)
    requires k !in m
    ensures m[k := v].Keys == m.Keys + {k}
    ensures forall j :: j in m ==> m[k := v][j] == m[j]
  {
  }

  lemma MapHasKey<K, V>(m: map<K, V>, k: K)
    requires k in m
    ensures m.Keys + {k} == m.Keys
  {
  }

  predicate Distinct<T(==)>(s: seq<T>) {
    forall i, j :: 0 <= i < j < |s| ==> s[i] != s[j]
  }

  /** No two elements of `s` agree on `f`. */
  predicate DistinctBy<T, K(==)>(s: seq<T>, f: T -> K) {
    forall i, j :: 0 <= i < j < |s| ==> f(s[i]) != f(s[j])
  }

  /** A filter keeps elements that differ on `f` apart. */
  lemma {:induction false} FilterDistinctBy<T, K>(s: seq<T>, p: T -> bool, f: T -> K)
    requires DistinctBy(s, f)
    ensures DistinctBy(Filter(s, p), f)
  {
    if s != [] {
      var rest := Filter(s[1..], p);
      assert DistinctBy(s[1..], f) by {
        forall i, j | 0 <= i < j < |s[1..]| ensures f(s[1..][i]) != f(s[1..][j]) {
          assert s[1..][i] == s[i + 1] && s[1..][j] == s[j + 1];
        }
      }
      FilterDistinctBy(s[1..], p, f);
      if p(s[0]) {
        var r := [s[0]] + rest;
        forall i, j | 0 <= i < j < |r| ensures f(r[i]) != f(r[j]) {
          if i == 0 {
            assert r[j] == rest[j - 1] && rest[j - 1] in s[1..];
            var k :| 0 <= k < |s[1..]| && s[1..][k] == rest[j - 1];
            assert s[k + 1] == r[j];
          } else {
            assert r[i] == rest[i - 1] && r[j] == rest[j - 1];
          }
        }
      }
    }
  }

  /** An element appears at most once in a list without repeats. */
  lemma {:induction false} DistinctCount<T>(s: seq<T>, x: T)
    requires Distinct(s)
    ensures multiset(s)[x] <= 1
  {
    if s != [] {
      assert s == [s[0]] + s[1..];
      assert Distinct(s[1..]) by {
        forall i, j | 0 <= i < j < |s[1..]| ensures s[1..][i] != s[1..][j] {
          assert s[1..][i] == s[i + 1] && s[1..][j] == s[j + 1];
        }
      }
      DistinctCount(s[1..], x);
      if s[0] == x {
        assert x !in s[1..] by {
          forall k | 0 <= k < |s[1..]| ensures s[1..][k] != x {
            assert s[1..][k] == s[k + 1];
          }
        }
      }
    }
  }

  /** A rearrangement of a list without repeats has none either. */
  lemma DistinctOfMultiset<T>(a: seq<T>, b: seq<T>)
    requires Distinct(a) && multiset(a) == multiset(b)
    ensures Distinct(b)
  {
    forall i, j | 0 <= i < j < |b| ensures b[i] != b[j] {
      if b[i] == b[j] {
        var x := b[i];
        assert b == b[..j] + b[j..];
        assert x in b[..j] && x in b[j..];
        assert multiset(b)[x] == multiset(b[..j])[x] + multiset(b[j..])[x];
        DistinctCount(a, x);
        assert false;
      }
    }
  }

  /** The keys of a dictionary, each once, in an order the model leaves open (the source
      relies on `Object.values` and on the object store's own order here). */
  method KeysOf<K, V>(m: map<K, V>) returns (ks: seq<K>)
    ensures forall k :: k in ks <==> k in m
    ensures Distinct(ks)
    ensures |ks| == |m.Keys|
  {
    ks := [];
    var rest := m.Keys;
    while rest != {}
      invariant rest <= m.Keys
      invariant forall k :: k in ks <==> k in m && k !in rest
      invariant Distinct(ks)
      invariant |ks| + |rest| == |m.Keys|
      decreases |rest|
    {
      var k :| k in rest;
      ks := ks + [k];
      rest := rest - {k};
    }
  }

  /** Values listed against a listing of all of a map's keys are exactly the map's values. */
  lemma ValuesMembers<K, V>(m: map<K, V>, ks: seq<K>, vs: seq<V>)
    requires forall k :: k in ks <==> k in m
    requires |vs| == |ks|
    requires forall i :: 0 <= i < |ks| ==> ks[i] in m && vs[i] == m[ks[i]]
    ensures forall v :: v in vs <==> exists k :: k in m && m[k] == v
  {
    forall v ensures v in vs <==> exists k :: k in m && m[k] == v {
      if v in vs {
        var i :| 0 <= i < |vs| && vs[i] == v;
        assert ks[i] in m && m[ks[i]] == v;
      }
      if k :| k in m && m[k] == v {
        var i :| 0 <= i < |ks| && ks[i] == k;
        assert vs[i] == v;
      }
    }
  }

  /** The values of a dictionary, one per key, in the order of `KeysOf`. */
  method ValuesOf<K, V>(m: map<K, V>) returns (ks: seq<K>, vs: seq<V>)
    ensures forall k :: k in ks <==> k in m
    ensures Distinct(ks)
    ensures |vs| == |ks| == |m.Keys|
    ensures forall i :: 0 <= i < |ks| ==> ks[i] in m && vs[i] == m[ks[i]]
  {
    ks := KeysOf(m);
    vs := seq(|ks|, i requires 0 <= i < |ks| => m[ks[i]]);
  }
}
