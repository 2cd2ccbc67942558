/**
 * The iterator adaptors the queries are built from (`filter`, `filter_map`,
 * the values of a `HashMap` in its iteration order) and the stable sort
 * behind `sort_by` / `sort_by_key`.
 */
module Seqs {
  import opened Wrappers

  /** `s.iter().filter(p).collect()`. */
  function Filter<T(!new)>(s: seq<T>, p: T -> bool): (r: seq<T>)
    ensures |r| <= |s|
    decreases |s|
  {
    if s == [] then []
    else (if p(s[0]) then [s[0]] else []) + Filter(s[1..], p)
  }

  /** The filter keeps exactly the elements that pass, and each no more often than it occurs. */
  lemma {:induction false} FilterMembers<T(!new)>(s: seq<T>, p: T -> bool)
    ensures forall x :: x in Filter(s, p) <==> x in s && p(x)
    ensures multiset(Filter(s, p)) <= multiset(s)
    decreases |s|
  {
    if s != [] {
      FilterMembers(s[1..], p);
      assert s == [s[0]] + s[1..];
    }
  }

  /** One element: it is kept exactly when it occurs and passes. */
  lemma FilterHas<T(!new)>(s: seq<T>, p: T -> bool, x: T)
    ensures x in Filter(s, p) <==> x in s && p(x)
  {
    FilterMembers(s, p);
  }

  /** The filter keeps each element no more often than it occurs. */
  lemma FilterSubMultiset<T(!new)>(s: seq<T>, p: T -> bool)
    ensures multiset(Filter(s, p)) <= multiset(s)
  {
    FilterMembers(s, p);
  }

  /** Filtering keeps the order: filtering a concatenation filters each part. */
  lemma {:induction false} FilterAppend<T(!new)>(a: seq<T>, b: seq<T>, p: T -> bool)
    ensures Filter(a + b, p) == Filter(a, p) + Filter(b, p)
    decreases |a|
  {
    if a != [] {
      assert (a + b)[0] == a[0] && (a + b)[1..] == a[1..] + b;
      FilterAppend(a[1..], b, p);
    } else {
      assert a + b == b;
    }
  }

  /** A filter that keeps everything returns its input unchanged. */
  lemma {:induction false} FilterAll<T(!new)>(s: seq<T>, p: T -> bool)
    requires forall x :: x in s ==> p(x)
    ensures Filter(s, p) == s
    decreases |s|
  {
    if s != [] {
      assert p(s[0]) by { assert s[0] in s; }
      assert forall x :: x in s[1..] ==> x in s;
      FilterAll(s[1..], p);
      assert Filter(s, p) == [s[0]] + Filter(s[1..], p);
      assert s == [s[0]] + s[1..];
    }
  }


  /** Two filters in a row keep what passes both. */
  lemma {:induction false} FilterFilter<T(!new)>(s: seq<T>, p: T -> bool, q: T -> bool)
    ensures Filter(Filter(s, p), q) == Filter(s, x => p(x) && q(x))
    decreases |s|
  {
    if s != [] {
      FilterFilter(s[1..], p, q);
      FilterAppend(if p(s[0]) then [s[0]] else [], Filter(s[1..], p), q);
    }
  }

  /** `s.iter().filter_map(f).collect()`. */
  function FilterMap<T(!new), U(!new)>(s: seq<T>, f: T -> Option<U>): (r: seq<U>)
    ensures |r| <= |s|
    decreases |s|
  {
    if s == [] then []
    else
      var rest := FilterMap(s[1..], f);
      match f(s[0])
      case Some(y) => [y] + rest
      case None => rest
  }

  /** The results are exactly the images of the elements `f` maps to something. */
  lemma {:induction false} FilterMapMembers<T(!new), U(!new)>(s: seq<T>, f: T -> Option<U>)
    ensures forall y :: y in FilterMap(s, f) <==> exists x :: x in s && f(x) == Some(y)
    decreases |s|
  {
    if s != [] {
      FilterMapMembers(s[1..], f);
      assert forall x :: x in s[1..] ==> x in s;
      assert forall x :: x in s ==> x == s[0] || x in s[1..];
    }
  }

  /** `filter_map` keeps the order: results of earlier elements come first. */
  lemma {:induction false} FilterMapAppend<T(!new), U(!new)>(a: seq<T>, b: seq<T>, f: T -> Option<U>)
    ensures FilterMap(a + b, f) == FilterMap(a, f) + FilterMap(b, f)
    decreases |a|
  {
    if a != [] {
      assert (a + b)[0] == a[0] && (a + b)[1..] == a[1..] + b;
      FilterMapAppend(a[1..], b, f);
      FilterMapHead(a, f);
      FilterMapHead(a + b, f);
      var h, x, y := (if f(a[0]).Some? then [f(a[0]).value] else []), FilterMap(a[1..], f), FilterMap(b, f);
      assert h + (x + y) == (h + x) + y;
    } else {
      assert a + b == b;
    }
  }

  /** The first element contributes its image, if any, in front of the rest. */
  lemma FilterMapHead<T(!new), U(!new)>(s: seq<T>, f: T -> Option<U>)
    requires s != []
    ensures FilterMap(s, f) == (if f(s[0]).Some? then [f(s[0]).value] else []) + FilterMap(s[1..], f)
  {
  }



  /** Two functions that agree on every element give the same `filter_map`. */
  lemma {:induction false} FilterMapCongruent<T(!new), U(!new)>(s: seq<T>, f: T -> Option<U>, g: T -> Option<U>)
    requires forall i :: 0 <= i < |s| ==> f(s[i]) == g(s[i])
    ensures FilterMap(s, f) == FilterMap(s, g)
    decreases |s|
  {
    if s != [] {
      assert f(s[0]) == g(s[0]);
      forall i | 0 <= i < |s[1..]| ensures f(s[1..][i]) == g(s[1..][i]) {
        assert s[1..][i] == s[i + 1];
      }
      FilterMapCongruent(s[1..], f, g);
    }
  }

  /** A `filter_map` whose function is `Some` everywhere is a plain map. */
  lemma {:induction false} FilterMapIdentity<T(!new)>(s: seq<T>)
    ensures FilterMap(s, (x: T) => Some(x)) == s
    decreases |s|
  {
    if s != [] {
      FilterMapIdentity(s[1..]);
    }
  }

  /** `keys` lists every key of `m` exactly once: an iteration order of the map. */
  ghost predicate IsKeyOrder<K(!new), V>(m: map<K, V>, keys: seq<K>) {
    (forall i, j :: 0 <= i < j < |keys| ==> keys[i] != keys[j]) &&
    (forall k :: k in keys <==> k in m)
  }

  /** `m.values()` when the map is iterated in the order `keys`. */
  function Values<K(!new), V>(m: map<K, V>, keys: seq<K>): (r: seq<V>)
    requires IsKeyOrder(m, keys)
    ensures |r| == |keys|
    ensures forall i :: 0 <= i < |keys| ==> r[i] == m[keys[i]]
  {
    seq(|keys|, i requires 0 <= i < |keys| => m[keys[i]])
  }

  /** Every stored value shows up among the values, and nothing else does. */
  lemma ValuesAreStored<K(!new), V>(m: map<K, V>, keys: seq<K>)
    requires IsKeyOrder(m, keys)
    ensures forall k :: k in m ==> m[k] in Values(m, keys)
    ensures forall v :: v in Values(m, keys) ==> exists k :: k in m && m[k] == v
  {
    var vs := Values(m, keys);
    forall k | k in m ensures m[k] in vs {
      var i :| 0 <= i < |keys| && keys[i] == k;
      assert vs[i] == m[k];
    }
  }

  /** There are as many values as keys. */
  lemma {:induction false} KeyOrderSize<K(!new), V>(m: map<K, V>, keys: seq<K>)
    requires IsKeyOrder(m, keys)
    ensures |keys| == |m|
    decreases |keys|
  {
    if keys == [] {
      assert m.Keys == {};
    } else {
      var k := keys[|keys| - 1];
      var m' := map j | j in m && j != k :: m[j];
      var keys' := keys[..|keys| - 1];
      assert IsKeyOrder(m', keys') by {
        forall j ensures j in keys' <==> j in m' {
          if j in keys' {
            var i :| 0 <= i < |keys'| && keys'[i] == j;
            assert keys[i] == j;
          }
          if j in m' {
            var i :| 0 <= i < |keys| && keys[i] == j;
            assert i != |keys| - 1;
            assert keys'[i] == j;
          }
        }
      }
      KeyOrderSize(m', keys');
      assert m.Keys == m'.Keys + {k};
    }
  }

  /** The values of `m` that pass `p`, in the order `keys`: `m.values().filter(p).cloned().collect()`. */
  lemma FilterValuesMembers<K(!new), V(!new)>(m: map<K, V>, keys: seq<K>, p: V -> bool)
    requires IsKeyOrder(m, keys)
    ensures forall v :: v in Filter(Values(m, keys), p) <==> v in m.Values && p(v)
    ensures multiset(Filter(Values(m, keys), p)) <= multiset(Values(m, keys))
  {
    FilterMembers(Values(m, keys), p);
    ValuesAreStored(m, keys);
  }

  /** `s.iter().map(f).collect()`. */
  function Map<T, U>(s: seq<T>, f: T -> U): (r: seq<U>)
    ensures |r| == |s| && forall i :: 0 <= i < |s| ==> r[i] == f(s[i])
  {
    seq(|s|, i requires 0 <= i < |s| => f(s[i]))
  }

  // ---- Sorting ----

  /** `le` is a total preorder: the orderings `sort_by` is meant for. */
  ghost predicate IsTotalPreorder<T(!new)>(le: (T, T) -> bool) {
    (forall a, b :: le(a, b) || le(b, a)) &&
    (forall a, b, c :: le(a, b) && le(b, c) ==> le(a, c))
  }

  predicate Sorted<T>(s: seq<T>, le: (T, T) -> bool) {
    forall i, j :: 0 <= i < j < |s| ==> le(s[i], s[j])
  }

  /** Inserts `x` in front of the first element of the sorted `s` that it does not exceed. */
  function Insert<T>(x: T, s: seq<T>, le: (T, T) -> bool): (r: seq<T>)
    ensures |r| == |s| + 1
    decreases |s|
  {
    if s == [] then [x]
    else if le(x, s[0]) then [x] + s
    else
      assert s == [s[0]] + s[1..];
      [s[0]] + Insert(x, s[1..], le)
  }

  /** Inserting adds `x` to the elements of `s` and nothing else. */
  lemma {:induction false} InsertPermutes<T>(x: T, s: seq<T>, le: (T, T) -> bool)
    ensures multiset(Insert(x, s, le)) == multiset(s) + multiset{x}
    decreases |s|
  {
    if s != [] && !le(x, s[0]) {
      InsertPermutes(x, s[1..], le);
      assert s == [s[0]] + s[1..];
    }
  }

  /** Insertion sort, earlier elements going in front of equal later ones: the result is a permutation of the input. */
  function Sort<T>(s: seq<T>, le: (T, T) -> bool): (r: seq<T>)
    ensures multiset(r) == multiset(s)
    ensures |r| == |s|
    decreases |s|
  {
    if s == [] then []
    else
      assert s == [s[0]] + s[1..];
      InsertPermutes(s[0], Sort(s[1..], le), le);
      Insert(s[0], Sort(s[1..], le), le)
  }

  lemma {:induction false} InsertSorted<T(!new)>(x: T, s: seq<T>, le: (T, T) -> bool)
    requires IsTotalPreorder(le) && Sorted(s, le)
    ensures Sorted(Insert(x, s, le), le)
    decreases |s|
  {
    if s != [] && !le(x, s[0]) {
      InsertSorted(x, s[1..], le);
      var r := Insert(x, s[1..], le);
      assert le(s[0], x);
      assert forall j :: 0 <= j < |s[1..]| ==> le(s[0], s[1..][j]) by {
        forall j | 0 <= j < |s[1..]| ensures le(s[0], s[1..][j]) {
          assert s[1..][j] == s[j + 1];
        }
      }
      InsertKeepsLowerBound(s[0], x, s[1..], le);
      SortedCons(s[0], r, le);
    }
  }

  /** A lower bound of `x` and of every element of `s` is a lower bound of every element of the insertion. */
  lemma InsertKeepsLowerBound<T(!new)>(b: T, x: T, s: seq<T>, le: (T, T) -> bool)
    requires le(b, x) && forall j :: 0 <= j < |s| ==> le(b, s[j])
    ensures forall j :: 0 <= j < |Insert(x, s, le)| ==> le(b, Insert(x, s, le)[j])
  {
    var r := Insert(x, s, le);
    InsertPermutes(x, s, le);
    forall j | 0 <= j < |r| ensures le(b, r[j]) {
      assert r[j] in multiset(r);
      if r[j] != x {
        assert r[j] in multiset(s);
        var k :| 0 <= k < |s| && s[k] == r[j];
      }
    }
  }

  /** Putting a lower bound in front of a sorted sequence keeps it sorted. */
  lemma SortedCons<T>(b: T, r: seq<T>, le: (T, T) -> bool)
    requires Sorted(r, le) && forall j :: 0 <= j < |r| ==> le(b, r[j])
    ensures Sorted([b] + r, le)
  {
    var q := [b] + r;
    forall i, j | 0 <= i < j < |q| ensures le(q[i], q[j]) {
      assert q[j] == r[j - 1];
      if i > 0 {
        assert q[i] == r[i - 1];
      }
    }
  }


  /** The result of `Sort` is in order. */
  lemma {:induction false} SortSorted<T(!new)>(s: seq<T>, le: (T, T) -> bool)
    requires IsTotalPreorder(le)
    ensures Sorted(Sort(s, le), le)
    decreases |s|
  {
    if s != [] {
      SortSorted(s[1..], le);
      InsertSorted(s[0], Sort(s[1..], le), le);
    }
  }

  /** A `filter_map` that respects the order keeps a sorted sequence sorted. */
  lemma {:induction false} FilterMapSorted<T(!new), U(!new)>(s: seq<T>, f: T -> Option<U>, le: (T, T) -> bool, le2: (U, U) -> bool)
    requires Sorted(s, le)
    requires forall a, b :: f(a).Some? && f(b).Some? && le(a, b) ==> le2(f(a).value, f(b).value)
    ensures Sorted(FilterMap(s, f), le2)
    decreases |s|
  {
    if s != [] {
      var tail := s[1..];
      assert Sorted(tail, le) by {
        forall i, j | 0 <= i < j < |tail| ensures le(tail[i], tail[j]) {
          assert tail[i] == s[i + 1] && tail[j] == s[j + 1];
        }
      }
      FilterMapSorted(tail, f, le, le2);
      FilterMapHead(s, f);
      var rest := FilterMap(tail, f);
      if f(s[0]).Some? {
        FilterMapMembers(tail, f);
        forall j | 0 <= j < |rest| ensures le2(f(s[0]).value, rest[j]) {
          assert rest[j] in rest;
          var x :| x in tail && f(x) == Some(rest[j]);
          var k :| 0 <= k < |tail| && tail[k] == x;
          assert s[k + 1] == x;
        }
        SortedCons(f(s[0]).value, rest, le2);
      }
    }
  }

  /** Sorting neither adds nor loses an element. */
  lemma SortMembers<T>(s: seq<T>, le: (T, T) -> bool)
    ensures forall x :: x in Sort(s, le) <==> x in s
  {
    var r := Sort(s, le);
    forall x ensures x in r <==> x in s {
      assert x in r <==> x in multiset(r);
      assert x in s <==> x in multiset(s);
    }
  }

  /** Mapping the stored values gives the image of every stored value, and nothing else. */
  lemma MapValues<K(!new), V, U>(m: map<K, V>, keys: seq<K>, g: V -> U)
    requires IsKeyOrder(m, keys)
    ensures forall k :: k in m ==> g(m[k]) in Map(Values(m, keys), g)
    ensures forall y :: y in Map(Values(m, keys), g) ==> exists k :: k in m && g(m[k]) == y
  {
    var vals := Values(m, keys);
    var r := Map(vals, g);
    forall k | k in m ensures g(m[k]) in r {
      var i :| 0 <= i < |keys| && keys[i] == k;
      assert r[i] == g(m[k]);
    }
    forall y | y in r ensures exists k :: k in m && g(m[k]) == y {
      var i :| 0 <= i < |r| && r[i] == y;
      assert keys[i] in m && g(m[keys[i]]) == y;
    }
  }

  /** A map that respects the order keeps a sorted sequence sorted. */
  lemma MapSorted<T, U>(s: seq<T>, g: T -> U, le: (T, T) -> bool, le2: (U, U) -> bool)
    requires Sorted(s, le)
    requires forall i, j :: 0 <= i < j < |s| && le(s[i], s[j]) ==> le2(g(s[i]), g(s[j]))
    ensures Sorted(Map(s, g), le2)
  {
  }
}
