/**
 * The in-place stable sort `sort_by` and `sort_by_key` perform on a
 * collected vector, as an insertion sort over an array, proved to leave the
 * array holding `Seqs.Sort` of what it held.
 */
module Sorting {
  import opened Seqs

  /** An element `x` exceeds goes in front of `x`. */
  lemma InsertPast<T>(x: T, s: seq<T>, le: (T, T) -> bool)
    requires s != [] && !le(x, s[0])
    ensures Insert(x, s, le) == [s[0]] + Insert(x, s[1..], le)
  {
  }

  /**
   * The state of `InsertInPlace` with the hole at `j`: the prefix before
   * `lo` is untouched, the elements after the hole are the sorted tail `t`
   * from position `j - lo` on, and what has been shifted in front of the
   * hole is what `Insert` puts in front of the rest.
   */
  ghost predicate Shifting<T>(s: seq<T>, lo: nat, j: nat, prefix: seq<T>, t: seq<T>, x: T, le: (T, T) -> bool) {
    lo <= j < |s| && |t| == |s| - lo - 1 &&
    s[..lo] == prefix && s[j + 1..] == t[j - lo..] &&
    s[lo..j] + Insert(x, t[j - lo..], le) == Insert(x, t, le)
  }

  lemma Regroup<T>(a: seq<T>, b: T, c: seq<T>)
    ensures (a + [b]) + c == a + ([b] + c)
  {
  }

  /** Moving past an element that `x` exceeds keeps the partial insertion equal to the whole one. */
  lemma InsertAdvance<T>(done: seq<T>, t: seq<T>, k: nat, x: T, le: (T, T) -> bool)
    requires k < |t| && done + Insert(x, t[k..], le) == Insert(x, t, le) && !le(x, t[k])
    ensures (done + [t[k]]) + Insert(x, t[k + 1..], le) == Insert(x, t, le)
  {
    var rest := t[k..];
    assert rest[0] == t[k] && rest[1..] == t[k + 1..];
    InsertPast(x, rest, le);
    Regroup(done, t[k], Insert(x, t[k + 1..], le));
  }

  /** Shifting the element after the hole into it, when `x` exceeds that element. */
  lemma ShiftStep<T>(s: seq<T>, lo: nat, j: nat, prefix: seq<T>, t: seq<T>, x: T, le: (T, T) -> bool)
    requires Shifting(s, lo, j, prefix, t, x, le) && j + 1 < |s| && !le(x, s[j + 1])
    ensures Shifting(s[j := s[j + 1]], lo, j + 1, prefix, t, x, le)
  {
    var s' := s[j := s[j + 1]];
    assert s'[lo..j + 1] + Insert(x, t[j + 1 - lo..], le) == Insert(x, t, le) by {
      InsertAdvance(s[lo..j], t, j - lo, x, le);
      assert s'[lo..j + 1] == s[lo..j] + [t[j - lo]];
    }
    assert s'[..lo] == prefix by {
      assert s'[..lo] == s[..lo];
    }
    assert s'[j + 2..] == t[j + 1 - lo..] by {
      assert s'[j + 2..] == s[j + 1..][1..] == t[j - lo..][1..];
    }
  }

  /** Putting `x` into the hole once nothing after it is exceeded by `x` completes the insertion. */
  lemma ShiftDone<T>(s: seq<T>, lo: nat, j: nat, prefix: seq<T>, t: seq<T>, x: T, le: (T, T) -> bool)
    requires Shifting(s, lo, j, prefix, t, x, le) && (j + 1 == |s| || le(x, s[j + 1]))
    ensures s[j := x][..lo] == prefix
    ensures s[j := x][lo..] == Insert(x, t, le)
  {
    var s' := s[j := x];
    var rest := t[j - lo..];
    assert Insert(x, rest, le) == [x] + rest;
    assert s'[lo..] == s[lo..j] + [x] + s[j + 1..];
  }

  /**
   * Moves `a[lo]` rightwards past the elements after it that it exceeds:
   * when `a[lo + 1..]` is sorted this is one step of insertion sort.
   */
  method InsertInPlace<T>(a: array<T>, lo: nat, le: (T, T) -> bool)
    requires lo < a.Length
    modifies a
    ensures a[..lo] == old(a[..lo])
    ensures a[lo..] == Insert(old(a[lo]), old(a[lo + 1..]), le)
  {
    ghost var prefix := a[..lo];
    ghost var t := a[lo + 1..];
    var x := a[lo];
    var j := lo;
    assert a[..][lo..j] == [];
    while j + 1 < a.Length && !le(x, a[j + 1])
      invariant Shifting(a[..], lo, j, prefix, t, x, le)
      decreases a.Length - j
    {
      ShiftStep(a[..], lo, j, prefix, t, x, le);
      a[j] := a[j + 1];
      j := j + 1;
    }
    ShiftDone(a[..], lo, j, prefix, t, x, le);
    a[j] := x;
    assert a[..lo] == a[..][..lo] && a[lo..] == a[..][lo..];
  }

  /** Sorts `a` in place: afterwards it holds `Sort` of its old contents. */
  method InsertionSort<T>(a: array<T>, le: (T, T) -> bool)
    modifies a
    ensures a[..] == Sort(old(a[..]), le)
  {
    var i := a.Length;
    while i > 0
      invariant 0 <= i <= a.Length
      invariant a[..i] == old(a[..])[..i]
      invariant a[i..] == Sort(old(a[..])[i..], le)
      decreases i
    {
      i := i - 1;
      ghost var before := a[..];
      ghost var s := old(a[..])[i..];
      assert before[..i] == old(a[..])[..i] && before[i] == s[0] by {
        assert before[..i + 1] == old(a[..])[..i + 1];
      }
      assert s[1..] == old(a[..])[i + 1..];
      assert before[i + 1..] == Sort(s[1..], le);
      assert Sort(s, le) == Insert(s[0], Sort(s[1..], le), le);
      InsertInPlace(a, i, le);
      assert a[..i] == before[..i];
    }
  }
}
