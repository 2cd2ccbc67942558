/**
 * An XML start element's attribute list and the fold every `try_from`
 * decoder runs over it: attributes are visited in document order, each one
 * either updates the record being built or aborts the whole decode with an
 * error.
 */
module Attributes {
  import opened Wrappers

  /** One `name="value"` attribute. */
  type Attr = (string, string)

  /**
   * The value of the last attribute whose name `fieldOf` reads as `f`, if
   * any: what a loop that assigns field `f` from every such attribute
   * leaves in it.
   */
  function LastOf<F(==)>(attrs: seq<Attr>, fieldOf: string -> F, f: F): Option<string>
    decreases |attrs|
  {
    if attrs == [] then Option.None
    else if fieldOf(attrs[|attrs| - 1].0) == f then Some(attrs[|attrs| - 1].1)
    else LastOf(attrs[..|attrs| - 1], fieldOf, f)
  }

  /**
   * `LastOf` is none exactly when no attribute is for `f`, and otherwise the
   * value of an attribute for `f` with none after it.
   */
  lemma {:induction false} LastOfIsLast<F>(attrs: seq<Attr>, fieldOf: string -> F, f: F)
    ensures LastOf(attrs, fieldOf, f).None? <==> forall i :: 0 <= i < |attrs| ==> fieldOf(attrs[i].0) != f
    ensures LastOf(attrs, fieldOf, f).Some? ==>
              exists i :: 0 <= i < |attrs| && attrs[i] == (attrs[i].0, LastOf(attrs, fieldOf, f).value) &&
                          fieldOf(attrs[i].0) == f && forall j :: i < j < |attrs| ==> fieldOf(attrs[j].0) != f
    decreases |attrs|
  {
    if attrs != [] {
      var pre := attrs[..|attrs| - 1];
      LastOfIsLast(pre, fieldOf, f);
      if fieldOf(attrs[|attrs| - 1].0) != f && LastOf(pre, fieldOf, f).Some? {
        var i :| 0 <= i < |pre| && pre[i] == (pre[i].0, LastOf(pre, fieldOf, f).value) &&
                 fieldOf(pre[i].0) == f && forall j :: i < j < |pre| ==> fieldOf(pre[j].0) != f;
        assert attrs[i] == pre[i];
      }
    }
  }

  /** One more attribute read: it is now the last one for its field. */
  lemma LastOfSnoc<F>(pre: seq<Attr>, a: Attr, fieldOf: string -> F)
    ensures forall f :: LastOf(pre + [a], fieldOf, f) == if fieldOf(a.0) == f then Some(a.1) else LastOf(pre, fieldOf, f)
  {
    assert (pre + [a])[..|pre|] == pre;
  }

  /** An attribute for another field, wherever it stands, does not change the last value of `f`. */
  lemma {:induction false} LastOfSkips<F>(x: seq<Attr>, a: Attr, y: seq<Attr>, fieldOf: string -> F, f: F)
    requires fieldOf(a.0) != f
    ensures LastOf(x + [a] + y, fieldOf, f) == LastOf(x + y, fieldOf, f)
    decreases |y|
  {
    if y == [] {
      assert x + [a] + y == x + [a] && x + y == x;
      LastOfSnoc(x, a, fieldOf);
    } else {
      var y', b := y[..|y| - 1], y[|y| - 1];
      LastOfSkips(x, a, y', fieldOf, f);
      assert x + [a] + y == (x + [a] + y') + [b];
      assert x + y == (x + y') + [b];
      LastOfSnoc(x + [a] + y', b, fieldOf);
      LastOfSnoc(x + y', b, fieldOf);
    }
  }

  /**
   * The error `check` reports for the earliest attribute it rejects, or
   * None when it accepts them all.
   */
  function FirstError<E>(attrs: seq<Attr>, check: Attr -> Option<E>): (r: Option<E>)
    ensures r.None? <==> forall i :: 0 <= i < |attrs| ==> check(attrs[i]).None?
    ensures r.Some? ==> exists i :: 0 <= i < |attrs| && check(attrs[i]) == r &&
                                   forall j :: 0 <= j < i ==> check(attrs[j]).None?
    decreases |attrs|
  {
    if attrs == [] then Option.None
    else
      var before := FirstError(attrs[..|attrs| - 1], check);
      if before.Some? then before else check(attrs[|attrs| - 1])
  }

  /** A rejected attribute makes some error reported, and its own when every attribute before it is accepted. */
  lemma FirstErrorAt<E>(attrs: seq<Attr>, check: Attr -> Option<E>, k: nat)
    requires k < |attrs| && check(attrs[k]).Some?
    ensures FirstError(attrs, check).Some?
    ensures (forall j :: 0 <= j < k ==> check(attrs[j]).None?) ==> FirstError(attrs, check) == check(attrs[k])
  {
    var r := FirstError(attrs, check);
    if forall j :: 0 <= j < k ==> check(attrs[j]).None? {
      var i :| 0 <= i < |attrs| && check(attrs[i]) == r && forall j :: 0 <= j < i ==> check(attrs[j]).None?;
      assert !(i < k) && !(k < i);
    }
  }

  /** One more attribute read: it only matters if all before it were accepted. */
  lemma FirstErrorSnoc<E>(pre: seq<Attr>, a: Attr, check: Attr -> Option<E>)
    ensures FirstError(pre + [a], check) == if FirstError(pre, check).Some? then FirstError(pre, check) else check(a)
  {
    assert (pre + [a])[..|pre|] == pre;
  }

  /** An attribute `check` accepts, wherever it stands, does not change which error is reported first. */
  lemma {:induction false} FirstErrorSkips<E>(x: seq<Attr>, a: Attr, y: seq<Attr>, check: Attr -> Option<E>)
    requires check(a).None?
    ensures FirstError(x + [a] + y, check) == FirstError(x + y, check)
    decreases |y|
  {
    if y == [] {
      assert x + [a] + y == x + [a] && x + y == x;
      FirstErrorSnoc(x, a, check);
    } else {
      var y', b := y[..|y| - 1], y[|y| - 1];
      FirstErrorSkips(x, a, y', check);
      assert x + [a] + y == (x + [a] + y') + [b];
      assert x + y == (x + y') + [b];
      FirstErrorSnoc(x + [a] + y', b, check);
      FirstErrorSnoc(x + y', b, check);
    }
  }

  /**
   * The decoding loop: start from `init`, apply `step` to each attribute in
   * order, and stop at the first error.
   */
  function Fold<S, E>(init: S, attrs: seq<Attr>, step: (S, Attr) -> Result<S, E>): Result<S, E>
    decreases |attrs|
  {
    if attrs == [] then Ok(init)
    else
      match Fold(init, attrs[..|attrs| - 1], step)
      case Err(e) => Err(e)
      case Ok(s) => step(s, attrs[|attrs| - 1])
  }

  /** One more turn of the loop. */
  lemma FoldStep<S, E>(init: S, attrs: seq<Attr>, i: nat, step: (S, Attr) -> Result<S, E>, s: S)
    requires i < |attrs| && Fold(init, attrs[..i], step) == Ok(s)
    ensures Fold(init, attrs[..i + 1], step) == step(s, attrs[i])
  {
    assert attrs[..i + 1][..i] == attrs[..i];
  }

  /** Once the loop has failed, the rest of the attributes are never looked at. */
  lemma {:induction false} FoldFailureStops<S, E>(init: S, attrs: seq<Attr>, i: nat, step: (S, Attr) -> Result<S, E>)
    requires i <= |attrs| && Fold(init, attrs[..i], step).Err?
    ensures Fold(init, attrs, step) == Fold(init, attrs[..i], step)
    decreases |attrs| - i
  {
    if i < |attrs| {
      assert attrs[..i + 1][..i] == attrs[..i];
      FoldFailureStops(init, attrs, i + 1, step);
    } else {
      assert attrs[..i] == attrs;
    }
  }

  /** Running the loop over `a + b` is running it over `a`, then over `b` from where it stopped. */
  lemma {:induction false} FoldAppend<S, E>(init: S, a: seq<Attr>, b: seq<Attr>, step: (S, Attr) -> Result<S, E>)
    ensures Fold(init, a + b, step) == match Fold(init, a, step) { case Err(e) => Err(e) case Ok(s) => Fold(s, b, step) }
    decreases |b|
  {
    if b == [] {
      assert a + b == a;
    } else {
      assert (a + b)[..|a + b| - 1] == a + b[..|b| - 1];
      FoldAppend(init, a, b[..|b| - 1], step);
    }
  }

  /** An attribute the loop rejects decides the result, whatever follows it. */
  lemma FoldStepFails<S, E>(init: S, attrs: seq<Attr>, i: nat, step: (S, Attr) -> Result<S, E>, s: S, e: E)
    requires i < |attrs| && Fold(init, attrs[..i], step) == Ok(s)
    requires step(s, attrs[i]) == Err(e)
    ensures Fold(init, attrs, step) == Err(e)
  {
    FoldStep(init, attrs, i, step, s);
    FoldFailureStops(init, attrs, i + 1, step);
  }

  /** An attribute the loop passes over unchanged can be dropped, wherever it stands. */
  lemma FoldSkips<S, E>(init: S, x: seq<Attr>, a: Attr, y: seq<Attr>, step: (S, Attr) -> Result<S, E>)
    requires forall s :: step(s, a) == Ok(s)
    ensures Fold(init, x + [a] + y, step) == Fold(init, x + y, step)
  {
    FoldAppend(init, x + [a], y, step);
    FoldAppend(init, x, y, step);
    FoldAppend(init, x, [a], step);
    if Fold(init, x, step).Ok? {
      var s := Fold(init, x, step).value;
      assert [a][..0] == [];
      assert Fold(s, [a], step) == Ok(s);
    }
  }

  /**
   * An invariant of the loop: if it holds of the start state with no
   * attribute read, and every successful step keeps it, it holds of the
   * state the loop ends in.
   */
  lemma {:induction false} FoldInvariant<S(!new), E>(init: S, attrs: seq<Attr>, step: (S, Attr) -> Result<S, E>, inv: (seq<Attr>, S) -> bool)
    requires inv([], init)
    requires forall pre, s, a :: inv(pre, s) && step(s, a).Ok? ==> inv(pre + [a], step(s, a).value)
    ensures Fold(init, attrs, step).Ok? ==> inv(attrs, Fold(init, attrs, step).value)
    decreases |attrs|
  {
    if attrs != [] {
      var pre, a := attrs[..|attrs| - 1], attrs[|attrs| - 1];
      FoldInvariant(init, pre, step, inv);
      assert pre + [a] == attrs;
      var r := Fold(init, pre, step);
      if r.Ok? && step(r.value, a).Ok? {
        assert inv(pre + [a], step(r.value, a).value);
      }
    }
  }

  /**
   * A loop each of whose steps, from the record `expected` gives for the
   * attributes read so far, either rejects the attribute -- for a reason
   * `check` names from the attribute alone -- or moves to the record for one
   * more attribute: it ends with the first rejection, or with the record for
   * the whole list.
   */
  lemma {:induction false} FoldPerAttribute<S(!new), E(!new)>(init: S, attrs: seq<Attr>, step: (S, Attr) -> Result<S, E>, check: Attr -> Option<E>, expected: seq<Attr> -> S)
    requires expected([]) == init
    requires forall pre, a :: step(expected(pre), a) == if check(a).Some? then Err(check(a).value) else Ok(expected(pre + [a]))
    ensures Fold(init, attrs, step) == if FirstError(attrs, check).Some? then Err(FirstError(attrs, check).value) else Ok(expected(attrs))
    decreases |attrs|
  {
    if attrs != [] {
      var pre, a := attrs[..|attrs| - 1], attrs[|attrs| - 1];
      FoldPerAttribute(init, pre, step, check, expected);
      assert pre + [a] == attrs;
    }
  }

  /**
   * The error `check` reports for the earliest attribute it rejects, where
   * `check` also sees the attributes before the one it judges, or None when
   * it accepts them all.
   */
  function FirstErrorAfter<E>(attrs: seq<Attr>, check: (seq<Attr>, Attr) -> Option<E>): (r: Option<E>)
    decreases |attrs|
  {
    if attrs == [] then Option.None
    else
      var before := FirstErrorAfter(attrs[..|attrs| - 1], check);
      if before.Some? then before else check(attrs[..|attrs| - 1], attrs[|attrs| - 1])
  }

  /**
   * `FirstErrorAfter` is none exactly when every attribute is accepted after
   * those before it, and otherwise the error of an attribute all of whose
   * predecessors were accepted.
   */
  lemma {:induction false} FirstErrorAfterIsFirst<E>(attrs: seq<Attr>, check: (seq<Attr>, Attr) -> Option<E>)
    ensures FirstErrorAfter(attrs, check).None? <==> forall i :: 0 <= i < |attrs| ==> check(attrs[..i], attrs[i]).None?
    ensures FirstErrorAfter(attrs, check).Some? ==>
              exists i :: 0 <= i < |attrs| && check(attrs[..i], attrs[i]) == FirstErrorAfter(attrs, check) &&
                          forall j :: 0 <= j < i ==> check(attrs[..j], attrs[j]).None?
    decreases |attrs|
  {
    if attrs != [] {
      var pre := attrs[..|attrs| - 1];
      FirstErrorAfterIsFirst(pre, check);
      assert forall i :: 0 <= i < |pre| ==> pre[..i] == attrs[..i] && pre[i] == attrs[i];
    }
  }

  /**
   * `FoldPerAttribute` for a loop whose rejections also depend on the
   * attributes read before: it ends with the first rejection, or with the
   * record for the whole list.
   */
  lemma {:induction false} FoldPerPrefix<S(!new), E(!new)>(init: S, attrs: seq<Attr>, step: (S, Attr) -> Result<S, E>, check: (seq<Attr>, Attr) -> Option<E>, expected: seq<Attr> -> S)
    requires expected([]) == init
    requires forall pre, a :: step(expected(pre), a) == if check(pre, a).Some? then Err(check(pre, a).value) else Ok(expected(pre + [a]))
    ensures Fold(init, attrs, step) == if FirstErrorAfter(attrs, check).Some? then Err(FirstErrorAfter(attrs, check).value) else Ok(expected(attrs))
    decreases |attrs|
  {
    if attrs != [] {
      var pre, a := attrs[..|attrs| - 1], attrs[|attrs| - 1];
      FoldPerPrefix(init, pre, step, check, expected);
      assert pre + [a] == attrs;
    }
  }

  /**
   * `FoldPerPrefix` for a loop whose state is known only through an
   * invariant `inv` of the attributes read and the state: when every step
   * from a state satisfying `inv` rejects exactly what `check` rejects, with
   * its error, and otherwise keeps `inv`, the loop ends with the first
   * rejection, or reads every attribute into a state satisfying `inv`.
   */
  lemma {:induction false} FoldChecked<S(!new), E(!new)>(init: S, attrs: seq<Attr>, step: (S, Attr) -> Result<S, E>, check: (seq<Attr>, Attr) -> Option<E>, inv: (seq<Attr>, S) -> bool)
    requires inv([], init)
    requires forall pre, s, a :: inv(pre, s) && check(pre, a).Some? ==> step(s, a) == Err(check(pre, a).value)
    requires forall pre, s, a :: inv(pre, s) && check(pre, a).None? ==> step(s, a).Ok? && inv(pre + [a], step(s, a).value)
    ensures FirstErrorAfter(attrs, check).Some? ==> Fold(init, attrs, step) == Err(FirstErrorAfter(attrs, check).value)
    ensures FirstErrorAfter(attrs, check).None? ==> Fold(init, attrs, step).Ok? && inv(attrs, Fold(init, attrs, step).value)
    decreases |attrs|
  {
    if attrs != [] {
      var pre, a := attrs[..|attrs| - 1], attrs[|attrs| - 1];
      FoldChecked(init, pre, step, check, inv);
      assert pre + [a] == attrs;
    }
  }

  /**
   * What every error of the loop satisfies: if `ok` holds of every error a
   * step can report from a state the loop can reach (one satisfying `inv`),
   * it holds of the error the loop ends with.
   */
  lemma {:induction false} FoldErrors<S(!new), E(!new)>(init: S, attrs: seq<Attr>, step: (S, Attr) -> Result<S, E>, inv: S -> bool, ok: E -> bool)
    requires inv(init)
    requires forall s, a :: inv(s) && step(s, a).Ok? ==> inv(step(s, a).value)
    requires forall s, a :: inv(s) && step(s, a).Err? ==> ok(step(s, a).error)
    ensures Fold(init, attrs, step).Ok? ==> inv(Fold(init, attrs, step).value)
    ensures Fold(init, attrs, step).Err? ==> ok(Fold(init, attrs, step).error)
    decreases |attrs|
  {
    if attrs != [] {
      FoldErrors(init, attrs[..|attrs| - 1], step, inv, ok);
    }
  }

  /**
   * Two loops that take the same steps from every reachable state, except
   * that the first may stop with a `bad` error where the second does
   * something else, end the same way unless the first ends with a `bad` error.
   */
  lemma {:induction false} FoldDivergence<S(!new), E(!new)>(init: S, attrs: seq<Attr>, step: (S, Attr) -> Result<S, E>, other: (S, Attr) -> Result<S, E>, inv: S -> bool, bad: E -> bool)
    requires inv(init)
    requires forall s, a :: inv(s) && step(s, a).Ok? ==> inv(step(s, a).value) && other(s, a) == step(s, a)
    requires forall s, a :: inv(s) && step(s, a).Err? ==> other(s, a) == step(s, a) || bad(step(s, a).error)
    ensures Fold(init, attrs, other) == Fold(init, attrs, step) || (Fold(init, attrs, step).Err? && bad(Fold(init, attrs, step).error))
    ensures Fold(init, attrs, step).Ok? ==> inv(Fold(init, attrs, step).value)
    decreases |attrs|
  {
    if attrs != [] {
      FoldDivergence(init, attrs[..|attrs| - 1], step, other, inv, bad);
    }
  }
}
