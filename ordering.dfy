/**
 * The orderings the queries sort by: `Ord` on `String` (lexicographic,
 * character by character, a prefix first) and on `Option<String>` (`None`
 * before every `Some`).
 */
module Ordering {
  import opened Wrappers

  /** `a <= b` in the lexicographic order of strings. */
  predicate StringLe(a: string, b: string)
    decreases |a|
  {
    if a == [] then true
    else if b == [] then false
    else if a[0] != b[0] then a[0] < b[0]
    else StringLe(a[1..], b[1..])
  }

  /** Every two strings are comparable. */
  lemma {:induction false} StringLeTotal(a: string, b: string)
    ensures StringLe(a, b) || StringLe(b, a)
    decreases |a|
  {
    if a != [] && b != [] && a[0] == b[0] {
      StringLeTotal(a[1..], b[1..]);
    }
  }

  lemma {:induction false} StringLeTransitive(a: string, b: string, c: string)
    requires StringLe(a, b) && StringLe(b, c)
    ensures StringLe(a, c)
    decreases |a|
  {
    if a != [] && b != [] && c != [] && a[0] == b[0] && b[0] == c[0] {
      StringLeTransitive(a[1..], b[1..], c[1..]);
    }
  }

  /** Only equal strings are below each other: the order is a total order. */
  lemma {:induction false} StringLeAntisymmetric(a: string, b: string)
    requires StringLe(a, b) && StringLe(b, a)
    ensures a == b
    decreases |a|
  {
    if a != [] {
      StringLeAntisymmetric(a[1..], b[1..]);
      assert a == [a[0]] + a[1..] && b == [b[0]] + b[1..];
    }
  }

  /** A prefix comes first, and the first differing character decides. */
  lemma StringLeVectors()
    ensures StringLe("", "a") && !StringLe("a", "")
    ensures StringLe("ab", "b") && !StringLe("b", "ab")
    ensures StringLe("Food", "Food:Out")
  {
    assert "ab"[1..] == "b" && "b"[1..] == "";
    assert "Food:Out"[1..] == "ood:Out" && "ood:Out"[1..] == "od:Out" && "od:Out"[1..] == "d:Out";
    assert "Food"[1..] == "ood" && "ood"[1..] == "od" && "od"[1..] == "d" && "d"[1..] == "";
  }

  /** `a <= b` for optional strings: `None` first. */
  predicate OptionLe(a: Option<string>, b: Option<string>) {
    match (a, b)
    case (None, _) => true
    case (Some(_), None) => false
    case (Some(x), Some(y)) => StringLe(x, y)
  }

  /** `OptionLe` is a total order. */
  lemma OptionLeOrder(a: Option<string>, b: Option<string>, c: Option<string>)
    ensures OptionLe(a, b) || OptionLe(b, a)
    ensures OptionLe(a, b) && OptionLe(b, c) ==> OptionLe(a, c)
    ensures OptionLe(a, b) && OptionLe(b, a) ==> a == b
  {
    if a.Some? && b.Some? {
      StringLeTotal(a.value, b.value);
      if StringLe(a.value, b.value) && StringLe(b.value, a.value) {
        StringLeAntisymmetric(a.value, b.value);
      }
      if c.Some? && StringLe(a.value, b.value) && StringLe(b.value, c.value) {
        StringLeTransitive(a.value, b.value, c.value);
      }
    }
  }
}
