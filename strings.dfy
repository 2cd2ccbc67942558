/**
 * The string primitives the decoders rely on: unsigned decimal parsing
 * (`usize::from_str`, `u32::from_str`, `u8::from_str`), `str::split` on a
 * separator, and joining pieces back together.
 */
module Strings {
  import opened Wrappers

  /** Largest `usize` on a 64-bit target. */
  const USIZE_MAX: nat := 0xFFFF_FFFF_FFFF_FFFF
  const U32_MAX: nat := 0xFFFF_FFFF
  const U8_MAX: nat := 0xFF

  predicate IsDigit(c: char) { '0' <= c <= '9' }

  predicate AllDigits(s: string) { forall i :: 0 <= i < |s| ==> IsDigit(s[i]) }

  /** Value of a string of decimal digits, most significant first. */
  function DecimalValue(s: string): nat
    requires AllDigits(s)
    decreases |s|
  {
    if s == [] then 0 else DecimalValue(s[..|s| - 1]) * 10 + (s[|s| - 1] as int - '0' as int)
  }

  /** The digits after an optional leading `+`. */
  function Unsigned(s: string): string {
    if |s| > 0 && s[0] == '+' then s[1..] else s
  }

  /**
   * Rust's `from_str` for an unsigned integer type whose largest value is
   * `max`: an optional `+`, then at least one decimal digit, and a value that
   * fits the type.  A `-` sign, blanks, or any other character is an error.
   */
  function ParseUnsigned(s: string, max: nat): (r: Option<nat>)
    ensures r.Some? ==> r.value <= max && |s| > 0 && (s[0] == '+' || IsDigit(s[0]))
    ensures r.Some? ==> forall i :: 0 < i < |s| ==> IsDigit(s[i])
  {
    var d := Unsigned(s);
    if |d| > 0 && AllDigits(d) && DecimalValue(d) <= max then Some(DecimalValue(d)) else Option.None
  }

  function ParseUsize(s: string): Option<nat> { ParseUnsigned(s, USIZE_MAX) }
  function ParseU32(s: string): Option<nat> { ParseUnsigned(s, U32_MAX) }
  function ParseU8(s: string): Option<nat> { ParseUnsigned(s, U8_MAX) }

  /** The canonical decimal spelling of `n` (what `n.to_string()` gives). */
  function Decimal(n: nat): (s: string)
    ensures |s| > 0 && AllDigits(s)
    decreases n
  {
    if n < 10 then [('0' as int + n) as char] else Decimal(n / 10) + [('0' as int + n % 10) as char]
  }

  lemma {:induction false} DecimalValueOfDecimal(n: nat)
    ensures DecimalValue(Decimal(n)) == n
    decreases n
  {
    if n >= 10 {
      var s := Decimal(n);
      assert s[..|s| - 1] == Decimal(n / 10);
      DecimalValueOfDecimal(n / 10);
    }
  }

  /** Parsing a number's own decimal spelling gives the number back, for every value the type holds. */
  lemma ParseDecimal(n: nat, max: nat)
    requires n <= max
    ensures ParseUnsigned(Decimal(n), max) == Some(n)
  {
    DecimalValueOfDecimal(n);
  }

  /** A parse never succeeds on an empty string or a negative number. */
  lemma ParseRejectsSigns(s: string, max: nat)
    ensures ParseUnsigned("", max).None?
    ensures ParseUnsigned("+", max).None?
    ensures ParseUnsigned("-" + s, max).None?
  {
  }

  /**
   * `s.split(sep)`: the pieces between the leftmost non-overlapping
   * occurrences of `sep`.  There is always at least one piece.
   */
  function Split(s: string, sep: string): (r: seq<string>)
    requires |sep| > 0
    ensures |r| >= 1
    decreases |s|
  {
    if |sep| <= |s| && s[..|sep|] == sep then [""] + Split(s[|sep|..], sep)
    else if s == [] then [""]
    else
      var rest := Split(s[1..], sep);
      [[s[0]] + rest[0]] + rest[1..]
  }

  /** `pieces.join(sep)`. */
  function Join(pieces: seq<string>, sep: string): string
    decreases |pieces|
  {
    if pieces == [] then ""
    else if |pieces| == 1 then pieces[0]
    else pieces[0] + sep + Join(pieces[1..], sep)
  }

  /** Every piece glued together with no separator. */
  function Concat(pieces: seq<string>): string
    decreases |pieces|
  {
    if pieces == [] then "" else pieces[0] + Concat(pieces[1..])
  }

  /** `s` without any occurrence of `c`. */
  function Remove(s: string, c: char): (r: string)
    ensures c !in r
    ensures |r| <= |s|
    decreases |s|
  {
    if s == [] then "" else (if s[0] == c then "" else [s[0]]) + Remove(s[1..], c)
  }

  lemma JoinCons(c: char, pieces: seq<string>, sep: string)
    requires |pieces| >= 1
    ensures Join([[c] + pieces[0]] + pieces[1..], sep) == [c] + Join(pieces, sep)
  {
    var q := [[c] + pieces[0]] + pieces[1..];
    assert q[1..] == pieces[1..];
  }

  /** Joining the pieces of a split with the same separator gives the original string back. */
  lemma {:induction false} JoinSplit(s: string, sep: string)
    requires |sep| > 0
    ensures Join(Split(s, sep), sep) == s
    decreases |s|
  {
    if |sep| <= |s| && s[..|sep|] == sep {
      JoinSplit(s[|sep|..], sep);
      JoinSplitAtSeparator(s, sep);
    } else if s != [] {
      JoinSplit(s[1..], sep);
      JoinSplitAtChar(s, sep);
    }
  }

  /** The step of `JoinSplit` where `s` starts with the separator. */
  lemma JoinSplitAtSeparator(s: string, sep: string)
    requires 0 < |sep| <= |s| && s[..|sep|] == sep
    requires Join(Split(s[|sep|..], sep), sep) == s[|sep|..]
    ensures Join(Split(s, sep), sep) == s
  {
    SplitAtSeparator(s, sep);
    JoinEmptyFirst(Split(s[|sep|..], sep), sep);
    SplitsAt(s, |sep|);
  }

  /** A string is its prefix followed by the rest. */
  lemma SplitsAt(s: string, n: nat)
    requires n <= |s|
    ensures s == s[..n] + s[n..]
  {
  }


  /** A leading separator splits off an empty first piece. */
  lemma SplitAtSeparator(s: string, sep: string)
    requires 0 < |sep| <= |s| && s[..|sep|] == sep
    ensures Split(s, sep) == [""] + Split(s[|sep|..], sep)
  {
  }


  /** An empty first piece contributes only the separator after it. */
  lemma JoinEmptyFirst(rest: seq<string>, sep: string)
    requires |rest| >= 1
    ensures Join([""] + rest, sep) == sep + Join(rest, sep)
  {
    var pieces := [""] + rest;
    assert pieces[1..] == rest;
    assert "" + sep == sep;
  }



  /** The step of `JoinSplit` where `s` starts with a character outside a separator. */
  lemma JoinSplitAtChar(s: string, sep: string)
    requires 0 < |sep| && s != [] && !(|sep| <= |s| && s[..|sep|] == sep)
    requires Join(Split(s[1..], sep), sep) == s[1..]
    ensures Join(Split(s, sep), sep) == s
  {
    SplitAtChar(s, sep);
    JoinCons(s[0], Split(s[1..], sep), sep);
    SplitsAt(s, 1);
    assert s[..1] == [s[0]];
  }

  /** A leading character outside a separator joins the first piece. */
  lemma SplitAtChar(s: string, sep: string)
    requires 0 < |sep| && s != [] && !(|sep| <= |s| && s[..|sep|] == sep)
    ensures var rest := Split(s[1..], sep); Split(s, sep) == [[s[0]] + rest[0]] + rest[1..]
  {
  }



  /** No piece of a split on a one-character separator contains that character. */
  lemma {:induction false} SplitPiecesAvoidSeparator(s: string, c: char)
    ensures forall p :: p in Split(s, [c]) ==> c !in p
    decreases |s|
  {
    if 1 <= |s| && s[..1] == [c] {
      SplitPiecesAvoidSeparator(s[1..], c);
    } else if s != [] {
      SplitPiecesAvoidSeparator(s[1..], c);
      var rest := Split(s[1..], [c]);
      assert s[0] != c by { assert s[..1] == [s[0]]; }
      assert rest[0] in rest;
      forall p | p in Split(s, [c]) ensures c !in p {
        if p != [s[0]] + rest[0] {
          assert p in rest[1..];
        }
      }
    }
  }

  /** Splitting on one character and gluing the pieces together only drops that character. */
  lemma {:induction false} ConcatSplit(s: string, c: char)
    ensures Concat(Split(s, [c])) == Remove(s, c)
    decreases |s|
  {
    if 1 <= |s| && s[..1] == [c] {
      ConcatSplit(s[1..], c);
      assert s[0] == c by { assert s[..1][0] == s[0]; }
      assert ([""] + Split(s[1..], [c]))[1..] == Split(s[1..], [c]);
    } else if s != [] {
      ConcatSplit(s[1..], c);
      var rest := Split(s[1..], [c]);
      assert s[0] != c by { assert s[..1] == [s[0]]; }
      var q := [[s[0]] + rest[0]] + rest[1..];
      assert q[1..] == rest[1..];
      assert Concat(rest) == rest[0] + Concat(rest[1..]);
    }
  }

  /** A string in which the separator's first character never occurs is a single piece. */
  lemma {:induction false} SplitWithoutSeparator(s: string, sep: string)
    requires |sep| > 0 && sep[0] !in s
    ensures Split(s, sep) == [s]
    decreases |s|
  {
    if s != [] {
      assert s[0] in s;
      if |sep| <= |s| {
        assert s[..|sep|][0] == s[0] != sep[0];
      }
      assert forall x :: x in s[1..] ==> x in s;
      SplitWithoutSeparator(s[1..], sep);
      SplitAtChar(s, sep);
      SplitsAt(s, 1);
      assert s[..1] == [s[0]];
    }
  }

  /** The first piece runs up to the first separator; the rest is split on its own. */
  lemma {:induction false} SplitAtFirst(a: string, b: string, sep: string)
    requires |sep| > 0 && sep[0] !in a
    ensures Split(a + sep + b, sep) == [a] + Split(b, sep)
    decreases |a|
  {
    var s := a + sep + b;
    if a == [] {
      assert s == sep + b;
      assert s[..|sep|] == sep && s[|sep|..] == b;
      SplitAtSeparator(s, sep);
    } else {
      assert a[0] in a;
      assert s[0] == a[0];
      if |sep| <= |s| {
        assert s[..|sep|][0] == s[0] != sep[0];
      }
      assert forall x :: x in a[1..] ==> x in a;
      assert s[1..] == a[1..] + sep + b;
      SplitAtFirst(a[1..], b, sep);
      SplitAtChar(s, sep);
      assert a == [a[0]] + a[1..];
    }
  }

}
