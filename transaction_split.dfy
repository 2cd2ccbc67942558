/** A transaction spread over several categories, and the parsing of its `||`-separated lists. */
module TransactionSplit {
  import opened Wrappers
  import opened Strings
  import opened TransactionErrors

  /** What separates the entries of one split list. */
  const SPLIT_SEPARATOR: string := "||"

  datatype SplitTransaction = SplitTransaction(
    numSplits: nat,
    categories: seq<Option<nat>>,
    amounts: seq<real>,
    memos: seq<Option<string>>)
  {
    /** The three lists hold one entry per split. */
    predicate WellFormed() {
      |categories| == numSplits && |amounts| == numSplits && |memos| == numSplits
    }

    /** Every index of `idx` can be looked up in all three lists. */
    predicate Indexes(idx: seq<nat>) {
      forall k :: 0 <= k < |idx| ==> idx[k] < |categories| && idx[k] < |amounts| && idx[k] < |memos|
    }
  }

  /** `SplitTransaction::empty()`. */
  function Empty(): (sp: SplitTransaction)
    ensures sp.WellFormed() && sp.numSplits == 0
  {
    SplitTransaction(0, [], [], [])
  }

  /** Left-to-right sum of amounts, starting from 0. */
  function Sum(xs: seq<real>): real
    decreases |xs|
  {
    if xs == [] then 0.0 else Sum(xs[..|xs| - 1]) + xs[|xs| - 1]
  }

  /** The sum of two lists back to back is the sum of the sums. */
  lemma {:induction false} SumAppend(a: seq<real>, b: seq<real>)
    ensures Sum(a + b) == Sum(a) + Sum(b)
    decreases |b|
  {
    if b == [] {
      assert a + b == a;
    } else {
      assert (a + b)[..|a + b| - 1] == a + b[..|b| - 1];
      SumAppend(a, b[..|b| - 1]);
    }
  }

  /** `total`: the sum of the split amounts; 0 with no splits, the amount itself with one. */
  function Total(sp: SplitTransaction): (t: real)
    ensures sp.amounts == [] ==> t == 0.0
    ensures |sp.amounts| == 1 ==> t == sp.amounts[0]
  {
    assert Sum([]) == 0.0;
    assert |sp.amounts| == 1 ==> sp.amounts[..0] == [];
    Sum(sp.amounts)
  }

  /**
   * `subset`: the splits at the given positions, in the given order; None
   * for an empty selection.  An index past the end of a list panics, so the
   * caller must pass valid indices.
   */
  function Subset(sp: SplitTransaction, idx: seq<nat>): (r: Option<SplitTransaction>)
    requires sp.Indexes(idx)
    ensures r.None? <==> idx == []
    ensures r.Some? ==> r.value.WellFormed() && r.value.numSplits == |idx|
    ensures r.Some? ==> forall k :: 0 <= k < |idx| ==>
      r.value.categories[k] == sp.categories[idx[k]] &&
      r.value.amounts[k] == sp.amounts[idx[k]] &&
      r.value.memos[k] == sp.memos[idx[k]]
  {
    if |idx| == 0 then Option.None
    else
      Some(SplitTransaction(
        |idx|,
        seq(|idx|, k requires 0 <= k < |idx| && sp.Indexes(idx) => sp.categories[idx[k]]),
        seq(|idx|, k requires 0 <= k < |idx| && sp.Indexes(idx) => sp.amounts[idx[k]]),
        seq(|idx|, k requires 0 <= k < |idx| && sp.Indexes(idx) => sp.memos[idx[k]])))
  }

  /** `parse_split_values`: the entries of one split list.  There is always at least one. */
  function ParseSplitValues(value: string): (pieces: seq<string>)
    ensures |pieces| >= 1
    ensures Join(pieces, SPLIT_SEPARATOR) == value
  {
    JoinSplit(value, SPLIT_SEPARATOR);
    Split(value, SPLIT_SEPARATOR)
  }

  /**
   * `parse_split_cat_vec`: every entry must be a `usize` category key;
   * otherwise the first one that is not is reported.
   */
  function ParseSplitCategories(pieces: seq<string>): (r: Result<seq<Option<nat>>, TransactionError>)
    ensures r.Ok? <==> forall i :: 0 <= i < |pieces| ==> ParseUsize(pieces[i]).Some?
    ensures r.Ok? ==> (|r.value| == |pieces| &&
      forall i :: 0 <= i < |pieces| ==> r.value[i] == ParseUsize(pieces[i]))
    ensures r.Err? ==>
              exists i :: 0 <= i < |pieces| && ParseUsize(pieces[i]).None? &&
                          r.error == InvalidCategory(pieces[i]) &&
                          forall j :: 0 <= j < i ==> ParseUsize(pieces[j]).Some?
    decreases |pieces|
  {
    if pieces == [] then Ok([])
    else
      match ParseUsize(pieces[0])
      case None => Err(InvalidCategory(pieces[0]))
      case Some(c) =>
        assert forall k :: 0 <= k < |pieces| - 1 ==> pieces[1..][k] == pieces[k + 1];
        match ParseSplitCategories(pieces[1..])
        case Err(e) => Err(e)
        case Ok(rest) => Ok([Some(c)] + rest)
  }

  /**
   * `parse_split_amount_vec`: every entry must be an amount; the first one
   * that is not is reported, as an invalid category.
   */
  function ParseSplitAmounts(parseReal: string -> Option<real>, pieces: seq<string>): (r: Result<seq<real>, TransactionError>)
    ensures r.Ok? <==> forall i :: 0 <= i < |pieces| ==> parseReal(pieces[i]).Some?
    ensures r.Ok? ==> (|r.value| == |pieces| &&
      forall i :: 0 <= i < |pieces| ==> Some(r.value[i]) == parseReal(pieces[i]))
    ensures r.Err? ==>
              exists i :: 0 <= i < |pieces| && parseReal(pieces[i]).None? &&
                          r.error == InvalidCategory(pieces[i]) &&
                          forall j :: 0 <= j < i ==> parseReal(pieces[j]).Some?
    decreases |pieces|
  {
    if pieces == [] then Ok([])
    else
      match parseReal(pieces[0])
      case None => Err(InvalidCategory(pieces[0]))
      case Some(a) =>
        match ParseSplitAmounts(parseReal, pieces[1..])
        case Err(e) => Err(e)
        case Ok(rest) => Ok([a] + rest)
  }

  /**
   * `parse_split_memo_vec`: an empty entry is no memo.  Reading every memo
   * back, with no memo as "", gives the entries again.
   */
  function ParseSplitMemos(pieces: seq<string>): (memos: seq<Option<string>>)
    ensures |memos| == |pieces|
    ensures forall i :: 0 <= i < |pieces| ==> memos[i].GetOr("") == pieces[i] && memos[i] != Some("")
  {
    seq(|pieces|, i requires 0 <= i < |pieces| => if pieces[i] == "" then Option.None else Some(pieces[i]))
  }
}
