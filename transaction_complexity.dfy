/**
 * A transaction's category breakdown: one category, amount and memo
 * (simple), or one entry per split.
 */
module TransactionComplexity {
  import opened Wrappers
  import opened TransactionSplit

  datatype SimpleTransaction = SimpleTransaction(
    category: Option<nat>,
    amount: real,
    info: Option<string>,
    memo: Option<string>)

  /** `SimpleTransaction::empty()`: no category, no amount, no text. */
  const EMPTY_SIMPLE: SimpleTransaction := SimpleTransaction(Option.None, 0.0, Option.None, Option.None)

  datatype Complexity = Simple(simple: SimpleTransaction) | Split(split: SplitTransaction)

  /** `TransactionComplexity::default()`. */
  function Default(): (c: Complexity)
    ensures !IsSplit(c) && Total(c) == 0.0 && Categories(c) == [Option.None]
  {
    Simple(EMPTY_SIMPLE)
  }

  /** `is_split`. */
  predicate IsSplit(c: Complexity) {
    match c
    case Split(_) => true
    case _ => false
  }

  /** `is_similar_to`: both simple or both split. */
  predicate IsSimilarTo(a: Complexity, b: Complexity) {
    IsSplit(a) == IsSplit(b)
  }

  /** `is_split` tells the variants apart, and similarity is an equivalence. */
  lemma SimilarityIsEquivalence(a: Complexity, b: Complexity, c: Complexity)
    ensures IsSplit(a) <==> a.Split?
    ensures IsSimilarTo(a, a)
    ensures IsSimilarTo(a, b) == IsSimilarTo(b, a)
    ensures IsSimilarTo(a, b) && IsSimilarTo(b, c) ==> IsSimilarTo(a, c)
  {
  }

  /** `num_splits`: 0 for a simple transaction. */
  function NumSplits(c: Complexity): (n: nat)
    ensures !IsSplit(c) ==> n == 0
    ensures IsSplit(c) ==> n == c.split.numSplits
  {
    match c
    case Simple(_) => 0
    case Split(sp) => sp.numSplits
  }

  /** `categories`: the category of each entry. */
  function Categories(c: Complexity): (r: seq<Option<nat>>)
    ensures c.Simple? ==> r == [c.simple.category]
  {
    match c
    case Simple(s) => [s.category]
    case Split(sp) => sp.categories
  }

  /** `amounts`: the amount of each entry. */
  function Amounts(c: Complexity): (r: seq<real>)
    ensures c.Simple? ==> r == [c.simple.amount]
  {
    match c
    case Simple(s) => [s.amount]
    case Split(sp) => sp.amounts
  }

  /** `memos`: the memo of each entry. */
  function Memos(c: Complexity): (r: seq<Option<string>>)
    ensures c.Simple? ==> r == [c.simple.memo]
  {
    match c
    case Simple(s) => [s.memo]
    case Split(sp) => sp.memos
  }

  /** `total`: the simple amount, or the sum of the split amounts. */
  function Total(c: Complexity): real {
    match c
    case Simple(s) => s.amount
    case Split(sp) => TransactionSplit.Total(sp)
  }

  /** Both variants total the amounts of their entries. */
  lemma TotalIsSumOfAmounts(c: Complexity)
    ensures Total(c) == Sum(Amounts(c))
  {
    if c.Simple? {
      assert Amounts(c)[..0] == [];
    }
  }

  /** The entry lists line up: one entry for a simple transaction, one per split otherwise. */
  predicate WellFormed(c: Complexity) {
    c.Simple? || c.split.WellFormed()
  }

  /** `idx` selects entries that exist in every list. */
  predicate Indexes(c: Complexity, idx: seq<nat>) {
    c.Split? ==> c.split.Indexes(idx)
  }

  lemma WellFormedLists(c: Complexity, idx: seq<nat>)
    requires WellFormed(c)
    ensures |Categories(c)| == |Amounts(c)| == |Memos(c)|
    ensures (forall k :: 0 <= k < |idx| ==> idx[k] < |Categories(c)|) ==> Indexes(c, idx)
  {
  }

  /**
   * `subset`: the entries at the positions `idx`.  A simple transaction only
   * has entry 0, so it is kept exactly when `idx` is `[0]`; a split keeps its
   * variant and is dropped only for an empty selection.
   */
  function Subset(c: Complexity, idx: seq<nat>): (r: Option<Complexity>)
    requires Indexes(c, idx)
    ensures c.Simple? ==> (r.Some? <==> idx == [0]) && (r.Some? ==> r.value == c)
    ensures c.Split? ==> (r.Some? <==> idx != []) &&
                         (r.Some? ==> r.value.Split? && Some(r.value.split) == TransactionSplit.Subset(c.split, idx))
  {
    match c
    case Simple(s) =>
      if |idx| == 1 && idx == [0] then Some(Simple(s)) else Option.None
    case Split(sp) =>
      match TransactionSplit.Subset(sp, idx)
      case Some(sub) => Some(Split(sub))
      case None => Option.None
  }

  /**
   * Whatever the variant, a subset holds the selected entries in the
   * selected order, keeps the variant, and has lists that line up.
   */
  lemma SubsetSelectsEntries(c: Complexity, idx: seq<nat>)
    requires Indexes(c, idx)
    ensures var r := Subset(c, idx);
      r.Some? ==>
        IsSimilarTo(r.value, c) && WellFormed(r.value) &&
        |Categories(r.value)| == |idx| &&
        forall k :: 0 <= k < |idx| ==>
          idx[k] < |Categories(c)| &&
          Categories(r.value)[k] == Categories(c)[idx[k]] &&
          Amounts(r.value)[k] == Amounts(c)[idx[k]] &&
          Memos(r.value)[k] == Memos(c)[idx[k]]
  {
  }
}
