/**
 * One ledger entry: when, how much, on which account, how it was paid, and
 * how its amount is spread over categories.
 */
module Transactions {
  import opened Wrappers
  import opened TransactionDate
  import PayModes
  import TransactionStatuses
  import opened TransactionTypes
  import opened TransactionComplexity
  import TransactionSplit

  datatype Transaction = Transaction(
    date: Date,
    amount: real,
    account: nat,
    payMode: PayModes.PayMode,
    status: TransactionStatuses.TransactionStatus,
    flags: Option<nat>,
    payee: Option<nat>,
    memo: Option<string>,
    info: Option<string>,
    tags: Option<seq<string>>,
    ttype: TransactionType,
    complexity: Complexity)

  /** `Transaction::empty()`, which is also the default. */
  function Empty(): (tr: Transaction)
    ensures tr.date == DEFAULT_DATE && tr.amount == 0.0 && tr.account == 0
    ensures PayModes.Code(tr.payMode) == 0 && TransactionStatuses.Code(tr.status) == 0
    ensures tr.flags.None? && tr.payee.None? && tr.memo.None? && tr.info.None? && tr.tags.None?
    ensures tr.ttype == Expense && !IsSplit(tr.complexity) && Categories(tr.complexity) == [Option.None]
    ensures Total(tr.complexity) == tr.amount
  {
    Transaction(DEFAULT_DATE, 0.0, 0, PayModes.Default(), TransactionStatuses.Default(),
                Option.None, Option.None, Option.None, Option.None, Option.None,
                TransactionTypes.Default(), TransactionComplexity.Default())
  }

  /** `transfer_key`: present exactly for a transfer. */
  function TransferKey(tr: Transaction): (r: Option<nat>)
    ensures r.Some? <==> IsTransfer(tr.ttype)
    ensures r.Some? ==> r.value == tr.ttype.xfer.transferKey
  {
    match tr.ttype
    case TransferOf(x) => Some(x.transferKey)
    case _ => Option.None
  }

  /** `transfer_destination`: present exactly for a transfer. */
  function TransferDestination(tr: Transaction): (r: Option<nat>)
    ensures r.Some? <==> IsTransfer(tr.ttype)
    ensures r.Some? ==> r.value == tr.ttype.xfer.destination
  {
    match tr.ttype
    case TransferOf(x) => Some(x.destination)
    case _ => Option.None
  }

  /** The transfer accessors read back the link a transfer was built with. */
  lemma TransferAccessors(tr: Transaction, key: nat, dst: nat)
    ensures tr.ttype == TransferOf(Transfer(key, dst)) ==>
              TransferKey(tr) == Some(key) && TransferDestination(tr) == Some(dst)
    ensures !IsTransfer(tr.ttype) ==> TransferKey(tr).None? && TransferDestination(tr).None?
  {
  }

  /** `idx` is a valid selection of this transaction's entries. */
  predicate Indexes(tr: Transaction, idx: seq<nat>) {
    TransactionComplexity.Indexes(tr.complexity, idx)
  }

  /**
   * `subset`: the transaction narrowed to the selected entries, with its
   * amount recomputed as the total of what is kept; every other field is
   * copied.  None when the entries cannot be selected.
   */
  function Subset(tr: Transaction, idx: seq<nat>): (r: Option<Transaction>)
    requires Indexes(tr, idx)
    ensures r.None? <==> TransactionComplexity.Subset(tr.complexity, idx).None?
    ensures r.Some? ==> Some(r.value.complexity) == TransactionComplexity.Subset(tr.complexity, idx)
    ensures r.Some? ==> r.value.amount == Total(r.value.complexity)
    ensures r.Some? ==> r.value.(amount := tr.amount, complexity := tr.complexity) == tr
  {
    match TransactionComplexity.Subset(tr.complexity, idx)
    case None => Option.None
    case Some(c) => Some(tr.(amount := Total(c), complexity := c))
  }

  /**
   * The amount of a subset is the sum of the selected amounts, and the kept
   * entries are the selected ones, in selection order.
   */
  lemma SubsetAmountIsSelectedSum(tr: Transaction, idx: seq<nat>)
    requires Indexes(tr, idx) && WellFormed(tr.complexity)
    ensures var r := Subset(tr, idx);
      r.Some? ==>
        TransactionComplexity.IsSimilarTo(r.value.complexity, tr.complexity) &&
        |Amounts(r.value.complexity)| == |idx| &&
        (forall k :: 0 <= k < |idx| ==>
           idx[k] < |Amounts(tr.complexity)| && Amounts(r.value.complexity)[k] == Amounts(tr.complexity)[idx[k]]) &&
        r.value.amount == TransactionSplit.Sum(Amounts(r.value.complexity))
  {
    SubsetSelectsEntries(tr.complexity, idx);
    var r := Subset(tr, idx);
    if r.Some? {
      TotalIsSumOfAmounts(r.value.complexity);
    }
  }

  /** Selecting every split, in order, changes nothing but the amount, which becomes the split total. */
  lemma {:induction false} SubsetOfAllSplits(tr: Transaction, n: nat)
    requires tr.complexity.Split? && WellFormed(tr.complexity) && n == tr.complexity.split.numSplits && n > 0
    ensures var idx := seq(n, k => k);
      Indexes(tr, idx) && Subset(tr, idx) == Some(tr.(amount := Total(tr.complexity)))
  {
    var idx := seq(n, k => k);
    var sp := tr.complexity.split;
    var sub := TransactionSplit.Subset(sp, idx).value;
    assert sub.categories == sp.categories;
    assert sub.amounts == sp.amounts;
    assert sub.memos == sp.memos;
  }

  /** The documented subsets of the default transaction and of a two-way split. */
  lemma SubsetVectors(cat: string, jan: string)
    ensures Subset(Empty(), [0]) == Some(Empty())
    ensures Subset(Empty(), []).None? && Subset(Empty(), [1]).None?
    ensures var split := Split(TransactionSplit.SplitTransaction(
                                 2, [Some(83), Some(100)], [-1119.80, 31.08], [Some(jan), Some(cat)]));
            var tr := Empty().(amount := -1088.72, complexity := split);
            Subset(tr, []).None? &&
            Subset(tr, [0]) == Some(Empty().(amount := -1119.80, complexity := Split(
                                              TransactionSplit.SplitTransaction(1, [Some(83)], [-1119.80], [Some(jan)]))))
  {
    var split := TransactionSplit.SplitTransaction(2, [Some(83), Some(100)], [-1119.80, 31.08], [Some(jan), Some(cat)]);
    var sub := TransactionSplit.Subset(split, [0]).value;
    assert sub.categories == [Some(83)];
    assert sub.amounts == [-1119.80];
    assert sub.memos == [Some(jan)];
  }
}
