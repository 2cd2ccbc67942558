/**
 * `QueryTransactions`: the stored transactions that pass every filter that
 * is set, in the order they are stored; a category filter, applied last,
 * narrows a transaction to its entries whose category matches.
 */
module TransactionQuery {
  import opened Wrappers
  import opened Strings
  import opened Seqs
  import opened Regexes
  import opened TransactionDate
  import PayModes
  import TransactionStatuses
  import opened TransactionTypes
  import TC = TransactionComplexity
  import opened Transactions
  import Categories
  import Accounts
  import Payees
  import Db

  datatype QueryTransactions = QueryTransactions(
    dateFrom: Option<Date>,
    dateTo: Option<Date>,
    amountFrom: Option<real>,
    amountTo: Option<real>,
    status: Option<seq<TransactionStatuses.TransactionStatus>>,
    category: Option<Regex>,
    payee: Option<Regex>,
    account: Option<Regex>,
    payMode: Option<seq<PayModes.PayMode>>,
    memo: Option<Regex>,
    info: Option<Regex>,
    tags: Option<Regex>,
    ttype: Option<seq<TransactionType>>)

  /** The query with no filter set. */
  function Everything(): QueryTransactions {
    QueryTransactions(None, None, None, None, None, None, None, None, None, None, None, None, None)
  }

  // ---------------------------------------------------------------------
  // Names a transaction refers to, looked up in the database
  // ---------------------------------------------------------------------

  /** `Transaction::payee_name`: the name of the payee, when the transaction names one that is stored. */
  function PayeeName(tr: Transaction, db: Db.HomeBankDb): (r: Option<string>)
    ensures r.Some? <==> tr.payee.Some? && tr.payee.value in db.payees
    ensures r.Some? ==> r.value == db.payees[tr.payee.value].name
  {
    match tr.payee
    case None => None
    case Some(k) => if k in db.payees then Some(db.payees[k].name) else None
  }

  /** `Transaction::account_name`: the name of the account, when it is stored. */
  function AccountName(tr: Transaction, db: Db.HomeBankDb): (r: Option<string>)
    ensures r.Some? <==> tr.account in db.accounts
    ensures r.Some? ==> r.value == db.accounts[tr.account].name
  {
    if tr.account in db.accounts then Some(db.accounts[tr.account].name) else None
  }

  /** The full name of a category key, when the key is set and stored. */
  function CategoryName(k: Option<nat>, db: Db.HomeBankDb): (r: Option<string>)
    ensures r.Some? <==> k.Some? && k.value in db.categories
    ensures r.Some? ==> r.value == Categories.FullName(db.categories[k.value], db.categories)
  {
    match k
    case None => None
    case Some(key) =>
      if key in db.categories then Some(Categories.FullName(db.categories[key], db.categories)) else None
  }

  /** `Transaction::category_names`: the full category name of each entry, in entry order. */
  function CategoryNames(tr: Transaction, db: Db.HomeBankDb): (r: seq<Option<string>>)
    ensures |r| == |TC.Categories(tr.complexity)|
    ensures forall i :: 0 <= i < |r| ==> r[i] == CategoryName(TC.Categories(tr.complexity)[i], db)
  {
    Map(TC.Categories(tr.complexity), (k: Option<nat>) => CategoryName(k, db))
  }

  // ---------------------------------------------------------------------
  // The filters
  // ---------------------------------------------------------------------

  predicate DateFromKept(q: QueryTransactions, tr: Transaction) {
    q.dateFrom.None? || tr.date >= q.dateFrom.value
  }

  predicate DateToKept(q: QueryTransactions, tr: Transaction) {
    q.dateTo.None? || tr.date < q.dateTo.value
  }

  /** The amount filters compare `total()`, which is the transaction's own amount. */
  predicate AmountFromKept(q: QueryTransactions, tr: Transaction) {
    q.amountFrom.None? || tr.amount >= q.amountFrom.value
  }

  predicate AmountToKept(q: QueryTransactions, tr: Transaction) {
    q.amountTo.None? || tr.amount < q.amountTo.value
  }

  predicate StatusKept(q: QueryTransactions, tr: Transaction) {
    q.status.None? || tr.status in q.status.value
  }

  predicate PayeeKept(q: QueryTransactions, tr: Transaction, db: Db.HomeBankDb) {
    KeepsPresent(q.payee, PayeeName(tr, db))
  }

  /**
   * Which regex `filter_account` reads: as written it reads the payee
   * regex, evidently the account regex was meant.
   */
  datatype AccountFilter = ReadsPayee | ReadsAccount

  /** `filter_account`: the account name, when stored, matches the regex `mode` selects. */
  predicate AccountKept(mode: AccountFilter, q: QueryTransactions, tr: Transaction, db: Db.HomeBankDb) {
    KeepsPresent(if mode == ReadsPayee then q.payee else q.account, AccountName(tr, db))
  }

  predicate PayModeKept(q: QueryTransactions, tr: Transaction) {
    q.payMode.None? || tr.payMode in q.payMode.value
  }

  /** Some listed type is similar to the transaction's: transfer links are not compared. */
  predicate TypeKept(q: QueryTransactions, tr: Transaction) {
    q.ttype.None? || exists i :: 0 <= i < |q.ttype.value| && TransactionTypes.IsSimilarTo(q.ttype.value[i], tr.ttype)
  }

  /** The tags joined with commas, matched once as one string. */
  function JoinedTags(tr: Transaction): Option<string> {
    match tr.tags
    case None => None
    case Some(tags) => Some(Join(tags, ","))
  }

  predicate TagsKept(q: QueryTransactions, tr: Transaction) {
    KeepsPresent(q.tags, JoinedTags(tr))
  }

  predicate MemoKept(q: QueryTransactions, tr: Transaction) {
    KeepsPresent(q.memo, tr.memo)
  }

  predicate InfoKept(q: QueryTransactions, tr: Transaction) {
    KeepsPresent(q.info, tr.info)
  }

  /** Every filter of the chain before the category filter. */
  predicate Kept(mode: AccountFilter, q: QueryTransactions, db: Db.HomeBankDb, tr: Transaction) {
    DateFromKept(q, tr) && DateToKept(q, tr) && AmountFromKept(q, tr) && AmountToKept(q, tr) &&
    StatusKept(q, tr) && PayeeKept(q, tr, db) && AccountKept(mode, q, tr, db) && PayModeKept(q, tr) &&
    TypeKept(q, tr) && TagsKept(q, tr) && MemoKept(q, tr) && InfoKept(q, tr)
  }

  // ---------------------------------------------------------------------
  // The category filter
  // ---------------------------------------------------------------------

  /** The positions, in ascending order, whose name is present and matches. */
  function MatchingPositions(names: seq<Option<string>>, re: Regex): seq<nat>
    decreases |names|
  {
    if names == [] then []
    else
      var n := |names| - 1;
      MatchingPositions(names[..n], re) + (if names[n].Some? && re(names[n].value) then [n] else [])
  }

  /** The matching positions are exactly the positions whose name matches, each once, in ascending order. */
  lemma {:induction false} MatchingPositionsSpec(names: seq<Option<string>>, re: Regex)
    ensures var idx := MatchingPositions(names, re);
      (forall k :: 0 <= k < |idx| ==> idx[k] < |names|) &&
      (forall k, l :: 0 <= k < l < |idx| ==> idx[k] < idx[l]) &&
      (forall i :: 0 <= i < |names| ==> (i in idx <==> names[i].Some? && re(names[i].value)))
    decreases |names|
  {
    if names != [] {
      var n := |names| - 1;
      MatchingPositionsSpec(names[..n], re);
    }
  }

  /**
   * The category filter can narrow `tr` without a panic: there is no
   * regex, or every matching position is an entry of the amount and memo
   * lists too.
   */
  predicate Narrowable(q: QueryTransactions, tr: Transaction, db: Db.HomeBankDb) {
    q.category.Some? ==> TC.Indexes(tr.complexity, MatchingPositions(CategoryNames(tr, db), q.category.value))
  }

  /** Split lists that line up can always be narrowed. */
  lemma WellFormedNarrowable(q: QueryTransactions, tr: Transaction, db: Db.HomeBankDb)
    requires TC.WellFormed(tr.complexity)
    ensures Narrowable(q, tr, db)
  {
    if q.category.Some? {
      var names := CategoryNames(tr, db);
      var idx := MatchingPositions(names, q.category.value);
      MatchingPositionsSpec(names, q.category.value);
      TC.WellFormedLists(tr.complexity, idx);
    }
  }

  /**
   * `filter_category`: without a regex the transaction is kept whole; with
   * one it is narrowed to the entries whose category name matches, and
   * dropped when none does.
   */
  function FilterCategory(q: QueryTransactions, tr: Transaction, db: Db.HomeBankDb): (r: Option<Transaction>)
    requires Narrowable(q, tr, db)
    ensures q.category.None? ==> r == Some(tr)
  {
    match q.category
    case None => Some(tr)
    case Some(re) => Subset(tr, MatchingPositions(CategoryNames(tr, db), re))
  }

  /** Some entry's category name is present and matches. */
  predicate AnyMatches(names: seq<Option<string>>, re: Regex) {
    exists i :: 0 <= i < |names| && names[i].Some? && re(names[i].value)
  }

  /** No position matches exactly when no name matches. */
  lemma {:induction false} MatchingPositionsEmpty(names: seq<Option<string>>, re: Regex)
    ensures MatchingPositions(names, re) == [] <==> !AnyMatches(names, re)
    decreases |names|
  {
    if names != [] {
      var n := |names| - 1;
      var init := names[..n];
      MatchingPositionsEmpty(init, re);
      if AnyMatches(init, re) {
        var i :| 0 <= i < |init| && init[i].Some? && re(init[i].value);
        assert names[i] == init[i];
      }
      if AnyMatches(names, re) && !(names[n].Some? && re(names[n].value)) {
        var i :| 0 <= i < |names| && names[i].Some? && re(names[i].value);
        assert init[i] == names[i];
      }
    }
  }

  /** A single name gives the position 0 when it matches, and nothing otherwise. */
  lemma MatchingPositionsSingle(names: seq<Option<string>>, re: Regex)
    requires |names| == 1
    ensures MatchingPositions(names, re) == (if names[0].Some? && re(names[0].value) then [0] else [])
  {
    assert names[..0] == [];
  }

  /**
   * With a category regex the transaction is kept exactly when some entry's
   * category name is present and matches.
   */
  lemma FilterCategoryKeepsWhenSomeMatches(q: QueryTransactions, tr: Transaction, db: Db.HomeBankDb)
    requires Narrowable(q, tr, db) && q.category.Some?
    ensures FilterCategory(q, tr, db).Some? <==> AnyMatches(CategoryNames(tr, db), q.category.value)
  {
    var re := q.category.value;
    var names := CategoryNames(tr, db);
    MatchingPositionsEmpty(names, re);
    if tr.complexity.Simple? {
      MatchingPositionsSingle(names, re);
    }
  }

  /**
   * What is kept holds the entries at the matching positions, in entry
   * order, so exactly the entries whose category name matches; its amount
   * is their total and every other field is the transaction's own.
   */
  lemma FilterCategoryNarrows(q: QueryTransactions, tr: Transaction, db: Db.HomeBankDb)
    requires Narrowable(q, tr, db) && q.category.Some?
    ensures var r := FilterCategory(q, tr, db);
      var idx := MatchingPositions(CategoryNames(tr, db), q.category.value);
      r.Some? ==>
        r.value.amount == TC.Total(r.value.complexity) &&
        r.value.(amount := tr.amount, complexity := tr.complexity) == tr &&
        TC.IsSimilarTo(r.value.complexity, tr.complexity) &&
        |TC.Categories(r.value.complexity)| == |idx| &&
        forall k :: 0 <= k < |idx| ==>
          idx[k] < |TC.Categories(tr.complexity)| &&
          TC.Categories(r.value.complexity)[k] == TC.Categories(tr.complexity)[idx[k]] &&
          TC.Amounts(r.value.complexity)[k] == TC.Amounts(tr.complexity)[idx[k]] &&
          TC.Memos(r.value.complexity)[k] == TC.Memos(tr.complexity)[idx[k]]
  {
    var names := CategoryNames(tr, db);
    var idx := MatchingPositions(names, q.category.value);
    MatchingPositionsSpec(names, q.category.value);
    TC.SubsetSelectsEntries(tr.complexity, idx);
  }

  /** Every entry that is kept has a category name, and it matches. */
  lemma FilterCategoryKeptNamesMatch(q: QueryTransactions, tr: Transaction, db: Db.HomeBankDb)
    requires Narrowable(q, tr, db) && q.category.Some?
    ensures var r := FilterCategory(q, tr, db);
      r.Some? ==> forall k :: 0 <= k < |TC.Categories(r.value.complexity)| ==>
        var name := CategoryName(TC.Categories(r.value.complexity)[k], db);
        name.Some? && q.category.value(name.value)
  {
    var names := CategoryNames(tr, db);
    var idx := MatchingPositions(names, q.category.value);
    MatchingPositionsSpec(names, q.category.value);
    FilterCategoryNarrows(q, tr, db);
    var r := FilterCategory(q, tr, db);
    if r.Some? {
      forall k | 0 <= k < |TC.Categories(r.value.complexity)|
        ensures var name := CategoryName(TC.Categories(r.value.complexity)[k], db);
                name.Some? && q.category.value(name.value)
      {
        assert idx[k] in idx;
      }
    }
  }

  // ---------------------------------------------------------------------
  // The query
  // ---------------------------------------------------------------------

  /**
   * The query runs without a panic: the category filter can narrow every
   * stored transaction that passes the other filters.
   */
  predicate Executable(mode: AccountFilter, q: QueryTransactions, db: Db.HomeBankDb) {
    forall tr :: tr in db.transactions && Kept(mode, q, db, tr) ==> Narrowable(q, tr, db)
  }

  /** Every transaction has split lists that line up, as the corrected decoder guarantees. */
  predicate AllWellFormed(trs: seq<Transaction>) {
    forall tr :: tr in trs ==> TC.WellFormed(tr.complexity)
  }

  /** Without a category regex, or when every stored transaction has lists that line up, the query runs. */
  lemma ExecutableWhen(mode: AccountFilter, q: QueryTransactions, db: Db.HomeBankDb)
    requires q.category.None? || AllWellFormed(db.transactions)
    ensures Executable(mode, q, db)
  {
    forall tr | tr in db.transactions && Kept(mode, q, db, tr) ensures Narrowable(q, tr, db) {
      if q.category.Some? {
        WellFormedNarrowable(q, tr, db);
      }
    }
  }

  function KeptBy(mode: AccountFilter, q: QueryTransactions, db: Db.HomeBankDb): Transaction -> bool {
    (tr: Transaction) => Kept(mode, q, db, tr)
  }

  function NarrowBy(q: QueryTransactions, db: Db.HomeBankDb): Transaction -> Option<Transaction> {
    (tr: Transaction) => if Narrowable(q, tr, db) then FilterCategory(q, tr, db) else None
  }

  /** The filter chain, then the category filter, over a sequence of transactions. */
  function Select(mode: AccountFilter, q: QueryTransactions, db: Db.HomeBankDb, trs: seq<Transaction>): (r: seq<Transaction>)
    ensures |r| <= |trs|
  {
    FilterMap(Filter(trs, KeptBy(mode, q, db)), NarrowBy(q, db))
  }

  /**
   * `QueryTransactions::exec`, with `filter_account` reading the regex
   * `mode` selects (`ReadsPayee` as written): at most one result per stored
   * transaction.
   */
  function Exec(mode: AccountFilter, q: QueryTransactions, db: Db.HomeBankDb): (r: seq<Transaction>)
    requires Executable(mode, q, db)
    ensures |r| <= |db.transactions|
  {
    Select(mode, q, db, db.transactions)
  }

  /** Selection works transaction by transaction, so results keep the stored order. */
  lemma SelectAppend(mode: AccountFilter, q: QueryTransactions, db: Db.HomeBankDb, a: seq<Transaction>, b: seq<Transaction>)
    ensures Select(mode, q, db, a + b) == Select(mode, q, db, a) + Select(mode, q, db, b)
  {
    FilterAppend(a, b, KeptBy(mode, q, db));
    FilterMapAppend(Filter(a, KeptBy(mode, q, db)), Filter(b, KeptBy(mode, q, db)), NarrowBy(q, db));
  }

  /**
   * A result is what the category filter makes of a stored transaction that
   * passes every other filter, and each such transaction the category
   * filter keeps gives a result.
   */
  lemma ExecMembers(mode: AccountFilter, q: QueryTransactions, db: Db.HomeBankDb)
    requires Executable(mode, q, db)
    ensures forall y :: y in Exec(mode, q, db) <==>
      exists tr :: tr in db.transactions && Kept(mode, q, db, tr) && FilterCategory(q, tr, db) == Some(y)
  {
    var kept := Filter(db.transactions, KeptBy(mode, q, db));
    FilterMembers(db.transactions, KeptBy(mode, q, db));
    FilterMapMembers(kept, NarrowBy(q, db));
  }

  /** Without a category regex the query returns the transactions that pass the other filters, unchanged. */
  lemma ExecWithoutCategory(mode: AccountFilter, q: QueryTransactions, db: Db.HomeBankDb)
    requires q.category.None?
    ensures Exec(mode, q, db) == Filter(db.transactions, (tr: Transaction) => Kept(mode, q, db, tr))
  {
    var kept := Filter(db.transactions, KeptBy(mode, q, db));
    FilterMembers(db.transactions, KeptBy(mode, q, db));
    forall i | 0 <= i < |kept| ensures NarrowBy(q, db)(kept[i]) == Some(kept[i]) {
      assert kept[i] in kept;
    }
    FilterMapCongruent(kept, NarrowBy(q, db), (x: Transaction) => Some(x));
    FilterMapIdentity(kept);
  }

  /** The filters that do not look at the amount or the categories, together. */
  predicate FieldsKept(mode: AccountFilter, q: QueryTransactions, db: Db.HomeBankDb, tr: Transaction) {
    DateFromKept(q, tr) && DateToKept(q, tr) && StatusKept(q, tr) && PayeeKept(q, tr, db) &&
    AccountKept(mode, q, tr, db) && PayModeKept(q, tr) && TypeKept(q, tr) && TagsKept(q, tr) &&
    MemoKept(q, tr) && InfoKept(q, tr)
  }

  /** The category filter only narrows the amount and the breakdown, so a kept transaction still passes the other filters. */
  lemma FilterCategoryKeepsFields(mode: AccountFilter, q: QueryTransactions, tr: Transaction, db: Db.HomeBankDb)
    requires Narrowable(q, tr, db) && FieldsKept(mode, q, db, tr)
    ensures FilterCategory(q, tr, db).Some? ==> FieldsKept(mode, q, db, FilterCategory(q, tr, db).value)
  {
    if q.category.Some? {
      FilterCategoryNarrows(q, tr, db);
    }
  }

  /**
   * Every result lies in the date range, has a listed status, pay mode and
   * type, and has a payee, memo, info and tag list matching the regexes
   * given, and an account name matching the regex `filter_account` reads:
   * the payee regex as written, the account regex as intended.
   */
  lemma ExecResultsPassFilters(mode: AccountFilter, q: QueryTransactions, db: Db.HomeBankDb)
    requires Executable(mode, q, db)
    ensures forall y :: y in Exec(mode, q, db) ==> FieldsKept(mode, q, db, y)
  {
    ExecMembers(mode, q, db);
    forall y | y in Exec(mode, q, db) ensures FieldsKept(mode, q, db, y) {
      var tr :| tr in db.transactions && Kept(mode, q, db, tr) && FilterCategory(q, tr, db) == Some(y);
      FilterCategoryKeepsFields(mode, q, tr, db);
    }
  }

  /** The type filter compares variants only: which accounts a transfer links does not matter. */
  lemma TypeKeptIgnoresLinks(q: QueryTransactions, tr: Transaction, x: Transfer)
    requires tr.ttype.TransferOf?
    ensures TypeKept(q, tr) <==> TypeKept(q, tr.(ttype := TransferOf(x)))
  {
    var tr' := tr.(ttype := TransferOf(x));
    if q.ttype.Some? {
      forall i | 0 <= i < |q.ttype.value|
        ensures TransactionTypes.IsSimilarTo(q.ttype.value[i], tr.ttype) <==> TransactionTypes.IsSimilarTo(q.ttype.value[i], tr'.ttype)
      {
        TransactionTypes.SimilarMeansSameVariant(q.ttype.value[i], tr.ttype);
        TransactionTypes.SimilarMeansSameVariant(q.ttype.value[i], tr'.ttype);
      }
    }
  }

  /** The query with no filter returns every stored transaction, in stored order. */
  lemma ExecEverything(mode: AccountFilter, db: Db.HomeBankDb)
    ensures Exec(mode, Everything(), db) == db.transactions
  {
    var q := Everything();
    FilterAll(db.transactions, KeptBy(mode, q, db));
    ExecWithoutCategory(mode, q, db);
  }

  // ---------------------------------------------------------------------
  // The account filter as written
  // ---------------------------------------------------------------------

  /**
   * An account regex that no name matches: as written the chain keeps a
   * transaction on a stored account, the intended chain drops it.  A payee
   * regex that the account's name does not match drops, as written, a
   * transaction whose payee it does match.
   */
  lemma AccountFilterVector()
    ensures var db := Db.Empty().(accounts := map[1 := Accounts.Empty().(name := "Cash")],
                                  payees := map[2 := Payees.Empty().(key := 2, name := "Shop")]);
      var tr := Transactions.Empty().(account := 1, payee := Some(2));
      var none := (s: string) => false;
      var shop := (s: string) => s == "Shop";
      Kept(ReadsPayee, Everything().(account := Some(none)), db, tr) &&
      !Kept(ReadsAccount, Everything().(account := Some(none)), db, tr) &&
      !Kept(ReadsPayee, Everything().(payee := Some(shop)), db, tr) &&
      Kept(ReadsAccount, Everything().(payee := Some(shop)), db, tr)
  {
  }

  /** When the account and payee regexes are the same the two chains agree. */
  lemma AccountFilterAgreement(q: QueryTransactions, db: Db.HomeBankDb, tr: Transaction)
    requires q.account == q.payee
    ensures Kept(ReadsPayee, q, db, tr) <==> Kept(ReadsAccount, q, db, tr)
  {
  }
}
