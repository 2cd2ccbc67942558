/**
 * `QueryReview`: for every stored category, the transactions of a date
 * range filed under exactly that category, counted and summed; the rows
 * are sorted by category then subcategory name, and rows without
 * transactions can be dropped.
 */
module ReviewQuery {
  import opened Wrappers
  import opened Seqs
  import opened Regexes
  import opened Ordering
  import opened Categories
  import opened TransactionDate
  import opened Transactions
  import TransactionQuery
  import Sorting
  import Db

  datatype QueryReview = QueryReview(dateFrom: Date, dateTo: Date, excludeNone: bool)

  /** A category's line before the exclusion: its top-level name, its subcategory name, how many transactions, their sum. */
  datatype Row = Row(name: string, sub: Option<string>, count: nat, sum: real)

  /** A line of the result: the row without its count. */
  datatype Entry = Entry(name: string, sub: Option<string>, amount: real)

  /** The transaction query for one category: the date range and an exact match of its full name, nothing else. */
  function CategoryQueryOf(q: QueryReview, c: Category, db: Db.HomeBankDb, compile: string -> Regex): (r: TransactionQuery.QueryTransactions)
    ensures r.category == Some(compile("^" + FullName(c, db.categories) + "$"))
    ensures r.dateFrom == Some(q.dateFrom) && r.dateTo == Some(q.dateTo)
  {
    TransactionQuery.Everything().(dateFrom := Some(q.dateFrom), dateTo := Some(q.dateTo),
                                   category := Some(compile("^" + FullName(c, db.categories) + "$")))
  }

  /** Before its category filter, the query of a category keeps exactly the transactions dated in the review's interval. */
  lemma CategoryQueryKeepsInterval(q: QueryReview, c: Category, db: Db.HomeBankDb, compile: string -> Regex, tr: Transaction)
    ensures TransactionQuery.Kept(TransactionQuery.ReadsPayee, CategoryQueryOf(q, c, db, compile), db, tr) <==> q.dateFrom <= tr.date < q.dateTo
  {
  }

  /** The transaction query of category `c` runs without a panic. */
  predicate RowRuns(q: QueryReview, c: Category, db: Db.HomeBankDb, compile: string -> Regex) {
    TransactionQuery.Executable(TransactionQuery.ReadsPayee, CategoryQueryOf(q, c, db, compile), db)
  }

  /** The query of every stored category runs without a panic. */
  predicate Reviewable(q: QueryReview, db: Db.HomeBankDb, compile: string -> Regex) {
    forall k :: k in db.categories ==> RowRuns(q, db.categories[k], db, compile)
  }

  /** When every stored transaction has split lists that line up, every category's query runs. */
  lemma WellFormedReviewable(q: QueryReview, db: Db.HomeBankDb, compile: string -> Regex)
    requires TransactionQuery.AllWellFormed(db.transactions)
    ensures Reviewable(q, db, compile)
  {
    forall k | k in db.categories ensures RowRuns(q, db.categories[k], db, compile) {
      TransactionQuery.ExecutableWhen(TransactionQuery.ReadsPayee, CategoryQueryOf(q, db.categories[k], db, compile), db);
    }
  }

  /** The row of one category: a subcategory of a stored parent is listed under the parent's name. */
  function RowOf(q: QueryReview, db: Db.HomeBankDb, compile: string -> Regex, sum: seq<Transaction> -> real, c: Category): (r: Row)
    requires RowRuns(q, c, db, compile)
    ensures r.count <= |db.transactions|
    ensures r.sub == None || r.sub == Some(c.name)
  {
    var trs := TransactionQuery.Exec(TransactionQuery.ReadsPayee, CategoryQueryOf(q, c, db, compile), db);
    match ParentName(c, db.categories)
    case Some(parent) => Row(parent, Some(c.name), |trs|, sum(trs))
    case None => Row(c.name, None, |trs|, sum(trs))
  }

  /** `RowOf` as the function value `map` takes; it is only applied to stored categories, whose queries run. */
  function RowFor(q: QueryReview, db: Db.HomeBankDb, compile: string -> Regex, sum: seq<Transaction> -> real): Category -> Row {
    (c: Category) => if RowRuns(q, c, db, compile) then RowOf(q, db, compile, sum, c) else Row(c.name, None, 0, 0.0)
  }

  /** The rows, one per stored category, in the map's iteration order `keys`. */
  function Rows(q: QueryReview, db: Db.HomeBankDb, keys: seq<nat>, compile: string -> Regex, sum: seq<Transaction> -> real): (r: seq<Row>)
    requires IsKeyOrder(db.categories, keys) && Reviewable(q, db, compile)
    ensures |r| == |db.categories|
  {
    KeyOrderSize(db.categories, keys);
    Map(Values(db.categories, keys), RowFor(q, db, compile, sum))
  }

  /** The comparison `sort_by` uses: by name, and on equal names by subcategory, `None` first. */
  predicate RowLe(a: Row, b: Row) {
    if a.name == b.name then OptionLe(a.sub, b.sub) else StringLe(a.name, b.name)
  }

  lemma RowLeIsTotalPreorder()
    ensures IsTotalPreorder(RowLe)
  {
    forall a: Row, b: Row ensures RowLe(a, b) || RowLe(b, a) {
      StringLeTotal(a.name, b.name);
      OptionLeOrder(a.sub, b.sub, a.sub);
    }
    forall a: Row, b: Row, c: Row | RowLe(a, b) && RowLe(b, c) ensures RowLe(a, c) {
      OptionLeOrder(a.sub, b.sub, c.sub);
      if a.name != b.name && b.name != c.name {
        StringLeTransitive(a.name, b.name, c.name);
        if a.name == c.name {
          StringLeAntisymmetric(a.name, b.name);
        }
      }
    }
  }

  /** The order of the result: the order of the rows, on what is left of them. */
  predicate EntryLe(a: Entry, b: Entry) {
    if a.name == b.name then OptionLe(a.sub, b.sub) else StringLe(a.name, b.name)
  }

  function EntryOf(r: Row): Entry {
    Entry(r.name, r.sub, r.sum)
  }

  /** The exclusion: a row without transactions gives nothing. */
  function NonEmptyEntry(r: Row): Option<Entry> {
    if r.count == 0 then None else Some(EntryOf(r))
  }

  /** The last step of `exec`, on the sorted rows. */
  function Finish(excludeNone: bool, rows: seq<Row>): (r: seq<Entry>)
    ensures |r| <= |rows|
    ensures !excludeNone ==> |r| == |rows|
  {
    if excludeNone then FilterMap(rows, NonEmptyEntry) else Map(rows, EntryOf)
  }

  /** What `exec` returns. */
  function Reviewed(q: QueryReview, db: Db.HomeBankDb, keys: seq<nat>, compile: string -> Regex, sum: seq<Transaction> -> real): (r: seq<Entry>)
    requires IsKeyOrder(db.categories, keys) && Reviewable(q, db, compile)
    ensures |r| <= |db.categories|
    ensures !q.excludeNone ==> |r| == |db.categories|
  {
    Finish(q.excludeNone, Sort(Rows(q, db, keys, compile, sum), RowLe))
  }

  /**
   * `exec`: builds the rows, sorts the collected vector in place, then
   * drops the counts, and with `exclude_none` the rows without
   * transactions.  `compile` stands for building a regex from a pattern,
   * `sum` for `sum_transactions`.
   */
  method Exec(q: QueryReview, db: Db.HomeBankDb, keys: seq<nat>, compile: string -> Regex, sum: seq<Transaction> -> real)
    returns (out: seq<Entry>)
    requires IsKeyOrder(db.categories, keys) && Reviewable(q, db, compile)
    ensures out == Reviewed(q, db, keys, compile, sum)
    ensures Sorted(out, EntryLe)
  {
    var rows := Rows(q, db, keys, compile, sum);
    var a := new Row[|rows|](i requires 0 <= i < |rows| => rows[i]);
    assert a[..] == rows;
    Sorting.InsertionSort(a, RowLe);
    var vals := a[..];
    if q.excludeNone {
      out := FilterMap(vals, NonEmptyEntry);
    } else {
      out := Map(vals, EntryOf);
    }
    ReviewedSorted(q, db, keys, compile, sum);
  }

  // ---------------------------------------------------------------------
  // Properties
  // ---------------------------------------------------------------------

  /** Every stored category has its row, and every row is a stored category's. */
  lemma RowsOnePerCategory(q: QueryReview, db: Db.HomeBankDb, keys: seq<nat>, compile: string -> Regex, sum: seq<Transaction> -> real)
    requires IsKeyOrder(db.categories, keys) && Reviewable(q, db, compile)
    ensures forall k :: k in db.categories ==> RowOf(q, db, compile, sum, db.categories[k]) in Rows(q, db, keys, compile, sum)
    ensures forall r :: r in Rows(q, db, keys, compile, sum) ==>
              exists k :: k in db.categories && RowOf(q, db, compile, sum, db.categories[k]) == r
  {
    var g, rows := RowFor(q, db, compile, sum), Rows(q, db, keys, compile, sum);
    MapValues(db.categories, keys, g);
    assert rows == Map(Values(db.categories, keys), g);
    forall k | k in db.categories ensures g(db.categories[k]) == RowOf(q, db, compile, sum, db.categories[k]) {
      assert RowRuns(q, db.categories[k], db, compile);
    }
    forall r | r in rows ensures exists k :: k in db.categories && RowOf(q, db, compile, sum, db.categories[k]) == r {
      var k :| k in db.categories && g(db.categories[k]) == r;
      assert RowOf(q, db, compile, sum, db.categories[k]) == r;
    }
  }

  /**
   * A category whose parent is stored is listed as (parent name, its own
   * name); any other as (its own name, none).  The count and the sum are
   * those of the category's own transaction query.
   */
  lemma RowNaming(q: QueryReview, db: Db.HomeBankDb, compile: string -> Regex, sum: seq<Transaction> -> real, c: Category)
    requires RowRuns(q, c, db, compile)
    ensures var r := RowOf(q, db, compile, sum, c);
      var trs := TransactionQuery.Exec(TransactionQuery.ReadsPayee, CategoryQueryOf(q, c, db, compile), db);
      (c.parentKey.Some? && c.parentKey.value in db.categories ==>
         r.name == db.categories[c.parentKey.value].name && r.sub == Some(c.name)) &&
      (!(c.parentKey.Some? && c.parentKey.value in db.categories) ==> r.name == c.name && r.sub.None?) &&
      r.count == |trs| && r.sum == sum(trs) && r.count <= |db.transactions|
  {
  }

  /**
   * The transactions a row counts are dated within `[date_from, date_to)`,
   * and each is a stored transaction narrowed to entries whose category
   * name the category's exact-match regex accepts.
   */
  lemma RowTransactions(q: QueryReview, db: Db.HomeBankDb, compile: string -> Regex, c: Category)
    requires RowRuns(q, c, db, compile)
    ensures var cq := CategoryQueryOf(q, c, db, compile);
      forall y :: y in TransactionQuery.Exec(TransactionQuery.ReadsPayee, cq, db) ==>
        q.dateFrom <= y.date < q.dateTo &&
        exists tr :: tr in db.transactions && TransactionQuery.Narrowable(cq, tr, db) && TransactionQuery.FilterCategory(cq, tr, db) == Some(y)
  {
    var cq := CategoryQueryOf(q, c, db, compile);
    var mode := TransactionQuery.ReadsPayee;
    TransactionQuery.ExecMembers(mode, cq, db);
    forall y | y in TransactionQuery.Exec(mode, cq, db) ensures q.dateFrom <= y.date < q.dateTo {
      var tr :| tr in db.transactions && TransactionQuery.Kept(mode, cq, db, tr) && TransactionQuery.FilterCategory(cq, tr, db) == Some(y);
      TransactionQuery.FilterCategoryNarrows(cq, tr, db);
    }
  }

  /** Dropping the counts, and the rows without transactions, keeps sorted rows sorted. */
  lemma FinishSorted(excludeNone: bool, rows: seq<Row>)
    requires Sorted(rows, RowLe)
    ensures Sorted(Finish(excludeNone, rows), EntryLe)
  {
    if excludeNone {
      FilterMapSorted(rows, NonEmptyEntry, RowLe, EntryLe);
    } else {
      MapSorted(rows, EntryOf, RowLe, EntryLe);
    }
  }

  /** The result is sorted by name, then subcategory name. */
  lemma ReviewedSorted(q: QueryReview, db: Db.HomeBankDb, keys: seq<nat>, compile: string -> Regex, sum: seq<Transaction> -> real)
    requires IsKeyOrder(db.categories, keys) && Reviewable(q, db, compile)
    ensures Sorted(Reviewed(q, db, keys, compile, sum), EntryLe)
  {
    var rows := Rows(q, db, keys, compile, sum);
    RowLeIsTotalPreorder();
    SortSorted(rows, RowLe);
    FinishSorted(q.excludeNone, Sort(rows, RowLe));
  }

  /** With the exclusion, the entries of exactly the rows that have transactions. */
  lemma FinishExcludedMembers(rows: seq<Row>)
    ensures forall e :: e in Finish(true, rows) <==> exists r :: r in rows && r.count > 0 && EntryOf(r) == e
  {
    FilterMapMembers(rows, NonEmptyEntry);
  }

  /**
   * With `exclude_none` an entry is in the result exactly when it is the
   * entry of a stored category with at least one transaction.
   */
  lemma ExcludedDropsEmptyRows(q: QueryReview, db: Db.HomeBankDb, keys: seq<nat>, compile: string -> Regex, sum: seq<Transaction> -> real)
    requires IsKeyOrder(db.categories, keys) && Reviewable(q, db, compile) && q.excludeNone
    ensures forall e :: e in Reviewed(q, db, keys, compile, sum) <==>
      exists k :: k in db.categories && RowOf(q, db, compile, sum, db.categories[k]).count > 0 &&
                  EntryOf(RowOf(q, db, compile, sum, db.categories[k])) == e
  {
    var m := db.categories;
    var rows := Rows(q, db, keys, compile, sum);
    var sorted := Sort(rows, RowLe);
    var out := Reviewed(q, db, keys, compile, sum);
    assert out == Finish(true, sorted);
    RowsOnePerCategory(q, db, keys, compile, sum);
    SortMembers(rows, RowLe);
    FinishExcludedMembers(sorted);
    forall e ensures e in out <==> exists k :: k in m && RowOf(q, db, compile, sum, m[k]).count > 0 &&
                                               EntryOf(RowOf(q, db, compile, sum, m[k])) == e
    {
      if e in out {
        var r :| r in sorted && r.count > 0 && EntryOf(r) == e;
        var k :| k in m && RowOf(q, db, compile, sum, m[k]) == r;
      }
      if exists k :: k in m && RowOf(q, db, compile, sum, m[k]).count > 0 && EntryOf(RowOf(q, db, compile, sum, m[k])) == e {
        var k :| k in m && RowOf(q, db, compile, sum, m[k]).count > 0 && EntryOf(RowOf(q, db, compile, sum, m[k])) == e;
        assert RowOf(q, db, compile, sum, m[k]) in sorted;
      }
    }
  }

  /** Without the exclusion, one entry per row. */
  lemma FinishAllMembers(rows: seq<Row>)
    ensures |Finish(false, rows)| == |rows|
    ensures forall r :: r in rows ==> EntryOf(r) in Finish(false, rows)
  {
    var out := Finish(false, rows);
    forall r | r in rows ensures EntryOf(r) in out {
      var i :| 0 <= i < |rows| && rows[i] == r;
      assert out[i] == EntryOf(r);
    }
  }

  /** Without `exclude_none` nothing is dropped: one entry per stored category. */
  lemma NothingDroppedWithoutExclusion(q: QueryReview, db: Db.HomeBankDb, keys: seq<nat>, compile: string -> Regex, sum: seq<Transaction> -> real)
    requires IsKeyOrder(db.categories, keys) && Reviewable(q, db, compile) && !q.excludeNone
    ensures |Reviewed(q, db, keys, compile, sum)| == |db.categories|
    ensures forall k :: k in db.categories ==> EntryOf(RowOf(q, db, compile, sum, db.categories[k])) in Reviewed(q, db, keys, compile, sum)
  {
    var rows := Rows(q, db, keys, compile, sum);
    var sorted := Sort(rows, RowLe);
    assert Reviewed(q, db, keys, compile, sum) == Finish(false, sorted);
    RowsOnePerCategory(q, db, keys, compile, sum);
    SortMembers(rows, RowLe);
    FinishAllMembers(sorted);
  }
}
