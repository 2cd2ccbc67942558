/**
 * `QueryCategories`: the stored categories whose full name matches an
 * optional regular expression, sorted by full name.
 */
module CategoryQuery {
  import opened Wrappers
  import opened Seqs
  import opened Regexes
  import opened Ordering
  import opened Categories
  import Sorting
  import Db

  datatype QueryCategories = QueryCategories(name: Option<Regex>)

  /** The filter: the full name, qualified by the parent's name, passes the regex. */
  function NameKept(q: QueryCategories, cats: map<nat, Category>): Category -> bool {
    (c: Category) => Keeps(q.name, FullName(c, cats))
  }

  /** `sort_by_key` on the full name compares full names as strings. */
  function ByFullName(cats: map<nat, Category>): (Category, Category) -> bool {
    (a: Category, b: Category) => StringLe(FullName(a, cats), FullName(b, cats))
  }

  lemma ByFullNameIsTotalPreorder(cats: map<nat, Category>)
    ensures IsTotalPreorder(ByFullName(cats))
  {
    var le := ByFullName(cats);
    forall a, b ensures le(a, b) || le(b, a) {
      StringLeTotal(FullName(a, cats), FullName(b, cats));
    }
    forall a, b, c | le(a, b) && le(b, c) ensures le(a, c) {
      StringLeTransitive(FullName(a, cats), FullName(b, cats), FullName(c, cats));
    }
  }

  /** What `exec` returns: the stored categories, in the map's iteration order `keys`, filtered, then sorted by full name. */
  function Selected(q: QueryCategories, db: Db.HomeBankDb, keys: seq<nat>): (r: seq<Category>)
    requires IsKeyOrder(db.categories, keys)
    ensures |r| <= |db.categories|
  {
    KeyOrderSize(db.categories, keys);
    Sort(Filter(Values(db.categories, keys), NameKept(q, db.categories)), ByFullName(db.categories))
  }

  /** `exec`: collects the kept categories, then sorts the collected vector in place. */
  method Exec(q: QueryCategories, db: Db.HomeBankDb, keys: seq<nat>) returns (r: seq<Category>)
    requires IsKeyOrder(db.categories, keys)
    ensures r == Selected(q, db, keys)
    ensures Sorted(r, ByFullName(db.categories))
  {
    var kept := Filter(Values(db.categories, keys), NameKept(q, db.categories));
    var a := new Category[|kept|](i requires 0 <= i < |kept| => kept[i]);
    assert a[..] == kept;
    Sorting.InsertionSort(a, ByFullName(db.categories));
    r := a[..];
    SelectedSorted(q, db, keys);
  }

  /** The result is sorted by full name. */
  lemma SelectedSorted(q: QueryCategories, db: Db.HomeBankDb, keys: seq<nat>)
    requires IsKeyOrder(db.categories, keys)
    ensures Sorted(Selected(q, db, keys), ByFullName(db.categories))
  {
    ByFullNameIsTotalPreorder(db.categories);
    SortSorted(Filter(Values(db.categories, keys), NameKept(q, db.categories)), ByFullName(db.categories));
  }

  /**
   * A category is in the result exactly when it is stored and its full name
   * passes the filter, at most as often as it is stored; without a regex
   * the result holds every stored category.
   */
  lemma SelectedMembers(q: QueryCategories, db: Db.HomeBankDb, keys: seq<nat>)
    requires IsKeyOrder(db.categories, keys)
    ensures forall c :: c in Selected(q, db, keys) <==> c in db.categories.Values && Keeps(q.name, FullName(c, db.categories))
    ensures multiset(Selected(q, db, keys)) <= multiset(Values(db.categories, keys))
    ensures q.name.None? ==> multiset(Selected(q, db, keys)) == multiset(Values(db.categories, keys))
  {
    var vals := Values(db.categories, keys);
    var kept := Filter(vals, NameKept(q, db.categories));
    var r := Selected(q, db, keys);
    FilterValuesMembers(db.categories, keys, NameKept(q, db.categories));
    assert multiset(r) == multiset(kept);
    forall c ensures c in r <==> c in kept {
      assert c in r <==> c in multiset(r);
      assert c in kept <==> c in multiset(kept);
    }
    if q.name.None? {
      FilterAll(vals, NameKept(q, db.categories));
    }
  }
}
