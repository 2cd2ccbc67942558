/** `QueryCurrencies`: the stored currencies whose name matches an optional regular expression. */
module CurrencyQuery {
  import opened Wrappers
  import opened Seqs
  import opened Regexes
  import opened Currencies
  import Db

  datatype QueryCurrencies = QueryCurrencies(name: Option<Regex>)

  /** `exec`: the stored currencies, in the map's iteration order `keys`, that the name filter keeps. */
  function Exec(q: QueryCurrencies, db: Db.HomeBankDb, keys: seq<nat>): (r: seq<Currency>)
    requires IsKeyOrder(db.currencies, keys)
    ensures |r| <= |db.currencies|
  {
    KeyOrderSize(db.currencies, keys);
    Filter(Values(db.currencies, keys), (c: Currency) => Keeps(q.name, c.name))
  }

  /**
   * A currency is returned exactly when it is stored and its name passes the
   * filter, as an unmodified copy and at most as often as it is stored;
   * without a regex every stored currency is returned.
   */
  lemma ExecSelects(q: QueryCurrencies, db: Db.HomeBankDb, keys: seq<nat>)
    requires IsKeyOrder(db.currencies, keys)
    ensures forall c :: c in Exec(q, db, keys) <==> c in db.currencies.Values && Keeps(q.name, c.name)
    ensures multiset(Exec(q, db, keys)) <= multiset(Values(db.currencies, keys))
    ensures q.name.None? ==> Exec(q, db, keys) == Values(db.currencies, keys)
  {
    FilterValuesMembers(db.currencies, keys, (c: Currency) => Keeps(q.name, c.name));
    if q.name.None? {
      FilterAll(Values(db.currencies, keys), (c: Currency) => Keeps(q.name, c.name));
    }
  }
}
