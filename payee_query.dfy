/** `QueryPayees`: the stored payees whose name matches an optional regular expression. */
module PayeeQuery {
  import opened Wrappers
  import opened Seqs
  import opened Regexes
  import opened Payees
  import Db

  datatype QueryPayees = QueryPayees(name: Option<Regex>)

  /** `exec`: the stored payees, in the map's iteration order `keys`, that the name filter keeps. */
  function Exec(q: QueryPayees, db: Db.HomeBankDb, keys: seq<nat>): (r: seq<Payee>)
    requires IsKeyOrder(db.payees, keys)
    ensures |r| <= |db.payees|
  {
    KeyOrderSize(db.payees, keys);
    Filter(Values(db.payees, keys), (p: Payee) => Keeps(q.name, p.name))
  }

  /**
   * A payee is returned exactly when it is stored and its name passes the
   * filter, as an unmodified copy and at most as often as it is stored;
   * without a regex every stored payee is returned.
   */
  lemma ExecSelects(q: QueryPayees, db: Db.HomeBankDb, keys: seq<nat>)
    requires IsKeyOrder(db.payees, keys)
    ensures forall p :: p in Exec(q, db, keys) <==> p in db.payees.Values && Keeps(q.name, p.name)
    ensures multiset(Exec(q, db, keys)) <= multiset(Values(db.payees, keys))
    ensures q.name.None? ==> Exec(q, db, keys) == Values(db.payees, keys)
  {
    FilterValuesMembers(db.payees, keys, (p: Payee) => Keeps(q.name, p.name));
    if q.name.None? {
      FilterAll(Values(db.payees, keys), (p: Payee) => Keeps(q.name, p.name));
    }
  }
}
