/** `QueryGroups`: the stored groups whose name matches an optional regular expression. */
module GroupQuery {
  import opened Wrappers
  import opened Seqs
  import opened Regexes
  import opened Groups
  import Db

  datatype QueryGroups = QueryGroups(name: Option<Regex>)

  /** `exec`: the stored groups, in the map's iteration order `keys`, that the name filter keeps. */
  function Exec(q: QueryGroups, db: Db.HomeBankDb, keys: seq<nat>): (r: seq<Group>)
    requires IsKeyOrder(db.groups, keys)
    ensures |r| <= |db.groups|
  {
    KeyOrderSize(db.groups, keys);
    Filter(Values(db.groups, keys), (g: Group) => Keeps(q.name, g.name))
  }

  /**
   * A group is returned exactly when it is stored and its name passes the
   * filter, as an unmodified copy and at most as often as it is stored;
   * without a regex every stored group is returned.
   */
  lemma ExecSelects(q: QueryGroups, db: Db.HomeBankDb, keys: seq<nat>)
    requires IsKeyOrder(db.groups, keys)
    ensures forall g :: g in Exec(q, db, keys) <==> g in db.groups.Values && Keeps(q.name, g.name)
    ensures multiset(Exec(q, db, keys)) <= multiset(Values(db.groups, keys))
    ensures q.name.None? ==> Exec(q, db, keys) == Values(db.groups, keys)
  {
    FilterValuesMembers(db.groups, keys, (g: Group) => Keeps(q.name, g.name));
    if q.name.None? {
      FilterAll(Values(db.groups, keys), (g: Group) => Keeps(q.name, g.name));
    }
  }
}
