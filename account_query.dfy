/**
 * `QueryAccounts`: the stored accounts of the listed types, in a group
 * whose name matches, at an institution whose name matches; each filter
 * is optional.
 */
module AccountQuery {
  import opened Wrappers
  import opened Seqs
  import opened Regexes
  import AccountTypes
  import opened Accounts
  import Db

  datatype QueryAccounts = QueryAccounts(
    accountType: Option<seq<AccountTypes.AccountType>>,
    group: Option<Regex>,
    institution: Option<Regex>)

  /** The type filter: the account's type is one of the listed ones. */
  predicate TypeKept(q: QueryAccounts, a: Account) {
    match q.accountType
    case None => true
    case Some(types) => a.atype in types
  }

  /** The group filter: the account names a group, the group is stored, and its name matches. */
  predicate GroupKept(q: QueryAccounts, db: Db.HomeBankDb, a: Account) {
    match (q.group, a.group)
    case (Some(re), Some(k)) => k in db.groups && re(db.groups[k].name)
    case (Some(_), None) => false
    case (None, _) => true
  }

  /** The institution filter, on the bank name. */
  predicate InstitutionKept(q: QueryAccounts, a: Account) {
    Keeps(q.institution, a.bankName)
  }

  /** `exec`: the three filters in turn over the stored accounts, in the map's iteration order `keys`. */
  function Exec(q: QueryAccounts, db: Db.HomeBankDb, keys: seq<nat>): (r: seq<Account>)
    requires IsKeyOrder(db.accounts, keys)
    ensures |r| <= |db.accounts|
  {
    KeyOrderSize(db.accounts, keys);
    var byType := Filter(Values(db.accounts, keys), (a: Account) => TypeKept(q, a));
    var byGroup := Filter(byType, (a: Account) => GroupKept(q, db, a));
    Filter(byGroup, (a: Account) => InstitutionKept(q, a))
  }

  /** What the three filters ask of an account, each only when it is set. */
  predicate Wanted(q: QueryAccounts, db: Db.HomeBankDb, a: Account) {
    (q.accountType.Some? ==> a.atype in q.accountType.value) &&
    (q.group.Some? ==> a.group.Some? && a.group.value in db.groups && q.group.value(db.groups[a.group.value].name)) &&
    (q.institution.Some? ==> q.institution.value(a.bankName))
  }

  lemma KeptIffWanted(q: QueryAccounts, db: Db.HomeBankDb, a: Account)
    ensures TypeKept(q, a) && GroupKept(q, db, a) && InstitutionKept(q, a) <==> Wanted(q, db, a)
  {
  }

  /**
   * An account is returned exactly when it is stored and passes every filter
   * that is set: its type is listed, its group is stored under its group
   * key and the group's name matches, its bank name matches.
   */
  lemma ExecSelects(q: QueryAccounts, db: Db.HomeBankDb, keys: seq<nat>)
    requires IsKeyOrder(db.accounts, keys)
    ensures forall a :: a in Exec(q, db, keys) <==> a in db.accounts.Values && Wanted(q, db, a)
  {
    var vs := Values(db.accounts, keys);
    var p1 := (a: Account) => TypeKept(q, a);
    var p2 := (a: Account) => GroupKept(q, db, a);
    var p3 := (a: Account) => InstitutionKept(q, a);
    var f1 := Filter(vs, p1);
    var f2 := Filter(f1, p2);
    assert Exec(q, db, keys) == Filter(f2, p3);
    ValuesAreStored(db.accounts, keys);
    forall a ensures a in Exec(q, db, keys) <==> a in db.accounts.Values && Wanted(q, db, a) {
      FilterHas(vs, p1, a);
      FilterHas(f1, p2, a);
      FilterHas(f2, p3, a);
      KeptIffWanted(q, db, a);
    }
  }

  /** Results are unmodified copies of stored accounts, each at most as often as it is stored. */
  lemma ExecCopies(q: QueryAccounts, db: Db.HomeBankDb, keys: seq<nat>)
    requires IsKeyOrder(db.accounts, keys)
    ensures multiset(Exec(q, db, keys)) <= multiset(Values(db.accounts, keys))
  {
    var vs := Values(db.accounts, keys);
    var f1 := Filter(vs, (a: Account) => TypeKept(q, a));
    var f2 := Filter(f1, (a: Account) => GroupKept(q, db, a));
    FilterSubMultiset(vs, (a: Account) => TypeKept(q, a));
    FilterSubMultiset(f1, (a: Account) => GroupKept(q, db, a));
    FilterSubMultiset(f2, (a: Account) => InstitutionKept(q, a));
  }

  /** With no filter set every stored account is returned. */
  lemma NoFilterReturnsAll(q: QueryAccounts, db: Db.HomeBankDb, keys: seq<nat>)
    requires IsKeyOrder(db.accounts, keys)
    requires q.accountType.None? && q.group.None? && q.institution.None?
    ensures Exec(q, db, keys) == Values(db.accounts, keys)
  {
    var vs := Values(db.accounts, keys);
    FilterAll(vs, (a: Account) => TypeKept(q, a));
    FilterAll(vs, (a: Account) => GroupKept(q, db, a));
    FilterAll(vs, (a: Account) => InstitutionKept(q, a));
  }
}
