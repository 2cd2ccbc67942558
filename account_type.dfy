/** The kind of an account, and its two encodings: a stored index and a name. */
module AccountTypes {
  import opened Wrappers
  import opened AccountErrors

  datatype AccountType =
    | None
    | Bank
    | Cash
    | Asset
    | CreditCard
    | Liability
    | Chequing
    | Savings

  /** The stored index of an account type: its position in the declaration. */
  function Index(t: AccountType): nat {
    match t
    case None => 0
    case Bank => 1
    case Cash => 2
    case Asset => 3
    case CreditCard => 4
    case Liability => 5
    case Chequing => 6
    case Savings => 7
  }

  /** `AccountType::try_from(usize)`: the account type with that index. */
  function TryFrom(u: nat): (r: Result<AccountType, AccountError>)
    ensures r.Ok? <==> u <= 7
    ensures r.Ok? ==> Index(r.value) == u
    ensures r.Err? ==> r.error == InvalidType
  {
    match u
    case 0 => Ok(AccountType.None)
    case 1 => Ok(Bank)
    case 2 => Ok(Cash)
    case 3 => Ok(Asset)
    case 4 => Ok(CreditCard)
    case 5 => Ok(Liability)
    case 6 => Ok(Chequing)
    case 7 => Ok(Savings)
    case _ => Err(InvalidType)
  }

  /** Every account type is decoded from its own index, and only from it. */
  lemma TryFromIndex(t: AccountType, u: nat)
    ensures TryFrom(Index(t)) == Ok(t)
    ensures TryFrom(u) == Ok(t) <==> u == Index(t)
  {
  }

  /** Different indices never decode to the same account type. */
  lemma TryFromInjective(u: nat, v: nat)
    requires TryFrom(u).Ok? && TryFrom(u) == TryFrom(v)
    ensures u == v
  {
  }

  /** The spellings `from_str` accepts for each account type. */
  function Aliases(t: AccountType): set<string> {
    match t
    case None => {"None", "none", "N", "n"}
    case Bank => {"Bank", "bank", "B", "b"}
    case Cash => {"Cash", "cash", "Ca", "ca"}
    case Asset => {"Asset", "asset", "A", "a"}
    case CreditCard => {"Credit", "CreditCard", "credit", "creditcard", "cc"}
    case Liability => {"Liability", "liability", "L", "l"}
    case Chequing => {"Chequing", "Checking", "chequing", "checking", "Ch", "ch"}
    case Savings => {"Savings", "savings", "S", "s"}
  }

  /** `AccountType::from_str`. */
  function FromStr(s: string): (r: Result<AccountType, AccountError>)
    ensures r.Err? ==> r.error == InvalidType
  {
    match s
    case "None" | "none" | "N" | "n" => Ok(AccountType.None)
    case "Bank" | "bank" | "B" | "b" => Ok(Bank)
    case "Cash" | "cash" | "Ca" | "ca" => Ok(Cash)
    case "Asset" | "asset" | "A" | "a" => Ok(Asset)
    case "Credit" | "CreditCard" | "credit" | "creditcard" | "cc" => Ok(CreditCard)
    case "Liability" | "liability" | "L" | "l" => Ok(Liability)
    case "Chequing" | "Checking" | "chequing" | "checking" | "Ch" | "ch" => Ok(Chequing)
    case "Savings" | "savings" | "S" | "s" => Ok(Savings)
    case _ => Err(InvalidType)
  }

  /** `from_str` accepts exactly the listed aliases of each account type, and nothing else. */
  lemma FromStrAliases(s: string, t: AccountType)
    ensures FromStr(s) == Ok(t) <==> s in Aliases(t)
  {
  }

  /** No spelling names two account types, so every alias decodes to its own type. */
  lemma AliasesDisjoint(s: string, t: AccountType, t': AccountType)
    requires s in Aliases(t) && s in Aliases(t')
    ensures t == t'
  {
    FromStrAliases(s, t);
    FromStrAliases(s, t');
  }
}
