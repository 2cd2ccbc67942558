/** The reconciliation status of a transaction. */
module TransactionStatuses {
  import opened Wrappers
  import opened Strings
  import opened TransactionErrors

  datatype TransactionStatus = None | Cleared | Reconciled | Remind | Void

  /** The stored code of a status: its position in the declaration. */
  function Code(st: TransactionStatus): nat {
    match st
    case None => 0
    case Cleared => 1
    case Reconciled => 2
    case Remind => 3
    case Void => 4
  }

  /** `TransactionStatus::default()`. */
  function Default(): (st: TransactionStatus)
    ensures Code(st) == 0
  {
    TransactionStatus.None
  }

  /** `TransactionStatus::try_from(usize)`. */
  function TryFrom(u: nat): (r: Result<TransactionStatus, TransactionError>)
    ensures r.Ok? <==> u <= 4
    ensures r.Ok? ==> Code(r.value) == u
    ensures r.Err? ==> r.error == InvalidStatus
  {
    match u
    case 0 => Ok(TransactionStatus.None)
    case 1 => Ok(Cleared)
    case 2 => Ok(Reconciled)
    case 3 => Ok(Remind)
    case 4 => Ok(Void)
    case _ => Err(InvalidStatus)
  }

  lemma TryFromCode(st: TransactionStatus)
    ensures TryFrom(Code(st)) == Ok(st)
  {
  }

  /** The spellings `from_str` accepts for each status. */
  function Spellings(st: TransactionStatus): set<string> {
    match st
    case None => {"none", "None", "0"}
    case Cleared => {"cleared", "Cleared", "1"}
    case Reconciled => {"reconciled", "Reconciled", "2"}
    case Remind => {"remind", "Remind", "3"}
    case Void => {"void", "Void", "4"}
  }

  /** `TransactionStatus::from_str`. */
  function FromStr(s: string): (r: Result<TransactionStatus, TransactionError>)
    ensures r.Err? ==> r.error == InvalidStatus
  {
    match s
    case "none" | "None" | "0" => Ok(TransactionStatus.None)
    case "cleared" | "Cleared" | "1" => Ok(Cleared)
    case "reconciled" | "Reconciled" | "2" => Ok(Reconciled)
    case "remind" | "Remind" | "3" => Ok(Remind)
    case "void" | "Void" | "4" => Ok(Void)
    case _ => Err(InvalidStatus)
  }

  /** `from_str` accepts exactly the listed spellings of each status. */
  lemma FromStrSpellings(s: string, st: TransactionStatus)
    ensures FromStr(s) == Ok(st) <==> s in Spellings(st)
  {
  }

  lemma FromStrAgreesWithTryFrom(n: nat)
    requires n <= 4
    ensures FromStr(Decimal(n)) == TryFrom(n)
  {
  }
}
