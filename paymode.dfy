/** How a transaction was paid, and its two encodings: a stored code and a name. */
module PayModes {
  import opened Wrappers
  import opened Strings
  import opened TransactionErrors

  datatype PayMode =
    | None
    | CreditCard
    | Cheque
    | Cash
    | BankTransfer
    | DebitCard
    | StandingOrder
    | ElectronicPayment
    | Deposit
    | FinancialInstitutionFee
    | DirectDebit

  /** The stored code of a pay mode: its position in the declaration. */
  function Code(p: PayMode): nat {
    match p
    case None => 0
    case CreditCard => 1
    case Cheque => 2
    case Cash => 3
    case BankTransfer => 4
    case DebitCard => 5
    case StandingOrder => 6
    case ElectronicPayment => 7
    case Deposit => 8
    case FinancialInstitutionFee => 9
    case DirectDebit => 10
  }

  /** `PayMode::default()`. */
  function Default(): (p: PayMode)
    ensures Code(p) == 0
  {
    PayMode.None
  }

  /**
   * `PayMode::try_from(usize)`: the pay mode with that code.  A code past the
   * last one is reported as `InvalidStatus`, not `InvalidPayMode`.
   */
  function TryFrom(u: nat): (r: Result<PayMode, TransactionError>)
    ensures r.Ok? <==> u <= 10
    ensures r.Ok? ==> Code(r.value) == u
    ensures r.Err? ==> r.error == InvalidStatus
  {
    match u
    case 0 => Ok(PayMode.None)
    case 1 => Ok(CreditCard)
    case 2 => Ok(Cheque)
    case 3 => Ok(Cash)
    case 4 => Ok(BankTransfer)
    case 5 => Ok(DebitCard)
    case 6 => Ok(StandingOrder)
    case 7 => Ok(ElectronicPayment)
    case 8 => Ok(Deposit)
    case 9 => Ok(FinancialInstitutionFee)
    case 10 => Ok(DirectDebit)
    case _ => Err(InvalidStatus)
  }

  /** Decoding a pay mode's own code gives it back. */
  lemma TryFromCode(p: PayMode)
    ensures TryFrom(Code(p)) == Ok(p)
  {
  }

  /** The spellings `from_str` accepts for each pay mode. */
  function Spellings(p: PayMode): set<string> {
    match p
    case None => {"0", "none", "None"}
    case CreditCard => {"1", "CreditCard", "Credit", "credit"}
    case Cheque => {"2", "Cheque", "Check", "cheque", "check"}
    case Cash => {"3", "Cash", "cash"}
    case BankTransfer => {"4", "BankTransfer", "transfer"}
    case DebitCard => {"5", "DebitCard", "Debit", "debit"}
    case StandingOrder => {"6", "StandingOrder"}
    case ElectronicPayment => {"7", "ElectronicPayment", "ETransfer", "eTransfer", "E-Transfer", "e-Transfer", "e-transfer", "etransfer"}
    case Deposit => {"8", "Deposit", "deposit"}
    case FinancialInstitutionFee => {"9", "FIFee", "Fee", "fee"}
    case DirectDebit => {"10", "DirectDebit"}
  }

  /** `PayMode::from_str`. */
  function FromStr(s: string): (r: Result<PayMode, TransactionError>)
    ensures r.Err? ==> r.error == InvalidPayMode
  {
    match s
    case "0" | "none" | "None" => Ok(PayMode.None)
    case "1" | "CreditCard" | "Credit" | "credit" => Ok(CreditCard)
    case "2" | "Cheque" | "Check" | "cheque" | "check" => Ok(Cheque)
    case "3" | "Cash" | "cash" => Ok(Cash)
    case "4" | "BankTransfer" | "transfer" => Ok(BankTransfer)
    case "5" | "DebitCard" | "Debit" | "debit" => Ok(DebitCard)
    case "6" | "StandingOrder" => Ok(StandingOrder)
    case "7" | "ElectronicPayment" | "ETransfer" | "eTransfer" | "E-Transfer" | "e-Transfer" | "e-transfer" | "etransfer" => Ok(ElectronicPayment)
    case "8" | "Deposit" | "deposit" => Ok(Deposit)
    case "9" | "FIFee" | "Fee" | "fee" => Ok(FinancialInstitutionFee)
    case "10" | "DirectDebit" => Ok(DirectDebit)
    case _ => Err(InvalidPayMode)
  }

  /** `from_str` accepts exactly the listed spellings of each pay mode, and nothing else. */
  lemma FromStrSpellings(s: string, p: PayMode)
    ensures FromStr(s) == Ok(p) <==> s in Spellings(p)
  {
  }

  /** The decimal spelling of a valid code names the same pay mode as the code itself. */
  lemma FromStrAgreesWithTryFrom(n: nat)
    requires n <= 10
    ensures FromStr(Decimal(n)) == TryFrom(n)
  {
    assert Decimal(10) == "10";
  }
}
