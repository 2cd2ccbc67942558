/** Expense, income, or a transfer between two accounts. */
module TransactionTypes {
  import opened Wrappers
  import opened TransactionErrors

  /** The link between the two halves of a transfer. */
  datatype Transfer = Transfer(transferKey: nat, destination: nat)

  /** `Transfer::empty()`: linked to nothing. */
  const EMPTY_TRANSFER: Transfer := Transfer(0, 0)

  datatype TransactionType = Expense | Income | TransferOf(xfer: Transfer)

  /** `TransactionType::default()`. */
  function Default(): (t: TransactionType)
    ensures !IsTransfer(t) && t != Income
  {
    Expense
  }

  /** `is_transfer`. */
  predicate IsTransfer(t: TransactionType) {
    match t
    case TransferOf(_) => true
    case _ => false
  }

  /** `is_similar_to`: the same variant, whatever a transfer links. */
  predicate IsSimilarTo(a: TransactionType, b: TransactionType) {
    match (a, b)
    case (Expense, Expense) => true
    case (Income, Income) => true
    case (TransferOf(_), TransferOf(_)) => true
    case _ => false
  }

  lemma IsTransferMeansTransfer(t: TransactionType)
    ensures IsTransfer(t) <==> t.TransferOf?
  {
  }

  /** Two types are similar exactly when they are the same variant. */
  lemma SimilarMeansSameVariant(a: TransactionType, b: TransactionType)
    ensures IsSimilarTo(a, b) <==> (a.Expense? && b.Expense?) || (a.Income? && b.Income?) || (a.TransferOf? && b.TransferOf?)
    ensures IsSimilarTo(a, a)
    ensures IsSimilarTo(a, b) == IsSimilarTo(b, a)
  {
  }

  function Spellings(t: TransactionType): set<string> {
    match t
    case Expense => {"Expense", "expense", "E", "e"}
    case Income => {"Income", "income", "I", "i"}
    case TransferOf(x) => if x == EMPTY_TRANSFER then {"Transfer", "transfer", "T", "t"} else {}
  }

  /** `TransactionType::from_str`: a transfer it names links nothing yet. */
  function FromStr(s: string): (r: Result<TransactionType, TransactionError>)
    ensures r.Err? ==> r.error == InvalidType
  {
    match s
    case "Expense" | "expense" | "E" | "e" => Ok(Expense)
    case "Income" | "income" | "I" | "i" => Ok(Income)
    case "Transfer" | "transfer" | "T" | "t" => Ok(TransferOf(EMPTY_TRANSFER))
    case _ => Err(InvalidType)
  }

  /** `from_str` accepts exactly the listed spellings; a transfer it returns has the 0/0 link. */
  lemma FromStrSpellings(s: string, t: TransactionType)
    ensures FromStr(s) == Ok(t) <==> s in Spellings(t)
  {
  }
}
