/** What can go wrong while decoding an account or one of its codes. */
module AccountErrors {
  datatype AccountError =
    | InvalidKey
    | InvalidFlags
    | InvalidPosition
    | InvalidType
    | InvalidCurrency
    | InvalidName
    | InvalidInitialAmount
    | InvalidMinimumAmount
    | InvalidMaximumAmount
    | InvalidNotes
    | InvalidGroup
    | InvalidReconcileDate
}
