/** What can go wrong while decoding a transaction or one of its codes. */
module TransactionErrors {
  datatype TransactionError =
    | InvalidAccount
    | InvalidAmount
    | InvalidDate
    | InvalidPayee
    | InvalidStatus
    | InvalidPayMode
    | InvalidType
    | InvalidCategory(value: string)
    | MismatchedSplitNumber(expected: nat, found: nat)
    | InvalidFlags
    | InvalidDestinationAccount
    | InvalidTransferKey
    | ConflictingInfoSimpleSplitTransaction
}
