/** What can go wrong while decoding a category. */
module CategoryErrors {
  datatype CategoryError =
    | InvalidKey
    | InvalidFlags
    | InvalidName
    | InvalidBudgetProperty
    | InvalidBudgetValue
    | InvalidParentKey
}
