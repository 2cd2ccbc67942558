/** What can go wrong while decoding a currency. */
module CurrencyErrors {
  datatype CurrencyError =
    | InvalidKey
    | InvalidFlags
    | InvalidIsoString
    | InvalidName
    | InvalidSymbol
    | InvalidSymbolPrefix
    | InvalidDecimalSeparator
    | InvalidThousandsSeparator
    | InvalidDecimalLength
    | InvalidConversionRate
    | InvalidMDate
}
