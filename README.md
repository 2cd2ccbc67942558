# homebank-db in Dafny

This project models the core of the `homebank-db` Rust crate. The crate reads a HomeBank `.xhb` file, an XML document with one element per
currency, group, account, payee, category and transaction, into an
in-memory `HomeBankDb`. It then answers filter queries over that database.
The model covers these parts:

- **Element decoders.** Each `TryFrom<Vec<OwnedAttribute>>` turns one XML element's attributes into a record. Each is written as a `TryFrom` method with a `while` loop over the attribute list, the same loop the source runs. Each method is proved equal to a fold (`Decode`, and for transactions `DecodeAsWritten`). Lemmas about that fold give the meaning of a decoded value:
  - every field holds what the last attribute of its kind says;
  - the first bad attribute decides the error;
  - unknown attributes are ignored.
- **Value codes.** Transaction type, status and pay mode; account type and account flags. Also the day-number date encoding with its clamp to 1900-2200, tag splitting, and the `||`-separated split lists.
- **Transaction shape.** A transaction is either simple or split. `subset` narrows a split transaction to chosen entries and recomputes its amount.
- **Queries.** The transaction query is an order-preserving chain of optional filters. Its category filter narrows split transactions. The category query filters, then sorts by full name. The review query makes one row per category, then sorts and optionally drops empty rows. The account, currency, payee and group queries are each a single filter. The two sorts run in place, as an insertion sort on an array, proved against a stable sort function.
- **Database builder.** `HomeBankDb::try_from` is a method that loops over a stream of XML events. It tracks whether it is inside the `<homebank>` root. It stores every record that decodes and skips every record that does not.

The operations follow the source as written, including these behaviours:

- An out-of-range pay mode number reports `InvalidStatus`.
- The builder skips stream errors; they are inert events.
- `filter_account` matches the account name against the *payee* regex. `TransactionQuery.Exec` takes the regex it reads as a mode: `ReadsPayee` is the source's behaviour, and the review query runs in it.
- The `&` operator on `AccountFlags` is true when the bit is clear.
- The split-list length check inside the transaction decoder can never fire, and a split list given alone is accepted. `TransactionDecoder.TryFrom` and the database builder use this decoder, so the builder stores split transactions whose lists do not line up.
- Narrowing such a transaction with a category regex can index past its lists, where the source panics. The transaction and review queries require that this does not happen for the transactions they keep (`TransactionQuery.Executable`, `ReviewQuery.Reviewable`). Without a category regex there is no requirement.

Where an as-written behaviour is evidently unintended, both versions are modelled. The lemmas relating the two are listed under "## Findings".

Inputs the crate takes from its dependencies become parameters:

- `parseReal` stands for `f32::from_str`.
- A `Regex` is its `is_match` predicate, a `string -> bool`.
- `keys` is the iteration order of a `HashMap`.
- `compile` stands for `Regex::from_str` and `sum` for `sum_transactions`, both in the review query.

Integer parsing (`usize`, `u32` and `u8` `from_str`) is written out in `Strings.ParseUnsigned`, with `usize` taken as 64 bits. Dates are day numbers, with day 1 = 0001-01-01.

## Model

| member | source | states |
|---|---|---|
| TransactionTypes.Default | src/homebank-db/src/transaction/transaction_type.rs:44-48 | the default type is an expense, neither income nor a transfer |
| TransactionTypes.IsTransferMeansTransfer | src/homebank-db/src/transaction/transaction_type.rs:24-29 | `is_transfer` holds exactly for the Transfer variant, whatever its link |
| TransactionTypes.SimilarMeansSameVariant | src/homebank-db/src/transaction/transaction_type.rs:34-41 | `is_similar_to` holds exactly when both types are the same variant, ignoring a transfer's link; it is reflexive and symmetric |
| TransactionTypes.FromStr | src/homebank-db/src/transaction/transaction_type.rs:50-63 | every rejected spelling reports `InvalidType` |
| TransactionTypes.FromStrSpellings | src/homebank-db/src/transaction/transaction_type.rs:53-62 | a string parses to a type exactly when it is one of that type's accepted spellings |
| TransactionStatuses.Default | src/homebank-db/src/transaction/transaction_status.rs:16-20 | the default status has code 0 (none) |
| TransactionStatuses.TryFrom | src/homebank-db/src/transaction/transaction_status.rs:22-35 | codes 0 to 4 are accepted and give the status with that code; every other number fails with `InvalidStatus` |
| TransactionStatuses.TryFromCode | src/homebank-db/src/transaction/transaction_status.rs:22-35 | every status survives the round trip through its code |
| TransactionStatuses.FromStr | src/homebank-db/src/transaction/transaction_status.rs:37-50 | every rejected string reports `InvalidStatus` |
| TransactionStatuses.FromStrSpellings | src/homebank-db/src/transaction/transaction_status.rs:40-49 | a string parses to a status exactly when it is one of that status's spellings |
| TransactionStatuses.FromStrAgreesWithTryFrom | src/homebank-db/src/transaction/transaction_status.rs:37-50 | the decimal form of a code from 0 to 4 parses to the same status as the code itself |
| PayModes.Default | src/homebank-db/src/paymode/paymode_struct.rs:22-26 | the default pay mode has code 0 (none) |
| PayModes.TryFrom | src/homebank-db/src/paymode/paymode_struct.rs:28-47 | codes 0 to 10 are accepted and give the mode with that code; every other number fails, and the error is `InvalidStatus`, as written |
| PayModes.TryFromCode | src/homebank-db/src/paymode/paymode_struct.rs:28-47 | every pay mode survives the round trip through its code |
| PayModes.FromStr | src/homebank-db/src/paymode/paymode_struct.rs:49-68 | every rejected string reports `InvalidPayMode` |
| PayModes.FromStrSpellings | src/homebank-db/src/paymode/paymode_struct.rs:52-67 | a string parses to a pay mode exactly when it is one of that mode's spellings |
| PayModes.FromStrAgreesWithTryFrom | src/homebank-db/src/paymode/paymode_struct.rs:49-68 | the decimal form of a code from 0 to 10 parses to the same mode as the code itself |
| TransactionTags.SplitTags | src/homebank-db/src/transaction/transaction_tags.rs:7-13 | every tag is non-empty and free of spaces, and the tags concatenated give the input with its spaces removed |
| TransactionTags.ConcatDropsEmpty | src/homebank-db/src/transaction/transaction_tags.rs:7-13 | dropping the empty pieces does not change their concatenation |
| TransactionTags.BlankGivesNoTags | src/homebank-db/src/transaction/transaction.rs:385-393 | a value made only of spaces gives no tags, so the transaction's tags stay unset |
| TransactionTags.BlankVectors | src/homebank-db/src/transaction/transaction.rs:972-992 | the empty value and a single space give no tags |
| TransactionTags.TwoWords | src/homebank-db/src/transaction/transaction_tags.rs:7-13 | two space-free words joined by one space come back as exactly those two tags |
| TransactionTags.OneWordVector | src/homebank-db/src/transaction/transaction.rs:994-1003 | `this` gives the one tag `this` |
| TransactionTags.TwoWordVector | src/homebank-db/src/transaction/transaction.rs:1005-1013 | `this that` gives the tags `this` and `that` |
| TransactionDate.WindowConstants | src/homebank-db/src/transaction/transaction_date.rs:7-14 | the window bounds are the day numbers of 1900-01-01 and 2200-12-31 |
| TransactionDate.EncodingConstants | src/homebank-db/src/transaction/transaction_date.rs:16-19 | day number 0 of the encoding is 0000-12-31 |
| TransactionDate.FirstDay | src/homebank-db/src/transaction/transaction_date.rs:16-19 | the calendar numbering puts 0001-01-01 at day 1 |
| TransactionDate.ClampDate | src/homebank-db/src/transaction/transaction_date.rs:23-25 | the result lies in the window, equals the input when it already does, and is the nearer bound otherwise |
| TransactionDate.ClampIdempotent | src/homebank-db/src/transaction/transaction_date.rs:23-25 | clamping twice is clamping once |
| TransactionDate.ClampMonotone | src/homebank-db/src/transaction/transaction_date.rs:23-25 | clamping keeps the order of dates |
| TransactionDate.UnclampedJulianDate | src/homebank-db/src/transaction/transaction_date.rs:35-37 | the result is exactly `d` days after day 0 of the encoding |
| TransactionDate.JulianDate | src/homebank-db/src/transaction/transaction_date.rs:29-31 | the result lies in the window and equals the unclamped date whenever that lies in the window |
| TransactionDate.JulianDateAsWritten | src/homebank-db/src/transaction/transaction_date.rs:29-31 | the conversion as written succeeds exactly when the unclamped date is within the calendar's range, and then agrees with the clamped conversion |
| TransactionDate.JulianDateAsWrittenPanics | src/homebank-db/src/transaction/transaction_date.rs:29-31 | for `u32::MAX` the conversion as written overflows, while the clamped conversion gives 2200-12-31 |
| TransactionDate.DateOf | src/homebank-db/src/account/account_struct.rs:177-182 | a stored date attribute (`rdate` of an account, `mdate` of a currency, `date` of a transaction) reads exactly a `u32`, clamped into the window, and a count inside the window is kept as is |
| TransactionDate.DateVectors | src/homebank-db/src/transaction/transaction_date.rs:56-78 | day numbers 693596, 803533 and 719163 give 1900-01-01, 2200-12-31 and 1970-01-01 |
| TransactionDate.ClampedDateVectors | src/homebank-db/src/transaction/transaction_date.rs:87-125 | a day before the window clamps up to 1900-01-01, one after it clamps down to 2200-12-31, and one inside is kept |
| TransactionDate.UnclampedDateVectors | src/homebank-db/src/transaction/transaction_date.rs:134-156 | without the clamp, 693500 gives 1899-09-27 and the window's first days are kept |
| TransactionDate.UnclampedWindowEnds | src/homebank-db/src/transaction/transaction_date.rs:158-172 | without the clamp, 803534 gives 2201-01-01 |
| TransactionSplit.Empty | src/homebank-db/src/transaction/transaction_split.rs:29-38 | the empty split entry has no splits and lists of matching (zero) length |
| TransactionSplit.Total | src/homebank-db/src/transaction/transaction_split.rs:77-79 | the total is 0 with no amounts and the single amount with one |
| TransactionSplit.SumAppend | src/homebank-db/src/transaction/transaction_split.rs:77-79 | the total of two concatenated amount lists is the sum of their totals |
| TransactionSplit.Subset | src/homebank-db/src/transaction/transaction_split.rs:106-133 | no result for an empty index list; otherwise a well-formed entry with one split per index whose category, amount and memo at position k are the original's at `idx[k]` |
| TransactionSplit.ParseSplitValues | src/homebank-db/src/transaction/transaction_split.rs:144-153 | there is always at least one piece, and joining the pieces with `||` gives back the value |
| Strings.JoinSplit | src/homebank-db/src/transaction/transaction_split.rs:144-153 | splitting on any non-empty separator and joining again is the identity |
| TransactionSplit.ParseSplitCategories | src/homebank-db/src/transaction/transaction_split.rs:156-165 | succeeds exactly when every piece is a `usize`, giving those numbers in order; otherwise reports `InvalidCategory` with the first bad piece |
| TransactionSplit.ParseSplitAmounts | src/homebank-db/src/transaction/transaction_split.rs:168-177 | succeeds exactly when every piece is a number, giving those numbers in order; otherwise reports `InvalidCategory` (as written) with the first bad piece |
| TransactionSplit.ParseSplitMemos | src/homebank-db/src/transaction/transaction_split.rs:180-187 | same length and order as the pieces; an empty piece becomes no memo, any other piece that memo |
| TransactionComplexity.Default | src/homebank-db/src/transaction/transaction_complexity.rs:93-97 | the default is a simple entry with no category and total 0 |
| TransactionComplexity.SimilarityIsEquivalence | src/homebank-db/src/transaction/transaction_complexity.rs:14-28 | `is_split` holds exactly for split entries, and `is_similar_to` is an equivalence relation |
| TransactionComplexity.NumSplits | src/homebank-db/src/transaction/transaction_complexity.rs:31-36 | 0 for a simple entry, the split entry's count otherwise |
| TransactionComplexity.Categories | src/homebank-db/src/transaction/transaction_complexity.rs:48-53 | a simple entry gives the one-element list of its category |
| TransactionComplexity.Amounts | src/homebank-db/src/transaction/transaction_complexity.rs:56-61 | a simple entry gives the one-element list of its amount |
| TransactionComplexity.Memos | src/homebank-db/src/transaction/transaction_complexity.rs:64-69 | a simple entry gives the one-element list of its memo |
| TransactionComplexity.TotalIsSumOfAmounts | src/homebank-db/src/transaction/transaction_complexity.rs:40-45 | the total is the sum of the amounts, for both kinds |
| TransactionComplexity.WellFormedLists | src/homebank-db/src/transaction/transaction_complexity.rs:48-69 | a well-formed entry has category, amount and memo lists of one length, so every index below it is usable by `subset` |
| TransactionComplexity.Subset | src/homebank-db/src/transaction/transaction_complexity.rs:75-88 | a simple entry is kept exactly for the index list `[0]`; a split entry is narrowed exactly when the list is non-empty, by the split `subset` |
| TransactionComplexity.SubsetSelectsEntries | src/homebank-db/src/transaction/transaction_complexity.rs:75-88 | a result is of the same kind and well-formed, with position k holding the original's category, amount and memo at `idx[k]` |
| Transactions.Empty | src/homebank-db/src/transaction/transaction.rs:44-59 | the empty transaction: date 2000-01-01, amount 0, account 0, codes 0, no optional fields, an expense, a simple entry with no category whose total is the amount |
| Transactions.TransferKey | src/homebank-db/src/transaction/transaction.rs:176-183 | there is a key exactly for transfers, and it is the link's key |
| Transactions.TransferDestination | src/homebank-db/src/transaction/transaction.rs:185-192 | there is a destination exactly for transfers, and it is the link's destination |
| Transactions.TransferAccessors | src/homebank-db/src/transaction/transaction.rs:171-192 | a transfer with link (key, dst) reports both; a non-transfer reports neither |
| Transactions.Subset | src/homebank-db/src/transaction/transaction.rs:238-257 | no result exactly when the complexity gives none; otherwise only the complexity (narrowed) and the amount (its new total) change |
| Transactions.SubsetAmountIsSelectedSum | src/homebank-db/src/transaction/transaction.rs:238-257 | the narrowed amount is the sum of the selected split amounts, position by position |
| Transactions.SubsetOfAllSplits | src/homebank-db/src/transaction/transaction.rs:238-257 | selecting every split keeps the transaction, with its amount replaced by the split total |
| Transactions.SubsetVectors | src/homebank-db/src/transaction/transaction.rs:1133-1226 | the source's cases: a simple entry survives `[0]` only; a two-split entry narrowed to split 0 keeps that split and its amount |
| TransactionDecoder.Start | src/homebank-db/src/transaction/transaction.rs:269-278 | the loop starts from the empty transaction, with no transfer seen and the kind undecided |
| TransactionDecoder.FieldOfNameOf | src/homebank-db/src/transaction/transaction.rs:276-493 | each attribute name the loop matches is recognised as exactly one field |
| TransactionDecoder.SplitLength | src/homebank-db/src/transaction/transaction.rs:411-427 | under the corrected check, the split count stored on success is the list's own length; any error is a length mismatch that reports the list's length |
| TransactionDecoder.Step | src/homebank-db/src/transaction/transaction.rs:276-493 | the loop's body: each known attribute name is read by its own branch, and an unknown one is skipped |
| TransactionDecoder.StepShape | src/homebank-db/src/transaction/transaction.rs:276-493 | an unknown attribute changes nothing; the entry becomes a transfer exactly through `dst_account` or `kxfer`; a split list makes the entry split; once simple or split it stays so |
| TransactionDecoder.CheckSplitLists | src/homebank-db/src/transaction/transaction.rs:534-536 | accepts exactly the well-formed split entries, unchanged; otherwise reports the split count and a list length that differs from it |
| TransactionDecoder.Finish | src/homebank-db/src/transaction/transaction.rs:493-540 | after the loop: a zero transfer key fails first, then a zero destination; a transfer link sets the type; the simple or split entry read becomes the complexity; nothing else changes |
| TransactionDecoder.StepFails | src/homebank-db/src/transaction/transaction.rs:276-493 | in either mode, an attribute that fails after an error-free prefix fails the whole decode with its error |
| TransactionDecoder.TryFrom | src/homebank-db/src/transaction/transaction.rs:269-543 | the loop over the attributes returns exactly what the decode fold as written gives, with the split-length check that never fires |
| TransactionDecoder.Decoded | src/homebank-db/src/transaction/transaction.rs:269-543 | an element without attributes decodes to the empty transaction; once the loop accepts every attribute, only the transfer link can fail, and with the corrected check the split lists |
| TransactionDecoder.DecodeAsWritten | src/homebank-db/src/transaction/transaction.rs:269-543 | as written, once the loop accepts every attribute only the transfer link can fail: the split lists are never checked against each other |
| TransactionDecoder.Decode | src/homebank-db/src/transaction/transaction.rs:411-427 | with the corrected check, an accepted split entry has lists that line up and becomes the complexity as read |
| TransactionDecoderResults.DecodedFields | src/homebank-db/src/transaction/transaction.rs:655-760 | every field copied from an attribute holds the value of the last attribute of its kind, and a missing one keeps its default |
| TransactionDecoderResults.DecodedType | src/homebank-db/src/transaction/transaction.rs:286-307 | without a transfer attribute the type is income for a positive amount and expense otherwise; with one it is the transfer linking the last key to the last destination, both non-zero |
| TransactionDecoderResults.TransferLinkChecked | src/homebank-db/src/transaction/transaction.rs:518-524 | once a transfer attribute is read, a zero key fails with `InvalidTransferKey`, checked before a zero destination fails with `InvalidDestinationAccount` |
| TransactionDecoderResults.ConflictRejected | src/homebank-db/src/transaction/transaction.rs:308-315 | a category together with any split list is rejected, in either order |
| TransactionDecoderResults.DecodedComplexity | src/homebank-db/src/transaction/transaction.rs:534-540 | no category and no split list keep the default; a category gives a simple entry with the transaction's amount and memo; split lists give a split entry with the last list of each kind |
| TransactionDecoderResults.CorrectedIsWellFormed | src/homebank-db/src/transaction/transaction.rs:411-427 | with the corrected check every accepted split entry has one category, amount and memo per split, so all three lists were given |
| TransactionDecoderResults.AsWrittenNeverMismatches | src/homebank-db/src/transaction/transaction.rs:411-427 | the check as written never reports mismatched split lists, for any attribute list |
| TransactionDecoderResults.StepsAgree | src/homebank-db/src/transaction/transaction.rs:411-427 | one step of the corrected loop does what the step as written does, or reports a mismatch |
| TransactionDecoderResults.CorrectedOnlyAddsMismatch | src/homebank-db/src/transaction/transaction.rs:411-490 | the corrected decoder agrees with the decoder as written, except where it reports mismatched split lists |
| TransactionDecoderErrors.StepRejects | src/homebank-db/src/transaction/transaction.rs:276-493 | in either mode, once the attributes before it were accepted, an attribute with a bad value, a conflicting kind or (corrected) a split list of the wrong length fails the step with that error |
| TransactionDecoderErrors.StepAccepts | src/homebank-db/src/transaction/transaction.rs:276-493 | an attribute that is not rejected is accepted, and the state still describes the attributes read so far |
| TransactionDecoderErrors.DecodeErrors | src/homebank-db/src/transaction/transaction.rs:276-543 | in either mode the decode fails with the error of the first attribute rejected given the ones before it; with none rejected the loop succeeds, and the decode is accepted exactly when a transfer has a non-zero key and destination and (corrected) the split lists line up |
| TransactionDecoderVectors.NoAttributes | src/homebank-db/src/transaction/transaction.rs:657-664 | an element without attributes decodes to the default transaction |
| TransactionDecoderVectors.AccountVector | src/homebank-db/src/transaction/transaction.rs:752-761 | `account="1"` sets the account and nothing else |
| TransactionDecoderVectors.PositiveAmountVector | src/homebank-db/src/transaction/transaction.rs:763-773 | a positive amount gives an income |
| TransactionDecoderVectors.NegativeAmountVector | src/homebank-db/src/transaction/transaction.rs:775-785 | a negative amount gives an expense |
| TransactionDecoderVectors.GoodCategoryVector | src/homebank-db/src/transaction/transaction.rs:787-796 | a category makes a simple entry with that category |
| TransactionDecoderVectors.BadCategoryVector | src/homebank-db/src/transaction/transaction.rs:798-804 | `category="-1"` fails with `InvalidCategory("-1")` |
| TransactionDecoderVectors.FlagsVector | src/homebank-db/src/transaction/transaction.rs:899-908 | a flags value is stored |
| TransactionDecoderVectors.PayeeVector | src/homebank-db/src/transaction/transaction.rs:918-927 | a payee key is stored |
| TransactionDecoderVectors.BadCodeVectors | src/homebank-db/src/transaction/transaction.rs:855-897 | a pay mode or status that is not a number fails with `InvalidPayMode` or `InvalidStatus` |
| TransactionDecoderVectors.TransferVector | src/homebank-db/src/transaction/transaction.rs:1079-1096 | key 10 and destination 2 give the transfer (10, 2) |
| TransactionDecoderVectors.ZeroKeyVector | src/homebank-db/src/transaction/transaction.rs:1098-1105 | a zero key fails with `InvalidTransferKey` |
| TransactionDecoderVectors.ZeroDestinationVector | src/homebank-db/src/transaction/transaction.rs:1107-1114 | a zero destination fails with `InvalidDestinationAccount` |
| TransactionDecoderVectors.ZeroLinkVector | src/homebank-db/src/transaction/transaction.rs:1116-1121 | with both zero, the key is reported |
| TransactionDecoderVectors.SplitValueVectors | src/homebank-db/src/transaction/transaction_split.rs:144-153 | `a||b` holds two pieces and `7` one |
| TransactionDecoderVectors.MismatchedListsVector | src/homebank-db/src/transaction/transaction.rs:411-427 | two memos then one category: accepted as written with lists of different lengths, rejected by the corrected check |
| TransactionDecoderVectors.MissingListsVector | src/homebank-db/src/transaction/transaction.rs:534-536 | a category list alone: accepted as written with empty amount and memo lists, rejected by the corrected check |
| TransactionQuery.PayeeName | src/homebank-db/src/transaction/transaction.rs:127-139 | a name exactly when the payee key is set and stored in the database, and then the stored payee's name |
| TransactionQuery.AccountName | src/homebank-db/src/transaction/transaction.rs:108-115 | a name exactly when the account key is stored, and then that account's name |
| TransactionQuery.CategoryName | src/homebank-db/src/transaction/transaction.rs:209-224 | a name exactly when the category key is set and stored, and then that category's full name |
| TransactionQuery.CategoryNames | src/homebank-db/src/transaction/transaction.rs:209-224 | one entry per split category, each the full name of that category when it is stored |
| TransactionQuery.MatchingPositionsSpec | src/homebank-db/src/transaction/transaction_query.rs:337-361 | the positions kept are in range and increasing, and a position is kept exactly when its name exists and matches |
| TransactionQuery.MatchingPositionsEmpty | src/homebank-db/src/transaction/transaction_query.rs:337-361 | no position is kept exactly when no name matches |
| TransactionQuery.DateFromKept | src/homebank-db/src/transaction/transaction_query.rs:222-228 | the date filter: no lower date, or a date on or after it |
| TransactionQuery.DateToKept | src/homebank-db/src/transaction/transaction_query.rs:230-236 | no upper date, or a date strictly before it |
| TransactionQuery.AmountFromKept | src/homebank-db/src/transaction/transaction_query.rs:238-244 | no lower amount, or an amount strictly above it |
| TransactionQuery.AmountToKept | src/homebank-db/src/transaction/transaction_query.rs:246-252 | no upper amount, or an amount strictly below it |
| TransactionQuery.StatusKept | src/homebank-db/src/transaction/transaction_query.rs:254-260 | no status list, or the status is listed |
| TransactionQuery.PayeeKept | src/homebank-db/src/transaction/transaction_query.rs:262-271 | no payee regex, or a stored payee name that matches it |
| TransactionQuery.AccountKept | src/homebank-db/src/transaction/transaction_query.rs:274-284 | no regex, or a stored account name that matches it; as written (`ReadsPayee`) the regex is the payee one |
| TransactionQuery.PayModeKept | src/homebank-db/src/transaction/transaction_query.rs:286-291 | no pay mode list, or the pay mode is listed |
| TransactionQuery.TypeKept | src/homebank-db/src/transaction/transaction_query.rs:294-303 | no type list, or a listed type similar to the transaction's |
| TransactionQuery.TagsKept | src/homebank-db/src/transaction/transaction_query.rs:305-317 | no tags regex, or tags whose comma-joined string matches it |
| TransactionQuery.MemoKept | src/homebank-db/src/transaction/transaction_query.rs:319-326 | no memo regex, or a memo that matches it |
| TransactionQuery.InfoKept | src/homebank-db/src/transaction/transaction_query.rs:328-335 | no info regex, or an info that matches it |
| TransactionQuery.Kept | src/homebank-db/src/transaction/transaction_query.rs:367-386 | the chain of every filter before the category filter, with the account filter reading the regex the mode selects |
| TransactionQuery.FilterCategory | src/homebank-db/src/transaction/transaction_query.rs:337-361 | without a category regex the transaction passes unchanged; with one, it requires that the matching positions index the amount and memo lists, where `subset` would panic otherwise |
| TransactionQuery.Narrowable | src/homebank-db/src/transaction/transaction_query.rs:337-361 | the category filter does not panic on a transaction: there is no regex, or every matching position is an entry of the amount and memo lists as well |
| TransactionQuery.Executable | src/homebank-db/src/transaction/transaction_query.rs:367-387 | the query does not panic: every stored transaction that passes the filter chain can be narrowed |
| TransactionQuery.FilterCategoryKeepsWhenSomeMatches | src/homebank-db/src/transaction/transaction_query.rs:337-361 | with a regex, a transaction is kept exactly when one of its category names matches |
| TransactionQuery.FilterCategoryNarrows | src/homebank-db/src/transaction/transaction_query.rs:337-361 | a kept transaction is narrowed to the matching splits: only the complexity and amount change, and the amount is the kept splits' total |
| TransactionQuery.FilterCategoryKeptNamesMatch | src/homebank-db/src/transaction/transaction_query.rs:337-361 | every category left in a kept transaction has a name the regex matches |
| TransactionQuery.WellFormedNarrowable | src/homebank-db/src/transaction/transaction_split.rs:106-133 | a transaction whose split lists line up can always be narrowed |
| TransactionQuery.ExecutableWhen | src/homebank-db/src/transaction/transaction_query.rs:367-387 | the query runs without a panic when it has no category regex, or when every stored transaction is well-formed |
| TransactionQuery.Select | src/homebank-db/src/transaction/transaction_query.rs:367-387 | in either account mode, the query never adds transactions |
| TransactionQuery.Exec | src/homebank-db/src/transaction/transaction_query.rs:367-387 | the query over the stored transactions, with the account filter reading the regex the mode selects; it runs when no kept transaction would make `subset` panic, and never returns more transactions than are stored |
| TransactionQuery.SelectAppend | src/homebank-db/src/transaction/transaction_query.rs:367-387 | in either mode the query works transaction by transaction and keeps their order |
| TransactionQuery.ExecMembers | src/homebank-db/src/transaction/transaction_query.rs:367-387 | in either mode, a result is exactly a stored transaction that passes the filter chain of that mode, after the category filter |
| TransactionQuery.ExecWithoutCategory | src/homebank-db/src/transaction/transaction_query.rs:367-387 | without a category regex, for any stored transactions, the result is the ones passing the filter chain, in order and unchanged |
| TransactionQuery.FilterCategoryKeepsFields | src/homebank-db/src/transaction/transaction_query.rs:222-361 | narrowing a transaction keeps it passing the date, status, payee, account, pay mode, type, tag, memo and info filters, in either mode |
| TransactionQuery.ExecResultsPassFilters | src/homebank-db/src/transaction/transaction_query.rs:222-334 | every transaction the query returns passes each field filter; with `ReadsAccount` this is the account filter as intended |
| TransactionQuery.TypeKeptIgnoresLinks | src/homebank-db/src/transaction/transaction_query.rs:294-303 | the type filter does not look at a transfer's link |
| TransactionQuery.ExecEverything | src/homebank-db/src/transaction/transaction_query.rs:367-387 | the query without filters returns every stored transaction unchanged, whatever their split lists |
| TransactionQuery.AccountFilterVector | src/homebank-db/src/transaction/transaction_query.rs:274-284 | as written (`ReadsPayee`) the account filter tests the payee regex: an account regex matching nothing keeps a transaction, and a payee regex matching its payee drops it; read as intended (`ReadsAccount`) both go the other way |
| TransactionQuery.AccountFilterAgreement | src/homebank-db/src/transaction/transaction_query.rs:274-284 | when the account and payee regexes are the same, the chain as written and as intended agree |
| CategoryBudgets.Empty | src/homebank-db/src/category/category_budget.rs:29-45 | the empty budget has no amount in any of its 13 slots |
| CategoryBudgets.IsEmptyIffNoSlot | src/homebank-db/src/category/category_budget.rs:48-51 | `is_empty` holds exactly when no slot has an amount |
| CategoryBudgets.SetBudget | src/homebank-db/src/category/category_budget.rs:54-73 | slots 0 to 12 are set to the amount, leaving the others as they were; any other index fails with `InvalidBudgetProperty` |
| CategoryBudgets.Budget | src/homebank-db/src/category/category_budget.rs:78-101 | months outside 1..12 have none; otherwise the every-month amount when set, else that month's slot |
| CategoryBudgets.SlotsDetermine | src/homebank-db/src/category/category_budget.rs:6-20 | a budget is determined by its 13 slots |
| CategoryBudgets.BudgetOfEmpty | src/homebank-db/src/category/category_budget.rs:78-101 | an empty budget has no amount for any month |
| CategoryBudgets.EachMonthOverrides | src/homebank-db/src/category/category_budget.rs:83-86 | after setting slot 0, every month 1..12 reports that amount |
| CategoryBudgets.SetMonthBudget | src/homebank-db/src/category/category_budget.rs:88-101 | without an every-month amount, setting month m changes month m only |
| Categories.ParentName | src/homebank-db/src/category/category_struct.rs:149-159 | a name exactly when the parent key is set and stored, and then the parent's name |
| Categories.IsChild | src/homebank-db/src/category/category_struct.rs:144-146 | a category is a subcategory exactly when it names a parent |
| Categories.FullName | src/homebank-db/src/category/category_struct.rs:162-172 | the name alone without a stored parent, `parent:name` with one; it always ends with the name |
| Categories.HasBudget | src/homebank-db/src/category/category_struct.rs:190-192 | holds exactly when some budget slot has an amount |
| Categories.BudgetAmount | src/homebank-db/src/category/category_struct.rs:195-197 | the budget's amount for that month, present only for months 1..12 of a category with a budget |
| Categories.TryFrom | src/homebank-db/src/category/category_struct.rs:214-262 | the loop over the attributes returns exactly what the decode fold gives |
| Categories.Step | src/homebank-db/src/category/category_struct.rs:216-258 | an unknown attribute changes nothing, and an attribute fails the step exactly when `Rejects` names an error for it, with that error |
| Categories.LastBudget | src/homebank-db/src/category/category_struct.rs:243-256 | each budget slot holds the last amount read for it |
| Categories.BudgetStep | src/homebank-db/src/category/category_struct.rs:243-256 | a budget attribute sets its slot and only its slot |
| Categories.DecodeReadsLastValues | src/homebank-db/src/category/category_struct.rs:214-262 | the decode fails with the first bad attribute's error, and otherwise gives every field its last attribute's value |
| Categories.DecodeErrors | src/homebank-db/src/category/category_struct.rs:214-262 | the decode fails exactly when some attribute is bad, with the first one's error |
| Categories.RejectedAttributeFails | src/homebank-db/src/category/category_struct.rs:224-256 | one bad attribute fails the decode, with its own error when every earlier attribute is good |
| Categories.UnknownIgnored | src/homebank-db/src/category/category_struct.rs:257 | an attribute with an unknown name changes nothing |
| CategoryVectors.SimpleCategoryVector | src/homebank-db/src/category/category_struct.rs:303-313 | key and name give a category with that key and name |
| CategoryVectors.SubcategoryVector | src/homebank-db/src/category/category_struct.rs:315-326 | a parent attribute sets the parent key |
| CategoryVectors.BudgetVector | src/homebank-db/src/category/category_struct.rs:345-361 | `b0` and `b2` fill the every-month slot and February, and the every-month amount wins for February |
| CategoryVectors.HasBudgetVectors | src/homebank-db/src/category/category_struct.rs:380-404 | no budget without amounts; a February amount is a budget |
| CategoryQuery.ByFullNameIsTotalPreorder | src/homebank-db/src/category/category_query.rs:43 | ordering by full name is total and transitive |
| CategoryQuery.NameKept | src/homebank-db/src/category/category_query.rs:35-39 | no regex, or a full name that matches it |
| CategoryQuery.Selected | src/homebank-db/src/category/category_query.rs:31-46 | the query never returns more categories than are stored |
| CategoryQuery.Exec | src/homebank-db/src/category/category_query.rs:31-46 | the filtered categories are sorted in place, and the result is the specified selection, ordered by full name |
| CategoryQuery.SelectedSorted | src/homebank-db/src/category/category_query.rs:43 | the selection is ordered by full name |
| CategoryQuery.SelectedMembers | src/homebank-db/src/category/category_query.rs:36-39 | a category is returned exactly when it is stored and its full name passes the regex; each stored category appears at most once, and every one when there is no regex |
| ReviewQuery.Rows | src/homebank-db/src/category/review_query.rs:95-134 | one row per stored category |
| ReviewQuery.CategoryQueryOf | src/homebank-db/src/category/review_query.rs:98-119 | the query of a category has the review's interval as its dates and matches the category's full name exactly |
| ReviewQuery.CategoryQueryKeepsInterval | src/homebank-db/src/category/review_query.rs:98-119 | before its category filter, the query of a category keeps exactly the transactions dated within the review's interval |
| ReviewQuery.WellFormedReviewable | src/homebank-db/src/category/review_query.rs:95-134 | when every stored transaction is well-formed, every category's query runs |
| ReviewQuery.Reviewable | src/homebank-db/src/category/review_query.rs:95-134 | the review does not panic: every stored category's transaction query runs |
| ReviewQuery.RowOf | src/homebank-db/src/category/review_query.rs:98-130 | a row counts no more transactions than are stored, and its sub-name, when present, is the category's own name |
| ReviewQuery.RowLeIsTotalPreorder | src/homebank-db/src/category/review_query.rs:137-141 | the row order (name, then sub-name with none first) is total and transitive |
| ReviewQuery.Exec | src/homebank-db/src/category/review_query.rs:94-157 | rows sorted in place, then dropped or kept, give the specified review, ordered by name then sub-name |
| ReviewQuery.RowsOnePerCategory | src/homebank-db/src/category/review_query.rs:95-134 | every stored category has its row, and every row belongs to a stored category |
| ReviewQuery.RowNaming | src/homebank-db/src/category/review_query.rs:121-130 | a subcategory's row is named by its parent with itself as sub-name, any other by itself; the count and sum are those of its transactions |
| ReviewQuery.RowTransactions | src/homebank-db/src/category/review_query.rs:98-119 | a category's transactions are stored transactions that can be narrowed, narrowed to that category, dated in the query's interval |
| ReviewQuery.FinishSorted | src/homebank-db/src/category/review_query.rs:137-156 | dropping or keeping rows preserves their order |
| ReviewQuery.Finish | src/homebank-db/src/category/review_query.rs:143-156 | dropping rows never adds entries, and without exclusion there is one entry per row |
| ReviewQuery.Reviewed | src/homebank-db/src/category/review_query.rs:94-157 | the review has at most one entry per stored category, and exactly one each without exclusion |
| ReviewQuery.ReviewedSorted | src/homebank-db/src/category/review_query.rs:137-141 | the review is ordered by name then sub-name |
| ReviewQuery.FinishExcludedMembers | src/homebank-db/src/category/review_query.rs:143-150 | with exclusion, an entry is returned exactly for a row with at least one transaction |
| ReviewQuery.ExcludedDropsEmptyRows | src/homebank-db/src/category/review_query.rs:143-150 | with exclusion, the review holds exactly the categories with transactions |
| ReviewQuery.FinishAllMembers | src/homebank-db/src/category/review_query.rs:151-155 | without exclusion every row gives an entry |
| ReviewQuery.NothingDroppedWithoutExclusion | src/homebank-db/src/category/review_query.rs:151-155 | without exclusion the review has one entry per stored category |
| Ordering.StringLeTotal | src/homebank-db/src/category/category_query.rs:43 | string order is total |
| Ordering.StringLeTransitive | src/homebank-db/src/category/category_query.rs:43 | string order is transitive |
| Ordering.StringLeAntisymmetric | src/homebank-db/src/category/category_query.rs:43 | string order is antisymmetric |
| Ordering.StringLeVectors | src/homebank-db/src/category/category_query.rs:43 | a prefix sorts first, and `Food` sorts before `Food:Out` |
| Ordering.OptionLeOrder | src/homebank-db/src/category/review_query.rs:137-141 | the order on optional sub-names, with none first, is total, transitive and antisymmetric |
| Seqs.SortSorted | src/homebank-db/src/category/category_query.rs:43 | sorting by a total preorder gives a sorted list |
| Seqs.Sort | src/homebank-db/src/category/category_query.rs:43 | sorting is a permutation |
| Sorting.InsertInPlace | src/homebank-db/src/category/review_query.rs:137-141 | the array prefix stays put and the rest becomes the element inserted into the sorted tail |
| Sorting.InsertionSort | src/homebank-db/src/category/review_query.rs:137-141 | the array ends up holding the stable sort of what it held |
| Sorting.ShiftStep | src/homebank-db/src/category/review_query.rs:137-141 | shifting one element right keeps the insertion loop's invariant |
| Sorting.ShiftDone | src/homebank-db/src/category/review_query.rs:137-141 | when the loop stops, writing the element into the gap completes the insertion |
| DbProperties.Empty | src/homebank-db/src/db/db_properties.rs:25-32 | empty title, currency 1, car category 1, and no scheduling mode chosen yet |
| DbProperties.New | src/homebank-db/src/db/db_properties.rs:35-48 | the properties hold exactly the given values |
| DbProperties.ModeAfterSmode | src/homebank-db/src/db/db_properties.rs:95-116 | 0 and 1 are accepted only while no mode is chosen and pick add-until (pending weekday or 1) and add (pending days or 0); anything else fails with `InvalidDefaultSchedulingMode` |
| DbProperties.ModeAfterWeekday | src/homebank-db/src/db/db_properties.rs:117-132 | a weekday is held while no mode is chosen, replaces add-until's value, and leaves add alone |
| DbProperties.ModeAfterDays | src/homebank-db/src/db/db_properties.rs:133-148 | a day count is held while no mode is chosen, replaces add's value, and leaves add-until alone |
| DbProperties.TryFrom | src/homebank-db/src/db/db_properties.rs:75-152 | the loop over the attributes returns exactly what the decode fold gives |
| DbProperties.DecodeReadsAttributes | src/homebank-db/src/db/db_properties.rs:75-152 | the decode fails with the first attribute rejected given the ones before it, and otherwise gives the properties the attributes describe |
| DbProperties.AcceptedPassesChecks | src/homebank-db/src/db/db_properties.rs:75-152 | an accepted element passed every attribute's check |
| DbProperties.RejectedAttributeFails | src/homebank-db/src/db/db_properties.rs:75-152 | the first rejected attribute decides the error |
| DbProperties.AcceptedChoiceIsFirst | src/homebank-db/src/db/db_properties.rs:95-116 | in an accepted element every `auto_smode` is 0 or 1 and is the first choice |
| DbProperties.ChoiceBlocksLater | src/homebank-db/src/db/db_properties.rs:111-114 | after a valid choice, any later `auto_smode` is rejected |
| DbProperties.AddReadsLastDays | src/homebank-db/src/db/db_properties.rs:95-148 | choosing add gives the last day count read, or 0 |
| DbProperties.AddUntilReadsLastWeekday | src/homebank-db/src/db/db_properties.rs:95-132 | choosing add-until gives the last weekday read, or 1 |
| DbProperties.NoChoiceKeepsPending | src/homebank-db/src/db/db_properties.rs:117-148 | without `auto_smode` the mode stays unchosen, holding the last weekday and day count read |
| DbProperties.SecondChoiceRejected | src/homebank-db/src/db/db_properties.rs:111-114 | two `auto_smode` attributes always fail |
| DbProperties.BadChoiceRejected | src/homebank-db/src/db/db_properties.rs:111-114 | an `auto_smode` other than 0 or 1 always fails |
| DbProperties.ChosenModeIgnoresOther | src/homebank-db/src/db/db_properties.rs:127-145 | once add is chosen a weekday changes nothing, and once add-until is chosen a day count changes nothing |
| DbPropertiesVectors.FieldVectors | src/homebank-db/src/db/db_properties.rs:213-244 | title, currency and car category are read |
| DbPropertiesVectors.AddZeroVectors | src/homebank-db/src/db/db_properties.rs:246-264 | add with no day count, or day count 0, in any order with a weekday, gives add 0 |
| DbPropertiesVectors.AddTwoVectors | src/homebank-db/src/db/db_properties.rs:266-281 | add with day count 2 gives add 2, whatever weekday is also given |
| DbPropertiesVectors.AddUntilOneVectors | src/homebank-db/src/db/db_properties.rs:283-297 | add-until with weekday 1 gives add-until 1, whatever day count is also given |
| DbPropertiesVectors.DaysBeforeChoiceVector | src/homebank-db/src/db/db_properties.rs:133-148 | a day count read before the choice is kept |
| Db.Empty | src/homebank-db/src/db/db.rs:38-50 | default properties and no records of any kind |
| Db.Dispatch | src/homebank-db/src/db/db.rs:167-207 | a start element inside the root: the record its name selects is decoded (an `ope` one as written) and stored or appended when it decodes; any other name changes nothing |
| Db.DispatchChangesItsCollection | src/homebank-db/src/db/db.rs:167-207 | a start element changes at most the collection its name selects; transactions are only appended, one at most; a rejected element changes nothing |
| Db.Apply | src/homebank-db/src/db/db.rs:150-218 | the root's start and end tags move in and out of the root, and the database changes only on a start element inside it; transactions are never removed |
| Db.Run | src/homebank-db/src/db/db.rs:157-218 | the scan never removes transactions |
| Db.Inert | src/homebank-db/src/db/db.rs:209-216 | an inert event leaves any builder state as it is |
| Db.Store | src/homebank-db/src/db/db.rs:167-207 | an element inside the root is decoded (transactions as written) and stored under its key (transactions appended) when it decodes, and skipped otherwise |
| Db.TryFrom | src/homebank-db/src/db/db.rs:136-221 | the loop over the events returns exactly the database the event fold builds, with transactions decoded as written |
| Db.InertStep | src/homebank-db/src/db/db.rs:209-216 | an inert event leaves the builder as it is. Inert events are a stream error or other event, an end tag other than the root's, and an element other than the root that does not decode (an `ope` one by the decoder as written) |
| Db.InertEventSkipped | src/homebank-db/src/db/db.rs:215-216 | removing an inert event from the stream changes nothing |
| Db.RunAppend | src/homebank-db/src/db/db.rs:157-218 | building from a concatenated stream is building from the first part, then continuing with the second |
| Db.OutsideIgnored | src/homebank-db/src/db/db.rs:152-167 | outside the root, events other than the root's start change nothing |
| Db.RunDescribed | src/homebank-db/src/db/db.rs:157-218 | the builder's state after any stream is the described database and the root flag |
| Db.KeyedStoresRecords | src/homebank-db/src/db/db.rs:175-199 | every stored record sits under its own key and came from an element in the stream |
| Db.KeyedLastWins | src/homebank-db/src/db/db.rs:175-199 | a record not followed by another with the same key is the one stored |
| Db.KeyedContains | src/homebank-db/src/db/db.rs:175-199 | every decoded record's key is present |
| Db.RecordsInStreamOrder | src/homebank-db/src/db/db.rs:201-205 | the records are the decodable elements in stream order |
| Db.LoadedKeys | src/homebank-db/src/db/db.rs:175-199 | every currency, group, account, payee and category is stored under its own key |
| Db.LoadedTransactions | src/homebank-db/src/db/db.rs:201-205 | the transactions are the `ope` elements that decode as written, in stream order |
| Db.StoredTransactionWellFormed | src/homebank-db/src/db/db.rs:201-205 | an `ope` element that also passes the corrected split check is stored as that decode gives it, with lists that line up |
| DbVectors.GroupsInside | src/homebank-db/src/db/db.rs:180-184 | inside the root, a bad group is skipped and a later group with the same key replaces the earlier |
| DbVectors.GroupsVector | src/homebank-db/src/db/db.rs:209-214 | a group after the root's end tag is ignored |
| DbVectors.MissingSplitListStored | src/homebank-db/src/db/db.rs:201-205 | `<ope scat="7">` inside the root is stored, as a split entry with one category and no amount or memo, which is not well-formed |
| Accounts.Empty | src/homebank-db/src/account/account_struct.rs:53-69 | the empty account: group 0, type none, reconciled 2000-01-01 |
| Accounts.TypeOf | src/homebank-db/src/account/account_struct.rs:138-146 | a type exactly for a `usize` up to 7, the type with that index |
| Accounts.TryFrom | src/homebank-db/src/account/account_struct.rs:106-187 | the loop over the attributes returns exactly what the decode fold gives |
| Accounts.Step | src/homebank-db/src/account/account_struct.rs:108-185 | an unknown attribute changes nothing, and an attribute fails the step exactly when `Rejects` names an error for it, with that error |
| Accounts.DescribedSnoc | src/homebank-db/src/account/account_struct.rs:109-185 | each attribute sets its own field and only that field |
| Accounts.DecodeReadsLastValues | src/homebank-db/src/account/account_struct.rs:106-187 | the decode fails with the first bad attribute's error, and otherwise gives every field its last attribute's value |
| Accounts.DecodeErrors | src/homebank-db/src/account/account_struct.rs:106-187 | the decode fails exactly when some attribute is bad, with the first one's error |
| Accounts.RejectedAttributeFails | src/homebank-db/src/account/account_struct.rs:120-182 | one bad attribute fails the decode, with its own error when every earlier attribute is good |
| Accounts.TypeIndexChecked | src/homebank-db/src/account/account_struct.rs:138-146 | a type that is not a number, or an index over 7, fails with `InvalidType` |
| Accounts.UnknownIgnored | src/homebank-db/src/account/account_struct.rs:183 | an attribute with an unknown name changes nothing |
| AccountTypes.TryFrom | src/homebank-db/src/account/account_type.rs:18-34 | indices 0 to 7 are accepted and give the type with that index; any other fails with `InvalidType` |
| AccountTypes.TryFromIndex | src/homebank-db/src/account/account_type.rs:18-34 | a number gives a type exactly when it is that type's index |
| AccountTypes.TryFromInjective | src/homebank-db/src/account/account_type.rs:21-31 | different accepted indices give different types |
| AccountTypes.FromStr | src/homebank-db/src/account/account_type.rs:36-54 | every rejected string reports `InvalidType` |
| AccountTypes.FromStrAliases | src/homebank-db/src/account/account_type.rs:39-53 | a string parses to a type exactly when it is one of that type's aliases |
| AccountTypes.AliasesDisjoint | src/homebank-db/src/account/account_type.rs:39-53 | no alias names two types |
| AccountFlags.TryFrom | src/homebank-db/src/account/account_flags.rs:37-57 | exactly the ten listed words are accepted; any other fails with `InvalidFlags` |
| AccountFlags.TryFromToU16 | src/homebank-db/src/account/account_flags.rs:37-71 | every flag survives the round trip through its word |
| AccountFlags.LegacyWords | src/homebank-db/src/account/account_flags.rs:42-48 | the legacy words 1, 4 and 8 read as no flag |
| AccountFlags.CombinedWordsRejected | src/homebank-db/src/account/account_flags.rs:40-56 | the union of two different flag bits is not a flag |
| AccountFlags.WordRoundTrip | src/homebank-db/src/account/account_flags.rs:103-113 | the set of flags and its word convert into each other without loss |
| AccountFlags.BitAndAsWritten | src/homebank-db/src/account/account_flags.rs:115-121 | `flags & f` as written: the word and the flag's bit have no bit in common |
| AccountFlags.IsClosedAsWritten | src/homebank-db/src/account/account_flags.rs:78-80 | `is_closed` as written: `flags & Closed`, which holds when the closed bit is clear |
| AccountFlags.BitAndAsWrittenTestsClearBit | src/homebank-db/src/account/account_flags.rs:115-121 | as written, `flags & f` holds exactly when f's bit is clear, and always for the no-flag value |
| AccountFlags.HasNegatesBitAnd | src/homebank-db/src/account/account_flags.rs:115-121 | the corrected test is the negation of the test as written |
| AccountFlags.HasTestsSetBit | src/homebank-db/src/account/account_flags.rs:115-121 | the corrected test holds exactly when f's bit is set |
| AccountFlags.AsWrittenAgainstCorrected | src/homebank-db/src/account/account_flags.rs:77-101 | the three exclusion predicates are correct as written; closed, added and changed are the negations of the intended predicates |
| AccountFlags.CorrectedPredicatesTestBits | src/homebank-db/src/account/account_flags.rs:77-101 | each corrected predicate tests its own bit (closed 1, summary 4, budget 5, reports 6, added 9, changed 10) |
| AccountFlags.ClosedAccountVector | src/homebank-db/src/account/account_flags.rs:78-80 | a closed account (word 2) is not closed as written, and is closed as intended |
| AccountFlags.NoFlagsVector | src/homebank-db/src/account/account_flags.rs:78-100 | with no flags set, the predicates as written report closed, added and changed |
| AccountQuery.Exec | src/homebank-db/src/account/account_query.rs:44-73 | the query never returns more accounts than are stored |
| AccountQuery.TypeKept | src/homebank-db/src/account/account_query.rs:48-52 | no type list, or the account's type is listed |
| AccountQuery.GroupKept | src/homebank-db/src/account/account_query.rs:53-64 | no group regex, or the account names a stored group whose name matches |
| AccountQuery.InstitutionKept | src/homebank-db/src/account/account_query.rs:65-69 | no institution regex, or a bank name that matches it |
| AccountQuery.KeptIffWanted | src/homebank-db/src/account/account_query.rs:49-69 | an account passes the three filters exactly when its type is listed, its group's name matches and its institution matches, each when given |
| AccountQuery.ExecSelects | src/homebank-db/src/account/account_query.rs:44-73 | an account is returned exactly when it is stored and passes the filters |
| AccountQuery.ExecCopies | src/homebank-db/src/account/account_query.rs:44-73 | each stored account appears at most once |
| AccountQuery.NoFilterReturnsAll | src/homebank-db/src/account/account_query.rs:44-73 | without filters every stored account is returned, in map order |
| Currencies.Empty | src/homebank-db/src/currency/currency_struct.rs:51-65 | the empty currency: symbol `$` after the amount, `.` and space separators, 2 decimals, rate 1, modified 2000-01-01 |
| Currencies.SymbolPrefixOf | src/homebank-db/src/currency/currency_struct.rs:106-113 | 0 reads as false and 1 as true; anything else is rejected |
| Currencies.FirstChar | src/homebank-db/src/currency/currency_struct.rs:129-146 | the first character, present exactly for a non-empty value |
| Currencies.TryFrom | src/homebank-db/src/currency/currency_struct.rs:86-157 | the loop over the attributes returns exactly what the decode fold gives |
| Currencies.Step | src/homebank-db/src/currency/currency_struct.rs:88-155 | an unknown attribute changes nothing, and an attribute fails the step exactly when `Rejects` names an error for it, with that error |
| Currencies.DescribedSnoc | src/homebank-db/src/currency/currency_struct.rs:89-154 | each attribute sets its own field and only that field |
| Currencies.DecodeReadsLastValues | src/homebank-db/src/currency/currency_struct.rs:86-157 | the decode fails with the first bad attribute's error, and otherwise gives every field its last attribute's value |
| Currencies.DecodeErrors | src/homebank-db/src/currency/currency_struct.rs:86-157 | the decode fails exactly when some attribute is bad, with the first one's error |
| Currencies.RejectedAttributeFails | src/homebank-db/src/currency/currency_struct.rs:94-152 | one bad attribute fails the decode, with its own error when every earlier attribute is good |
| Currencies.SymbolPrefixRead | src/homebank-db/src/currency/currency_struct.rs:106-113 | an accepted currency puts its symbol first exactly when the last `syprf` read is 1 |
| Currencies.UnknownIgnored | src/homebank-db/src/currency/currency_struct.rs:153 | an attribute with an unknown name changes nothing |
| CurrencyQuery.Exec | src/homebank-db/src/currency/currency_query.rs:30-43 | the query never returns more currencies than are stored |
| CurrencyQuery.ExecSelects | src/homebank-db/src/currency/currency_query.rs:30-43 | a currency is returned exactly when it is stored and its name passes the regex; each at most once, and all without a regex |
| Payees.Empty | src/homebank-db/src/payee/payee_struct.rs:25-32 | key 0, empty name, no default category or pay mode |
| Payees.New | src/homebank-db/src/payee/payee_struct.rs:35-43 | the payee holds exactly the given values |
| Payees.TryFrom | src/homebank-db/src/payee/payee_struct.rs:74-104 | the loop over the attributes returns exactly what the decode fold gives |
| Payees.DecodeReadsLastValues | src/homebank-db/src/payee/payee_struct.rs:74-104 | the decode fails with the first bad attribute's error, and otherwise gives every field its last attribute's value |
| Payees.RejectedAttributeFails | src/homebank-db/src/payee/payee_struct.rs:79-99 | one bad attribute fails the decode, with its own error when every earlier attribute is good |
| Payees.UnknownIgnored | src/homebank-db/src/payee/payee_struct.rs:100 | an attribute with an unknown name changes nothing |
| PayeeQuery.Exec | src/homebank-db/src/payee/payee_query.rs:30-43 | the query never returns more payees than are stored |
| PayeeQuery.ExecSelects | src/homebank-db/src/payee/payee_query.rs:30-43 | a payee is returned exactly when it is stored and its name passes the regex; each at most once, and all without a regex |
| Groups.Empty | src/homebank-db/src/group/group.rs:17-22 | key 0 and an empty name |
| Groups.New | src/homebank-db/src/group/group.rs:25-30 | the group holds exactly the given values |
| Groups.TryFrom | src/homebank-db/src/group/group.rs:52-70 | the loop over the attributes returns exactly what the decode fold gives |
| Groups.DecodeReadsLastValues | src/homebank-db/src/group/group.rs:55-68 | a bad key fails with `InvalidKey`, and otherwise key and name hold their last attribute's value |
| Groups.UnknownIgnored | src/homebank-db/src/group/group.rs:66 | an attribute with an unknown name changes nothing |
| DbVectors.GroupDecodes | src/homebank-db/src/group/group.rs:52-70 | key and name give the group |
| DbVectors.BadGroupRejected | src/homebank-db/src/group/group.rs:57-62 | a key that is not a number fails with `InvalidKey` |
| GroupQuery.Exec | src/homebank-db/src/group/group_query.rs:25-37 | the query never returns more groups than are stored |
| GroupQuery.ExecSelects | src/homebank-db/src/group/group_query.rs:25-37 | a group is returned exactly when it is stored and its name passes the regex; each at most once, and all without a regex |
| Strings.ParseUnsigned | src/homebank-db/src/account/account_struct.rs:120-125 | a number is read only from an optional `+` followed by digits, and never exceeds the type's maximum |
| Strings.ParseDecimal | src/homebank-db/src/account/account_struct.rs:120-125 | the decimal form of any number up to the maximum reads back as that number |
| Strings.ParseRejectsSigns | src/homebank-db/src/transaction/transaction.rs:798-804 | the empty string, a lone `+` and anything starting with `-` are rejected |
| Attributes.FoldStepFails | src/homebank-db/src/transaction/transaction.rs:276-493 | an attribute the loop rejects after an error-free prefix decides the result, whatever follows it |
| Attributes.FoldSkips | src/homebank-db/src/transaction/transaction.rs:276-493 | an attribute the loop passes over unchanged can be removed from anywhere in the list |
| Attributes.FoldChecked | src/homebank-db/src/transaction/transaction.rs:276-493 | when each attribute's error is decided by a check on the attributes before it, the loop fails with the first check that fails, and otherwise succeeds keeping the invariant that the checks preserve |

## Left out

- Opening and reading the file (`Path`, `File`, `BufReader`, the `xml-rs` event reader) is left out. The builder takes the event stream as a sequence of `Event` values, so the "does not exist" and "could not open" errors are not modelled.
- The schema version (`HomeBankDbSchema`, read from the root element's attributes) is not part of this model. The database has no version field, and the root element's attributes are ignored.
- Regular expressions are left out. A regex is its match predicate, so the pattern syntax, the unescaped category name in the review query's `^name$` pattern, and the `unwrap` on a pattern that fails to compile (`review_query.rs:99-100`) are not captured. `compile` is a parameter.
- `f32` is left out. Parsing is the parameter `parseReal`, and amounts are exact reals, so rounding and NaN are not modelled.
- `sum_transactions` is not part of this model. The review query takes the sum as the parameter `sum`.
- `HashMap` iteration order is unspecified. Queries that walk a map take the order as a parameter `keys`, constrained by `IsKeyOrder` to list every key once.
- `Default` values that read the clock, and the `lazy_static` review dates, are left out. The dates of a review query are its fields.
- `budget_query.rs` and `Category::budget_amount_over_interval` are outside the modelled core.
- The query structs' `new` functions and all getters (`date_from`, `name`, `key`, `accounts`, …) are left out. They are the fields of the Dafny datatypes. The same holds for the transaction's `is_split`, `num_splits`, `categories`, `amounts` and `memos`, which read the complexity through the `TransactionComplexity` functions.
- TransactionQuery.Exec: requires `Executable`, that no kept transaction has a matching category position outside its amount or memo list. The source's `subset` panics there; the panic is not modelled as an outcome. Without a category regex nothing is required. `ReviewQuery.Exec` requires the same of every category's query (`Reviewable`).
- `Categories.FullName` and `Categories.ParentName` take the category map rather than the whole database, which is all they read.
- `CategoryBudgets.SetBudget` returns the updated budget instead of changing it in place. The decoder's loop reassigns its local record with the result.
- `Seqs.Sort` is the stable insertion sort that `sort_by`/`sort_by_key` perform. The model proves the sorted order and the permutation, but stability is not stated as a lemma.
- `usize` is taken as 64 bits (`Strings.USIZE_MAX`).
- `TransactionDate.UnclampedJulianDate` gives a day number for every `u32`. The source's addition panics past chrono's last date, the same overflow reported for the clamped conversion under Findings.
- TransactionDate.DateOf: decodes with the corrected conversion `JulianDate`, so an account's `rdate`, a currency's `mdate` and a transaction's `date` of, for example, `4294967295` read as 2200-12-31. The source panics on it in `julian_date_from_u32`.
- TransactionDecoder.ReadDate: uses the same corrected conversion for the transaction's `date` attribute; the panic of the source is not modelled.

## Findings

| source | as written | input that shows it | evidently intended | confidence | as-written member | corrected member |
|---|---|---|---|---|---|---|
| src/homebank-db/src/transaction/transaction.rs:411-427 | the split-length check on `scat`, `samt` and `smem` tests `tr.is_split()`, but `tr`'s complexity is only assigned after the loop, so the check never fires | `<ope smem="a\|\|b" scat="7">` is accepted with two memos and one category | reject split lists of different lengths with `MismatchedSplitNumber(2, 1)` | not executed | TransactionDecoderResults.AsWrittenNeverMismatches | TransactionDecoderResults.CorrectedIsWellFormed |
| src/homebank-db/src/transaction/transaction.rs:534-536 | a split list given alone makes a split entry whose other two lists are empty; a later `subset` on it indexes past them and panics | `<ope scat="7">` is accepted with one category, no amount and no memo | reject the element with `MismatchedSplitNumber(1, 0)` | not executed | DbVectors.MissingSplitListStored | TransactionDecoderResults.CorrectedIsWellFormed |
| src/homebank-db/src/transaction/transaction_date.rs:29-31 | the day count is added to 0000-12-31 before clamping, and chrono's addition panics past 262142-12-31 | `date="4294967295"` | clamp to 2200-12-31 | not executed | TransactionDate.JulianDateAsWrittenPanics | TransactionDate.JulianDate |
| src/homebank-db/src/account/account_flags.rs:115-121 | `&` is true when the flag's bit is clear, so `is_closed`, `is_added` and `is_changed` report the opposite | `flags="2"` (closed): `is_closed` is false | `is_closed` true exactly when bit 1 is set | not executed | AccountFlags.ClosedAccountVector | AccountFlags.CorrectedPredicatesTestBits |
| src/homebank-db/src/transaction/transaction_query.rs:274-284 | `filter_account` matches the account name against the payee regex | an account regex matching nothing keeps a transaction on account `Cash`; a payee regex `Shop` drops one whose payee is `Shop` but whose account is not | match the account name against the account regex | not executed | TransactionQuery.AccountFilterVector | TransactionQuery.ExecResultsPassFilters |
