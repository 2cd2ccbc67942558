/**
 * The flags an account carries: each `AccountFlag` is one bit of HomeBank's
 * 16-bit `AF_*` word, and `AccountFlags` holds the whole word.
 */
module AccountFlags {
  import opened Wrappers
  import opened AccountErrors

  type u16 = bv16

  datatype AccountFlag =
    | None
    | Closed
    | NoSummary
    | NoBudget
    | NoReport
    | Added
    | Changed

  /**
   * The position of each flag's bit in the word, as HomeBank numbers them;
   * the empty flag has none.
   */
  function Position(f: AccountFlag): Option<nat> {
    match f
    case None => Option.None
    case Closed => Some(1)
    case NoSummary => Some(4)
    case NoBudget => Some(5)
    case NoReport => Some(6)
    case Added => Some(9)
    case Changed => Some(10)
  }

  /** Bit `k` of a 16-bit word is set. */
  predicate BitSet(word: u16, k: nat)
    requires k < 16
  {
    (word >> k) & 1 == 1
  }

  /** `u16::from(AccountFlag)`: the word with the flag's bit alone set, zero for the empty flag. */
  function ToU16(f: AccountFlag): (r: u16)
  {
    match f
    case None => 0
    case Closed => 2
    case NoSummary => 16
    case NoBudget => 32
    case NoReport => 64
    case Added => 512
    case Changed => 1024
  }

  /**
   * `AccountFlag::try_from(u16)`: a word with one flag's bit alone set, or
   * zero.  1, 4 and 8 are bits older HomeBank versions used and are read as
   * no flag; every other word, including any with two bits set, is rejected.
   */
  function TryFrom(v: u16): (r: Result<AccountFlag, AccountError>)
    ensures r.Ok? <==> v in {0, 1, 2, 4, 8, 16, 32, 64, 512, 1024}
    ensures r.Err? ==> r.error == InvalidFlags
  {
    match v
    case 0 => Ok(AccountFlag.None)
    case 1 => Ok(AccountFlag.None)
    case 2 => Ok(Closed)
    case 4 => Ok(AccountFlag.None)
    case 8 => Ok(AccountFlag.None)
    case 16 => Ok(NoSummary)
    case 32 => Ok(NoBudget)
    case 64 => Ok(NoReport)
    case 512 => Ok(Added)
    case 1024 => Ok(Changed)
    case _ => Err(InvalidFlags)
  }

  /** Every flag is decoded from its own word. */
  lemma TryFromToU16(f: AccountFlag)
    ensures TryFrom(ToU16(f)) == Ok(f)
  {
  }

  /** The words older versions used for added and changed accounts, and bit 0, decode to no flag. */
  lemma LegacyWords()
    ensures TryFrom(1) == Ok(AccountFlag.None)
    ensures TryFrom(4) == Ok(AccountFlag.None)
    ensures TryFrom(8) == Ok(AccountFlag.None)
  {
  }

  /** A word with two flags set is not a flag. */
  lemma CombinedWordsRejected(f: AccountFlag, g: AccountFlag)
    requires Position(f).Some? && Position(g).Some? && f != g
    ensures TryFrom(ToU16(f) | ToU16(g)) == Err(InvalidFlags)
  {
  }

  /** `AccountFlags`: the whole flag word of an account. */
  datatype AccountFlags = AccountFlags(word: u16)

  /** `AccountFlags::from(u16)` and `u16::from(AccountFlags)` lose nothing either way. */
  lemma WordRoundTrip(v: u16, flags: AccountFlags)
    ensures AccountFlags(v).word == v
    ensures AccountFlags(flags.word) == flags
  {
  }

  // ---------------------------------------------------------------------
  // Testing a flag, as written and corrected
  // ---------------------------------------------------------------------

  /** `&flags & f` as written: true when the word and the flag's bit have no bit in common. */
  predicate BitAndAsWritten(flags: AccountFlags, f: AccountFlag) {
    flags.word & ToU16(f) == 0
  }

  /** Masking a word with a one-bit word tests that bit. */
  lemma OneBitMasks(w: u16)
    ensures w & 2 == 0 <==> !BitSet(w, 1)
    ensures w & 16 == 0 <==> !BitSet(w, 4)
    ensures w & 32 == 0 <==> !BitSet(w, 5)
    ensures w & 64 == 0 <==> !BitSet(w, 6)
    ensures w & 512 == 0 <==> !BitSet(w, 9)
    ensures w & 1024 == 0 <==> !BitSet(w, 10)
  {
  }

  /** As written, `&` holds exactly when the flag's bit is clear, and always for the empty flag. */
  lemma BitAndAsWrittenTestsClearBit(flags: AccountFlags, f: AccountFlag)
    ensures Position(f).None? ==> BitAndAsWritten(flags, f)
    ensures Position(f).Some? ==> (BitAndAsWritten(flags, f) <==> !BitSet(flags.word, Position(f).value))
  {
    OneBitMasks(flags.word);
  }

  /** `is_closed` as written. */
  predicate IsClosedAsWritten(flags: AccountFlags) { BitAndAsWritten(flags, Closed) }
  /** `is_excluded_from_summary` as written. */
  predicate IsExcludedFromSummaryAsWritten(flags: AccountFlags) { !BitAndAsWritten(flags, NoSummary) }
  /** `is_excluded_from_budget` as written. */
  predicate IsExcludedFromBudgetAsWritten(flags: AccountFlags) { !BitAndAsWritten(flags, NoBudget) }
  /** `is_excluded_from_reports` as written. */
  predicate IsExcludedFromReportsAsWritten(flags: AccountFlags) { !BitAndAsWritten(flags, NoReport) }
  /** `is_added` as written. */
  predicate IsAddedAsWritten(flags: AccountFlags) { BitAndAsWritten(flags, Added) }
  /** `is_changed` as written. */
  predicate IsChangedAsWritten(flags: AccountFlags) { BitAndAsWritten(flags, Changed) }

  /** `&flags & f` corrected: the word has the flag's bit set. */
  predicate Has(flags: AccountFlags, f: AccountFlag) {
    flags.word & ToU16(f) != 0
  }

  /** Corrected, `&` is the negation of `&` as written. */
  lemma HasNegatesBitAnd(flags: AccountFlags, f: AccountFlag)
    ensures Has(flags, f) <==> !BitAndAsWritten(flags, f)
  {
  }

  /** Corrected, `&` holds exactly when the flag's bit is set, and never for the empty flag. */
  lemma HasTestsSetBit(flags: AccountFlags, f: AccountFlag)
    ensures Position(f).None? ==> !Has(flags, f)
    ensures Position(f).Some? ==> (Has(flags, f) <==> BitSet(flags.word, Position(f).value))
  {
    HasNegatesBitAnd(flags, f);
    BitAndAsWrittenTestsClearBit(flags, f);
  }

  /** `is_closed`, corrected. */
  predicate IsClosed(flags: AccountFlags) { Has(flags, Closed) }
  /** `is_excluded_from_summary`, corrected. */
  predicate IsExcludedFromSummary(flags: AccountFlags) { Has(flags, NoSummary) }
  /** `is_excluded_from_budget`, corrected. */
  predicate IsExcludedFromBudget(flags: AccountFlags) { Has(flags, NoBudget) }
  /** `is_excluded_from_reports`, corrected. */
  predicate IsExcludedFromReports(flags: AccountFlags) { Has(flags, NoReport) }
  /** `is_added`, corrected. */
  predicate IsAdded(flags: AccountFlags) { Has(flags, Added) }
  /** `is_changed`, corrected. */
  predicate IsChanged(flags: AccountFlags) { Has(flags, Changed) }

  /**
   * The `is_excluded_*` predicates negate `&`, so as written they already
   * test a set bit and agree with the corrected ones; `is_closed`,
   * `is_added` and `is_changed` do not negate it and answer the opposite.
   */
  lemma AsWrittenAgainstCorrected(flags: AccountFlags)
    ensures IsExcludedFromSummaryAsWritten(flags) <==> IsExcludedFromSummary(flags)
    ensures IsExcludedFromBudgetAsWritten(flags) <==> IsExcludedFromBudget(flags)
    ensures IsExcludedFromReportsAsWritten(flags) <==> IsExcludedFromReports(flags)
    ensures IsClosedAsWritten(flags) <==> !IsClosed(flags)
    ensures IsAddedAsWritten(flags) <==> !IsAdded(flags)
    ensures IsChangedAsWritten(flags) <==> !IsChanged(flags)
  {
    HasNegatesBitAnd(flags, NoSummary);
    HasNegatesBitAnd(flags, NoBudget);
    HasNegatesBitAnd(flags, NoReport);
    HasNegatesBitAnd(flags, Closed);
    HasNegatesBitAnd(flags, Added);
    HasNegatesBitAnd(flags, Changed);
  }

  /** Each corrected predicate holds exactly when its flag's bit is set. */
  lemma CorrectedPredicatesTestBits(flags: AccountFlags)
    ensures IsClosed(flags) <==> BitSet(flags.word, 1)
    ensures IsExcludedFromSummary(flags) <==> BitSet(flags.word, 4)
    ensures IsExcludedFromBudget(flags) <==> BitSet(flags.word, 5)
    ensures IsExcludedFromReports(flags) <==> BitSet(flags.word, 6)
    ensures IsAdded(flags) <==> BitSet(flags.word, 9)
    ensures IsChanged(flags) <==> BitSet(flags.word, 10)
  {
    HasTestsSetBit(flags, Closed);
    HasTestsSetBit(flags, NoSummary);
    HasTestsSetBit(flags, NoBudget);
    HasTestsSetBit(flags, NoReport);
    HasTestsSetBit(flags, Added);
    HasTestsSetBit(flags, Changed);
  }

  /** A closed account (word 2) is reported as not closed as written, and as closed once corrected. */
  lemma ClosedAccountVector()
    ensures !IsClosedAsWritten(AccountFlags(2))
    ensures IsClosed(AccountFlags(2))
  {
  }

  /** A word without flags (0) is reported as closed, added and changed as written. */
  lemma NoFlagsVector()
    ensures IsClosedAsWritten(AccountFlags(0)) && IsAddedAsWritten(AccountFlags(0)) && IsChangedAsWritten(AccountFlags(0))
    ensures !IsClosed(AccountFlags(0)) && !IsAdded(AccountFlags(0)) && !IsChanged(AccountFlags(0))
  {
  }
}
