/**
 * What `Transaction::try_from` returns, stated over the attribute list: the
 * fields hold the last value of their attribute, the type follows the
 * amount's sign unless a transfer link was read, a transfer needs both
 * halves of its link, simple and split information exclude each other, and
 * the corrected split check differs from the check as written only by
 * rejecting split lists that disagree in length.
 */
module TransactionDecoderResults {
  import opened Wrappers
  import opened Strings
  import opened Attributes
  import opened TransactionErrors
  import opened TransactionDate
  import opened TransactionTypes
  import opened TransactionComplexity
  import opened TransactionSplit
  import opened Transactions
  import opened TransactionDecoder
  import opened TransactionDecoderProofs

  /** The loop read every attribute without an error. */
  predicate LoopAccepts(mode: SplitCheck, parseReal: string -> Option<real>, attrs: seq<Attr>) {
    Fold(Start(), attrs, StepWith(mode, parseReal)).Ok?
  }

  /** The transfer key the last `kxfer` attribute gives, or 0. */
  function LastKey(attrs: seq<Attr>): nat {
    LastUsize(attrs, Kxfer).GetOr(0)
  }

  /** The destination account the last `dst_account` attribute gives, or 0. */
  function LastDestination(attrs: seq<Attr>): nat {
    LastUsize(attrs, DstAccount).GetOr(0)
  }

  // ---------------------------------------------------------------------
  // Fields, type and transfer link
  // ---------------------------------------------------------------------

  /** Every field copied from an attribute holds what the last one of its kind gives, under either check. */
  lemma DecodedFields(mode: SplitCheck, parseReal: string -> Option<real>, attrs: seq<Attr>)
    ensures var r := Decoded(mode, parseReal, attrs);
      r.Ok? ==> CodesAgree(attrs, r.value) && AmountDateAgree(parseReal, attrs, r.value) && TextAgrees(attrs, r.value)
  {
    var f := Fold(Start(), attrs, StepWith(mode, parseReal));
    if f.Ok? {
      CodesInvariant(mode, parseReal, attrs, f.value);
      AmountDateInvariant(mode, parseReal, attrs, f.value);
      TextInvariant(mode, parseReal, attrs, f.value);
    }
  }

  /**
   * Without a transfer attribute the type is income for a positive amount
   * and expense otherwise; with one, the entry is a transfer linking the
   * last key to the last destination, both non-zero.
   */
  lemma DecodedType(mode: SplitCheck, parseReal: string -> Option<real>, attrs: seq<Attr>)
    ensures var r := Decoded(mode, parseReal, attrs);
      r.Ok? && !HasTransfer(attrs) ==> r.value.ttype == (if r.value.amount > 0.0 then Income else Expense)
    ensures var r := Decoded(mode, parseReal, attrs);
      r.Ok? && HasTransfer(attrs) ==>
        LastKey(attrs) != 0 && LastDestination(attrs) != 0 &&
        r.value.ttype == TransferOf(Transfer(LastKey(attrs), LastDestination(attrs)))
  {
    var f := Fold(Start(), attrs, StepWith(mode, parseReal));
    if f.Ok? {
      ShapeInvariant(mode, parseReal, attrs, f.value);
      TransferInvariant(mode, parseReal, attrs, f.value);
    }
  }

  /**
   * A transfer link read without error is checked after the loop: a zero
   * key is reported first, then a zero destination.
   */
  lemma TransferLinkChecked(mode: SplitCheck, parseReal: string -> Option<real>, attrs: seq<Attr>)
    requires LoopAccepts(mode, parseReal, attrs) && HasTransfer(attrs)
    ensures LastKey(attrs) == 0 ==> Decoded(mode, parseReal, attrs) == Err(InvalidTransferKey)
    ensures LastKey(attrs) != 0 && LastDestination(attrs) == 0 ==>
              Decoded(mode, parseReal, attrs) == Err(InvalidDestinationAccount)
  {
    TransferInvariant(mode, parseReal, attrs, Fold(Start(), attrs, StepWith(mode, parseReal)).value);
  }

  // ---------------------------------------------------------------------
  // Complexity
  // ---------------------------------------------------------------------

  /** A category and a split list in the same element are never accepted together. */
  lemma ConflictRejected(mode: SplitCheck, parseReal: string -> Option<real>, attrs: seq<Attr>)
    requires HasCategory(attrs) && HasSplit(attrs)
    ensures Decoded(mode, parseReal, attrs).Err?
  {
    var f := Fold(Start(), attrs, StepWith(mode, parseReal));
    if f.Ok? {
      ComplexityInvariant(mode, parseReal, attrs, f.value);
    }
  }

  /**
   * With neither a category nor a split list the entry keeps the default
   * complexity; a category makes it simple, carrying the transaction's own
   * amount and memo; split lists make it split, holding the last list of
   * each kind and as many splits as the last list read has entries.
   */
  lemma DecodedComplexity(mode: SplitCheck, parseReal: string -> Option<real>, attrs: seq<Attr>)
    ensures var r := Decoded(mode, parseReal, attrs);
      r.Ok? && !HasCategory(attrs) && !HasSplit(attrs) ==> r.value.complexity == TransactionComplexity.Default()
    ensures var r := Decoded(mode, parseReal, attrs);
      r.Ok? && HasCategory(attrs) ==>
        r.value.complexity == Simple(SimpleTransaction(LastUsize(attrs, Category), r.value.amount, Option.None, r.value.memo))
    ensures var r := Decoded(mode, parseReal, attrs);
      r.Ok? && HasSplit(attrs) ==>
        r.value.complexity == Split(SplitTransaction(LastSplitCount(attrs), LastCategories(attrs),
                                                     LastAmounts(parseReal, attrs), LastMemos(attrs)))
  {
    var f := Fold(Start(), attrs, StepWith(mode, parseReal));
    if f.Ok? {
      ShapeInvariant(mode, parseReal, attrs, f.value);
      ComplexityInvariant(mode, parseReal, attrs, f.value);
      SplitInvariant(mode, parseReal, attrs, f.value);
    }
  }

  /**
   * With the corrected check every accepted split entry has exactly one
   * category, amount and memo per split, so all three lists were given.
   */
  lemma CorrectedIsWellFormed(parseReal: string -> Option<real>, attrs: seq<Attr>)
    ensures Decode(parseReal, attrs).Ok? ==> WellFormed(Decode(parseReal, attrs).value.complexity)
    ensures Decode(parseReal, attrs).Ok? && HasSplit(attrs) ==>
              LastOf(attrs, FieldOf, Scat).Some? && LastOf(attrs, FieldOf, Samt).Some? && LastOf(attrs, FieldOf, Smem).Some?
  {
    var f := Fold(Start(), attrs, StepWith(Corrected, parseReal));
    if f.Ok? {
      ShapeInvariant(Corrected, parseReal, attrs, f.value);
      ComplexityInvariant(Corrected, parseReal, attrs, f.value);
      SplitInvariant(Corrected, parseReal, attrs, f.value);
    }
  }

  // ---------------------------------------------------------------------
  // The split check as written against the corrected one
  // ---------------------------------------------------------------------

  /** A step of the loop as written never reports mismatched split lists. */
  lemma AsWrittenStepNeverMismatches(parseReal: string -> Option<real>, s: Scratch, a: Attr)
    requires LoopShape(s)
    ensures Step(AsWritten, parseReal, s, a).Err? ==> !Step(AsWritten, parseReal, s, a).error.MismatchedSplitNumber?
  {
  }

  /**
   * The split-length check as written never fires: it tests the complexity
   * of the transaction under construction, which is only assigned after the
   * loop, so no input is ever rejected for split lists of different lengths.
   */
  lemma AsWrittenNeverMismatches(parseReal: string -> Option<real>, attrs: seq<Attr>)
    ensures DecodeAsWritten(parseReal, attrs).Err? ==> !DecodeAsWritten(parseReal, attrs).error.MismatchedSplitNumber?
  {
    var step := StepWith(AsWritten, parseReal);
    forall s, a | LoopShape(s)
      ensures step(s, a).Ok? ==> LoopShape(step(s, a).value)
      ensures step(s, a).Err? ==> !step(s, a).error.MismatchedSplitNumber?
    {
      if step(s, a).Ok? {
        StepKeepsShape(AsWritten, parseReal, s, a);
      }
      AsWrittenStepNeverMismatches(parseReal, s, a);
    }
    FoldErrors(Start(), attrs, step, s => LoopShape(s), (e: TransactionError) => !e.MismatchedSplitNumber?);
  }

  /** One step under the corrected check does what the step as written does, or reports mismatched split lists. */
  lemma StepsAgree(parseReal: string -> Option<real>, s: Scratch, a: Attr)
    requires LoopShape(s)
    ensures var c := Step(Corrected, parseReal, s, a);
      Step(AsWritten, parseReal, s, a) == c || (c.Err? && c.error.MismatchedSplitNumber?)
  {
  }

  /**
   * The corrected decoder agrees with the decoder as written except where
   * it rejects split lists that disagree in length; in particular whatever
   * it accepts, the decoder as written accepts the same way.
   */
  lemma CorrectedOnlyAddsMismatch(parseReal: string -> Option<real>, attrs: seq<Attr>)
    ensures var c := Decode(parseReal, attrs);
      DecodeAsWritten(parseReal, attrs) == c || (c.Err? && c.error.MismatchedSplitNumber?)
  {
    var step := StepWith(Corrected, parseReal);
    var other := StepWith(AsWritten, parseReal);
    forall s, a | LoopShape(s)
      ensures step(s, a).Ok? ==> LoopShape(step(s, a).value) && other(s, a) == step(s, a)
      ensures step(s, a).Err? ==> other(s, a) == step(s, a) || step(s, a).error.MismatchedSplitNumber?
    {
      if step(s, a).Ok? {
        StepKeepsShape(Corrected, parseReal, s, a);
      }
      StepsAgree(parseReal, s, a);
    }
    FoldDivergence(Start(), attrs, step, other, s => LoopShape(s), (e: TransactionError) => e.MismatchedSplitNumber?);
  }
}
