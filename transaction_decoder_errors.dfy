/**
 * Which elements `Transaction::try_from` rejects, and with which error,
 * stated over the attribute list: each attribute is judged after those
 * before it, the first one rejected decides the error, and an element
 * none of whose attributes is rejected is accepted exactly when the
 * checks after the loop pass.
 */
module TransactionDecoderErrors {
  import opened Wrappers
  import opened Strings
  import opened Attributes
  import opened TransactionErrors
  import PayModes
  import TransactionStatuses
  import opened TransactionSplit
  import opened TransactionDecoder
  import opened TransactionDecoderProofs
  import opened TransactionDecoderResults

  /**
   * The length check on a split list of `len` entries read after `pre`:
   * only the corrected check compares it with the split count so far.
   */
  function ListLength(mode: SplitCheck, pre: seq<Attr>, len: nat): Option<TransactionError> {
    if mode == Corrected && HasSplit(pre) && len != LastSplitCount(pre)
    then Some(MismatchedSplitNumber(LastSplitCount(pre), len))
    else Option.None
  }

  /** A value that must be a `usize`, and the error for one that is not. */
  function NeedUsize(value: string, e: TransactionError): Option<TransactionError> {
    if ParseUsize(value).None? then Some(e) else Option.None
  }

  /**
   * The error attribute `a` gets once the attributes `pre` were read
   * without error, or none when it is accepted: a value that does not
   * parse, a code that names nothing, a category after a split list or a
   * split list after a category, and, under the corrected check, a split
   * list whose length differs from the lists before it.
   */
  function Rejects(mode: SplitCheck, parseReal: string -> Option<real>, pre: seq<Attr>, a: Attr): Option<TransactionError> {
    var (name, value) := a;
    match FieldOf(name)
    case Account => NeedUsize(value, InvalidAccount)
    case Amount => if parseReal(value).None? then Some(InvalidAmount) else Option.None
    case Category =>
      if HasSplit(pre) then Some(ConflictingInfoSimpleSplitTransaction) else NeedUsize(value, InvalidCategory(value))
    case Date => if ParseU32(value).None? then Some(InvalidDate) else Option.None
    case Paymode =>
      if ParseUsize(value).None? then Some(InvalidPayMode)
      else if PayModes.TryFrom(ParseUsize(value).value).Err? then Some(PayModes.TryFrom(ParseUsize(value).value).error)
      else Option.None
    case St =>
      if ParseUsize(value).None? then Some(InvalidStatus)
      else if TransactionStatuses.TryFrom(ParseUsize(value).value).Err? then Some(TransactionStatuses.TryFrom(ParseUsize(value).value).error)
      else Option.None
    case Flags => NeedUsize(value, InvalidFlags)
    case Payee => NeedUsize(value, InvalidPayee)
    case Wording => Option.None
    case Tags => Option.None
    case Scat =>
      if HasCategory(pre) then Some(ConflictingInfoSimpleSplitTransaction)
      else if ParseSplitCategories(ParseSplitValues(value)).Err? then Some(ParseSplitCategories(ParseSplitValues(value)).error)
      else ListLength(mode, pre, |ParseSplitValues(value)|)
    case Samt =>
      if HasCategory(pre) then Some(ConflictingInfoSimpleSplitTransaction)
      else if ParseSplitAmounts(parseReal, ParseSplitValues(value)).Err? then Some(ParseSplitAmounts(parseReal, ParseSplitValues(value)).error)
      else ListLength(mode, pre, |ParseSplitValues(value)|)
    case Smem =>
      if HasCategory(pre) then Some(ConflictingInfoSimpleSplitTransaction)
      else ListLength(mode, pre, |ParseSplitValues(value)|)
    case DstAccount => NeedUsize(value, InvalidDestinationAccount)
    case Kxfer => NeedUsize(value, InvalidTransferKey)
    case Unknown => Option.None
  }

  function RejectsWith(mode: SplitCheck, parseReal: string -> Option<real>): (seq<Attr>, Attr) -> Option<TransactionError> {
    (pre, a) => Rejects(mode, parseReal, pre, a)
  }

  /** The error of the first attribute rejected after those before it. */
  function FirstRejected(mode: SplitCheck, parseReal: string -> Option<real>, attrs: seq<Attr>): Option<TransactionError> {
    FirstErrorAfter(attrs, RejectsWith(mode, parseReal))
  }

  /** What the loop's state is known to satisfy after reading `pre`. */
  predicate Reached(parseReal: string -> Option<real>, pre: seq<Attr>, s: Scratch) {
    LoopShape(s) && ComplexityAgrees(pre, s) && SplitAgrees(parseReal, pre, s) && TransferAgrees(pre, s)
  }

  /** A rejected attribute fails the step with its error. */
  lemma StepRejects(mode: SplitCheck, parseReal: string -> Option<real>, pre: seq<Attr>, s: Scratch, a: Attr)
    requires Reached(parseReal, pre, s) && Rejects(mode, parseReal, pre, a).Some?
    ensures Step(mode, parseReal, s, a) == Err(Rejects(mode, parseReal, pre, a).value)
  {
    match GroupOf(FieldOf(a.0))
    case Header => StepRejectsInHeader(mode, parseReal, pre, s, a);
    case Codes => StepRejectsInCodes(mode, parseReal, pre, s, a);
    case Lists => StepRejectsInLists(mode, parseReal, pre, s, a);
    case Others => StepRejectsInOthers(mode, parseReal, pre, s, a);
  }

  lemma StepRejectsInCodes(mode: SplitCheck, parseReal: string -> Option<real>, pre: seq<Attr>, s: Scratch, a: Attr)
    requires GroupOf(FieldOf(a.0)) == Codes
    requires Reached(parseReal, pre, s) && Rejects(mode, parseReal, pre, a).Some?
    ensures Step(mode, parseReal, s, a) == Err(Rejects(mode, parseReal, pre, a).value)
  {
    match FieldOf(a.0) {
      case Paymode =>
      case St =>
      case Flags =>
      case Payee =>
      case _ =>
    }
  }

  lemma StepRejectsInOthers(mode: SplitCheck, parseReal: string -> Option<real>, pre: seq<Attr>, s: Scratch, a: Attr)
    requires GroupOf(FieldOf(a.0)) == Others
    requires Reached(parseReal, pre, s) && Rejects(mode, parseReal, pre, a).Some?
    ensures Step(mode, parseReal, s, a) == Err(Rejects(mode, parseReal, pre, a).value)
  {
    match FieldOf(a.0) {
      case Wording =>
      case Tags =>
      case DstAccount =>
      case Kxfer =>
      case _ =>
    }
  }

  lemma StepRejectsInHeader(mode: SplitCheck, parseReal: string -> Option<real>, pre: seq<Attr>, s: Scratch, a: Attr)
    requires GroupOf(FieldOf(a.0)) == Header
    requires Reached(parseReal, pre, s) && Rejects(mode, parseReal, pre, a).Some?
    ensures Step(mode, parseReal, s, a) == Err(Rejects(mode, parseReal, pre, a).value)
  {
    match FieldOf(a.0) {
      case Account =>
      case Amount =>
      case Category =>
      case Date =>
      case _ =>
    }
  }

  lemma StepRejectsInLists(mode: SplitCheck, parseReal: string -> Option<real>, pre: seq<Attr>, s: Scratch, a: Attr)
    requires GroupOf(FieldOf(a.0)) == Lists
    requires Reached(parseReal, pre, s) && Rejects(mode, parseReal, pre, a).Some?
    ensures Step(mode, parseReal, s, a) == Err(Rejects(mode, parseReal, pre, a).value)
  {
    match FieldOf(a.0) {
      case Scat =>
      case Samt =>
      case Smem =>
      case _ =>
    }
  }

  /** An accepted attribute is read, and the state still satisfies what is known. */
  lemma StepAccepts(mode: SplitCheck, parseReal: string -> Option<real>, pre: seq<Attr>, s: Scratch, a: Attr)
    requires Reached(parseReal, pre, s) && Rejects(mode, parseReal, pre, a).None?
    ensures Step(mode, parseReal, s, a).Ok?
    ensures Reached(parseReal, pre + [a], Step(mode, parseReal, s, a).value)
  {
    StepReads(mode, parseReal, pre, s, a);
    var attrs := pre + [a];
    assert attrs[..|attrs| - 1] == pre && attrs[|attrs| - 1] == a;
    StepKeepsShape(mode, parseReal, s, a);
    StepKeepsComplexity(mode, parseReal, attrs, s);
    StepKeepsSplit(mode, parseReal, attrs, s);
    StepKeepsTransfer(mode, parseReal, attrs, s);
  }

  /** An accepted attribute does not fail the step. */
  lemma StepReads(mode: SplitCheck, parseReal: string -> Option<real>, pre: seq<Attr>, s: Scratch, a: Attr)
    requires Reached(parseReal, pre, s) && Rejects(mode, parseReal, pre, a).None?
    ensures Step(mode, parseReal, s, a).Ok?
  {
    match GroupOf(FieldOf(a.0))
    case Header => StepAcceptsInHeader(mode, parseReal, pre, s, a);
    case Codes => StepAcceptsInCodes(mode, parseReal, pre, s, a);
    case Lists => StepAcceptsInLists(mode, parseReal, pre, s, a);
    case Others => StepAcceptsInOthers(mode, parseReal, pre, s, a);
  }

  lemma StepAcceptsInCodes(mode: SplitCheck, parseReal: string -> Option<real>, pre: seq<Attr>, s: Scratch, a: Attr)
    requires GroupOf(FieldOf(a.0)) == Codes
    requires Reached(parseReal, pre, s) && Rejects(mode, parseReal, pre, a).None?
    ensures Step(mode, parseReal, s, a).Ok?
  {
    match FieldOf(a.0) {
      case Paymode =>
      case St =>
      case Flags =>
      case Payee =>
      case _ =>
    }
  }

  lemma StepAcceptsInOthers(mode: SplitCheck, parseReal: string -> Option<real>, pre: seq<Attr>, s: Scratch, a: Attr)
    requires GroupOf(FieldOf(a.0)) == Others
    requires Reached(parseReal, pre, s) && Rejects(mode, parseReal, pre, a).None?
    ensures Step(mode, parseReal, s, a).Ok?
  {
    match FieldOf(a.0) {
      case Wording =>
      case Tags =>
      case DstAccount =>
      case Kxfer =>
      case _ =>
    }
  }

  lemma StepAcceptsInHeader(mode: SplitCheck, parseReal: string -> Option<real>, pre: seq<Attr>, s: Scratch, a: Attr)
    requires GroupOf(FieldOf(a.0)) == Header
    requires Reached(parseReal, pre, s) && Rejects(mode, parseReal, pre, a).None?
    ensures Step(mode, parseReal, s, a).Ok?
  {
    match FieldOf(a.0) {
      case Account =>
      case Amount =>
      case Category =>
      case Date =>
      case _ =>
    }
  }

  lemma StepAcceptsInLists(mode: SplitCheck, parseReal: string -> Option<real>, pre: seq<Attr>, s: Scratch, a: Attr)
    requires GroupOf(FieldOf(a.0)) == Lists
    requires Reached(parseReal, pre, s) && Rejects(mode, parseReal, pre, a).None?
    ensures Step(mode, parseReal, s, a).Ok?
  {
    match FieldOf(a.0) {
      case Scat =>
      case Samt =>
      case Smem =>
      case _ =>
    }
  }

  /** The split breakdown the attributes describe: the last list of each kind, counted by the last list read. */
  function DescribedSplit(parseReal: string -> Option<real>, attrs: seq<Attr>): SplitTransaction {
    SplitTransaction(LastSplitCount(attrs), LastCategories(attrs), LastAmounts(parseReal, attrs), LastMemos(attrs))
  }

  /**
   * The checks after the loop: a transfer link needs a non-zero key and a
   * non-zero destination; under the corrected check the split lists the
   * attributes describe must each hold one entry per split.
   */
  predicate PostChecksPass(mode: SplitCheck, parseReal: string -> Option<real>, attrs: seq<Attr>) {
    && (HasTransfer(attrs) ==> LastKey(attrs) != 0 && LastDestination(attrs) != 0)
    && (mode == Corrected && HasSplit(attrs) ==> DescribedSplit(parseReal, attrs).WellFormed())
  }

  /**
   * The decoder fails with the error of the first attribute rejected after
   * those before it.  When no attribute is rejected the loop reads them
   * all, and the element is accepted exactly when the checks after the
   * loop pass.
   */
  lemma DecodeErrors(mode: SplitCheck, parseReal: string -> Option<real>, attrs: seq<Attr>)
    ensures FirstRejected(mode, parseReal, attrs).Some? ==>
              Decoded(mode, parseReal, attrs) == Err(FirstRejected(mode, parseReal, attrs).value)
    ensures FirstRejected(mode, parseReal, attrs).None? ==> LoopAccepts(mode, parseReal, attrs)
    ensures FirstRejected(mode, parseReal, attrs).None? ==>
              (Decoded(mode, parseReal, attrs).Ok? <==> PostChecksPass(mode, parseReal, attrs))
  {
    var step := StepWith(mode, parseReal);
    var check := RejectsWith(mode, parseReal);
    var inv := (pre: seq<Attr>, t: Scratch) => Reached(parseReal, pre, t);
    SplitStart(parseReal);
    forall pre, t, a | inv(pre, t) && check(pre, a).Some?
      ensures step(t, a) == Err(check(pre, a).value)
    {
      StepRejects(mode, parseReal, pre, t, a);
    }
    forall pre, t, a | inv(pre, t) && check(pre, a).None?
      ensures step(t, a).Ok? && inv(pre + [a], step(t, a).value)
    {
      StepAccepts(mode, parseReal, pre, t, a);
    }
    FoldChecked(Start(), attrs, step, check, inv);
  }
}
