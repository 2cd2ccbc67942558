/**
 * What `Transaction::try_from` guarantees, stated over the attribute list:
 * the last value of each attribute wins, missing attributes leave defaults,
 * the amount's sign picks income or expense unless a transfer is linked,
 * simple and split information cannot be mixed, and the split lists may
 * come in any order.
 */
module TransactionDecoderProofs {
  import opened Wrappers
  import opened Strings
  import opened Attributes
  import opened TransactionErrors
  import opened TransactionDate
  import PayModes
  import TransactionStatuses
  import opened TransactionTypes
  import opened TransactionComplexity
  import opened TransactionSplit
  import opened TransactionTags
  import opened Transactions
  import opened TransactionDecoder

  // ---------------------------------------------------------------------
  // What the attribute list says about each field
  // ---------------------------------------------------------------------

  /** The last value of attribute `f`, read as a `usize`. */
  function LastUsize(attrs: seq<Attr>, f: AttrName): Option<nat> {
    match LastOf(attrs, FieldOf, f)
    case None => Option.None
    case Some(v) => ParseUsize(v)
  }

  /** The date the last `date` attribute names, or the default date. */
  function LastDate(attrs: seq<Attr>): Date {
    match LastOf(attrs, FieldOf, Date)
    case None => DEFAULT_DATE
    case Some(v) =>
      match ParseU32(v)
      case None => DEFAULT_DATE
      case Some(d) => JulianDate(d)
  }

  /** The memo the last `wording` attribute gives; an empty one is no memo. */
  function LastMemo(attrs: seq<Attr>): Option<string> {
    match LastOf(attrs, FieldOf, Wording)
    case None => Option.None
    case Some(v) => if v == "" then Option.None else Some(v)
  }

  /** The tags the last `tags` attribute gives; none at all is no tags. */
  function LastTags(attrs: seq<Attr>): Option<seq<string>> {
    match LastOf(attrs, FieldOf, Tags)
    case None => Option.None
    case Some(v) => if SplitTags(v) == [] then Option.None else Some(SplitTags(v))
  }

  /** `amount` is what the last `amount` attribute reads as, or 0 without one. */
  predicate AmountAgrees(parseReal: string -> Option<real>, attrs: seq<Attr>, amount: real) {
    match LastOf(attrs, FieldOf, Amount)
    case None => amount == 0.0
    case Some(v) => parseReal(v) == Some(amount)
  }

  predicate HasCategory(attrs: seq<Attr>) { LastOf(attrs, FieldOf, Category).Some? }

  predicate HasSplit(attrs: seq<Attr>) {
    LastOf(attrs, FieldOf, Scat).Some? || LastOf(attrs, FieldOf, Samt).Some? || LastOf(attrs, FieldOf, Smem).Some?
  }

  predicate HasTransfer(attrs: seq<Attr>) {
    LastOf(attrs, FieldOf, Kxfer).Some? || LastOf(attrs, FieldOf, DstAccount).Some?
  }

  /** The value of the last split attribute of any of the three kinds. */
  function LastSplitValue(attrs: seq<Attr>): (r: Option<string>)
    ensures r.None? <==> !HasSplit(attrs)
    decreases |attrs|
  {
    if attrs == [] then Option.None
    else if IsSplitField(FieldOf(attrs[|attrs| - 1].0)) then Some(attrs[|attrs| - 1].1)
    else LastSplitValue(attrs[..|attrs| - 1])
  }

  /** The numeric fields copied from attributes hold the last value of each, or 0 / none. */
  predicate CodesAgree(attrs: seq<Attr>, tr: Transaction) {
    NumbersAgree(attrs, tr) && PayModeAgrees(attrs, tr) && StatusAgrees(attrs, tr)
  }

  predicate NumbersAgree(attrs: seq<Attr>, tr: Transaction) {
    && tr.account == LastUsize(attrs, Account).GetOr(0)
    && tr.flags == LastUsize(attrs, Flags)
    && tr.payee == LastUsize(attrs, Payee)
  }

  predicate PayModeAgrees(attrs: seq<Attr>, tr: Transaction) {
    PayModes.Code(tr.payMode) == LastUsize(attrs, Paymode).GetOr(0)
  }

  predicate StatusAgrees(attrs: seq<Attr>, tr: Transaction) {
    TransactionStatuses.Code(tr.status) == LastUsize(attrs, St).GetOr(0)
  }

  /** The amount and date hold what the last `amount` and `date` attributes give, or their defaults. */
  predicate AmountDateAgree(parseReal: string -> Option<real>, attrs: seq<Attr>, tr: Transaction) {
    AmountAgrees(parseReal, attrs, tr.amount) && tr.date == LastDate(attrs)
  }

  /** The memo and tags hold what the last `wording` and `tags` attributes give; there is never an info. */
  predicate TextAgrees(attrs: seq<Attr>, tr: Transaction) {
    tr.memo == LastMemo(attrs) && tr.info.None? && tr.tags == LastTags(attrs)
  }

  // ---------------------------------------------------------------------
  // Invariants of the decoding loop
  // ---------------------------------------------------------------------

  /**
   * The attributes in four groups.  Each proof that one step keeps an
   * invariant goes through the groups separately, a few attributes at a time.
   */
  datatype Group = Header | Codes | Lists | Others

  function GroupOf(f: AttrName): Group {
    match f
    case Account => Header
    case Amount => Header
    case Category => Header
    case Date => Header
    case Paymode => Codes
    case St => Codes
    case Flags => Codes
    case Payee => Codes
    case Scat => Lists
    case Samt => Lists
    case Smem => Lists
    case Wording => Others
    case Tags => Others
    case DstAccount => Others
    case Kxfer => Others
    case Unknown => Others
  }

  /**
   * What holds of the scratch state at every turn of the loop, whatever the
   * attributes: the transaction's type and complexity are never assigned
   * inside the loop, so it is never a transfer and never split, and its type
   * follows the sign of its amount.
   */
  predicate LoopShape(s: Scratch) {
    && !IsTransfer(s.tr.ttype)
    && s.tr.complexity == TransactionComplexity.Default()
    && s.tr.ttype == (if s.tr.amount > 0.0 then Income else Expense)
    && s.simple.amount == s.tr.amount
    && s.simple.info.None?
    && (s.isSimple != Some(false) ==> s.simple.memo == s.tr.memo)
  }

  lemma StepKeepsShape(mode: SplitCheck, parseReal: string -> Option<real>, s: Scratch, a: Attr)
    requires LoopShape(s) && Step(mode, parseReal, s, a).Ok?
    ensures LoopShape(Step(mode, parseReal, s, a).value)
  {
    match FieldOf(a.0) {
      case Account =>
      case Amount =>
      case Category =>
      case Date =>
      case Paymode =>
      case St =>
      case Flags =>
      case Payee =>
      case Wording =>
      case Tags =>
      case Scat =>
      case Samt =>
      case Smem =>
      case DstAccount =>
      case Kxfer =>
      case Unknown =>
    }
  }

  lemma ShapeInvariant(mode: SplitCheck, parseReal: string -> Option<real>, attrs: seq<Attr>, s: Scratch)
    requires Fold(Start(), attrs, StepWith(mode, parseReal)) == Ok(s)
    ensures LoopShape(s)
  {
    var step := StepWith(mode, parseReal);
    var inv := (pre: seq<Attr>, t: Scratch) => LoopShape(t);
    forall pre, t, a | inv(pre, t) && step(t, a).Ok?
      ensures inv(pre + [a], step(t, a).value)
    {
      StepKeepsShape(mode, parseReal, t, a);
    }
    FoldInvariant(Start(), attrs, step, inv);
  }

  lemma StepKeepsNumbers(mode: SplitCheck, parseReal: string -> Option<real>, attrs: seq<Attr>, s: Scratch)
    requires |attrs| > 0 && NumbersAgree(attrs[..|attrs| - 1], s.tr) && Step(mode, parseReal, s, attrs[|attrs| - 1]).Ok?
    ensures NumbersAgree(attrs, Step(mode, parseReal, s, attrs[|attrs| - 1]).value.tr)
  {
    match GroupOf(FieldOf(attrs[|attrs| - 1].0))
    case Header => StepKeepsNumbersInHeader(mode, parseReal, attrs, s);
    case Codes => StepKeepsNumbersInCodes(mode, parseReal, attrs, s);
    case Lists => StepKeepsNumbersInLists(mode, parseReal, attrs, s);
    case Others => StepKeepsNumbersInOthers(mode, parseReal, attrs, s);
  }

  lemma StepKeepsNumbersInHeader(mode: SplitCheck, parseReal: string -> Option<real>, attrs: seq<Attr>, s: Scratch)
    requires |attrs| > 0 && GroupOf(FieldOf(attrs[|attrs| - 1].0)) == Header
    requires NumbersAgree(attrs[..|attrs| - 1], s.tr) && Step(mode, parseReal, s, attrs[|attrs| - 1]).Ok?
    ensures NumbersAgree(attrs, Step(mode, parseReal, s, attrs[|attrs| - 1]).value.tr)
  {
    match FieldOf(attrs[|attrs| - 1].0) {
      case Account =>
      case Amount =>
      case Category =>
      case Date =>
      case _ =>
    }
  }

  lemma StepKeepsNumbersInCodes(mode: SplitCheck, parseReal: string -> Option<real>, attrs: seq<Attr>, s: Scratch)
    requires |attrs| > 0 && GroupOf(FieldOf(attrs[|attrs| - 1].0)) == Codes
    requires NumbersAgree(attrs[..|attrs| - 1], s.tr) && Step(mode, parseReal, s, attrs[|attrs| - 1]).Ok?
    ensures NumbersAgree(attrs, Step(mode, parseReal, s, attrs[|attrs| - 1]).value.tr)
  {
    match FieldOf(attrs[|attrs| - 1].0) {
      case Paymode =>
      case St =>
      case Flags =>
      case Payee =>
      case _ =>
    }
  }

  lemma StepKeepsNumbersInLists(mode: SplitCheck, parseReal: string -> Option<real>, attrs: seq<Attr>, s: Scratch)
    requires |attrs| > 0 && GroupOf(FieldOf(attrs[|attrs| - 1].0)) == Lists
    requires NumbersAgree(attrs[..|attrs| - 1], s.tr) && Step(mode, parseReal, s, attrs[|attrs| - 1]).Ok?
    ensures NumbersAgree(attrs, Step(mode, parseReal, s, attrs[|attrs| - 1]).value.tr)
  {
    match FieldOf(attrs[|attrs| - 1].0) {
      case Scat =>
      case Samt =>
      case Smem =>
      case _ =>
    }
  }

  lemma StepKeepsNumbersInOthers(mode: SplitCheck, parseReal: string -> Option<real>, attrs: seq<Attr>, s: Scratch)
    requires |attrs| > 0 && GroupOf(FieldOf(attrs[|attrs| - 1].0)) == Others
    requires NumbersAgree(attrs[..|attrs| - 1], s.tr) && Step(mode, parseReal, s, attrs[|attrs| - 1]).Ok?
    ensures NumbersAgree(attrs, Step(mode, parseReal, s, attrs[|attrs| - 1]).value.tr)
  {
    match FieldOf(attrs[|attrs| - 1].0) {
      case Wording =>
      case Tags =>
      case DstAccount =>
      case Kxfer =>
      case Unknown =>
      case _ =>
    }
  }


  lemma StepKeepsPayMode(mode: SplitCheck, parseReal: string -> Option<real>, attrs: seq<Attr>, s: Scratch)
    requires |attrs| > 0 && PayModeAgrees(attrs[..|attrs| - 1], s.tr) && Step(mode, parseReal, s, attrs[|attrs| - 1]).Ok?
    ensures PayModeAgrees(attrs, Step(mode, parseReal, s, attrs[|attrs| - 1]).value.tr)
  {
    match GroupOf(FieldOf(attrs[|attrs| - 1].0))
    case Header => StepKeepsPayModeInHeader(mode, parseReal, attrs, s);
    case Codes => StepKeepsPayModeInCodes(mode, parseReal, attrs, s);
    case Lists => StepKeepsPayModeInLists(mode, parseReal, attrs, s);
    case Others => StepKeepsPayModeInOthers(mode, parseReal, attrs, s);
  }

  lemma StepKeepsPayModeInHeader(mode: SplitCheck, parseReal: string -> Option<real>, attrs: seq<Attr>, s: Scratch)
    requires |attrs| > 0 && GroupOf(FieldOf(attrs[|attrs| - 1].0)) == Header
    requires PayModeAgrees(attrs[..|attrs| - 1], s.tr) && Step(mode, parseReal, s, attrs[|attrs| - 1]).Ok?
    ensures PayModeAgrees(attrs, Step(mode, parseReal, s, attrs[|attrs| - 1]).value.tr)
  {
    match FieldOf(attrs[|attrs| - 1].0) {
      case Account =>
      case Amount =>
      case Category =>
      case Date =>
      case _ =>
    }
  }

  lemma StepKeepsPayModeInCodes(mode: SplitCheck, parseReal: string -> Option<real>, attrs: seq<Attr>, s: Scratch)
    requires |attrs| > 0 && GroupOf(FieldOf(attrs[|attrs| - 1].0)) == Codes
    requires PayModeAgrees(attrs[..|attrs| - 1], s.tr) && Step(mode, parseReal, s, attrs[|attrs| - 1]).Ok?
    ensures PayModeAgrees(attrs, Step(mode, parseReal, s, attrs[|attrs| - 1]).value.tr)
  {
    match FieldOf(attrs[|attrs| - 1].0) {
      case Paymode =>
      case St =>
      case Flags =>
      case Payee =>
      case _ =>
    }
  }

  lemma StepKeepsPayModeInLists(mode: SplitCheck, parseReal: string -> Option<real>, attrs: seq<Attr>, s: Scratch)
    requires |attrs| > 0 && GroupOf(FieldOf(attrs[|attrs| - 1].0)) == Lists
    requires PayModeAgrees(attrs[..|attrs| - 1], s.tr) && Step(mode, parseReal, s, attrs[|attrs| - 1]).Ok?
    ensures PayModeAgrees(attrs, Step(mode, parseReal, s, attrs[|attrs| - 1]).value.tr)
  {
    match FieldOf(attrs[|attrs| - 1].0) {
      case Scat =>
      case Samt =>
      case Smem =>
      case _ =>
    }
  }

  lemma StepKeepsPayModeInOthers(mode: SplitCheck, parseReal: string -> Option<real>, attrs: seq<Attr>, s: Scratch)
    requires |attrs| > 0 && GroupOf(FieldOf(attrs[|attrs| - 1].0)) == Others
    requires PayModeAgrees(attrs[..|attrs| - 1], s.tr) && Step(mode, parseReal, s, attrs[|attrs| - 1]).Ok?
    ensures PayModeAgrees(attrs, Step(mode, parseReal, s, attrs[|attrs| - 1]).value.tr)
  {
    match FieldOf(attrs[|attrs| - 1].0) {
      case Wording =>
      case Tags =>
      case DstAccount =>
      case Kxfer =>
      case Unknown =>
      case _ =>
    }
  }


  lemma StepKeepsStatus(mode: SplitCheck, parseReal: string -> Option<real>, attrs: seq<Attr>, s: Scratch)
    requires |attrs| > 0 && StatusAgrees(attrs[..|attrs| - 1], s.tr) && Step(mode, parseReal, s, attrs[|attrs| - 1]).Ok?
    ensures StatusAgrees(attrs, Step(mode, parseReal, s, attrs[|attrs| - 1]).value.tr)
  {
    match GroupOf(FieldOf(attrs[|attrs| - 1].0))
    case Header => StepKeepsStatusInHeader(mode, parseReal, attrs, s);
    case Codes => StepKeepsStatusInCodes(mode, parseReal, attrs, s);
    case Lists => StepKeepsStatusInLists(mode, parseReal, attrs, s);
    case Others => StepKeepsStatusInOthers(mode, parseReal, attrs, s);
  }

  lemma StepKeepsStatusInHeader(mode: SplitCheck, parseReal: string -> Option<real>, attrs: seq<Attr>, s: Scratch)
    requires |attrs| > 0 && GroupOf(FieldOf(attrs[|attrs| - 1].0)) == Header
    requires StatusAgrees(attrs[..|attrs| - 1], s.tr) && Step(mode, parseReal, s, attrs[|attrs| - 1]).Ok?
    ensures StatusAgrees(attrs, Step(mode, parseReal, s, attrs[|attrs| - 1]).value.tr)
  {
    match FieldOf(attrs[|attrs| - 1].0) {
      case Account =>
      case Amount =>
      case Category =>
      case Date =>
      case _ =>
    }
  }

  lemma StepKeepsStatusInCodes(mode: SplitCheck, parseReal: string -> Option<real>, attrs: seq<Attr>, s: Scratch)
    requires |attrs| > 0 && GroupOf(FieldOf(attrs[|attrs| - 1].0)) == Codes
    requires StatusAgrees(attrs[..|attrs| - 1], s.tr) && Step(mode, parseReal, s, attrs[|attrs| - 1]).Ok?
    ensures StatusAgrees(attrs, Step(mode, parseReal, s, attrs[|attrs| - 1]).value.tr)
  {
    match FieldOf(attrs[|attrs| - 1].0) {
      case Paymode =>
      case St =>
      case Flags =>
      case Payee =>
      case _ =>
    }
  }

  lemma StepKeepsStatusInLists(mode: SplitCheck, parseReal: string -> Option<real>, attrs: seq<Attr>, s: Scratch)
    requires |attrs| > 0 && GroupOf(FieldOf(attrs[|attrs| - 1].0)) == Lists
    requires StatusAgrees(attrs[..|attrs| - 1], s.tr) && Step(mode, parseReal, s, attrs[|attrs| - 1]).Ok?
    ensures StatusAgrees(attrs, Step(mode, parseReal, s, attrs[|attrs| - 1]).value.tr)
  {
    match FieldOf(attrs[|attrs| - 1].0) {
      case Scat =>
      case Samt =>
      case Smem =>
      case _ =>
    }
  }

  lemma StepKeepsStatusInOthers(mode: SplitCheck, parseReal: string -> Option<real>, attrs: seq<Attr>, s: Scratch)
    requires |attrs| > 0 && GroupOf(FieldOf(attrs[|attrs| - 1].0)) == Others
    requires StatusAgrees(attrs[..|attrs| - 1], s.tr) && Step(mode, parseReal, s, attrs[|attrs| - 1]).Ok?
    ensures StatusAgrees(attrs, Step(mode, parseReal, s, attrs[|attrs| - 1]).value.tr)
  {
    match FieldOf(attrs[|attrs| - 1].0) {
      case Wording =>
      case Tags =>
      case DstAccount =>
      case Kxfer =>
      case Unknown =>
      case _ =>
    }
  }


  lemma NumbersInvariant(mode: SplitCheck, parseReal: string -> Option<real>, attrs: seq<Attr>, s: Scratch)
    requires Fold(Start(), attrs, StepWith(mode, parseReal)) == Ok(s)
    ensures NumbersAgree(attrs, s.tr)
  {
    var step := StepWith(mode, parseReal);
    var inv := (pre: seq<Attr>, t: Scratch) => NumbersAgree(pre, t.tr);
    forall pre, t, a | inv(pre, t) && step(t, a).Ok?
      ensures inv(pre + [a], step(t, a).value)
    {
      assert (pre + [a])[..|pre + [a]| - 1] == pre;
      StepKeepsNumbers(mode, parseReal, pre + [a], t);
    }
    FoldInvariant(Start(), attrs, step, inv);
  }

  lemma PayModeInvariant(mode: SplitCheck, parseReal: string -> Option<real>, attrs: seq<Attr>, s: Scratch)
    requires Fold(Start(), attrs, StepWith(mode, parseReal)) == Ok(s)
    ensures PayModeAgrees(attrs, s.tr)
  {
    var step := StepWith(mode, parseReal);
    var inv := (pre: seq<Attr>, t: Scratch) => PayModeAgrees(pre, t.tr);
    forall pre, t, a | inv(pre, t) && step(t, a).Ok?
      ensures inv(pre + [a], step(t, a).value)
    {
      assert (pre + [a])[..|pre + [a]| - 1] == pre;
      StepKeepsPayMode(mode, parseReal, pre + [a], t);
    }
    FoldInvariant(Start(), attrs, step, inv);
  }

  lemma StatusInvariant(mode: SplitCheck, parseReal: string -> Option<real>, attrs: seq<Attr>, s: Scratch)
    requires Fold(Start(), attrs, StepWith(mode, parseReal)) == Ok(s)
    ensures StatusAgrees(attrs, s.tr)
  {
    var step := StepWith(mode, parseReal);
    var inv := (pre: seq<Attr>, t: Scratch) => StatusAgrees(pre, t.tr);
    forall pre, t, a | inv(pre, t) && step(t, a).Ok?
      ensures inv(pre + [a], step(t, a).value)
    {
      assert (pre + [a])[..|pre + [a]| - 1] == pre;
      StepKeepsStatus(mode, parseReal, pre + [a], t);
    }
    FoldInvariant(Start(), attrs, step, inv);
  }

  lemma CodesInvariant(mode: SplitCheck, parseReal: string -> Option<real>, attrs: seq<Attr>, s: Scratch)
    requires Fold(Start(), attrs, StepWith(mode, parseReal)) == Ok(s)
    ensures CodesAgree(attrs, s.tr)
  {
    NumbersInvariant(mode, parseReal, attrs, s);
    PayModeInvariant(mode, parseReal, attrs, s);
    StatusInvariant(mode, parseReal, attrs, s);
  }


  lemma StepKeepsAmountDate(mode: SplitCheck, parseReal: string -> Option<real>, attrs: seq<Attr>, s: Scratch)
    requires |attrs| > 0 && AmountDateAgree(parseReal, attrs[..|attrs| - 1], s.tr) && Step(mode, parseReal, s, attrs[|attrs| - 1]).Ok?
    ensures AmountDateAgree(parseReal, attrs, Step(mode, parseReal, s, attrs[|attrs| - 1]).value.tr)
  {
    match GroupOf(FieldOf(attrs[|attrs| - 1].0))
    case Header => StepKeepsAmountDateInHeader(mode, parseReal, attrs, s);
    case Codes => StepKeepsAmountDateInCodes(mode, parseReal, attrs, s);
    case Lists => StepKeepsAmountDateInLists(mode, parseReal, attrs, s);
    case Others => StepKeepsAmountDateInOthers(mode, parseReal, attrs, s);
  }

  lemma StepKeepsAmountDateInHeader(mode: SplitCheck, parseReal: string -> Option<real>, attrs: seq<Attr>, s: Scratch)
    requires |attrs| > 0 && GroupOf(FieldOf(attrs[|attrs| - 1].0)) == Header
    requires AmountDateAgree(parseReal, attrs[..|attrs| - 1], s.tr) && Step(mode, parseReal, s, attrs[|attrs| - 1]).Ok?
    ensures AmountDateAgree(parseReal, attrs, Step(mode, parseReal, s, attrs[|attrs| - 1]).value.tr)
  {
    match FieldOf(attrs[|attrs| - 1].0) {
      case Account =>
      case Amount =>
      case Category =>
      case Date =>
      case _ =>
    }
  }

  lemma StepKeepsAmountDateInCodes(mode: SplitCheck, parseReal: string -> Option<real>, attrs: seq<Attr>, s: Scratch)
    requires |attrs| > 0 && GroupOf(FieldOf(attrs[|attrs| - 1].0)) == Codes
    requires AmountDateAgree(parseReal, attrs[..|attrs| - 1], s.tr) && Step(mode, parseReal, s, attrs[|attrs| - 1]).Ok?
    ensures AmountDateAgree(parseReal, attrs, Step(mode, parseReal, s, attrs[|attrs| - 1]).value.tr)
  {
    match FieldOf(attrs[|attrs| - 1].0) {
      case Paymode =>
      case St =>
      case Flags =>
      case Payee =>
      case _ =>
    }
  }

  lemma StepKeepsAmountDateInLists(mode: SplitCheck, parseReal: string -> Option<real>, attrs: seq<Attr>, s: Scratch)
    requires |attrs| > 0 && GroupOf(FieldOf(attrs[|attrs| - 1].0)) == Lists
    requires AmountDateAgree(parseReal, attrs[..|attrs| - 1], s.tr) && Step(mode, parseReal, s, attrs[|attrs| - 1]).Ok?
    ensures AmountDateAgree(parseReal, attrs, Step(mode, parseReal, s, attrs[|attrs| - 1]).value.tr)
  {
    match FieldOf(attrs[|attrs| - 1].0) {
      case Scat =>
      case Samt =>
      case Smem =>
      case _ =>
    }
  }

  lemma StepKeepsAmountDateInOthers(mode: SplitCheck, parseReal: string -> Option<real>, attrs: seq<Attr>, s: Scratch)
    requires |attrs| > 0 && GroupOf(FieldOf(attrs[|attrs| - 1].0)) == Others
    requires AmountDateAgree(parseReal, attrs[..|attrs| - 1], s.tr) && Step(mode, parseReal, s, attrs[|attrs| - 1]).Ok?
    ensures AmountDateAgree(parseReal, attrs, Step(mode, parseReal, s, attrs[|attrs| - 1]).value.tr)
  {
    match FieldOf(attrs[|attrs| - 1].0) {
      case Wording =>
      case Tags =>
      case DstAccount =>
      case Kxfer =>
      case Unknown =>
      case _ =>
    }
  }


  lemma AmountDateInvariant(mode: SplitCheck, parseReal: string -> Option<real>, attrs: seq<Attr>, s: Scratch)
    requires Fold(Start(), attrs, StepWith(mode, parseReal)) == Ok(s)
    ensures AmountDateAgree(parseReal, attrs, s.tr)
  {
    var step := StepWith(mode, parseReal);
    var inv := (pre: seq<Attr>, t: Scratch) => AmountDateAgree(parseReal, pre, t.tr);
    forall pre, t, a | inv(pre, t) && step(t, a).Ok?
      ensures inv(pre + [a], step(t, a).value)
    {
      assert (pre + [a])[..|pre + [a]| - 1] == pre;
      StepKeepsAmountDate(mode, parseReal, pre + [a], t);
    }
    FoldInvariant(Start(), attrs, step, inv);
  }

  lemma StepKeepsText(mode: SplitCheck, parseReal: string -> Option<real>, attrs: seq<Attr>, s: Scratch)
    requires |attrs| > 0 && TextAgrees(attrs[..|attrs| - 1], s.tr) && Step(mode, parseReal, s, attrs[|attrs| - 1]).Ok?
    ensures TextAgrees(attrs, Step(mode, parseReal, s, attrs[|attrs| - 1]).value.tr)
  {
    match GroupOf(FieldOf(attrs[|attrs| - 1].0))
    case Header => StepKeepsTextInHeader(mode, parseReal, attrs, s);
    case Codes => StepKeepsTextInCodes(mode, parseReal, attrs, s);
    case Lists => StepKeepsTextInLists(mode, parseReal, attrs, s);
    case Others => StepKeepsTextInOthers(mode, parseReal, attrs, s);
  }

  lemma StepKeepsTextInHeader(mode: SplitCheck, parseReal: string -> Option<real>, attrs: seq<Attr>, s: Scratch)
    requires |attrs| > 0 && GroupOf(FieldOf(attrs[|attrs| - 1].0)) == Header
    requires TextAgrees(attrs[..|attrs| - 1], s.tr) && Step(mode, parseReal, s, attrs[|attrs| - 1]).Ok?
    ensures TextAgrees(attrs, Step(mode, parseReal, s, attrs[|attrs| - 1]).value.tr)
  {
    match FieldOf(attrs[|attrs| - 1].0) {
      case Account =>
      case Amount =>
      case Category =>
      case Date =>
      case _ =>
    }
  }

  lemma StepKeepsTextInCodes(mode: SplitCheck, parseReal: string -> Option<real>, attrs: seq<Attr>, s: Scratch)
    requires |attrs| > 0 && GroupOf(FieldOf(attrs[|attrs| - 1].0)) == Codes
    requires TextAgrees(attrs[..|attrs| - 1], s.tr) && Step(mode, parseReal, s, attrs[|attrs| - 1]).Ok?
    ensures TextAgrees(attrs, Step(mode, parseReal, s, attrs[|attrs| - 1]).value.tr)
  {
    match FieldOf(attrs[|attrs| - 1].0) {
      case Paymode =>
      case St =>
      case Flags =>
      case Payee =>
      case _ =>
    }
  }

  lemma StepKeepsTextInLists(mode: SplitCheck, parseReal: string -> Option<real>, attrs: seq<Attr>, s: Scratch)
    requires |attrs| > 0 && GroupOf(FieldOf(attrs[|attrs| - 1].0)) == Lists
    requires TextAgrees(attrs[..|attrs| - 1], s.tr) && Step(mode, parseReal, s, attrs[|attrs| - 1]).Ok?
    ensures TextAgrees(attrs, Step(mode, parseReal, s, attrs[|attrs| - 1]).value.tr)
  {
    match FieldOf(attrs[|attrs| - 1].0) {
      case Scat =>
      case Samt =>
      case Smem =>
      case _ =>
    }
  }

  lemma StepKeepsTextInOthers(mode: SplitCheck, parseReal: string -> Option<real>, attrs: seq<Attr>, s: Scratch)
    requires |attrs| > 0 && GroupOf(FieldOf(attrs[|attrs| - 1].0)) == Others
    requires TextAgrees(attrs[..|attrs| - 1], s.tr) && Step(mode, parseReal, s, attrs[|attrs| - 1]).Ok?
    ensures TextAgrees(attrs, Step(mode, parseReal, s, attrs[|attrs| - 1]).value.tr)
  {
    match FieldOf(attrs[|attrs| - 1].0) {
      case Wording =>
      case Tags =>
      case DstAccount =>
      case Kxfer =>
      case Unknown =>
      case _ =>
    }
  }


  lemma TextInvariant(mode: SplitCheck, parseReal: string -> Option<real>, attrs: seq<Attr>, s: Scratch)
    requires Fold(Start(), attrs, StepWith(mode, parseReal)) == Ok(s)
    ensures TextAgrees(attrs, s.tr)
  {
    var step := StepWith(mode, parseReal);
    var inv := (pre: seq<Attr>, t: Scratch) => TextAgrees(pre, t.tr);
    forall pre, t, a | inv(pre, t) && step(t, a).Ok?
      ensures inv(pre + [a], step(t, a).value)
    {
      assert (pre + [a])[..|pre + [a]| - 1] == pre;
      StepKeepsText(mode, parseReal, pre + [a], t);
    }
    FoldInvariant(Start(), attrs, step, inv);
  }

  /** The transfer link holds the last key and destination read, and is on once either was read. */
  predicate TransferAgrees(attrs: seq<Attr>, s: Scratch) {
    && s.isTransfer == HasTransfer(attrs)
    && s.xfer == Transfer(LastUsize(attrs, Kxfer).GetOr(0), LastUsize(attrs, DstAccount).GetOr(0))
  }

  lemma StepKeepsTransfer(mode: SplitCheck, parseReal: string -> Option<real>, attrs: seq<Attr>, s: Scratch)
    requires |attrs| > 0 && TransferAgrees(attrs[..|attrs| - 1], s) && Step(mode, parseReal, s, attrs[|attrs| - 1]).Ok?
    ensures TransferAgrees(attrs, Step(mode, parseReal, s, attrs[|attrs| - 1]).value)
  {
    match GroupOf(FieldOf(attrs[|attrs| - 1].0))
    case Header => StepKeepsTransferInHeader(mode, parseReal, attrs, s);
    case Codes => StepKeepsTransferInCodes(mode, parseReal, attrs, s);
    case Lists => StepKeepsTransferInLists(mode, parseReal, attrs, s);
    case Others => StepKeepsTransferInOthers(mode, parseReal, attrs, s);
  }

  lemma StepKeepsTransferInHeader(mode: SplitCheck, parseReal: string -> Option<real>, attrs: seq<Attr>, s: Scratch)
    requires |attrs| > 0 && GroupOf(FieldOf(attrs[|attrs| - 1].0)) == Header
    requires TransferAgrees(attrs[..|attrs| - 1], s) && Step(mode, parseReal, s, attrs[|attrs| - 1]).Ok?
    ensures TransferAgrees(attrs, Step(mode, parseReal, s, attrs[|attrs| - 1]).value)
  {
    match FieldOf(attrs[|attrs| - 1].0) {
      case Account =>
      case Amount =>
      case Category =>
      case Date =>
      case _ =>
    }
  }

  lemma StepKeepsTransferInCodes(mode: SplitCheck, parseReal: string -> Option<real>, attrs: seq<Attr>, s: Scratch)
    requires |attrs| > 0 && GroupOf(FieldOf(attrs[|attrs| - 1].0)) == Codes
    requires TransferAgrees(attrs[..|attrs| - 1], s) && Step(mode, parseReal, s, attrs[|attrs| - 1]).Ok?
    ensures TransferAgrees(attrs, Step(mode, parseReal, s, attrs[|attrs| - 1]).value)
  {
    match FieldOf(attrs[|attrs| - 1].0) {
      case Paymode =>
      case St =>
      case Flags =>
      case Payee =>
      case _ =>
    }
  }

  lemma StepKeepsTransferInLists(mode: SplitCheck, parseReal: string -> Option<real>, attrs: seq<Attr>, s: Scratch)
    requires |attrs| > 0 && GroupOf(FieldOf(attrs[|attrs| - 1].0)) == Lists
    requires TransferAgrees(attrs[..|attrs| - 1], s) && Step(mode, parseReal, s, attrs[|attrs| - 1]).Ok?
    ensures TransferAgrees(attrs, Step(mode, parseReal, s, attrs[|attrs| - 1]).value)
  {
    match FieldOf(attrs[|attrs| - 1].0) {
      case Scat =>
      case Samt =>
      case Smem =>
      case _ =>
    }
  }

  lemma StepKeepsTransferInOthers(mode: SplitCheck, parseReal: string -> Option<real>, attrs: seq<Attr>, s: Scratch)
    requires |attrs| > 0 && GroupOf(FieldOf(attrs[|attrs| - 1].0)) == Others
    requires TransferAgrees(attrs[..|attrs| - 1], s) && Step(mode, parseReal, s, attrs[|attrs| - 1]).Ok?
    ensures TransferAgrees(attrs, Step(mode, parseReal, s, attrs[|attrs| - 1]).value)
  {
    match FieldOf(attrs[|attrs| - 1].0) {
      case Wording =>
      case Tags =>
      case DstAccount =>
      case Kxfer =>
      case Unknown =>
      case _ =>
    }
  }


  lemma TransferInvariant(mode: SplitCheck, parseReal: string -> Option<real>, attrs: seq<Attr>, s: Scratch)
    requires Fold(Start(), attrs, StepWith(mode, parseReal)) == Ok(s)
    ensures TransferAgrees(attrs, s)
  {
    var step := StepWith(mode, parseReal);
    var inv := (pre: seq<Attr>, t: Scratch) => TransferAgrees(pre, t);
    forall pre, t, a | inv(pre, t) && step(t, a).Ok?
      ensures inv(pre + [a], step(t, a).value)
    {
      assert (pre + [a])[..|pre + [a]| - 1] == pre;
      StepKeepsTransfer(mode, parseReal, pre + [a], t);
    }
    FoldInvariant(Start(), attrs, step, inv);
  }

  /**
   * A successful loop never saw both a category and a split list; it marks
   * the entry simple after a category and split after a split list, and the
   * simple category is the last one read.
   */
  predicate ComplexityAgrees(attrs: seq<Attr>, s: Scratch) {
    && !(HasCategory(attrs) && HasSplit(attrs))
    && s.isSimple == (if HasCategory(attrs) then Some(true) else if HasSplit(attrs) then Some(false) else Option.None)
    && s.simple.category == LastUsize(attrs, Category)
  }

  lemma StepKeepsComplexity(mode: SplitCheck, parseReal: string -> Option<real>, attrs: seq<Attr>, s: Scratch)
    requires |attrs| > 0 && ComplexityAgrees(attrs[..|attrs| - 1], s) && Step(mode, parseReal, s, attrs[|attrs| - 1]).Ok?
    ensures ComplexityAgrees(attrs, Step(mode, parseReal, s, attrs[|attrs| - 1]).value)
  {
    match GroupOf(FieldOf(attrs[|attrs| - 1].0))
    case Header => StepKeepsComplexityInHeader(mode, parseReal, attrs, s);
    case Codes => StepKeepsComplexityInCodes(mode, parseReal, attrs, s);
    case Lists => StepKeepsComplexityInLists(mode, parseReal, attrs, s);
    case Others => StepKeepsComplexityInOthers(mode, parseReal, attrs, s);
  }

  lemma StepKeepsComplexityInHeader(mode: SplitCheck, parseReal: string -> Option<real>, attrs: seq<Attr>, s: Scratch)
    requires |attrs| > 0 && GroupOf(FieldOf(attrs[|attrs| - 1].0)) == Header
    requires ComplexityAgrees(attrs[..|attrs| - 1], s) && Step(mode, parseReal, s, attrs[|attrs| - 1]).Ok?
    ensures ComplexityAgrees(attrs, Step(mode, parseReal, s, attrs[|attrs| - 1]).value)
  {
    match FieldOf(attrs[|attrs| - 1].0) {
      case Account =>
      case Amount =>
      case Category =>
      case Date =>
      case _ =>
    }
  }

  lemma StepKeepsComplexityInCodes(mode: SplitCheck, parseReal: string -> Option<real>, attrs: seq<Attr>, s: Scratch)
    requires |attrs| > 0 && GroupOf(FieldOf(attrs[|attrs| - 1].0)) == Codes
    requires ComplexityAgrees(attrs[..|attrs| - 1], s) && Step(mode, parseReal, s, attrs[|attrs| - 1]).Ok?
    ensures ComplexityAgrees(attrs, Step(mode, parseReal, s, attrs[|attrs| - 1]).value)
  {
    match FieldOf(attrs[|attrs| - 1].0) {
      case Paymode =>
      case St =>
      case Flags =>
      case Payee =>
      case _ =>
    }
  }

  lemma StepKeepsComplexityInLists(mode: SplitCheck, parseReal: string -> Option<real>, attrs: seq<Attr>, s: Scratch)
    requires |attrs| > 0 && GroupOf(FieldOf(attrs[|attrs| - 1].0)) == Lists
    requires ComplexityAgrees(attrs[..|attrs| - 1], s) && Step(mode, parseReal, s, attrs[|attrs| - 1]).Ok?
    ensures ComplexityAgrees(attrs, Step(mode, parseReal, s, attrs[|attrs| - 1]).value)
  {
    match FieldOf(attrs[|attrs| - 1].0) {
      case Scat =>
      case Samt =>
      case Smem =>
      case _ =>
    }
  }

  lemma StepKeepsComplexityInOthers(mode: SplitCheck, parseReal: string -> Option<real>, attrs: seq<Attr>, s: Scratch)
    requires |attrs| > 0 && GroupOf(FieldOf(attrs[|attrs| - 1].0)) == Others
    requires ComplexityAgrees(attrs[..|attrs| - 1], s) && Step(mode, parseReal, s, attrs[|attrs| - 1]).Ok?
    ensures ComplexityAgrees(attrs, Step(mode, parseReal, s, attrs[|attrs| - 1]).value)
  {
    match FieldOf(attrs[|attrs| - 1].0) {
      case Wording =>
      case Tags =>
      case DstAccount =>
      case Kxfer =>
      case Unknown =>
      case _ =>
    }
  }


  lemma ComplexityInvariant(mode: SplitCheck, parseReal: string -> Option<real>, attrs: seq<Attr>, s: Scratch)
    requires Fold(Start(), attrs, StepWith(mode, parseReal)) == Ok(s)
    ensures ComplexityAgrees(attrs, s)
  {
    var step := StepWith(mode, parseReal);
    var inv := (pre: seq<Attr>, t: Scratch) => ComplexityAgrees(pre, t);
    forall pre, t, a | inv(pre, t) && step(t, a).Ok?
      ensures inv(pre + [a], step(t, a).value)
    {
      assert (pre + [a])[..|pre + [a]| - 1] == pre;
      StepKeepsComplexity(mode, parseReal, pre + [a], t);
    }
    FoldInvariant(Start(), attrs, step, inv);
  }

  /** The entries of the last `scat` list read, or none. */
  function LastCategories(attrs: seq<Attr>): seq<Option<nat>> {
    match LastOf(attrs, FieldOf, Scat)
    case None => []
    case Some(v) =>
      match ParseSplitCategories(ParseSplitValues(v))
      case Ok(cats) => cats
      case Err(_) => []
  }

  /** The entries of the last `samt` list read, or none. */
  function LastAmounts(parseReal: string -> Option<real>, attrs: seq<Attr>): seq<real> {
    match LastOf(attrs, FieldOf, Samt)
    case None => []
    case Some(v) =>
      match ParseSplitAmounts(parseReal, ParseSplitValues(v))
      case Ok(amounts) => amounts
      case Err(_) => []
  }

  /** The entries of the last `smem` list read, or none. */
  function LastMemos(attrs: seq<Attr>): seq<Option<string>> {
    match LastOf(attrs, FieldOf, Smem)
    case None => []
    case Some(v) => ParseSplitMemos(ParseSplitValues(v))
  }

  /** The number of entries in the last split list of any kind, or 0. */
  function LastSplitCount(attrs: seq<Attr>): nat {
    match LastSplitValue(attrs)
    case None => 0
    case Some(v) => |ParseSplitValues(v)|
  }

  /**
   * The split breakdown holds the last list of each kind, and as many splits
   * as the last split list of any kind has entries.
   */
  predicate SplitAgrees(parseReal: string -> Option<real>, attrs: seq<Attr>, s: Scratch) {
    s.split == SplitTransaction(LastSplitCount(attrs), LastCategories(attrs), LastAmounts(parseReal, attrs), LastMemos(attrs))
  }

  lemma StepKeepsSplit(mode: SplitCheck, parseReal: string -> Option<real>, attrs: seq<Attr>, s: Scratch)
    requires |attrs| > 0 && LoopShape(s)
    requires SplitAgrees(parseReal, attrs[..|attrs| - 1], s) && Step(mode, parseReal, s, attrs[|attrs| - 1]).Ok?
    ensures SplitAgrees(parseReal, attrs, Step(mode, parseReal, s, attrs[|attrs| - 1]).value)
  {
    match GroupOf(FieldOf(attrs[|attrs| - 1].0))
    case Header => StepKeepsSplitInHeader(mode, parseReal, attrs, s);
    case Codes => StepKeepsSplitInCodes(mode, parseReal, attrs, s);
    case Lists =>
      match FieldOf(attrs[|attrs| - 1].0) {
        case Scat => StepKeepsSplitOnScat(mode, parseReal, attrs, s);
        case Samt => StepKeepsSplitOnSamt(mode, parseReal, attrs, s);
        case Smem => StepKeepsSplitOnSmem(mode, parseReal, attrs, s);
        case _ =>
      }
    case Others => StepKeepsSplitInOthers(mode, parseReal, attrs, s);
  }

  lemma StepKeepsSplitInHeader(mode: SplitCheck, parseReal: string -> Option<real>, attrs: seq<Attr>, s: Scratch)
    requires |attrs| > 0 && GroupOf(FieldOf(attrs[|attrs| - 1].0)) == Header && LoopShape(s)
    requires SplitAgrees(parseReal, attrs[..|attrs| - 1], s) && Step(mode, parseReal, s, attrs[|attrs| - 1]).Ok?
    ensures SplitAgrees(parseReal, attrs, Step(mode, parseReal, s, attrs[|attrs| - 1]).value)
  {
    match FieldOf(attrs[|attrs| - 1].0) {
      case Account =>
      case Amount =>
      case Category =>
      case Date =>
      case _ =>
    }
  }

  lemma StepKeepsSplitInCodes(mode: SplitCheck, parseReal: string -> Option<real>, attrs: seq<Attr>, s: Scratch)
    requires |attrs| > 0 && GroupOf(FieldOf(attrs[|attrs| - 1].0)) == Codes && LoopShape(s)
    requires SplitAgrees(parseReal, attrs[..|attrs| - 1], s) && Step(mode, parseReal, s, attrs[|attrs| - 1]).Ok?
    ensures SplitAgrees(parseReal, attrs, Step(mode, parseReal, s, attrs[|attrs| - 1]).value)
  {
    match FieldOf(attrs[|attrs| - 1].0) {
      case Paymode =>
      case St =>
      case Flags =>
      case Payee =>
      case _ =>
    }
  }

  lemma StepKeepsSplitOnScat(mode: SplitCheck, parseReal: string -> Option<real>, attrs: seq<Attr>, s: Scratch)
    requires |attrs| > 0 && FieldOf(attrs[|attrs| - 1].0) == Scat && LoopShape(s)
    requires SplitAgrees(parseReal, attrs[..|attrs| - 1], s) && Step(mode, parseReal, s, attrs[|attrs| - 1]).Ok?
    ensures SplitAgrees(parseReal, attrs, Step(mode, parseReal, s, attrs[|attrs| - 1]).value)
  {
  }

  lemma StepKeepsSplitOnSamt(mode: SplitCheck, parseReal: string -> Option<real>, attrs: seq<Attr>, s: Scratch)
    requires |attrs| > 0 && FieldOf(attrs[|attrs| - 1].0) == Samt && LoopShape(s)
    requires SplitAgrees(parseReal, attrs[..|attrs| - 1], s) && Step(mode, parseReal, s, attrs[|attrs| - 1]).Ok?
    ensures SplitAgrees(parseReal, attrs, Step(mode, parseReal, s, attrs[|attrs| - 1]).value)
  {
  }

  lemma StepKeepsSplitOnSmem(mode: SplitCheck, parseReal: string -> Option<real>, attrs: seq<Attr>, s: Scratch)
    requires |attrs| > 0 && FieldOf(attrs[|attrs| - 1].0) == Smem && LoopShape(s)
    requires SplitAgrees(parseReal, attrs[..|attrs| - 1], s) && Step(mode, parseReal, s, attrs[|attrs| - 1]).Ok?
    ensures SplitAgrees(parseReal, attrs, Step(mode, parseReal, s, attrs[|attrs| - 1]).value)
  {
  }


  lemma StepKeepsSplitInOthers(mode: SplitCheck, parseReal: string -> Option<real>, attrs: seq<Attr>, s: Scratch)
    requires |attrs| > 0 && GroupOf(FieldOf(attrs[|attrs| - 1].0)) == Others && LoopShape(s)
    requires SplitAgrees(parseReal, attrs[..|attrs| - 1], s) && Step(mode, parseReal, s, attrs[|attrs| - 1]).Ok?
    ensures SplitAgrees(parseReal, attrs, Step(mode, parseReal, s, attrs[|attrs| - 1]).value)
  {
    match FieldOf(attrs[|attrs| - 1].0) {
      case Wording =>
      case Tags =>
      case DstAccount =>
      case Kxfer =>
      case Unknown =>
      case _ =>
    }
  }

  /** Before any attribute, the split breakdown is empty. */
  lemma SplitStart(parseReal: string -> Option<real>)
    ensures LoopShape(Start()) && SplitAgrees(parseReal, [], Start())
  {
    assert Start().split == SplitTransaction(0, [], [], []);
  }

  lemma SplitInvariant(mode: SplitCheck, parseReal: string -> Option<real>, attrs: seq<Attr>, s: Scratch)
    requires Fold(Start(), attrs, StepWith(mode, parseReal)) == Ok(s)
    ensures SplitAgrees(parseReal, attrs, s)
  {
    var step := StepWith(mode, parseReal);
    var inv := (pre: seq<Attr>, t: Scratch) => LoopShape(t) && SplitAgrees(parseReal, pre, t);
    SplitStart(parseReal);
    forall pre, t, a | inv(pre, t) && step(t, a).Ok?
      ensures inv(pre + [a], step(t, a).value)
    {
      assert (pre + [a])[..|pre + [a]| - 1] == pre;
      StepKeepsShape(mode, parseReal, t, a);
      StepKeepsSplit(mode, parseReal, pre + [a], t);
    }
    FoldInvariant(Start(), attrs, step, inv);
  }

}
