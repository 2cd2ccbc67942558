/**
 * `Transaction::try_from`: a `<ope>` element's attributes, visited in
 * document order, fill in a transaction.  While the attributes are read the
 * decoder keeps scratch state on the side -- whether a transfer was seen,
 * its link, whether the entry is simple or split, and the simple and split
 * breakdowns built so far -- and only after the last attribute settles the
 * transaction's type and complexity.
 */
module TransactionDecoder {
  import opened Wrappers
  import opened Strings
  import opened Attributes
  import opened TransactionErrors
  import opened TransactionDate
  import PayModes
  import TransactionStatuses
  import opened TransactionTypes
  import opened TransactionComplexity
  import opened TransactionSplit
  import opened TransactionTags
  import opened Transactions

  /**
   * How the split lists are checked against each other.  `AsWritten` tests
   * the transaction under construction, whose complexity is only assigned
   * after the loop; `Corrected` tests whether a split list was already read,
   * and also insists that every split list was given.
   */
  datatype SplitCheck = AsWritten | Corrected

  /** Everything the decoding loop carries from one attribute to the next. */
  datatype Scratch = Scratch(
    tr: Transaction,
    isTransfer: bool,
    xfer: Transfer,
    isSimple: Option<bool>,
    simple: SimpleTransaction,
    split: SplitTransaction)

  /** The state before the first attribute. */
  function Start(): (s: Scratch)
    ensures s.tr == Transactions.Empty() && !s.isTransfer && s.isSimple.None?
  {
    Scratch(Transactions.Empty(), false, EMPTY_TRANSFER, Option.None, EMPTY_SIMPLE, TransactionSplit.Empty())
  }

  /** The attributes a transaction element may carry; any other is ignored. */
  datatype AttrName =
    | Account | Amount | Category | Date | Paymode | St | Flags | Payee | Wording | Tags
    | Scat | Samt | Smem | DstAccount | Kxfer
    | Unknown

  /** Which attribute a name denotes. */
  function FieldOf(name: string): AttrName {
    match name
    case "account" => Account
    case "amount" => Amount
    case "category" => Category
    case "date" => Date
    case "paymode" => Paymode
    case "st" => St
    case "flags" => Flags
    case "payee" => Payee
    case "wording" => Wording
    case "tags" => Tags
    case "scat" => Scat
    case "samt" => Samt
    case "smem" => Smem
    case "dst_account" => DstAccount
    case "kxfer" => Kxfer
    case _ => Unknown
  }

  /** The spelling of a known attribute. */
  function NameOf(f: AttrName): string
    requires f != Unknown
  {
    match f
    case Account => "account"
    case Amount => "amount"
    case Category => "category"
    case Date => "date"
    case Paymode => "paymode"
    case St => "st"
    case Flags => "flags"
    case Payee => "payee"
    case Wording => "wording"
    case Tags => "tags"
    case Scat => "scat"
    case Samt => "samt"
    case Smem => "smem"
    case DstAccount => "dst_account"
    case Kxfer => "kxfer"
  }

  /** Each known attribute is recognised by its own spelling and no other. */
  lemma FieldOfNameOf(f: AttrName, name: string)
    requires f != Unknown
    ensures FieldOf(name) == f <==> name == NameOf(f)
  {
  }

  /** The three split lists. */
  predicate IsSplitField(f: AttrName) {
    f == Scat || f == Samt || f == Smem
  }

  /**
   * The length check run on a split list of `len` entries; on success, the
   * split count to store.
   */
  function SplitLength(mode: SplitCheck, s: Scratch, len: nat): (r: Result<nat, TransactionError>)
    ensures r.Ok? && mode == Corrected ==> r.value == len
    ensures r.Err? ==> r.error.MismatchedSplitNumber? && r.error.found == len
  {
    match mode
    case AsWritten =>
      if !s.tr.complexity.Split? then Ok(len)
      else if len != NumSplits(s.tr.complexity) then Err(MismatchedSplitNumber(NumSplits(s.tr.complexity), len))
      else Ok(s.split.numSplits)
    case Corrected =>
      if s.isSimple != Some(false) then Ok(len)
      else if len != s.split.numSplits then Err(MismatchedSplitNumber(s.split.numSplits, len))
      else Ok(len)
  }

  /** The decoding loop's body: one attribute read into the scratch state. */
  function Step(mode: SplitCheck, parseReal: string -> Option<real>, s: Scratch, a: Attr): Result<Scratch, TransactionError> {
    var (name, value) := a;
    match FieldOf(name)
    case Account => ReadAccount(s, value)
    case Amount => ReadAmount(parseReal, s, value)
    case Category => ReadCategory(s, value)
    case Date => ReadDate(s, value)
    case Paymode => ReadPayMode(s, value)
    case St => ReadStatus(s, value)
    case Flags => ReadFlags(s, value)
    case Payee => ReadPayee(s, value)
    case Wording => ReadWording(s, value)
    case Tags => ReadTags(s, value)
    case Scat => ReadCategories(mode, s, value)
    case Samt => ReadAmounts(mode, parseReal, s, value)
    case Smem => ReadMemos(mode, s, value)
    case DstAccount => ReadDestination(s, value)
    case Kxfer => ReadTransferKey(s, value)
    case Unknown => Ok(s)
  }

  /**
   * An unknown attribute changes nothing, only a transfer attribute marks a
   * transfer, a split list makes the entry split, and once the entry is
   * simple or split it stays so.
   */
  lemma StepShape(mode: SplitCheck, parseReal: string -> Option<real>, s: Scratch, a: Attr)
    ensures FieldOf(a.0) == Unknown ==> Step(mode, parseReal, s, a) == Ok(s)
    ensures var r := Step(mode, parseReal, s, a);
      r.Ok? ==> (r.value.isTransfer <==> s.isTransfer || FieldOf(a.0) == DstAccount || FieldOf(a.0) == Kxfer)
    ensures var r := Step(mode, parseReal, s, a);
      r.Ok? && s.isSimple == Some(true) ==> r.value.isSimple == Some(true)
    ensures var r := Step(mode, parseReal, s, a);
      r.Ok? && s.isSimple == Some(false) ==> r.value.isSimple == Some(false)
    ensures var r := Step(mode, parseReal, s, a);
      r.Ok? && IsSplitField(FieldOf(a.0)) ==> r.value.isSimple == Some(false)
  {
  }

  function ReadAccount(s: Scratch, value: string): Result<Scratch, TransactionError> {
    match ParseUsize(value)
    case Some(n) => Ok(s.(tr := s.tr.(account := n)))
    case None => Err(InvalidAccount)
  }

  /** The amount also decides income or expense, unless the entry is already a transfer. */
  function ReadAmount(parseReal: string -> Option<real>, s: Scratch, value: string): Result<Scratch, TransactionError> {
    match parseReal(value)
    case Some(x) =>
      var ttype := if IsTransfer(s.tr.ttype) then s.tr.ttype else if x > 0.0 then Income else Expense;
      Ok(s.(tr := s.tr.(amount := x, ttype := ttype), simple := s.simple.(amount := x)))
    case None => Err(InvalidAmount)
  }

  /** A category makes the entry simple; after a split list it is a conflict. */
  function ReadCategory(s: Scratch, value: string): Result<Scratch, TransactionError> {
    if s.isSimple == Some(false) then Err(ConflictingInfoSimpleSplitTransaction)
    else
      match ParseUsize(value)
      case Some(c) => Ok(s.(isSimple := Some(true), simple := s.simple.(category := Some(c))))
      case None => Err(InvalidCategory(value))
  }

  function ReadDate(s: Scratch, value: string): Result<Scratch, TransactionError> {
    match ParseU32(value)
    case Some(d) => Ok(s.(tr := s.tr.(date := JulianDate(d))))
    case None => Err(InvalidDate)
  }

  /** A code that parses but names no pay mode fails with the pay-mode conversion's own error. */
  function ReadPayMode(s: Scratch, value: string): Result<Scratch, TransactionError> {
    match ParseUsize(value)
    case Some(n) =>
      (match PayModes.TryFrom(n)
       case Ok(pm) => Ok(s.(tr := s.tr.(payMode := pm)))
       case Err(e) => Err(e))
    case None => Err(InvalidPayMode)
  }

  function ReadStatus(s: Scratch, value: string): Result<Scratch, TransactionError> {
    match ParseUsize(value)
    case Some(n) =>
      (match TransactionStatuses.TryFrom(n)
       case Ok(st) => Ok(s.(tr := s.tr.(status := st)))
       case Err(e) => Err(e))
    case None => Err(InvalidStatus)
  }

  function ReadFlags(s: Scratch, value: string): Result<Scratch, TransactionError> {
    match ParseUsize(value)
    case Some(f) => Ok(s.(tr := s.tr.(flags := Some(f))))
    case None => Err(InvalidFlags)
  }

  function ReadPayee(s: Scratch, value: string): Result<Scratch, TransactionError> {
    match ParseUsize(value)
    case Some(p) => Ok(s.(tr := s.tr.(payee := Some(p))))
    case None => Err(InvalidPayee)
  }

  /** The memo goes to the transaction, and to the simple breakdown unless a split list was read. */
  function ReadWording(s: Scratch, value: string): Result<Scratch, TransactionError> {
    var memo := if value == "" then Option.None else Some(value);
    if s.isSimple == Some(false) then Ok(s.(tr := s.tr.(memo := memo)))
    else Ok(s.(tr := s.tr.(memo := memo), simple := s.simple.(memo := memo)))
  }

  function ReadTags(s: Scratch, value: string): Result<Scratch, TransactionError> {
    var tags := SplitTags(value);
    Ok(s.(tr := s.tr.(tags := if tags == [] then Option.None else Some(tags))))
  }

  /** A split list makes the entry split; after a category it is a conflict. */
  function ReadCategories(mode: SplitCheck, s: Scratch, value: string): Result<Scratch, TransactionError> {
    if s.isSimple == Some(true) then Err(ConflictingInfoSimpleSplitTransaction)
    else
      var raw := ParseSplitValues(value);
      match ParseSplitCategories(raw)
      case Err(e) => Err(e)
      case Ok(cats) =>
        match SplitLength(mode, s, |raw|)
        case Err(e) => Err(e)
        case Ok(n) => Ok(s.(isSimple := Some(false), split := s.split.(numSplits := n, categories := cats)))
  }

  function ReadAmounts(mode: SplitCheck, parseReal: string -> Option<real>, s: Scratch, value: string): Result<Scratch, TransactionError> {
    if s.isSimple == Some(true) then Err(ConflictingInfoSimpleSplitTransaction)
    else
      var raw := ParseSplitValues(value);
      match ParseSplitAmounts(parseReal, raw)
      case Err(e) => Err(e)
      case Ok(amounts) =>
        match SplitLength(mode, s, |raw|)
        case Err(e) => Err(e)
        case Ok(n) => Ok(s.(isSimple := Some(false), split := s.split.(numSplits := n, amounts := amounts)))
  }

  function ReadMemos(mode: SplitCheck, s: Scratch, value: string): Result<Scratch, TransactionError> {
    if s.isSimple == Some(true) then Err(ConflictingInfoSimpleSplitTransaction)
    else
      var raw := ParseSplitValues(value);
      var memos := ParseSplitMemos(raw);
      match SplitLength(mode, s, |raw|)
      case Err(e) => Err(e)
      case Ok(n) => Ok(s.(isSimple := Some(false), split := s.split.(numSplits := n, memos := memos)))
  }

  /** Either half of a transfer link marks the entry as a transfer. */
  function ReadDestination(s: Scratch, value: string): Result<Scratch, TransactionError> {
    match ParseUsize(value)
    case Some(d) => Ok(s.(isTransfer := true, xfer := s.xfer.(destination := d)))
    case None => Err(InvalidDestinationAccount)
  }

  function ReadTransferKey(s: Scratch, value: string): Result<Scratch, TransactionError> {
    match ParseUsize(value)
    case Some(k) => Ok(s.(isTransfer := true, xfer := s.xfer.(transferKey := k)))
    case None => Err(InvalidTransferKey)
  }


  /** `Step` as the function value the fold takes. */
  function StepWith(mode: SplitCheck, parseReal: string -> Option<real>): (Scratch, Attr) -> Result<Scratch, TransactionError> {
    (s, a) => Step(mode, parseReal, s, a)
  }

  /**
   * The corrected completeness check on the split lists: each one holds
   * exactly one entry per split, or the first that does not is reported.
   */
  function CheckSplitLists(sp: SplitTransaction): (r: Result<SplitTransaction, TransactionError>)
    ensures r.Ok? <==> sp.WellFormed()
    ensures r.Ok? ==> r.value == sp
    ensures r.Err? ==> r.error.MismatchedSplitNumber? && r.error.expected == sp.numSplits &&
                       r.error.found in {|sp.categories|, |sp.amounts|, |sp.memos|} &&
                       r.error.found != sp.numSplits
  {
    if |sp.categories| != sp.numSplits then Err(MismatchedSplitNumber(sp.numSplits, |sp.categories|))
    else if |sp.amounts| != sp.numSplits then Err(MismatchedSplitNumber(sp.numSplits, |sp.amounts|))
    else if |sp.memos| != sp.numSplits then Err(MismatchedSplitNumber(sp.numSplits, |sp.memos|))
    else Ok(sp)
  }

  /**
   * What runs after the loop: a transfer must link a non-zero key (checked
   * first) to a non-zero destination, and the simple or split breakdown that
   * was read becomes the transaction's complexity.
   */
  function Finish(mode: SplitCheck, s: Scratch): (r: Result<Transaction, TransactionError>)
    ensures s.isTransfer && s.xfer.transferKey == 0 ==> r == Err(InvalidTransferKey)
    ensures s.isTransfer && s.xfer.transferKey != 0 && s.xfer.destination == 0 ==> r == Err(InvalidDestinationAccount)
    ensures r.Ok? && s.isTransfer ==> r.value.ttype == TransferOf(s.xfer)
    ensures r.Ok? && !s.isTransfer ==> r.value.ttype == s.tr.ttype
    ensures r.Ok? ==> r.value.(ttype := s.tr.ttype, complexity := s.tr.complexity) == s.tr
    ensures r.Ok? && s.isSimple == Some(false) ==> r.value.complexity == Split(s.split)
    ensures r.Ok? && s.isSimple == Some(true) ==> r.value.complexity == Simple(s.simple)
    ensures r.Ok? && s.isSimple.None? ==> r.value.complexity == s.tr.complexity
    ensures mode == Corrected && r.Ok? && s.isSimple == Some(false) ==> s.split.WellFormed()
  {
    if s.isTransfer && s.xfer.transferKey == 0 then Err(InvalidTransferKey)
    else if s.isTransfer && s.xfer.destination == 0 then Err(InvalidDestinationAccount)
    else
      var tr := if s.isTransfer then s.tr.(ttype := TransferOf(s.xfer)) else s.tr;
      match s.isSimple
      case Some(false) =>
        if mode == Corrected then
          (match CheckSplitLists(s.split)
           case Err(e) => Err(e)
           case Ok(sp) => Ok(tr.(complexity := Split(sp))))
        else Ok(tr.(complexity := Split(s.split)))
      case Some(true) => Ok(tr.(complexity := Simple(s.simple)))
      case None => Ok(tr)
  }

  /**
   * The whole decoder: the loop over the attributes, then `Finish`. Past
   * the loop only the transfer link and, when checked, the split lists can
   * fail; an element without attributes is the empty transaction.
   */
  function Decoded(mode: SplitCheck, parseReal: string -> Option<real>, attrs: seq<Attr>): (r: Result<Transaction, TransactionError>)
    ensures attrs == [] ==> r == Ok(Transactions.Empty())
    ensures Fold(Start(), attrs, StepWith(mode, parseReal)).Ok? && r.Err? ==>
              r.error == InvalidTransferKey || r.error == InvalidDestinationAccount || (mode == Corrected && r.error.MismatchedSplitNumber?)
  {
    match Fold(Start(), attrs, StepWith(mode, parseReal))
    case Err(e) => Err(e)
    case Ok(s) => Finish(mode, s)
  }

  /**
   * `Transaction::try_from` as written: once the loop accepts every
   * attribute, only the transfer link is checked, never the split lists.
   */
  function DecodeAsWritten(parseReal: string -> Option<real>, attrs: seq<Attr>): (r: Result<Transaction, TransactionError>)
    ensures Fold(Start(), attrs, StepWith(AsWritten, parseReal)).Ok? && r.Err? ==>
              r.error == InvalidTransferKey || r.error == InvalidDestinationAccount
  {
    Decoded(AsWritten, parseReal, attrs)
  }

  /**
   * `Transaction::try_from` with the split lists checked against each other:
   * a split entry the loop read is accepted only when its lists line up.
   */
  function Decode(parseReal: string -> Option<real>, attrs: seq<Attr>): (r: Result<Transaction, TransactionError>)
    ensures var f := Fold(Start(), attrs, StepWith(Corrected, parseReal));
      r.Ok? && f.Ok? && f.value.isSimple == Some(false) ==> f.value.split.WellFormed() && r.value.complexity == Split(f.value.split)
  {
    Decoded(Corrected, parseReal, attrs)
  }

  /** An attribute the loop rejects ends the decode with its error. */
  lemma StepFails(mode: SplitCheck, parseReal: string -> Option<real>, attrs: seq<Attr>, i: nat, s: Scratch, e: TransactionError)
    requires i < |attrs| && Fold(Start(), attrs[..i], StepWith(mode, parseReal)) == Ok(s)
    requires Step(mode, parseReal, s, attrs[i]) == Err(e)
    ensures Decoded(mode, parseReal, attrs) == Err(e)
  {
    FoldStepFails(Start(), attrs, i, StepWith(mode, parseReal), s, e);
  }

  /**
   * `Transaction::try_from` as written: the loop updates the transaction and
   * the scratch state attribute by attribute and returns at the first error.
   * A split list is checked against the transaction under construction,
   * which only becomes split after the loop.
   */
  method TryFrom(parseReal: string -> Option<real>, attrs: seq<Attr>) returns (r: Result<Transaction, TransactionError>)
    ensures r == DecodeAsWritten(parseReal, attrs)
  {
    var tr := Transactions.Empty();
    var isTransfer := false;
    var xfer := EMPTY_TRANSFER;
    var isSimple: Option<bool> := Option.None;
    var simple := EMPTY_SIMPLE;
    var split := TransactionSplit.Empty();
    ghost var step := StepWith(AsWritten, parseReal);

    var i := 0;
    while i < |attrs|
      invariant 0 <= i <= |attrs|
      invariant Fold(Start(), attrs[..i], step) == Ok(Scratch(tr, isTransfer, xfer, isSimple, simple, split))
    {
      ghost var before := Scratch(tr, isTransfer, xfer, isSimple, simple, split);
      var (name, value) := attrs[i];
      match FieldOf(name) {
        case Account =>
          var n := ParseUsize(value);
          if n.None? {
            StepFails(AsWritten, parseReal, attrs, i, before, InvalidAccount);
            return Err(InvalidAccount);
          }
          tr := tr.(account := n.value);
        case Amount =>
          var x := parseReal(value);
          if x.None? {
            StepFails(AsWritten, parseReal, attrs, i, before, InvalidAmount);
            return Err(InvalidAmount);
          }
          tr := tr.(amount := x.value);
          simple := simple.(amount := x.value);
          if !IsTransfer(tr.ttype) {
            if x.value > 0.0 {
              tr := tr.(ttype := Income);
            } else {
              tr := tr.(ttype := Expense);
            }
          }
        case Category =>
          if isSimple == Some(false) {
            StepFails(AsWritten, parseReal, attrs, i, before, ConflictingInfoSimpleSplitTransaction);
            return Err(ConflictingInfoSimpleSplitTransaction);
          }
          isSimple := Some(true);
          var c := ParseUsize(value);
          if c.None? {
            StepFails(AsWritten, parseReal, attrs, i, before, InvalidCategory(value));
            return Err(InvalidCategory(value));
          }
          simple := simple.(category := c);
        case Date =>
          var d := ParseU32(value);
          if d.None? {
            StepFails(AsWritten, parseReal, attrs, i, before, InvalidDate);
            return Err(InvalidDate);
          }
          tr := tr.(date := JulianDate(d.value));
        case Paymode =>
          var n := ParseUsize(value);
          if n.None? {
            StepFails(AsWritten, parseReal, attrs, i, before, InvalidPayMode);
            return Err(InvalidPayMode);
          }
          var pm := PayModes.TryFrom(n.value);
          if pm.Err? {
            StepFails(AsWritten, parseReal, attrs, i, before, pm.error);
            return Err(pm.error);
          }
          tr := tr.(payMode := pm.value);
        case St =>
          var n := ParseUsize(value);
          if n.None? {
            StepFails(AsWritten, parseReal, attrs, i, before, InvalidStatus);
            return Err(InvalidStatus);
          }
          var st := TransactionStatuses.TryFrom(n.value);
          if st.Err? {
            StepFails(AsWritten, parseReal, attrs, i, before, st.error);
            return Err(st.error);
          }
          tr := tr.(status := st.value);
        case Flags =>
          var f := ParseUsize(value);
          if f.None? {
            StepFails(AsWritten, parseReal, attrs, i, before, InvalidFlags);
            return Err(InvalidFlags);
          }
          tr := tr.(flags := f);
        case Payee =>
          var p := ParseUsize(value);
          if p.None? {
            StepFails(AsWritten, parseReal, attrs, i, before, InvalidPayee);
            return Err(InvalidPayee);
          }
          tr := tr.(payee := p);
        case Wording =>
          var memo := if value == "" then Option.None else Some(value);
          tr := tr.(memo := memo);
          if isSimple != Some(false) {
            simple := simple.(memo := memo);
          }
        case Tags =>
          var tags := SplitTags(value);
          if tags == [] {
            tr := tr.(tags := Option.None);
          } else {
            tr := tr.(tags := Some(tags));
          }
        case Scat =>
          if isSimple == Some(true) {
            StepFails(AsWritten, parseReal, attrs, i, before, ConflictingInfoSimpleSplitTransaction);
            return Err(ConflictingInfoSimpleSplitTransaction);
          }
          isSimple := Some(false);
          var raw := ParseSplitValues(value);
          var cats := ParseSplitCategories(raw);
          if cats.Err? {
            StepFails(AsWritten, parseReal, attrs, i, before, cats.error);
            return Err(cats.error);
          }
          if !tr.complexity.Split? {
            split := split.(numSplits := |raw|, categories := cats.value);
          } else if |raw| != NumSplits(tr.complexity) {
            StepFails(AsWritten, parseReal, attrs, i, before, MismatchedSplitNumber(NumSplits(tr.complexity), |raw|));
            return Err(MismatchedSplitNumber(NumSplits(tr.complexity), |raw|));
          } else {
            split := split.(categories := cats.value);
          }
        case Samt =>
          if isSimple == Some(true) {
            StepFails(AsWritten, parseReal, attrs, i, before, ConflictingInfoSimpleSplitTransaction);
            return Err(ConflictingInfoSimpleSplitTransaction);
          }
          isSimple := Some(false);
          var raw := ParseSplitValues(value);
          var amounts := ParseSplitAmounts(parseReal, raw);
          if amounts.Err? {
            StepFails(AsWritten, parseReal, attrs, i, before, amounts.error);
            return Err(amounts.error);
          }
          if !tr.complexity.Split? {
            split := split.(numSplits := |raw|, amounts := amounts.value);
          } else if |raw| != NumSplits(tr.complexity) {
            StepFails(AsWritten, parseReal, attrs, i, before, MismatchedSplitNumber(NumSplits(tr.complexity), |raw|));
            return Err(MismatchedSplitNumber(NumSplits(tr.complexity), |raw|));
          } else {
            split := split.(amounts := amounts.value);
          }
        case Smem =>
          if isSimple == Some(true) {
            StepFails(AsWritten, parseReal, attrs, i, before, ConflictingInfoSimpleSplitTransaction);
            return Err(ConflictingInfoSimpleSplitTransaction);
          }
          isSimple := Some(false);
          var raw := ParseSplitValues(value);
          var memos := ParseSplitMemos(raw);
          if !tr.complexity.Split? {
            split := split.(numSplits := |raw|, memos := memos);
          } else if |raw| != NumSplits(tr.complexity) {
            StepFails(AsWritten, parseReal, attrs, i, before, MismatchedSplitNumber(NumSplits(tr.complexity), |raw|));
            return Err(MismatchedSplitNumber(NumSplits(tr.complexity), |raw|));
          } else {
            split := split.(memos := memos);
          }
        case DstAccount =>
          var d := ParseUsize(value);
          if d.None? {
            StepFails(AsWritten, parseReal, attrs, i, before, InvalidDestinationAccount);
            return Err(InvalidDestinationAccount);
          }
          isTransfer := true;
          xfer := xfer.(destination := d.value);
        case Kxfer =>
          var k := ParseUsize(value);
          if k.None? {
            StepFails(AsWritten, parseReal, attrs, i, before, InvalidTransferKey);
            return Err(InvalidTransferKey);
          }
          isTransfer := true;
          xfer := xfer.(transferKey := k.value);
        case Unknown =>
      }
      FoldStep(Start(), attrs, i, step, before);
      i := i + 1;
    }
    assert attrs[..i] == attrs;

    if isTransfer {
      if xfer.transferKey == 0 {
        return Err(InvalidTransferKey);
      } else if xfer.destination == 0 {
        return Err(InvalidDestinationAccount);
      }
      tr := tr.(ttype := TransferOf(xfer));
    }

    if isSimple == Some(false) {
      tr := tr.(complexity := Split(split));
    } else if isSimple == Some(true) {
      tr := tr.(complexity := Simple(simple));
    }
    return Ok(tr);
  }
}
