/**
 * An account: its key, flags, position, type, currency, names, amounts,
 * notes, group and reconciliation date.  `Account::try_from` reads an
 * `<account>` element's attributes into one.
 */
module Accounts {
  import opened Wrappers
  import opened Strings
  import opened Attributes
  import opened AccountErrors
  import AccountTypes
  import opened TransactionDate

  datatype Account = Account(
    key: nat,
    flags: nat,
    pos: nat,
    atype: AccountTypes.AccountType,
    currency: nat,
    name: string,
    bankName: string,
    initialAmount: real,
    minimumAmount: real,
    maximumAmount: real,
    notes: string,
    group: Option<nat>,
    reconciledDate: Date)

  /** `Account::empty()`, also its `default()`: in group 0, reconciled on 2000-01-01. */
  function Empty(): (a: Account)
    ensures a.group == Some(0) && a.reconciledDate == FromYmd(2000, 1, 1)
    ensures a.atype == AccountTypes.AccountType.None
  {
    Account(0, 0, 0, AccountTypes.AccountType.None, 0, "", "", 0.0, 0.0, 0.0, "", Some(0), DEFAULT_DATE)
  }

  // ---------------------------------------------------------------------
  // Decoding an <account> element
  // ---------------------------------------------------------------------

  /** The attributes an account element may carry; any other is ignored. */
  datatype AttrName =
    | Name | BankName | Notes
    | Key | Flags | Pos | Type | Curr
    | Initial | Minimum | Maximum
    | Grp | RDate
    | Unknown

  /** Which attribute a name denotes. */
  function FieldOf(name: string): AttrName {
    match name
    case "name" => Name
    case "bankname" => BankName
    case "notes" => Notes
    case "key" => Key
    case "flags" => Flags
    case "pos" => Pos
    case "type" => Type
    case "curr" => Curr
    case "initial" => Initial
    case "minimum" => Minimum
    case "maximum" => Maximum
    case "grp" => Grp
    case "rdate" => RDate
    case _ => Unknown
  }

  /** A `type` value: a `usize` that is the index of an account type. */
  function TypeOf(value: string): (r: Option<AccountTypes.AccountType>)
    ensures r.Some? <==> ParseUsize(value).Some? && ParseUsize(value).value <= 7
    ensures r.Some? ==> AccountTypes.Index(r.value) == ParseUsize(value).value
  {
    match ParseUsize(value)
    case None => Option.None
    case Some(n) => if n <= 7 then Some(AccountTypes.TryFrom(n).value) else Option.None
  }

  /** One turn of the decoding loop: the account after attribute `a`, or the error `Rejects` names for it. */
  function Step(parseReal: string -> Option<real>, acct: Account, a: Attr): (r: Result<Account, AccountError>)
    ensures FieldOf(a.0) == Unknown ==> r == Ok(acct)
    ensures r.Err? <==> Rejects(parseReal, a).Some?
    ensures r.Err? ==> r.error == Rejects(parseReal, a).value
  {
    match FieldOf(a.0)
    case Name => Ok(acct.(name := a.1))
    case BankName => Ok(acct.(bankName := a.1))
    case Notes => Ok(acct.(notes := a.1))
    case Key =>
      (match ParseUsize(a.1)
       case None => Err(InvalidKey)
       case Some(k) => Ok(acct.(key := k)))
    case Flags =>
      (match ParseUsize(a.1)
       case None => Err(InvalidFlags)
       case Some(f) => Ok(acct.(flags := f)))
    case Pos =>
      (match ParseUsize(a.1)
       case None => Err(InvalidPosition)
       case Some(p) => Ok(acct.(pos := p)))
    case Type =>
      (match ParseUsize(a.1)
       case None => Err(InvalidType)
       case Some(n) =>
         match AccountTypes.TryFrom(n)
         case Err(e) => Err(e)
         case Ok(t) => Ok(acct.(atype := t)))
    case Curr =>
      (match ParseUsize(a.1)
       case None => Err(InvalidCurrency)
       case Some(c) => Ok(acct.(currency := c)))
    case Initial =>
      (match parseReal(a.1)
       case None => Err(InvalidInitialAmount)
       case Some(x) => Ok(acct.(initialAmount := x)))
    case Minimum =>
      (match parseReal(a.1)
       case None => Err(InvalidMinimumAmount)
       case Some(x) => Ok(acct.(minimumAmount := x)))
    case Maximum =>
      (match parseReal(a.1)
       case None => Err(InvalidMaximumAmount)
       case Some(x) => Ok(acct.(maximumAmount := x)))
    case Grp =>
      (match ParseUsize(a.1)
       case None => Err(InvalidGroup)
       case Some(g) => Ok(acct.(group := Some(g))))
    case RDate =>
      (match ParseU32(a.1)
       case None => Err(InvalidReconcileDate)
       case Some(d) => Ok(acct.(reconciledDate := JulianDate(d))))
    case Unknown => Ok(acct)
  }

  function StepWith(parseReal: string -> Option<real>): (Account, Attr) -> Result<Account, AccountError> {
    (acct, a) => Step(parseReal, acct, a)
  }

  /** `Account::try_from`: the loop over the attributes, from the empty account. */
  function Decode(parseReal: string -> Option<real>, attrs: seq<Attr>): Result<Account, AccountError> {
    Fold(Empty(), attrs, StepWith(parseReal))
  }

  /** An attribute the loop rejects ends the decode with its error. */
  lemma StepFails(parseReal: string -> Option<real>, attrs: seq<Attr>, i: nat, acct: Account, e: AccountError)
    requires i < |attrs| && Fold(Empty(), attrs[..i], StepWith(parseReal)) == Ok(acct)
    requires Step(parseReal, acct, attrs[i]) == Err(e)
    ensures Decode(parseReal, attrs) == Err(e)
  {
    FoldStepFails(Empty(), attrs, i, StepWith(parseReal), acct, e);
  }

  /**
   * `Account::try_from`: the loop updates the account attribute by
   * attribute and returns at the first error.
   */
  method TryFrom(parseReal: string -> Option<real>, attrs: seq<Attr>) returns (r: Result<Account, AccountError>)
    ensures r == Decode(parseReal, attrs)
  {
    var acct := Empty();
    ghost var step := StepWith(parseReal);
    var i := 0;
    while i < |attrs|
      invariant 0 <= i <= |attrs|
      invariant Fold(Empty(), attrs[..i], step) == Ok(acct)
    {
      ghost var before := acct;
      var (name, value) := attrs[i];
      match FieldOf(name) {
        case Name =>
          acct := acct.(name := value);
        case BankName =>
          acct := acct.(bankName := value);
        case Notes =>
          acct := acct.(notes := value);
        case Key =>
          var k := ParseUsize(value);
          if k.None? {
            StepFails(parseReal, attrs, i, before, InvalidKey);
            return Err(InvalidKey);
          }
          acct := acct.(key := k.value);
        case Flags =>
          var f := ParseUsize(value);
          if f.None? {
            StepFails(parseReal, attrs, i, before, InvalidFlags);
            return Err(InvalidFlags);
          }
          acct := acct.(flags := f.value);
        case Pos =>
          var p := ParseUsize(value);
          if p.None? {
            StepFails(parseReal, attrs, i, before, InvalidPosition);
            return Err(InvalidPosition);
          }
          acct := acct.(pos := p.value);
        case Type =>
          var n := ParseUsize(value);
          if n.None? {
            StepFails(parseReal, attrs, i, before, InvalidType);
            return Err(InvalidType);
          }
          var t := AccountTypes.TryFrom(n.value);
          if t.Err? {
            StepFails(parseReal, attrs, i, before, t.error);
            return Err(t.error);
          }
          acct := acct.(atype := t.value);
        case Curr =>
          var c := ParseUsize(value);
          if c.None? {
            StepFails(parseReal, attrs, i, before, InvalidCurrency);
            return Err(InvalidCurrency);
          }
          acct := acct.(currency := c.value);
        case Initial =>
          var x := parseReal(value);
          if x.None? {
            StepFails(parseReal, attrs, i, before, InvalidInitialAmount);
            return Err(InvalidInitialAmount);
          }
          acct := acct.(initialAmount := x.value);
        case Minimum =>
          var x := parseReal(value);
          if x.None? {
            StepFails(parseReal, attrs, i, before, InvalidMinimumAmount);
            return Err(InvalidMinimumAmount);
          }
          acct := acct.(minimumAmount := x.value);
        case Maximum =>
          var x := parseReal(value);
          if x.None? {
            StepFails(parseReal, attrs, i, before, InvalidMaximumAmount);
            return Err(InvalidMaximumAmount);
          }
          acct := acct.(maximumAmount := x.value);
        case Grp =>
          var g := ParseUsize(value);
          if g.None? {
            StepFails(parseReal, attrs, i, before, InvalidGroup);
            return Err(InvalidGroup);
          }
          acct := acct.(group := g);
        case RDate =>
          var d := ParseU32(value);
          if d.None? {
            StepFails(parseReal, attrs, i, before, InvalidReconcileDate);
            return Err(InvalidReconcileDate);
          }
          acct := acct.(reconciledDate := JulianDate(d.value));
        case Unknown =>
      }
      FoldStep(Empty(), attrs, i, step, before);
      i := i + 1;
    }
    assert attrs[..i] == attrs;
    return Ok(acct);
  }

  // ---------------------------------------------------------------------
  // What the decoder returns, attribute by attribute
  // ---------------------------------------------------------------------

  /**
   * The error attribute `a` raises wherever it stands, if any: a number,
   * amount, type index or day count that does not parse, or a type index
   * past the last account type.
   */
  function Rejects(parseReal: string -> Option<real>, a: Attr): Option<AccountError> {
    match FieldOf(a.0)
    case Key => if ParseUsize(a.1).None? then Some(InvalidKey) else Option.None
    case Flags => if ParseUsize(a.1).None? then Some(InvalidFlags) else Option.None
    case Pos => if ParseUsize(a.1).None? then Some(InvalidPosition) else Option.None
    case Type => if TypeOf(a.1).None? then Some(InvalidType) else Option.None
    case Curr => if ParseUsize(a.1).None? then Some(InvalidCurrency) else Option.None
    case Initial => if parseReal(a.1).None? then Some(InvalidInitialAmount) else Option.None
    case Minimum => if parseReal(a.1).None? then Some(InvalidMinimumAmount) else Option.None
    case Maximum => if parseReal(a.1).None? then Some(InvalidMaximumAmount) else Option.None
    case Grp => if ParseUsize(a.1).None? then Some(InvalidGroup) else Option.None
    case RDate => if ParseU32(a.1).None? then Some(InvalidReconcileDate) else Option.None
    case _ => Option.None
  }

  function RejectsWith(parseReal: string -> Option<real>): Attr -> Option<AccountError> {
    a => Rejects(parseReal, a)
  }

  /** The last attribute for field `f`, read as a `usize`. */
  function LastUsize(attrs: seq<Attr>, f: AttrName): Option<nat> {
    match LastOf(attrs, FieldOf, f)
    case None => Option.None
    case Some(v) => ParseUsize(v)
  }

  /** The last attribute for field `f`, read as an amount. */
  function LastAmount(parseReal: string -> Option<real>, attrs: seq<Attr>, f: AttrName): Option<real> {
    match LastOf(attrs, FieldOf, f)
    case None => Option.None
    case Some(v) => parseReal(v)
  }

  /** The last `type` attribute, read as an account type. */
  function LastType(attrs: seq<Attr>): Option<AccountTypes.AccountType> {
    match LastOf(attrs, FieldOf, Type)
    case None => Option.None
    case Some(v) => TypeOf(v)
  }

  /** The last `rdate` attribute, read as a date. */
  function LastDate(attrs: seq<Attr>): Option<Date> {
    match LastOf(attrs, FieldOf, RDate)
    case None => Option.None
    case Some(v) => DateOf(v)
  }

  /** The group the last `grp` attribute names, or the empty account's group 0. */
  function LastGroup(attrs: seq<Attr>): Option<nat> {
    match LastUsize(attrs, Grp)
    case None => Some(0)
    case Some(g) => Some(g)
  }

  /** The account the attributes describe: each field from the last attribute for it, or the empty account's value. */
  function Described(parseReal: string -> Option<real>, attrs: seq<Attr>): Account {
    Account(
      LastUsize(attrs, Key).GetOr(0),
      LastUsize(attrs, Flags).GetOr(0),
      LastUsize(attrs, Pos).GetOr(0),
      LastType(attrs).GetOr(AccountTypes.AccountType.None),
      LastUsize(attrs, Curr).GetOr(0),
      LastOf(attrs, FieldOf, Name).GetOr(""),
      LastOf(attrs, FieldOf, BankName).GetOr(""),
      LastAmount(parseReal, attrs, Initial).GetOr(0.0),
      LastAmount(parseReal, attrs, Minimum).GetOr(0.0),
      LastAmount(parseReal, attrs, Maximum).GetOr(0.0),
      LastOf(attrs, FieldOf, Notes).GetOr(""),
      LastGroup(attrs),
      LastDate(attrs).GetOr(DEFAULT_DATE))
  }

  /** One more attribute read: only the field it names changes in the described account. */
  lemma DescribedSnoc(parseReal: string -> Option<real>, pre: seq<Attr>, a: Attr)
    ensures var c, c' := Described(parseReal, pre), Described(parseReal, pre + [a]);
      && c'.key == (if FieldOf(a.0) == Key then ParseUsize(a.1).GetOr(0) else c.key)
      && c'.flags == (if FieldOf(a.0) == Flags then ParseUsize(a.1).GetOr(0) else c.flags)
      && c'.pos == (if FieldOf(a.0) == Pos then ParseUsize(a.1).GetOr(0) else c.pos)
      && c'.atype == (if FieldOf(a.0) == Type then TypeOf(a.1).GetOr(AccountTypes.AccountType.None) else c.atype)
      && c'.currency == (if FieldOf(a.0) == Curr then ParseUsize(a.1).GetOr(0) else c.currency)
      && c'.name == (if FieldOf(a.0) == Name then a.1 else c.name)
      && c'.bankName == (if FieldOf(a.0) == BankName then a.1 else c.bankName)
      && c'.initialAmount == (if FieldOf(a.0) == Initial then parseReal(a.1).GetOr(0.0) else c.initialAmount)
      && c'.minimumAmount == (if FieldOf(a.0) == Minimum then parseReal(a.1).GetOr(0.0) else c.minimumAmount)
      && c'.maximumAmount == (if FieldOf(a.0) == Maximum then parseReal(a.1).GetOr(0.0) else c.maximumAmount)
      && c'.notes == (if FieldOf(a.0) == Notes then a.1 else c.notes)
      && c'.group == (if FieldOf(a.0) == Grp then Some(ParseUsize(a.1).GetOr(0)) else c.group)
      && c'.reconciledDate == (if FieldOf(a.0) == RDate then DateOf(a.1).GetOr(DEFAULT_DATE) else c.reconciledDate)
  {
    LastOfSnoc(pre, a, FieldOf);
  }

  /** An attribute read from the described account: its error, or the account one more attribute describes. */
  lemma AttrStep(parseReal: string -> Option<real>, pre: seq<Attr>, a: Attr)
    ensures Step(parseReal, Described(parseReal, pre), a) ==
            if Rejects(parseReal, a).Some? then Err(Rejects(parseReal, a).value) else Ok(Described(parseReal, pre + [a]))
  {
    DescribedSnoc(parseReal, pre, a);
  }

  /**
   * The decoder reads each field from the last attribute that sets it:
   * the result is the described account, unless some attribute is
   * rejected, in which case the first rejected one decides the error.
   */
  lemma DecodeReadsLastValues(parseReal: string -> Option<real>, attrs: seq<Attr>)
    ensures Decode(parseReal, attrs) ==
            if FirstError(attrs, RejectsWith(parseReal)).Some? then Err(FirstError(attrs, RejectsWith(parseReal)).value)
            else Ok(Described(parseReal, attrs))
  {
    forall pre, a ensures StepWith(parseReal)(Described(parseReal, pre), a) ==
                          if RejectsWith(parseReal)(a).Some? then Err(RejectsWith(parseReal)(a).value) else Ok(Described(parseReal, pre + [a]))
    {
      AttrStep(parseReal, pre, a);
    }
    FoldPerAttribute(Empty(), attrs, StepWith(parseReal), RejectsWith(parseReal), (pre: seq<Attr>) => Described(parseReal, pre));
  }

  /** The decode fails exactly when some attribute is rejected, and then with the first rejected attribute's error. */
  lemma DecodeErrors(parseReal: string -> Option<real>, attrs: seq<Attr>)
    ensures Decode(parseReal, attrs).Err? <==> FirstError(attrs, RejectsWith(parseReal)).Some?
    ensures Decode(parseReal, attrs).Err? ==> Decode(parseReal, attrs).error == FirstError(attrs, RejectsWith(parseReal)).value
  {
    DecodeReadsLastValues(parseReal, attrs);
  }

  /**
   * An attribute the decoder rejects makes the decode fail, with that
   * attribute's own error when every attribute before it is accepted.
   */
  lemma RejectedAttributeFails(parseReal: string -> Option<real>, attrs: seq<Attr>, k: nat)
    requires k < |attrs| && Rejects(parseReal, attrs[k]).Some?
    ensures Decode(parseReal, attrs).Err?
    ensures (forall j :: 0 <= j < k ==> Rejects(parseReal, attrs[j]).None?) ==>
              Decode(parseReal, attrs) == Err(Rejects(parseReal, attrs[k]).value)
  {
    DecodeErrors(parseReal, attrs);
    var check := RejectsWith(parseReal);
    assert check(attrs[k]) == Rejects(parseReal, attrs[k]);
    assert forall j :: 0 <= j < k ==> check(attrs[j]) == Rejects(parseReal, attrs[j]);
    FirstErrorAt(attrs, check, k);
  }

  /** A `type` index past the last account type is rejected with InvalidType, like one that is not a number. */
  lemma TypeIndexChecked(parseReal: string -> Option<real>, attrs: seq<Attr>, k: nat)
    requires k < |attrs| && FieldOf(attrs[k].0) == Type
    requires ParseUsize(attrs[k].1).None? || ParseUsize(attrs[k].1).value > 7
    requires forall j :: 0 <= j < k ==> Rejects(parseReal, attrs[j]).None?
    ensures Decode(parseReal, attrs) == Err(InvalidType)
  {
    RejectedAttributeFails(parseReal, attrs, k);
  }

  /** An attribute the decoder does not know, wherever it stands, changes nothing. */
  lemma UnknownIgnored(parseReal: string -> Option<real>, x: seq<Attr>, a: Attr, y: seq<Attr>)
    requires FieldOf(a.0) == Unknown
    ensures Decode(parseReal, x + [a] + y) == Decode(parseReal, x + y)
  {
    FoldSkips(Empty(), x, a, y, StepWith(parseReal));
  }
}
