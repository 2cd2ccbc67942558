/**
 * The donor or recipient of a transaction, with the category and pay mode
 * its transactions default to.  `Payee::try_from` reads a `<pay>`
 * element's attributes into one.
 */
module Payees {
  import opened Wrappers
  import opened Strings
  import opened Attributes

  /** What can go wrong while decoding a payee. */
  datatype PayeeError = InvalidKey | InvalidCategoryKey | InvalidPayModeKey

  datatype Payee = Payee(key: nat, name: string, defaultCategory: Option<nat>, defaultPayMode: Option<nat>)

  /** `Payee::empty()`, also its `default()`. */
  function Empty(): (p: Payee)
    ensures p.key == 0 && p.name == "" && p.defaultCategory.None? && p.defaultPayMode.None?
  {
    Payee(0, "", Option.None, Option.None)
  }

  /** `Payee::new`: the payee with exactly the given key, name and defaults. */
  function New(key: nat, name: string, category: Option<nat>, paymode: Option<nat>): (p: Payee)
    ensures p.key == key && p.name == name && p.defaultCategory == category && p.defaultPayMode == paymode
  {
    Payee(key, name, category, paymode)
  }

  // ---------------------------------------------------------------------
  // Decoding a <pay> element
  // ---------------------------------------------------------------------

  /** The attributes a payee element may carry; any other is ignored. */
  datatype AttrName = Key | Name | Category | PayMode | Unknown

  /** Which attribute a name denotes. */
  function FieldOf(name: string): AttrName {
    match name
    case "key" => Key
    case "name" => Name
    case "category" => Category
    case "paymode" => PayMode
    case _ => Unknown
  }

  /** One turn of the decoding loop: the payee after attribute `a`, or the error it raises. */
  function Step(p: Payee, a: Attr): Result<Payee, PayeeError> {
    match FieldOf(a.0)
    case Key =>
      (match ParseUsize(a.1)
       case None => Err(InvalidKey)
       case Some(k) => Ok(p.(key := k)))
    case Name => Ok(p.(name := a.1))
    case Category =>
      (match ParseUsize(a.1)
       case None => Err(InvalidCategoryKey)
       case Some(c) => Ok(p.(defaultCategory := Some(c))))
    case PayMode =>
      (match ParseUsize(a.1)
       case None => Err(InvalidPayModeKey)
       case Some(m) => Ok(p.(defaultPayMode := Some(m))))
    case Unknown => Ok(p)
  }

  /** `Payee::try_from`: the loop over the attributes, from the empty payee. */
  function Decode(attrs: seq<Attr>): Result<Payee, PayeeError> {
    Fold(Empty(), attrs, Step)
  }

  /** An attribute the loop rejects ends the decode with its error. */
  lemma StepFails(attrs: seq<Attr>, i: nat, p: Payee, e: PayeeError)
    requires i < |attrs| && Fold(Empty(), attrs[..i], Step) == Ok(p)
    requires Step(p, attrs[i]) == Err(e)
    ensures Decode(attrs) == Err(e)
  {
    FoldStep(Empty(), attrs, i, Step, p);
    FoldFailureStops(Empty(), attrs, i + 1, Step);
  }

  /**
   * `Payee::try_from`: the loop updates the payee attribute by attribute
   * and returns at the first error.
   */
  method TryFrom(attrs: seq<Attr>) returns (r: Result<Payee, PayeeError>)
    ensures r == Decode(attrs)
  {
    var payee := Empty();
    var i := 0;
    while i < |attrs|
      invariant 0 <= i <= |attrs|
      invariant Fold(Empty(), attrs[..i], Step) == Ok(payee)
    {
      ghost var before := payee;
      var (name, value) := attrs[i];
      match FieldOf(name) {
        case Key =>
          var k := ParseUsize(value);
          if k.None? {
            StepFails(attrs, i, before, InvalidKey);
            return Err(InvalidKey);
          }
          payee := payee.(key := k.value);
        case Name =>
          payee := payee.(name := value);
        case Category =>
          var c := ParseUsize(value);
          if c.None? {
            StepFails(attrs, i, before, InvalidCategoryKey);
            return Err(InvalidCategoryKey);
          }
          payee := payee.(defaultCategory := c);
        case PayMode =>
          var m := ParseUsize(value);
          if m.None? {
            StepFails(attrs, i, before, InvalidPayModeKey);
            return Err(InvalidPayModeKey);
          }
          payee := payee.(defaultPayMode := m);
        case Unknown =>
      }
      FoldStep(Empty(), attrs, i, Step, before);
      i := i + 1;
    }
    assert attrs[..i] == attrs;
    return Ok(payee);
  }

  // ---------------------------------------------------------------------
  // What the decoder returns, attribute by attribute
  // ---------------------------------------------------------------------

  /** The error attribute `a` raises wherever it stands, if any: a key that does not parse as a `usize`. */
  function Rejects(a: Attr): Option<PayeeError> {
    match FieldOf(a.0)
    case Key => if ParseUsize(a.1).None? then Some(InvalidKey) else Option.None
    case Category => if ParseUsize(a.1).None? then Some(InvalidCategoryKey) else Option.None
    case PayMode => if ParseUsize(a.1).None? then Some(InvalidPayModeKey) else Option.None
    case _ => Option.None
  }

  /** The last attribute for field `f`, read as a `usize`. */
  function LastUsize(attrs: seq<Attr>, f: AttrName): Option<nat> {
    match LastOf(attrs, FieldOf, f)
    case None => Option.None
    case Some(v) => ParseUsize(v)
  }

  /** The payee the attributes describe: each field from the last attribute for it, or the empty payee's value. */
  function Described(attrs: seq<Attr>): Payee {
    Payee(
      LastUsize(attrs, Key).GetOr(0),
      LastOf(attrs, FieldOf, Name).GetOr(""),
      LastUsize(attrs, Category),
      LastUsize(attrs, PayMode))
  }

  /** An attribute read from the described payee: its error, or the payee one more attribute describes. */
  lemma AttrStep(pre: seq<Attr>, a: Attr)
    ensures Step(Described(pre), a) == if Rejects(a).Some? then Err(Rejects(a).value) else Ok(Described(pre + [a]))
  {
    LastOfSnoc(pre, a, FieldOf);
  }

  /**
   * The decoder reads each field from the last attribute that sets it:
   * the result is the described payee, unless some attribute is rejected,
   * in which case the first rejected one decides the error.
   */
  lemma DecodeReadsLastValues(attrs: seq<Attr>)
    ensures Decode(attrs) == if FirstError(attrs, Rejects).Some? then Err(FirstError(attrs, Rejects).value) else Ok(Described(attrs))
  {
    forall pre, a ensures Step(Described(pre), a) == if Rejects(a).Some? then Err(Rejects(a).value) else Ok(Described(pre + [a])) {
      AttrStep(pre, a);
    }
    FoldPerAttribute(Empty(), attrs, Step, Rejects, Described);
  }

  /**
   * An attribute the decoder rejects makes the decode fail, with that
   * attribute's own error when every attribute before it is accepted.
   */
  lemma RejectedAttributeFails(attrs: seq<Attr>, k: nat)
    requires k < |attrs| && Rejects(attrs[k]).Some?
    ensures Decode(attrs).Err?
    ensures (forall j :: 0 <= j < k ==> Rejects(attrs[j]).None?) ==> Decode(attrs) == Err(Rejects(attrs[k]).value)
  {
    DecodeReadsLastValues(attrs);
  }

  /** An attribute the decoder does not know, wherever it stands, changes nothing. */
  lemma UnknownIgnored(x: seq<Attr>, a: Attr, y: seq<Attr>)
    requires FieldOf(a.0) == Unknown
    ensures Decode(x + [a] + y) == Decode(x + y)
  {
    FoldAppend(Empty(), x + [a], y, Step);
    FoldAppend(Empty(), x, y, Step);
    FoldAppend(Empty(), x, [a], Step);
    assert [a][..0] == [];
  }
}
