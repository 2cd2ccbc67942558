/**
 * A currency: its key, flags, ISO code, name, symbol and where it goes,
 * separators, number of decimals, conversion rate and modification date.
 * `Currency::try_from` reads a `<cur>` element's attributes into one.
 */
module Currencies {
  import opened Wrappers
  import opened Strings
  import opened Attributes
  import opened CurrencyErrors
  import opened TransactionDate

  datatype Currency = Currency(
    key: nat,
    flags: nat,
    iso: string,
    name: string,
    symbol: char,
    symbolPrefix: bool,
    decimalSeparator: char,
    thousandsSeparator: char,
    decimalLength: nat,
    conversionRate: real,
    mdate: Date)

  /** `Currency::empty()`, also its `default()`: dollars, two decimals, rate 1, modified 2000-01-01. */
  function Empty(): (c: Currency)
    ensures c.symbol == '$' && !c.symbolPrefix && c.decimalSeparator == '.' && c.thousandsSeparator == ' '
    ensures c.decimalLength == 2 && c.conversionRate == 1.0 && c.mdate == FromYmd(2000, 1, 1)
  {
    Currency(0, 0, "", "", '$', false, '.', ' ', 2, 1.0, DEFAULT_DATE)
  }

  // ---------------------------------------------------------------------
  // Decoding a <cur> element
  // ---------------------------------------------------------------------

  /** The attributes a currency element may carry; any other is ignored. */
  datatype AttrName =
    | Name | Iso
    | Key | Flags | SymbolPrefix | Frac | MDate
    | Symb | DChar | GChar
    | Rate
    | Unknown

  /** Which attribute a name denotes. */
  function FieldOf(name: string): AttrName {
    match name
    case "name" => Name
    case "iso" => Iso
    case "key" => Key
    case "flags" => Flags
    case "syprf" => SymbolPrefix
    case "frac" => Frac
    case "mdate" => MDate
    case "symb" => Symb
    case "dchar" => DChar
    case "gchar" => GChar
    case "rate" => Rate
    case _ => Unknown
  }

  /** A `syprf` value: the `usize` 0 puts the symbol after the amount, 1 before it; nothing else is accepted. */
  function SymbolPrefixOf(value: string): (r: Option<bool>)
    ensures r == Some(false) <==> ParseUsize(value) == Some(0)
    ensures r == Some(true) <==> ParseUsize(value) == Some(1)
  {
    match ParseUsize(value)
    case Some(0) => Some(false)
    case Some(1) => Some(true)
    case _ => Option.None
  }

  /** The first character of a value, which an empty value lacks. */
  function FirstChar(value: string): (r: Option<char>)
    ensures r.Some? <==> value != []
    ensures r.Some? ==> value == [r.value] + value[1..]
  {
    if value == [] then Option.None else Some(value[0])
  }

  /** One turn of the decoding loop: the currency after attribute `a`, or the error `Rejects` names for it. */
  function Step(parseReal: string -> Option<real>, cur: Currency, a: Attr): (r: Result<Currency, CurrencyError>)
    ensures FieldOf(a.0) == Unknown ==> r == Ok(cur)
    ensures r.Err? <==> Rejects(parseReal, a).Some?
    ensures r.Err? ==> r.error == Rejects(parseReal, a).value
  {
    match FieldOf(a.0)
    case Name => Ok(cur.(name := a.1))
    case Iso => Ok(cur.(iso := a.1))
    case Key =>
      (match ParseUsize(a.1)
       case None => Err(InvalidKey)
       case Some(k) => Ok(cur.(key := k)))
    case Flags =>
      (match ParseUsize(a.1)
       case None => Err(InvalidFlags)
       case Some(f) => Ok(cur.(flags := f)))
    case SymbolPrefix =>
      (match ParseUsize(a.1)
       case Some(0) => Ok(cur.(symbolPrefix := false))
       case Some(1) => Ok(cur.(symbolPrefix := true))
       case _ => Err(InvalidSymbolPrefix))
    case Frac =>
      (match ParseUsize(a.1)
       case None => Err(InvalidDecimalLength)
       case Some(n) => Ok(cur.(decimalLength := n)))
    case MDate =>
      (match ParseU32(a.1)
       case None => Err(InvalidMDate)
       case Some(d) => Ok(cur.(mdate := JulianDate(d))))
    case Symb =>
      (match FirstChar(a.1)
       case None => Err(InvalidSymbol)
       case Some(c) => Ok(cur.(symbol := c)))
    case DChar =>
      (match FirstChar(a.1)
       case None => Err(InvalidDecimalSeparator)
       case Some(c) => Ok(cur.(decimalSeparator := c)))
    case GChar =>
      (match FirstChar(a.1)
       case None => Err(InvalidThousandsSeparator)
       case Some(c) => Ok(cur.(thousandsSeparator := c)))
    case Rate =>
      (match parseReal(a.1)
       case None => Err(InvalidConversionRate)
       case Some(x) => Ok(cur.(conversionRate := x)))
    case Unknown => Ok(cur)
  }

  function StepWith(parseReal: string -> Option<real>): (Currency, Attr) -> Result<Currency, CurrencyError> {
    (cur, a) => Step(parseReal, cur, a)
  }

  /** `Currency::try_from`: the loop over the attributes, from the empty currency. */
  function Decode(parseReal: string -> Option<real>, attrs: seq<Attr>): Result<Currency, CurrencyError> {
    Fold(Empty(), attrs, StepWith(parseReal))
  }

  /** An attribute the loop rejects ends the decode with its error. */
  lemma StepFails(parseReal: string -> Option<real>, attrs: seq<Attr>, i: nat, cur: Currency, e: CurrencyError)
    requires i < |attrs| && Fold(Empty(), attrs[..i], StepWith(parseReal)) == Ok(cur)
    requires Step(parseReal, cur, attrs[i]) == Err(e)
    ensures Decode(parseReal, attrs) == Err(e)
  {
    FoldStepFails(Empty(), attrs, i, StepWith(parseReal), cur, e);
  }

  /**
   * `Currency::try_from`: the loop updates the currency attribute by
   * attribute and returns at the first error.
   */
  method TryFrom(parseReal: string -> Option<real>, attrs: seq<Attr>) returns (r: Result<Currency, CurrencyError>)
    ensures r == Decode(parseReal, attrs)
  {
    var cur := Empty();
    ghost var step := StepWith(parseReal);
    var i := 0;
    while i < |attrs|
      invariant 0 <= i <= |attrs|
      invariant Fold(Empty(), attrs[..i], step) == Ok(cur)
    {
      ghost var before := cur;
      var (name, value) := attrs[i];
      match FieldOf(name) {
        case Name =>
          cur := cur.(name := value);
        case Iso =>
          cur := cur.(iso := value);
        case Key =>
          var k := ParseUsize(value);
          if k.None? {
            StepFails(parseReal, attrs, i, before, InvalidKey);
            return Err(InvalidKey);
          }
          cur := cur.(key := k.value);
        case Flags =>
          var f := ParseUsize(value);
          if f.None? {
            StepFails(parseReal, attrs, i, before, InvalidFlags);
            return Err(InvalidFlags);
          }
          cur := cur.(flags := f.value);
        case SymbolPrefix =>
          var p := ParseUsize(value);
          if p == Some(0) {
            cur := cur.(symbolPrefix := false);
          } else if p == Some(1) {
            cur := cur.(symbolPrefix := true);
          } else {
            StepFails(parseReal, attrs, i, before, InvalidSymbolPrefix);
            return Err(InvalidSymbolPrefix);
          }
        case Frac =>
          var n := ParseUsize(value);
          if n.None? {
            StepFails(parseReal, attrs, i, before, InvalidDecimalLength);
            return Err(InvalidDecimalLength);
          }
          cur := cur.(decimalLength := n.value);
        case MDate =>
          var d := ParseU32(value);
          if d.None? {
            StepFails(parseReal, attrs, i, before, InvalidMDate);
            return Err(InvalidMDate);
          }
          cur := cur.(mdate := JulianDate(d.value));
        case Symb =>
          if |value| == 0 {
            StepFails(parseReal, attrs, i, before, InvalidSymbol);
            return Err(InvalidSymbol);
          }
          cur := cur.(symbol := value[0]);
        case DChar =>
          if |value| == 0 {
            StepFails(parseReal, attrs, i, before, InvalidDecimalSeparator);
            return Err(InvalidDecimalSeparator);
          }
          cur := cur.(decimalSeparator := value[0]);
        case GChar =>
          if |value| == 0 {
            StepFails(parseReal, attrs, i, before, InvalidThousandsSeparator);
            return Err(InvalidThousandsSeparator);
          }
          cur := cur.(thousandsSeparator := value[0]);
        case Rate =>
          var x := parseReal(value);
          if x.None? {
            StepFails(parseReal, attrs, i, before, InvalidConversionRate);
            return Err(InvalidConversionRate);
          }
          cur := cur.(conversionRate := x.value);
        case Unknown =>
      }
      FoldStep(Empty(), attrs, i, step, before);
      i := i + 1;
    }
    assert attrs[..i] == attrs;
    return Ok(cur);
  }

  // ---------------------------------------------------------------------
  // What the decoder returns, attribute by attribute
  // ---------------------------------------------------------------------

  /**
   * The error attribute `a` raises wherever it stands, if any: a number,
   * rate or day count that does not parse, a symbol position other than 0
   * or 1, or an empty symbol or separator.
   */
  function Rejects(parseReal: string -> Option<real>, a: Attr): Option<CurrencyError> {
    match FieldOf(a.0)
    case Key => if ParseUsize(a.1).None? then Some(InvalidKey) else Option.None
    case Flags => if ParseUsize(a.1).None? then Some(InvalidFlags) else Option.None
    case SymbolPrefix => if SymbolPrefixOf(a.1).None? then Some(InvalidSymbolPrefix) else Option.None
    case Frac => if ParseUsize(a.1).None? then Some(InvalidDecimalLength) else Option.None
    case MDate => if ParseU32(a.1).None? then Some(InvalidMDate) else Option.None
    case Symb => if a.1 == [] then Some(InvalidSymbol) else Option.None
    case DChar => if a.1 == [] then Some(InvalidDecimalSeparator) else Option.None
    case GChar => if a.1 == [] then Some(InvalidThousandsSeparator) else Option.None
    case Rate => if parseReal(a.1).None? then Some(InvalidConversionRate) else Option.None
    case _ => Option.None
  }

  function RejectsWith(parseReal: string -> Option<real>): Attr -> Option<CurrencyError> {
    a => Rejects(parseReal, a)
  }

  /** The last attribute for field `f`, read with `parse`. */
  function LastRead<T>(attrs: seq<Attr>, f: AttrName, parse: string -> Option<T>): Option<T> {
    match LastOf(attrs, FieldOf, f)
    case None => Option.None
    case Some(v) => parse(v)
  }

  /** The currency the attributes describe: each field from the last attribute for it, or the empty currency's value. */
  function Described(parseReal: string -> Option<real>, attrs: seq<Attr>): Currency {
    Currency(
      LastRead(attrs, Key, ParseUsize).GetOr(0),
      LastRead(attrs, Flags, ParseUsize).GetOr(0),
      LastOf(attrs, FieldOf, Iso).GetOr(""),
      LastOf(attrs, FieldOf, Name).GetOr(""),
      LastRead(attrs, Symb, FirstChar).GetOr('$'),
      LastRead(attrs, SymbolPrefix, SymbolPrefixOf).GetOr(false),
      LastRead(attrs, DChar, FirstChar).GetOr('.'),
      LastRead(attrs, GChar, FirstChar).GetOr(' '),
      LastRead(attrs, Frac, ParseUsize).GetOr(2),
      LastRead(attrs, Rate, parseReal).GetOr(1.0),
      LastRead(attrs, MDate, DateOf).GetOr(DEFAULT_DATE))
  }

  /** One more attribute read: only the field it names changes in the described currency. */
  lemma DescribedSnoc(parseReal: string -> Option<real>, pre: seq<Attr>, a: Attr)
    ensures var c, c' := Described(parseReal, pre), Described(parseReal, pre + [a]);
      && c'.key == (if FieldOf(a.0) == Key then ParseUsize(a.1).GetOr(0) else c.key)
      && c'.flags == (if FieldOf(a.0) == Flags then ParseUsize(a.1).GetOr(0) else c.flags)
      && c'.iso == (if FieldOf(a.0) == Iso then a.1 else c.iso)
      && c'.name == (if FieldOf(a.0) == Name then a.1 else c.name)
      && c'.symbol == (if FieldOf(a.0) == Symb then FirstChar(a.1).GetOr('$') else c.symbol)
      && c'.symbolPrefix == (if FieldOf(a.0) == SymbolPrefix then SymbolPrefixOf(a.1).GetOr(false) else c.symbolPrefix)
      && c'.decimalSeparator == (if FieldOf(a.0) == DChar then FirstChar(a.1).GetOr('.') else c.decimalSeparator)
      && c'.thousandsSeparator == (if FieldOf(a.0) == GChar then FirstChar(a.1).GetOr(' ') else c.thousandsSeparator)
      && c'.decimalLength == (if FieldOf(a.0) == Frac then ParseUsize(a.1).GetOr(2) else c.decimalLength)
      && c'.conversionRate == (if FieldOf(a.0) == Rate then parseReal(a.1).GetOr(1.0) else c.conversionRate)
      && c'.mdate == (if FieldOf(a.0) == MDate then DateOf(a.1).GetOr(DEFAULT_DATE) else c.mdate)
  {
    LastOfSnoc(pre, a, FieldOf);
  }

  /** An attribute read from the described currency: its error, or the currency one more attribute describes. */
  lemma AttrStep(parseReal: string -> Option<real>, pre: seq<Attr>, a: Attr)
    ensures Step(parseReal, Described(parseReal, pre), a) ==
            if Rejects(parseReal, a).Some? then Err(Rejects(parseReal, a).value) else Ok(Described(parseReal, pre + [a]))
  {
    DescribedSnoc(parseReal, pre, a);
  }

  /**
   * The decoder reads each field from the last attribute that sets it:
   * the result is the described currency, unless some attribute is
   * rejected, in which case the first rejected one decides the error.
   */
  lemma DecodeReadsLastValues(parseReal: string -> Option<real>, attrs: seq<Attr>)
    ensures Decode(parseReal, attrs) ==
            if FirstError(attrs, RejectsWith(parseReal)).Some? then Err(FirstError(attrs, RejectsWith(parseReal)).value)
            else Ok(Described(parseReal, attrs))
  {
    forall pre, a ensures StepWith(parseReal)(Described(parseReal, pre), a) ==
                          if RejectsWith(parseReal)(a).Some? then Err(RejectsWith(parseReal)(a).value) else Ok(Described(parseReal, pre + [a]))
    {
      AttrStep(parseReal, pre, a);
    }
    FoldPerAttribute(Empty(), attrs, StepWith(parseReal), RejectsWith(parseReal), (pre: seq<Attr>) => Described(parseReal, pre));
  }

  /** The decode fails exactly when some attribute is rejected, and then with the first rejected attribute's error. */
  lemma DecodeErrors(parseReal: string -> Option<real>, attrs: seq<Attr>)
    ensures Decode(parseReal, attrs).Err? <==> FirstError(attrs, RejectsWith(parseReal)).Some?
    ensures Decode(parseReal, attrs).Err? ==> Decode(parseReal, attrs).error == FirstError(attrs, RejectsWith(parseReal)).value
  {
    DecodeReadsLastValues(parseReal, attrs);
  }

  /**
   * An attribute the decoder rejects makes the decode fail, with that
   * attribute's own error when every attribute before it is accepted.
   */
  lemma RejectedAttributeFails(parseReal: string -> Option<real>, attrs: seq<Attr>, k: nat)
    requires k < |attrs| && Rejects(parseReal, attrs[k]).Some?
    ensures Decode(parseReal, attrs).Err?
    ensures (forall j :: 0 <= j < k ==> Rejects(parseReal, attrs[j]).None?) ==>
              Decode(parseReal, attrs) == Err(Rejects(parseReal, attrs[k]).value)
  {
    DecodeErrors(parseReal, attrs);
    var check := RejectsWith(parseReal);
    assert check(attrs[k]) == Rejects(parseReal, attrs[k]);
    assert forall j :: 0 <= j < k ==> check(attrs[j]) == Rejects(parseReal, attrs[j]);
    FirstErrorAt(attrs, check, k);
  }

  /**
   * Where the symbol goes: an accepted currency puts it before the amount
   * exactly when its last `syprf` attribute reads 1.
   */
  lemma SymbolPrefixRead(parseReal: string -> Option<real>, attrs: seq<Attr>)
    requires Decode(parseReal, attrs).Ok?
    ensures Decode(parseReal, attrs).value.symbolPrefix <==> LastRead(attrs, SymbolPrefix, ParseUsize) == Some(1)
  {
    DecodeReadsLastValues(parseReal, attrs);
  }

  /** An attribute the decoder does not know, wherever it stands, changes nothing. */
  lemma UnknownIgnored(parseReal: string -> Option<real>, x: seq<Attr>, a: Attr, y: seq<Attr>)
    requires FieldOf(a.0) == Unknown
    ensures Decode(parseReal, x + [a] + y) == Decode(parseReal, x + y)
  {
    FoldSkips(Empty(), x, a, y, StepWith(parseReal));
  }
}
