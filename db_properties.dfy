/**
 * The database-wide properties: title, default currency, vehicle category
 * and the default scheduling mode.  `HomeBankDbProperties::try_from` reads
 * the `<properties>` element; its scheduling mode is a small state machine
 * fed by `auto_smode`, `auto_weekday` and `auto_nbdays` in any order.
 */
module DbProperties {
  import opened Wrappers
  import opened Strings
  import opened Attributes

  /**
   * `ScheduleMode`: not chosen yet (holding any weekday and number of days
   * read so far), add a number of days in advance, or add until a day.
   */
  datatype ScheduleMode =
    | NotCurrentlySet(pendingWeekday: Option<nat>, pendingDays: Option<nat>)
    | Add(days: nat)
    | AddUntil(weekday: nat)

  datatype PropertiesError =
    | InvalidTitle
    | InvalidCurrency
    | InvalidVehicleCategory
    | InvalidDefaultSchedulingMode
    | InvalidDefaultSchedulingModeWeekday
    | InvalidDefaultSchedulingModeDaysInAdvance

  datatype Properties = Properties(title: string, currency: nat, carCategory: nat, schedMode: ScheduleMode)

  /** `HomeBankDbProperties::empty()`, also its `default()`. */
  function Empty(): (p: Properties)
    ensures p.title == "" && p.currency == 1 && p.carCategory == 1
    ensures p.schedMode == NotCurrentlySet(Option.None, Option.None)
  {
    Properties("", 1, 1, NotCurrentlySet(Option.None, Option.None))
  }

  /** `HomeBankDbProperties::new`: the properties with exactly the given values. */
  function New(title: string, currency: nat, carCategory: nat, mode: ScheduleMode): (p: Properties)
    ensures p.title == title && p.currency == currency && p.carCategory == carCategory && p.schedMode == mode
  {
    Properties(title, currency, carCategory, mode)
  }

  // ---------------------------------------------------------------------
  // The scheduling-mode state machine
  // ---------------------------------------------------------------------

  /**
   * An `auto_smode` value read in mode `m`: 0 chooses add-until, on the
   * weekday already read or 1; 1 chooses add, with the number of days
   * already read or 0.  Any other value, or a mode already chosen, is an
   * error.
   */
  function ModeAfterSmode(m: ScheduleMode, v: Option<nat>): (r: Result<ScheduleMode, PropertiesError>)
    ensures r.Ok? <==> m.NotCurrentlySet? && (v == Some(0) || v == Some(1))
    ensures r.Err? ==> r.error == InvalidDefaultSchedulingMode
    ensures r.Ok? && v == Some(0) ==> r.value == AddUntil(m.pendingWeekday.GetOr(1))
    ensures r.Ok? && v == Some(1) ==> r.value == Add(m.pendingDays.GetOr(0))
  {
    match (v, m)
    case (Some(0), NotCurrentlySet(None, _)) => Ok(AddUntil(1))
    case (Some(0), NotCurrentlySet(Some(w), _)) => Ok(AddUntil(w))
    case (Some(1), NotCurrentlySet(_, None)) => Ok(Add(0))
    case (Some(1), NotCurrentlySet(_, Some(n))) => Ok(Add(n))
    case _ => Err(InvalidDefaultSchedulingMode)
  }

  /** An `auto_weekday` value `w` read in mode `m`: kept for later, or the new add-until day; an add mode ignores it. */
  function ModeAfterWeekday(m: ScheduleMode, w: nat): (r: ScheduleMode)
    ensures m.NotCurrentlySet? ==> r == m.(pendingWeekday := Some(w))
    ensures m.AddUntil? ==> r == AddUntil(w)
    ensures m.Add? ==> r == m
  {
    match m
    case NotCurrentlySet(_, n) => NotCurrentlySet(Some(w), n)
    case AddUntil(_) => AddUntil(w)
    case Add(n) => Add(n)
  }

  /** An `auto_nbdays` value `n` read in mode `m`: kept for later, or the new number of days; an add-until mode ignores it. */
  function ModeAfterDays(m: ScheduleMode, n: nat): (r: ScheduleMode)
    ensures m.NotCurrentlySet? ==> r == m.(pendingDays := Some(n))
    ensures m.Add? ==> r == Add(n)
    ensures m.AddUntil? ==> r == m
  {
    match m
    case NotCurrentlySet(w, _) => NotCurrentlySet(w, Some(n))
    case AddUntil(w) => AddUntil(w)
    case Add(_) => Add(n)
  }

  // ---------------------------------------------------------------------
  // Decoding the <properties> element
  // ---------------------------------------------------------------------

  /** The attributes the properties element may carry; any other is ignored. */
  datatype AttrName = Title | Curr | CarCategory | SMode | Weekday | NbDays | Unknown

  /** Which attribute a name denotes. */
  function FieldOf(name: string): AttrName {
    match name
    case "title" => Title
    case "curr" => Curr
    case "car_category" => CarCategory
    case "auto_smode" => SMode
    case "auto_weekday" => Weekday
    case "auto_nbdays" => NbDays
    case _ => Unknown
  }

  /** One turn of the decoding loop: the properties after attribute `a`, or the error it raises. */
  function Step(p: Properties, a: Attr): Result<Properties, PropertiesError> {
    match FieldOf(a.0)
    case Title => Ok(p.(title := a.1))
    case Curr =>
      (match ParseUsize(a.1)
       case None => Err(InvalidCurrency)
       case Some(c) => Ok(p.(currency := c)))
    case CarCategory =>
      (match ParseUsize(a.1)
       case None => Err(InvalidVehicleCategory)
       case Some(c) => Ok(p.(carCategory := c)))
    case SMode =>
      (match ModeAfterSmode(p.schedMode, ParseU8(a.1))
       case Err(e) => Err(e)
       case Ok(m) => Ok(p.(schedMode := m)))
    case Weekday =>
      (match ParseU8(a.1)
       case None => Err(InvalidDefaultSchedulingModeWeekday)
       case Some(w) => Ok(p.(schedMode := ModeAfterWeekday(p.schedMode, w))))
    case NbDays =>
      (match ParseU8(a.1)
       case None => Err(InvalidDefaultSchedulingModeDaysInAdvance)
       case Some(n) => Ok(p.(schedMode := ModeAfterDays(p.schedMode, n))))
    case Unknown => Ok(p)
  }

  /** `HomeBankDbProperties::try_from`: the loop over the attributes, from the empty properties. */
  function Decode(attrs: seq<Attr>): Result<Properties, PropertiesError> {
    Fold(Empty(), attrs, Step)
  }

  /** An attribute the loop rejects ends the decode with its error. */
  lemma StepFails(attrs: seq<Attr>, i: nat, p: Properties, e: PropertiesError)
    requires i < |attrs| && Fold(Empty(), attrs[..i], Step) == Ok(p)
    requires Step(p, attrs[i]) == Err(e)
    ensures Decode(attrs) == Err(e)
  {
    FoldStep(Empty(), attrs, i, Step, p);
    FoldFailureStops(Empty(), attrs, i + 1, Step);
  }

  /**
   * `HomeBankDbProperties::try_from`: the loop updates the properties
   * attribute by attribute, moving the scheduling mode through its states,
   * and returns at the first error.
   */
  method TryFrom(attrs: seq<Attr>) returns (r: Result<Properties, PropertiesError>)
    ensures r == Decode(attrs)
  {
    var props := Empty();
    var i := 0;
    while i < |attrs|
      invariant 0 <= i <= |attrs|
      invariant Fold(Empty(), attrs[..i], Step) == Ok(props)
    {
      ghost var before := props;
      var (name, value) := attrs[i];
      match FieldOf(name) {
        case Title =>
          props := props.(title := value);
        case Curr =>
          var c := ParseUsize(value);
          if c.None? {
            StepFails(attrs, i, before, InvalidCurrency);
            return Err(InvalidCurrency);
          }
          props := props.(currency := c.value);
        case CarCategory =>
          var c := ParseUsize(value);
          if c.None? {
            StepFails(attrs, i, before, InvalidVehicleCategory);
            return Err(InvalidVehicleCategory);
          }
          props := props.(carCategory := c.value);
        case SMode =>
          var v := ParseU8(value);
          match (v, props.schedMode) {
            case (Some(0), NotCurrentlySet(None, _)) =>
              props := props.(schedMode := AddUntil(1));
            case (Some(0), NotCurrentlySet(Some(w), _)) =>
              props := props.(schedMode := AddUntil(w));
            case (Some(1), NotCurrentlySet(_, None)) =>
              props := props.(schedMode := Add(0));
            case (Some(1), NotCurrentlySet(_, Some(n))) =>
              props := props.(schedMode := Add(n));
            case _ =>
              StepFails(attrs, i, before, InvalidDefaultSchedulingMode);
              return Err(InvalidDefaultSchedulingMode);
          }
        case Weekday =>
          var w := ParseU8(value);
          if w.None? {
            StepFails(attrs, i, before, InvalidDefaultSchedulingModeWeekday);
            return Err(InvalidDefaultSchedulingModeWeekday);
          }
          match props.schedMode {
            case NotCurrentlySet(_, n) =>
              props := props.(schedMode := NotCurrentlySet(w, n));
            case AddUntil(_) =>
              props := props.(schedMode := AddUntil(w.value));
            case Add(n) =>
              props := props.(schedMode := Add(n));
          }
        case NbDays =>
          var n := ParseU8(value);
          if n.None? {
            StepFails(attrs, i, before, InvalidDefaultSchedulingModeDaysInAdvance);
            return Err(InvalidDefaultSchedulingModeDaysInAdvance);
          }
          match props.schedMode {
            case NotCurrentlySet(w, _) =>
              props := props.(schedMode := NotCurrentlySet(w, n));
            case AddUntil(w) =>
              props := props.(schedMode := AddUntil(w));
            case Add(_) =>
              props := props.(schedMode := Add(n.value));
          }
        case Unknown =>
      }
      FoldStep(Empty(), attrs, i, Step, before);
      i := i + 1;
    }
    assert attrs[..i] == attrs;
    return Ok(props);
  }

  // ---------------------------------------------------------------------
  // What the decoder returns
  // ---------------------------------------------------------------------

  /** An `auto_smode` attribute that chooses a mode: its value, 0 or 1. */
  function ChosenMode(a: Attr): Option<nat> {
    if FieldOf(a.0) == SMode && (ParseU8(a.1) == Some(0) || ParseU8(a.1) == Some(1)) then ParseU8(a.1) else Option.None
  }

  /** The mode the first choosing `auto_smode` attribute picks, if any. */
  function FirstChosenMode(attrs: seq<Attr>): Option<nat> {
    FirstError(attrs, ChosenMode)
  }

  /** The last attribute for field `f`, read as a `u8`. */
  function LastU8(attrs: seq<Attr>, f: AttrName): Option<nat> {
    match LastOf(attrs, FieldOf, f)
    case None => Option.None
    case Some(v) => ParseU8(v)
  }

  /** The last attribute for field `f`, read as a `usize`. */
  function LastUsize(attrs: seq<Attr>, f: AttrName): Option<nat> {
    match LastOf(attrs, FieldOf, f)
    case None => Option.None
    case Some(v) => ParseUsize(v)
  }

  /**
   * The scheduling mode the attributes describe: without a choice, the
   * last weekday and number of days read; once chosen, add-until on the
   * last weekday (or 1), or add with the last number of days (or 0),
   * wherever those attributes stand relative to the choice.
   */
  function DescribedMode(attrs: seq<Attr>): ScheduleMode {
    match FirstChosenMode(attrs)
    case None => NotCurrentlySet(LastU8(attrs, Weekday), LastU8(attrs, NbDays))
    case Some(0) => AddUntil(LastU8(attrs, Weekday).GetOr(1))
    case Some(_) => Add(LastU8(attrs, NbDays).GetOr(0))
  }

  /** The properties the attributes describe: each field from the last attribute for it, or the empty value. */
  function Described(attrs: seq<Attr>): Properties {
    Properties(
      LastOf(attrs, FieldOf, Title).GetOr(""),
      LastUsize(attrs, Curr).GetOr(1),
      LastUsize(attrs, CarCategory).GetOr(1),
      DescribedMode(attrs))
  }

  /**
   * The error attribute `a` raises after the attributes `pre`, if any: a
   * number that does not parse, or an `auto_smode` that is not 0 or 1 or
   * comes after a mode was already chosen.
   */
  function Rejects(pre: seq<Attr>, a: Attr): Option<PropertiesError> {
    match FieldOf(a.0)
    case Curr => if ParseUsize(a.1).None? then Some(InvalidCurrency) else Option.None
    case CarCategory => if ParseUsize(a.1).None? then Some(InvalidVehicleCategory) else Option.None
    case SMode => if FirstChosenMode(pre).Some? || ChosenMode(a).None? then Some(InvalidDefaultSchedulingMode) else Option.None
    case Weekday => if ParseU8(a.1).None? then Some(InvalidDefaultSchedulingModeWeekday) else Option.None
    case NbDays => if ParseU8(a.1).None? then Some(InvalidDefaultSchedulingModeDaysInAdvance) else Option.None
    case _ => Option.None
  }

  /** One more attribute read: the last `u8` of field `f`. */
  lemma LastU8Snoc(pre: seq<Attr>, a: Attr, f: AttrName)
    ensures LastU8(pre + [a], f) == if FieldOf(a.0) == f then ParseU8(a.1) else LastU8(pre, f)
  {
    LastOfSnoc(pre, a, FieldOf);
  }

  /** One more attribute read: the first choice of mode. */
  lemma ChoiceOfSnoc(pre: seq<Attr>, a: Attr)
    ensures FirstChosenMode(pre + [a]) == if FirstChosenMode(pre).Some? then FirstChosenMode(pre) else ChosenMode(a)
  {
    FirstErrorSnoc(pre, a, ChosenMode);
  }

  /** An accepted `auto_smode` read: the described mode moves as the state machine does. */
  lemma ChoiceSnoc(pre: seq<Attr>, a: Attr)
    requires FieldOf(a.0) == SMode && Rejects(pre, a).None?
    ensures DescribedMode(pre + [a]) == ModeAfterSmode(DescribedMode(pre), ParseU8(a.1)).value
  {
    ChoiceOfSnoc(pre, a);
    LastU8Snoc(pre, a, Weekday);
    LastU8Snoc(pre, a, NbDays);
  }

  /** An accepted `auto_weekday` read: the described mode moves as the state machine does. */
  lemma WeekdaySnoc(pre: seq<Attr>, a: Attr)
    requires FieldOf(a.0) == Weekday && ParseU8(a.1).Some?
    ensures DescribedMode(pre + [a]) == ModeAfterWeekday(DescribedMode(pre), ParseU8(a.1).value)
  {
    ChoiceOfSnoc(pre, a);
    LastU8Snoc(pre, a, Weekday);
    LastU8Snoc(pre, a, NbDays);
  }

  /** An accepted `auto_nbdays` read: the described mode moves as the state machine does. */
  lemma DaysSnoc(pre: seq<Attr>, a: Attr)
    requires FieldOf(a.0) == NbDays && ParseU8(a.1).Some?
    ensures DescribedMode(pre + [a]) == ModeAfterDays(DescribedMode(pre), ParseU8(a.1).value)
  {
    ChoiceOfSnoc(pre, a);
    LastU8Snoc(pre, a, Weekday);
    LastU8Snoc(pre, a, NbDays);
  }

  /** Any other attribute leaves the described mode as it was. */
  lemma OtherSnoc(pre: seq<Attr>, a: Attr)
    requires FieldOf(a.0) !in {SMode, Weekday, NbDays}
    ensures DescribedMode(pre + [a]) == DescribedMode(pre)
  {
    ChoiceOfSnoc(pre, a);
    LastU8Snoc(pre, a, Weekday);
    LastU8Snoc(pre, a, NbDays);
  }

  /** An attribute read from the described properties: its error, or the properties one more attribute describes. */
  lemma AttrStep(pre: seq<Attr>, a: Attr)
    ensures Step(Described(pre), a) == if Rejects(pre, a).Some? then Err(Rejects(pre, a).value) else Ok(Described(pre + [a]))
  {
    LastOfSnoc(pre, a, FieldOf);
    if Rejects(pre, a).None? {
      match FieldOf(a.0)
      case SMode => ChoiceSnoc(pre, a);
      case Weekday => WeekdaySnoc(pre, a);
      case NbDays => DaysSnoc(pre, a);
      case _ => OtherSnoc(pre, a);
    }
  }

  /**
   * The decoder ends with the properties the attributes describe, unless
   * some attribute is rejected after those before it, in which case the
   * first rejected one decides the error.
   */
  lemma DecodeReadsAttributes(attrs: seq<Attr>)
    ensures Decode(attrs) == if FirstErrorAfter(attrs, Rejects).Some? then Err(FirstErrorAfter(attrs, Rejects).value) else Ok(Described(attrs))
  {
    forall pre, a ensures Step(Described(pre), a) == if Rejects(pre, a).Some? then Err(Rejects(pre, a).value) else Ok(Described(pre + [a])) {
      AttrStep(pre, a);
    }
    FoldPerPrefix(Empty(), attrs, Step, Rejects, Described);
  }

  // ---------------------------------------------------------------------
  // Consequences for the scheduling mode
  // ---------------------------------------------------------------------

  /** An accepted element passed every check, each after the attributes before it. */
  lemma AcceptedPassesChecks(attrs: seq<Attr>)
    requires Decode(attrs).Ok?
    ensures Decode(attrs) == Ok(Described(attrs))
    ensures forall i :: 0 <= i < |attrs| ==> Rejects(attrs[..i], attrs[i]).None?
  {
    DecodeReadsAttributes(attrs);
    FirstErrorAfterIsFirst(attrs, Rejects);
  }

  /**
   * An attribute rejected after the attributes before it, all of them
   * accepted, ends the decode with its error.
   */
  lemma RejectedAttributeFails(attrs: seq<Attr>, k: nat)
    requires k < |attrs| && Rejects(attrs[..k], attrs[k]).Some?
    requires forall j :: 0 <= j < k ==> Rejects(attrs[..j], attrs[j]).None?
    ensures Decode(attrs) == Err(Rejects(attrs[..k], attrs[k]).value)
  {
    DecodeReadsAttributes(attrs);
    FirstErrorAfterIsFirst(attrs, Rejects);
  }

  /**
   * In an accepted element the `auto_smode` attribute at `k` is the one
   * that chose the mode: its value is 0 or 1, and no choice comes before it.
   */
  lemma AcceptedChoiceIsFirst(attrs: seq<Attr>, k: nat)
    requires Decode(attrs).Ok? && k < |attrs| && FieldOf(attrs[k].0) == SMode
    ensures ParseU8(attrs[k].1) == Some(0) || ParseU8(attrs[k].1) == Some(1)
    ensures FirstChosenMode(attrs) == ParseU8(attrs[k].1)
  {
    AcceptedPassesChecks(attrs);
    assert Rejects(attrs[..k], attrs[k]).None?;
    forall j | 0 <= j < k
      ensures ChosenMode(attrs[j]).None?
    {
      assert attrs[..k][j] == attrs[j];
    }
    var i :| 0 <= i < |attrs| && ChosenMode(attrs[i]) == FirstChosenMode(attrs) &&
             forall j :: 0 <= j < i ==> ChosenMode(attrs[j]).None?;
    assert i == k;
  }

  /** A choosing `auto_smode` makes every later `auto_smode` rejected. */
  lemma ChoiceBlocksLater(attrs: seq<Attr>, i: nat, k: nat)
    requires i < k < |attrs| && ChosenMode(attrs[i]).Some? && FieldOf(attrs[k].0) == SMode
    ensures Rejects(attrs[..k], attrs[k]) == Some(InvalidDefaultSchedulingMode)
  {
    assert attrs[..k][i] == attrs[i];
  }

  /**
   * `auto_smode="1"` gives the add mode with the last `auto_nbdays` value,
   * or 0 without one, whether that attribute comes before or after it.
   */
  lemma AddReadsLastDays(attrs: seq<Attr>, k: nat)
    requires Decode(attrs).Ok? && k < |attrs| && FieldOf(attrs[k].0) == SMode && ParseU8(attrs[k].1) == Some(1)
    ensures Decode(attrs).value.schedMode == Add(LastU8(attrs, NbDays).GetOr(0))
  {
    AcceptedChoiceIsFirst(attrs, k);
    AcceptedPassesChecks(attrs);
  }

  /**
   * `auto_smode="0"` gives the add-until mode with the last `auto_weekday`
   * value, or 1 without one, whether that attribute comes before or after it.
   */
  lemma AddUntilReadsLastWeekday(attrs: seq<Attr>, k: nat)
    requires Decode(attrs).Ok? && k < |attrs| && FieldOf(attrs[k].0) == SMode && ParseU8(attrs[k].1) == Some(0)
    ensures Decode(attrs).value.schedMode == AddUntil(LastU8(attrs, Weekday).GetOr(1))
  {
    AcceptedChoiceIsFirst(attrs, k);
    AcceptedPassesChecks(attrs);
  }

  /** Without `auto_smode` no mode is chosen, and the last weekday and number of days are kept. */
  lemma NoChoiceKeepsPending(attrs: seq<Attr>)
    requires Decode(attrs).Ok? && forall i :: 0 <= i < |attrs| ==> FieldOf(attrs[i].0) != SMode
    ensures Decode(attrs).value.schedMode == NotCurrentlySet(LastU8(attrs, Weekday), LastU8(attrs, NbDays))
  {
    AcceptedPassesChecks(attrs);
    assert forall i :: 0 <= i < |attrs| ==> ChosenMode(attrs[i]).None?;
  }

  /** A second `auto_smode`, whatever the values, makes the decode fail. */
  lemma SecondChoiceRejected(attrs: seq<Attr>, i: nat, k: nat)
    requires i < k < |attrs| && FieldOf(attrs[i].0) == SMode && FieldOf(attrs[k].0) == SMode
    ensures Decode(attrs).Err?
  {
    if Decode(attrs).Ok? {
      AcceptedPassesChecks(attrs);
      AcceptedChoiceIsFirst(attrs, i);
      ChoiceBlocksLater(attrs, i, k);
    }
  }

  /** An `auto_smode` whose value is not the `u8` 0 or 1 makes the decode fail. */
  lemma BadChoiceRejected(attrs: seq<Attr>, k: nat)
    requires k < |attrs| && FieldOf(attrs[k].0) == SMode && ParseU8(attrs[k].1) != Some(0) && ParseU8(attrs[k].1) != Some(1)
    ensures Decode(attrs).Err?
  {
    if Decode(attrs).Ok? {
      AcceptedChoiceIsFirst(attrs, k);
    }
  }

  /** Once add is chosen a weekday changes nothing; once add-until is chosen a number of days changes nothing. */
  lemma ChosenModeIgnoresOther(p: Properties, a: Attr)
    requires ParseU8(a.1).Some?
    ensures p.schedMode.Add? && FieldOf(a.0) == Weekday ==> Step(p, a) == Ok(p)
    ensures p.schedMode.AddUntil? && FieldOf(a.0) == NbDays ==> Step(p, a) == Ok(p)
  {
  }
}
