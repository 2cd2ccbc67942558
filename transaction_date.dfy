/**
 * HomeBank stores dates as a count of days; day 1 is 0001-01-01 of the
 * proleptic Gregorian calendar.  A date is modelled here by that same day
 * number (chrono's `NaiveDate` ordinal), and `FromYmd` gives the day number
 * of a calendar date.
 */
module TransactionDate {
  import opened Wrappers
  import opened Strings

  /** A calendar day, as the number of days since 0000-12-31. */
  type Date = int

  /** The day number of year `y`, month `m`, day `d` (days-from-civil). */
  function FromYmd(y: int, m: int, d: int): Date
    requires 1 <= m <= 12 && 1 <= d <= 31
  {
    var y' := if m <= 2 then y - 1 else y;
    var era := y' / 400;
    var yoe := y' - era * 400;
    var doy := (153 * (if m > 2 then m - 3 else m + 9) + 2) / 5 + d - 1;
    var doe := yoe * 365 + yoe / 4 - yoe / 100 + doy;
    era * 146097 + doe - 305
  }

  /** Earliest date HomeBank supports, 1900-01-01. */
  const HB_MIN_DATE: Date := 693596
  /** Latest date HomeBank supports, 2200-12-31. */
  const HB_MAX_DATE: Date := 803533
  /** Day 0 of the stored encoding, 0000-12-31. */
  const JULIAN_ZERO: Date := 0
  /** The default date of new records, 2000-01-01. */
  const DEFAULT_DATE: Date := 730120
  /** The last date chrono can represent, +262142-12-31. */
  const CHRONO_MAX_DATE: Date := 95745399

  /** The constants are the calendar dates they are documented as. */
  lemma WindowConstants()
    ensures HB_MIN_DATE == FromYmd(1900, 1, 1) && HB_MAX_DATE == FromYmd(2200, 12, 31)
  {
  }

  lemma EncodingConstants()
    ensures JULIAN_ZERO == FromYmd(0, 12, 31)
  {
  }

  lemma FirstDay()
    ensures FromYmd(1, 1, 1) == 1
  {
  }

  lemma DefaultDateConstant()
    ensures DEFAULT_DATE == FromYmd(2000, 1, 1)
  {
  }

  lemma ChronoMaxConstant()
    ensures CHRONO_MAX_DATE == FromYmd(262142, 12, 31)
  {
  }

  /** `clamp_date`: the nearest date inside HomeBank's supported window. */
  function ClampDate(d: Date): (r: Date)
    ensures HB_MIN_DATE <= r <= HB_MAX_DATE
    ensures HB_MIN_DATE <= d <= HB_MAX_DATE ==> r == d
    ensures d < HB_MIN_DATE ==> r == HB_MIN_DATE
    ensures d > HB_MAX_DATE ==> r == HB_MAX_DATE
  {
    var upper := if d < HB_MAX_DATE then d else HB_MAX_DATE;
    if upper > HB_MIN_DATE then upper else HB_MIN_DATE
  }

  /** Clamping a clamped date changes nothing. */
  lemma ClampIdempotent(d: Date)
    ensures ClampDate(ClampDate(d)) == ClampDate(d)
  {
  }

  /** Clamping keeps the order of dates. */
  lemma ClampMonotone(d: Date, e: Date)
    requires d <= e
    ensures ClampDate(d) <= ClampDate(e)
  {
  }

  /** `unclamped_julian_date_from_u32`: `d` days after day 0. */
  function UnclampedJulianDate(d: nat): (r: Date)
    requires d <= U32_MAX
    ensures r - JULIAN_ZERO == d
  {
    JULIAN_ZERO + d
  }

  /** `julian_date_from_u32`: the stored day count, clamped to the supported window. */
  function JulianDate(d: nat): (r: Date)
    requires d <= U32_MAX
    ensures HB_MIN_DATE <= r <= HB_MAX_DATE
    ensures HB_MIN_DATE <= UnclampedJulianDate(d) <= HB_MAX_DATE ==> r == UnclampedJulianDate(d)
  {
    ClampDate(UnclampedJulianDate(d))
  }

  /**
   * `julian_date_from_u32` as written: chrono's date addition runs before
   * the clamp and panics (None here) once the sum passes chrono's last date.
   */
  function JulianDateAsWritten(d: nat): (r: Option<Date>)
    requires d <= U32_MAX
    ensures r.Some? <==> JULIAN_ZERO + d <= CHRONO_MAX_DATE
    ensures r.Some? ==> r.value == JulianDate(d)
  {
    if JULIAN_ZERO + d <= CHRONO_MAX_DATE then Some(ClampDate(JULIAN_ZERO + d)) else Option.None
  }

  /**
   * A stored date attribute (`rdate`, `mdate`, `date`): a `u32` day count,
   * clamped to the supported window.
   */
  function DateOf(value: string): (r: Option<Date>)
    ensures r.Some? <==> ParseU32(value).Some?
    ensures r.Some? ==> HB_MIN_DATE <= r.value <= HB_MAX_DATE
    ensures r.Some? && HB_MIN_DATE <= JULIAN_ZERO + ParseU32(value).value <= HB_MAX_DATE ==> r.value - JULIAN_ZERO == ParseU32(value).value
  {
    match ParseU32(value)
    case None => Option.None
    case Some(d) => Some(JulianDate(d))
  }

  /** The largest stored day count makes the conversion as written panic instead of clamping. */
  lemma JulianDateAsWrittenPanics()
    ensures JulianDateAsWritten(U32_MAX).None?
    ensures JulianDate(U32_MAX) == HB_MAX_DATE
  {
  }

  /** The documented conversions inside the window. */
  lemma DateVectors()
    ensures JulianDate(693596) == FromYmd(1900, 1, 1)
    ensures JulianDate(803533) == FromYmd(2200, 12, 31)
    ensures JulianDate(719163) == FromYmd(1970, 1, 1)
  {
  }

  /** The documented conversions outside the window are clamped to its ends. */
  lemma ClampedDateVectors()
    ensures JulianDate(693500) == FromYmd(1900, 1, 1)
    ensures JulianDate(693597) == FromYmd(1900, 1, 2)
    ensures JulianDate(803534) == FromYmd(2200, 12, 31)
  {
  }

  /** The documented conversions without the clamp. */
  lemma UnclampedDateVectors()
    ensures UnclampedJulianDate(693500) == FromYmd(1899, 9, 27)
    ensures UnclampedJulianDate(693596) == FromYmd(1900, 1, 1)
    ensures UnclampedJulianDate(693597) == FromYmd(1900, 1, 2)
  {
  }

  lemma UnclampedWindowEnds()
    ensures UnclampedJulianDate(803533) == FromYmd(2200, 12, 31)
    ensures UnclampedJulianDate(803534) == FromYmd(2201, 1, 1)
    ensures UnclampedJulianDate(1) == FromYmd(1, 1, 1)
  {
  }
}
