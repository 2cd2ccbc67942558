/**
 * A category's budget: an amount for every month at once, and one for each
 * of the twelve months.  Slot 0 is the every-month amount and slots 1 to 12
 * are January to December; a set every-month amount hides the others.
 */
module CategoryBudgets {
  import opened Wrappers
  import opened CategoryErrors

  /** The highest slot number: December. */
  const LAST_SLOT: nat := 12

  datatype CategoryBudget = CategoryBudget(
    eachMonth: Option<real>,
    january: Option<real>,
    february: Option<real>,
    march: Option<real>,
    april: Option<real>,
    may: Option<real>,
    june: Option<real>,
    july: Option<real>,
    august: Option<real>,
    september: Option<real>,
    october: Option<real>,
    november: Option<real>,
    december: Option<real>)
  {
    /** The amount held in slot `i`. */
    function Slot(i: nat): Option<real>
      requires i <= LAST_SLOT
    {
      match i
      case 0 => eachMonth
      case 1 => january
      case 2 => february
      case 3 => march
      case 4 => april
      case 5 => may
      case 6 => june
      case 7 => july
      case 8 => august
      case 9 => september
      case 10 => october
      case 11 => november
      case _ => december
    }
  }

  /** `CategoryBudget::empty()`, also its `new()` and `default()`: no amount anywhere. */
  function Empty(): (b: CategoryBudget)
    ensures forall i :: 0 <= i <= LAST_SLOT ==> b.Slot(i).None?
  {
    var none: Option<real> := Option.None;
    CategoryBudget(none, none, none, none, none, none, none, none, none, none, none, none, none)
  }

  /** `is_empty`: the budget equals the empty one. */
  predicate IsEmpty(b: CategoryBudget) {
    b == Empty()
  }

  /** A budget is empty exactly when none of its thirteen slots holds an amount. */
  lemma IsEmptyIffNoSlot(b: CategoryBudget)
    ensures IsEmpty(b) <==> forall i :: 0 <= i <= LAST_SLOT ==> b.Slot(i).None?
  {
    if forall i :: 0 <= i <= LAST_SLOT ==> b.Slot(i).None? {
      assert b.Slot(0).None? && b.Slot(1).None? && b.Slot(2).None? && b.Slot(3).None?;
      assert b.Slot(4).None? && b.Slot(5).None? && b.Slot(6).None? && b.Slot(7).None?;
      assert b.Slot(8).None? && b.Slot(9).None? && b.Slot(10).None? && b.Slot(11).None?;
      assert b.Slot(12).None?;
    }
  }

  /**
   * `set_budget(index, amount)`: slot `index` now holds `amount` and every
   * other slot is as it was; an index past December is rejected.  The
   * budget is returned rather than updated in place.
   */
  function SetBudget(b: CategoryBudget, index: nat, amount: real): (r: Result<CategoryBudget, CategoryError>)
    ensures r.Ok? <==> index <= LAST_SLOT
    ensures r.Err? ==> r.error == InvalidBudgetProperty
    ensures r.Ok? ==> r.value.Slot(index) == Some(amount)
    ensures r.Ok? ==> forall i :: 0 <= i <= LAST_SLOT && i != index ==> r.value.Slot(i) == b.Slot(i)
    ensures r.Ok? ==> !IsEmpty(r.value)
  {
    match index
    case 0 => Ok(b.(eachMonth := Some(amount)))
    case 1 => Ok(b.(january := Some(amount)))
    case 2 => Ok(b.(february := Some(amount)))
    case 3 => Ok(b.(march := Some(amount)))
    case 4 => Ok(b.(april := Some(amount)))
    case 5 => Ok(b.(may := Some(amount)))
    case 6 => Ok(b.(june := Some(amount)))
    case 7 => Ok(b.(july := Some(amount)))
    case 8 => Ok(b.(august := Some(amount)))
    case 9 => Ok(b.(september := Some(amount)))
    case 10 => Ok(b.(october := Some(amount)))
    case 11 => Ok(b.(november := Some(amount)))
    case 12 => Ok(b.(december := Some(amount)))
    case _ => Err(InvalidBudgetProperty)
  }

  /**
   * `budget(month)`: nothing outside months 1 to 12; otherwise the
   * every-month amount when there is one, and the month's own slot when
   * there is not.
   */
  function Budget(b: CategoryBudget, month: nat): (r: Option<real>)
    ensures month == 0 || month > LAST_SLOT ==> r.None?
    ensures 1 <= month <= LAST_SLOT && b.eachMonth.Some? ==> r == b.eachMonth
    ensures 1 <= month <= LAST_SLOT && b.eachMonth.None? ==> r == b.Slot(month)
  {
    if month == 0 || month > 12 then Option.None
    else if b.eachMonth.Some? then b.eachMonth
    else
      match month
      case 1 => b.january
      case 2 => b.february
      case 3 => b.march
      case 4 => b.april
      case 5 => b.may
      case 6 => b.june
      case 7 => b.july
      case 8 => b.august
      case 9 => b.september
      case 10 => b.october
      case 11 => b.november
      case 12 => b.december
      case _ => Option.None
  }

  /** Two budgets that agree on every slot are the same budget. */
  lemma SlotsDetermine(b: CategoryBudget, c: CategoryBudget)
    requires forall i :: 0 <= i <= LAST_SLOT ==> b.Slot(i) == c.Slot(i)
    ensures b == c
  {
    assert b.Slot(0) == c.Slot(0) && b.Slot(1) == c.Slot(1) && b.Slot(2) == c.Slot(2) && b.Slot(3) == c.Slot(3);
    assert b.Slot(4) == c.Slot(4) && b.Slot(5) == c.Slot(5) && b.Slot(6) == c.Slot(6) && b.Slot(7) == c.Slot(7);
    assert b.Slot(8) == c.Slot(8) && b.Slot(9) == c.Slot(9) && b.Slot(10) == c.Slot(10) && b.Slot(11) == c.Slot(11);
    assert b.Slot(12) == c.Slot(12);
  }

  /** A month has an amount only if the budget is not empty. */
  lemma BudgetOfEmpty(b: CategoryBudget, month: nat)
    ensures Budget(b, month).Some? ==> !IsEmpty(b)
    ensures IsEmpty(b) ==> Budget(b, month).None?
  {
  }

  /** Setting the every-month amount decides every month, whatever the month slots hold. */
  lemma EachMonthOverrides(b: CategoryBudget, amount: real, month: nat)
    requires 1 <= month <= LAST_SLOT
    ensures Budget(SetBudget(b, 0, amount).value, month) == Some(amount)
  {
  }

  /**
   * Setting month `m` with no every-month amount makes `m`'s budget that
   * amount and leaves every other month's budget as it was.
   */
  lemma SetMonthBudget(b: CategoryBudget, m: nat, amount: real, month: nat)
    requires 1 <= m <= LAST_SLOT && b.eachMonth.None?
    ensures Budget(SetBudget(b, m, amount).value, month) == if month == m then Some(amount) else Budget(b, month)
  {
  }
}
