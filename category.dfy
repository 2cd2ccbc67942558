/**
 * A category that transactions are filed under: its key, flags, name,
 * budget and, for a subcategory, the key of its parent.  Its full name is
 * qualified by the parent's name when the parent is in the database, and
 * `Category::try_from` reads a `<cat>` element's attributes into one.
 */
module Categories {
  import opened Wrappers
  import opened Strings
  import opened Attributes
  import opened CategoryErrors
  import opened CategoryBudgets

  datatype Category = Category(
    key: nat,
    flags: nat,
    name: string,
    budget: CategoryBudget,
    parentKey: Option<nat>)

  /** `Category::empty()`, also its `default()`. */
  function Empty(): Category {
    Category(0, 0, "", CategoryBudgets.Empty(), Option.None)
  }

  /** A subcategory names a parent. */
  predicate IsChild(c: Category) {
    c.parentKey.Some?
  }

  /** `parent_name`: the name of the parent category, looked up in the database's categories. */
  function ParentName(c: Category, cats: map<nat, Category>): (r: Option<string>)
    ensures r.Some? <==> c.parentKey.Some? && c.parentKey.value in cats
    ensures r.Some? ==> r.value == cats[c.parentKey.value].name
  {
    match c.parentKey
    case None => Option.None
    case Some(k) => if k in cats then Some(cats[k].name) else Option.None
  }

  /**
   * `full_name`: `parent:name` when the parent is in the database, the bare
   * name otherwise.  Only the parent's own name is used, not its full name.
   */
  function FullName(c: Category, cats: map<nat, Category>): (r: string)
    ensures ParentName(c, cats).None? ==> r == c.name
    ensures ParentName(c, cats).Some? ==> r == ParentName(c, cats).value + ":" + c.name
    ensures |r| >= |c.name| && r[|r| - |c.name|..] == c.name
  {
    if c.parentKey.Some? && c.parentKey.value in cats then cats[c.parentKey.value].name + ":" + c.name
    else c.name
  }

  /** `has_budget`: some slot of the budget holds an amount. */
  function HasBudget(c: Category): (r: bool)
    ensures r <==> exists i :: 0 <= i <= LAST_SLOT && c.budget.Slot(i).Some?
  {
    IsEmptyIffNoSlot(c.budget);
    !IsEmpty(c.budget)
  }

  /**
   * `budget_amount(month)`: the budget's amount for the month, which exists
   * only for months 1 to 12 of a category that has a budget.
   */
  function BudgetAmount(c: Category, month: nat): (r: Option<real>)
    ensures r == Budget(c.budget, month)
    ensures r.Some? ==> 1 <= month <= LAST_SLOT && HasBudget(c)
  {
    BudgetOfEmpty(c.budget, month);
    Budget(c.budget, month)
  }

  // ---------------------------------------------------------------------
  // Decoding a <cat> element
  // ---------------------------------------------------------------------

  /** The attributes a category element may carry; any other is ignored. */
  datatype AttrName = Name | Key | Flags | Parent | BudgetSlot(index: nat) | Unknown

  /** Which attribute a name denotes; `b0` to `b12` name the budget slots. */
  function FieldOf(name: string): (f: AttrName)
    ensures f.BudgetSlot? ==> f.index <= LAST_SLOT
  {
    match name
    case "name" => Name
    case "key" => Key
    case "flags" => Flags
    case "parent" => Parent
    case "b0" => BudgetSlot(0)
    case "b1" => BudgetSlot(1)
    case "b2" => BudgetSlot(2)
    case "b3" => BudgetSlot(3)
    case "b4" => BudgetSlot(4)
    case "b5" => BudgetSlot(5)
    case "b6" => BudgetSlot(6)
    case "b7" => BudgetSlot(7)
    case "b8" => BudgetSlot(8)
    case "b9" => BudgetSlot(9)
    case "b10" => BudgetSlot(10)
    case "b11" => BudgetSlot(11)
    case "b12" => BudgetSlot(12)
    case _ => Unknown
  }

  /** One turn of the decoding loop: the category after attribute `a`, or the error `Rejects` names for it. */
  function Step(parseReal: string -> Option<real>, c: Category, a: Attr): (r: Result<Category, CategoryError>)
    ensures FieldOf(a.0) == Unknown ==> r == Ok(c)
    ensures r.Err? <==> Rejects(parseReal, a).Some?
    ensures r.Err? ==> r.error == Rejects(parseReal, a).value
  {
    match FieldOf(a.0)
    case Name => Ok(c.(name := a.1))
    case Key =>
      (match ParseUsize(a.1)
       case None => Err(InvalidKey)
       case Some(k) => Ok(c.(key := k)))
    case Flags =>
      (match ParseUsize(a.1)
       case None => Err(InvalidFlags)
       case Some(f) => Ok(c.(flags := f)))
    case Parent =>
      (match ParseUsize(a.1)
       case None => Err(InvalidParentKey)
       case Some(p) => Ok(c.(parentKey := Some(p))))
    case BudgetSlot(i) =>
      (match parseReal(a.1)
       case None => Err(InvalidBudgetValue)
       case Some(x) =>
         match SetBudget(c.budget, i, x)
         case Err(e) => Err(e)
         case Ok(b) => Ok(c.(budget := b)))
    case Unknown => Ok(c)
  }

  function StepWith(parseReal: string -> Option<real>): (Category, Attr) -> Result<Category, CategoryError> {
    (c, a) => Step(parseReal, c, a)
  }

  /** `Category::try_from`: the loop over the attributes, from the empty category. */
  function Decode(parseReal: string -> Option<real>, attrs: seq<Attr>): Result<Category, CategoryError> {
    Fold(Empty(), attrs, StepWith(parseReal))
  }

  /** An attribute the loop rejects ends the decode with its error. */
  lemma StepFails(parseReal: string -> Option<real>, attrs: seq<Attr>, i: nat, c: Category, e: CategoryError)
    requires i < |attrs| && Fold(Empty(), attrs[..i], StepWith(parseReal)) == Ok(c)
    requires Step(parseReal, c, attrs[i]) == Err(e)
    ensures Decode(parseReal, attrs) == Err(e)
  {
    FoldStepFails(Empty(), attrs, i, StepWith(parseReal), c, e);
  }

  /**
   * `Category::try_from`: the loop updates the category attribute by
   * attribute and returns at the first error.
   */
  method TryFrom(parseReal: string -> Option<real>, attrs: seq<Attr>) returns (r: Result<Category, CategoryError>)
    ensures r == Decode(parseReal, attrs)
  {
    var cat := Empty();
    ghost var step := StepWith(parseReal);
    var i := 0;
    while i < |attrs|
      invariant 0 <= i <= |attrs|
      invariant Fold(Empty(), attrs[..i], step) == Ok(cat)
    {
      ghost var before := cat;
      var (name, value) := attrs[i];
      match FieldOf(name) {
        case Name =>
          cat := cat.(name := value);
        case Key =>
          var k := ParseUsize(value);
          if k.None? {
            StepFails(parseReal, attrs, i, before, InvalidKey);
            return Err(InvalidKey);
          }
          cat := cat.(key := k.value);
        case Flags =>
          var f := ParseUsize(value);
          if f.None? {
            StepFails(parseReal, attrs, i, before, InvalidFlags);
            return Err(InvalidFlags);
          }
          cat := cat.(flags := f.value);
        case Parent =>
          var p := ParseUsize(value);
          if p.None? {
            StepFails(parseReal, attrs, i, before, InvalidParentKey);
            return Err(InvalidParentKey);
          }
          cat := cat.(parentKey := p);
        case BudgetSlot(index) =>
          var amount := parseReal(value);
          if amount.None? {
            StepFails(parseReal, attrs, i, before, InvalidBudgetValue);
            return Err(InvalidBudgetValue);
          }
          // `b0` to `b12` name slots 0 to 12, so `set_budget` cannot fail here
          cat := cat.(budget := SetBudget(cat.budget, index, amount.value).value);
        case Unknown =>
      }
      FoldStep(Empty(), attrs, i, step, before);
      i := i + 1;
    }
    assert attrs[..i] == attrs;
    return Ok(cat);
  }

  // ---------------------------------------------------------------------
  // What the decoder returns, attribute by attribute
  // ---------------------------------------------------------------------

  /** The error attribute `a` raises wherever it stands, if any: a key, flags, parent or budget amount that does not parse. */
  function Rejects(parseReal: string -> Option<real>, a: Attr): Option<CategoryError> {
    match FieldOf(a.0)
    case Key => if ParseUsize(a.1).None? then Some(InvalidKey) else Option.None
    case Flags => if ParseUsize(a.1).None? then Some(InvalidFlags) else Option.None
    case Parent => if ParseUsize(a.1).None? then Some(InvalidParentKey) else Option.None
    case BudgetSlot(_) => if parseReal(a.1).None? then Some(InvalidBudgetValue) else Option.None
    case _ => Option.None
  }

  function RejectsWith(parseReal: string -> Option<real>): Attr -> Option<CategoryError> {
    a => Rejects(parseReal, a)
  }

  /** The last attribute for field `f`, read as a `usize`. */
  function LastUsize(attrs: seq<Attr>, f: AttrName): Option<nat> {
    match LastOf(attrs, FieldOf, f)
    case None => Option.None
    case Some(v) => ParseUsize(v)
  }

  /** The amount the last attribute for budget slot `i` gives, if any. */
  function LastAmount(parseReal: string -> Option<real>, attrs: seq<Attr>, i: nat): Option<real> {
    match LastOf(attrs, FieldOf, BudgetSlot(i))
    case None => Option.None
    case Some(v) => parseReal(v)
  }

  /** The budget whose every slot holds the last amount given for it. */
  function LastBudget(parseReal: string -> Option<real>, attrs: seq<Attr>): (b: CategoryBudget)
    ensures forall i :: 0 <= i <= LAST_SLOT ==> b.Slot(i) == LastAmount(parseReal, attrs, i)
  {
    CategoryBudget(
      LastAmount(parseReal, attrs, 0), LastAmount(parseReal, attrs, 1), LastAmount(parseReal, attrs, 2),
      LastAmount(parseReal, attrs, 3), LastAmount(parseReal, attrs, 4), LastAmount(parseReal, attrs, 5),
      LastAmount(parseReal, attrs, 6), LastAmount(parseReal, attrs, 7), LastAmount(parseReal, attrs, 8),
      LastAmount(parseReal, attrs, 9), LastAmount(parseReal, attrs, 10), LastAmount(parseReal, attrs, 11),
      LastAmount(parseReal, attrs, 12))
  }

  /** The category the attributes describe: each field from the last attribute for it, or the empty category's value. */
  function Described(parseReal: string -> Option<real>, attrs: seq<Attr>): Category {
    Category(
      LastUsize(attrs, Key).GetOr(0),
      LastUsize(attrs, Flags).GetOr(0),
      LastOf(attrs, FieldOf, Name).GetOr(""),
      LastBudget(parseReal, attrs),
      LastUsize(attrs, Parent))
  }

  /** One more attribute read: the last amount of each budget slot. */
  lemma LastAmountSnoc(parseReal: string -> Option<real>, pre: seq<Attr>, a: Attr)
    ensures forall i :: LastAmount(parseReal, pre + [a], i) ==
                        if FieldOf(a.0) == BudgetSlot(i) then parseReal(a.1) else LastAmount(parseReal, pre, i)
  {
    LastOfSnoc(pre, a, FieldOf);
  }

  /** Reading a budget attribute from the described budget sets its slot in the budget one more attribute describes. */
  lemma BudgetStep(parseReal: string -> Option<real>, pre: seq<Attr>, a: Attr, i: nat, x: real)
    requires FieldOf(a.0) == BudgetSlot(i) && parseReal(a.1) == Some(x)
    ensures i <= LAST_SLOT
    ensures SetBudget(LastBudget(parseReal, pre), i, x) == Ok(LastBudget(parseReal, pre + [a]))
  {
    LastAmountSnoc(parseReal, pre, a);
    SlotsDetermine(SetBudget(LastBudget(parseReal, pre), i, x).value, LastBudget(parseReal, pre + [a]));
  }

  /** Any other attribute leaves the described budget as it was. */
  lemma BudgetKept(parseReal: string -> Option<real>, pre: seq<Attr>, a: Attr)
    requires !FieldOf(a.0).BudgetSlot?
    ensures LastBudget(parseReal, pre + [a]) == LastBudget(parseReal, pre)
  {
    LastAmountSnoc(parseReal, pre, a);
    SlotsDetermine(LastBudget(parseReal, pre + [a]), LastBudget(parseReal, pre));
  }

  /** A budget attribute read from the described category: its error, or the category one more attribute describes. */
  lemma BudgetAttrStep(parseReal: string -> Option<real>, pre: seq<Attr>, a: Attr)
    requires FieldOf(a.0).BudgetSlot?
    ensures Step(parseReal, Described(parseReal, pre), a) ==
            if Rejects(parseReal, a).Some? then Err(Rejects(parseReal, a).value) else Ok(Described(parseReal, pre + [a]))
  {
    var c, c' := Described(parseReal, pre), Described(parseReal, pre + [a]);
    if parseReal(a.1).Some? {
      LastOfSnoc(pre, a, FieldOf);
      BudgetStep(parseReal, pre, a, FieldOf(a.0).index, parseReal(a.1).value);
      assert c' == c.(budget := c'.budget);
    }
  }

  /** Any other attribute read from the described category: its error, or the category one more attribute describes. */
  lemma OtherAttrStep(parseReal: string -> Option<real>, pre: seq<Attr>, a: Attr)
    requires !FieldOf(a.0).BudgetSlot?
    ensures Step(parseReal, Described(parseReal, pre), a) ==
            if Rejects(parseReal, a).Some? then Err(Rejects(parseReal, a).value) else Ok(Described(parseReal, pre + [a]))
  {
    var c, c' := Described(parseReal, pre), Described(parseReal, pre + [a]);
    BudgetKept(parseReal, pre, a);
    LastOfSnoc(pre, a, FieldOf);
    match FieldOf(a.0)
    case Name =>
      assert c' == c.(name := a.1);
    case Key =>
      assert LastUsize(pre + [a], Key) == ParseUsize(a.1);
      assert c' == c.(key := c'.key);
    case Flags =>
      assert LastUsize(pre + [a], Flags) == ParseUsize(a.1);
      assert c' == c.(flags := c'.flags);
    case Parent =>
      assert LastUsize(pre + [a], Parent) == ParseUsize(a.1);
      assert c' == c.(parentKey := ParseUsize(a.1));
    case Unknown =>
      assert c' == c;
  }

  /**
   * The decoder reads each field from the last attribute that sets it:
   * the result is the described category, unless some attribute is
   * rejected, in which case the first rejected one decides the error.
   */
  lemma DecodeReadsLastValues(parseReal: string -> Option<real>, attrs: seq<Attr>)
    ensures Decode(parseReal, attrs) ==
            if FirstError(attrs, RejectsWith(parseReal)).Some? then Err(FirstError(attrs, RejectsWith(parseReal)).value)
            else Ok(Described(parseReal, attrs))
  {
    forall pre, a ensures StepWith(parseReal)(Described(parseReal, pre), a) ==
                          if RejectsWith(parseReal)(a).Some? then Err(RejectsWith(parseReal)(a).value) else Ok(Described(parseReal, pre + [a]))
    {
      if FieldOf(a.0).BudgetSlot? {
        BudgetAttrStep(parseReal, pre, a);
      } else {
        OtherAttrStep(parseReal, pre, a);
      }
    }
    SlotsDetermine(LastBudget(parseReal, []), CategoryBudgets.Empty());
    FoldPerAttribute(Empty(), attrs, StepWith(parseReal), RejectsWith(parseReal), (pre: seq<Attr>) => Described(parseReal, pre));
  }

  /** The decode fails exactly when some attribute is rejected, and then with the first rejected attribute's error. */
  lemma DecodeErrors(parseReal: string -> Option<real>, attrs: seq<Attr>)
    ensures Decode(parseReal, attrs).Err? <==> FirstError(attrs, RejectsWith(parseReal)).Some?
    ensures Decode(parseReal, attrs).Err? ==> Decode(parseReal, attrs).error == FirstError(attrs, RejectsWith(parseReal)).value
  {
    DecodeReadsLastValues(parseReal, attrs);
  }

  /**
   * An attribute the decoder rejects makes the decode fail, with that
   * attribute's own error when every attribute before it is accepted.
   */
  lemma RejectedAttributeFails(parseReal: string -> Option<real>, attrs: seq<Attr>, k: nat)
    requires k < |attrs| && Rejects(parseReal, attrs[k]).Some?
    ensures Decode(parseReal, attrs).Err?
    ensures (forall j :: 0 <= j < k ==> Rejects(parseReal, attrs[j]).None?) ==>
              Decode(parseReal, attrs) == Err(Rejects(parseReal, attrs[k]).value)
  {
    DecodeErrors(parseReal, attrs);
    var check := RejectsWith(parseReal);
    assert check(attrs[k]) == Rejects(parseReal, attrs[k]);
    assert forall j :: 0 <= j < k ==> check(attrs[j]) == Rejects(parseReal, attrs[j]);
    FirstErrorAt(attrs, check, k);
  }

  /** An attribute the decoder does not know, wherever it stands, changes nothing. */
  lemma UnknownIgnored(parseReal: string -> Option<real>, x: seq<Attr>, a: Attr, y: seq<Attr>)
    requires FieldOf(a.0) == Unknown
    ensures Decode(parseReal, x + [a] + y) == Decode(parseReal, x + y)
  {
    FoldSkips(Empty(), x, a, y, StepWith(parseReal));
  }
}
