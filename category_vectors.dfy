/** `Category::try_from` and `has_budget` on the elements the crate's own unit tests use. */
module CategoryVectors {
  import opened Wrappers
  import opened Strings
  import opened Attributes
  import opened CategoryBudgets
  import opened Categories

  /** Decoding one more attribute. */
  lemma DecodeSnoc(parseReal: string -> Option<real>, pre: seq<Attr>, a: Attr)
    ensures Decode(parseReal, pre + [a]) ==
            match Decode(parseReal, pre)
            case Err(e) => Err(e)
            case Ok(c) => Step(parseReal, c, a)
  {
    assert (pre + [a])[..|pre|] == pre;
  }

  lemma ParseSmall()
    ensures ParseUsize("1") == Some(1)
    ensures ParseUsize("2") == Some(2)
  {
  }

  /** `key="1" name="Name"`: everything else keeps the empty category's value. */
  lemma SimpleCategoryVector(parseReal: string -> Option<real>)
    ensures Decode(parseReal, [("key", "1"), ("name", "Name")]) == Ok(Categories.Empty().(key := 1, name := "Name"))
  {
    ParseSmall();
    var c1 := Categories.Empty().(key := 1);
    assert FieldOf("key") == Key && FieldOf("name") == Name;
    DecodeSnoc(parseReal, [], ("key", "1"));
    assert Decode(parseReal, [("key", "1")]) == Ok(c1);
    DecodeSnoc(parseReal, [("key", "1")], ("name", "Name"));
  }

  /** `key="2" name="Name" parent="1"`: a subcategory of category 1. */
  lemma SubcategoryVector(parseReal: string -> Option<real>)
    ensures Decode(parseReal, [("key", "2"), ("name", "Name"), ("parent", "1")]) ==
            Ok(Categories.Empty().(key := 2, name := "Name", parentKey := Some(1)))
  {
    ParseSmall();
    var c1 := Categories.Empty().(key := 2);
    var c2 := c1.(name := "Name");
    assert FieldOf("key") == Key && FieldOf("name") == Name && FieldOf("parent") == Parent;
    DecodeSnoc(parseReal, [], ("key", "2"));
    assert Decode(parseReal, [("key", "2")]) == Ok(c1);
    DecodeSnoc(parseReal, [("key", "2")], ("name", "Name"));
    assert Decode(parseReal, [("key", "2"), ("name", "Name")]) == Ok(c2);
    DecodeSnoc(parseReal, [("key", "2"), ("name", "Name")], ("parent", "1"));
    assert [("key", "2"), ("name", "Name")] + [("parent", "1")] == [("key", "2"), ("name", "Name"), ("parent", "1")];
  }

  /**
   * `key="1" name="Name" b0="-400" b2="-200"`: an every-month amount and a
   * February amount, which the every-month amount then hides.
   */
  lemma BudgetVector(parseReal: string -> Option<real>)
    requires parseReal("-400") == Some(-400.0) && parseReal("-200") == Some(-200.0)
    ensures Decode(parseReal, [("key", "1"), ("name", "Name"), ("b0", "-400"), ("b2", "-200")]) ==
            Ok(Categories.Empty().(key := 1, name := "Name",
                                   budget := CategoryBudgets.Empty().(eachMonth := Some(-400.0), february := Some(-200.0))))
    ensures Budget(CategoryBudgets.Empty().(eachMonth := Some(-400.0), february := Some(-200.0)), 2) == Some(-400.0)
  {
    ParseSmall();
    var c1 := Categories.Empty().(key := 1);
    var c2 := c1.(name := "Name");
    var c3 := c2.(budget := CategoryBudgets.Empty().(eachMonth := Some(-400.0)));
    assert FieldOf("key") == Key && FieldOf("name") == Name;
    assert FieldOf("b0") == BudgetSlot(0) && FieldOf("b2") == BudgetSlot(2);
    DecodeSnoc(parseReal, [], ("key", "1"));
    assert Decode(parseReal, [("key", "1")]) == Ok(c1);
    DecodeSnoc(parseReal, [("key", "1")], ("name", "Name"));
    assert Decode(parseReal, [("key", "1"), ("name", "Name")]) == Ok(c2);
    DecodeSnoc(parseReal, [("key", "1"), ("name", "Name")], ("b0", "-400"));
    assert [("key", "1"), ("name", "Name")] + [("b0", "-400")] == [("key", "1"), ("name", "Name"), ("b0", "-400")];
    assert Decode(parseReal, [("key", "1"), ("name", "Name"), ("b0", "-400")]) == Ok(c3);
    DecodeSnoc(parseReal, [("key", "1"), ("name", "Name"), ("b0", "-400")], ("b2", "-200"));
    assert [("key", "1"), ("name", "Name"), ("b0", "-400")] + [("b2", "-200")] ==
           [("key", "1"), ("name", "Name"), ("b0", "-400"), ("b2", "-200")];
  }

  /** A category with an empty budget has none; one with a February amount has one. */
  lemma HasBudgetVectors()
    ensures !HasBudget(Category(157, 1, "Parking", CategoryBudgets.Empty(), Some(106)))
    ensures HasBudget(Category(157, 1, "Parking", CategoryBudgets.Empty().(february := Some(2.0)), Some(106)))
  {
    var b := CategoryBudgets.Empty().(february := Some(2.0));
    assert b.Slot(2).Some?;
  }
}
