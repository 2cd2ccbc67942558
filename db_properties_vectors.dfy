/** `HomeBankDbProperties::try_from` on the elements the crate's own unit tests use. */
module DbPropertiesVectors {
  import opened Wrappers
  import opened Strings
  import opened Attributes
  import opened DbProperties

  /** Decoding one more attribute. */
  lemma DecodeSnoc(pre: seq<Attr>, a: Attr)
    ensures Decode(pre + [a]) == match Decode(pre) { case Err(e) => Err(e) case Ok(p) => Step(p, a) }
  {
    assert (pre + [a])[..|pre|] == pre;
  }

  lemma SmallNumbers()
    ensures ParseU8("0") == Some(0) && ParseU8("1") == Some(1) && ParseU8("2") == Some(2) && ParseU8("3") == Some(3)
    ensures ParseUsize("2") == Some(2) && ParseUsize("3") == Some(3)
  {
  }

  /** `title="DbTitle"`, `curr="2"` and `car_category="3"` each set their own field only. */
  lemma FieldVectors()
    ensures Decode([("title", "DbTitle")]) == Ok(Empty().(title := "DbTitle"))
    ensures Decode([("curr", "2")]) == Ok(Empty().(currency := 2))
    ensures Decode([("car_category", "3")]) == Ok(Empty().(carCategory := 3))
  {
    SmallNumbers();
    DecodeSnoc([], ("title", "DbTitle"));
    DecodeSnoc([], ("curr", "2"));
    DecodeSnoc([], ("car_category", "3"));
  }

  /** The mode after `auto_smode="1"` alone, and after `auto_smode="0"` alone. */
  lemma ChoiceAlone()
    ensures Decode([("auto_smode", "1")]) == Ok(Empty().(schedMode := Add(0)))
    ensures Decode([("auto_smode", "0")]) == Ok(Empty().(schedMode := AddUntil(1)))
  {
    SmallNumbers();
    DecodeSnoc([], ("auto_smode", "1"));
    DecodeSnoc([], ("auto_smode", "0"));
  }

  /** `auto_smode="1"`, alone or followed by a weekday of 1 or a number of days of 0, is add with 0 days. */
  lemma AddZeroVectors()
    ensures Decode([("auto_smode", "1")]) == Ok(Empty().(schedMode := Add(0)))
    ensures Decode([("auto_smode", "1"), ("auto_nbdays", "0")]) == Ok(Empty().(schedMode := Add(0)))
    ensures Decode([("auto_smode", "1"), ("auto_weekday", "1")]) == Ok(Empty().(schedMode := Add(0)))
    ensures Decode([("auto_smode", "1"), ("auto_weekday", "1"), ("auto_nbdays", "0")]) == Ok(Empty().(schedMode := Add(0)))
  {
    SmallNumbers();
    ChoiceAlone();
    var s := [("auto_smode", "1")];
    DecodeSnoc(s, ("auto_nbdays", "0"));
    assert s + [("auto_nbdays", "0")] == [("auto_smode", "1"), ("auto_nbdays", "0")];
    DecodeSnoc(s, ("auto_weekday", "1"));
    assert s + [("auto_weekday", "1")] == [("auto_smode", "1"), ("auto_weekday", "1")];
    DecodeSnoc([("auto_smode", "1"), ("auto_weekday", "1")], ("auto_nbdays", "0"));
    assert [("auto_smode", "1"), ("auto_weekday", "1")] + [("auto_nbdays", "0")] ==
           [("auto_smode", "1"), ("auto_weekday", "1"), ("auto_nbdays", "0")];
  }

  /** `auto_smode="1"` with a number of days of 2, with or without a weekday, is add with 2 days. */
  lemma AddTwoVectors()
    ensures Decode([("auto_smode", "1"), ("auto_nbdays", "2")]) == Ok(Empty().(schedMode := Add(2)))
    ensures Decode([("auto_smode", "1"), ("auto_weekday", "1"), ("auto_nbdays", "2")]) == Ok(Empty().(schedMode := Add(2)))
  {
    SmallNumbers();
    ChoiceAlone();
    var s := [("auto_smode", "1")];
    DecodeSnoc(s, ("auto_nbdays", "2"));
    assert s + [("auto_nbdays", "2")] == [("auto_smode", "1"), ("auto_nbdays", "2")];
    DecodeSnoc(s, ("auto_weekday", "1"));
    assert s + [("auto_weekday", "1")] == [("auto_smode", "1"), ("auto_weekday", "1")];
    DecodeSnoc([("auto_smode", "1"), ("auto_weekday", "1")], ("auto_nbdays", "2"));
    assert [("auto_smode", "1"), ("auto_weekday", "1")] + [("auto_nbdays", "2")] ==
           [("auto_smode", "1"), ("auto_weekday", "1"), ("auto_nbdays", "2")];
  }

  /** `auto_smode="0"` with a weekday of 1, with or without a number of days, is add-until day 1. */
  lemma AddUntilOneVectors()
    ensures Decode([("auto_smode", "0"), ("auto_weekday", "1")]) == Ok(Empty().(schedMode := AddUntil(1)))
    ensures Decode([("auto_smode", "0"), ("auto_weekday", "1"), ("auto_nbdays", "3")]) == Ok(Empty().(schedMode := AddUntil(1)))
  {
    SmallNumbers();
    ChoiceAlone();
    var s := [("auto_smode", "0")];
    DecodeSnoc(s, ("auto_weekday", "1"));
    assert s + [("auto_weekday", "1")] == [("auto_smode", "0"), ("auto_weekday", "1")];
    DecodeSnoc([("auto_smode", "0"), ("auto_weekday", "1")], ("auto_nbdays", "3"));
    assert [("auto_smode", "0"), ("auto_weekday", "1")] + [("auto_nbdays", "3")] ==
           [("auto_smode", "0"), ("auto_weekday", "1"), ("auto_nbdays", "3")];
  }

  /** The number of days read before the choice is kept: `auto_nbdays="2" auto_smode="1"` is add with 2 days. */
  lemma DaysBeforeChoiceVector()
    ensures Decode([("auto_nbdays", "2"), ("auto_smode", "1")]) == Ok(Empty().(schedMode := Add(2)))
  {
    SmallNumbers();
    DecodeSnoc([], ("auto_nbdays", "2"));
    assert Decode([("auto_nbdays", "2")]) == Ok(Empty().(schedMode := NotCurrentlySet(Option.None, Some(2))));
    DecodeSnoc([("auto_nbdays", "2")], ("auto_smode", "1"));
    assert [("auto_nbdays", "2")] + [("auto_smode", "1")] == [("auto_nbdays", "2"), ("auto_smode", "1")];
  }
}
