/** The loader on small event streams. */
module DbVectors {
  import opened Wrappers
  import opened Strings
  import opened Attributes
  import Groups
  import opened Db
  import Transactions
  import TransactionComplexity
  import TransactionSplit
  import TransactionDecoderVectors

  /** A group element with key 1. */
  lemma GroupDecodes(name: string)
    ensures Groups.Decode([("key", "1"), ("name", name)]) == Ok(Groups.Group(1, name))
  {
    var attrs := [("key", "1"), ("name", name)];
    assert ParseUsize("1") == Some(1);
    assert attrs[..1][..0] == [] && attrs[..1] == [("key", "1")];
    assert Fold(Groups.Empty(), attrs[..1], Groups.Step) == Ok(Groups.Group(1, ""));
  }

  /** A group element whose key is not a number. */
  lemma BadGroupRejected()
    ensures Groups.Decode([("key", "x")]) == Err(Groups.InvalidKey)
  {
    assert !IsDigit("x"[0]);
    assert ParseUsize("x").None?;
  }

  /** The scan of one more event. */
  lemma RunSnoc(parseReal: string -> Option<real>, pre: seq<Event>, e: Event)
    ensures Run(parseReal, Start(), pre + [e]) == Apply(parseReal, Run(parseReal, Start(), pre), e)
  {
    assert (pre + [e])[..|pre|] == pre;
  }

  /** A group element inside the root. */
  lemma ApplyGroup(parseReal: string -> Option<real>, st: Loader, attrs: seq<Attr>)
    requires st.inInfo
    ensures Apply(parseReal, st, StartElement("grp", attrs)) ==
            match Groups.Decode(attrs)
            case Ok(g) => st.(db := st.db.(groups := st.db.groups[g.key := g]))
            case Err(_) => st
  {
  }

  /** The root opens, then a group with key 1 is stored. */
  lemma FirstGroup(parseReal: string -> Option<real>)
    ensures Run(parseReal, Start(), [StartElement(ROOT, []), StartElement("grp", [("key", "1"), ("name", "a")])]) ==
            Loader(Empty().(groups := map[1 := Groups.Group(1, "a")]), true)
  {
    var e0, e1 := StartElement(ROOT, []), StartElement("grp", [("key", "1"), ("name", "a")]);
    GroupDecodes("a");
    RunSnoc(parseReal, [], e0);
    assert [] + [e0] == [e0];
    RunSnoc(parseReal, [e0], e1);
    ApplyGroup(parseReal, Loader(Empty(), true), e1.attrs);
    assert [e0] + [e1] == [e0, e1];
  }

  /** Inside the root a later group with the same key replaces the earlier one, and a group that does not decode is skipped. */
  lemma GroupsInside(parseReal: string -> Option<real>)
    ensures var s := [StartElement(ROOT, []), StartElement("grp", [("key", "1"), ("name", "a")]),
                      StartElement("grp", [("key", "x")]), StartElement("grp", [("key", "1"), ("name", "b")])];
      Run(parseReal, Start(), s) == Loader(Empty().(groups := map[1 := Groups.Group(1, "b")]), true)
  {
    var p := [StartElement(ROOT, []), StartElement("grp", [("key", "1"), ("name", "a")])];
    var e2, e3 := StartElement("grp", [("key", "x")]), StartElement("grp", [("key", "1"), ("name", "b")]);
    var g1 := Empty().(groups := map[1 := Groups.Group(1, "a")]);
    FirstGroup(parseReal);
    GroupDecodes("b");
    BadGroupRejected();
    RunSnoc(parseReal, p, e2);
    ApplyGroup(parseReal, Loader(g1, true), e2.attrs);
    RunSnoc(parseReal, p + [e2], e3);
    ApplyGroup(parseReal, Loader(g1, true), e3.attrs);
    assert p + [e2] + [e3] == [p[0], p[1], e2, e3];
  }

  /** After the root closes, groups are ignored. */
  lemma GroupsVector(parseReal: string -> Option<real>)
    ensures var s := [StartElement(ROOT, []), StartElement("grp", [("key", "1"), ("name", "a")]),
                      StartElement("grp", [("key", "x")]), StartElement("grp", [("key", "1"), ("name", "b")]),
                      EndElement(ROOT), StartElement("grp", [("key", "1"), ("name", "c")])];
      Load(parseReal, s).groups == map[1 := Groups.Group(1, "b")]
  {
    var p := [StartElement(ROOT, []), StartElement("grp", [("key", "1"), ("name", "a")]),
              StartElement("grp", [("key", "x")]), StartElement("grp", [("key", "1"), ("name", "b")])];
    var e4, e5 := EndElement(ROOT), StartElement("grp", [("key", "1"), ("name", "c")]);
    GroupsInside(parseReal);
    RunSnoc(parseReal, p, e4);
    RunSnoc(parseReal, p + [e4], e5);
    assert p + [e4] + [e5] == [p[0], p[1], p[2], p[3], e4, e5];
  }

  /**
   * The loader stores what the decoder as written returns: a category list
   * without amounts or memos is kept as a split entry whose lists differ in
   * length.
   */
  lemma MissingSplitListStored(parseReal: string -> Option<real>)
    ensures var tr := Transactions.Empty().(complexity := TransactionComplexity.Split(TransactionSplit.SplitTransaction(1, [Some(7)], [], [])));
      Load(parseReal, [StartElement(ROOT, []), StartElement("ope", [("scat", "7")])]).transactions == [tr] &&
      !TransactionComplexity.WellFormed(tr.complexity)
  {
    var tr := Transactions.Empty().(complexity := TransactionComplexity.Split(TransactionSplit.SplitTransaction(1, [Some(7)], [], [])));
    var e0, e1 := StartElement(ROOT, []), StartElement("ope", [("scat", "7")]);
    TransactionDecoderVectors.MissingListsVector(parseReal);
    assert Dispatch(parseReal, Empty(), "ope", [("scat", "7")]) == Empty().(transactions := [tr]);
    RunSnoc(parseReal, [], e0);
    assert [] + [e0] == [e0];
    assert Run(parseReal, Start(), [e0]) == Loader(Empty(), true);
    RunSnoc(parseReal, [e0], e1);
    assert [e0] + [e1] == [e0, e1];
  }
}
