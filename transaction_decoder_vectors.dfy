/**
 * `Transaction::try_from` on the elements its own unit tests use, and on
 * the two elements that separate the split check as written from the
 * corrected one.
 */
module TransactionDecoderVectors {
  import opened Wrappers
  import opened Strings
  import opened Attributes
  import opened TransactionErrors
  import opened TransactionTypes
  import opened TransactionComplexity
  import TransactionSplit
  import opened Transactions
  import opened TransactionDecoder

  /** Decoding a one-attribute element: one step, then the checks after the loop. */
  lemma DecodeOne(mode: SplitCheck, parseReal: string -> Option<real>, a: Attr)
    ensures Decoded(mode, parseReal, [a]) ==
            match Step(mode, parseReal, Start(), a)
            case Err(e) => Err(e)
            case Ok(s) => Finish(mode, s)
  {
    var step := StepWith(mode, parseReal);
    assert [a][..0] == [];
    assert Fold(Start(), [a], step) == step(Start(), a);
  }

  /** Decoding a two-attribute element: two steps, then the checks after the loop. */
  lemma DecodeTwo(mode: SplitCheck, parseReal: string -> Option<real>, a: Attr, b: Attr)
    ensures Decoded(mode, parseReal, [a, b]) ==
            match Step(mode, parseReal, Start(), a)
            case Err(e) => Err(e)
            case Ok(s) =>
              match Step(mode, parseReal, s, b)
              case Err(e) => Err(e)
              case Ok(t) => Finish(mode, t)
  {
    var step := StepWith(mode, parseReal);
    assert [a, b][..1] == [a];
    assert [a][..0] == [];
    assert Fold(Start(), [a], step) == step(Start(), a);
    match step(Start(), a)
    case Err(e) =>
    case Ok(s) =>
      assert Fold(Start(), [a, b], step) == step(s, b);
  }

  lemma ParseTen()
    ensures ParseUsize("10") == Some(10)
  {
    assert Unsigned("10") == "10";
    assert "10"[..1] == "1" && "1"[..0] == [];
    assert DecimalValue("1") == 1;
  }

  /** An element without attributes decodes to the default transaction. */
  lemma NoAttributes(parseReal: string -> Option<real>)
    ensures Decode(parseReal, []) == Ok(Empty())
    ensures DecodeAsWritten(parseReal, []) == Ok(Empty())
  {
  }

  lemma AccountVector(parseReal: string -> Option<real>)
    ensures DecodeAsWritten(parseReal, [("account", "1")]) == Ok(Empty().(account := 1))
  {
    DecodeOne(AsWritten, parseReal, ("account", "1"));
    assert ParseUsize("1") == Some(1);
  }

  /** A positive amount makes an income, a negative one an expense; the complexity stays the default. */
  lemma PositiveAmountVector(parseReal: string -> Option<real>)
    requires parseReal("1") == Some(1.0)
    ensures DecodeAsWritten(parseReal, [("amount", "1")]) == Ok(Empty().(amount := 1.0, ttype := Income))
  {
    DecodeOne(AsWritten, parseReal, ("amount", "1"));
  }

  lemma NegativeAmountVector(parseReal: string -> Option<real>)
    requires parseReal("-1") == Some(-1.0)
    ensures DecodeAsWritten(parseReal, [("amount", "-1")]) == Ok(Empty().(amount := -1.0, ttype := Expense))
  {
    DecodeOne(AsWritten, parseReal, ("amount", "-1"));
  }

  lemma GoodCategoryVector(parseReal: string -> Option<real>)
    ensures DecodeAsWritten(parseReal, [("category", "1")]) ==
            Ok(Empty().(complexity := Simple(SimpleTransaction(Some(1), 0.0, Option.None, Option.None))))
  {
    DecodeOne(AsWritten, parseReal, ("category", "1"));
    assert ParseUsize("1") == Some(1);
  }

  lemma BadCategoryVector(parseReal: string -> Option<real>)
    ensures DecodeAsWritten(parseReal, [("category", "-1")]) == Err(InvalidCategory("-1"))
  {
    DecodeOne(AsWritten, parseReal, ("category", "-1"));
    ParseRejectsSigns("1", USIZE_MAX);
  }

  lemma FlagsVector(parseReal: string -> Option<real>)
    ensures DecodeAsWritten(parseReal, [("flags", "1")]) == Ok(Empty().(flags := Some(1)))
  {
    DecodeOne(AsWritten, parseReal, ("flags", "1"));
    assert ParseUsize("1") == Some(1);
  }

  lemma PayeeVector(parseReal: string -> Option<real>)
    ensures DecodeAsWritten(parseReal, [("payee", "5")]) == Ok(Empty().(payee := Some(5)))
  {
    DecodeOne(AsWritten, parseReal, ("payee", "5"));
    assert ParseUsize("5") == Some(5);
  }

  /** A pay mode or status that is not a number is rejected with the attribute's own error. */
  lemma BadCodeVectors(parseReal: string -> Option<real>)
    ensures DecodeAsWritten(parseReal, [("paymode", "none")]) == Err(InvalidPayMode)
    ensures DecodeAsWritten(parseReal, [("st", "none")]) == Err(InvalidStatus)
  {
    DecodeOne(AsWritten, parseReal, ("paymode", "none"));
    DecodeOne(AsWritten, parseReal, ("st", "none"));
    assert !IsDigit("none"[0]);
    assert ParseUsize("none").None?;
  }

  /** A transfer key, then a destination: the loop only records the link. */
  lemma TransferSteps(mode: SplitCheck, parseReal: string -> Option<real>, key: string, dst: string)
    requires ParseUsize(key).Some? && ParseUsize(dst).Some?
    ensures Decoded(mode, parseReal, [("kxfer", key), ("dst_account", dst)]) ==
            Finish(mode, Start().(isTransfer := true, xfer := Transfer(ParseUsize(key).value, ParseUsize(dst).value)))
  {
    var k, d := ParseUsize(key).value, ParseUsize(dst).value;
    var s1 := Start().(isTransfer := true, xfer := Transfer(k, 0));
    assert FieldOf("kxfer") == Kxfer;
    assert Step(mode, parseReal, Start(), ("kxfer", key)) == Ok(s1);
    assert FieldOf("dst_account") == DstAccount;
    assert Step(mode, parseReal, s1, ("dst_account", dst)) == Ok(s1.(xfer := Transfer(k, d)));
    DecodeTwo(mode, parseReal, ("kxfer", key), ("dst_account", dst));
  }

  /** A key and a destination, both non-zero, link a transfer. */
  lemma TransferVector(parseReal: string -> Option<real>)
    ensures DecodeAsWritten(parseReal, [("kxfer", "10"), ("dst_account", "2")]) == Ok(Empty().(ttype := TransferOf(Transfer(10, 2))))
  {
    ParseTen();
    assert ParseUsize("2") == Some(2);
    TransferSteps(AsWritten, parseReal, "10", "2");
  }

  /** A zero key is rejected. */
  lemma ZeroKeyVector(parseReal: string -> Option<real>)
    ensures DecodeAsWritten(parseReal, [("kxfer", "0"), ("dst_account", "2")]) == Err(InvalidTransferKey)
  {
    assert ParseUsize("0") == Some(0);
    assert ParseUsize("2") == Some(2);
    TransferSteps(AsWritten, parseReal, "0", "2");
  }

  /** A zero destination is rejected. */
  lemma ZeroDestinationVector(parseReal: string -> Option<real>)
    ensures DecodeAsWritten(parseReal, [("kxfer", "10"), ("dst_account", "0")]) == Err(InvalidDestinationAccount)
  {
    ParseTen();
    assert ParseUsize("0") == Some(0);
    TransferSteps(AsWritten, parseReal, "10", "0");
  }

  /** With both zero, the key is reported. */
  lemma ZeroLinkVector(parseReal: string -> Option<real>)
    ensures DecodeAsWritten(parseReal, [("kxfer", "0"), ("dst_account", "0")]) == Err(InvalidTransferKey)
  {
    assert ParseUsize("0") == Some(0);
    assert ParseUsize("0") == Some(0);
    TransferSteps(AsWritten, parseReal, "0", "0");
  }

  /** `"a||b"` holds two entries, `"7"` one. */
  lemma SplitValueVectors()
    ensures TransactionSplit.ParseSplitValues("a||b") == ["a", "b"]
    ensures TransactionSplit.ParseSplitValues("7") == ["7"]
  {
    assert "a||b" == "a" + TransactionSplit.SPLIT_SEPARATOR + "b";
    SplitAtFirst("a", "b", TransactionSplit.SPLIT_SEPARATOR);
    SplitWithoutSeparator("b", TransactionSplit.SPLIT_SEPARATOR);
    SplitWithoutSeparator("7", TransactionSplit.SPLIT_SEPARATOR);
  }

  /** The list `["7"]` holds category 7. */
  lemma SevenCategories()
    ensures ParseUsize("7") == Some(7)
    ensures TransactionSplit.ParseSplitCategories(["7"]) == Ok([Some(7)])
  {
    assert ParseUsize("7") == Some(7);
    var pieces := ["7"];
    assert pieces[0] == "7" && pieces[1..] == [];
    assert TransactionSplit.ParseSplitCategories(pieces[1..]) == Ok([]);
    assert [Some(7)] + [] == [Some(7)];
  }

  /** The category list `"7"` read first: a split entry of one split with its category only. */
  lemma CategoryListStep(mode: SplitCheck, parseReal: string -> Option<real>)
    ensures Step(mode, parseReal, Start(), ("scat", "7")) ==
            Ok(Start().(isSimple := Some(false), split := TransactionSplit.SplitTransaction(1, [Some(7)], [], [])))
  {
    SplitValueVectors();
    SevenCategories();
    assert FieldOf("scat") == Scat;
  }

  /** The memo list `"a||b"` read first: a split entry of two splits with its memos only. */
  lemma MemoListStep(mode: SplitCheck, parseReal: string -> Option<real>)
    ensures Step(mode, parseReal, Start(), ("smem", "a||b")) ==
            Ok(Start().(isSimple := Some(false), split := TransactionSplit.SplitTransaction(2, [], [], [Some("a"), Some("b")])))
  {
    SplitValueVectors();
    assert TransactionSplit.ParseSplitMemos(["a", "b"]) == [Some("a"), Some("b")];
    assert FieldOf("smem") == Smem;
  }

  /**
   * Two memos, then one category: the check as written lets the element
   * through with split lists of different lengths, the corrected check
   * reports the mismatch.
   */
  lemma MismatchedListsVector(parseReal: string -> Option<real>)
    ensures DecodeAsWritten(parseReal, [("smem", "a||b"), ("scat", "7")]) ==
            Ok(Empty().(complexity := Split(TransactionSplit.SplitTransaction(1, [Some(7)], [], [Some("a"), Some("b")]))))
    ensures Decode(parseReal, [("smem", "a||b"), ("scat", "7")]) == Err(MismatchedSplitNumber(2, 1))
  {
    SplitValueVectors();
    SevenCategories();
    assert FieldOf("scat") == Scat;
    MemoListStep(AsWritten, parseReal);
    MemoListStep(Corrected, parseReal);
    DecodeTwo(AsWritten, parseReal, ("smem", "a||b"), ("scat", "7"));
    DecodeTwo(Corrected, parseReal, ("smem", "a||b"), ("scat", "7"));
  }

  /**
   * A category list without amounts or memos: the check as written builds
   * a split entry whose lists disagree in length, the corrected check
   * reports the missing list.
   */
  lemma MissingListsVector(parseReal: string -> Option<real>)
    ensures DecodeAsWritten(parseReal, [("scat", "7")]) ==
            Ok(Empty().(complexity := Split(TransactionSplit.SplitTransaction(1, [Some(7)], [], []))))
    ensures Decode(parseReal, [("scat", "7")]) == Err(MismatchedSplitNumber(1, 0))
  {
    CategoryListStep(AsWritten, parseReal);
    CategoryListStep(Corrected, parseReal);
    DecodeOne(AsWritten, parseReal, ("scat", "7"));
    DecodeOne(Corrected, parseReal, ("scat", "7"));
  }
}
