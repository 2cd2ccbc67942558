/** The space-separated tag list of a transaction. */
module TransactionTags {
  import opened Strings
  import opened Seqs

  /** The character between two tags. */
  const TAG_SEPARATOR: char := ' '

  function NonEmpty(s: string): bool { s != "" }

  /** Gluing the pieces back together is not affected by dropping empty pieces. */
  lemma {:induction false} ConcatDropsEmpty(pieces: seq<string>)
    ensures Concat(Filter(pieces, NonEmpty)) == Concat(pieces)
    decreases |pieces|
  {
    if pieces != [] {
      ConcatDropsEmpty(pieces[1..]);
      var kept := if NonEmpty(pieces[0]) then [pieces[0]] else [];
      assert Filter(pieces, NonEmpty) == kept + Filter(pieces[1..], NonEmpty);
      if NonEmpty(pieces[0]) {
        assert (kept + Filter(pieces[1..], NonEmpty))[1..] == Filter(pieces[1..], NonEmpty);
      } else {
        assert kept + Filter(pieces[1..], NonEmpty) == Filter(pieces[1..], NonEmpty);
      }
    }
  }

  /**
   * `split_tags`: the pieces between spaces, with the empty ones dropped.
   * No tag is empty or holds a space, and the tags are the input's
   * characters, in order, minus the spaces.
   */
  function SplitTags(s: string): (tags: seq<string>)
    ensures forall t :: t in tags ==> t != "" && TAG_SEPARATOR !in t
    ensures Concat(tags) == Remove(s, TAG_SEPARATOR)
  {
    var pieces := Split(s, [TAG_SEPARATOR]);
    SplitPiecesAvoidSeparator(s, TAG_SEPARATOR);
    ConcatSplit(s, TAG_SEPARATOR);
    ConcatDropsEmpty(pieces);
    FilterMembers(pieces, NonEmpty);
    Filter(pieces, NonEmpty)
  }

  /** A value with only spaces, or nothing, gives no tags. */
  lemma {:induction false} BlankGivesNoTags(s: string)
    requires forall i :: 0 <= i < |s| ==> s[i] == TAG_SEPARATOR
    ensures SplitTags(s) == []
  {
    AllSeparators(s);
    NonEmptyPiecesConcat(SplitTags(s));
  }

  lemma {:induction false} AllSeparators(s: string)
    requires forall i :: 0 <= i < |s| ==> s[i] == TAG_SEPARATOR
    ensures Remove(s, TAG_SEPARATOR) == ""
    decreases |s|
  {
    if s != [] {
      AllSeparators(s[1..]);
    }
  }

  /** Non-empty pieces glue together into something non-empty. */
  lemma NonEmptyPiecesConcat(pieces: seq<string>)
    requires forall t :: t in pieces ==> t != ""
    ensures pieces != [] ==> Concat(pieces) != ""
  {
    if pieces != [] {
      assert pieces[0] in pieces;
    }
  }

  /** The documented examples: no tags from a blank value. */
  lemma BlankVectors()
    ensures SplitTags("") == [] && SplitTags(" ") == []
  {
    BlankGivesNoTags("");
    BlankGivesNoTags(" ");
  }

  /** One word is one tag. */
  lemma OneWordVector()
    ensures SplitTags("this") == ["this"]
  {
    SplitWithoutSeparator("this", [TAG_SEPARATOR]);
    assert Filter(["this"], NonEmpty) == ["this"] + Filter([], NonEmpty);
  }

  /** Two words with one space between them are two tags, in order. */
  lemma TwoWords(w1: string, w2: string)
    requires w1 != "" && w2 != "" && TAG_SEPARATOR !in w1 && TAG_SEPARATOR !in w2
    ensures SplitTags(w1 + [TAG_SEPARATOR] + w2) == [w1, w2]
  {
    SplitWithoutSeparator(w2, [TAG_SEPARATOR]);
    SplitAtFirst(w1, w2, [TAG_SEPARATOR]);
    var pieces := [w1, w2];
    assert Split(w1 + [TAG_SEPARATOR] + w2, [TAG_SEPARATOR]) == pieces;
    assert Filter(pieces[1..], NonEmpty) == [w2] + Filter([], NonEmpty);
    assert Filter(pieces, NonEmpty) == [w1] + Filter(pieces[1..], NonEmpty);
  }

  /** The documented example with two words. */
  lemma TwoWordVector()
    ensures SplitTags("this that") == ["this", "that"]
  {
    assert "this that" == "this" + [TAG_SEPARATOR] + "that";
    TwoWords("this", "that");
  }

}
