/**
 * A group that accounts belong to.  `Group::try_from` reads a `<grp>`
 * element's attributes into one.
 */
module Groups {
  import opened Wrappers
  import opened Strings
  import opened Attributes

  /** What can go wrong while decoding a group. */
  datatype GroupError = InvalidKey

  datatype Group = Group(key: nat, name: string)

  /** `Group::empty()`, also its `default()`. */
  function Empty(): (g: Group)
    ensures g.key == 0 && g.name == ""
  {
    Group(0, "")
  }

  /** `Group::new`: the group with exactly the given key and name. */
  function New(key: nat, name: string): (g: Group)
    ensures g.key == key && g.name == name
  {
    Group(key, name)
  }

  // ---------------------------------------------------------------------
  // Decoding a <grp> element
  // ---------------------------------------------------------------------

  /** The attributes a group element may carry; any other is ignored. */
  datatype AttrName = Key | Name | Unknown

  /** Which attribute a name denotes. */
  function FieldOf(name: string): AttrName {
    match name
    case "key" => Key
    case "name" => Name
    case _ => Unknown
  }

  /** One turn of the decoding loop: the group after attribute `a`, or the error it raises. */
  function Step(g: Group, a: Attr): Result<Group, GroupError> {
    match FieldOf(a.0)
    case Key =>
      (match ParseUsize(a.1)
       case None => Err(InvalidKey)
       case Some(k) => Ok(g.(key := k)))
    case Name => Ok(g.(name := a.1))
    case Unknown => Ok(g)
  }

  /** `Group::try_from`: the loop over the attributes, from the empty group. */
  function Decode(attrs: seq<Attr>): Result<Group, GroupError> {
    Fold(Empty(), attrs, Step)
  }

  /** An attribute the loop rejects ends the decode with its error. */
  lemma StepFails(attrs: seq<Attr>, i: nat, g: Group, e: GroupError)
    requires i < |attrs| && Fold(Empty(), attrs[..i], Step) == Ok(g)
    requires Step(g, attrs[i]) == Err(e)
    ensures Decode(attrs) == Err(e)
  {
    FoldStep(Empty(), attrs, i, Step, g);
    FoldFailureStops(Empty(), attrs, i + 1, Step);
  }

  /**
   * `Group::try_from`: the loop updates the group attribute by attribute
   * and returns at the first error.
   */
  method TryFrom(attrs: seq<Attr>) returns (r: Result<Group, GroupError>)
    ensures r == Decode(attrs)
  {
    var grp := Empty();
    var i := 0;
    while i < |attrs|
      invariant 0 <= i <= |attrs|
      invariant Fold(Empty(), attrs[..i], Step) == Ok(grp)
    {
      ghost var before := grp;
      var (name, value) := attrs[i];
      match FieldOf(name) {
        case Key =>
          var k := ParseUsize(value);
          if k.None? {
            StepFails(attrs, i, before, InvalidKey);
            return Err(InvalidKey);
          }
          grp := grp.(key := k.value);
        case Name =>
          grp := grp.(name := value);
        case Unknown =>
      }
      FoldStep(Empty(), attrs, i, Step, before);
      i := i + 1;
    }
    assert attrs[..i] == attrs;
    return Ok(grp);
  }

  // ---------------------------------------------------------------------
  // What the decoder returns
  // ---------------------------------------------------------------------

  /** The error attribute `a` raises wherever it stands, if any: a key that does not parse as a `usize`. */
  function Rejects(a: Attr): Option<GroupError> {
    if FieldOf(a.0) == Key && ParseUsize(a.1).None? then Some(InvalidKey) else Option.None
  }

  /** The group the attributes describe: the last key and the last name, or the empty group's values. */
  function Described(attrs: seq<Attr>): Group {
    Group(
      match LastOf(attrs, FieldOf, Key) { case None => 0 case Some(v) => ParseUsize(v).GetOr(0) },
      LastOf(attrs, FieldOf, Name).GetOr(""))
  }

  /** An attribute read from the described group: its error, or the group one more attribute describes. */
  lemma AttrStep(pre: seq<Attr>, a: Attr)
    ensures Step(Described(pre), a) == if Rejects(a).Some? then Err(Rejects(a).value) else Ok(Described(pre + [a]))
  {
    LastOfSnoc(pre, a, FieldOf);
  }

  /**
   * The decoder reads the key and the name from the last attribute that
   * sets each, and fails with InvalidKey exactly when some `key` attribute
   * is not a `usize`.
   */
  lemma DecodeReadsLastValues(attrs: seq<Attr>)
    ensures Decode(attrs) == if FirstError(attrs, Rejects).Some? then Err(InvalidKey) else Ok(Described(attrs))
  {
    forall pre, a ensures Step(Described(pre), a) == if Rejects(a).Some? then Err(Rejects(a).value) else Ok(Described(pre + [a])) {
      AttrStep(pre, a);
    }
    FoldPerAttribute(Empty(), attrs, Step, Rejects, Described);
  }

  /** An attribute the decoder does not know, wherever it stands, changes nothing. */
  lemma UnknownIgnored(x: seq<Attr>, a: Attr, y: seq<Attr>)
    requires FieldOf(a.0) == Unknown
    ensures Decode(x + [a] + y) == Decode(x + y)
  {
    FoldAppend(Empty(), x + [a], y, Step);
    FoldAppend(Empty(), x, y, Step);
    FoldAppend(Empty(), x, [a], Step);
    assert [a][..0] == [];
  }
}
