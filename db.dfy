/**
 * The database a HomeBank file decodes to, and the loader that builds it
 * from the file's stream of XML events: only elements between the
 * `homebank` root's start and end are read; each is handed to the decoder
 * its name selects; a record that decodes is stored under its key (a later
 * record with the same key replaces it) or, for a transaction, appended;
 * a record that does not decode, and every other event, is skipped.
 */
module Db {
  import opened Wrappers
  import opened Attributes
  import opened Seqs
  import DbProperties
  import Currencies
  import Groups
  import Accounts
  import Payees
  import Categories
  import Transactions
  import TransactionComplexity
  import TransactionDecoder
  import TransactionDecoderResults

  /** One event of the XML reader; `StreamError` is a read error. */
  datatype Event =
    | StartElement(name: string, attrs: seq<Attr>)
    | EndElement(name: string)
    | OtherEvent
    | StreamError

  datatype HomeBankDb = HomeBankDb(
    properties: DbProperties.Properties,
    currencies: map<nat, Currencies.Currency>,
    groups: map<nat, Groups.Group>,
    accounts: map<nat, Accounts.Account>,
    payees: map<nat, Payees.Payee>,
    categories: map<nat, Categories.Category>,
    transactions: seq<Transactions.Transaction>)

  /** `HomeBankDb::empty()`: default properties and nothing stored. */
  function Empty(): (db: HomeBankDb)
    ensures db.properties == DbProperties.Empty()
    ensures db.currencies == map[] && db.groups == map[] && db.accounts == map[]
    ensures db.payees == map[] && db.categories == map[] && db.transactions == []
  {
    HomeBankDb(DbProperties.Empty(), map[], map[], map[], map[], map[], [])
  }

  /** The name of the root element. */
  const ROOT := "homebank"

  // ---------------------------------------------------------------------
  // The loader
  // ---------------------------------------------------------------------

  /** The loader's state: the database so far and whether the scan is inside the root. */
  datatype Loader = Loader(db: HomeBankDb, inInfo: bool)

  function Start(): Loader {
    Loader(Empty(), false)
  }

  /** What a start element inside the root does to the database, by its name. */
  function Dispatch(parseReal: string -> Option<real>, db: HomeBankDb, name: string, attrs: seq<Attr>): HomeBankDb {
    match name
    case "properties" =>
      (match DbProperties.Decode(attrs)
       case Ok(p) => db.(properties := p)
       case Err(_) => db)
    case "cur" =>
      (match Currencies.Decode(parseReal, attrs)
       case Ok(c) => db.(currencies := db.currencies[c.key := c])
       case Err(_) => db)
    case "grp" =>
      (match Groups.Decode(attrs)
       case Ok(g) => db.(groups := db.groups[g.key := g])
       case Err(_) => db)
    case "account" =>
      (match Accounts.Decode(parseReal, attrs)
       case Ok(a) => db.(accounts := db.accounts[a.key := a])
       case Err(_) => db)
    case "pay" =>
      (match Payees.Decode(attrs)
       case Ok(p) => db.(payees := db.payees[p.key := p])
       case Err(_) => db)
    case "cat" =>
      (match Categories.Decode(parseReal, attrs)
       case Ok(c) => db.(categories := db.categories[c.key := c])
       case Err(_) => db)
    case "ope" =>
      (match TransactionDecoder.DecodeAsWritten(parseReal, attrs)
       case Ok(t) => db.(transactions := db.transactions + [t])
       case Err(_) => db)
    case _ => db
  }

  /**
   * A start element changes at most the collection its name selects,
   * transactions are only appended, one at most, and a rejected element
   * changes nothing.
   */
  lemma DispatchChangesItsCollection(parseReal: string -> Option<real>, db: HomeBankDb, name: string, attrs: seq<Attr>)
    ensures var r := Dispatch(parseReal, db, name, attrs);
      (Rejected(parseReal, name, attrs) ==> r == db) &&
      (name != "properties" ==> r.properties == db.properties) &&
      (name != "cur" ==> r.currencies == db.currencies) &&
      (name != "grp" ==> r.groups == db.groups) &&
      (name != "account" ==> r.accounts == db.accounts) &&
      (name != "pay" ==> r.payees == db.payees) &&
      (name != "cat" ==> r.categories == db.categories) &&
      (name != "ope" ==> r.transactions == db.transactions) &&
      db.transactions <= r.transactions && |r.transactions| <= |db.transactions| + 1
  {
  }

  /**
   * One event of the scan: the root's start and end tags move in and out of
   * the root, and only a start element inside the root touches the database.
   */
  function Apply(parseReal: string -> Option<real>, s: Loader, e: Event): (r: Loader)
    ensures IsRootStart(e) ==> r == s.(inInfo := true)
    ensures e == EndElement(ROOT) ==> r == s.(inInfo := false)
    ensures r.db != s.db ==> s.inInfo && e.StartElement? && e.name != ROOT
    ensures s.db.transactions <= r.db.transactions
  {
    match e
    case StartElement(name, attrs) =>
      if name == ROOT then s.(inInfo := true)
      else if s.inInfo then s.(db := Dispatch(parseReal, s.db, name, attrs))
      else s
    case EndElement(name) => if name == ROOT then s.(inInfo := false) else s
    case OtherEvent => s
    case StreamError => s
  }

  /** The scan of `events` from the state `s`. */
  function Run(parseReal: string -> Option<real>, s: Loader, events: seq<Event>): (r: Loader)
    ensures s.db.transactions <= r.db.transactions
    decreases |events|
  {
    if events == [] then s
    else Apply(parseReal, Run(parseReal, s, events[..|events| - 1]), events[|events| - 1])
  }

  /** The database the whole stream of events decodes to. */
  function Load(parseReal: string -> Option<real>, events: seq<Event>): HomeBankDb {
    Run(parseReal, Start(), events).db
  }

  /** The dispatch on the element's name inside the root: decode, then store or append. */
  method Store(parseReal: string -> Option<real>, db0: HomeBankDb, name: string, attrs: seq<Attr>) returns (db: HomeBankDb)
    ensures db == Dispatch(parseReal, db0, name, attrs)
  {
    db := db0;
    match name {
      case "properties" =>
        var props := DbProperties.TryFrom(attrs);
        if props.Ok? {
          db := db.(properties := props.value);
        }
      case "cur" =>
        var curr := Currencies.TryFrom(parseReal, attrs);
        if curr.Ok? {
          db := db.(currencies := db.currencies[curr.value.key := curr.value]);
        }
      case "grp" =>
        var grp := Groups.TryFrom(attrs);
        if grp.Ok? {
          db := db.(groups := db.groups[grp.value.key := grp.value]);
        }
      case "account" =>
        var acct := Accounts.TryFrom(parseReal, attrs);
        if acct.Ok? {
          db := db.(accounts := db.accounts[acct.value.key := acct.value]);
        }
      case "pay" =>
        var payee := Payees.TryFrom(attrs);
        if payee.Ok? {
          db := db.(payees := db.payees[payee.value.key := payee.value]);
        }
      case "cat" =>
        var cat := Categories.TryFrom(parseReal, attrs);
        if cat.Ok? {
          db := db.(categories := db.categories[cat.value.key := cat.value]);
        }
      case "fav" =>
      case "ope" =>
        var tr := TransactionDecoder.TryFrom(parseReal, attrs);
        if tr.Ok? {
          db := db.(transactions := db.transactions + [tr.value]);
        }
      case _ =>
    }
  }

  /** `HomeBankDb::try_from` once the file is open: the event loop. */
  method TryFrom(parseReal: string -> Option<real>, events: seq<Event>) returns (db: HomeBankDb)
    ensures db == Load(parseReal, events)
  {
    db := Empty();
    var inInfo := false;
    var i := 0;
    while i < |events|
      invariant 0 <= i <= |events|
      invariant Run(parseReal, Start(), events[..i]) == Loader(db, inInfo)
    {
      match events[i] {
        case StartElement(name, attrs) =>
          if name == ROOT {
            inInfo := true;
          } else if inInfo {
            db := Store(parseReal, db, name, attrs);
          }
        case EndElement(name) =>
          if name == ROOT {
            inInfo := false;
          }
        case OtherEvent =>
        case StreamError =>
      }
      assert events[..i + 1][..i] == events[..i];
      i := i + 1;
    }
    assert events[..i] == events;
  }

  // ---------------------------------------------------------------------
  // Skipped events
  // ---------------------------------------------------------------------

  /** A start element that changes nothing: an unknown name, `fav`, or a record its decoder rejects. */
  predicate Rejected(parseReal: string -> Option<real>, name: string, attrs: seq<Attr>) {
    match name
    case "properties" => DbProperties.Decode(attrs).Err?
    case "cur" => Currencies.Decode(parseReal, attrs).Err?
    case "grp" => Groups.Decode(attrs).Err?
    case "account" => Accounts.Decode(parseReal, attrs).Err?
    case "pay" => Payees.Decode(attrs).Err?
    case "cat" => Categories.Decode(parseReal, attrs).Err?
    case "ope" => TransactionDecoder.DecodeAsWritten(parseReal, attrs).Err?
    case _ => true
  }

  /** An event that never changes the loader: a read error, a non-element event, an end other than the root's, or a rejected start element. */
  predicate Inert(parseReal: string -> Option<real>, e: Event)
    ensures Inert(parseReal, e) ==> forall s :: Apply(parseReal, s, e) == s
  {
    match e
    case StartElement(name, attrs) => name != ROOT && Rejected(parseReal, name, attrs)
    case EndElement(name) => name != ROOT
    case OtherEvent => true
    case StreamError => true
  }

  lemma InertStep(parseReal: string -> Option<real>, s: Loader, e: Event)
    requires Inert(parseReal, e)
    ensures Apply(parseReal, s, e) == s
  {
  }

  /** The scan of two pieces is the scan of the second from where the first ends. */
  lemma {:induction false} RunAppend(parseReal: string -> Option<real>, s: Loader, a: seq<Event>, b: seq<Event>)
    ensures Run(parseReal, s, a + b) == Run(parseReal, Run(parseReal, s, a), b)
    decreases |b|
  {
    if b == [] {
      assert a + b == a;
    } else {
      var b' := b[..|b| - 1];
      assert (a + b)[..|a + b| - 1] == a + b';
      assert (a + b)[|a + b| - 1] == b[|b| - 1];
      RunAppend(parseReal, s, a, b');
    }
  }

  /**
   * Read errors, non-element events, stray end elements and records that
   * fail to decode are skipped: removing one from anywhere in the stream
   * gives the same database, so the scan goes on past it.
   */
  lemma InertEventSkipped(parseReal: string -> Option<real>, pre: seq<Event>, e: Event, post: seq<Event>)
    requires Inert(parseReal, e)
    ensures Load(parseReal, pre + [e] + post) == Load(parseReal, pre + post)
  {
    RunAppend(parseReal, Start(), pre + [e], post);
    RunAppend(parseReal, Start(), pre, [e]);
    RunAppend(parseReal, Start(), pre, post);
    assert [e][..0] == [];
    InertStep(parseReal, Run(parseReal, Start(), pre), e);
  }

  predicate IsRootStart(e: Event) {
    e.StartElement? && e.name == ROOT
  }

  /** Outside the root nothing but a root start has an effect. */
  lemma {:induction false} OutsideIgnored(parseReal: string -> Option<real>, s: Loader, events: seq<Event>)
    requires !s.inInfo
    requires forall i :: 0 <= i < |events| ==> !IsRootStart(events[i])
    ensures Run(parseReal, s, events) == s
    decreases |events|
  {
    if events != [] {
      var pre := events[..|events| - 1];
      forall i | 0 <= i < |pre|
        ensures !IsRootStart(pre[i])
      {
        assert pre[i] == events[i];
      }
      OutsideIgnored(parseReal, s, pre);
    }
  }

  // ---------------------------------------------------------------------
  // What the loaded database holds, position by position
  // ---------------------------------------------------------------------

  /** Whether an event opens (`true`) or closes (`false`) the root element. */
  function Marker(e: Event): Option<bool> {
    match e
    case StartElement(name, _) => if name == ROOT then Some(true) else None
    case EndElement(name) => if name == ROOT then Some(false) else None
    case _ => None
  }

  /** The last root marker among `events`. */
  function LastMarker(events: seq<Event>): Option<bool>
    decreases |events|
  {
    if events == [] then None
    else if Marker(events[|events| - 1]).Some? then Marker(events[|events| - 1])
    else LastMarker(events[..|events| - 1])
  }

  /** After `events` the scan is inside the root: the last root marker opened it. */
  predicate Inside(events: seq<Event>) {
    LastMarker(events) == Some(true)
  }

  /** The element that position `i` hands to a decoder: a start element other than the root's, inside the root. */
  function ElementAt(events: seq<Event>, i: int): Option<(string, seq<Attr>)> {
    if 0 <= i < |events| && events[i].StartElement? && events[i].name != ROOT && Inside(events[..i])
    then Some((events[i].name, events[i].attrs))
    else Option.None
  }

  /** The record of kind `tag` that position `i` decodes to, if the element there is one and decodes. */
  function RecordAt<T>(events: seq<Event>, i: int, tag: string, decode: seq<Attr> -> Option<T>): Option<T> {
    match ElementAt(events, i)
    case Some(el) => if el.0 == tag then decode(el.1) else Option.None
    case None => Option.None
  }

  function PropertiesOf(attrs: seq<Attr>): Option<DbProperties.Properties> {
    DbProperties.Decode(attrs).ToOption()
  }

  function CurrencyOf(parseReal: string -> Option<real>): seq<Attr> -> Option<Currencies.Currency> {
    attrs => Currencies.Decode(parseReal, attrs).ToOption()
  }

  function GroupOf(attrs: seq<Attr>): Option<Groups.Group> {
    Groups.Decode(attrs).ToOption()
  }

  function AccountOf(parseReal: string -> Option<real>): seq<Attr> -> Option<Accounts.Account> {
    attrs => Accounts.Decode(parseReal, attrs).ToOption()
  }

  function PayeeOf(attrs: seq<Attr>): Option<Payees.Payee> {
    Payees.Decode(attrs).ToOption()
  }

  function CategoryOf(parseReal: string -> Option<real>): seq<Attr> -> Option<Categories.Category> {
    attrs => Categories.Decode(parseReal, attrs).ToOption()
  }

  function TransactionOf(parseReal: string -> Option<real>): seq<Attr> -> Option<Transactions.Transaction> {
    attrs => TransactionDecoder.DecodeAsWritten(parseReal, attrs).ToOption()
  }

  function CurrencyKey(c: Currencies.Currency): nat { c.key }
  function GroupKey(g: Groups.Group): nat { g.key }
  function AccountKey(a: Accounts.Account): nat { a.key }
  function PayeeKey(p: Payees.Payee): nat { p.key }
  function CategoryKey(c: Categories.Category): nat { c.key }

  /** The records of kind `tag`, each under its key, a later one replacing an earlier one. */
  function Keyed<T>(events: seq<Event>, tag: string, decode: seq<Attr> -> Option<T>, key: T -> nat): map<nat, T>
    decreases |events|
  {
    if events == [] then map[]
    else
      var rest := Keyed(events[..|events| - 1], tag, decode, key);
      match RecordAt(events, |events| - 1, tag, decode)
      case Some(x) => rest[key(x) := x]
      case None => rest
  }

  /** The last record of kind `tag`. */
  function LastRecord<T>(events: seq<Event>, tag: string, decode: seq<Attr> -> Option<T>): Option<T>
    decreases |events|
  {
    if events == [] then Option.None
    else if RecordAt(events, |events| - 1, tag, decode).Some? then RecordAt(events, |events| - 1, tag, decode)
    else LastRecord(events[..|events| - 1], tag, decode)
  }

  /** The records of kind `tag`, in the order of the stream. */
  function Records<T>(events: seq<Event>, tag: string, decode: seq<Attr> -> Option<T>): seq<T>
    decreases |events|
  {
    if events == [] then []
    else
      var rest := Records(events[..|events| - 1], tag, decode);
      match RecordAt(events, |events| - 1, tag, decode)
      case Some(x) => rest + [x]
      case None => rest
  }

  /** The database described element by element. */
  function Described(parseReal: string -> Option<real>, events: seq<Event>): HomeBankDb {
    HomeBankDb(
      LastRecord(events, "properties", PropertiesOf).GetOr(DbProperties.Empty()),
      Keyed(events, "cur", CurrencyOf(parseReal), CurrencyKey),
      Keyed(events, "grp", GroupOf, GroupKey),
      Keyed(events, "account", AccountOf(parseReal), AccountKey),
      Keyed(events, "pay", PayeeOf, PayeeKey),
      Keyed(events, "cat", CategoryOf(parseReal), CategoryKey),
      Records(events, "ope", TransactionOf(parseReal)))
  }

  /** The description of one more event: the element it hands over, if any, dispatched. */
  lemma DescribedSnoc(parseReal: string -> Option<real>, events: seq<Event>)
    requires events != []
    ensures var pre := events[..|events| - 1];
      Described(parseReal, events) ==
        match ElementAt(events, |events| - 1)
        case Some(el) => Dispatch(parseReal, Described(parseReal, pre), el.0, el.1)
        case None => Described(parseReal, pre)
  {
  }

  /** The scan holds the described database, and is inside the root exactly when the last root marker opened it. */
  lemma {:induction false} RunDescribed(parseReal: string -> Option<real>, events: seq<Event>)
    ensures Run(parseReal, Start(), events) == Loader(Described(parseReal, events), Inside(events))
    decreases |events|
  {
    if events != [] {
      RunDescribed(parseReal, events[..|events| - 1]);
      DescribedSnoc(parseReal, events);
    }
  }

  /** What a position hands over depends only on the events up to it. */
  lemma ElementAtPrefix(events: seq<Event>, m: nat, i: int)
    requires 0 <= i < m <= |events|
    ensures ElementAt(events[..m], i) == ElementAt(events, i)
  {
    assert events[..m][..i] == events[..i];
    assert events[..m][i] == events[i];
  }

  /** So does the record decoded there. */
  lemma RecordAtPrefix<T>(events: seq<Event>, m: nat, i: int, tag: string, decode: seq<Attr> -> Option<T>)
    requires 0 <= i < m <= |events|
    ensures RecordAt(events[..m], i, tag, decode) == RecordAt(events, i, tag, decode)
  {
    ElementAtPrefix(events, m, i);
  }

  /** Every record stored under some key was decoded from a position that holds that key. */
  lemma {:induction false} KeyedStoresRecords<T>(events: seq<Event>, tag: string, decode: seq<Attr> -> Option<T>, key: T -> nat, k: nat)
    requires k in Keyed(events, tag, decode, key)
    ensures key(Keyed(events, tag, decode, key)[k]) == k
    ensures exists i :: 0 <= i < |events| && RecordAt(events, i, tag, decode) == Some(Keyed(events, tag, decode, key)[k])
    decreases |events|
  {
    var n := |events|;
    var pre := events[..n - 1];
    var r := RecordAt(events, n - 1, tag, decode);
    if r.Some? && key(r.value) == k {
      assert Keyed(events, tag, decode, key)[k] == r.value;
    } else {
      assert Keyed(events, tag, decode, key)[k] == Keyed(pre, tag, decode, key)[k];
      KeyedStoresRecords(pre, tag, decode, key, k);
      var i :| 0 <= i < |pre| && RecordAt(pre, i, tag, decode) == Some(Keyed(pre, tag, decode, key)[k]);
      RecordAtPrefix(events, n - 1, i, tag, decode);
    }
  }

  /**
   * A record is the one stored under its key when no later position holds
   * a record with the same key: the last record for a key wins.
   */
  lemma {:induction false} KeyedLastWins<T>(events: seq<Event>, tag: string, decode: seq<Attr> -> Option<T>, key: T -> nat, i: nat)
    requires i < |events| && RecordAt(events, i, tag, decode).Some?
    requires forall j :: i < j < |events| && RecordAt(events, j, tag, decode).Some? ==>
               key(RecordAt(events, j, tag, decode).value) != key(RecordAt(events, i, tag, decode).value)
    ensures var x := RecordAt(events, i, tag, decode).value;
      key(x) in Keyed(events, tag, decode, key) && Keyed(events, tag, decode, key)[key(x)] == x
    decreases |events|
  {
    var n := |events|;
    if i < n - 1 {
      var pre := events[..n - 1];
      RecordAtPrefix(events, n - 1, i, tag, decode);
      forall j | i < j < |pre| && RecordAt(pre, j, tag, decode).Some?
        ensures key(RecordAt(pre, j, tag, decode).value) != key(RecordAt(pre, i, tag, decode).value)
      {
        RecordAtPrefix(events, n - 1, j, tag, decode);
      }
      KeyedLastWins(pre, tag, decode, key, i);
    }
  }

  /** Every key some position holds a record for is stored. */
  lemma {:induction false} KeyedContains<T>(events: seq<Event>, tag: string, decode: seq<Attr> -> Option<T>, key: T -> nat, i: nat)
    requires i < |events| && RecordAt(events, i, tag, decode).Some?
    ensures key(RecordAt(events, i, tag, decode).value) in Keyed(events, tag, decode, key)
    decreases |events|
  {
    var n := |events|;
    if i < n - 1 {
      RecordAtPrefix(events, n - 1, i, tag, decode);
      KeyedContains(events[..n - 1], tag, decode, key, i);
    }
  }

  /** The last record is the record at some position after which no position holds one; without any, there is none. */
  lemma {:induction false} LastRecordIsLast<T>(events: seq<Event>, tag: string, decode: seq<Attr> -> Option<T>)
    ensures LastRecord(events, tag, decode).None? <==> forall i :: 0 <= i < |events| ==> RecordAt(events, i, tag, decode).None?
    ensures LastRecord(events, tag, decode).Some? ==>
              exists i :: 0 <= i < |events| && RecordAt(events, i, tag, decode) == LastRecord(events, tag, decode) &&
                forall j :: i < j < |events| ==> RecordAt(events, j, tag, decode).None?
    decreases |events|
  {
    var n := |events|;
    if n > 0 && RecordAt(events, n - 1, tag, decode).None? {
      var pre := events[..n - 1];
      LastRecordIsLast(pre, tag, decode);
      forall i | 0 <= i < n - 1 ensures RecordAt(pre, i, tag, decode) == RecordAt(events, i, tag, decode) {
        RecordAtPrefix(events, n - 1, i, tag, decode);
      }
    }
  }

  function Positions(n: nat): (r: seq<int>)
    ensures |r| == n && forall i :: 0 <= i < n ==> r[i] == i
  {
    seq(n, i => i)
  }

  /** The record of kind `tag` at each position. */
  function RecordsAt<T>(events: seq<Event>, tag: string, decode: seq<Attr> -> Option<T>): int -> Option<T> {
    i => RecordAt(events, i, tag, decode)
  }

  /** The records of a kind are the decoded elements of that kind, in stream order (a `filter_map` over positions). */
  lemma {:induction false} RecordsInStreamOrder<T(!new)>(events: seq<Event>, tag: string, decode: seq<Attr> -> Option<T>)
    ensures Records(events, tag, decode) == FilterMap(Positions(|events|), RecordsAt(events, tag, decode))
    decreases |events|
  {
    var n := |events|;
    if n > 0 {
      var pre := events[..n - 1];
      RecordsInStreamOrder(pre, tag, decode);
      var f := RecordsAt(events, tag, decode);
      var g := RecordsAt(pre, tag, decode);
      forall i | 0 <= i < n - 1 ensures g(i) == f(i) {
        RecordAtPrefix(events, n - 1, i, tag, decode);
      }
      FilterMapCongruent(Positions(n - 1), g, f);
      assert Positions(n) == Positions(n - 1) + [n - 1];
      FilterMapAppend(Positions(n - 1), [n - 1], f);
      assert FilterMap([n - 1], f) == (if f(n - 1).Some? then [f(n - 1).value] else []);
    }
  }

  // ---------------------------------------------------------------------
  // The loaded database
  // ---------------------------------------------------------------------

  /** Every stored currency, group, account, payee and category is stored under its own key. */
  lemma LoadedKeys(parseReal: string -> Option<real>, events: seq<Event>)
    ensures var db := Load(parseReal, events);
      (forall k :: k in db.currencies ==> db.currencies[k].key == k) &&
      (forall k :: k in db.groups ==> db.groups[k].key == k) &&
      (forall k :: k in db.accounts ==> db.accounts[k].key == k) &&
      (forall k :: k in db.payees ==> db.payees[k].key == k) &&
      (forall k :: k in db.categories ==> db.categories[k].key == k)
  {
    RunDescribed(parseReal, events);
    var db := Load(parseReal, events);
    forall k | k in db.currencies ensures db.currencies[k].key == k {
      KeyedStoresRecords(events, "cur", CurrencyOf(parseReal), CurrencyKey, k);
    }
    forall k | k in db.groups ensures db.groups[k].key == k {
      KeyedStoresRecords(events, "grp", GroupOf, GroupKey, k);
    }
    forall k | k in db.accounts ensures db.accounts[k].key == k {
      KeyedStoresRecords(events, "account", AccountOf(parseReal), AccountKey, k);
    }
    forall k | k in db.payees ensures db.payees[k].key == k {
      KeyedStoresRecords(events, "pay", PayeeOf, PayeeKey, k);
    }
    forall k | k in db.categories ensures db.categories[k].key == k {
      KeyedStoresRecords(events, "cat", CategoryOf(parseReal), CategoryKey, k);
    }
  }

  /**
   * The stored transactions are the `ope` elements inside the root that
   * decode, in the order of the stream.
   */
  lemma LoadedTransactions(parseReal: string -> Option<real>, events: seq<Event>)
    ensures Load(parseReal, events).transactions ==
            FilterMap(Positions(|events|), RecordsAt(events, "ope", TransactionOf(parseReal)))
  {
    RunDescribed(parseReal, events);
    RecordsInStreamOrder(events, "ope", TransactionOf(parseReal));
  }

  /**
   * An `ope` element that the corrected decoder accepts is stored as that
   * decoder reads it, so with split lists of one length; an element only
   * the split check as written lets through may be stored with lists of
   * different lengths.
   */
  lemma StoredTransactionWellFormed(parseReal: string -> Option<real>, events: seq<Event>, i: int)
    requires ElementAt(events, i).Some? && ElementAt(events, i).value.0 == "ope"
    requires TransactionDecoder.Decode(parseReal, ElementAt(events, i).value.1).Ok?
    ensures RecordAt(events, i, "ope", TransactionOf(parseReal)) == Some(TransactionDecoder.Decode(parseReal, ElementAt(events, i).value.1).value)
    ensures TransactionComplexity.WellFormed(RecordAt(events, i, "ope", TransactionOf(parseReal)).value.complexity)
  {
    var attrs := ElementAt(events, i).value.1;
    TransactionDecoderResults.CorrectedOnlyAddsMismatch(parseReal, attrs);
    TransactionDecoderResults.CorrectedIsWellFormed(parseReal, attrs);
  }
}
