/** src/mapper/account.rs: the tag-balancing account reader. It reads one
    `<gnc:account>` element from a stream of reader events, keeps a stack
    of the elements still open, captures the first text of each tracked
    child element, keeps every other event in `other`, and then checks that
    the account has a name, an id and a valid type. */
module MapperAccount {
  import opened Basics
  import opened Decimal
  import opened Xml

  /** `account::Error`, without the uuid and boolean parse errors (uuids
      are kept as text, and the boolean parse is only reached after the
      slot reader, which never returns normally). */
  datatype AccountError =
    | XmlError(readerError: ReaderError)
    | ParseIntError(kind: IntErrorKind)
    | InvalidEvent(event: Event)
    | InvalidAccountType(text: string)
    | InvalidClosingTag(closing: QName)
    | MissingElement(element: string)
    | MissingOpeningTag(opening: QName)

  /* ---------------------------------------------------------------- */
  /* Account types                                                     */

  datatype AccountType =
    | Payable | Receivable | Asset | Bank | Cash | CreditCard | Currency
    | Equity | Expense | Income | Liability | MutualFund | Stock | Root

  /** The text GnuCash writes for each account type. */
  function AccountTypeName(t: AccountType): string
  {
    match t
    case Payable => "PAYABLE"
    case Receivable => "RECEIVABLE"
    case Asset => "ASSET"
    case Bank => "BANK"
    case Cash => "CASH"
    case CreditCard => "CREDIT CARD"
    case Currency => "CURRENCY"
    case Equity => "EQUITY"
    case Expense => "EXPENSE"
    case Income => "INCOME"
    case Liability => "LIABILITY"
    case MutualFund => "MUTUAL FUND"
    case Stock => "STOCK"
    case Root => "ROOT"
  }

  /** `AccountType::from_str`: an exact match against the fourteen names. */
  function ParseAccountType(s: string): (r: Result<AccountType, AccountError>)
    ensures r.Err? ==> r.error == InvalidAccountType(s)
  {
    match s
    case "PAYABLE" => Ok(Payable)
    case "RECEIVABLE" => Ok(Receivable)
    case "ASSET" => Ok(Asset)
    case "BANK" => Ok(Bank)
    case "CASH" => Ok(Cash)
    case "CREDIT CARD" => Ok(CreditCard)
    case "CURRENCY" => Ok(Currency)
    case "EQUITY" => Ok(Equity)
    case "EXPENSE" => Ok(Expense)
    case "INCOME" => Ok(Income)
    case "LIABILITY" => Ok(Liability)
    case "MUTUAL FUND" => Ok(MutualFund)
    case "STOCK" => Ok(Stock)
    case "ROOT" => Ok(Root)
    case _ => Err(InvalidAccountType(s))
  }

  /** Parsing accepts exactly the names of the account types and gives back
      the type named; the names are distinct. */
  lemma AccountTypeRoundTrip(t: AccountType, s: string)
    ensures ParseAccountType(AccountTypeName(t)) == Ok(t)
    ensures ParseAccountType(s).Ok? ==> AccountTypeName(ParseAccountType(s).value) == s
  {
  }

  /** Lower-case and padded spellings are rejected. */
  lemma AccountTypeIsCaseSensitive()
    ensures ParseAccountType("bank") == Err(InvalidAccountType("bank"))
    ensures ParseAccountType("Root") == Err(InvalidAccountType("Root"))
    ensures ParseAccountType("BANK ") == Err(InvalidAccountType("BANK "))
  {
  }

  /* ---------------------------------------------------------------- */
  /* Accounts                                                          */

  /** The account read from the ledger. The commodity is not kept: its
      reader never returns. */
  datatype Account = Account(
    name: string,
    code: Option<string>,
    id: Uuid,
    accType: AccountType,
    writeProtected: bool,
    description: Option<string>,
    parent: Option<Uuid>,
    other: seq<Event>)

  /** `PartialEq for Account`: two accounts are equal when their ids are. */
  predicate SameAccount(a: Account, b: Account)
  {
    a.id == b.id
  }

  /** Account equality is an equivalence that looks at the id alone. */
  lemma SameAccountById(a: Account, b: Account, c: Account)
    ensures SameAccount(a, a)
    ensures SameAccount(a, b) ==> SameAccount(b, a)
    ensures SameAccount(a, b) && SameAccount(b, c) ==> SameAccount(a, c)
    ensures SameAccount(a, b) <==> SameAccount(a, b.(name := a.name, code := a.code, accType := a.accType,
      writeProtected := a.writeProtected, description := a.description, parent := a.parent, other := a.other))
  {
  }

  /* ---------------------------------------------------------------- */
  /* Element names                                                     */

  const AccountKey := Prefixed("account", "gnc")
  const SlotKey := Local("slot")
  const SlotKeyKey := Prefixed("key", "slot")
  const SlotValueKey := Prefixed("value", "slot")
  const GuidType := Attribute(Local("type"), "guid")

  /** An element of the account namespace prefix, as `make_account_xml_key`. */
  function ActKey(local: string): QName
  {
    Prefixed(local, "act")
  }

  const Todo := "not yet implemented"

  /* ---------------------------------------------------------------- */
  /* Small readers                                                     */

  /** `skip_start`: consume the next event when it starts an element called
      `key`; the position after. */
  function SkipStart(items: seq<ReadItem>, pos: nat, key: QName): (next: nat)
    ensures next == pos || next == pos + 1
    ensures next == pos + 1 <==>
      pos < |items| && items[pos].Event? && items[pos].event.StartElement? && items[pos].event.name == key
  {
    if pos < |items| && items[pos].Event? && items[pos].event.StartElement? && items[pos].event.name == key
    then pos + 1 else pos
  }

  /** `get_characters`: the next event must be character data. */
  function GetCharacters(items: seq<ReadItem>, pos: nat): (r: (Result<string, AccountError>, nat))
    ensures r.0.Ok? <==> pos < |items| && items[pos].Event? && items[pos].event.Characters?
    ensures r.0.Ok? ==> r.0.value == items[pos].event.text && r.1 == pos + 1
    ensures pos >= |items| ==> r.0 == Err(MissingElement("text"))
    ensures r.0.Err? ==> r.0.error.XmlError? || r.0.error.InvalidEvent? || r.0.error.MissingElement?
  {
    if pos >= |items| then (Err(MissingElement("text")), pos)
    else match items[pos]
      case Failure(e) => (Err(XmlError(e)), pos + 1)
      case Event(Characters(text)) => (Ok(text), pos + 1)
      case Event(e) => (Err(InvalidEvent(e)), pos + 1)
  }

  /** The `for _ in 0..4` body of `parse_slots` with `left` turns to go: the
      position after the turns, or the error that ends them. A slot key is
      the event after "slot:key"; a slot value needs an attribute named
      "act:type" and character data after "slot:value"; the closing tags of
      both are skipped; anything else is an invalid event. */
  function SlotTurns(items: seq<ReadItem>, pos: nat, left: nat): (r: Result<nat, AccountError>)
    ensures r.Ok? ==> pos + left <= r.value
    ensures r.Err? ==> r.error.XmlError? || r.error.InvalidEvent? || r.error.MissingElement?
    decreases left
  {
    if left == 0 then Ok(pos)
    else if pos >= |items| then Err(MissingElement("slot:x"))
    else match items[pos]
      case Failure(e) => Err(XmlError(e))
      case Event(StartElement(n, attributes)) =>
        if n == SlotKeyKey then
          if pos + 1 >= |items| then Err(MissingElement("text"))
          else if items[pos + 1].Failure? then Err(XmlError(items[pos + 1].error))
          else SlotTurns(items, pos + 2, left - 1)
        else if n == SlotValueKey then
          if !(exists k | 0 <= k < |attributes| :: attributes[k].name == ActKey("type")) then
            Err(MissingElement("type="))
          else
            (match GetCharacters(items, pos + 1)
             case (Err(e), _) => Err(e)
             case (Ok(_), next) => SlotTurns(items, next, left - 1))
        else Err(InvalidEvent(items[pos].event))
      case Event(EndElement(n)) =>
        if n == SlotKeyKey || n == SlotValueKey then SlotTurns(items, pos + 1, left - 1)
        else Err(InvalidEvent(items[pos].event))
      case Event(e) => Err(InvalidEvent(e))
  }

  /** `parse_slots`: every way out of its loop is an error or the `todo!()`
      after it, so it never returns slots. The value is the error it
      returns when it does not panic. */
  function ParseSlots(items: seq<ReadItem>, pos: nat): (r: Exec<AccountError>)
    ensures r.Returns? ==> r.value.XmlError? || r.value.InvalidEvent? || r.value.MissingElement?
    decreases |items| - pos
  {
    if pos >= |items| then Panics(Todo)
    else match items[pos]
      case Failure(e) => Returns(XmlError(e))
      case Event(StartElement(n, _)) =>
        if n == SlotKey then
          (match SlotTurns(items, pos + 1, 4)
           case Err(e) => Returns(e)
           case Ok(next) => ParseSlots(items, next))
        else Returns(InvalidEvent(items[pos].event))
      case Event(EndElement(n)) =>
        if n == ActKey("slots") then Panics(Todo) else ParseSlots(items, pos + 1)
      case Event(e) => Returns(InvalidEvent(e))
  }

  /* ---------------------------------------------------------------- */
  /* The account reader                                                */

  /** The child elements whose first text the reader captures. */
  datatype Field = NameField | CodeField | IdField | TypeField | DescriptionField | ParentField | ScuField

  /** Which field an element start fills: the type and the parent only when
      the element carries the attribute type="guid". */
  function TrackedField(n: QName, attributes: seq<Attribute>): (r: Option<Field>)
    ensures r == Some(TypeField) ==> n == ActKey("type") && GuidType in attributes
    ensures r == Some(ParentField) ==> n == ActKey("parent") && GuidType in attributes
  {
    if n == ActKey("name") then Some(NameField)
    else if n == ActKey("code") then Some(CodeField)
    else if n == ActKey("id") then Some(IdField)
    else if n == ActKey("type") && GuidType in attributes then Some(TypeField)
    else if n == ActKey("description") then Some(DescriptionField)
    else if n == ActKey("parent") && GuidType in attributes then Some(ParentField)
    else if n == ActKey("commodity-scu") then Some(ScuField)
    else None
  }

  /** The reader's locals: the captured texts, the kept events and the
      stack of open elements. */
  datatype ScanState = ScanState(
    name: Option<string>,
    code: Option<string>,
    id: Option<string>,
    accType: Option<string>,
    description: Option<string>,
    parent: Option<string>,
    scu: Option<string>,
    other: seq<Event>,
    open: seq<QName>)

  function Get(st: ScanState, f: Field): Option<string>
  {
    match f
    case NameField => st.name
    case CodeField => st.code
    case IdField => st.id
    case TypeField => st.accType
    case DescriptionField => st.description
    case ParentField => st.parent
    case ScuField => st.scu
  }

  function Set(st: ScanState, f: Field, text: string): (r: ScanState)
    ensures Get(r, f) == Some(text)
    ensures forall g | g != f :: Get(r, g) == Get(st, g)
    ensures r.other == st.other && r.open == st.open
  {
    match f
    case NameField => st.(name := Some(text))
    case CodeField => st.(code := Some(text))
    case IdField => st.(id := Some(text))
    case TypeField => st.(accType := Some(text))
    case DescriptionField => st.(description := Some(text))
    case ParentField => st.(parent := Some(text))
    case ScuField => st.(scu := Some(text))
  }

  /** The state right after `<gnc:account>`. */
  const Initial := ScanState(None, None, None, None, None, None, None, [], [AccountKey])

  /** One turn of the reader's loop: it stops (with the state at the
      closing tag, an error or a panic) or goes on at `next`. */
  datatype ReaderTurn =
    | ReaderStop(outcome: Exec<Result<ScanState, AccountError>>)
    | ReaderGo(next: nat, state: ScanState)

  /** The turn at position `pos`. An element start is pushed on the stack;
      a tracked field without a text yet takes the next event, which must
      be character data; "act:commodity" and "act:slots" hand over to
      readers that end in `todo!()`; any other start and any event that is
      neither a start nor an end is kept in `other`. An end pops the stack
      and must match the element popped; the closing `</gnc:account>`
      stops the loop. */
  function ReaderStep(items: seq<ReadItem>, pos: nat, st: ScanState): (r: ReaderTurn)
    requires pos < |items|
    ensures r.ReaderGo? ==> pos < r.next <= |items|
    ensures r.ReaderGo? ==> forall f | Get(st, f).Some? :: Get(r.state, f) == Get(st, f)
    ensures r.ReaderGo? ==> st.other <= r.state.other
    ensures r.ReaderStop? && r.outcome.Returns? && r.outcome.value.Ok? ==>
      var s := r.outcome.value.value;
      && (forall f :: Get(s, f) == Get(st, f)) && s.other == st.other
      && items[pos] == Event(EndElement(AccountKey))
  {
    match items[pos]
    case Failure(e) => ReaderStop(Returns(Err(XmlError(e))))
    case Event(StartElement(n, attributes)) =>
      var pushed := st.(open := st.open + [n]);
      if n == ActKey("commodity") then ReaderStop(Panics(Todo))
      else if n == ActKey("slots") then
        (match ParseSlots(items, pos + 1)
         case Panics(m) => ReaderStop(Panics(m))
         case Returns(e) => ReaderStop(Returns(Err(e))))
      else
        (match TrackedField(n, attributes)
         case None => ReaderGo(pos + 1, pushed.(other := st.other + [items[pos].event]))
         case Some(f) =>
           if Get(st, f).Some? then ReaderGo(pos + 1, pushed)
           else
             match GetCharacters(items, pos + 1)
             case (Err(e), _) => ReaderStop(Returns(Err(e)))
             case (Ok(text), next) => ReaderGo(next, Set(pushed, f, text)))
    case Event(EndElement(n)) =>
      if st.open == [] then ReaderStop(Returns(Err(MissingOpeningTag(n))))
      else if st.open[|st.open| - 1] != n then ReaderStop(Returns(Err(InvalidClosingTag(n))))
      else if n == AccountKey then ReaderStop(Returns(Ok(st.(open := st.open[..|st.open| - 1]))))
      else ReaderGo(pos + 1, st.(open := st.open[..|st.open| - 1]))
    case Event(e) => ReaderGo(pos + 1, st.(other := st.other + [e]))
  }

  /** The reader's loop from position `pos`; `closed` says that it stopped
      at the closing `</gnc:account>` rather than at the end of the events
      or at an error. Running out of events is not an error. */
  function Scan(items: seq<ReadItem>, pos: nat, st: ScanState): (r: (Exec<Result<ScanState, AccountError>>, bool))
    requires pos <= |items|
    ensures r.1 ==> r.0.Returns? && r.0.value.Ok?
    decreases |items| - pos
  {
    if pos == |items| then (Returns(Ok(st)), false)
    else match ReaderStep(items, pos, st)
      case ReaderStop(outcome) => (outcome, outcome.Returns? && outcome.value.Ok?)
      case ReaderGo(next, st') => Scan(items, next, st')
  }

  /** The checks after the loop: the commodity-scu text must parse as a
      u32 (and is then dropped, as there is no commodity to put it in);
      then the name, the id and the type must be present, in this order,
      and the type must be a valid account type. */
  function Finish(st: ScanState): (r: Result<Account, AccountError>)
    ensures r.Ok? <==>
      && (st.scu.Some? ==> ParseU32(st.scu.value).Ok?)
      && st.name.Some? && st.id.Some? && st.accType.Some?
      && ParseAccountType(st.accType.value).Ok?
    ensures r.Ok? ==>
      && r.value.name == st.name.value && r.value.code == st.code && r.value.id == st.id.value
      && AccountTypeName(r.value.accType) == st.accType.value
      && r.value.description == st.description && r.value.parent == st.parent
      && r.value.other == st.other && !r.value.writeProtected
    ensures (st.scu.None? || ParseU32(st.scu.value).Ok?) && st.name.None? ==> r == Err(MissingElement("act:name"))
  {
    if st.scu.Some? && ParseU32(st.scu.value).Err? then Err(ParseIntError(ParseU32(st.scu.value).error))
    else if st.name.None? then Err(MissingElement("act:name"))
    else if st.id.None? then Err(MissingElement("act:id"))
    else if st.accType.None? then Err(MissingElement("act:type"))
    else match ParseAccountType(st.accType.value)
      case Err(e) => Err(e)
      case Ok(t) =>
        AccountTypeRoundTrip(t, st.accType.value);
        Ok(Account(st.name.value, st.code, st.id.value, t, false, st.description, st.parent, st.other))
  }

  /** `Account::from_xml` over the events: nothing unless they start with
      `<gnc:account>`; otherwise the loop and the final checks. */
  function AccountFromXml(items: seq<ReadItem>): (r: Exec<Result<Option<Account>, AccountError>>)
    ensures r == Returns(Ok(None)) <==>
      !(|items| > 0 && items[0].Event? && items[0].event.StartElement? && items[0].event.name == AccountKey)
  {
    if SkipStart(items, 0, AccountKey) == 0 then Returns(Ok(None))
    else match Scan(items, 1, Initial).0
      case Panics(m) => Panics(m)
      case Returns(Err(e)) => Returns(Err(e))
      case Returns(Ok(st)) =>
        match Finish(st)
        case Err(e) => Returns(Err(e))
        case Ok(account) => Returns(Ok(Some(account)))
  }

  /** `Account::from_xml`: the loop over the events with its locals. */
  method FromXml(items: seq<ReadItem>) returns (r: Exec<Result<Option<Account>, AccountError>>)
    ensures r == AccountFromXml(items)
  {
    var i := SkipStart(items, 0, AccountKey);
    if i == 0 {
      return Returns(Ok(None));
    }
    var accName, code, id, accType: Option<string> := None, None, None, None;
    var description, parent, commodityScu: Option<string> := None, None, None;
    var other: seq<Event> := [];
    var openElements := [AccountKey];
    while i < |items|
      invariant 1 <= i <= |items|
      invariant Scan(items, i, ScanState(accName, code, id, accType, description, parent, commodityScu, other, openElements))
        == Scan(items, 1, Initial)
      decreases |items| - i
    {
      ghost var st0 := ScanState(accName, code, id, accType, description, parent, commodityScu, other, openElements);
      ghost var i0 := i;
      var element := items[i];
      i := i + 1;
      match element {
        case Failure(e) =>
          return Returns(Err(XmlError(e)));
        case Event(StartElement(n, attributes)) =>
          openElements := openElements + [n];
          if n == ActKey("commodity") {
            return Panics(Todo);
          } else if n == ActKey("slots") {
            var slots := ParseSlots(items, i);
            return if slots.Panics? then Panics(slots.message) else Returns(Err(slots.value));
          }
          var field := TrackedField(n, attributes);
          if field.None? {
            other := other + [element.event];
          } else {
            var current := match field.value
              case NameField => accName
              case CodeField => code
              case IdField => id
              case TypeField => accType
              case DescriptionField => description
              case ParentField => parent
              case ScuField => commodityScu;
            if current.None? {
              var (text, next) := GetCharacters(items, i);
              if text.Err? {
                return Returns(Err(text.error));
              }
              i := next;
              match field.value {
                case NameField => accName := Some(text.value);
                case CodeField => code := Some(text.value);
                case IdField => id := Some(text.value);
                case TypeField => accType := Some(text.value);
                case DescriptionField => description := Some(text.value);
                case ParentField => parent := Some(text.value);
                case ScuField => commodityScu := Some(text.value);
              }
            }
          }
          assert ReaderStep(items, i0, st0) == ReaderGo(i,
            ScanState(accName, code, id, accType, description, parent, commodityScu, other, openElements));
        case Event(EndElement(n)) =>
          if openElements == [] {
            return Returns(Err(MissingOpeningTag(n)));
          }
          var openedName := openElements[|openElements| - 1];
          openElements := openElements[..|openElements| - 1];
          if openedName != n {
            return Returns(Err(InvalidClosingTag(n)));
          }
          if n == AccountKey {
            break;
          }
        case Event(e) =>
          other := other + [e];
      }
    }
    var st := ScanState(accName, code, id, accType, description, parent, commodityScu, other, openElements);
    var account := Finish(st);
    r := if account.Err? then Returns(Err(account.error)) else Returns(Ok(Some(account.value)));
  }

  /* ---------------------------------------------------------------- */
  /* Properties of the reader                                          */

  /** The loop never replaces a captured text, and `other` only grows at
      its end, in the order the events come. */
  lemma {:induction false} ScanKeepsFirst(items: seq<ReadItem>, pos: nat, st: ScanState)
    requires pos <= |items|
    ensures var r := Scan(items, pos, st).0;
      r.Returns? && r.value.Ok? ==>
        && (forall f | Get(st, f).Some? :: Get(r.value.value, f) == Get(st, f))
        && st.other <= r.value.value.other
    decreases |items| - pos
  {
    if pos < |items| {
      var turn := ReaderStep(items, pos, st);
      if turn.ReaderGo? {
        ScanKeepsFirst(items, turn.next, turn.state);
      }
    }
  }

  /** The account element is always at the bottom of the stack. */
  predicate Rooted(st: ScanState)
  {
    |st.open| >= 1 && st.open[0] == AccountKey
  }

  /** The stack is never empty when an end tag comes: the bottom element is
      `<gnc:account>`, and popping it ends the loop. So `MissingOpeningTag`
      cannot happen. */
  lemma {:induction false} ScanNeverMissesOpeningTag(items: seq<ReadItem>, pos: nat, st: ScanState)
    requires pos <= |items| && Rooted(st)
    ensures var r := Scan(items, pos, st).0;
      !(r.Returns? && r.value.Err? && r.value.error.MissingOpeningTag?)
    decreases |items| - pos
  {
    if pos < |items| {
      var turn := ReaderStep(items, pos, st);
      if turn.ReaderGo? {
        assert Rooted(turn.state) by {
          if items[pos].Event? && items[pos].event.StartElement? {
            assert turn.state.open == st.open + [items[pos].event.name];
          } else if items[pos].Event? && items[pos].event.EndElement? {
            assert turn.state.open == st.open[..|st.open| - 1];
          }
        }
        ScanNeverMissesOpeningTag(items, turn.next, turn.state);
      } else {
        assert Scan(items, pos, st).0 == turn.outcome;
      }
    }
  }

  lemma AccountFromXmlNeverMissesOpeningTag(items: seq<ReadItem>)
    ensures var r := AccountFromXml(items);
      !(r.Returns? && r.value.Err? && r.value.error.MissingOpeningTag?)
  {
    if SkipStart(items, 0, AccountKey) == 1 {
      ScanNeverMissesOpeningTag(items, 1, Initial);
    }
  }

  /** A turn that goes on, or that stops at the closing tag, looks at no
      event past the ones it consumes. */
  lemma StepIgnoresTrailing(items: seq<ReadItem>, more: seq<ReadItem>, pos: nat, st: ScanState)
    requires pos < |items|
    ensures var r := ReaderStep(items, pos, st);
      r.ReaderGo? || (r.outcome.Returns? && r.outcome.value.Ok?) ==> ReaderStep(items + more, pos, st) == r
  {
    var all := items + more;
    assert all[pos] == items[pos];
    if pos + 1 < |items| {
      assert all[pos + 1] == items[pos + 1];
    }
  }

  /** Reading stops right after the closing `</gnc:account>`: whatever
      follows it changes nothing. */
  lemma {:induction false} ScanIgnoresTrailing(items: seq<ReadItem>, more: seq<ReadItem>, pos: nat, st: ScanState)
    requires pos <= |items| && Scan(items, pos, st).1
    ensures Scan(items + more, pos, st) == Scan(items, pos, st)
    decreases |items| - pos
  {
    var turn := ReaderStep(items, pos, st);
    StepIgnoresTrailing(items, more, pos, st);
    if turn.ReaderGo? {
      ScanIgnoresTrailing(items, more, turn.next, turn.state);
    }
  }

  lemma AccountFromXmlIgnoresTrailing(items: seq<ReadItem>, more: seq<ReadItem>)
    requires SkipStart(items, 0, AccountKey) == 1 && Scan(items, 1, Initial).1
    ensures AccountFromXml(items + more) == AccountFromXml(items)
  {
    assert (items + more)[0] == items[0];
    ScanIgnoresTrailing(items, more, 1, Initial);
  }

  /** `open` is the stack of the elements started and not yet closed: a
      start tag that the loop steps over pushes its name. */
  lemma StartTagPushes(items: seq<ReadItem>, pos: nat, st: ScanState, n: QName, attributes: seq<Attribute>)
    requires pos < |items| && items[pos] == Event(StartElement(n, attributes))
    ensures var r := ReaderStep(items, pos, st);
      r.ReaderGo? ==> r.state.open == st.open + [n]
  {
  }

  /** An end tag that closes the innermost open element pops it; when that
      element is `<gnc:account>` the loop stops with what it has read. */
  lemma MatchingEndTagPops(items: seq<ReadItem>, pos: nat, st: ScanState, n: QName)
    requires pos < |items| && items[pos] == Event(EndElement(n))
    requires st.open != [] && st.open[|st.open| - 1] == n
    ensures n != AccountKey ==> ReaderStep(items, pos, st) == ReaderGo(pos + 1, st.(open := st.open[..|st.open| - 1]))
    ensures n == AccountKey ==> ReaderStep(items, pos, st) == ReaderStop(Returns(Ok(st.(open := st.open[..|st.open| - 1]))))
  {
  }

  /** Any other event leaves the stack as it is. */
  lemma OtherEventKeepsOpen(items: seq<ReadItem>, pos: nat, st: ScanState)
    requires pos < |items| && items[pos].Event?
    requires !items[pos].event.StartElement? && !items[pos].event.EndElement?
    ensures ReaderStep(items, pos, st) == ReaderGo(pos + 1, st.(other := st.other + [items[pos].event]))
  {
  }

  /** An end tag that does not close the innermost open element stops the
      loop with `InvalidClosingTag`, whatever was read before it. */
  lemma ClosingTagMismatch(items: seq<ReadItem>, pos: nat, st: ScanState, n: QName)
    requires pos < |items| && items[pos] == Event(EndElement(n))
    requires st.open != [] && st.open[|st.open| - 1] != n
    ensures Scan(items, pos, st) == (Returns(Err(InvalidClosingTag(n))), false)
  {
  }

  /** The same, through the whole reader: a child element closed by a tag of
      another name. */
  lemma ClosingTagMismatchExample()
    ensures AccountFromXml([Event(StartElement(AccountKey, [])), Event(StartElement(Local("x"), [])),
      Event(EndElement(Local("y")))]) == Returns(Err(InvalidClosingTag(Local("y"))))
  {
    var items := [Event(StartElement(AccountKey, [])), Event(StartElement(Local("x"), [])),
      Event(EndElement(Local("y")))];
    var st := Initial.(other := [StartElement(Local("x"), [])], open := [AccountKey, Local("x")]);
    assert TrackedField(Local("x"), []) == None;
    assert ReaderStep(items, 1, Initial) == ReaderGo(2, st);
    assert ReaderStep(items, 2, st) == ReaderStop(Returns(Err(InvalidClosingTag(Local("y")))));
    assert Scan(items, 1, Initial) == Scan(items, 2, st);
    assert Scan(items, 2, st).0 == Returns(Err(InvalidClosingTag(Local("y"))));
  }
}
