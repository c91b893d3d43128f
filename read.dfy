/** src/read.rs: the first reader of the old ledger. It walks the XML event
    stream, collects accounts (`Account::new`) and transactions
    (`Transaction::from_xml` over `get_split`), and totals the value booked
    on one account (`DBInfo::get_total_value`) with its own amount type
    `Value`, whose sum starts at 0/100.

    The event iterator is shared by the callers: every reader here takes
    the events as a sequence and the position of the next one, and gives
    back the position of the first event it did not consume. */
module Read {
  import opened Basics
  import opened Decimal
  import opened Xml
  import Common
  import Utils

  /* ---------------------------------------------------------------- */
  /* Value                                                             */

  /** `Value(i32, u16)`: a numerator over a denominator. */
  datatype Value = Value(num: int, den: U16)

  /** `Quantity(i32, u16)`: stored next to a value, never computed with. */
  datatype Quantity = Quantity(num: int, den: U16)

  /** `Value + Value`: the operand with the larger denominator keeps it and
      the other numerator is scaled by the truncated quotient of the
      denominators. The quotient divides by the smaller denominator (by the
      right operand's when they are equal), so both must be nonzero. */
  function ValueAdd(a: Value, b: Value): (r: Value)
    requires a.den > 0 && b.den > 0
    ensures r.den == Max(a.den, b.den)
  {
    if b.den > a.den then
      var factor := b.den / a.den;
      Value(b.num + a.num * factor, b.den)
    else
      var factor := a.den / b.den;
      Value(a.num + b.num * factor, a.den)
  }

  /** `Default`: zero hundredths. */
  function ValueDefault(): Value
  {
    Value(0, 100)
  }

  predicate AllPositive(xs: seq<Value>)
  {
    forall i | 0 <= i < |xs| :: xs[i].den > 0
  }

  /** Adding each value in order to a running total with `+=`. */
  function FoldValues(acc: Value, xs: seq<Value>): (r: Value)
    requires acc.den > 0 && AllPositive(xs)
    ensures r.den >= acc.den
    decreases |xs|
  {
    if xs == [] then acc else ValueAdd(FoldValues(acc, xs[..|xs| - 1]), xs[|xs| - 1])
  }

  /** `Sum for Value`: start from `Default` and `+=` every value. */
  method SumValues(xs: seq<Value>) returns (sum: Value)
    requires AllPositive(xs)
    ensures sum == FoldValues(ValueDefault(), xs)
  {
    sum := ValueDefault();
    for i := 0 to |xs|
      invariant sum == FoldValues(ValueDefault(), xs[..i])
    {
      assert xs[..i + 1][..i] == xs[..i];
      sum := ValueAdd(sum, xs[i]);
    }
    assert xs[..|xs|] == xs;
  }

  /** The same pair as an amount of src/common.rs. */
  function AsFixed(v: Value): Common.Fixed
  {
    Common.Fixed(v.num, v.den)
  }

  function AsFixeds(xs: seq<Value>): (r: seq<Common.Fixed>)
    ensures |r| == |xs| && forall i | 0 <= i < |xs| :: r[i] == AsFixed(xs[i])
  {
    seq(|xs|, i requires 0 <= i < |xs| => AsFixed(xs[i]))
  }

  /** `Value + Value` is the addition of src/common.rs on the same pairs, so
      it inherits its laws: it is commutative, and exact when one
      denominator divides the other. */
  lemma ValueAddIsFixedAdd(a: Value, b: Value)
    requires a.den > 0 && b.den > 0
    ensures AsFixed(ValueAdd(a, b)) == Common.Add(AsFixed(a), AsFixed(b))
    ensures ValueAdd(a, b) == ValueAdd(b, a)
  {
    var x, y := AsFixed(a), AsFixed(b);
    if b.den > a.den {
      var k := b.den / a.den;
      assert Common.EqualizeFractions(x, y) == (Common.Fixed(a.num * k, b.den), y);
    } else if a.den > b.den {
      var k := a.den / b.den;
      assert Common.EqualizeFractions(x, y) == (x, Common.Fixed(b.num * k, a.den));
    } else {
      assert a.den / b.den == 1;
    }
  }

  /** With equal denominators the factor is one and the numerators add. */
  lemma ValueAddSameDen(a: Value, b: Value)
    requires a.den > 0 && a.den == b.den
    ensures ValueAdd(a, b) == Value(a.num + b.num, a.den)
  {
  }

  /** The value fold is the amount fold of src/common.rs started at 0/100. */
  lemma {:induction false} FoldValuesIsFoldAdd(acc: Value, xs: seq<Value>)
    requires acc.den > 0 && AllPositive(xs)
    ensures Common.Compatible(AsFixed(acc), AsFixeds(xs))
    ensures AsFixed(FoldValues(acc, xs)) == Common.FoldAdd(AsFixed(acc), AsFixeds(xs))
    decreases |xs|
  {
    if xs != [] {
      var p := xs[..|xs| - 1];
      FoldValuesIsFoldAdd(acc, p);
      assert AsFixeds(xs)[..|xs| - 1] == AsFixeds(p);
      ValueAddIsFixedAdd(FoldValues(acc, p), xs[|xs| - 1]);
    }
  }

  /** The sum of no values is 0/100; a sum of values whose denominators all
      divide one another (and 100) is their exact rational sum. */
  lemma SumValuesExact(xs: seq<Value>)
    requires AllPositive(xs)
    requires Common.DivisibilityChain([AsFixed(ValueDefault())] + AsFixeds(xs))
    ensures FoldValues(ValueDefault(), []) == Value(0, 100)
    ensures var s := FoldValues(ValueDefault(), xs);
      s.den > 0 && Common.Val(AsFixed(s)) == Common.ValSum(AsFixeds(xs))
  {
    FoldValuesIsFoldAdd(ValueDefault(), xs);
    Common.FoldExact(AsFixed(ValueDefault()), AsFixeds(xs));
  }

  /** Hundredths add up to hundredths: the numerator is the plain sum. */
  lemma {:induction false} SumHundredths(xs: seq<Value>)
    requires forall i | 0 <= i < |xs| :: xs[i].den == 100
    ensures FoldValues(ValueDefault(), xs) == Value(Numerators(xs), 100)
    decreases |xs|
  {
    if xs != [] {
      SumHundredths(xs[..|xs| - 1]);
    }
  }

  function Numerators(xs: seq<Value>): int
    decreases |xs|
  {
    if xs == [] then 0 else Numerators(xs[..|xs| - 1]) + xs[|xs| - 1].num
  }

  /* ---------------------------------------------------------------- */
  /* Transactions and totals                                           */

  /** A transaction: what each account's split books, keyed by account. */
  datatype Transaction = Transaction(accounts: map<Uuid, (Value, Quantity)>)

  datatype Account = Account(uuid: Uuid, name: string)

  datatype DBInfo = DBInfo(accounts: seq<Account>, transactions: seq<Transaction>, path: string)

  type Split = (Uuid, Value, Quantity)

  /** Inserting splits into a map in order: a later split of the same
      account replaces the earlier one. The keys are the starting keys and
      the split accounts; the entry of a split account is the last split
      booked on it, and every other entry is the starting one. */
  function Insert(acc: map<Uuid, (Value, Quantity)>, splits: seq<Split>): (r: map<Uuid, (Value, Quantity)>)
    ensures r.Keys == acc.Keys + set i | 0 <= i < |splits| :: splits[i].0
    ensures forall u | u in acc && (forall i | 0 <= i < |splits| :: splits[i].0 != u) :: r[u] == acc[u]
    ensures forall i | 0 <= i < |splits| && (forall j | i < j < |splits| :: splits[j].0 != splits[i].0) ::
      r[splits[i].0] == (splits[i].1, splits[i].2)
    decreases |splits|
  {
    if splits == [] then acc
    else Insert(acc[splits[0].0 := (splits[0].1, splits[0].2)], splits[1..])
  }

  /** `Transaction::new`: one map entry per split, inserted in order. */
  method NewTransaction(splits: seq<Split>) returns (t: Transaction)
    ensures t.accounts == Insert(map[], splits)
  {
    var accounts: map<Uuid, (Value, Quantity)> := map[];
    for i := 0 to |splits|
      invariant Insert(accounts, splits[i..]) == Insert(map[], splits)
    {
      assert splits[i..][1..] == splits[i + 1..];
      accounts := accounts[splits[i].0 := (splits[i].1, splits[i].2)];
    }
    t := Transaction(accounts);
  }

  /** Every value booked on `u` has a nonzero denominator, so the total of
      `u` never divides by zero. Values of other accounts play no part. */
  predicate ValuesPositive(ts: seq<Transaction>, u: Uuid)
  {
    forall i | 0 <= i < |ts| && u in ts[i].accounts :: ts[i].accounts[u].0.den > 0
  }

  /** The `filter_map`/`map` part of `get_total_value`: the value booked on
      `u` in each transaction that books anything on it, in order. */
  function ValuesOf(ts: seq<Transaction>, u: Uuid): (r: seq<Value>)
    requires ValuesPositive(ts, u)
    ensures AllPositive(r) && |r| <= |ts|
    decreases |ts|
  {
    if ts == [] then []
    else
      var last := ts[|ts| - 1];
      var front := ts[..|ts| - 1];
      assert ValuesPositive(front, u) by {
        forall i | 0 <= i < |front| && u in front[i].accounts
          ensures front[i].accounts[u].0.den > 0
        {
          assert front[i] == ts[i];
        }
      }
      ValuesOf(front, u) + (if u in last.accounts then [last.accounts[u].0] else [])
  }

  /** `DBInfo::get_total_value`. */
  function TotalValue(db: DBInfo, account: Account): (r: Value)
    requires ValuesPositive(db.transactions, account.uuid)
    ensures r.den >= 100
    ensures ValuesOf(db.transactions, account.uuid) == [] ==> r == Value(0, 100)
  {
    FoldValues(ValueDefault(), ValuesOf(db.transactions, account.uuid))
  }

  /** A transaction that books nothing on the account leaves its total
      alone; one that does adds its value (and only its value). */
  lemma TotalAppend(db: DBInfo, t: Transaction, account: Account)
    requires ValuesPositive(db.transactions + [t], account.uuid)
    ensures ValuesPositive(db.transactions, account.uuid)
    ensures var db' := db.(transactions := db.transactions + [t]);
      TotalValue(db', account) ==
        if account.uuid in t.accounts then ValueAdd(TotalValue(db, account), t.accounts[account.uuid].0)
        else TotalValue(db, account)
  {
    var ts := db.transactions + [t];
    assert ts[..|ts| - 1] == db.transactions;
    var xs := ValuesOf(db.transactions, account.uuid);
    if account.uuid in t.accounts {
      assert (xs + [t.accounts[account.uuid].0])[..|xs|] == xs;
    } else {
      assert xs + [] == xs;
    }
  }

  /** The value components decide the total: quantities play no part. */
  predicate SameValues(t: Transaction, t': Transaction)
  {
    && t.accounts.Keys == t'.accounts.Keys
    && forall u | u in t.accounts :: t.accounts[u].0 == t'.accounts[u].0
  }

  lemma {:induction false} TotalIgnoresQuantities(ts: seq<Transaction>, ts': seq<Transaction>, u: Uuid)
    requires ValuesPositive(ts, u) && ValuesPositive(ts', u)
    requires |ts| == |ts'| && forall i | 0 <= i < |ts| :: SameValues(ts[i], ts'[i])
    ensures ValuesOf(ts, u) == ValuesOf(ts', u)
    decreases |ts|
  {
    if ts != [] {
      var n := |ts| - 1;
      assert forall i | 0 <= i < n :: ts[..n][i] == ts[i] && ts'[..n][i] == ts'[i];
      TotalIgnoresQuantities(ts[..n], ts'[..n], u);
      assert SameValues(ts[n], ts'[n]);
    }
  }

  /** An account that no transaction books anything on totals 0/100. */
  lemma {:induction false} TotalOfUnbookedAccount(ts: seq<Transaction>, u: Uuid)
    requires forall i | 0 <= i < |ts| :: u !in ts[i].accounts
    ensures ValuesOf(ts, u) == []
    ensures FoldValues(ValueDefault(), ValuesOf(ts, u)) == Value(0, 100)
    decreases |ts|
  {
    if ts != [] {
      var n := |ts| - 1;
      assert forall i | 0 <= i < n :: ts[..n][i] == ts[i];
      TotalOfUnbookedAccount(ts[..n], u);
    }
  }

  /* ---------------------------------------------------------------- */
  /* Event walkers                                                     */

  /** The text of the event at position k, when it is character data. */
  function TextAt(items: seq<ReadItem>, k: nat): Option<string>
  {
    if k < |items| && items[k].Event? && items[k].event.Characters? then Some(items[k].event.text)
    else None
  }

  /** `get_or_insert`: a value already present is kept. */
  function GetOrInsert<T>(o: Option<T>, found: Option<T>): (r: Option<T>)
    ensures o.Some? ==> r == o
    ensures o.None? ==> r == found
  {
    if o.Some? then o else found
  }

  function Min(a: nat, b: nat): nat { if a <= b then a else b }

  const UnwrapNone := "called `Option::unwrap()` on a `None` value"
  const UnwrapErr := "called `Result::unwrap()` on an `Err` value"

  /** The element start at position k is a `local` one and the event right
      after it is the character data `text`. */
  predicate TaggedText(items: seq<ReadItem>, k: nat, local: string, text: string)
  {
    && k + 1 < |items|
    && items[k].Event? && items[k].event.StartElement? && items[k].event.name.localName == local
    && items[k + 1] == Event(Characters(text))
  }

  /** One turn of the loop of `Account::new`: it either ends the walk or
      goes on at `next` with the name and id found so far. */
  datatype AccountTurn =
    | AccountDone(result: Exec<Option<Account>>)
    | AccountGo(next: nat, name: Option<string>, id: Option<Uuid>)

  /** The turn at position `pos`. A "name" or "id" start consumes the
      following event whatever it is, and takes its text only when it is
      character data and nothing was taken before. The closing "account"
      tag ends the walk, unwrapping both fields; a reader error ends it
      with nothing. */
  function AccountStep(items: seq<ReadItem>, pos: nat, name: Option<string>, id: Option<Uuid>)
    : (r: AccountTurn)
    requires pos < |items|
    ensures r.AccountGo? ==> pos < r.next <= |items|
    ensures r.AccountGo? && name.Some? ==> r.name == name
    ensures r.AccountGo? && id.Some? ==> r.id == id
    ensures r.AccountGo? && name.None? && r.name.Some? ==> TaggedText(items, pos, "name", r.name.value)
    ensures r.AccountGo? && id.None? && r.id.Some? ==> TaggedText(items, pos, "id", r.id.value)
    ensures r.AccountDone? && r.result.Returns? && r.result.value.Some? ==>
      && items[pos].Event? && items[pos].event.EndElement? && items[pos].event.name.localName == "account"
      && name == Some(r.result.value.value.name) && id == Some(r.result.value.value.uuid)
  {
    match items[pos]
    case Failure(_) => AccountDone(Returns(None))
    case Event(StartElement(n, _)) =>
      if n.localName == "name" then
        AccountGo(Min(pos + 2, |items|), GetOrInsert(name, TextAt(items, pos + 1)), id)
      else if n.localName == "id" then
        AccountGo(Min(pos + 2, |items|), name, GetOrInsert(id, TextAt(items, pos + 1)))
      else AccountGo(pos + 1, name, id)
    case Event(EndElement(n)) =>
      if n.localName == "account" then
        if id.None? || name.None? then AccountDone(Panics(UnwrapNone))
        else AccountDone(Returns(Some(Account(id.value, name.value))))
      else AccountGo(pos + 1, name, id)
    case Event(_) => AccountGo(pos + 1, name, id)
  }

  /** The loop of `Account::new` from position `pos`: the result, and the
      position after the last event consumed. The end of the events gives
      nothing. */
  function AccountScan(items: seq<ReadItem>, pos: nat, name: Option<string>, id: Option<Uuid>)
    : (r: (Exec<Option<Account>>, nat))
    requires pos <= |items|
    ensures pos <= r.1 <= |items|
    ensures r.0.Returns? && r.0.value.Some? ==>
      r.1 > 0 && items[r.1 - 1].Event? && items[r.1 - 1].event.EndElement? &&
      items[r.1 - 1].event.name.localName == "account"
    decreases |items| - pos
  {
    if pos == |items| then (Returns(None), pos)
    else match AccountStep(items, pos, name, id)
      case AccountDone(result) => (result, pos + 1)
      case AccountGo(next, name', id') => AccountScan(items, next, name', id')
  }

  /** `Account::new`: nothing, consuming nothing, unless the element just
      opened is an "account"; otherwise the walk of `AccountScan`. */
  method NewAccount(items: seq<ReadItem>, pos: nat, name: QName) returns (r: Exec<Option<Account>>, next: nat)
    requires pos <= |items|
    ensures name.localName != "account" ==> r == Returns(None) && next == pos
    ensures name.localName == "account" ==> (r, next) == AccountScan(items, pos, None, None)
  {
    if name.localName != "account" {
      return Returns(None), pos;
    }
    var resultName: Option<string> := None;
    var resultUuid: Option<Uuid> := None;
    var i := pos;
    while i < |items|
      invariant pos <= i <= |items|
      invariant AccountScan(items, i, resultName, resultUuid) == AccountScan(items, pos, None, None)
      decreases |items| - i
    {
      var element := items[i];
      i := i + 1;
      match element {
        case Failure(_) =>
          return Returns(None), i;
        case Event(StartElement(n, _)) =>
          if n.localName == "name" || n.localName == "id" {
            if i < |items| {
              var following := items[i];
              i := i + 1;
              if following.Event? && following.event.Characters? {
                if n.localName == "name" && resultName.None? {
                  resultName := Some(following.event.text);
                } else if n.localName == "id" && resultUuid.None? {
                  resultUuid := Some(following.event.text);
                }
              }
            }
          }
        case Event(EndElement(n)) =>
          if n.localName == "account" {
            if resultUuid.None? || resultName.None? {
              return Panics(UnwrapNone), i;
            }
            return Returns(Some(Account(resultUuid.value, resultName.value))), i;
          }
        case Event(_) =>
      }
    }
    return Returns(None), i;
  }

  /** The first name and id taken are the ones returned: later "name" and
      "id" elements never replace them. */
  lemma {:induction false} AccountScanKeepsFirst(items: seq<ReadItem>, pos: nat, name: Option<string>, id: Option<Uuid>)
    requires pos <= |items|
    ensures var r := AccountScan(items, pos, name, id).0;
      r.Returns? && r.value.Some? ==>
        (name.Some? ==> r.value.value.name == name.value) && (id.Some? ==> r.value.value.uuid == id.value)
    decreases |items| - pos
  {
    if pos < |items| {
      var turn := AccountStep(items, pos, name, id);
      if turn.AccountGo? {
        AccountScanKeepsFirst(items, turn.next, turn.name, turn.id);
      }
    }
  }

  /** A name the walk returns without having been given one is the text
      right after a "name" element among the events consumed; the same
      holds for the id. */
  lemma {:induction false} AccountScanFromText(items: seq<ReadItem>, pos: nat, name: Option<string>, id: Option<Uuid>)
    requires pos <= |items|
    ensures var (r, next) := AccountScan(items, pos, name, id);
      r.Returns? && r.value.Some? ==>
        && (name.None? ==> exists k | pos <= k < next :: TaggedText(items, k, "name", r.value.value.name))
        && (id.None? ==> exists k | pos <= k < next :: TaggedText(items, k, "id", r.value.value.uuid))
    decreases |items| - pos
  {
    if pos < |items| {
      var turn := AccountStep(items, pos, name, id);
      if turn.AccountGo? {
        AccountScanFromText(items, turn.next, turn.name, turn.id);
        AccountScanKeepsFirst(items, turn.next, turn.name, turn.id);
      }
    }
  }

  /** `rsplit_once(c)`: the text after the last `c`. */
  function AfterLast(s: string, c: char): (r: Option<string>)
    ensures r.None? <==> c !in s
    ensures r.Some? ==> |r.value| < |s| && s[|s| - |r.value| - 1] == c
    ensures r.Some? ==> c !in r.value && r.value == s[|s| - |r.value|..]
    decreases |s|
  {
    if s == [] then None
    else if s[|s| - 1] == c then Some([])
    else match AfterLast(s[..|s| - 1], c)
      case None => None
      case Some(t) => Some(t + [s[|s| - 1]])
  }

  /** The namespace of a split element ends in "/split"; a namespace
      without any '/' makes the `unwrap` panic. */
  function NamespaceTail(n: QName): (r: Exec<Option<string>>)
    ensures r == Returns(None) <==> n.namespace.None?
    ensures r.Panics? <==> n.namespace.Some? && '/' !in n.namespace.value
    ensures r.Panics? ==> r.message == UnwrapNone
    ensures r.Returns? && r.value.Some? ==>
      var ns, t := n.namespace.value, r.value.value;
      && '/' !in t && |t| < |ns| && ns[|ns| - |t| - 1] == '/' && t == ns[|ns| - |t|..]
  {
    match n.namespace
    case None => Returns(None)
    case Some(ns) =>
      match AfterLast(ns, '/')
      case None => Panics(UnwrapNone)
      case Some(t) => Returns(Some(t))
  }

  /** "n/d" text read as an amount: `split_once('/')` and both `parse`
      calls are unwrapped, so any failure of `Fixed::from_str`'s steps
      is a panic: the `Option` one without a '/', the `Result` one when a
      side does not parse. */
  function ParseAmount(text: string): (r: Exec<(int, U16)>)
    ensures r.Returns? ==> InI32(r.value.0)
    ensures r.Returns? <==> Utils.FromStr(text).Ok?
    ensures r == Panics(UnwrapNone) <==> '/' !in text
  {
    match Utils.FromStr(text)
    case Ok(f) => Returns((f.num, f.den))
    case Err(e) => if e.MalformedSource? then Panics(UnwrapNone) else Panics(UnwrapErr)
  }

  /** What `get_split` has collected so far. */
  datatype SplitFields = SplitFields(uuid: Option<Uuid>, value: Option<Value>, quantity: Option<Quantity>)

  /** One split element's start, given the text that follows it: the account
      id is kept first-wins, value and quantity are overwritten. */
  function TakeField(f: SplitFields, local: string, text: Option<string>): Exec<SplitFields>
  {
    if text.None? then Returns(f)
    else if local == "account" then Returns(f.(uuid := GetOrInsert(f.uuid, text)))
    else
      match ParseAmount(text.value)
      case Panics(m) => Panics(m)
      case Returns((n, d)) =>
        if local == "value" then Returns(f.(value := Some(Value(n, d))))
        else Returns(f.(quantity := Some(Quantity(n, d))))
  }

  predicate IsSplitField(n: QName, tail: Option<string>)
  {
    tail == Some("split") && (n.localName == "account" || n.localName == "value" || n.localName == "quantity")
  }

  /** The element start at position k is a `local` one in the split
      namespace, and the event right after it is character data. */
  predicate SplitTextAt(items: seq<ReadItem>, k: nat, local: string)
  {
    && k + 1 < |items|
    && items[k].Event? && items[k].event.StartElement? && items[k].event.name.localName == local
    && NamespaceTail(items[k].event.name) == Returns(Some("split"))
    && items[k + 1].Event? && items[k + 1].event.Characters?
  }

  /** One turn of the loop of `get_split`: it either ends the call, with the
      position after the last event consumed, or goes on at `next` with the
      fields collected so far. */
  datatype SplitTurn =
    | SplitDone(result: Exec<Option<Split>>, after: nat)
    | SplitGo(next: nat, fields: SplitFields)

  /** The turn at position `pos`. The namespace tail is computed for every
      element start (and panics without a '/'). An "account", "value" or
      "quantity" start in the split namespace consumes the next event and
      uses it when it is character data. The closing "split" tag returns
      the three fields, unwrapping each; the closing "transaction" tag and a
      reader error give nothing. */
  function SplitStep(items: seq<ReadItem>, pos: nat, f: SplitFields): (r: SplitTurn)
    requires pos < |items|
    ensures r.SplitGo? ==> pos < r.next <= |items|
    ensures r.SplitDone? ==> pos < r.after <= |items|
    ensures r.SplitGo? && f.uuid.Some? ==> r.fields.uuid == f.uuid
    ensures r.SplitGo? && f.uuid.None? && r.fields.uuid.Some? ==>
      SplitTextAt(items, pos, "account") && items[pos + 1].event.text == r.fields.uuid.value
    ensures r.SplitGo? && r.fields.value != f.value ==>
      && SplitTextAt(items, pos, "value") && r.fields.value.Some?
      && ParseAmount(items[pos + 1].event.text) == Returns((r.fields.value.value.num, r.fields.value.value.den))
    ensures r.SplitGo? && r.fields.quantity != f.quantity ==>
      && SplitTextAt(items, pos, "quantity") && r.fields.quantity.Some?
      && ParseAmount(items[pos + 1].event.text) == Returns((r.fields.quantity.value.num, r.fields.quantity.value.den))
    ensures r.SplitDone? && r.result.Returns? && r.result.value.Some? ==>
      && r.after == pos + 1
      && items[pos].Event? && items[pos].event.EndElement? && items[pos].event.name.localName == "split"
      && f == SplitFields(Some(r.result.value.value.0), Some(r.result.value.value.1), Some(r.result.value.value.2))
  {
    match items[pos]
    case Failure(_) => SplitDone(Returns(None), pos + 1)
    case Event(StartElement(n, _)) =>
      (match NamespaceTail(n)
       case Panics(m) => SplitDone(Panics(m), pos + 1)
       case Returns(tail) =>
         if IsSplitField(n, tail) then
           match TakeField(f, n.localName, TextAt(items, pos + 1))
           case Panics(m) => SplitDone(Panics(m), Min(pos + 2, |items|))
           case Returns(f') => SplitGo(Min(pos + 2, |items|), f')
         else SplitGo(pos + 1, f))
    case Event(EndElement(n)) =>
      if n.localName == "split" then
        if f.uuid.None? || f.value.None? || f.quantity.None? then SplitDone(Panics(UnwrapNone), pos + 1)
        else SplitDone(Returns(Some((f.uuid.value, f.value.value, f.quantity.value))), pos + 1)
      else if n.localName == "transaction" then SplitDone(Returns(None), pos + 1)
      else SplitGo(pos + 1, f)
    case Event(_) => SplitGo(pos + 1, f)
  }

  /** The loop of `get_split` from position `pos`: the result, and the
      position after the last event consumed. The end of the events gives
      nothing. */
  function SplitScan(items: seq<ReadItem>, pos: nat, f: SplitFields): (r: (Exec<Option<Split>>, nat))
    requires pos <= |items|
    ensures pos <= r.1 <= |items|
    ensures r.0.Returns? && r.0.value.Some? ==>
      r.1 > pos && items[r.1 - 1].Event? && items[r.1 - 1].event.EndElement? &&
      items[r.1 - 1].event.name.localName == "split"
    decreases |items| - pos
  {
    if pos == |items| then (Returns(None), pos)
    else match SplitStep(items, pos, f)
      case SplitDone(result, after) => (result, after)
      case SplitGo(next, f') => SplitScan(items, next, f')
  }

  /** The first account id taken is the one returned. */
  lemma {:induction false} SplitScanKeepsUuid(items: seq<ReadItem>, pos: nat, f: SplitFields)
    requires pos <= |items| && f.uuid.Some?
    ensures var r := SplitScan(items, pos, f).0;
      r.Returns? && r.value.Some? ==> r.value.value.0 == f.uuid.value
    decreases |items| - pos
  {
    if pos < |items| {
      var turn := SplitStep(items, pos, f);
      if turn.SplitGo? {
        SplitScanKeepsUuid(items, turn.next, turn.fields);
      }
    }
  }

  /** Every field of a split returned from scratch was read among the events
      consumed: the account id is the text after an "account" element, and
      the value and quantity are the parsed text after a "value" and a
      "quantity" element of the split namespace. */
  lemma {:induction false} SplitScanFromText(items: seq<ReadItem>, pos: nat, f: SplitFields)
    requires pos <= |items|
    ensures var (r, next) := SplitScan(items, pos, f);
      r.Returns? && r.value.Some? ==>
        && (f.uuid.None? ==> exists k | pos <= k < next ::
              SplitTextAt(items, k, "account") && items[k + 1].event.text == r.value.value.0)
        && (f.value.None? ==> exists k | pos <= k < next ::
              SplitTextAt(items, k, "value") &&
              ParseAmount(items[k + 1].event.text) == Returns((r.value.value.1.num, r.value.value.1.den)))
        && (f.quantity.None? ==> exists k | pos <= k < next ::
              SplitTextAt(items, k, "quantity") &&
              ParseAmount(items[k + 1].event.text) == Returns((r.value.value.2.num, r.value.value.2.den)))
    decreases |items| - pos
  {
    if pos < |items| {
      var turn := SplitStep(items, pos, f);
      if turn.SplitGo? {
        SplitScanFromText(items, turn.next, turn.fields);
        if turn.fields.uuid.Some? {
          SplitScanKeepsUuid(items, turn.next, turn.fields);
        }
        if turn.fields.value != f.value || turn.fields.quantity != f.quantity {
          SplitScanLastField(items, turn.next, turn.fields);
        }
      }
    }
  }

  /** A value or quantity already collected is returned unless a later
      element of the same name replaces it. */
  lemma {:induction false} SplitScanLastField(items: seq<ReadItem>, pos: nat, f: SplitFields)
    requires pos <= |items|
    ensures var (r, next) := SplitScan(items, pos, f);
      r.Returns? && r.value.Some? ==>
        && (Some(r.value.value.1) == f.value || exists k | pos <= k < next ::
              SplitTextAt(items, k, "value") &&
              ParseAmount(items[k + 1].event.text) == Returns((r.value.value.1.num, r.value.value.1.den)))
        && (Some(r.value.value.2) == f.quantity || exists k | pos <= k < next ::
              SplitTextAt(items, k, "quantity") &&
              ParseAmount(items[k + 1].event.text) == Returns((r.value.value.2.num, r.value.value.2.den)))
    decreases |items| - pos
  {
    if pos < |items| {
      var turn := SplitStep(items, pos, f);
      if turn.SplitGo? {
        SplitScanLastField(items, turn.next, turn.fields);
      }
    }
  }

  const NoFields := SplitFields(None, None, None)

  /** `get_split`. */
  method GetSplit(items: seq<ReadItem>, pos: nat) returns (r: Exec<Option<Split>>, next: nat)
    requires pos <= |items|
    ensures (r, next) == SplitScan(items, pos, NoFields)
  {
    var fields := NoFields;
    var i := pos;
    while i < |items|
      invariant pos <= i <= |items|
      invariant SplitScan(items, i, fields) == SplitScan(items, pos, NoFields)
      decreases |items| - i
    {
      var element := items[i];
      ghost var i0, f0 := i, fields;
      i := i + 1;
      match element {
        case Failure(_) =>
          return Returns(None), i;
        case Event(StartElement(n, _)) =>
          var tail := NamespaceTail(n);
          if tail.Panics? {
            return Panics(tail.message), i;
          }
          if IsSplitField(n, tail.value) {
            var text: Option<string> := None;
            if i < |items| {
              text := TextAt(items, i);
              i := i + 1;
            }
            assert text == TextAt(items, i0 + 1) && i == Min(i0 + 2, |items|);
            var taken := TakeField(fields, n.localName, text);
            if taken.Panics? {
              return Panics(taken.message), i;
            }
            fields := taken.value;
            assert SplitScan(items, i0, f0) == SplitScan(items, i, fields);
          } else {
            assert SplitScan(items, i0, f0) == SplitScan(items, i, fields);
          }
        case Event(EndElement(n)) =>
          if n.localName == "split" {
            if fields.uuid.None? || fields.value.None? || fields.quantity.None? {
              return Panics(UnwrapNone), i;
            }
            return Returns(Some((fields.uuid.value, fields.value.value, fields.quantity.value))), i;
          }
          if n.localName == "transaction" {
            return Returns(None), i;
          }
        case Event(_) =>
      }
    }
    return Returns(None), i;
  }

  /** The splits that repeated `get_split` calls return from `pos` until the
      first one that gives nothing, and the position after that call. */
  function SplitsFrom(items: seq<ReadItem>, pos: nat): (r: Exec<(seq<Split>, nat)>)
    requires pos <= |items|
    ensures r.Returns? ==> pos <= r.value.1 <= |items|
    decreases |items| - pos
  {
    match SplitScan(items, pos, NoFields)
    case (Panics(m), _) => Panics(m)
    case (Returns(None), next) => Returns(([], next))
    case (Returns(Some(s)), next) =>
      match SplitsFrom(items, next)
      case Panics(m) => Panics(m)
      case Returns((rest, last)) => Returns(([s] + rest, last))
  }

  /** The loop of `Transaction::from_xml`: insert each split `get_split`
      returns into the map until it gives nothing. */
  function CollectSplits(items: seq<ReadItem>, pos: nat, acc: map<Uuid, (Value, Quantity)>)
    : (r: Exec<(map<Uuid, (Value, Quantity)>, nat)>)
    requires pos <= |items|
    decreases |items| - pos
  {
    match SplitScan(items, pos, NoFields)
    case (Panics(m), _) => Panics(m)
    case (Returns(None), next) => Returns((acc, next))
    case (Returns(Some(s)), next) => CollectSplits(items, next, acc[s.0 := (s.1, s.2)])
  }

  /** `Transaction::from_xml`: nothing, consuming nothing, unless the
      element just opened is a "transaction"; otherwise the map built from
      the splits up to the first `get_split` that gives nothing. */
  method TransactionFromXml(items: seq<ReadItem>, pos: nat, name: QName)
    returns (r: Exec<Option<Transaction>>, next: nat)
    requires pos <= |items|
    ensures name.localName != "transaction" ==> r == Returns(None) && next == pos
    ensures name.localName == "transaction" ==>
      match CollectSplits(items, pos, map[])
      case Panics(m) => r == Panics(m)
      case Returns((acc, last)) => r == Returns(Some(Transaction(acc))) && next == last
  {
    if name.localName != "transaction" {
      return Returns(None), pos;
    }
    var accounts: map<Uuid, (Value, Quantity)> := map[];
    var i := pos;
    while true
      invariant pos <= i <= |items|
      invariant CollectSplits(items, i, accounts) == CollectSplits(items, pos, map[])
      decreases |items| - i
    {
      var split, after := GetSplit(items, i);
      match split {
        case Panics(m) =>
          return Panics(m), after;
        case Returns(None) =>
          return Returns(Some(Transaction(accounts))), after;
        case Returns(Some(s)) =>
          accounts := accounts[s.0 := (s.1, s.2)];
          i := after;
      }
    }
  }

  /** Reading a transaction builds the same map as `Transaction::new` on
      the splits read, so a repeated account keeps its last split. */
  lemma {:induction false} CollectIsInsert(items: seq<ReadItem>, pos: nat, acc: map<Uuid, (Value, Quantity)>)
    requires pos <= |items|
    ensures match SplitsFrom(items, pos)
      case Panics(m) => CollectSplits(items, pos, acc) == Panics(m)
      case Returns((splits, last)) => CollectSplits(items, pos, acc) == Returns((Insert(acc, splits), last))
    decreases |items| - pos
  {
    match SplitScan(items, pos, NoFields)
    case (Panics(m), _) =>
    case (Returns(None), next) =>
    case (Returns(Some(s)), next) =>
      CollectIsInsert(items, next, acc[s.0 := (s.1, s.2)]);
      match SplitsFrom(items, next)
      case Panics(m) =>
      case Returns((rest, last)) =>
        assert ([s] + rest)[1..] == rest;
  }
}
