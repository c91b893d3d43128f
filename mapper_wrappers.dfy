/** src/mapper/wrappers.rs: the bridge between the serde bindings of a
    GnuCash book (`GncAccount`, `GncTransaction`, `TrnSplit` and their slot
    lists) and the parsed `Account`, `Transaction`, `Split` and `Book`.
    Updates write a parsed value into a binding in place; the `TryFrom`
    conversions read one back. A `Book` sums the splits booked on an
    account and translates an account of one book into the account of
    another book that has the same name path. */
module MapperWrappers {
  import opened Basics
  import opened Common
  import Utils

  /** The `Error` enum. Uuid, integer and date parsing are outside the
      model, so their variants never arise. */
  datatype WrapError =
    | MissingValue(what: string)
    | InvalidValue(what: string)
    | FixedError(error: Utils.FixedError)

  const Placeholder := "placeholder"
  const GuidType := "guid"
  const StringType := "string"
  const DatePostedKey := "date-posted"
  const GDateType := "gdate"
  const GnuCashVersion := "2.0.0"
  const DefaultReconcileState := "n"
  const DefaultTransactionValue := "0/100"
  const CurrencySpace := "CURRENCY"
  const CurrencyId := "EUR"

  /* ---------------------------------------------------------------- */
  /* Slot lists                                                        */

  /** One `<slot>` of a slot list: its key and a value of kind V. */
  datatype Slot<V> = Slot(text: Option<string>, key: string, value: V)

  /** The value of an account slot (`ActSlotsSlotSlotValue`). */
  datatype ActSlotValue = ActSlotValue(valueType: string, text: Option<string>)

  /** The value of a transaction slot (`TrnSlotsSlotSlotValue`). */
  datatype TrnSlotValue = TrnSlotValue(valueType: string, text: Option<string>, gdate: string)

  /** `Vec::retain` with `slot_key != key`: the slots with another key, in order. */
  function Without<V>(slots: seq<Slot<V>>, key: string): (r: seq<Slot<V>>)
    ensures forall i | 0 <= i < |r| :: r[i].key != key
    ensures |r| <= |slots|
    decreases |slots|
  {
    if slots == [] then []
    else
      var last := slots[|slots| - 1];
      Without(slots[..|slots| - 1], key) + (if last.key == key then [] else [last])
  }

  /** How many slots carry the key. */
  function CountKey<V>(slots: seq<Slot<V>>, key: string): nat
    decreases |slots|
  {
    if slots == [] then 0
    else CountKey(slots[..|slots| - 1], key) + (if slots[|slots| - 1].key == key then 1 else 0)
  }

  /** The first slot carrying the key (`iter().find`). */
  function FindSlot<V>(slots: seq<Slot<V>>, key: string): (r: Option<Slot<V>>)
    ensures r.None? <==> forall i | 0 <= i < |slots| :: slots[i].key != key
    ensures r.Some? ==> r.value in slots && r.value.key == key
    decreases |slots|
  {
    if slots == [] then None
    else if slots[0].key == key then Some(slots[0])
    else FindSlot(slots[1..], key)
  }

  /** The slot that marks an account read-only. */
  const PlaceholderSlot := Slot(None, Placeholder, ActSlotValue(StringType, Some("true")))

  /** The slot list `update_readonly` leaves behind. */
  function WithReadonly(slots: seq<Slot<ActSlotValue>>, readonly: bool): seq<Slot<ActSlotValue>>
  {
    Without(slots, Placeholder) + (if readonly then [PlaceholderSlot] else [])
  }

  /** The slot recording the posting date, already in "%Y-%m-%d" form. */
  function DatePostedSlot(gdate: string): Slot<TrnSlotValue>
  {
    Slot(None, DatePostedKey, TrnSlotValue(GDateType, None, gdate))
  }

  /** The slot list `update_date_posted` leaves behind. */
  function WithDatePosted(slots: seq<Slot<TrnSlotValue>>, gdate: string): seq<Slot<TrnSlotValue>>
  {
    Without(slots, DatePostedKey) + [DatePostedSlot(gdate)]
  }

  /** The contents of an `<act:slots>` element. */
  datatype ActSlotsValue = ActSlotsValue(text: Option<string>, slot: seq<Slot<ActSlotValue>>)

  /** The contents of a `<trn:slots>` element. */
  datatype TrnSlotsValue = TrnSlotsValue(text: Option<string>, slot: seq<Slot<TrnSlotValue>>)

  /** `ActSlots`: the slot list of an account, updated in place. */
  class ActSlots {
    var text: Option<string>
    var slot: seq<Slot<ActSlotValue>>

    constructor (text: Option<string>, slot: seq<Slot<ActSlotValue>>)
      ensures this.text == text && this.slot == slot
    {
      this.text := text;
      this.slot := slot;
    }

    function Value(): ActSlotsValue
      reads this
    {
      ActSlotsValue(text, slot)
    }
  }

  /** `TrnSlots`: the slot list of a transaction, updated in place. */
  class TrnSlots {
    var text: Option<string>
    var slot: seq<Slot<TrnSlotValue>>

    constructor (text: Option<string>, slot: seq<Slot<TrnSlotValue>>)
      ensures this.text == text && this.slot == slot
    {
      this.text := text;
      this.slot := slot;
    }

    function Value(): TrnSlotsValue
      reads this
    {
      TrnSlotsValue(text, slot)
    }
  }

  /** `update_readonly`: drop every placeholder slot and, for a read-only
      account, append one that says "true". */
  method UpdateReadonly(slots: ActSlots, readonly: bool)
    modifies slots
    ensures slots.text == old(slots.text)
    ensures slots.slot == WithReadonly(old(slots.slot), readonly)
  {
    slots.slot := Without(slots.slot, Placeholder);
    if readonly {
      slots.slot := slots.slot + [PlaceholderSlot];
    }
  }

  /** `update_date_posted`: replace every date-posted slot by one at the end. */
  method UpdateDatePosted(slots: TrnSlots, gdate: string)
    modifies slots
    ensures slots.text == old(slots.text)
    ensures slots.slot == WithDatePosted(old(slots.slot), gdate)
  {
    slots.slot := Without(slots.slot, DatePostedKey);
    slots.slot := slots.slot + [DatePostedSlot(gdate)];
  }

  /** No slot left by `Without` carries the key. */
  lemma {:induction false} CountWithout<V>(slots: seq<Slot<V>>, key: string)
    ensures CountKey(Without(slots, key), key) == 0
    decreases |slots|
  {
    if slots != [] {
      var front := slots[..|slots| - 1];
      CountWithout(front, key);
      var last := slots[|slots| - 1];
      var w := Without(front, key);
      var r := w + (if last.key == key then [] else [last]);
      if last.key != key {
        assert r[..|r| - 1] == w;
      } else {
        assert r == w;
      }
    }
  }

  /** The slots a second `Without` would drop are already gone. */
  lemma {:induction false} WithoutIdempotent<V>(slots: seq<Slot<V>>, key: string)
    ensures Without(Without(slots, key), key) == Without(slots, key)
    decreases |slots|
  {
    if slots != [] {
      var front := slots[..|slots| - 1];
      var last := slots[|slots| - 1];
      WithoutIdempotent(front, key);
      var w := Without(front, key);
      if last.key != key {
        var r := w + [last];
        assert Without(slots, key) == r;
        assert r[..|r| - 1] == w;
        assert Without(r, key) == Without(w, key) + [last];
      } else {
        assert Without(slots, key) == w;
      }
    }
  }

  /** Slots with other keys pass through `Without` untouched. */
  lemma {:induction false} WithoutNoKey<V>(slots: seq<Slot<V>>, key: string)
    requires forall i | 0 <= i < |slots| :: slots[i].key != key
    ensures Without(slots, key) == slots
    decreases |slots|
  {
    if slots != [] {
      WithoutNoKey(slots[..|slots| - 1], key);
    }
  }

  /** `Without` of an appended slot with the key is `Without` of the rest. */
  lemma WithoutDropsLast<V>(slots: seq<Slot<V>>, s: Slot<V>, key: string)
    requires s.key == key
    ensures Without(slots + [s], key) == Without(slots, key)
  {
    assert (slots + [s])[..|slots|] == slots;
  }

  /** After `update_readonly` the list holds a placeholder slot exactly
      when the account is read-only, that slot says "true", and every other
      slot is kept in its order. */
  lemma ReadonlySlotsShape(slots: seq<Slot<ActSlotValue>>, readonly: bool)
    ensures var r := WithReadonly(slots, readonly);
      && CountKey(r, Placeholder) == (if readonly then 1 else 0)
      && Without(r, Placeholder) == Without(slots, Placeholder)
      && (readonly ==> r[|r| - 1] == PlaceholderSlot)
  {
    var w := Without(slots, Placeholder);
    CountWithout(slots, Placeholder);
    WithoutIdempotent(slots, Placeholder);
    if readonly {
      var r := w + [PlaceholderSlot];
      assert r[..|r| - 1] == w;
      WithoutDropsLast(w, PlaceholderSlot, Placeholder);
    } else {
      assert WithReadonly(slots, readonly) == w;
    }
  }

  /** After `update_date_posted` there is exactly one date-posted slot, the
      last one, carrying the new date; every other slot is kept in its
      order. Updating twice is updating once with the later date. */
  lemma DatePostedSlotsShape(slots: seq<Slot<TrnSlotValue>>, gdate: string, later: string)
    ensures var r := WithDatePosted(slots, gdate);
      && CountKey(r, DatePostedKey) == 1
      && r[|r| - 1] == DatePostedSlot(gdate)
      && Without(r, DatePostedKey) == Without(slots, DatePostedKey)
      && WithDatePosted(r, later) == WithDatePosted(slots, later)
  {
    var w := Without(slots, DatePostedKey);
    var r := w + [DatePostedSlot(gdate)];
    CountWithout(slots, DatePostedKey);
    WithoutIdempotent(slots, DatePostedKey);
    assert r[..|r| - 1] == w;
    WithoutDropsLast(w, DatePostedSlot(gdate), DatePostedKey);
  }

  /** How `TryFrom<&GncAccount>` decides `is_readonly`: no slot list or no
      placeholder slot means writable; the first placeholder slot decides,
      and one without a value text is an error. */
  function ReadonlyFlag(slots: Option<ActSlotsValue>): (r: Result<bool, WrapError>)
    ensures r.Err? ==> r.error == MissingValue("slot:value->value")
    ensures slots.None? ==> r == Ok(false)
    ensures slots.Some? && (forall i | 0 <= i < |slots.value.slot| :: slots.value.slot[i].key != Placeholder) ==>
      r == Ok(false)
  {
    if slots.None? then Ok(false)
    else match FindSlot(slots.value.slot, Placeholder)
      case None => Ok(false)
      case Some(s) =>
        if s.value.text.None? then Err(MissingValue("slot:value->value"))
        else Ok(s.value.text.value == "true")
  }

  /** `FindSlot` yields the slot at the first position carrying the key. */
  lemma {:induction false} FindSlotFirst<V>(slots: seq<Slot<V>>, key: string, k: nat)
    requires k < |slots| && slots[k].key == key
    requires forall j | 0 <= j < k :: slots[j].key != key
    ensures FindSlot(slots, key) == Some(slots[k])
    decreases k
  {
    if k > 0 {
      assert slots[0].key != key;
      FindSlotFirst(slots[1..], key, k - 1);
    }
  }

  /** The first placeholder slot decides the flag: without a value text it
      is an error, otherwise the account is read-only exactly when the text
      is "true"; later placeholder slots are never looked at. */
  lemma ReadonlyFlagFirstPlaceholder(text: Option<string>, slots: seq<Slot<ActSlotValue>>, k: nat)
    requires k < |slots| && slots[k].key == Placeholder
    requires forall j | 0 <= j < k :: slots[j].key != Placeholder
    ensures ReadonlyFlag(Some(ActSlotsValue(text, slots))) ==
      if slots[k].value.text.None? then Err(MissingValue("slot:value->value"))
      else Ok(slots[k].value.text.value == "true")
  {
    FindSlotFirst(slots, Placeholder, k);
  }

  /** The first slot with the key in a list that `Without` cleared of it
      and then got one appended is the appended one. */
  lemma FindAppended<V>(slots: seq<Slot<V>>, s: Slot<V>)
    requires forall i | 0 <= i < |slots| :: slots[i].key != s.key
    ensures FindSlot(slots + [s], s.key) == Some(s)
    decreases |slots|
  {
    if slots != [] {
      assert (slots + [s])[1..] == slots[1..] + [s];
      FindAppended(slots[1..], s);
    }
  }

  /** Reading back the flag `update_readonly` wrote gives the flag. */
  lemma ReadonlyRoundTrip(text: Option<string>, slots: seq<Slot<ActSlotValue>>, readonly: bool)
    ensures ReadonlyFlag(Some(ActSlotsValue(text, WithReadonly(slots, readonly)))) == Ok(readonly)
  {
    var w := Without(slots, Placeholder);
    if readonly {
      FindAppended(w, PlaceholderSlot);
    } else {
      assert WithReadonly(slots, readonly) == w;
    }
  }

  /* ---------------------------------------------------------------- */
  /* Accounts                                                          */

  /** `ActId`, `ActParent`, `SplitId`, `SplitAccount`, `TrnId`: an id
      element with its type attribute and its text. */
  datatype GuidField = GuidField(fieldType: string, text: Option<string>)

  /** `GuidWrapper::from_uuid`. */
  function FromUuid(id: Uuid): GuidField
  {
    GuidField(GuidType, Some(id))
  }

  /** `GuidWrapper::empty`. */
  function EmptyGuid(): GuidField
  {
    GuidField(GuidType, None)
  }

  /** The parsed `Account`. */
  datatype Account = Account(name: string, id: Uuid, accType: string, parent: Option<Uuid>, isReadonly: bool)

  /** Every field of a `GncAccount` binding but the commodity. */
  datatype AccountRecord = AccountRecord(
    version: string,
    text: Option<string>,
    slots: Option<ActSlotsValue>,
    description: Option<string>,
    name: string,
    id: GuidField,
    accType: string,
    parent: Option<GuidField>,
    commodityScu: Option<string>)

  /** `GncAccount::default`. */
  function DefaultAccountRecord(): AccountRecord
  {
    AccountRecord(GnuCashVersion, None, None, None, "", EmptyGuid(), "", None, None)
  }

  /** What `GncAccount::update` makes of a record: name, id, type and
      parent come from the account; a present slot list gets its
      placeholder rewritten; nothing else changes. */
  function AccountUpdated(rec: AccountRecord, acc: Account): AccountRecord
  {
    rec.(name := acc.name,
         id := FromUuid(acc.id),
         accType := acc.accType,
         parent := if acc.parent.Some? then Some(FromUuid(acc.parent.value)) else None,
         slots := Utils.Update(rec.slots, (s: ActSlotsValue) => s.(slot := WithReadonly(s.slot, acc.isReadonly))))
  }

  /** `TryFrom<&GncAccount> for Account`: the id text must be present, then
      a present parent must have its text, then the read-only flag is read. */
  function TryIntoAccount(rec: AccountRecord): (r: Result<Account, WrapError>)
    ensures r.Err? <==>
      rec.id.text.None? || (rec.parent.Some? && rec.parent.value.text.None?) || ReadonlyFlag(rec.slots).Err?
    ensures r.Ok? ==> r.value.name == rec.name && r.value.accType == rec.accType
    ensures rec.id.text.None? ==> r == Err(MissingValue("act:id"))
    ensures rec.id.text.Some? && rec.parent.Some? && rec.parent.value.text.None? ==>
      r == Err(MissingValue("act:parent->value"))
  {
    if rec.id.text.None? then Err(MissingValue("act:id"))
    else if rec.parent.Some? && rec.parent.value.text.None? then Err(MissingValue("act:parent->value"))
    else match ReadonlyFlag(rec.slots)
      case Err(e) => Err(e)
      case Ok(readonly) =>
        Ok(Account(rec.name, rec.id.text.value, rec.accType,
                   if rec.parent.Some? then Some(rec.parent.value.text.value) else None,
                   readonly))
  }

  /** Reading back an updated binding gives the account, except that the
      read-only flag survives only where the binding has a slot list. */
  lemma AccountRoundTrip(rec: AccountRecord, acc: Account)
    ensures TryIntoAccount(AccountUpdated(rec, acc)) == Ok(acc.(isReadonly := acc.isReadonly && rec.slots.Some?))
  {
    if rec.slots.Some? {
      ReadonlyRoundTrip(rec.slots.value.text, rec.slots.value.slot, acc.isReadonly);
    }
  }

  /** `From<Account>`: the default binding has no slot list, so a read-only
      account comes back writable. */
  lemma FromAccountDropsReadonly(acc: Account)
    ensures TryIntoAccount(AccountUpdated(DefaultAccountRecord(), acc)) == Ok(acc.(isReadonly := false))
  {
    AccountRoundTrip(DefaultAccountRecord(), acc);
  }

  /** `GncAccount`: the account binding, updated in place. */
  class GncAccount {
    var version: string
    var text: Option<string>
    var actSlots: Option<ActSlots>
    var actDescription: Option<string>
    var actName: string
    var actId: GuidField
    var actType: string
    var actParent: Option<GuidField>
    var actCommodityScu: Option<string>

    /** The slot list object, when there is one. */
    function Footprint(): set<object>
      reads this
    {
      if actSlots.Some? then {actSlots.value} else {}
    }

    function Record(): AccountRecord
      reads this, Footprint()
    {
      AccountRecord(version, text,
                    if actSlots.Some? then Some(actSlots.value.Value()) else None,
                    actDescription, actName, actId, actType, actParent, actCommodityScu)
    }

    /** `From<Account>`: the default binding, then `update`. */
    constructor FromAccount(acc: Account)
      ensures Record() == AccountUpdated(DefaultAccountRecord(), acc)
    {
      version := GnuCashVersion;
      text := None;
      actSlots := None;
      actDescription := None;
      actName := "";
      actId := EmptyGuid();
      actType := "";
      actParent := None;
      actCommodityScu := None;
      new;
      Update(acc);
    }

    /** `GncAccount::update`. */
    method Update(acc: Account)
      modifies this, Footprint()
      ensures actSlots == old(actSlots)
      ensures Record() == AccountUpdated(old(Record()), acc)
    {
      actName := acc.name;
      actId := FromUuid(acc.id);
      actType := acc.accType;
      actParent := if acc.parent.Some? then Some(FromUuid(acc.parent.value)) else None;
      if actSlots.Some? {
        UpdateReadonly(actSlots.value, acc.isReadonly);
      }
    }
  }

  /* ---------------------------------------------------------------- */
  /* Splits                                                            */

  /** The parsed `Split`. */
  datatype Split = Split(id: Uuid, memo: Option<string>, value: Fixed, quantity: Fixed, account: Uuid)

  /** Every field of a `TrnSplit` binding. */
  datatype SplitRecord = SplitRecord(
    text: Option<string>,
    memo: Option<string>,
    id: GuidField,
    reconciledState: string,
    value: string,
    quantity: string,
    account: GuidField)

  /** `TrnSplit::default`: not reconciled, value and quantity "0/100". */
  function DefaultSplitRecord(): SplitRecord
  {
    SplitRecord(None, None, EmptyGuid(), DefaultReconcileState, DefaultTransactionValue, DefaultTransactionValue, EmptyGuid())
  }

  /** What `TrnSplit::update` makes of a record as written: the quantity
      text is rewritten with itself, so it keeps its old value. */
  function SplitUpdated(rec: SplitRecord, split: Split): SplitRecord
  {
    rec.(id := FromUuid(split.id), memo := split.memo, value := ToStringRaw(split.value), account := FromUuid(split.account))
  }

  /** What `TrnSplit::update` evidently means to do: write the quantity
      of the split as well. */
  function SplitUpdatedCorrected(rec: SplitRecord, split: Split): SplitRecord
  {
    SplitUpdated(rec, split).(quantity := ToStringRaw(split.quantity))
  }

  /** `TryFrom<&TrnSplit> for Split`: the id, then the value and quantity
      texts as "n/d" amounts, then the account, each failure reported. */
  function TryIntoSplit(rec: SplitRecord): (r: Result<Split, WrapError>)
    ensures r.Ok? <==>
      rec.id.text.Some? && Utils.FromStr(rec.value).Ok? && Utils.FromStr(rec.quantity).Ok? && rec.account.text.Some?
    ensures r.Ok? ==> r.value.id == rec.id.text.value && r.value.memo == rec.memo && r.value.account == rec.account.text.value
    ensures rec.id.text.None? ==> r == Err(MissingValue("split:id"))
    ensures rec.id.text.Some? && Utils.FromStr(rec.value).Err? ==> r == Err(FixedError(Utils.FromStr(rec.value).error))
  {
    if rec.id.text.None? then Err(MissingValue("split:id"))
    else match Utils.FromStr(rec.value)
      case Err(e) => Err(FixedError(e))
      case Ok(value) =>
        match Utils.FromStr(rec.quantity)
        case Err(e) => Err(FixedError(e))
        case Ok(quantity) =>
          if rec.account.text.None? then Err(MissingValue("split:account"))
          else Ok(Split(rec.id.text.value, rec.memo, value, quantity, rec.account.text.value))
  }

  /** "0/100", the default text, parses to 0/100. */
  lemma DefaultAmountParses()
    ensures Utils.FromStr(DefaultTransactionValue) == Ok(Fixed(0, 100))
  {
    assert ToStringRaw(Fixed(0, 100)) == DefaultTransactionValue by {
      assert Decimal.NatToString(1) == "1";
      assert Decimal.NatToString(10) == "10";
    }
    Utils.ParseDisplayRoundTrip(Fixed(0, 100));
  }

  /** As written, `From<Split>` reads back with quantity 0/100 whatever the
      split's quantity was: a split with quantity 3/1 does not survive. */
  lemma FromSplitLosesQuantity(split: Split)
    requires Decimal.InI32(split.value.num)
    ensures TryIntoSplit(SplitUpdated(DefaultSplitRecord(), split)) == Ok(split.(quantity := Fixed(0, 100)))
    ensures split.quantity != Fixed(0, 100) ==> TryIntoSplit(SplitUpdated(DefaultSplitRecord(), split)) != Ok(split)
  {
    Utils.ParseDisplayRoundTrip(split.value);
    DefaultAmountParses();
  }

  /** With the quantity written, every split whose numerators fit an i32
      reads back unchanged, whatever binding it was written into. */
  lemma SplitRoundTrip(rec: SplitRecord, split: Split)
    requires Decimal.InI32(split.value.num) && Decimal.InI32(split.quantity.num)
    ensures TryIntoSplit(SplitUpdatedCorrected(rec, split)) == Ok(split)
  {
    Utils.ParseDisplayRoundTrip(split.value);
    Utils.ParseDisplayRoundTrip(split.quantity);
  }

  /** `TrnSplit`: the split binding, updated in place. */
  class TrnSplit {
    var text: Option<string>
    var splitMemo: Option<string>
    var splitId: GuidField
    var splitReconciledState: string
    var splitValue: string
    var splitQuantity: string
    var splitAccount: GuidField

    function Record(): SplitRecord
      reads this
    {
      SplitRecord(text, splitMemo, splitId, splitReconciledState, splitValue, splitQuantity, splitAccount)
    }

    /** `From<Split>`: the default binding, then `update` as written. */
    constructor FromSplit(split: Split)
      ensures Record() == SplitUpdated(DefaultSplitRecord(), split)
    {
      text := None;
      splitMemo := None;
      splitId := EmptyGuid();
      splitReconciledState := DefaultReconcileState;
      splitValue := DefaultTransactionValue;
      splitQuantity := DefaultTransactionValue;
      splitAccount := EmptyGuid();
      new;
      Update(split);
    }

    /** `TrnSplit::update` as written: the quantity is left as it was. */
    method Update(split: Split)
      modifies this
      ensures Record() == SplitUpdated(old(Record()), split)
    {
      splitId := FromUuid(split.id);
      splitMemo := split.memo;
      splitValue := ToStringRaw(split.value);
      splitQuantity := splitQuantity;
      splitAccount := FromUuid(split.account);
    }

    /** `TrnSplit::update` with the quantity written too. */
    method UpdateCorrected(split: Split)
      modifies this
      ensures Record() == SplitUpdatedCorrected(old(Record()), split)
    {
      splitId := FromUuid(split.id);
      splitMemo := split.memo;
      splitValue := ToStringRaw(split.value);
      splitQuantity := ToStringRaw(split.quantity);
      splitAccount := FromUuid(split.account);
    }
  }

  /* ---------------------------------------------------------------- */
  /* Transactions                                                      */

  /** A point in time as the two texts chrono renders of it: the
      "%Y-%m-%d %H:%M:%S +0000" timestamp and its "%Y-%m-%d" local date. */
  datatype Timestamp = Timestamp(dateTime: string, date: string)

  /** The parsed `Transaction`. */
  datatype Transaction = Transaction(
    id: Uuid,
    datePosted: Timestamp,
    dateEntered: Timestamp,
    description: string,
    splits: seq<Split>)

  /** `TrnCurrency`. */
  datatype Currency = Currency(text: Option<string>, space: string, id: string)

  /** `TrnDatePosted` and `TrnDateEntered`. */
  datatype DateElement = DateElement(text: Option<string>, tsDate: string)

  /** Every field of a `GncTransaction` binding, its splits as their records. */
  datatype TransactionRecord = TransactionRecord(
    version: string,
    text: Option<string>,
    num: Option<string>,
    id: GuidField,
    currency: Currency,
    datePosted: DateElement,
    dateEntered: DateElement,
    description: string,
    slots: Option<TrnSlotsValue>,
    splitsText: Option<string>,
    splits: seq<SplitRecord>)

  /** `GncTransaction::default`: in euros, no dates, no splits. */
  function DefaultTransactionRecord(): TransactionRecord
  {
    TransactionRecord(GnuCashVersion, None, None, EmptyGuid(), Currency(None, CurrencySpace, CurrencyId),
                      DateElement(None, ""), DateElement(None, ""), "", None, None, [])
  }

  /** What `GncTransaction::update` makes of a record: id, dates and
      description from the transaction, the date-posted slot of a present
      slot list rewritten, and one `From<Split>` binding per split. */
  function TransactionUpdated(rec: TransactionRecord, trn: Transaction): TransactionRecord
  {
    rec.(id := FromUuid(trn.id),
         datePosted := DateElement(None, trn.datePosted.dateTime),
         slots := Utils.Update(rec.slots, (s: TrnSlotsValue) => s.(slot := WithDatePosted(s.slot, trn.datePosted.date))),
         dateEntered := DateElement(None, trn.dateEntered.dateTime),
         description := trn.description,
         splitsText := None,
         splits := SplitBindings(trn.splits))
  }

  /** One `From<Split>` binding per split, in order. */
  function SplitBindings(splits: seq<Split>): (r: seq<SplitRecord>)
    ensures |r| == |splits|
  {
    seq(|splits|, i requires 0 <= i < |splits| => SplitUpdated(DefaultSplitRecord(), splits[i]))
  }

  /** Writing a transaction into its binding leaves one split binding per
      split, each of which reads back as its split with quantity 0/100, and
      a present slot list with exactly one date-posted slot, at the end. */
  lemma TransactionUpdatedShape(rec: TransactionRecord, trn: Transaction)
    requires forall i | 0 <= i < |trn.splits| :: Decimal.InI32(trn.splits[i].value.num)
    ensures var r := TransactionUpdated(rec, trn);
      && |r.splits| == |trn.splits|
      && (forall i | 0 <= i < |r.splits| :: TryIntoSplit(r.splits[i]) == Ok(trn.splits[i].(quantity := Fixed(0, 100))))
      && (r.slots.Some? ==>
            && CountKey(r.slots.value.slot, DatePostedKey) == 1
            && r.slots.value.slot[|r.slots.value.slot| - 1] == DatePostedSlot(trn.datePosted.date))
  {
    var r := TransactionUpdated(rec, trn);
    forall i | 0 <= i < |r.splits|
      ensures TryIntoSplit(r.splits[i]) == Ok(trn.splits[i].(quantity := Fixed(0, 100)))
    {
      FromSplitLosesQuantity(trn.splits[i]);
    }
    if rec.slots.Some? {
      DatePostedSlotsShape(rec.slots.value.slot, trn.datePosted.date, trn.datePosted.date);
    }
  }

  /** `GncTransaction`: the transaction binding, updated in place. */
  class GncTransaction {
    var version: string
    var text: Option<string>
    var trnNum: Option<string>
    var trnId: GuidField
    var trnCurrency: Currency
    var trnDatePosted: DateElement
    var trnDateEntered: DateElement
    var trnDescription: string
    var trnSlots: Option<TrnSlots>
    var trnSplitsText: Option<string>
    var trnSplit: seq<SplitRecord>

    /** The slot list object, when there is one. */
    function Footprint(): set<object>
      reads this
    {
      if trnSlots.Some? then {trnSlots.value} else {}
    }

    function Record(): TransactionRecord
      reads this, Footprint()
    {
      TransactionRecord(version, text, trnNum, trnId, trnCurrency, trnDatePosted, trnDateEntered, trnDescription,
                        if trnSlots.Some? then Some(trnSlots.value.Value()) else None,
                        trnSplitsText, trnSplit)
    }

    /** `From<Transaction>`: the default binding, then `update`. */
    constructor FromTransaction(trn: Transaction)
      ensures Record() == TransactionUpdated(DefaultTransactionRecord(), trn)
    {
      version := GnuCashVersion;
      text := None;
      trnNum := None;
      trnId := EmptyGuid();
      trnCurrency := Currency(None, CurrencySpace, CurrencyId);
      trnDatePosted := DateElement(None, "");
      trnDateEntered := DateElement(None, "");
      trnDescription := "";
      trnSlots := None;
      trnSplitsText := None;
      trnSplit := [];
      new;
      Update(trn);
    }

    /** `GncTransaction::update`: the split bindings are replaced by fresh
      ones built with `From<Split>`. */
    method Update(trn: Transaction)
      modifies this, Footprint()
      ensures trnSlots == old(trnSlots)
      ensures Record() == TransactionUpdated(old(Record()), trn)
    {
      var built := FromSplits(trn.splits);
      trnId := FromUuid(trn.id);
      trnDatePosted := DateElement(None, trn.datePosted.dateTime);
      if trnSlots.Some? {
        UpdateDatePosted(trnSlots.value, trn.datePosted.date);
      }
      trnDateEntered := DateElement(None, trn.dateEntered.dateTime);
      trnDescription := trn.description;
      trnSplitsText := None;
      trnSplit := built;
    }
  }

  /** `trn.splits.into_iter().map(TrnSplit::from).collect()`: one binding
      per split, in order, each built by `From<Split>`. */
  method FromSplits(splits: seq<Split>) returns (built: seq<SplitRecord>)
    ensures built == SplitBindings(splits)
  {
    built := [];
    for i := 0 to |splits|
      invariant |built| == i
      invariant forall j | 0 <= j < i :: built[j] == SplitUpdated(DefaultSplitRecord(), splits[j])
    {
      var binding := new TrnSplit.FromSplit(splits[i]);
      built := built + [binding.Record()];
    }
    assert built == SplitBindings(splits);
  }

  /* ---------------------------------------------------------------- */
  /* Books and account totals                                          */

  /** The parsed `Book`. */
  datatype Book = Book(accounts: seq<Account>, transactions: seq<Transaction>)

  /** The splits booked on an account, in order. */
  function SplitsOn(splits: seq<Split>, id: Uuid): (r: seq<Split>)
    ensures forall i | 0 <= i < |r| :: r[i].account == id
    decreases |splits|
  {
    if splits == [] then []
    else
      var last := splits[|splits| - 1];
      SplitsOn(splits[..|splits| - 1], id) + (if last.account == id then [last] else [])
  }

  /** Every split booked on the account is kept, repeats included. */
  lemma {:induction false} SplitsOnKeepsRepeats(splits: seq<Split>, id: Uuid)
    requires forall i | 0 <= i < |splits| :: splits[i].account == id
    ensures SplitsOn(splits, id) == splits
    decreases |splits|
  {
    if splits != [] {
      SplitsOnKeepsRepeats(splits[..|splits| - 1], id);
    }
  }

  /** The splits of every transaction booked on an account, transaction by
      transaction (`flat_map` then `filter`). */
  function MatchingSplits(transactions: seq<Transaction>, id: Uuid): (r: seq<Split>)
    ensures forall i | 0 <= i < |r| :: r[i].account == id
    decreases |transactions|
  {
    if transactions == [] then []
    else MatchingSplits(transactions[..|transactions| - 1], id) + SplitsOn(transactions[|transactions| - 1].splits, id)
  }

  function Values(splits: seq<Split>): (r: seq<Fixed>)
    ensures |r| == |splits|
  {
    seq(|splits|, i requires 0 <= i < |splits| => splits[i].value)
  }

  function Quantities(splits: seq<Split>): (r: seq<Fixed>)
    ensures |r| == |splits|
  {
    seq(|splits|, i requires 0 <= i < |splits| => splits[i].quantity)
  }

  /** No amount booked on the account has a zero denominator, so summing
      them never divides by zero. */
  predicate TotalDefined(book: Book, acc: Account)
  {
    var m := MatchingSplits(book.transactions, acc.id);
    Compatible(Default(), Values(m)) && Compatible(Default(), Quantities(m))
  }

  /** The value and quantity totals of an account: every matching split
      added with `+=` onto `Default`. */
  function AccountTotal(book: Book, acc: Account): (Fixed, Fixed)
    requires TotalDefined(book, acc)
  {
    var m := MatchingSplits(book.transactions, acc.id);
    (FoldAdd(Default(), Values(m)), FoldAdd(Default(), Quantities(m)))
  }

  /** `Book::get_account_total`: the matching splits are unzipped into two
      `SumExtender`s. */
  method GetAccountTotal(book: Book, acc: Account) returns (value: Fixed, quantity: Fixed)
    requires TotalDefined(book, acc)
    ensures (value, quantity) == AccountTotal(book, acc)
  {
    var matching := MatchingSplits(book.transactions, acc.id);
    var values := new SumExtender();
    var quantities := new SumExtender();
    values.Extend(Values(matching));
    quantities.Extend(Quantities(matching));
    value := values.total;
    quantity := quantities.total;
  }

  /** `Book::clear_transactions`. */
  function ClearTransactions(book: Book): (r: Book)
    ensures r.accounts == book.accounts && r.transactions == []
  {
    book.(transactions := [])
  }

  lemma ValuesAppend(xs: seq<Split>, ys: seq<Split>)
    ensures Values(xs + ys) == Values(xs) + Values(ys)
    ensures Quantities(xs + ys) == Quantities(xs) + Quantities(ys)
  {
  }

  /** A transaction appended to the book adds the splits it books on the
      account onto the running totals, in order; splits booked twice count
      twice. */
  lemma AccountTotalAppend(book: Book, t: Transaction, acc: Account)
    requires TotalDefined(book.(transactions := book.transactions + [t]), acc)
    ensures TotalDefined(book, acc)
    ensures var m := SplitsOn(t.splits, acc.id);
      var total := AccountTotal(book, acc);
      && Compatible(total.0, Values(m)) && Compatible(total.1, Quantities(m))
      && AccountTotal(book.(transactions := book.transactions + [t]), acc)
         == (FoldAdd(total.0, Values(m)), FoldAdd(total.1, Quantities(m)))
  {
    var ts := book.transactions + [t];
    assert ts[..|ts| - 1] == book.transactions;
    var front := MatchingSplits(book.transactions, acc.id);
    var m := SplitsOn(t.splits, acc.id);
    assert MatchingSplits(ts, acc.id) == front + m;
    ValuesAppend(front, m);
    FoldAppend(Default(), Values(front), Values(m));
    FoldAppend(Default(), Quantities(front), Quantities(m));
  }

  /** With no transactions an account totals 0/1 in value and quantity. */
  lemma ClearedTotalIsZero(book: Book, acc: Account)
    ensures TotalDefined(ClearTransactions(book), acc)
    ensures AccountTotal(ClearTransactions(book), acc) == (Fixed(0, 1), Fixed(0, 1))
  {
  }

  /** When every value booked on the account has the same denominator d,
      the value total is the sum of the numerators over d. */
  lemma AccountTotalUniform(book: Book, acc: Account, d: U16)
    requires d > 0
    requires forall s | s in MatchingSplits(book.transactions, acc.id) :: s.value.den == d
    requires TotalDefined(book, acc)
    ensures var m := MatchingSplits(book.transactions, acc.id);
      AccountTotal(book, acc).0 == if m == [] then Fixed(0, 1) else Fixed(NumSum(Values(m)), d)
  {
    var m := MatchingSplits(book.transactions, acc.id);
    forall i | 0 <= i < |Values(m)| ensures Values(m)[i].den == d {
      assert m[i] in m;
    }
    SumUniform(Values(m), d);
  }

  /** When the denominators of the values booked on the account divide one
      another, the value total is their exact rational sum. */
  lemma AccountTotalExact(book: Book, acc: Account)
    requires TotalDefined(book, acc)
    requires DivisibilityChain([Default()] + Values(MatchingSplits(book.transactions, acc.id)))
    ensures var vs := Values(MatchingSplits(book.transactions, acc.id));
      AccountTotal(book, acc).0.den > 0 && Val(AccountTotal(book, acc).0) == ValSum(vs)
  {
    var vs := Values(MatchingSplits(book.transactions, acc.id));
    FoldExact(Default(), vs);
  }

  /* ---------------------------------------------------------------- */
  /* Translating an account between books                              */

  /** The position of the first account with the id (`iter().find`). */
  function FindIndex(accounts: seq<Account>, id: Uuid): (r: Option<nat>)
    ensures r.None? <==> forall j | 0 <= j < |accounts| :: accounts[j].id != id
    ensures r.Some? ==> r.value < |accounts| && accounts[r.value].id == id
    ensures r.Some? ==> forall j | 0 <= j < r.value :: accounts[j].id != id
    decreases |accounts|
  {
    if accounts == [] then None
    else if accounts[0].id == id then Some(0)
    else match FindIndex(accounts[1..], id)
      case None => None
      case Some(k) => Some(k + 1)
  }

  /** Every parent is listed before its children. This makes the parent
      chains finite, which the recursion of `check_parents` relies on. */
  predicate ParentsFirst(accounts: seq<Account>)
  {
    forall i | 0 <= i < |accounts| && accounts[i].parent.Some? ::
      exists j | 0 <= j < i :: accounts[j].id == accounts[i].parent.value
  }

  /** One more than the position of the account's parent, 0 for a root or
      an account whose parent is not listed. */
  function Rank(accounts: seq<Account>, a: Account): nat
  {
    if a.parent.None? then 0
    else match FindIndex(accounts, a.parent.value)
      case None => 0
      case Some(k) => k + 1
  }

  lemma RankBelowPosition(accounts: seq<Account>, i: nat)
    requires ParentsFirst(accounts) && i < |accounts|
    ensures Rank(accounts, accounts[i]) <= i
  {
    if accounts[i].parent.Some? {
      var j :| 0 <= j < i && accounts[j].id == accounts[i].parent.value;
    }
  }

  /** `Book::check_parents`: the two accounts have equal names and so, one
      level up at a time, have their parents, until both run out together.
      A parent missing from its book panics. */
  function CheckParents(source: Book, target: Book, s: Account, t: Account): (r: Exec<bool>)
    requires ParentsFirst(source.accounts)
    ensures r == Returns(true) ==> s.name == t.name
    ensures r.Panics? ==> r.message == "parent not in book" && s.name == t.name && s.parent.Some? && t.parent.Some?
    decreases Rank(source.accounts, s)
  {
    if s.name != t.name then Returns(false)
    else if s.parent.None? || t.parent.None? then Returns(s.parent.Some? == t.parent.Some?)
    else match (FindIndex(source.accounts, s.parent.value), FindIndex(target.accounts, t.parent.value))
      case (Some(i), Some(j)) =>
        RankBelowPosition(source.accounts, i);
        CheckParents(source, target, source.accounts[i], target.accounts[j])
      case _ => Panics("parent not in book")
  }

  /** The names from an account up to its root, by parent id in the
      account's own book; a parent missing from the book panics. */
  function NamePath(accounts: seq<Account>, a: Account): (r: Exec<seq<string>>)
    requires ParentsFirst(accounts)
    ensures r.Returns? ==> |r.value| >= 1 && r.value[0] == a.name
    ensures r.Returns? ==> (|r.value| == 1 <==> a.parent.None?)
    decreases Rank(accounts, a)
  {
    if a.parent.None? then Returns([a.name])
    else match FindIndex(accounts, a.parent.value)
      case None => Panics("parent not in book")
      case Some(i) =>
        RankBelowPosition(accounts, i);
        match NamePath(accounts, accounts[i])
        case Panics(m) => Panics(m)
        case Returns(above) => Returns([a.name] + above)
  }

  /** Where both name paths exist, `check_parents` compares them: it
      returns true exactly when they are equal. */
  lemma {:induction false} CheckParentsComparesPaths(source: Book, target: Book, s: Account, t: Account)
    requires ParentsFirst(source.accounts) && ParentsFirst(target.accounts)
    requires NamePath(source.accounts, s).Returns? && NamePath(target.accounts, t).Returns?
    ensures CheckParents(source, target, s, t)
      == Returns(NamePath(source.accounts, s).value == NamePath(target.accounts, t).value)
    decreases Rank(source.accounts, s)
  {
    var ps := NamePath(source.accounts, s).value;
    var pt := NamePath(target.accounts, t).value;
    if s.name != t.name {
      assert ps[0] != pt[0];
    } else if s.parent.None? || t.parent.None? {
      if s.parent.Some? != t.parent.Some? {
        assert |ps| != |pt|;
      }
    } else {
      var i := FindIndex(source.accounts, s.parent.value).value;
      var j := FindIndex(target.accounts, t.parent.value).value;
      RankBelowPosition(source.accounts, i);
      CheckParentsComparesPaths(source, target, source.accounts[i], target.accounts[j]);
      var above := NamePath(source.accounts, source.accounts[i]).value;
      var aboveT := NamePath(target.accounts, target.accounts[j]).value;
      assert ps == [s.name] + above && pt == [t.name] + aboveT;
      assert ps[1..] == above && pt[1..] == aboveT;
    }
  }

  /** Two accounts with equal names whose parent ids are both set, where
      one of those parents is missing from its book: `check_parents`
      panics. */
  lemma CheckParentsBrokenLink(source: Book, target: Book, s: Account, t: Account)
    requires ParentsFirst(source.accounts)
    requires s.name == t.name && s.parent.Some? && t.parent.Some?
    requires FindIndex(source.accounts, s.parent.value).None? || FindIndex(target.accounts, t.parent.value).None?
    ensures CheckParents(source, target, s, t) == Panics("parent not in book")
  {
  }

  /** `check_parents` panics only when one of the two parent chains is
      broken, that is, when one of the name paths cannot be built. */
  lemma CheckParentsPanicsOnBrokenChain(source: Book, target: Book, s: Account, t: Account)
    requires ParentsFirst(source.accounts) && ParentsFirst(target.accounts)
    ensures CheckParents(source, target, s, t).Panics? ==>
      NamePath(source.accounts, s).Panics? || NamePath(target.accounts, t).Panics?
  {
    if NamePath(source.accounts, s).Returns? && NamePath(target.accounts, t).Returns? {
      CheckParentsComparesPaths(source, target, s, t);
    }
  }

  /** The candidates a check keeps, in order. */
  function Passing<T>(xs: seq<T>, keep: T -> Exec<bool>): (r: seq<T>)
    ensures forall i | 0 <= i < |r| :: keep(r[i]) == Returns(true)
    decreases |xs|
  {
    if xs == [] then []
    else (if keep(xs[0]) == Returns(true) then [xs[0]] else []) + Passing(xs[1..], keep)
  }

  /** `filter_map(...).single()` over a check that may panic: candidates are
      checked in order until a second one passes, so a panic counts only
      when it comes before that. `found` is the one passing so far. */
  function FilterSingle<T(==)>(xs: seq<T>, keep: T -> Exec<bool>, found: Option<T>): (r: Exec<Option<T>>)
    ensures r.Returns? && r.value.Some? && r.value != found ==> r.value.value in xs && keep(r.value.value) == Returns(true)
    ensures r.Panics? ==> exists i | 0 <= i < |xs| :: keep(xs[i]) == Panics(r.message)
    decreases |xs|
  {
    if xs == [] then Returns(found)
    else match keep(xs[0])
      case Panics(m) => Panics(m)
      case Returns(pass) =>
        if !pass then FilterSingle(xs[1..], keep, found)
        else if found.Some? then Returns(None)
        else FilterSingle(xs[1..], keep, Some(xs[0]))
  }

  /** When no check panics, the lazy scan is `single` of the passing
      candidates. */
  lemma {:induction false} FilterSingleIsSingle<T>(xs: seq<T>, keep: T -> Exec<bool>, found: Option<T>)
    requires forall i | 0 <= i < |xs| :: keep(xs[i]).Returns?
    ensures FilterSingle(xs, keep, found) == Returns(
      if found.None? then Utils.Single(Passing(xs, keep))
      else if Passing(xs, keep) == [] then found
      else None)
    decreases |xs|
  {
    if xs != [] {
      assert keep(xs[0]).Returns?;
      FilterSingleIsSingle(xs[1..], keep, if keep(xs[0]) == Returns(true) && found.None? then Some(xs[0]) else found);
    }
  }

  /** The check `translate_account` applies as written: the candidate from
      the target book is passed where `check_parents` expects the account
      of the source book, and the other way round. */
  function AsWrittenCheck(source: Book, target: Book, account: Account): Account -> Exec<bool>
    requires ParentsFirst(source.accounts)
  {
    (candidate: Account) => CheckParents(source, target, candidate, account)
  }

  /** The check `translate_account` evidently means: the account of the
      source book first, the candidate of the target book second. */
  function CorrectedCheck(source: Book, target: Book, account: Account): Account -> Exec<bool>
    requires ParentsFirst(source.accounts)
  {
    (candidate: Account) => CheckParents(source, target, account, candidate)
  }

  /** `Book::translate_account` as written. */
  function TranslateAccount(source: Book, target: Book, account: Account): (r: Exec<Option<Account>>)
    requires ParentsFirst(source.accounts)
    ensures r.Returns? && r.value.Some? ==> r.value.value in target.accounts && r.value.value.name == account.name
    ensures r.Panics? ==> r.message == "parent not in book"
  {
    FilterSingle(target.accounts, AsWrittenCheck(source, target, account), None)
  }

  /** `Book::translate_account` with the arguments of `check_parents` in
      the order its signature names them. */
  function TranslateAccountCorrected(source: Book, target: Book, account: Account): (r: Exec<Option<Account>>)
    requires ParentsFirst(source.accounts)
    ensures r.Returns? && r.value.Some? ==> r.value.value in target.accounts && r.value.value.name == account.name
    ensures r.Panics? ==> r.message == "parent not in book"
  {
    FilterSingle(target.accounts, CorrectedCheck(source, target, account), None)
  }

  /** The accounts among `candidates` whose name path in `accounts` is `path`. */
  function SamePath(accounts: seq<Account>, candidates: seq<Account>, path: seq<string>): (r: seq<Account>)
    requires ParentsFirst(accounts)
    ensures forall i | 0 <= i < |r| :: NamePath(accounts, r[i]) == Returns(path)
    decreases |candidates|
  {
    if candidates == [] then []
    else (if NamePath(accounts, candidates[0]) == Returns(path) then [candidates[0]] else [])
         + SamePath(accounts, candidates[1..], path)
  }

  lemma {:induction false} PassingIsSamePath(source: Book, target: Book, account: Account, candidates: seq<Account>)
    requires ParentsFirst(source.accounts) && ParentsFirst(target.accounts)
    requires NamePath(source.accounts, account).Returns?
    requires forall i | 0 <= i < |candidates| :: NamePath(target.accounts, candidates[i]).Returns?
    ensures forall i | 0 <= i < |candidates| :: CorrectedCheck(source, target, account)(candidates[i]).Returns?
    ensures Passing(candidates, CorrectedCheck(source, target, account))
      == SamePath(target.accounts, candidates, NamePath(source.accounts, account).value)
    decreases |candidates|
  {
    forall i | 0 <= i < |candidates|
      ensures CorrectedCheck(source, target, account)(candidates[i]).Returns?
    {
      CheckParentsComparesPaths(source, target, account, candidates[i]);
    }
    if candidates != [] {
      CheckParentsComparesPaths(source, target, account, candidates[0]);
      PassingIsSamePath(source, target, account, candidates[1..]);
    }
  }

  /** Corrected, an account translates to the one account of the target
      book with the same name path, and to nothing when there is none or
      more than one. */
  lemma TranslateFindsSamePath(source: Book, target: Book, account: Account)
    requires ParentsFirst(source.accounts) && ParentsFirst(target.accounts)
    requires NamePath(source.accounts, account).Returns?
    requires forall i | 0 <= i < |target.accounts| :: NamePath(target.accounts, target.accounts[i]).Returns?
    ensures TranslateAccountCorrected(source, target, account)
      == Returns(Utils.Single(SamePath(target.accounts, target.accounts, NamePath(source.accounts, account).value)))
  {
    PassingIsSamePath(source, target, account, target.accounts);
    FilterSingleIsSingle(target.accounts, CorrectedCheck(source, target, account), None);
  }

  /** Two books kept apart by their ids, each with a root and a child
      "Bank": as written, translating the source "Bank" panics, because the
      parent id of the target "Bank" is looked up in the source book;
      corrected, it finds the target "Bank". */
  lemma TranslateAcrossBooksPanics()
    ensures var sourceRoot := Account("Root", "s0", "ROOT", None, false);
      var sourceBank := Account("Bank", "s1", "BANK", Some("s0"), false);
      var targetRoot := Account("Root", "t0", "ROOT", None, false);
      var targetBank := Account("Bank", "t1", "BANK", Some("t0"), false);
      var source := Book([sourceRoot, sourceBank], []);
      var target := Book([targetRoot, targetBank], []);
      && ParentsFirst(source.accounts)
      && TranslateAccount(source, target, sourceBank) == Panics("parent not in book")
      && TranslateAccountCorrected(source, target, sourceBank) == Returns(Some(targetBank))
  {
    var sourceRoot := Account("Root", "s0", "ROOT", None, false);
    var sourceBank := Account("Bank", "s1", "BANK", Some("s0"), false);
    var targetRoot := Account("Root", "t0", "ROOT", None, false);
    var targetBank := Account("Bank", "t1", "BANK", Some("t0"), false);
    var source := Book([sourceRoot, sourceBank], []);
    var target := Book([targetRoot, targetBank], []);
    assert ParentsFirst(source.accounts) by {
      assert source.accounts[0].id == sourceBank.parent.value;
    }
    assert FindIndex(source.accounts, "t0") == None;
    assert CheckParents(source, target, targetRoot, sourceBank) == Returns(false);
    assert CheckParents(source, target, targetBank, sourceBank) == Panics("parent not in book");
    assert FindIndex(source.accounts, "s0") == Some(0);
    assert FindIndex(target.accounts, "t0") == Some(0);
    assert CheckParents(source, target, sourceBank, targetRoot) == Returns(false);
    assert CheckParents(source, target, sourceBank, targetBank) == Returns(true);
    assert target.accounts[1..][1..] == [];
  }
}
