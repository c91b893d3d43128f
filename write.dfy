/** src/write.rs: the first steps of writing the migrated ledger. Each
    account of the old ledger is matched by name in the new one and paired
    with its total value, as the opening balances booked against the
    "Anfangsbestand" account. */
module Write {
  import opened Basics
  import opened Xml
  import opened Read

  /** The name of the opening-balance account. */
  const OpeningBalance := "Anfangsbestand"

  /** The position of the first account with the name (`iter().find`). */
  function FindByName(accounts: seq<Account>, name: string): (r: Option<nat>)
    ensures r.None? <==> forall j | 0 <= j < |accounts| :: accounts[j].name != name
    ensures r.Some? ==> r.value < |accounts| && accounts[r.value].name == name
    ensures r.Some? ==> forall j | 0 <= j < r.value :: accounts[j].name != name
    decreases |accounts|
  {
    if accounts == [] then None
    else if accounts[0].name == name then Some(0)
    else match FindByName(accounts[1..], name)
      case None => None
      case Some(k) => Some(k + 1)
  }

  /** `map_account`: the first account of the new ledger that carries the
      old account's name. */
  function MapAccount(newDb: DBInfo, account: Account): (r: Option<Account>)
    ensures r.None? <==> forall j | 0 <= j < |newDb.accounts| :: newDb.accounts[j].name != account.name
    ensures r.Some? ==> r.value in newDb.accounts && r.value.name == account.name
  {
    match FindByName(newDb.accounts, account.name)
    case None => None
    case Some(k) => Some(newDb.accounts[k])
  }

  /** An account maps exactly when the new ledger has one of that name, and
      then it maps to the first such account. */
  lemma MapAccountFirstByName(newDb: DBInfo, account: Account)
    ensures MapAccount(newDb, account).None? <==>
      forall j | 0 <= j < |newDb.accounts| :: newDb.accounts[j].name != account.name
    ensures MapAccount(newDb, account).Some? ==>
      exists k | 0 <= k < |newDb.accounts| ::
        && newDb.accounts[k] == MapAccount(newDb, account).value
        && newDb.accounts[k].name == account.name
        && forall j | 0 <= j < k :: newDb.accounts[j].name != account.name
  {
    var r := FindByName(newDb.accounts, account.name);
    if r.Some? {
      var k := r.value;
      assert newDb.accounts[k] == MapAccount(newDb, account).value;
    }
  }

  /** The opening balances gathered so far: entry i pairs the mapped i-th
      old account with its total value. */
  predicate BalancesOf(oldDb: DBInfo, newDb: DBInfo, balances: seq<(Account, Value)>)
    requires forall i | 0 <= i < |oldDb.accounts| :: ValuesPositive(oldDb.transactions, oldDb.accounts[i].uuid)
  {
    && |balances| <= |oldDb.accounts|
    && forall i | 0 <= i < |balances| ::
         && MapAccount(newDb, oldDb.accounts[i]) == Some(balances[i].0)
         && balances[i].1 == TotalValue(oldDb, oldDb.accounts[i])
  }

  /** `write_start_state`: with no "Anfangsbestand" in the new ledger there
      is nothing to do; otherwise the old accounts are mapped in order, each
      paired with its total value, until one cannot be mapped. The result is
      always `Ok`. */
  method WriteStartState(oldDb: DBInfo, newDb: DBInfo) returns (r: Result<(), string>, startBalance: seq<(Account, Value)>)
    requires forall i | 0 <= i < |oldDb.accounts| :: ValuesPositive(oldDb.transactions, oldDb.accounts[i].uuid)
    ensures r == Ok(())
    ensures FindByName(newDb.accounts, OpeningBalance).None? ==> startBalance == []
    ensures BalancesOf(oldDb, newDb, startBalance)
    ensures FindByName(newDb.accounts, OpeningBalance).Some? && |startBalance| < |oldDb.accounts| ==>
      MapAccount(newDb, oldDb.accounts[|startBalance|]).None?
  {
    startBalance := [];
    var source := FindByName(newDb.accounts, OpeningBalance);
    if source.None? {
      return Ok(()), startBalance;
    }
    var i := 0;
    while i < |oldDb.accounts|
      invariant 0 <= i <= |oldDb.accounts|
      invariant |startBalance| == i
      invariant BalancesOf(oldDb, newDb, startBalance)
    {
      var account := oldDb.accounts[i];
      var balance := (MapAccount(newDb, account), TotalValue(oldDb, account));
      if balance.0.None? {
        return Ok(()), startBalance;
      }
      startBalance := startBalance + [(balance.0.value, balance.1)];
      i := i + 1;
    }
    r := Ok(());
  }

  /** `create_transaction_xml`: the events that open a transaction element;
      the transaction itself is not yet written out. */
  method CreateTransactionXml(transaction: Transaction) returns (events: seq<Event>)
    ensures |events| == 1
    ensures events[0].StartElement? && events[0].name.localName == "transaction"
    ensures events[0] == StartElement(Prefixed("transaction", "gnc"), [Attribute(Local("version"), "2.0.0")])
  {
    events := [];
    events := events + [StartElement(Prefixed("transaction", "gnc"), [Attribute(Local("version"), "2.0.0")])];
  }
}
