/** Virtual accounts that are opened on demand, one in dollars and one in euros, by two services that
    share a table (virtual-accounts.service.ts and direct-vaults.service.ts). */
module Provisioning {
  import opened Prelude

  /** `currency` is that of the deposit instructions, if there are any. */
  datatype Account = Account(
    auth0Id: string, id: string, customerId: string, currency: Option<string>, destinationAddress: Option<string>,
    vaultName: string)

  /** Rows by user and account id. */
  type Table = map<(string, string), Account>

  /** What Bridge answers to the opening of an account. */
  datatype BridgeAccount = BridgeAccount(id: string, customerId: string, currency: Option<string>,
                                         destinationAddress: Option<string>)

  /** A purpose for which there should be one account. */
  datatype Purpose = Purpose(customerId: string, currency: string, wallet: string)

  predicate Serves(a: Account, p: Purpose) {
    a.customerId == p.customerId && a.currency == Some(p.currency) && a.destinationAddress == Some(p.wallet)
  }

  predicate Has(table: Table, p: Purpose) {
    exists k :: k in table && Serves(table[k], p)
  }

  /** Bridge echoes the customer, the currency and the destination of the request. */
  predicate Echoes(reply: Option<BridgeAccount>, p: Purpose) {
    reply.Some? ==>
      && reply.value.customerId == p.customerId && reply.value.currency == Some(p.currency)
      && reply.value.destinationAddress == Some(p.wallet)
  }

  /** saveVirtualAccount: refuses a row that exists. */
  function Saved(table: Table, auth0Id: string, b: BridgeAccount, vaultName: string): (Table, bool) {
    if (auth0Id, b.id) in table then (table, false)
    else
      var account := Account(auth0Id, b.id, b.customerId, b.currency, b.destinationAddress, vaultName);
      (table[(auth0Id, b.id) := account], true)
  }

  /** One currency of one call. `seen` tells whether the scan showed an account for it, `saver` is the
      user whose row it becomes. The result: the table, whether Bridge was asked, and the flag. */
  function EnsureOne(table: Table, seen: bool, saver: Option<string>, reply: Option<BridgeAccount>,
                     vaultName: string): (Table, bool, bool) {
    if seen then (table, false, true)
    else if reply.None? then (table, true, false)
    else if saver.None? then (table, true, true)
    else
      var (later, saved) := Saved(table, saver.value, reply.value, vaultName);
      (later, true, saved)
  }

  /** A call of either service, from its scan on; a scan that fails shows nothing. */
  datatype Call = Call(
    customerId: string, wallet: string, saver: Option<string>, scanned: bool,
    usd: Option<BridgeAccount>, eur: Option<BridgeAccount>, vaultName: string)

  function Usd(c: Call): Purpose { Purpose(c.customerId, "usd", c.wallet) }

  function Eur(c: Call): Purpose { Purpose(c.customerId, "eur", c.wallet) }

  /** Whether Bridge was asked to open an account, and whether the call takes one for granted. */
  datatype Outcome = Outcome(table: Table, askedUsd: bool, askedEur: bool, hasUsd: bool, hasEur: bool)

  /** Both flags come from the one scan at the beginning. */
  function Ensure(table: Table, c: Call): Outcome {
    var seenUsd, seenEur := c.scanned && Has(table, Usd(c)), c.scanned && Has(table, Eur(c));
    var (t, askedUsd, hasUsd) := EnsureOne(table, seenUsd, c.saver, c.usd, c.vaultName);
    var (u, askedEur, hasEur) := EnsureOne(t, seenEur, c.saver, c.eur, c.vaultName);
    Outcome(u, askedUsd, askedEur, hasUsd, hasEur)
  }

  predicate BridgeEchoes(c: Call) {
    Echoes(c.usd, Usd(c)) && Echoes(c.eur, Eur(c))
  }

  // ---------------------------------------------------------------- never two accounts

  ghost predicate AtMostOne(table: Table, p: Purpose) {
    forall k, l :: k in table && l in table && Serves(table[k], p) && Serves(table[l], p) ==> k == l
  }

  /** One currency, any purpose: what is there stays, and at most one account is added, for the purpose
      that was asked for and only when none was seen. */
  lemma {:induction false} EnsureOneAdds(table: Table, seen: bool, saver: Option<string>,
                                         reply: Option<BridgeAccount>, vaultName: string,
                                         asked: Purpose, p: Purpose)
    requires Echoes(reply, asked)
    ensures var (later, _, flag) := EnsureOne(table, seen, saver, reply, vaultName);
      && (forall k :: k in table ==> k in later && later[k] == table[k])
      && (Has(later, p) <==> Has(table, p) || (p == asked && later != table))
      && (AtMostOne(later, p) <==> AtMostOne(table, p) && !(p == asked && later != table && Has(table, p)))
      && (later != table ==> !seen && flag)
  {
    var (later, _, _) := EnsureOne(table, seen, saver, reply, vaultName);
    forall k | k in table ensures k in later && later[k] == table[k] {}
    if later != table {
      var key := (saver.value, reply.value.id);
      assert key !in table && Serves(later[key], asked);
      assert Serves(later[key], p) <==> p == asked;
      if Has(table, p) {
        var k :| k in table && Serves(table[k], p);
        assert k in later && Serves(later[k], p) && k != key;
      }
      if AtMostOne(later, p) {
        forall k, l | k in table && l in table && Serves(table[k], p) && Serves(table[l], p) ensures k == l {
          assert later[k] == table[k] && later[l] == table[l];
        }
      }
    }
  }

  /** Every call whose scan works keeps at most one account per customer, currency and wallet, for all
      of them at once and whatever Bridge answers. */
  lemma {:induction false} EnsureKeepsAtMostOne(table: Table, c: Call, p: Purpose)
    requires BridgeEchoes(c) && c.scanned && AtMostOne(table, p)
    ensures AtMostOne(Ensure(table, c).table, p)
  {
    hide AtMostOne, Has, EnsureOne, Echoes;
    var seenUsd, seenEur := Has(table, Usd(c)), Has(table, Eur(c));
    var (t, _, _) := EnsureOne(table, seenUsd, c.saver, c.usd, c.vaultName);
    EnsureOneAdds(table, seenUsd, c.saver, c.usd, c.vaultName, Usd(c), p);
    EnsureOneAdds(table, seenUsd, c.saver, c.usd, c.vaultName, Usd(c), Eur(c));
    EnsureOneAdds(t, seenEur, c.saver, c.eur, c.vaultName, Eur(c), p);
    assert "usd" != "eur";
  }

  function EnsureAll(table: Table, calls: seq<Call>): Table {
    if calls == [] then table else Ensure(EnsureAll(table, calls[..|calls| - 1]), Last(calls)).table
  }

  /** So it is over any sequence of calls to either service. */
  lemma {:induction false} NeverTwoAccounts(table: Table, calls: seq<Call>, p: Purpose)
    requires AtMostOne(table, p) && forall c :: c in calls ==> BridgeEchoes(c) && c.scanned
    ensures AtMostOne(EnsureAll(table, calls), p)
  {
    if calls != [] {
      hide AtMostOne, Has, Ensure, BridgeEchoes;
      var before := calls[..|calls| - 1];
      assert (forall c :: c in before ==> c in calls) && Last(calls) in calls;
      NeverTwoAccounts(table, before, p);
      EnsureKeepsAtMostOne(EnsureAll(table, before), Last(calls), p);
    }
  }

  lemma {:induction false} EnsureOneKeeps(table: Table, seen: bool, saver: Option<string>, reply: Option<BridgeAccount>,
                                          vaultName: string, p: Purpose)
    requires Has(table, p)
    ensures Has(EnsureOne(table, seen, saver, reply, vaultName).0, p)
  {
    var k :| k in table && Serves(table[k], p);
    var later := EnsureOne(table, seen, saver, reply, vaultName).0;
    assert k in later && Serves(later[k], p);
  }

  /** No call removes an account. */
  lemma {:induction false} AccountsStay(table: Table, calls: seq<Call>, p: Purpose)
    requires Has(table, p)
    ensures Has(EnsureAll(table, calls), p)
  {
    if calls != [] {
      hide Has, EnsureOne;
      var before, c := EnsureAll(table, calls[..|calls| - 1]), Last(calls);
      AccountsStay(table, calls[..|calls| - 1], p);
      var seenUsd, seenEur := c.scanned && Has(before, Usd(c)), c.scanned && Has(before, Eur(c));
      EnsureOneKeeps(before, seenUsd, c.saver, c.usd, c.vaultName, p);
      EnsureOneKeeps(EnsureOne(before, seenUsd, c.saver, c.usd, c.vaultName).0, seenEur, c.saver, c.eur, c.vaultName,
                     p);
    }
  }

  /** Once an account is in the table no later call whose scan works asks Bridge for it again, whatever
      happened in between, and with both accounts there a call does nothing. */
  lemma {:induction false} OnceIsEnough(table: Table, before: seq<Call>, c: Call)
    requires c.scanned
    ensures Has(table, Usd(c)) ==> !Ensure(EnsureAll(table, before), c).askedUsd
    ensures Has(table, Eur(c)) ==> !Ensure(EnsureAll(table, before), c).askedEur
    ensures Has(table, Usd(c)) && Has(table, Eur(c)) ==>
      Ensure(EnsureAll(table, before), c) == Outcome(EnsureAll(table, before), false, false, true, true)
  {
    hide Has;
    if Has(table, Usd(c)) { AccountsStay(table, before, Usd(c)); }
    if Has(table, Eur(c)) { AccountsStay(table, before, Eur(c)); }
  }

  // ---------------------------------------------------------------- what a call asks for and stores

  /** The row of an account that Bridge opened for this call. */
  predicate IsNewRow(row: Account, key: (string, string), c: Call, currency: string, reply: Option<BridgeAccount>) {
    && c.saver == Some(key.0) && reply.Some? && reply.value.id == key.1
    && row == Account(key.0, key.1, c.customerId, Some(currency), Some(c.wallet), c.vaultName)
  }

  /** Every row that a call adds is under its user and the id that Bridge gave, and is for the customer, the wallet
      and one of the two currencies; and no row changes. */
  lemma {:induction false} AddedRowsAre(table: Table, c: Call, key: (string, string))
    requires BridgeEchoes(c)
    ensures var later := Ensure(table, c).table;
      && (key in table ==> key in later && later[key] == table[key])
      && (key in later && key !in table ==>
            IsNewRow(later[key], key, c, "usd", c.usd) || IsNewRow(later[key], key, c, "eur", c.eur))
  {}

  /** Bridge is asked exactly for the currencies, by these names, in which the scan shows no account. */
  lemma {:induction false} AsksForWhatIsMissing(table: Table, c: Call)
    ensures var o := Ensure(table, c);
      && (o.askedUsd <==> !(c.scanned && Has(table, Purpose(c.customerId, "usd", c.wallet))))
      && (o.askedEur <==> !(c.scanned && Has(table, Purpose(c.customerId, "eur", c.wallet))))
  {}

  // ---------------------------------------------------------------- currencies do not block each other

  /** Bridge opened an account and its row is free. */
  predicate CanSave(table: Table, saver: Option<string>, reply: Option<BridgeAccount>) {
    reply.Some? && saver.Some? && (saver.value, reply.value.id) !in table
  }

  /** Afterwards there is an account in a currency exactly if there was one, or Bridge opened one that
      could be saved; what happens to the other currency does not matter. */
  lemma {:induction false} CurrenciesAreIndependent(table: Table, c: Call)
    requires BridgeEchoes(c) && c.scanned
    requires c.usd.Some? && c.eur.Some? ==> c.usd.value.id != c.eur.value.id
    ensures var o := Ensure(table, c);
      && (Has(o.table, Usd(c)) <==> Has(table, Usd(c)) || CanSave(table, c.saver, c.usd))
      && (Has(o.table, Eur(c)) <==> Has(table, Eur(c)) || CanSave(table, c.saver, c.eur))
  {
    var seenUsd, seenEur := Has(table, Usd(c)), Has(table, Eur(c));
    var (t, _, _) := EnsureOne(table, seenUsd, c.saver, c.usd, c.vaultName);
    assert t != table <==> !seenUsd && CanSave(table, c.saver, c.usd) by {
      AddsWhenItCan(table, seenUsd, c.saver, c.usd, c.vaultName);
    }
    var (u, _, _) := EnsureOne(t, seenEur, c.saver, c.eur, c.vaultName);
    assert u != t <==> !seenEur && CanSave(t, c.saver, c.eur) by {
      AddsWhenItCan(t, seenEur, c.saver, c.eur, c.vaultName);
    }
    assert CanSave(t, c.saver, c.eur) <==> CanSave(table, c.saver, c.eur);
    hide AtMostOne, Has, EnsureOne, Echoes, CanSave;
    EnsureOneAdds(table, seenUsd, c.saver, c.usd, c.vaultName, Usd(c), Usd(c));
    EnsureOneAdds(table, seenUsd, c.saver, c.usd, c.vaultName, Usd(c), Eur(c));
    EnsureOneAdds(t, seenEur, c.saver, c.eur, c.vaultName, Eur(c), Usd(c));
    EnsureOneAdds(t, seenEur, c.saver, c.eur, c.vaultName, Eur(c), Eur(c));
  }

  lemma {:induction false} AddsWhenItCan(table: Table, seen: bool, saver: Option<string>,
                                         reply: Option<BridgeAccount>, vaultName: string)
    ensures EnsureOne(table, seen, saver, reply, vaultName).0 != table <==> !seen && CanSave(table, saver, reply)
  {
    if !seen && CanSave(table, saver, reply) {
      assert (saver.value, reply.value.id) in EnsureOne(table, seen, saver, reply, vaultName).0;
    }
  }

  // ---------------------------------------------------------------- where the hypotheses are needed

  /** A failing scan shows no accounts. The call then leaves one per purpose exactly if it adds none for
      a purpose that had one. */
  lemma {:induction false} FailedScanDuplicates(table: Table, c: Call)
    requires BridgeEchoes(c) && !c.scanned && AtMostOne(table, Usd(c)) && AtMostOne(table, Eur(c))
    requires c.usd.Some? && c.eur.Some? ==> c.usd.value.id != c.eur.value.id
    ensures AtMostOne(Ensure(table, c).table, Usd(c)) <==> !(Has(table, Usd(c)) && CanSave(table, c.saver, c.usd))
    ensures AtMostOne(Ensure(table, c).table, Eur(c)) <==> !(Has(table, Eur(c)) && CanSave(table, c.saver, c.eur))
  {
    var (t, _, _) := EnsureOne(table, false, c.saver, c.usd, c.vaultName);
    AddsWhenItCan(table, false, c.saver, c.usd, c.vaultName);
    AddsWhenItCan(t, false, c.saver, c.eur, c.vaultName);
    assert CanSave(t, c.saver, c.eur) <==> CanSave(table, c.saver, c.eur);
    hide AtMostOne, Has, EnsureOne, Echoes, CanSave;
    EnsureOneAdds(table, false, c.saver, c.usd, c.vaultName, Usd(c), Usd(c));
    EnsureOneAdds(table, false, c.saver, c.usd, c.vaultName, Usd(c), Eur(c));
    EnsureOneAdds(t, false, c.saver, c.eur, c.vaultName, Eur(c), Usd(c));
    EnsureOneAdds(t, false, c.saver, c.eur, c.vaultName, Eur(c), Eur(c));
  }

  /** A flag that is reported tells the truth about the table unless the account was missing, Bridge
      opened it, and there was no customer row to store it under. */
  lemma {:induction false} FlagsTellTheTruth(table: Table, c: Call)
    requires BridgeEchoes(c) && c.scanned
    requires c.usd.Some? && c.eur.Some? ==> c.usd.value.id != c.eur.value.id
    ensures var o := Ensure(table, c);
      && ((o.hasUsd ==> Has(o.table, Usd(c))) <==> Has(table, Usd(c)) || c.saver.Some? || c.usd.None?)
      && ((o.hasEur ==> Has(o.table, Eur(c))) <==> Has(table, Eur(c)) || c.saver.Some? || c.eur.None?)
  {
    CurrenciesAreIndependent(table, c);
    var seenUsd, seenEur := Has(table, Usd(c)), Has(table, Eur(c));
    var t := EnsureOne(table, seenUsd, c.saver, c.usd, c.vaultName).0;
    FlagMeans(table, seenUsd, c.saver, c.usd, c.vaultName);
    FlagMeans(t, seenEur, c.saver, c.eur, c.vaultName);
    assert CanSave(t, c.saver, c.eur) <==> CanSave(table, c.saver, c.eur);
  }

  lemma {:induction false} FlagMeans(table: Table, seen: bool, saver: Option<string>, reply: Option<BridgeAccount>,
                                     vaultName: string)
    ensures EnsureOne(table, seen, saver, reply, vaultName).2 <==>
      seen || (reply.Some? && saver.None?) || CanSave(table, saver, reply)
  {}

  /** How many accounts Bridge was asked to open. */
  function Asked(table: Table, calls: seq<Call>): nat {
    if calls == [] then 0
    else
      var o := Ensure(EnsureAll(table, calls[..|calls| - 1]), Last(calls));
      Asked(table, calls[..|calls| - 1]) + (if o.askedUsd then 1 else 0) + (if o.askedEur then 1 else 0)
  }

  /** So without a customer row it never ends: n calls for accounts that are missing have Bridge open
      2n accounts, report them all as present whenever Bridge does, and store none. */
  lemma {:induction false} MissingCustomerIsNotNoticed(table: Table, calls: seq<Call>)
    requires forall c :: c in calls ==> c.scanned && c.saver.None? && !Has(table, Usd(c)) && !Has(table, Eur(c))
    ensures EnsureAll(table, calls) == table && Asked(table, calls) == 2 * |calls|
    ensures calls != [] ==>
      var o := Ensure(EnsureAll(table, calls[..|calls| - 1]), Last(calls));
      (o.hasUsd <==> Last(calls).usd.Some?) && (o.hasEur <==> Last(calls).eur.Some?)
  {
    if calls != [] {
      hide Has;
      var before := calls[..|calls| - 1];
      assert (forall c :: c in before ==> c in calls) && Last(calls) in calls;
      MissingCustomerIsNotNoticed(table, before);
    }
  }

  // ---------------------------------------------------------------- the services

  class VirtualAccountsService {
    var table: Table
    var customers: map<string, string>  // Bridge customer ids by user

    /** The scan, or an empty list when it fails. */
    method GetVirtualAccountsByCustomerId(customerId: string, scanned: bool) returns (results: seq<Account>)
      ensures !scanned ==> results == []
      ensures scanned ==> forall a :: a in results <==>
        exists k :: k in table && table[k] == a && a.customerId == customerId
    {
      results := [];
      if !scanned { return; }
      var keys := table.Keys;
      while keys != {}
        invariant keys <= table.Keys
        invariant forall a :: a in results <==>
          exists k :: k in table && k !in keys && table[k] == a && a.customerId == customerId
        decreases keys
      {
        var k :| k in keys;
        if table[k].customerId == customerId { results := results + [table[k]]; }
        keys := keys - {k};
      }
    }

    /** `existing.some(...)` */
    method ShowsAccount(existing: seq<Account>, p: Purpose) returns (found: bool)
      ensures found <==>
        exists a :: a in existing && a.currency == Some(p.currency) && a.destinationAddress == Some(p.wallet)
    {
      found := false;
      for i := 0 to |existing|
        invariant found <==>
          exists j :: 0 <= j < i &&
            existing[j].currency == Some(p.currency) && existing[j].destinationAddress == Some(p.wallet)
      {
        if existing[i].currency == Some(p.currency) && existing[i].destinationAddress == Some(p.wallet) {
          found := true;
        }
      }
    }

    method Seen(p: Purpose, scanned: bool) returns (seen: bool)
      ensures seen <==> scanned && Has(table, p)
    {
      var existing := GetVirtualAccountsByCustomerId(p.customerId, scanned);
      seen := ShowsAccount(existing, p);
      if scanned {
        forall k | k in table && Serves(table[k], p) ensures seen { assert table[k] in existing; }
      }
    }

    method SaveVirtualAccount(auth0Id: string, b: BridgeAccount, vaultName: string) returns (ok: bool)
      modifies this`table
      ensures (table, ok) == Saved(old(table), auth0Id, b, vaultName)
    {
      if (auth0Id, b.id) in table { return false; }
      table := table[(auth0Id, b.id) := Account(auth0Id, b.id, b.customerId, b.currency, b.destinationAddress,
                                                vaultName)];
      ok := true;
    }

    method CreateMissingVirtualAccount(auth0Id: string, reply: Option<BridgeAccount>) returns (ok: bool)
      modifies this`table
      ensures (table, true, ok) == EnsureOne(old(table), false, Some(auth0Id), reply, "Auto-created Virtual Account")
    {
      if reply.None? { return false; }
      ok := SaveVirtualAccount(auth0Id, reply.value, "Auto-created Virtual Account");
    }

    /** Called before a user's accounts are listed; does nothing without customer, approval or wallet. */
    method EnsureVirtualAccountsExist(auth0Id: string, approved: bool, wallet: Option<string>, scanned: bool,
                                      usd: Option<BridgeAccount>, eur: Option<BridgeAccount>)
      modifies this`table
      ensures table ==
        if auth0Id in customers && approved && wallet.Some? && wallet.value != ""
        then
          var c := Call(customers[auth0Id], wallet.value, Some(auth0Id), scanned, usd, eur,
                        "Auto-created Virtual Account");
          Ensure(old(table), c).table
        else old(table)
    {
      if auth0Id !in customers || !approved || wallet.None? || wallet.value == "" { return; }
      var hasUsdAccount := Seen(Purpose(customers[auth0Id], "usd", wallet.value), scanned);
      var hasEurAccount := Seen(Purpose(customers[auth0Id], "eur", wallet.value), scanned);
      if !hasUsdAccount { var _ := CreateMissingVirtualAccount(auth0Id, usd); }
      if !hasEurAccount { var _ := CreateMissingVirtualAccount(auth0Id, eur); }
    }
  }

  class DirectVaultsService {
    const virtualAccountsService: VirtualAccountsService

    constructor (virtualAccountsService: VirtualAccountsService)
      ensures this.virtualAccountsService == virtualAccountsService
    {
      this.virtualAccountsService := virtualAccountsService;
    }

    /** `customer` is the user whose customer row has the Bridge id, if there is one. */
    method CreateVirtualAccount(customer: Option<string>, reply: Option<BridgeAccount>) returns (ok: bool)
      modifies virtualAccountsService`table
      ensures (virtualAccountsService.table, true, ok) ==
        EnsureOne(old(virtualAccountsService.table), false, customer, reply, "Direct Vault")
    {
      if reply.None? { return false; }
      ok := true;
      if customer.Some? {
        ok := virtualAccountsService.SaveVirtualAccount(customer.value, reply.value, "Direct Vault");
      }
    }

    method EnsureVirtualAccountsExist(customerId: string, destinationAddress: string, customer: Option<string>,
                                      scanned: bool,
                                      usd: Option<BridgeAccount>, eur: Option<BridgeAccount>) returns (both: bool)
      modifies virtualAccountsService`table
      ensures var c := Call(customerId, destinationAddress, customer, scanned, usd, eur, "Direct Vault");
        var o := Ensure(old(virtualAccountsService.table), c);
        virtualAccountsService.table == o.table && both == (o.hasUsd && o.hasEur)
    {
      var hasUsdAccount := virtualAccountsService.Seen(Purpose(customerId, "usd", destinationAddress), scanned);
      var hasEurAccount := virtualAccountsService.Seen(Purpose(customerId, "eur", destinationAddress), scanned);
      if !hasUsdAccount { hasUsdAccount := CreateVirtualAccount(customer, usd); }
      if !hasEurAccount { hasEurAccount := CreateVirtualAccount(customer, eur); }
      both := hasEurAccount && hasUsdAccount;
    }
  }
}
