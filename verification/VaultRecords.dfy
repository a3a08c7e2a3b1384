/** What becomes of a vault's record and keys over whole runs, told from its events alone. */
module VaultRecords {
  import opened Prelude
  import opened ClaimAccounts
  import opened TokenAllocation
  import opened AddressLinking
  import opened KeyAgreement
  import opened VaultTables
  import opened VaultRuns

  // ---------------------------------------------------------------- the record

  /** An event of this vault. */
  predicate IsEventOf(c: Change, id: string) {
    c.Notify? && c.id == id
  }

  predicate HasHash(c: Change)
    requires c.Notify?
  {
    c.hash.Some? && c.hash.value != ""
  }

  /** A success with a hash that leads to a receipt; only such an event is looked into. */
  predicate Brings(c: Change, id: string) {
    IsEventOf(c, id) && c.status == SUCCESSFUL && HasHash(c) && c.receipt.Some?
  }

  /** The status of the last event, the last hash that was not empty, the manager of the last receipt, and the
      last distribution address that a receipt had. */
  function StatusAfter(cs: seq<Change>, id: string, before: Option<TransactionStatus>): Option<TransactionStatus> {
    if cs == [] then before
    else if IsEventOf(Last(cs), id) then Some(Last(cs).status)
    else StatusAfter(cs[..|cs| - 1], id, before)
  }

  function HashAfter(cs: seq<Change>, id: string, before: Option<string>): Option<string> {
    if cs == [] then before
    else if IsEventOf(Last(cs), id) && HasHash(Last(cs)) then Last(cs).hash
    else HashAfter(cs[..|cs| - 1], id, before)
  }

  function ManagerAfter(cs: seq<Change>, id: string, before: Option<Address>): Option<Address> {
    if cs == [] then before
    else if Brings(Last(cs), id) then Last(cs).receipt.value.managerAddress
    else ManagerAfter(cs[..|cs| - 1], id, before)
  }

  function VaultAddressAfter(cs: seq<Change>, id: string, before: Option<Address>): Option<Address> {
    if cs == [] then before
    else if Brings(Last(cs), id) && Last(cs).receipt.value.distributionAddress.Some?
    then Last(cs).receipt.value.distributionAddress
    else VaultAddressAfter(cs[..|cs| - 1], id, before)
  }

  /** In every run the record is told by the events of its own vault, field by field. The roles change in their
      addresses only, and not at all without a receipt. */
  lemma {:induction false} RecordIsToldByEvents(t: Tables, cs: seq<Change>, id: string)
    requires Feasible(t, cs) && id in t.vaults
    ensures var u, v := Run(t, cs), t.vaults[id];
      && id in u.vaults
      && u.vaults[id].transactionStatus == StatusAfter(cs, id, v.transactionStatus)
      && u.vaults[id].transactionHash == HashAfter(cs, id, v.transactionHash)
      && u.vaults[id].shareholderManagerAddress == ManagerAfter(cs, id, v.shareholderManagerAddress)
      && u.vaults[id].vaultAddress == VaultAddressAfter(cs, id, v.vaultAddress)
      && u.vaults[id].selfManaged == v.selfManaged
      && SameButAddress(v.roles, u.vaults[id].roles)
      && ((forall c :: c in cs ==> !Brings(c, id)) ==> u.vaults[id].roles == v.roles)
  {
    if cs == [] {
      RolesAreSame(t.vaults[id].roles);
    } else {
      hide Enabled, Apply, SameButAddress, Brings;
      var before := cs[..|cs| - 1];
      RecordIsToldByEvents(t, before, id);
      RecordStep(Run(t, before), Last(cs), id);
      SameButComposes(t.vaults[id].roles, Run(t, before).vaults[id].roles, Run(t, cs).vaults[id].roles);
      assert (forall c :: c in before ==> c in cs) && Last(cs) in cs;
    }
  }

  lemma {:induction false} SameButComposes(roles: seq<Role>, mid: seq<Role>, later: seq<Role>)
    requires SameButAddress(roles, mid) && SameButAddress(mid, later)
    ensures SameButAddress(roles, later)
  {}

  lemma {:induction false} RecordStep(t: Tables, c: Change, id: string)
    requires Enabled(t, c) && id in t.vaults
    ensures var u, v := Apply(t, c), t.vaults[id];
      && id in u.vaults
      && u.vaults[id].transactionStatus == (if IsEventOf(c, id) then Some(c.status) else v.transactionStatus)
      && u.vaults[id].transactionHash == (if IsEventOf(c, id) && HasHash(c) then c.hash else v.transactionHash)
      && u.vaults[id].shareholderManagerAddress ==
           (if Brings(c, id) then c.receipt.value.managerAddress else v.shareholderManagerAddress)
      && u.vaults[id].vaultAddress ==
           (if Brings(c, id) && c.receipt.value.distributionAddress.Some? then c.receipt.value.distributionAddress
            else v.vaultAddress)
      && u.vaults[id].selfManaged == v.selfManaged
      && SameButAddress(v.roles, u.vaults[id].roles)
      && (!Brings(c, id) ==> u.vaults[id].roles == v.roles)
  {
    RolesAreSame(t.vaults[id].roles);
    if c.Notify? { EventKeepsRoles(t, c.id, c.status, c.hash, c.receipt, id); }
  }

  /** A vault that is added has nothing but its roles. */
  lemma {:induction false} AddedVaultIsNew(t: Tables, id: string, roles: seq<Role>, selfManaged: bool)
    requires Enabled(t, Add(id, roles, selfManaged))
    ensures var u := Apply(t, Add(id, roles, selfManaged));
      && id in u.vaults && u.vaults[id].roles == roles && u.vaults[id].selfManaged == selfManaged
      && u.vaults[id].transactionStatus.None? && u.vaults[id].transactionHash.None?
      && u.vaults[id].vaultAddress.None? && u.vaults[id].shareholderManagerAddress.None?
      && u == t.(vaults := u.vaults) && u.vaults.Keys == t.vaults.Keys + {id}
  {}

  // ---------------------------------------------------------------- keys

  /** The vault is rejected, or this address's claim finished. */
  predicate Erases(c: Change, id: string, address: Address) {
    c.id == id && ((c.Notify? && c.status == REJECTED) || (c.FinishClaim? && c.address == address))
  }

  /** Over one change, every row keeps its key unless the change erases it, and its ciphertext unless it is erased
      or goes out by mail. */
  lemma {:induction false} KeysStay(t: Tables, c: Change, i: nat)
    requires Enabled(t, c) && i < |t.rows| && !Erases(c, t.rows[i].vaultId, t.rows[i].address)
    ensures var u := Apply(t, c);
      && i < |u.rows| && t.mail <= u.mail && u.rows[i].key == t.rows[i].key
      && (u.rows[i].encrypted == t.rows[i].encrypted ||
            (u.rows[i].encrypted.None? && IsMailed(u.mail[|t.mail|..], t.rows[i].encrypted)))
  {
    match c
    case Notify(id, status, hash, receipt) =>
      if receipt.Some? {
        LinkingMailsWhatItTakes(Linking(t.vaults[id].roles, t.rows, t.mail), id, t.vaults[id].selfManaged,
                                RowsOf(t.rows, id), receipt.value.created, i);
      }
      if status == REJECTED { EraseVaultEffect(t.rows, id); }
    case _ =>
  }

  /** So keys last: over a run without such a change of its vault, a row that can sign still can. */
  lemma {:induction false} KeysLast(t: Tables, cs: seq<Change>, i: nat)
    requires Inv(t) && Feasible(t, cs) && i < |t.rows|
    requires forall c :: c in cs ==> !Erases(c, t.rows[i].vaultId, t.rows[i].address)
    ensures i < |Run(t, cs).rows| && Run(t, cs).rows[i].key == t.rows[i].key
    ensures Erased(Run(t, cs).rows[i]) == Erased(t.rows[i])
  {
    hide Inv, Enabled, Apply, Erases;
    if cs != [] {
      var before := cs[..|cs| - 1];
      assert (forall c :: c in before ==> c in cs) && Last(cs) in cs;
      KeysLast(t, before, i);
      StagesMoveForward(t, cs, i);
      KeysStay(Run(t, before), Last(cs), i);
    }
  }

  // ---------------------------------------------------------------- invited owners can sign

  /** The row that an email leads to after a first submission, whatever was handed out since. */
  lemma {:induction false} RowOfToken(rows: seq<Account>, roles: seq<Role>, vaultId: string, drawn: nat, token: nat)
    requires RowsOf(rows, vaultId) == NewAccounts(AllEmails(roles), vaultId, drawn)
    requires Distinct(AllEmails(roles)) && token < |AllEmails(roles)|
    ensures var i := FindByEmail(rows, vaultId, AllEmails(roles)[token]);
      i < |rows| && rows[i] == NewAccount(AllEmails(roles)[token], vaultId, token, drawn + token)
  {
    var found, email := RowsOf(rows, vaultId), AllEmails(roles)[token];
    assert found[token] == NewAccount(email, vaultId, token, drawn + token);
    FindInVault(rows, vaultId, email);
    var i := FindByEmail(found, vaultId, email);
    assert found[i] == NewAccount(AllEmails(roles)[i], vaultId, i, drawn + i);
  }

  /** End to end and not only if the key is there: after the success of a first attempt with distinct emails every
      invited owner with completed KYC signs with the very wallet that the log names, and nobody without. */
  lemma {:induction false} InvitedOwnersCanSign(t: Tables, id: string, taskToken: Option<nat>, between: seq<Change>,
                                                hash: Option<string>, receipt: Receipt, e: nat, kycCompleted: bool)
    requires FirstSuccess(t, id, taskToken, between, hash, receipt) && !t.vaults[id].selfManaged
    requires Distinct(AllEmails(t.vaults[id].roles)) && e < |receipt.created|
    requires NamesOnlyOwners(receipt.created, |AllEmails(t.vaults[id].roles)|, t.drawn)
    ensures var u := BeforeSuccess(t, id, taskToken, between);
      var later := Apply(u, Notify(id, SUCCESSFUL, hash, Some(receipt)));
      && |later.mail| == |u.mail| + |receipt.created|
      && var m := later.mail[|u.mail| + e];
      SignVaultTransaction(later.rows, id, kycCompleted, m.email, m.encrypted) ==
        if kycCompleted then SignedBy(receipt.created[e].shareHolderAddress.secret) else Refused
  {
    hide FirstSuccess, Invitations, AllExpected, NamesFirstTokens, Distinct, SignVaultTransaction, Apply;
    SuccessIsEnabled(t, id, taskToken, between, hash, receipt);
    SuccessDeliversTheKeys(t, id, taskToken, between, hash, receipt);
    var roles, logs := t.vaults[id].roles, receipt.created;
    FirstTokensMeanDistinct(logs, AllEmails(roles), t.drawn);
    var u := BeforeSuccess(t, id, taskToken, between);
    var later := Apply(u, Notify(id, SUCCESSFUL, hash, Some(receipt)));
    ExpectedAt(roles, id, t.drawn, logs, e);
    assert later.mail[|u.mail| + e] == AllExpected(roles, id, t.drawn, logs)[e];
    KeyAfterSuccess(t, id, taskToken, between, hash, receipt, logs[e].shareHolderAddress.secret - t.drawn);
    SignsForToken(later.rows, id, AllEmails(roles)[logs[e].shareHolderAddress.secret - t.drawn],
                  logs[e].shareHolderAddress.secret, kycCompleted);
  }

  lemma {:induction false} ExpectedAt(roles: seq<Role>, id: string, drawn: nat, logs: seq<Created>, e: nat)
    requires NamesOnlyOwners(logs, |AllEmails(roles)|, drawn) && e < |logs|
    ensures |AllExpected(roles, id, drawn, logs)| == |logs| && NamesOwner(logs[e], |AllEmails(roles)|, drawn)
    ensures var m, secret := AllExpected(roles, id, drawn, logs)[e], logs[e].shareHolderAddress.secret;
      m.email == AllEmails(roles)[secret - drawn] && m.encrypted == Some(Sealed(secret, secret))
  {}

  lemma {:induction false} SignsForToken(rows: seq<Account>, id: string, email: string, secret: Secret,
                                         kycCompleted: bool)
    requires var i := FindByEmail(rows, id, email); i < |rows| && rows[i].key == Some(secret)
    ensures SignVaultTransaction(rows, id, kycCompleted, email, Some(Sealed(secret, secret))) ==
      if kycCompleted then SignedBy(secret) else Refused
  {}

  lemma {:induction false} KeyAfterSuccess(t: Tables, id: string, taskToken: Option<nat>, between: seq<Change>,
                                           hash: Option<string>, receipt: Receipt, token: nat)
    requires FirstSuccess(t, id, taskToken, between, hash, receipt)
    requires Distinct(AllEmails(t.vaults[id].roles)) && token < |AllEmails(t.vaults[id].roles)|
    ensures var u := BeforeSuccess(t, id, taskToken, between);
      var later := Apply(u, Notify(id, SUCCESSFUL, hash, Some(receipt)));
      var i := FindByEmail(later.rows, id, AllEmails(t.vaults[id].roles)[token]);
      i < |later.rows| && later.rows[i].key == Some(t.drawn + token)
  {
    hide Inv, Distinct, FindByEmail, NewAccounts, Quiet;
    StateBeforeSuccess(t, id, taskToken, between, hash, receipt);
    var u := BeforeSuccess(t, id, taskToken, between);
    var c := Notify(id, SUCCESSFUL, hash, Some(receipt));
    RowOfToken(u.rows, t.vaults[id].roles, id, t.drawn, token);
    var email := AllEmails(t.vaults[id].roles)[token];
    var i := FindByEmail(u.rows, id, email);
    KeysStay(u, c, i);
    FoundAfterEvent(u, c, email);
  }

  lemma {:induction false} FoundAfterEvent(t: Tables, c: Change, email: string)
    requires Inv(t) && Enabled(t, c) && c.Notify?
    ensures FindByEmail(Apply(t, c).rows, c.id, email) == FindByEmail(t.rows, c.id, email)
  {
    hide Inv, FindByEmail, WornOut;
    InvMeansSentOnce(t);
    EventWears(t, c.id, c.status, c.hash, c.receipt);
    WornIsSame(t.rows, Apply(t, c).rows);
    FindIsStable(t.rows, Apply(t, c).rows, c.id, email);
  }
}
