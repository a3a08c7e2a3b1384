/** Self-managed vaults: their keys are not mailed but stay in the rows, where the owner asks for them
    (getInfoForShareholderClaimAccount) until the claim is finished. */
module SelfManagedVaults {
  import opened Prelude
  import opened ClaimAccounts
  import opened TokenAllocation
  import opened AddressLinking
  import opened KeyAgreement
  import opened VaultTables
  import opened VaultRuns

  // ---------------------------------------------------------------- events

  /** No event but a rejection touches the accounts of a self-managed vault, and none invites anybody. */
  lemma {:induction false} EventKeepsKeys(t: Tables, id: string, status: TransactionStatus, hash: Option<string>,
                                          receipt: Option<Receipt>)
    requires id in t.vaults && t.vaults[id].selfManaged
    ensures var u := Notified(t, id, status, hash, receipt);
      u.mail == t.mail && u.rows == if status == REJECTED then EraseVault(t.rows, id) else t.rows
  {
    if receipt.Some? {
      SelfManagedKeepsKeys(Linking(t.vaults[id].roles, t.rows, t.mail), id, RowsOf(t.rows, id), receipt.value.created);
    }
  }

  /** So after the success of a first attempt every account is as full as the submission made it. */
  lemma {:induction false} SuccessKeepsKeys(t: Tables, id: string, taskToken: Option<nat>, between: seq<Change>,
                                            hash: Option<string>, receipt: Receipt)
    requires FirstSuccess(t, id, taskToken, between, hash, receipt) && t.vaults[id].selfManaged
    ensures var u := BeforeSuccess(t, id, taskToken, between);
      var later := Apply(u, Notify(id, SUCCESSFUL, hash, Some(receipt)));
      && later.mail == u.mail
      && RowsOf(later.rows, id) == NewAccounts(AllEmails(t.vaults[id].roles), id, t.drawn)
      && forall a :: a in RowsOf(later.rows, id) ==> Stage(a) == 0
  {
    hide Inv, NewAccounts, Quiet, Stage;
    StateBeforeSuccess(t, id, taskToken, between, hash, receipt);
    var u := BeforeSuccess(t, id, taskToken, between);
    EventKeepsKeys(u, id, SUCCESSFUL, hash, Some(receipt));
    assert Apply(u, Notify(id, SUCCESSFUL, hash, Some(receipt))).rows == u.rows;
    NewAccountsAreFull(AllEmails(t.vaults[id].roles), id, t.drawn);
  }

  lemma {:induction false} NewAccountsAreFull(emails: seq<string>, id: string, drawn: nat)
    ensures forall a :: a in NewAccounts(emails, id, drawn) ==> Stage(a) == 0
  {}

  // ---------------------------------------------------------------- asking for the key

  /** `a` is the role's address and `p` the ciphertext; a vault that is missing makes the look-up crash. */
  datatype Info = NoInfo | Crashed | Info(a: Option<Address>, p: Option<Ciphertext>)

  /** The first role that has the email, at any place. */
  function RoleWithEmail(roles: seq<Role>, email: string): (i: nat)
    ensures i <= |roles|
    ensures i < |roles| ==> email in roles[i].emails
    ensures forall j :: 0 <= j < i ==> email !in roles[j].emails
  {
    FindIndex(roles, (r: Role) => email in r.emails)
  }

  /** getInfoForShareholderClaimAccount */
  function InfoFor(t: Tables, id: string, email: string): Info {
    if id !in t.vaults then Crashed
    else
      var i, r := FindByEmail(t.rows, id, email), RoleWithEmail(t.vaults[id].roles, email);
      if i == |t.rows| || r == |t.vaults[id].roles| then NoInfo
      else Info(t.vaults[id].roles[r].shareHolderRoleAddress, t.rows[i].encrypted)
  }

  /** The look-up crashes without the vault, and finds nothing exactly if no account or no role has the email. */
  lemma {:induction false} InfoMeans(t: Tables, id: string, email: string)
    ensures InfoFor(t, id, email) == Crashed <==> id !in t.vaults
    ensures InfoFor(t, id, email) == NoInfo <==>
      && id in t.vaults
      && !((exists a :: a in t.rows && a.vaultId == id && a.userEmail == email) &&
           (exists r :: r in t.vaults[id].roles && email in r.emails))
  {
    if id in t.vaults {
      var i, k := FindByEmail(t.rows, id, email), RoleWithEmail(t.vaults[id].roles, email);
      if i < |t.rows| { assert t.rows[i] in t.rows; }
      if k < |t.vaults[id].roles| { assert t.vaults[id].roles[k] in t.vaults[id].roles; }
    }
  }

  /** End to end: after the success of a first attempt with distinct emails, each owner that asks gets the
      address deployed for the first token of his role, and the ciphertext of his own token's wallet. */
  lemma {:induction false} OwnersFindTheirKeys(t: Tables, id: string, taskToken: Option<nat>, between: seq<Change>,
                                               hash: Option<string>, receipt: Receipt, i: nat, j: nat)
    requires FirstSuccess(t, id, taskToken, between, hash, receipt) && t.vaults[id].selfManaged
    requires Distinct(AllEmails(t.vaults[id].roles)) && i < |t.vaults[id].roles| && j < |t.vaults[id].roles[i].emails|
    requires NamesEachOwnerOnce(receipt.created, |AllEmails(t.vaults[id].roles)|, t.drawn)
    ensures var roles := t.vaults[id].roles;
      var later := Apply(BeforeSuccess(t, id, taskToken, between), Notify(id, SUCCESSFUL, hash, Some(receipt)));
      var own, token := OwnLog(roles, receipt.created, t.drawn, i), t.drawn + Offset(roles, i) + j;
      && own < |receipt.created| && receipt.created[own].shareHolderAddress == Wallet(t.drawn + Offset(roles, i))
      && InfoFor(later, id, roles[i].emails[j]) ==
           Info(receipt.created[own].shareHolderVaultAddress, Some(Sealed(token, token)))
  {
    hide FirstSuccess, NamesEachOwnerOnce, FirstEmailsOccurOnce, Distinct, AllLinkedToOwn, NewAccounts, InfoFor;
    hide Notified;
    SuccessIsEnabled(t, id, taskToken, between, hash, receipt);
    DistinctEmailsOccurOnce(t.vaults[id].roles);
    SuccessLinksEveryRole(t, id, taskToken, between, hash, receipt);
    SuccessKeepsKeys(t, id, taskToken, between, hash, receipt);
    var later := Apply(BeforeSuccess(t, id, taskToken, between), Notify(id, SUCCESSFUL, hash, Some(receipt)));
    VaultIsThere(BeforeSuccess(t, id, taskToken, between), id, hash, receipt);
    InfoOfOwner(later, id, t.vaults[id].roles, receipt.created, t.drawn, i, j);
  }

  lemma {:induction false} VaultIsThere(u: Tables, id: string, hash: Option<string>, receipt: Receipt)
    requires Enabled(u, Notify(id, SUCCESSFUL, hash, Some(receipt)))
    ensures id in Apply(u, Notify(id, SUCCESSFUL, hash, Some(receipt))).vaults
  {}

  lemma {:induction false} InfoOfOwner(later: Tables, id: string, roles: seq<Role>, logs: seq<Created>, drawn: nat,
                                       i: nat, j: nat)
    requires id in later.vaults && AllLinkedToOwn(roles, later.vaults[id].roles, logs, drawn)
    requires RowsOf(later.rows, id) == NewAccounts(AllEmails(roles), id, drawn)
    requires Distinct(AllEmails(roles)) && i < |roles| && j < |roles[i].emails|
    ensures var own, token := OwnLog(roles, logs, drawn, i), drawn + Offset(roles, i) + j;
      && own < |logs| && logs[own].shareHolderAddress == Wallet(drawn + Offset(roles, i))
      && InfoFor(later, id, roles[i].emails[j]) == Info(logs[own].shareHolderVaultAddress, Some(Sealed(token, token)))
  {
    hide Distinct, RoleWithEmail, FindByEmail;
    assert LinkedToOwn(roles, later.vaults[id].roles, logs, drawn, i);
    var token := Offset(roles, i) + j;
    TokenOfEmail(roles, i, j);
    FreshRowsHold(later.rows, roles, id, drawn, token);
    OnlyToken(AllEmails(roles), token);
    SameEmailsPerRole(roles, later.vaults[id].roles, logs, drawn);
    OnlyRole(roles, later.vaults[id].roles, i, j);
  }

  lemma {:induction false} OnlyToken(emails: seq<string>, token: nat)
    requires Distinct(emails) && token < |emails|
    ensures FirstToken(emails, emails[token]) == token
  {}

  lemma {:induction false} SameEmailsPerRole(roles: seq<Role>, later: seq<Role>, logs: seq<Created>, drawn: nat)
    requires AllLinkedToOwn(roles, later, logs, drawn)
    ensures |later| == |roles| && forall k :: 0 <= k < |roles| ==> later[k].emails == roles[k].emails
  {
    forall k | 0 <= k < |roles| ensures later[k].emails == roles[k].emails {
      assert LinkedToOwn(roles, later, logs, drawn, k);
    }
  }

  lemma {:induction false} OnlyRole(roles: seq<Role>, later: seq<Role>, i: nat, j: nat)
    requires Distinct(AllEmails(roles)) && i < |roles| && j < |roles[i].emails|
    requires |later| == |roles| && forall k :: 0 <= k < |roles| ==> later[k].emails == roles[k].emails
    ensures RoleWithEmail(later, roles[i].emails[j]) == i
  {
    var r := RoleWithEmail(later, roles[i].emails[j]);
    assert roles[i].emails[j] in later[i].emails;
    if r < i {
      var l :| 0 <= l < |roles[r].emails| && roles[r].emails[l] == roles[i].emails[j];
      TokenOfEmail(roles, r, l);
      TokenOfEmail(roles, i, j);
      OffsetsGrow(roles, r + 1, i);
    }
  }

  // ---------------------------------------------------------------- finishing the claim

  /** In every reachable state of the accounts, finishing the claim of a row's address clears exactly this
      row, and an address that no row of the vault has clears none. */
  lemma {:induction false} ClaimClearsItsRow(t: Tables, id: string, address: Address, k: nat)
    requires Inv(t) && id in t.vaults && k < |t.rows|
    ensures var u := Apply(t, FinishClaim(id, address));
      && |u.rows| == |t.rows| && u == t.(rows := u.rows)
      && u.rows[k] == if t.rows[k].vaultId == id && t.rows[k].address == address then Erased(t.rows[k]) else t.rows[k]
  {
    hide AllStatusOk, AllHistoryOk;
    var i := FindByAddress(t.rows, id, address);
    assert RowOk(t.rows[k], t.drawn);
    if i < |t.rows| {
      assert RowOk(t.rows[i], t.drawn);
      assert i < k ==> t.rows[i].id < t.rows[k].id;
      assert k < i ==> t.rows[k].id < t.rows[i].id;
    }
  }

  /** So the owner whose claim is finished finds no key any more, and everybody else still does. */
  lemma {:induction false} ClaimedKeyIsGone(t: Tables, id: string, address: Address, email: string)
    requires Inv(t) && id in t.vaults && InfoFor(t, id, email).Info?
    ensures var u, i := Apply(t, FinishClaim(id, address)), FindByEmail(t.rows, id, email);
      && i < |t.rows|
      && InfoFor(u, id, email) ==
           if t.rows[i].address == address then InfoFor(t, id, email).(p := None) else InfoFor(t, id, email)
  {
    hide Inv;
    var u, i := Apply(t, FinishClaim(id, address)), FindByEmail(t.rows, id, email);
    ClaimClearsItsRow(t, id, address, i);
    forall k | 0 <= k < |t.rows| ensures Erased(t.rows[k]) == Erased(u.rows[k]) {
      ClaimClearsItsRow(t, id, address, k);
    }
    FindIsStable(t.rows, u.rows, id, email);
  }
}
