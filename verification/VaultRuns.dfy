/** Whole runs of the vault tables: claim accounts only wear out, vaults do not interfere, and a first
    attempt ends with every share holder holding exactly the key that was submitted for its token. */
module VaultRuns {
  import opened Prelude
  import opened ClaimAccounts
  import opened TokenAllocation
  import opened AddressLinking
  import opened KeyAgreement
  import opened VaultTables
  import opened KeyOwnership

  ghost predicate Feasible(t: Tables, cs: seq<Change>)
    decreases |cs|, 0
  {
    cs == [] || (Feasible(t, cs[..|cs| - 1]) && Enabled(Run(t, cs[..|cs| - 1]), Last(cs)))
  }

  ghost function Run(t: Tables, cs: seq<Change>): Tables
    requires Feasible(t, cs)
    decreases |cs|, 1
  {
    if cs == [] then t else Apply(Run(t, cs[..|cs| - 1]), Last(cs))
  }

  lemma {:induction false} EmptyInv()
    ensures Inv(EMPTY)
  {}

  /** In every run rows only move forward through their stages, invitations are never unsent, and no
      ciphertext is sent twice, however often success events are repeated. */
  lemma {:induction false} RunKeepsInv(t: Tables, cs: seq<Change>)
    requires Inv(t) && Feasible(t, cs)
    ensures var u := Run(t, cs);
      Inv(u) && WornOut(t.rows, u.rows) && t.mail <= u.mail && SentOnce(u.mail)
  {
    if cs == [] {
      NoWear(t.rows);
      InvMeansSentOnce(t);
    } else {
      hide Inv, WornOut, SentOnce, Enabled, Apply;
      var before := cs[..|cs| - 1];
      RunKeepsInv(t, before);
      var mid := Run(t, before);
      ChangeKeepsInv(mid, Last(cs));
      InvMeansSentOnce(mid);
      InvMeansSentOnce(Apply(mid, Last(cs)));
      ChangeWears(mid, Last(cs));
      WearComposes(t.rows, mid.rows, Apply(mid, Last(cs)).rows);
    }
  }

  lemma {:induction false} InvMeansSentOnce(t: Tables)
    requires Inv(t)
    ensures SentOnce(t.mail) && AccountsInv(t.rows, t.drawn, t.sent, t.mail)
  {}

  /** So over a whole run each row goes from full to key only to cleared and never back, keeping its
      identity, and a key that is still there is the original one. */
  lemma {:induction false} StagesMoveForward(t: Tables, cs: seq<Change>, i: nat)
    requires Inv(t) && Feasible(t, cs) && i < |t.rows|
    ensures var u := Run(t, cs);
      && i < |u.rows| && Stage(t.rows[i]) <= Stage(u.rows[i]) && Erased(u.rows[i]) == Erased(t.rows[i])
      && (Stage(u.rows[i]) == Stage(t.rows[i]) ==> u.rows[i] == t.rows[i])
      && (u.rows[i].key.Some? ==> u.rows[i].key == t.rows[i].key)
  {
    RunKeepsInv(t, cs);
    hide Inv, Run, Feasible;
    WearIsForward(t.rows, Run(t, cs).rows, i);
  }

  // ---------------------------------------------------------------- vaults do not interfere

  /** Only rows of one vault differ. */
  ghost predicate SameElsewhere(rows: seq<Account>, later: seq<Account>, id: string) {
    |rows| == |later| && forall i :: 0 <= i < |rows| ==>
      later[i].vaultId == rows[i].vaultId && (rows[i].vaultId != id ==> later[i] == rows[i])
  }

  lemma {:induction false} SameRowsOf(rows: seq<Account>, later: seq<Account>, id: string, other: string)
    requires SameElsewhere(rows, later, id) && other != id
    ensures RowsOf(later, other) == RowsOf(rows, other)
  {
    if rows != [] {
      assert SameElsewhere(rows[1..], later[1..], id) by {
        forall i | 0 <= i < |rows[1..]|
          ensures later[1..][i].vaultId == rows[1..][i].vaultId
          ensures rows[1..][i].vaultId != id ==> later[1..][i] == rows[1..][i]
        {
          assert later[i + 1].vaultId == rows[i + 1].vaultId;
        }
      }
      SameRowsOf(rows[1..], later[1..], id, other);
    }
  }

  lemma {:induction false} LinkingStaysInVault(st: Linking, id: string, selfManaged: bool, snapshot: seq<Account>,
        logs: seq<Created>)
    ensures SameElsewhere(st.rows, LinkAll(st, id, selfManaged, snapshot, logs).rows, id)
  {
    if logs != [] { LinkingStaysInVault(st, id, selfManaged, snapshot, logs[..|logs| - 1]); }
  }

  /** What concerns one vault leaves the record and the accounts of every other vault as they were;
      in particular a rejected vault's clean-up does. */
  lemma {:induction false} OthersUntouched(t: Tables, c: Change, other: string)
    requires Enabled(t, c) && c.id != other
    ensures var u := Apply(t, c);
      && Lookup(u.vaults, other) == Lookup(t.vaults, other)
      && RowsOf(u.rows, other) == RowsOf(t.rows, other)
      && Attempts(u.sent, other) == Attempts(t.sent, other)
  {
    match c
    case Add(_, _, _) =>
    case Submit(id, _) =>
      var emails := AllEmails(t.vaults[id].roles);
      FilterConcat(t.rows, NewAccounts(emails, id, t.drawn), (a: Account) => a.vaultId == other);
      RowsOfNew(emails, id, t.drawn, other);
      var s := Submission(id, NewOwners(|emails|, t.drawn), t.drawn, true);
      FilterConcat(t.sent, [s], (s: Submission) => s.vaultId == other);
      assert Attempts([s], other) == [];
    case Break(id, done) =>
      var emails := AllEmails(t.vaults[id].roles)[..done];
      FilterConcat(t.rows, NewAccounts(emails, id, t.drawn), (a: Account) => a.vaultId == other);
      RowsOfNew(emails, id, t.drawn, other);
      var s := Submission(id, NewOwners(done, t.drawn), t.drawn, false);
      FilterConcat(t.sent, [s], (s: Submission) => s.vaultId == other);
      assert Attempts([s], other) == [];
    case Notify(id, status, hash, receipt) =>
      EventStaysInVault(t, id, status, hash, receipt);
      SameRowsOf(t.rows, Notified(t, id, status, hash, receipt).rows, id, other);
    case FinishClaim(id, address) =>
      SameRowsOf(t.rows, EraseByAddress(t.rows, id, address), id, other);
  }

  lemma {:induction false} EventStaysInVault(t: Tables, id: string, status: TransactionStatus, hash: Option<string>,
                                             receipt: Option<Receipt>)
    requires id in t.vaults
    ensures SameElsewhere(t.rows, Notified(t, id, status, hash, receipt).rows, id)
  {
    var vault := t.vaults[id];
    if receipt.Some? {
      LinkingStaysInVault(Linking(vault.roles, t.rows, t.mail), id, vault.selfManaged, RowsOf(t.rows, id),
                          receipt.value.created);
    }
    if status == REJECTED {
      EraseVaultEffect(t.rows, id);
    }
  }

  /** Everything but this vault's own submissions, outcomes and finished claims. */
  predicate Quiet(c: Change, id: string) {
    c.id == id ==> c.Notify? && Rank(c.status) < 2
  }

  /** Until a vault's own outcome its roles, accounts and attempts stay as they are, whatever
      happens to other vaults. */
  lemma {:induction false} QuietRunLeavesVault(t: Tables, cs: seq<Change>, id: string)
    requires Feasible(t, cs) && id in t.vaults
    requires forall c :: c in cs ==> Quiet(c, id)
    ensures var u := Run(t, cs);
      && id in u.vaults && u.vaults[id].roles == t.vaults[id].roles
      && u.vaults[id].selfManaged == t.vaults[id].selfManaged
      && RowsOf(u.rows, id) == RowsOf(t.rows, id)
      && Attempts(u.sent, id) == Attempts(t.sent, id)
  {
    if cs != [] {
      var before := cs[..|cs| - 1];
      assert forall c :: c in before ==> c in cs;
      assert Last(cs) in cs;
      QuietRunLeavesVault(t, before, id);
      var mid := Run(t, before);
      if Last(cs).id != id {
        OthersUntouched(mid, Last(cs), id);
        assert Lookup(Run(t, cs).vaults, id) == Lookup(mid.vaults, id);
      }
    }
  }

  // ---------------------------------------------------------------- invitations, end to end

  /** In every reachable state, for a vault with distinct emails and any attempt that got through. */
  lemma {:induction false} InvitationOpensWallet(cs: seq<Change>, m: Invitation, token: nat, l: nat)
    requires Feasible(EMPTY, cs) && IsInvitationOf(Run(EMPTY, cs), m, token)
    requires var attempts := Attempts(Run(EMPTY, cs).sent, m.vaultId); l < |attempts| && attempts[l].delivered
    ensures OpensWallet(Run(EMPTY, cs), m, token, l)
  {
    hide Inv, WornOut, SentOnce, OpensWallet, IsInvitationOf;
    EmptyInv();
    RunKeepsInv(EMPTY, cs);
    InvitationOpens(Run(EMPTY, cs), m, token, l);
  }

  /** In every reachable state, whatever a user presents: a signature comes out exactly if KYC is completed, the
      row found by the user's email has its key, and that row's own ciphertext is presented. */
  lemma {:induction false} NothingElseSigns(cs: seq<Change>, id: string, email: string, kycCompleted: bool,
                                            encrypted: Option<Ciphertext>, secret: Secret)
    requires Feasible(EMPTY, cs) && (encrypted.Some? ==> encrypted.value.plain == encrypted.value.sealedWith)
    ensures var rows := Run(EMPTY, cs).rows;
      var i := FindByEmail(rows, id, email);
      SignVaultTransaction(rows, id, kycCompleted, email, encrypted) == SignedBy(secret) <==>
      && kycCompleted && i < |rows| && rows[i].key.Some? && rows[i].address == Wallet(secret)
      && encrypted == Some(Sealed(secret, secret))
  {
    hide SignVaultTransaction, WornOut, SentOnce, AllStatusOk, AllHistoryOk;
    EmptyInv();
    RunKeepsInv(EMPTY, cs);
    OnlyOwnCiphertextSigns(Run(EMPTY, cs).rows, Run(EMPTY, cs).drawn, id, email, kycCompleted, encrypted, secret);
  }

  /** And with a single attempt full key agreement. */
  lemma {:induction false} InvitationOpensSubmittedWallet(cs: seq<Change>, m: Invitation, token: nat)
    requires Feasible(EMPTY, cs) && IsInvitationOf(Run(EMPTY, cs), m, token) && SubmittedOnce(Run(EMPTY, cs), m.vaultId)
    ensures OpensSubmittedWallet(Run(EMPTY, cs), m, token)
  {
    hide Inv, WornOut, SentOnce, OpensSubmittedWallet, IsInvitationOf;
    EmptyInv();
    RunKeepsInv(EMPTY, cs);
    OnlyAttemptOpens(Run(EMPTY, cs), m, token);
  }

  // ---------------------------------------------------------------- one attempt

  function DrawnAt(t: Tables, id: string): nat
    requires |Attempts(t.sent, id)| == 1
  {
    Attempts(t.sent, id)[0].drawn
  }

  lemma {:induction false} InvMeansHistory(t: Tables, id: string)
    requires Inv(t) && SubmittedOnce(t, id)
    ensures FirstAttempt(RowsOf(t.rows, id), t.vaults[id].roles, id, DrawnAt(t, id))
  {
    hide AccountsInv, AllStatusOk, SameIdentity;
    var a, emails := Attempts(t.sent, id), AllEmails(t.vaults[id].roles);
    AttemptIsOk(t, id, 0);
    assert HistoryOk(t.rows, t.sent, id, t.vaults[id].roles);
    assert a[..0] == [] && emails[..|emails|] == emails;
    assert Made(a, id, emails) == NewAccounts(emails, id, a[0].drawn);
  }

  ghost predicate EmailsDiffer(found: seq<Account>) {
    forall p, q :: 0 <= p < q < |found| ==> found[p].userEmail != found[q].userEmail
  }

  lemma {:induction false} DistinctInTable(rows: seq<Account>, id: string)
    requires EmailsDiffer(RowsOf(rows, id))
    ensures DistinctEmails(rows, id)
  {
    if rows != [] {
      var found, tail := RowsOf(rows, id), RowsOf(rows[1..], id);
      if rows[0].vaultId == id {
        assert found == [rows[0]] + tail;
        assert EmailsDiffer(tail) by { assert tail == found[1..]; }
        forall row | row in rows[1..] && row.vaultId == id ensures row.userEmail != rows[0].userEmail {
          FilterMember(rows[1..], (a: Account) => a.vaultId == id, row);
          var q :| 0 <= q < |tail| && tail[q] == row;
          assert found[q + 1] == row && found[0] == rows[0];
        }
      } else {
        assert found == tail;
      }
      hide EmailsDiffer, RowsOf;
      DistinctInTable(rows[1..], id);
      DistinctSnoc(rows, id);
    }
  }

  lemma {:induction false} DistinctSnoc(rows: seq<Account>, id: string)
    requires rows != [] && DistinctEmails(rows[1..], id)
    requires rows[0].vaultId == id ==>
      forall row :: row in rows[1..] && row.vaultId == id ==> row.userEmail != rows[0].userEmail
    ensures DistinctEmails(rows, id)
  {
    forall i, j | 0 <= i < j < |rows| && rows[i].vaultId == id && rows[j].vaultId == id
      ensures rows[i].userEmail != rows[j].userEmail
    {
      assert rows[j] == rows[1..][j - 1];
      if i > 0 { assert rows[i] == rows[1..][i - 1]; }
    }
  }

  lemma {:induction false} FirstAttemptEmailsDiffer(found: seq<Account>, roles: seq<Role>, id: string, drawn: nat)
    requires FirstAttempt(found, roles, id, drawn) && Distinct(AllEmails(roles))
    ensures EmailsDiffer(found)
  {
    forall p, q | 0 <= p < q < |found| ensures found[p].userEmail != found[q].userEmail {
      AccountOfToken(found, roles, id, drawn, p);
      AccountOfToken(found, roles, id, drawn, q);
    }
  }

  /** A REJECTED event on a first attempt with distinct emails leaves no key material of the vault behind. */
  lemma {:induction false} RejectionClearsFirstAttempt(cs: seq<Change>, id: string, hash: Option<string>,
                                                       receipt: Option<Receipt>)
    requires Feasible(EMPTY, cs) && SubmittedOnce(Run(EMPTY, cs), id)
    requires Distinct(AllEmails(Run(EMPTY, cs).vaults[id].roles))
    requires Enabled(Run(EMPTY, cs), Notify(id, REJECTED, hash, receipt))
    ensures var t := Run(EMPTY, cs);
      var u := Apply(t, Notify(id, REJECTED, hash, receipt));
      && |u.rows| == |t.rows|
      && forall i :: 0 <= i < |t.rows| ==> u.rows[i] == if t.rows[i].vaultId == id then Erased(t.rows[i]) else t.rows[i]
  {
    hide Inv, WornOut, SentOnce, FirstAttempt, EmailsDiffer, DistinctEmails;
    EmptyInv();
    RunKeepsInv(EMPTY, cs);
    var t := Run(EMPTY, cs);
    InvMeansHistory(t, id);
    FirstAttemptEmailsDiffer(RowsOf(t.rows, id), t.vaults[id].roles, id, DrawnAt(t, id));
    DistinctInTable(t.rows, id);
    RejectionClearsDistinct(t.rows, id);
    EraseVaultEffect(t.rows, id);
  }

  ghost predicate Cleared(rows: seq<Account>, id: string) {
    forall i :: 0 <= i < |rows| && rows[i].vaultId == id ==> Stage(rows[i]) == 2
  }

  ghost predicate Untouched(rows: seq<Account>, id: string) {
    forall i :: 0 <= i < |rows| && rows[i].vaultId == id ==> Stage(rows[i]) != 2
  }

  /** While every row of a first attempt still holds key material, its rejection clears them all if and
      only if the emails are distinct. The guard of createVault ensures that for one email per role. */
  lemma {:induction false} RejectionClearsIffDistinct(t: Tables, id: string)
    requires Inv(t) && SubmittedOnce(t, id) && Untouched(t.rows, id)
    ensures Cleared(EraseVault(t.rows, id), id) <==> Distinct(AllEmails(t.vaults[id].roles))
  {
    var emails := AllEmails(t.vaults[id].roles);
    RejectionClearsVault(t.rows, id);
    InvMeansHistory(t, id);
    if Distinct(emails) {
      FirstAttemptEmailsDiffer(RowsOf(t.rows, id), t.vaults[id].roles, id, DrawnAt(t, id));
      DistinctInTable(t.rows, id);
      forall i | 0 <= i < |t.rows| && t.rows[i].vaultId == id ensures FirstOfItsEmail(t.rows, i) {
        DistinctEmailsAreFirst(t.rows, id, i);
      }
    }
    if Cleared(EraseVault(t.rows, id), id) {
      forall p, q | 0 <= p < q < |emails| ensures emails[p] != emails[q] {
        FirstRowsDiffer(t, id, p, q);
      }
    }
  }

  lemma {:induction false} FirstRowsDiffer(t: Tables, id: string, p: nat, q: nat)
    requires Inv(t) && SubmittedOnce(t, id) && p < q < |AllEmails(t.vaults[id].roles)|
    requires forall i :: 0 <= i < |t.rows| && t.rows[i].vaultId == id ==> FirstOfItsEmail(t.rows, i)
    ensures AllEmails(t.vaults[id].roles)[p] != AllEmails(t.vaults[id].roles)[q]
  {
    InvMeansHistory(t, id);
    hide AllStatusOk, AllHistoryOk, FirstAttempt;
    var found, roles := RowsOf(t.rows, id), t.vaults[id].roles;
    VaultRowsIncrease(t.rows, id);
    FirstAttemptLength(found, roles, id, DrawnAt(t, id));
    AccountOfToken(found, roles, id, DrawnAt(t, id), p);
    AccountOfToken(found, roles, id, DrawnAt(t, id), q);
    FilterMember(t.rows, (x: Account) => x.vaultId == id, found[p]);
    FilterMember(t.rows, (x: Account) => x.vaultId == id, found[q]);
    var i :| 0 <= i < |t.rows| && t.rows[i] == found[p];
    var j :| 0 <= j < |t.rows| && t.rows[j] == found[q];
    assert FirstOfItsEmail(t.rows, i) && FirstOfItsEmail(t.rows, j);
  }

  lemma {:induction false} FirstAttemptLength(found: seq<Account>, roles: seq<Role>, id: string, drawn: nat)
    requires FirstAttempt(found, roles, id, drawn)
    ensures |found| == |AllEmails(roles)|
  {}

  // ---------------------------------------------------------------- from submission to invitations

  /** A first submission, anything that is not this vault's outcome, and its success. */
  ghost predicate FirstSuccess(t: Tables, id: string, taskToken: Option<nat>, between: seq<Change>,
                               hash: Option<string>, receipt: Receipt) {
    && Inv(t) && Enabled(t, Submit(id, taskToken)) && Attempts(t.sent, id) == []
    && hash.Some? && hash.value != ""
    && Feasible(Submitted(t, id, taskToken), between)
    && (forall c :: c in between ==> Quiet(c, id))
    && Enabled(Run(Submitted(t, id, taskToken), between), Notify(id, SUCCESSFUL, hash, Some(receipt)))
  }

  ghost function BeforeSuccess(t: Tables, id: string, taskToken: Option<nat>, between: seq<Change>): Tables
    requires id in t.vaults && Feasible(Submitted(t, id, taskToken), between)
  {
    Run(Submitted(t, id, taskToken), between)
  }

  lemma {:induction false} StateBeforeSuccess(t: Tables, id: string, taskToken: Option<nat>, between: seq<Change>,
                                              hash: Option<string>, receipt: Receipt)
    requires FirstSuccess(t, id, taskToken, between, hash, receipt)
    ensures var u := BeforeSuccess(t, id, taskToken, between);
      && Inv(u) && id in u.vaults && u.vaults[id].roles == t.vaults[id].roles
      && u.vaults[id].selfManaged == t.vaults[id].selfManaged
      && RowsOf(u.rows, id) == NewAccounts(AllEmails(t.vaults[id].roles), id, t.drawn)
      && |Attempts(u.sent, id)| == 1 && DrawnAt(u, id) == t.drawn
  {
    hide Inv, Quiet, NewAccounts, NewOwners;
    var first := Submitted(t, id, taskToken);
    ChangeKeepsInv(t, Submit(id, taskToken));
    RunKeepsInv(first, between);
    QuietRunLeavesVault(first, between, id);
    NoAttemptsNoRows(t, id);
    SubmittedAdds(t, id, taskToken);
  }

  lemma {:induction false} NoAttemptsNoRows(t: Tables, id: string)
    requires Inv(t) && id in t.vaults && Attempts(t.sent, id) == []
    ensures RowsOf(t.rows, id) == []
  {
    hide AccountsInv, AllStatusOk;
    assert HistoryOk(t.rows, t.sent, id, t.vaults[id].roles);
  }

  /** When the receipt names the submitted owners, the success of a first attempt sends one invitation
      per log, to the email whose token that owner was submitted for. They carry the keys of the owners that
      the logs name if and only if these hold the first tokens of their emails. */
  lemma {:induction false} SuccessDeliversTheKeys(t: Tables, id: string, taskToken: Option<nat>, between: seq<Change>,
        hash: Option<string>, receipt: Receipt)
    requires FirstSuccess(t, id, taskToken, between, hash, receipt) && !t.vaults[id].selfManaged
    requires NamesOnlyOwners(receipt.created, |AllEmails(t.vaults[id].roles)|, t.drawn)
    ensures var u := BeforeSuccess(t, id, taskToken, between);
      var logs, roles := receipt.created, t.vaults[id].roles;
      && Apply(u, Notify(id, SUCCESSFUL, hash, Some(receipt))).mail == u.mail + Invitations(roles, id, t.drawn, logs)
      && (Invitations(roles, id, t.drawn, logs) == AllExpected(roles, id, t.drawn, logs) <==>
            NamesFirstTokens(logs, AllEmails(roles), t.drawn))
  {
    hide Inv, Invitations, AllExpected, NamesFirstTokens, Quiet, NewAccounts, KeyLeft, HeldKey, NamesOnlyOwners;
    StateBeforeSuccess(t, id, taskToken, between, hash, receipt);
    var u := BeforeSuccess(t, id, taskToken, between);
    var roles, snapshot := t.vaults[id].roles, RowsOf(u.rows, id);
    assert FirstAttempt(snapshot, roles, id, t.drawn) by { FreshIsFirstAttempt(roles, id, t.drawn); }
    FreshKeysAreLeft(u.rows, roles, id, t.drawn);
    EveryOwnerGetsItsKey(Linking(roles, u.rows, u.mail), id, snapshot, receipt.created, t.drawn);
  }

  /** So a receipt that names every owner once delivers all keys exactly if all emails are distinct. */
  lemma {:induction false} KeysArriveIffDistinct(t: Tables, id: string, taskToken: Option<nat>, between: seq<Change>,
        hash: Option<string>, receipt: Receipt)
    requires FirstSuccess(t, id, taskToken, between, hash, receipt) && !t.vaults[id].selfManaged
    requires NamesOnlyOwners(receipt.created, |AllEmails(t.vaults[id].roles)|, t.drawn)
    requires NamesEachOwnerOnce(receipt.created, |AllEmails(t.vaults[id].roles)|, t.drawn)
    ensures var u, roles := BeforeSuccess(t, id, taskToken, between), t.vaults[id].roles;
      var later := Apply(u, Notify(id, SUCCESSFUL, hash, Some(receipt)));
      later.mail == u.mail + AllExpected(roles, id, t.drawn, receipt.created) <==> Distinct(AllEmails(roles))
  {
    hide FirstSuccess, Invitations, AllExpected, NamesFirstTokens, NamesEachOwnerOnce, Distinct, Apply, Enabled;
    SuccessIsEnabled(t, id, taskToken, between, hash, receipt);
    var roles, logs := t.vaults[id].roles, receipt.created;
    SuccessDeliversTheKeys(t, id, taskToken, between, hash, receipt);
    FirstTokensMeanDistinct(logs, AllEmails(roles), t.drawn);
    SameSuffix(BeforeSuccess(t, id, taskToken, between).mail, Invitations(roles, id, t.drawn, logs),
               AllExpected(roles, id, t.drawn, logs));
  }

  lemma {:induction false} SuccessIsEnabled(t: Tables, id: string, taskToken: Option<nat>, between: seq<Change>,
        hash: Option<string>, receipt: Receipt)
    requires FirstSuccess(t, id, taskToken, between, hash, receipt)
    ensures id in t.vaults && Feasible(Submitted(t, id, taskToken), between)
    ensures Enabled(BeforeSuccess(t, id, taskToken, between), Notify(id, SUCCESSFUL, hash, Some(receipt)))
  {}

  lemma {:induction false} SameSuffix<T>(xs: seq<T>, ys: seq<T>, zs: seq<T>)
    ensures xs + ys == xs + zs <==> ys == zs
  {
    assert ys == (xs + ys)[|xs|..] && zs == (xs + zs)[|xs|..];
  }

  /** And it fills every role with the share-holder address deployed for that role's own first token, if no
      other token has the role's first email. */
  lemma {:induction false} SuccessLinksEveryRole(t: Tables, id: string, taskToken: Option<nat>, between: seq<Change>,
        hash: Option<string>, receipt: Receipt)
    requires FirstSuccess(t, id, taskToken, between, hash, receipt) && FirstEmailsOccurOnce(t.vaults[id].roles)
    requires NamesEachOwnerOnce(receipt.created, |AllEmails(t.vaults[id].roles)|, t.drawn)
    ensures var u := BeforeSuccess(t, id, taskToken, between);
      var vault := Apply(u, Notify(id, SUCCESSFUL, hash, Some(receipt))).vaults[id];
      && vault.transactionStatus == Some(SUCCESSFUL) && vault.transactionHash == hash
      && vault.shareholderManagerAddress == receipt.managerAddress
      && (receipt.distributionAddress.Some? ==> vault.vaultAddress == receipt.distributionAddress)
      && AllLinkedToOwn(t.vaults[id].roles, vault.roles, receipt.created, t.drawn)
  {
    hide Inv, AllLinkedToOwn, FirstEmailsOccurOnce;
    StateBeforeSuccess(t, id, taskToken, between, hash, receipt);
    var u := BeforeSuccess(t, id, taskToken, between);
    var roles := t.vaults[id].roles;
    LinkingIsABijection(Linking(roles, u.rows, u.mail), id, u.vaults[id].selfManaged, RowsOf(u.rows, id),
                        receipt.created, t.drawn);
  }

  /** The roles after the success of a first attempt. */
  ghost function RolesAfter(t: Tables, id: string, taskToken: Option<nat>, between: seq<Change>, hash: Option<string>,
                            receipt: Receipt): seq<Role>
    requires FirstSuccess(t, id, taskToken, between, hash, receipt)
  {
    Apply(BeforeSuccess(t, id, taskToken, between), Notify(id, SUCCESSFUL, hash, Some(receipt))).vaults[id].roles
  }

  /** Exactly then: end to end, every receipt that names each owner once links every role to its own first
      token if and only if no role's first email is also that of another token. */
  lemma {:induction false} SuccessLinksIffFirstEmailsOccurOnce(t: Tables, id: string, taskToken: Option<nat>,
        between: seq<Change>, hash: Option<string>, some: Receipt)
    requires FirstSuccess(t, id, taskToken, between, hash, some)
    ensures var roles := t.vaults[id].roles;
      (forall receipt: Receipt :: NamesEachOwnerOnce(receipt.created, |AllEmails(roles)|, t.drawn) ==>
         FirstSuccess(t, id, taskToken, between, hash, receipt) &&
         AllLinkedToOwn(roles, RolesAfter(t, id, taskToken, between, hash, receipt), receipt.created, t.drawn)) <==>
      FirstEmailsOccurOnce(roles)
  {
    hide Inv, AllLinkedToOwn, FirstEmailsOccurOnce, NamesEachOwnerOnce, Quiet;
    var roles := t.vaults[id].roles;
    StateBeforeSuccess(t, id, taskToken, between, hash, some);
    var u := BeforeSuccess(t, id, taskToken, between);
    var st := Linking(roles, u.rows, u.mail);
    forall receipt: Receipt
      ensures FirstSuccess(t, id, taskToken, between, hash, receipt)
      ensures RolesAfter(t, id, taskToken, between, hash, receipt) ==
        LinkAll(st, id, u.vaults[id].selfManaged, RowsOf(u.rows, id), receipt.created).roles
    {}
    LinksIffFirstEmailsOccurOnce(st, id, u.vaults[id].selfManaged, RowsOf(u.rows, id), t.drawn);
    if !FirstEmailsOccurOnce(roles) {
      var logs := SharedFirstEmailMislinks(st, id, u.vaults[id].selfManaged, RowsOf(u.rows, id), t.drawn);
      assert some.(created := logs).created == logs;
    }
  }

  /** For a vault that passed the guard with one email per role nothing more needs to be assumed. */
  lemma {:induction false} GuardedVaultIsLinked(t: Tables, id: string, taskToken: Option<nat>, between: seq<Change>,
                                                hash: Option<string>, receipt: Receipt)
    requires FirstSuccess(t, id, taskToken, between, hash, receipt)
    requires EmailsAreUnique(t.vaults[id].roles) && forall r :: r in t.vaults[id].roles ==> |r.emails| == 1
    requires NamesEachOwnerOnce(receipt.created, |t.vaults[id].roles|, t.drawn)
    ensures var u := BeforeSuccess(t, id, taskToken, between);
      AllLinkedByIndex(t.vaults[id].roles, Apply(u, Notify(id, SUCCESSFUL, hash, Some(receipt))).vaults[id].roles,
                       receipt.created, t.drawn)
  {
    hide Inv, NamesEachOwnerOnce, Distinct, LinkedToOwn, EmailsAreUnique, AllLinkedByIndex, Quiet, FirstEmailsOccurOnce;
    var before := t.vaults[id].roles;
    GuardProtectsSingleEmails(before);
    DistinctEmailsOccurOnce(before);
    AllEmailsLength(before);
    SingleEmailsCount(before, |before|);
    SuccessLinksEveryRole(t, id, taskToken, between, hash, receipt);
    var u := BeforeSuccess(t, id, taskToken, between);
    OwnTokenIsIndex(before, Apply(u, Notify(id, SUCCESSFUL, hash, Some(receipt))).vaults[id].roles, receipt.created,
                    t.drawn);
  }

  /** Role i has the address deployed for the owner of token i, and is otherwise as before. */
  ghost predicate LinkedByIndex(roles: seq<Role>, later: seq<Role>, logs: seq<Created>, drawn: nat, i: nat)
    requires i < |roles| == |later|
  {
    var e := LogOf(logs, Wallet(drawn + i));
    e < |logs| && later[i] == roles[i].(shareHolderRoleAddress := logs[e].shareHolderVaultAddress)
  }

  ghost predicate AllLinkedByIndex(roles: seq<Role>, later: seq<Role>, logs: seq<Created>, drawn: nat) {
    |roles| == |later| && forall i :: 0 <= i < |roles| ==> LinkedByIndex(roles, later, logs, drawn, i)
  }

  lemma {:induction false} OwnTokenIsIndex(roles: seq<Role>, later: seq<Role>, logs: seq<Created>, drawn: nat)
    requires |roles| == |later| && forall i :: 0 <= i < |roles| ==> LinkedToOwn(roles, later, logs, drawn, i)
    requires forall r :: r in roles ==> |r.emails| == 1
    ensures AllLinkedByIndex(roles, later, logs, drawn)
  {
    forall i | 0 <= i < |roles| ensures LinkedByIndex(roles, later, logs, drawn, i) {
      assert roles[i] in roles && LinkedToOwn(roles, later, logs, drawn, i);
      SingleEmailsCount(roles, i);
    }
  }
}
