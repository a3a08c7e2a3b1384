/** Which wallet a share holder's key belongs to, in a vault that may have been submitted several times
    and whose submissions may have broken down on the way. */
module KeyOwnership {
  import opened Prelude
  import opened ClaimAccounts
  import opened TokenAllocation
  import opened AddressLinking
  import opened KeyAgreement
  import opened VaultTables

  // ---------------------------------------------------------------- the accounts of all attempts

  lemma {:induction false} PrefixOk(attempts: seq<Submission>, emails: seq<string>, n: nat)
    requires AttemptsOk(attempts, emails) && n <= |attempts|
    ensures AttemptsOk(attempts[..n], emails)
  {}

  /** How many accounts the first n attempts made. */
  ghost function MadeBefore(attempts: seq<Submission>, id: string, emails: seq<string>, n: nat): nat
    requires AttemptsOk(attempts, emails) && n <= |attempts|
  {
    PrefixOk(attempts, emails, n);
    |Made(attempts[..n], id, emails)|
  }

  lemma {:induction false} MadeGrows(attempts: seq<Submission>, id: string, emails: seq<string>, n: nat)
    requires AttemptsOk(attempts, emails) && n < |attempts|
    ensures MadeBefore(attempts, id, emails, n + 1) == MadeBefore(attempts, id, emails, n) + |attempts[n].owners|
  {
    PrefixOk(attempts, emails, n);
    PrefixOk(attempts, emails, n + 1);
    assert attempts[..n + 1][..n] == attempts[..n];
    assert AttemptOk(attempts[n], emails);
  }

  lemma {:induction false} MadeIsMonotone(attempts: seq<Submission>, id: string, emails: seq<string>, m: nat, n: nat)
    requires AttemptsOk(attempts, emails) && m <= n <= |attempts|
    ensures MadeBefore(attempts, id, emails, m) <= MadeBefore(attempts, id, emails, n)
  {
    if m < n {
      MadeIsMonotone(attempts, id, emails, m, n - 1);
      MadeGrows(attempts, id, emails, n - 1);
    }
  }

  /** The account of a token of the k-th attempt, and its position. */
  lemma {:induction false} MadeAt(attempts: seq<Submission>, id: string, emails: seq<string>, k: nat, token: nat)
    requires AttemptsOk(attempts, emails) && k < |attempts| && token < |attempts[k].owners|
    ensures AttemptOk(attempts[k], emails)
    ensures MadeBefore(attempts, id, emails, k) + token < |Made(attempts, id, emails)|
    ensures Made(attempts, id, emails)[MadeBefore(attempts, id, emails, k) + token] ==
      NewAccount(emails[token], id, token, attempts[k].drawn + token)
  {
    assert AttemptOk(attempts[k], emails);
    var n := |attempts| - 1;
    PrefixOk(attempts, emails, n);
    if k == n {
      assert attempts[..n] == attempts[..k];
    } else {
      MadeAt(attempts[..n], id, emails, k, token);
      assert attempts[..n][..k] == attempts[..k];
    }
  }

  /** Every account is that of a token of an attempt. */
  lemma {:induction false} MadeFrom(attempts: seq<Submission>, id: string, emails: seq<string>, p: nat)
    returns (k: nat, token: nat)
    requires AttemptsOk(attempts, emails) && p < |Made(attempts, id, emails)|
    ensures k < |attempts| && token < |attempts[k].owners| && p == MadeBefore(attempts, id, emails, k) + token
  {
    var n := |attempts| - 1;
    PrefixOk(attempts, emails, n);
    var before := Made(attempts[..n], id, emails);
    assert AttemptOk(attempts[n], emails);
    if p < |before| {
      k, token := MadeFrom(attempts[..n], id, emails, p);
      assert attempts[..n][..k] == attempts[..k];
    } else {
      k, token := n, p - |before|;
    }
  }

  /** The first attempt that got as far as the token, up to the l-th, which did. */
  function FirstReaching(attempts: seq<Submission>, token: nat, l: nat): (f: nat)
    requires l < |attempts| && token < |attempts[l].owners|
    ensures f <= l && token < |attempts[f].owners|
    ensures forall k :: 0 <= k < f ==> |attempts[k].owners| <= token
  {
    FindIndex(attempts, (s: Submission) => token < |s.owners|)
  }

  /** Of all accounts made for the token's email, the one of that attempt comes first. */
  lemma {:induction false} FirstOfEmail(attempts: seq<Submission>, id: string, emails: seq<string>, token: nat, l: nat,
                                        p: nat)
    requires AttemptsOk(attempts, emails) && Distinct(emails) && l < |attempts| && token < |attempts[l].owners|
    requires token < |emails| && p < |Made(attempts, id, emails)|
    requires Made(attempts, id, emails)[p].userEmail == emails[token]
    ensures MadeBefore(attempts, id, emails, FirstReaching(attempts, token, l)) + token <= p
  {
    var k, other := MadeFrom(attempts, id, emails, p);
    MadeAt(attempts, id, emails, k, other);
    assert emails[other] == emails[token];
    MadeIsMonotone(attempts, id, emails, FirstReaching(attempts, token, l), k);
  }

  // ---------------------------------------------------------------- which row an email leads to

  ghost predicate IncreasingIds(rows: seq<Account>) {
    forall i, j :: 0 <= i < j < |rows| ==> rows[i].id < rows[j].id
  }

  lemma {:induction false} VaultRowsIncrease(rows: seq<Account>, id: string)
    requires IncreasingIds(rows)
    ensures IncreasingIds(RowsOf(rows, id))
  {
    if rows != [] {
      var rest, tail := rows[1..], RowsOf(rows[1..], id);
      forall i, j | 0 <= i < j < |rest| ensures rest[i].id < rest[j].id { assert rows[i + 1].id < rows[j + 1].id; }
      VaultRowsIncrease(rest, id);
      forall a | a in tail ensures rows[0].id < a.id {
        FilterMember(rest, (x: Account) => x.vaultId == id, a);
        var j :| 0 <= j < |rest| && rest[j] == a;
        assert rows[j + 1] == a;
      }
      var found := RowsOf(rows, id);
      assert found == if rows[0].vaultId == id then [rows[0]] + tail else tail;
    }
  }

  lemma {:induction false} SameAt(made: seq<Account>, found: seq<Account>, p: nat)
    requires SameIdentity(made, found) && (p < |made| || p < |found|)
    ensures p < |made| == |found| && Erased(made[p]) == Erased(found[p])
  {}

  /** Among the rows of the vault, the first one with the token's email. */
  lemma {:induction false} FirstInVault(found: seq<Account>, attempts: seq<Submission>, id: string, emails: seq<string>,
                                        token: nat, l: nat)
    requires AttemptsOk(attempts, emails) && SameIdentity(Made(attempts, id, emails), found)
    requires Distinct(emails) && token < |emails| && l < |attempts| && token < |attempts[l].owners|
    requires forall a :: a in found ==> a.vaultId == id
    ensures var q := FindByEmail(found, id, emails[token]);
      && q < |found|
      && Erased(found[q]) ==
           Erased(NewAccount(emails[token], id, token, attempts[FirstReaching(attempts, token, l)].drawn + token))
  {
    hide SameIdentity, AttemptsOk, Distinct;
    var made, f := Made(attempts, id, emails), FirstReaching(attempts, token, l);
    MadeAt(attempts, id, emails, f, token);
    var p := MadeBefore(attempts, id, emails, f) + token;
    SameAt(made, found, p);
    assert found[p] in found;
    var q := FindByEmail(found, id, emails[token]);
    assert q <= p;
    SameAt(made, found, q);
    FirstOfEmail(attempts, id, emails, token, l, q);
  }

  /** Look-ups by a token's email find the account of the first attempt that got as far as the token. */
  lemma {:induction false} FoundRow(t: Tables, id: string, token: nat, l: nat)
    requires Inv(t) && id in t.vaults && Distinct(AllEmails(t.vaults[id].roles))
    requires token < |AllEmails(t.vaults[id].roles)|
    requires l < |Attempts(t.sent, id)| && token < |Attempts(t.sent, id)[l].owners|
    ensures var email := AllEmails(t.vaults[id].roles)[token];
      var attempts := Attempts(t.sent, id);
      var i := FindByEmail(t.rows, id, email);
      && i < |t.rows|
      && Erased(t.rows[i]) == Erased(NewAccount(email, id, token,
                                                attempts[FirstReaching(attempts, token, l)].drawn + token))
  {
    var emails, attempts := AllEmails(t.vaults[id].roles), Attempts(t.sent, id);
    assert HistoryOk(t.rows, t.sent, id, t.vaults[id].roles);
    hide Inv, SameIdentity, AttemptsOk, Distinct, FindByEmail;
    forall a | a in RowsOf(t.rows, id) ensures a.vaultId == id { InVault(t.rows, id, a); }
    FirstInVault(RowsOf(t.rows, id), attempts, id, emails, token, l);
    FindInVault(t.rows, id, emails[token]);
  }

  lemma {:induction false} InVault(rows: seq<Account>, id: string, a: Account)
    requires a in RowsOf(rows, id)
    ensures a.vaultId == id
  {
    FilterMember(rows, (x: Account) => x.vaultId == id, a);
  }

  /** Different attempts drew different randomness for a token. */
  lemma {:induction false} DifferentDraws(t: Tables, id: string, token: nat, f: nat, l: nat)
    requires Inv(t) && id in t.vaults && f < l < |Attempts(t.sent, id)|
    requires token < |Attempts(t.sent, id)[f].owners| && token < |Attempts(t.sent, id)[l].owners|
    ensures Attempts(t.sent, id)[f].drawn != Attempts(t.sent, id)[l].drawn
  {
    hide AllStatusOk;
    var emails, attempts := AllEmails(t.vaults[id].roles), Attempts(t.sent, id);
    assert HistoryOk(t.rows, t.sent, id, t.vaults[id].roles);
    var made, found := Made(attempts, id, emails), RowsOf(t.rows, id);
    VaultRowsIncrease(t.rows, id);
    MadeAt(attempts, id, emails, f, token);
    MadeAt(attempts, id, emails, l, token);
    MadeGrows(attempts, id, emails, f);
    MadeIsMonotone(attempts, id, emails, f + 1, l);
    var p, q := MadeBefore(attempts, id, emails, f) + token, MadeBefore(attempts, id, emails, l) + token;
    assert Erased(made[p]) == Erased(found[p]) && Erased(made[q]) == Erased(found[q]);
  }

  /** No attempt before the l-th allocated more than `token` accounts. */
  ghost predicate FirstToReach(attempts: seq<Submission>, token: nat, l: nat)
    requires l <= |attempts|
  {
    forall k :: 0 <= k < l ==> |attempts[k].owners| <= token
  }

  /** The exact condition for key agreement, whatever attempts a vault with distinct emails has had: the
      row that a token's email leads to holds the wallet that an attempt submitted for the token if and
      only if no earlier attempt got as far as that token. */
  lemma {:induction false} FoundRowIsSubmitted(t: Tables, id: string, token: nat, l: nat)
    requires Inv(t) && id in t.vaults && Distinct(AllEmails(t.vaults[id].roles))
    requires token < |AllEmails(t.vaults[id].roles)|
    requires l < |Attempts(t.sent, id)| && Attempts(t.sent, id)[l].delivered
    ensures var attempts := Attempts(t.sent, id);
      var i := FindByEmail(t.rows, id, AllEmails(t.vaults[id].roles)[token]);
      && i < |t.rows| && t.rows[i].tokenId == token && token < |attempts[l].owners|
      && (t.rows[i].address == attempts[l].owners[token].owner <==> FirstToReach(attempts, token, l))
  {
    hide AccountsInv, AllStatusOk, SameIdentity;
    var attempts := Attempts(t.sent, id);
    assert HistoryOk(t.rows, t.sent, id, t.vaults[id].roles);
    assert AttemptOk(attempts[l], AllEmails(t.vaults[id].roles));
    FoundRow(t, id, token, l);
    var f := FirstReaching(attempts, token, l);
    if f < l { DifferentDraws(t, id, token, f, l); }
  }

  // ---------------------------------------------------------------- invitations

  /** The invitation went to the email of this token, in a vault with distinct emails. */
  ghost predicate IsInvitationOf(t: Tables, m: Invitation, token: nat) {
    && m in t.mail && m.encrypted.Some? && m.vaultId in t.vaults && Distinct(AllEmails(t.vaults[m.vaultId].roles))
    && token < |AllEmails(t.vaults[m.vaultId].roles)| && AllEmails(t.vaults[m.vaultId].roles)[token] == m.email
  }

  /** Presented by the email it was sent to, the ciphertext signs with the wallet of this row exactly if KYC
      is completed and the row's key is still there; otherwise the answer is null. */
  ghost predicate SignsWith(t: Tables, m: Invitation, i: nat)
    requires i < |t.rows| && t.rows[i].address.Wallet?
  {
    forall kycCompleted :: SignVaultTransaction(t.rows, m.vaultId, kycCompleted, m.email, m.encrypted) ==
      if kycCompleted && t.rows[i].key.Some? then SignedBy(t.rows[i].address.secret) else Refused
  }

  /** The ciphertext signs with the wallet of the row found; and that wallet is the one that the l-th attempt
      submitted for the token exactly if no earlier attempt got as far. */
  ghost predicate OpensWallet(t: Tables, m: Invitation, token: nat, l: nat)
    requires l < |Attempts(t.sent, m.vaultId)|
  {
    var attempts := Attempts(t.sent, m.vaultId);
    var i := FindByEmail(t.rows, m.vaultId, m.email);
    && i < |t.rows| && t.rows[i].tokenId == token && t.rows[i].address.Wallet? && token < |attempts[l].owners|
    && SignsWith(t, m, i)
    && (t.rows[i].address == attempts[l].owners[token].owner <==> FirstToReach(attempts, token, l))
  }

  lemma {:induction false} InvitationOpens(t: Tables, m: Invitation, token: nat, l: nat)
    requires Inv(t) && IsInvitationOf(t, m, token)
    requires l < |Attempts(t.sent, m.vaultId)| && Attempts(t.sent, m.vaultId)[l].delivered
    ensures OpensWallet(t, m, token, l)
  {
    FoundRowIsSubmitted(t, m.vaultId, token, l);
    hide AllStatusOk, AllHistoryOk;
    var i := FindByEmail(t.rows, m.vaultId, m.email);
    forall kycCompleted
      ensures SignVaultTransaction(t.rows, m.vaultId, kycCompleted, m.email, m.encrypted) ==
        if kycCompleted && t.rows[i].key.Some? then SignedBy(t.rows[i].address.secret) else Refused
    {
      CiphertextOpensOwnKey(t.rows, t.drawn, t.sent, t.mail, m, kycCompleted);
    }
    assert RowOk(t.rows[i], t.drawn);
  }

  /** The vault was submitted once, and that got through. */
  predicate SubmittedOnce(t: Tables, id: string) {
    id in t.vaults && |Attempts(t.sent, id)| == 1 && Attempts(t.sent, id)[0].delivered
  }

  /** Full key agreement. */
  ghost predicate OpensSubmittedWallet(t: Tables, m: Invitation, token: nat)
    requires |Attempts(t.sent, m.vaultId)| == 1
  {
    var owners := Attempts(t.sent, m.vaultId)[0].owners;
    var i := FindByEmail(t.rows, m.vaultId, m.email);
    && i < |t.rows| && t.rows[i].address.Wallet? && token < |owners|
    && owners[token] == ShareOwner(token, t.rows[i].address)
    && SignsWith(t, m, i)
  }

  /** In particular: the only attempt is the first to reach every token. */
  lemma {:induction false} OnlyAttemptOpens(t: Tables, m: Invitation, token: nat)
    requires Inv(t) && IsInvitationOf(t, m, token) && SubmittedOnce(t, m.vaultId)
    ensures OpensSubmittedWallet(t, m, token)
  {
    hide Inv, SignVaultTransaction, Distinct, FindByEmail, Attempts;
    InvitationOpens(t, m, token, 0);
    AttemptIsOk(t, m.vaultId, 0);
  }

  lemma {:induction false} AttemptIsOk(t: Tables, id: string, l: nat)
    requires Inv(t) && id in t.vaults && l < |Attempts(t.sent, id)|
    ensures AttemptOk(Attempts(t.sent, id)[l], AllEmails(t.vaults[id].roles))
  {
    hide AccountsInv, AllStatusOk, SameIdentity;
    assert HistoryOk(t.rows, t.sent, id, t.vaults[id].roles);
  }

  /** And a repeated submission: after one that broke down with `done` accounts, look-ups reach the
      submitted wallets exactly for the tokens that the broken one had not got to. */
  lemma {:induction false} BrokenSubmissionMisleads(t: Tables, id: string, done: nat, taskToken: Option<nat>,
                                                    token: nat)
    requires Inv(t) && Enabled(t, Break(id, done)) && Attempts(t.sent, id) == []
    requires Distinct(AllEmails(t.vaults[id].roles)) && token < |AllEmails(t.vaults[id].roles)|
    ensures var broken := Broken(t, id, done);
      && Enabled(broken, Submit(id, taskToken))
      && var u := Submitted(broken, id, taskToken);
         var i := FindByEmail(u.rows, id, AllEmails(t.vaults[id].roles)[token]);
         && i < |u.rows| && Last(u.sent).delivered && token < |Last(u.sent).owners|
         && (u.rows[i].address == Last(u.sent).owners[token].owner <==> done <= token)
  {
    hide Inv, Distinct, FirstToReach, Attempts;
    var broken := Broken(t, id, done);
    var u := Submitted(broken, id, taskToken);
    ChangeKeepsInv(t, Break(id, done));
    ChangeKeepsInv(broken, Submit(id, taskToken));
    AttemptsAfterRepeat(t, id, done, taskToken);
    FoundRowIsSubmitted(u, id, token, 1);
    OneBefore(Attempts(u.sent, id), token);
  }

  lemma {:induction false} OneBefore(attempts: seq<Submission>, token: nat)
    requires |attempts| == 2
    ensures FirstToReach(attempts, token, 1) <==> |attempts[0].owners| <= token
  {}

  lemma {:induction false} AttemptsAfterRepeat(t: Tables, id: string, done: nat, taskToken: Option<nat>)
    requires Enabled(t, Break(id, done)) && Attempts(t.sent, id) == []
    ensures var broken := Broken(t, id, done);
      var u := Submitted(broken, id, taskToken);
      Attempts(u.sent, id) == [Last(broken.sent), Last(u.sent)]
  {
    hide AllEmails, NewAccounts, NewOwners;
    var broken := Broken(t, id, done);
    var u := Submitted(broken, id, taskToken);
    var first, second := Last(broken.sent), Last(u.sent);
    FilterConcat(t.sent, [first], (s: Submission) => s.vaultId == id);
    FilterConcat(broken.sent, [second], (s: Submission) => s.vaultId == id);
    assert Attempts([first], id) == [first] && Attempts([second], id) == [second];
  }
}
