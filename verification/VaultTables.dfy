/** The tables that vault creation works on, and every request or event that changes them: submissions
    (creator-handler.service.ts), chain events (evm-transaction-events-handler.service.ts) and
    finished claims of self-managed vaults (vault.service.ts). Theorems hold in every run of these. */
module VaultTables {
  import opened Prelude
  import opened ClaimAccounts
  import opened TokenAllocation
  import opened AddressLinking
  import opened KeyAgreement

  /** The last submission of a vault: the status of its last event, and the task token it carries. */
  datatype Flight = Flight(last: Option<TransactionStatus>, taskToken: Option<nat>)

  datatype Tables = Tables(
    vaults: map<string, Vault>, flights: map<string, Flight>,
    rows: seq<Account>, drawn: nat, mail: seq<Invitation>, sent: seq<Submission>)

  datatype Change =
    | Add(id: string, roles: seq<Role>, selfManaged: bool)
    | Submit(id: string, taskToken: Option<nat>)
    | Break(id: string, done: nat)  // a submission that throws after so many accounts
    | Notify(id: string, status: TransactionStatus, hash: Option<string>, receipt: Option<Receipt>)
    | FinishClaim(id: string, address: Address)

  function Lookup(vaults: map<string, Vault>, id: string): Option<Vault> {
    if id in vaults then Some(vaults[id]) else None
  }

  function Rank(s: TransactionStatus): nat {
    match s case CREATED => 0 case SUBMITTED => 1 case _ => 2
  }

  /** Events of one submission come in life-cycle order, possibly with gaps and repetitions, and
      nothing but repetitions follows a terminal one. */
  predicate InOrder(last: Option<TransactionStatus>, next: TransactionStatus) {
    last.Some? ==> Rank(last.value) < Rank(next) || last.value == next
  }

  predicate InFlight(flights: map<string, Flight>, id: string) {
    id in flights && flights[id].last.None?
  }

  /** What can happen. A submission that the guard refuses changes nothing and is left out; one between
      sending and the first status event is excluded, since the guard does not see it. */
  predicate Enabled(t: Tables, c: Change) {
    match c
    case Add(id, _, _) => id !in t.vaults
    case Submit(id, _) => SubmissionGuard(Lookup(t.vaults, id)).None? && !InFlight(t.flights, id)
    case Break(id, done) =>
      && SubmissionGuard(Lookup(t.vaults, id)).None? && !InFlight(t.flights, id)
      && done <= |AllEmails(t.vaults[id].roles)|
    case Notify(id, status, _, _) => id in t.vaults && id in t.flights && InOrder(t.flights[id].last, status)
    case FinishClaim(id, _) => id in t.vaults
  }

  function Submitted(t: Tables, id: string, taskToken: Option<nat>): Tables
    requires id in t.vaults
  {
    var emails := AllEmails(t.vaults[id].roles);
    t.(rows := t.rows + NewAccounts(emails, id, t.drawn), drawn := t.drawn + |emails|,
       sent := t.sent + [Submission(id, NewOwners(|emails|, t.drawn), t.drawn, true)],
       flights := t.flights[id := Flight(None, taskToken)])
  }

  /** Nothing undoes the accounts that a submission created before it broke down. */
  function Broken(t: Tables, id: string, done: nat): Tables
    requires id in t.vaults && done <= |AllEmails(t.vaults[id].roles)|
  {
    var emails := AllEmails(t.vaults[id].roles)[..done];
    t.(rows := t.rows + NewAccounts(emails, id, t.drawn), drawn := t.drawn + done,
       sent := t.sent + [Submission(id, NewOwners(done, t.drawn), t.drawn, false)])
  }

  /** handleEvmTransactionEvent, apart from settling the task token */
  function Notified(t: Tables, id: string, status: TransactionStatus, hash: Option<string>,
                    receipt: Option<Receipt>): Tables
    requires id in t.vaults
  {
    var e := ApplyEvent(t.vaults[id], t.rows, t.mail, id, hash, status, receipt);
    t.(vaults := t.vaults[id := e.vault], mail := e.mail,
       rows := if status == REJECTED then EraseVault(e.rows, id) else e.rows,
       flights := if id in t.flights then t.flights[id := t.flights[id].(last := Some(status))] else t.flights)
  }

  function Apply(t: Tables, c: Change): Tables
    requires Enabled(t, c)
  {
    match c
    case Add(id, roles, selfManaged) =>
      t.(vaults := t.vaults[id := Vault(roles, None, None, None, None, selfManaged)])
    case Submit(id, taskToken) => Submitted(t, id, taskToken)
    case Break(id, done) => Broken(t, id, done)
    case Notify(id, status, hash, receipt) => Notified(t, id, status, hash, receipt)
    case FinishClaim(id, address) => t.(rows := EraseByAddress(t.rows, id, address))
  }

  // ---------------------------------------------------------------- the invariant

  /** The stored status is that of the last event; while none came it allows a submission. */
  ghost predicate StatusOk(vaults: map<string, Vault>, flights: map<string, Flight>, id: string) {
    if id !in vaults then id !in flights
    else if id !in flights then vaults[id].transactionStatus.None?
    else if flights[id].last.Some? then vaults[id].transactionStatus == flights[id].last
    else vaults[id].transactionStatus.None? || vaults[id].transactionStatus == Some(REJECTED)
  }

  ghost predicate AllStatusOk(vaults: map<string, Vault>, flights: map<string, Flight>) {
    forall id :: StatusOk(vaults, flights, id)
  }

  function Attempts(sent: seq<Submission>, id: string): seq<Submission> {
    Filter(sent, (s: Submission) => s.vaultId == id)
  }

  /** An attempt allocated owners for the first emails, and for all of them if it got through. */
  ghost predicate AttemptOk(a: Submission, emails: seq<string>) {
    && |a.owners| <= |emails| && a.owners == NewOwners(|a.owners|, a.drawn)
    && (a.delivered ==> |a.owners| == |emails|)
  }

  ghost predicate AttemptsOk(attempts: seq<Submission>, emails: seq<string>) {
    forall k :: 0 <= k < |attempts| ==> AttemptOk(attempts[k], emails)
  }

  /** The accounts that a vault's attempts made, in order. */
  ghost function Made(attempts: seq<Submission>, id: string, emails: seq<string>): seq<Account>
    requires AttemptsOk(attempts, emails)
  {
    if attempts == [] then []
    else
      assert AttemptOk(Last(attempts), emails);
      Made(attempts[..|attempts| - 1], id, emails) +
      NewAccounts(emails[..|Last(attempts).owners|], id, Last(attempts).drawn)
  }

  /** Apart from what was handed out or erased, the accounts of a vault are those that its attempts made. */
  ghost predicate HistoryOk(rows: seq<Account>, sent: seq<Submission>, id: string, roles: seq<Role>) {
    && AttemptsOk(Attempts(sent, id), AllEmails(roles))
    && SameIdentity(Made(Attempts(sent, id), id, AllEmails(roles)), RowsOf(rows, id))
  }

  ghost predicate AllHistoryOk(vaults: map<string, Vault>, rows: seq<Account>, sent: seq<Submission>) {
    && (forall id :: id in vaults ==> HistoryOk(rows, sent, id, vaults[id].roles))
    && (forall k :: 0 <= k < |sent| ==> sent[k].vaultId in vaults)
  }

  ghost predicate Inv(t: Tables) {
    && AccountsInv(t.rows, t.drawn, t.sent, t.mail)
    && AllStatusOk(t.vaults, t.flights)
    && AllHistoryOk(t.vaults, t.rows, t.sent)
  }

  const EMPTY := Tables(map[], map[], [], 0, [], [])

  // ---------------------------------------------------------------- accounts

  lemma {:induction false} FindByAddressWears(rows: seq<Account>, id: string, address: Address)
    ensures WornOut(rows, EraseByAddress(rows, id, address))
  {}

  lemma {:induction false} ChangeWears(t: Tables, c: Change)
    requires AccountsInv(t.rows, t.drawn, t.sent, t.mail) && Enabled(t, c)
    ensures var u := Apply(t, c);
      && WornOut(t.rows, u.rows) && t.mail <= u.mail
      && AccountsInv(u.rows, u.drawn, u.sent, u.mail)
  {
    hide AccountsInv, WornOut;
    var u := Apply(t, c);
    match c
    case Add(_, _, _) => NoWear(t.rows);
    case Submit(id, _) => SubmissionKeepsInv(t.rows, t.drawn, t.sent, t.mail, AllEmails(t.vaults[id].roles), id, true);
    case Break(id, done) =>
      SubmissionKeepsInv(t.rows, t.drawn, t.sent, t.mail, AllEmails(t.vaults[id].roles)[..done], id, false);
    case Notify(id, status, hash, receipt) => EventWears(t, id, status, hash, receipt);
    case FinishClaim(id, address) =>
      FindByAddressWears(t.rows, id, address);
      WearKeepsInv(t.rows, u.rows, t.drawn, t.sent, t.mail);
  }

  lemma {:induction false} EventWears(t: Tables, id: string, status: TransactionStatus, hash: Option<string>,
                                      receipt: Option<Receipt>)
    requires AccountsInv(t.rows, t.drawn, t.sent, t.mail) && id in t.vaults
    ensures var u := Notified(t, id, status, hash, receipt);
      && |u.rows| == |t.rows| && WornOut(t.rows, u.rows) && t.mail <= u.mail
      && AccountsInv(u.rows, u.drawn, u.sent, u.mail)
  {
    hide AccountsInv, WornOut;
    var vault := t.vaults[id];
    var e := ApplyEvent(vault, t.rows, t.mail, id, hash, status, receipt);
    NoWear(t.rows);
    if receipt.Some? {
      LinkingKeepsInv(Linking(vault.roles, t.rows, t.mail), id, vault.selfManaged, RowsOf(t.rows, id),
                      receipt.value.created,
                      t.drawn, t.sent);
    }
    if status == REJECTED {
      EraseEachWears(e.rows, id, RowsOf(e.rows, id));
      WearKeepsInv(e.rows, EraseVault(e.rows, id), t.drawn, t.sent, e.mail);
      WearComposes(t.rows, e.rows, EraseVault(e.rows, id));
    }
  }

  // ---------------------------------------------------------------- statuses

  /** The guard lets through vaults without a status and rejected ones, and says why it refuses the others. */
  lemma {:induction false} GuardPasses(vault: Vault)
    ensures SubmissionGuard(Some(vault)).None? <==>
      vault.transactionStatus.None? || vault.transactionStatus == Some(REJECTED)
    ensures SubmissionGuard(Some(vault)) == Some(VaultAlreadyCreated) <==> vault.transactionStatus == Some(SUCCESSFUL)
    ensures SubmissionGuard(Some(vault)) == Some(TransactionSubmitted) <==> vault.transactionStatus == Some(SUBMITTED)
    ensures SubmissionGuard(Some(vault)) == Some(TransactionCreated) <==> vault.transactionStatus == Some(CREATED)
    ensures SubmissionGuard(None) == Some(VaultNotFound)
  {
    if vault.transactionStatus.Some? {
      match vault.transactionStatus.value case CREATED => case SUBMITTED => case SUCCESSFUL => case REJECTED =>
    }
  }

  lemma {:induction false} ChangeKeepsStatus(t: Tables, c: Change)
    requires AllStatusOk(t.vaults, t.flights) && Enabled(t, c)
    ensures AllStatusOk(Apply(t, c).vaults, Apply(t, c).flights)
  {
    var u := Apply(t, c);
    if c.Submit? || c.Break? { GuardPasses(t.vaults[c.id]); }
    forall id ensures StatusOk(u.vaults, u.flights, id) {
      assert StatusOk(t.vaults, t.flights, id);
      assert StatusOk(t.vaults, t.flights, c.id);
      assert id != c.id ==> (id in u.vaults <==> id in t.vaults) && (id in u.flights <==> id in t.flights);
    }
  }

  /** SUCCESSFUL is final, whatever happens. */
  lemma {:induction false} SuccessfulIsFinal(t: Tables, c: Change, id: string)
    requires AllStatusOk(t.vaults, t.flights) && Enabled(t, c)
    requires id in t.vaults && t.vaults[id].transactionStatus == Some(SUCCESSFUL)
    ensures var u := Apply(t, c);
      id in u.vaults && u.vaults[id].transactionStatus == Some(SUCCESSFUL)
  {
    assert StatusOk(t.vaults, t.flights, id);
  }

  // ---------------------------------------------------------------- histories

  lemma {:induction false} SameIdentityFilters(rows: seq<Account>, later: seq<Account>, id: string)
    requires SameIdentity(rows, later)
    ensures SameIdentity(RowsOf(rows, id), RowsOf(later, id))
  {
    if rows != [] {
      assert SameIdentity(rows[1..], later[1..]) by {
        forall i | 0 <= i < |rows[1..]| ensures Erased(rows[1..][i]) == Erased(later[1..][i]) {
          assert Erased(rows[i + 1]) == Erased(later[i + 1]);
        }
      }
      SameIdentityFilters(rows[1..], later[1..], id);
      assert Erased(rows[0]) == Erased(later[0]);
    }
  }

  lemma {:induction false} WornIsSame(rows: seq<Account>, later: seq<Account>)
    requires WornOut(rows, later) && |rows| == |later|
    ensures SameIdentity(rows, later)
  {}

  lemma {:induction false} SameIdentityComposes(rows: seq<Account>, mid: seq<Account>, later: seq<Account>)
    requires SameIdentity(rows, mid) && SameIdentity(mid, later)
    ensures SameIdentity(rows, later)
  {
    forall i | 0 <= i < |rows| ensures Erased(rows[i]) == Erased(later[i]) {
      assert Erased(rows[i]) == Erased(mid[i]);
    }
  }

  lemma {:induction false} SameEmails(roles: seq<Role>, later: seq<Role>)
    requires SameButAddress(roles, later)
    ensures AllEmails(roles) == AllEmails(later)
  {
    if roles != [] {
      SameEmails(roles[..|roles| - 1], later[..|roles| - 1]);
      assert Last(later).emails == Last(roles).emails;
    }
  }

  lemma {:induction false} WearKeepsHistory(rows: seq<Account>, later: seq<Account>, sent: seq<Submission>, id: string,
                                            roles: seq<Role>, roles': seq<Role>)
    requires HistoryOk(rows, sent, id, roles) && WornOut(rows, later) && |rows| == |later|
    requires SameButAddress(roles, roles')
    ensures HistoryOk(later, sent, id, roles')
  {
    WornIsSame(rows, later);
    SameIdentityFilters(rows, later, id);
    SameEmails(roles, roles');
    SameIdentityComposes(Made(Attempts(sent, id), id, AllEmails(roles)), RowsOf(rows, id), RowsOf(later, id));
  }

  lemma {:induction false} RowsOfNew(emails: seq<string>, vaultId: string, drawn: nat, id: string)
    ensures RowsOf(NewAccounts(emails, vaultId, drawn), id) ==
      if id == vaultId then NewAccounts(emails, vaultId, drawn) else []
  {
    RowsOfOne(NewAccounts(emails, vaultId, drawn), vaultId, id);
  }

  lemma {:induction false} RowsOfOne(rows: seq<Account>, vaultId: string, id: string)
    requires forall i :: 0 <= i < |rows| ==> rows[i].vaultId == vaultId
    ensures RowsOf(rows, id) == if id == vaultId then rows else []
  {
    if rows != [] {
      RowsOfOne(rows[1..], vaultId, id);
      assert rows == [rows[0]] + rows[1..];
    }
  }

  lemma {:induction false} SubmittedAdds(t: Tables, id: string, taskToken: Option<nat>)
    requires id in t.vaults
    ensures var u, emails := Submitted(t, id, taskToken), AllEmails(t.vaults[id].roles);
      && RowsOf(u.rows, id) == RowsOf(t.rows, id) + NewAccounts(emails, id, t.drawn)
      && Attempts(u.sent, id) == Attempts(t.sent, id) + [Submission(id, NewOwners(|emails|, t.drawn), t.drawn, true)]
  {
    var emails := AllEmails(t.vaults[id].roles);
    var s := Submission(id, NewOwners(|emails|, t.drawn), t.drawn, true);
    FilterConcat(t.rows, NewAccounts(emails, id, t.drawn), (a: Account) => a.vaultId == id);
    RowsOfNew(emails, id, t.drawn, id);
    FilterConcat(t.sent, [s], (s: Submission) => s.vaultId == id);
    assert Attempts([s], id) == [s];
  }

  /** The guard does not see a submission that has no event yet: it lets a second one through, and every
      email then has two accounts, of which look-ups by email only reach the first. */
  lemma {:induction false} GuardIsBlindInFlight(t: Tables, id: string, taskToken: Option<nat>, other: Option<nat>)
    requires Enabled(t, Submit(id, taskToken))
    ensures var once := Submitted(t, id, taskToken);
      var emails := AllEmails(t.vaults[id].roles);
      && SubmissionGuard(Lookup(once.vaults, id)).None?
      && RowsOf(Submitted(once, id, other).rows, id) ==
           RowsOf(t.rows, id) + NewAccounts(emails, id, t.drawn) + NewAccounts(emails, id, t.drawn + |emails|)
      && |Attempts(Submitted(once, id, other).sent, id)| == |Attempts(t.sent, id)| + 2
  {
    SubmittedAdds(t, id, taskToken);
    SubmittedAdds(Submitted(t, id, taskToken), id, other);
  }

  lemma {:induction false} SameIdentityConcat(a: seq<Account>, b: seq<Account>, c: seq<Account>)
    requires SameIdentity(a, b)
    ensures SameIdentity(a + c, b + c)
  {
    forall i | 0 <= i < |a + c| ensures Erased((a + c)[i]) == Erased((b + c)[i]) {
      if i < |a| { assert Erased(a[i]) == Erased(b[i]); }
    }
  }

  lemma {:induction false} OneMoreAttempt(attempts: seq<Submission>, s: Submission, id: string, emails: seq<string>)
    requires AttemptsOk(attempts, emails) && AttemptOk(s, emails)
    ensures AttemptsOk(attempts + [s], emails)
    ensures Made(attempts + [s], id, emails) ==
      Made(attempts, id, emails) + NewAccounts(emails[..|s.owners|], id, s.drawn)
  {
    assert (attempts + [s])[..|attempts + [s]| - 1] == attempts;
  }

  /** Another attempt of any vault, that got as far as the first `n` emails. */
  lemma {:induction false} SubmissionKeepsHistory(rows: seq<Account>, sent: seq<Submission>, id: string,
                                                  roles: seq<Role>, vaultId: string, emails: seq<string>, n: nat,
                                                  drawn: nat, delivered: bool)
    requires HistoryOk(rows, sent, id, roles) && (id == vaultId ==> emails == AllEmails(roles))
    requires n <= |emails| && (delivered ==> n == |emails|)
    ensures HistoryOk(rows + NewAccounts(emails[..n], vaultId, drawn),
                      sent + [Submission(vaultId, NewOwners(n, drawn), drawn, delivered)], id, roles)
  {
    var added, s := NewAccounts(emails[..n], vaultId, drawn),
                    Submission(vaultId, NewOwners(n, drawn), drawn, delivered);
    FilterConcat(rows, added, (a: Account) => a.vaultId == id);
    FilterConcat(sent, [s], (s: Submission) => s.vaultId == id);
    RowsOfNew(emails[..n], vaultId, drawn, id);
    assert RowsOf(rows + added, id) == RowsOf(rows, id) + if id == vaultId then added else [];
    assert Attempts([s], id) == if id == vaultId then [s] else [];
    assert Attempts(sent + [s], id) == Attempts(sent, id) + if id == vaultId then [s] else [];
    if id == vaultId {
      OneMoreAttempt(Attempts(sent, id), s, id, emails);
      SameIdentityConcat(Made(Attempts(sent, id), id, emails), RowsOf(rows, id), added);
    } else {
      assert Attempts(sent + [s], id) == Attempts(sent, id) && RowsOf(rows + added, id) == RowsOf(rows, id);
    }
  }

  lemma {:induction false} ChangeKeepsHistory(t: Tables, c: Change)
    requires Inv(t) && Enabled(t, c)
    ensures AllHistoryOk(Apply(t, c).vaults, Apply(t, c).rows, Apply(t, c).sent)
  {
    hide HistoryOk, SameButAddress, WornOut;
    var u := Apply(t, c);
    ChangeWears(t, c);
    forall k | 0 <= k < |u.sent| ensures u.sent[k].vaultId in u.vaults {
      assert k < |t.sent| ==> t.sent[k].vaultId in t.vaults;
    }
    forall id | id in u.vaults ensures HistoryOk(u.rows, u.sent, id, u.vaults[id].roles) {
      match c
      case Add(added, roles, _) =>
        if id == added { NewVaultHasNoHistory(t, added, roles); }
      case Submit(vaultId, _) =>
        var emails := AllEmails(t.vaults[vaultId].roles);
        assert emails[..|emails|] == emails;
        SubmissionKeepsHistory(t.rows, t.sent, id, t.vaults[id].roles, vaultId, emails, |emails|, t.drawn, true);
      case Break(vaultId, done) =>
        var emails := AllEmails(t.vaults[vaultId].roles);
        SubmissionKeepsHistory(t.rows, t.sent, id, t.vaults[id].roles, vaultId, emails, done, t.drawn, false);
      case Notify(vaultId, status, hash, receipt) =>
        EventWears(t, vaultId, status, hash, receipt);
        EventKeepsRoles(t, vaultId, status, hash, receipt, id);
        WearKeepsHistory(t.rows, u.rows, t.sent, id, t.vaults[id].roles, u.vaults[id].roles);
      case FinishClaim(_, _) =>
        RolesAreSame(t.vaults[id].roles);
        WearKeepsHistory(t.rows, u.rows, t.sent, id, t.vaults[id].roles, u.vaults[id].roles);
    }
  }

  lemma {:induction false} RolesAreSame(roles: seq<Role>)
    ensures SameButAddress(roles, roles)
  {}

  lemma {:induction false} EventKeepsRoles(t: Tables, vaultId: string, status: TransactionStatus, hash: Option<string>,
                                           receipt: Option<Receipt>, id: string)
    requires vaultId in t.vaults && id in t.vaults
    ensures SameButAddress(t.vaults[id].roles, Notified(t, vaultId, status, hash, receipt).vaults[id].roles)
  {
    var vault := t.vaults[vaultId];
    RolesAreSame(t.vaults[id].roles);
    if receipt.Some? {
      SameRoles(Linking(vault.roles, t.rows, t.mail), vaultId, vault.selfManaged, RowsOf(t.rows, vaultId),
                receipt.value.created);
    }
  }

  lemma {:induction false} NewVaultHasNoHistory(t: Tables, id: string, roles: seq<Role>)
    requires Inv(t) && id !in t.vaults
    ensures HistoryOk(t.rows, t.sent, id, roles)
  {
    forall s | s in t.sent ensures s.vaultId != id {
      var k :| 0 <= k < |t.sent| && t.sent[k] == s;
    }
    forall i | 0 <= i < |t.rows| ensures t.rows[i].vaultId != id {
      assert WasAttempted(t.sent, t.rows[i]);
      var k :| 0 <= k < |t.sent| && Submits(t.sent[k], t.rows[i]);
      assert t.sent[k] in t.sent;
    }
    FilterNone(t.sent, (s: Submission) => s.vaultId == id);
    FilterNone(t.rows, (a: Account) => a.vaultId == id);
  }

  lemma {:induction false} ChangeKeepsInv(t: Tables, c: Change)
    requires Inv(t) && Enabled(t, c)
    ensures Inv(Apply(t, c))
  {
    hide AccountsInv, AllStatusOk, AllHistoryOk, Enabled, Apply;
    ChangeWears(t, c);
    ChangeKeepsStatus(t, c);
    ChangeKeepsHistory(t, c);
  }
}
