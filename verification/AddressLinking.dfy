/** What a chain event does to a vault (updateVaultTransactionDetails of creator-handler.service.ts):
    status, contract addresses, the share-holder address of each role, and the invitations. */
module AddressLinking {
  import opened Prelude
  import opened ClaimAccounts
  import opened TokenAllocation

  /** One ShareHolderVaultCreated log. */
  datatype Created = Created(shareHolderVaultAddress: Option<Address>, shareHolderAddress: Address)

  datatype Receipt = Receipt(distributionAddress: Option<Address>, managerAddress: Option<Address>,
                             created: seq<Created>)

  /** `encrypted` is None where the source sends the empty string. */
  datatype Invitation = Invitation(vaultId: string, email: string, roleName: string, encrypted: Option<Ciphertext>,
                                   address: Address)

  /** What the linking loop changes. */
  datatype Linking = Linking(roles: seq<Role>, rows: seq<Account>, mail: seq<Invitation>)

  /** findIndex by first email; |roles| when there is none. */
  function RoleOf(roles: seq<Role>, email: string): (i: nat)
    ensures i <= |roles|
    ensures i < |roles| ==> FirstEmail(roles[i]) == Some(email)
    ensures forall j :: 0 <= j < i ==> FirstEmail(roles[j]) != Some(email)
  {
    FindIndex(roles, (r: Role) => FirstEmail(r) == Some(email))
  }

  function OwnerOf(snapshot: seq<Account>, address: Address): (i: nat)
    ensures i <= |snapshot|
    ensures i < |snapshot| ==> snapshot[i].address == address
    ensures forall j :: 0 <= j < i ==> snapshot[j].address != address
  {
    FindIndex(snapshot, (a: Account) => a.address == address)
  }

  /** The email whose account a log names, if the log is complete and the account is known. */
  function NamedEmail(snapshot: seq<Account>, log: Created): Option<string> {
    var u := OwnerOf(snapshot, log.shareHolderAddress);
    if log.shareHolderVaultAddress.Some? && u < |snapshot| then Some(snapshot[u].userEmail) else None
  }

  function LinkRole(roles: seq<Role>, email: string, address: Address): seq<Role> {
    var i := RoleOf(roles, email);
    if i < |roles| then roles[i := roles[i].(shareHolderRoleAddress := Some(address))] else roles
  }

  function RoleName(roles: seq<Role>, email: string): string {
    var i := RoleOf(roles, email);
    if i < |roles| && roles[i].name != "" then roles[i].name else "Shareholder"
  }

  /** The body of the loop over the logs of the receipt. */
  function LinkOne(st: Linking, vaultId: string, selfManaged: bool, snapshot: seq<Account>, log: Created): Linking {
    match NamedEmail(snapshot, log)
    case None => st
    case Some(email) =>
      var address := log.shareHolderVaultAddress.value;
      var linked := st.(roles := LinkRole(st.roles, email, address));
      if selfManaged then linked
      else
        var (rows, encrypted) := HandOut(st.rows, vaultId, email);
        linked.(rows := rows,
                mail := st.mail + [Invitation(vaultId, email, RoleName(st.roles, email), encrypted, address)])
  }

  function LinkAll(st: Linking, vaultId: string, selfManaged: bool, snapshot: seq<Account>,
                   logs: seq<Created>): Linking {
    if logs == [] then st
    else LinkOne(LinkAll(st, vaultId, selfManaged, snapshot, logs[..|logs| - 1]), vaultId, selfManaged, snapshot,
                 Last(logs))
  }

  datatype EventEffect = EventEffect(vault: Vault, rows: seq<Account>, mail: seq<Invitation>)

  /** The whole handler. The receipt is only looked at for a SUCCESSFUL event with a hash. */
  function ApplyEvent(vault: Vault, rows: seq<Account>, mail: seq<Invitation>, vaultId: string,
                      hash: Option<string>, status: TransactionStatus, receipt: Option<Receipt>): EventEffect {
    var noted := vault.(
      transactionHash := if hash.Some? && hash.value != "" then hash else vault.transactionHash,
      transactionStatus := Some(status));
    if status == SUCCESSFUL && hash.Some? && hash.value != "" && receipt.Some? then
      var r := receipt.value;
      var st := LinkAll(Linking(vault.roles, rows, mail), vaultId, vault.selfManaged, RowsOf(rows, vaultId), r.created);
      EventEffect(
        noted.(shareholderManagerAddress := r.managerAddress,
               vaultAddress := if r.distributionAddress.Some? then r.distributionAddress else vault.vaultAddress,
               roles := st.roles),
        st.rows, st.mail)
    else
      EventEffect(noted, rows, mail)
  }

  // ---------------------------------------------------------------- linking is a bijection

  /** Only share-holder addresses of roles can change. */
  ghost predicate SameButAddress(roles: seq<Role>, later: seq<Role>) {
    |roles| == |later| && forall i :: 0 <= i < |roles| ==>
      later[i] == roles[i].(shareHolderRoleAddress := later[i].shareHolderRoleAddress)
  }

  lemma {:induction false} RoleOfIsStable(roles: seq<Role>, later: seq<Role>, email: string)
    requires SameButAddress(roles, later)
    ensures RoleOf(roles, email) == RoleOf(later, email)
  {
    var i, j := RoleOf(roles, email), RoleOf(later, email);
    assert i < |roles| ==> later[i].emails == roles[i].emails;
    assert j < |roles| ==> later[j].emails == roles[j].emails;
  }

  lemma {:induction false} SameRoles(st: Linking, vaultId: string, selfManaged: bool, snapshot: seq<Account>,
                                     logs: seq<Created>)
    ensures SameButAddress(st.roles, LinkAll(st, vaultId, selfManaged, snapshot, logs).roles)
  {
    if logs != [] { SameRoles(st, vaultId, selfManaged, snapshot, logs[..|logs| - 1]); }
  }

  /** The log names the account of the role's first email. */
  ghost predicate Names(snapshot: seq<Account>, roles: seq<Role>, log: Created, i: nat) {
    NamedEmail(snapshot, log).Some? && RoleOf(roles, NamedEmail(snapshot, log).value) == i
  }

  ghost predicate LastToName(snapshot: seq<Account>, roles: seq<Role>, logs: seq<Created>, i: nat, e: int) {
    && 0 <= e < |logs| && Names(snapshot, roles, logs[e], i)
    && forall f :: e < f < |logs| ==> !Names(snapshot, roles, logs[f], i)
  }

  /** Role i ends with the address of the last log that names it, or keeps what it had. */
  lemma {:induction false} LinkedAddress(st: Linking, vaultId: string, selfManaged: bool, snapshot: seq<Account>,
                                         logs: seq<Created>, i: nat)
    requires i < |st.roles|
    ensures var roles := LinkAll(st, vaultId, selfManaged, snapshot, logs).roles;
      && SameButAddress(st.roles, roles)
      && (roles[i] == st.roles[i] || exists e :: LastToName(snapshot, st.roles, logs, i, e))
      && (forall e :: LastToName(snapshot, st.roles, logs, i, e) ==>
            roles[i].shareHolderRoleAddress == logs[e].shareHolderVaultAddress)
  {
    SameRoles(st, vaultId, selfManaged, snapshot, logs);
    if logs != [] {
      hide SameButAddress, Names, LinkOne;
      var n := |logs| - 1;
      var before := logs[..n];
      LinkedAddress(st, vaultId, selfManaged, snapshot, before, i);
      var mid := LinkAll(st, vaultId, selfManaged, snapshot, before);
      if Names(snapshot, st.roles, logs[n], i) {
        NamedRoleIsLinked(st.roles, mid, vaultId, selfManaged, snapshot, logs[n], i);
        assert LastToName(snapshot, st.roles, logs, i, n);
      } else {
        UnnamedRoleStays(st.roles, mid, vaultId, selfManaged, snapshot, logs[n], i);
        forall e ensures LastToName(snapshot, st.roles, logs, i, e) <==> LastToName(snapshot, st.roles, before, i, e) {
          LastToNameBefore(snapshot, st.roles, logs, i, e);
        }
      }
    }
  }

  lemma {:induction false} LastToNameBefore(snapshot: seq<Account>, roles: seq<Role>, logs: seq<Created>, i: nat,
                                            e: int)
    requires logs != [] && !Names(snapshot, roles, Last(logs), i)
    ensures LastToName(snapshot, roles, logs, i, e) <==> LastToName(snapshot, roles, logs[..|logs| - 1], i, e)
  {
    hide Names;
    var n := |logs| - 1;
    var before := logs[..n];
    assert 0 <= e < n ==> before[e] == logs[e];
    if LastToName(snapshot, roles, before, i, e) {
      forall f | e < f < |logs| ensures !Names(snapshot, roles, logs[f], i) {
        if f < n { assert before[f] == logs[f]; }
      }
    }
    if LastToName(snapshot, roles, logs, i, e) {
      forall f | e < f < n ensures !Names(snapshot, roles, before[f], i) {
        assert before[f] == logs[f];
      }
    }
  }

  lemma {:induction false} NamedRoleIsLinked(roles: seq<Role>, mid: Linking, vaultId: string, selfManaged: bool,
                                             snapshot: seq<Account>, log: Created, i: nat)
    requires SameButAddress(roles, mid.roles) && i < |roles| && Names(snapshot, roles, log, i)
    ensures var later := LinkOne(mid, vaultId, selfManaged, snapshot, log).roles;
      |later| == |roles| && later[i].shareHolderRoleAddress == log.shareHolderVaultAddress
  {
    RoleOfIsStable(roles, mid.roles, NamedEmail(snapshot, log).value);
  }

  lemma {:induction false} UnnamedRoleStays(roles: seq<Role>, mid: Linking, vaultId: string, selfManaged: bool,
                                            snapshot: seq<Account>, log: Created, i: nat)
    requires SameButAddress(roles, mid.roles) && i < |roles| && !Names(snapshot, roles, log, i)
    ensures |LinkOne(mid, vaultId, selfManaged, snapshot, log).roles| == |roles|
    ensures LinkOne(mid, vaultId, selfManaged, snapshot, log).roles[i] == mid.roles[i]
  {
    var named := NamedEmail(snapshot, log);
    if named.Some? { RoleOfIsStable(roles, mid.roles, named.value); }
  }

  /** The accounts of a vault whose first and only submission drew randomness from `drawn` on. What
      was handed out or erased since does not matter for linking. */
  ghost predicate FirstAttempt(snapshot: seq<Account>, roles: seq<Role>, vaultId: string, drawn: nat) {
    SameIdentity(NewAccounts(AllEmails(roles), vaultId, drawn), snapshot)
  }

  /** The receipt names each of the n share owners, each once, with a deployed address. */
  ghost predicate NamesEachOwnerOnce(logs: seq<Created>, n: nat, drawn: nat) {
    && (forall e :: 0 <= e < |logs| ==> logs[e].shareHolderVaultAddress.Some?)
    && (forall e, f :: 0 <= e < f < |logs| ==> logs[e].shareHolderAddress != logs[f].shareHolderAddress)
    && (forall t {:trigger Wallet(t)} :: drawn <= t < drawn + n ==> LogOf(logs, Wallet(t)) < |logs|)
  }

  /** The log that names an owner. */
  function LogOf(logs: seq<Created>, owner: Address): (e: nat)
    ensures e <= |logs|
    ensures e < |logs| ==> logs[e].shareHolderAddress == owner
    ensures forall f :: 0 <= f < e ==> logs[f].shareHolderAddress != owner
  {
    FindIndex(logs, (log: Created) => log.shareHolderAddress == owner)
  }

  lemma {:induction false} AccountOfToken(snapshot: seq<Account>, roles: seq<Role>, vaultId: string, drawn: nat, t: nat)
    requires FirstAttempt(snapshot, roles, vaultId, drawn) && t < |snapshot|
    ensures |snapshot| == |AllEmails(roles)|
    ensures snapshot[t].address == Wallet(drawn + t) && snapshot[t].userEmail == AllEmails(roles)[t]
  {
    var created := NewAccounts(AllEmails(roles), vaultId, drawn);
    assert Erased(created[t]) == Erased(snapshot[t]);
  }

  lemma {:induction false} OwnerIsToken(snapshot: seq<Account>, roles: seq<Role>, vaultId: string, drawn: nat, t: nat)
    requires FirstAttempt(snapshot, roles, vaultId, drawn) && t < |AllEmails(roles)|
    ensures OwnerOf(snapshot, Wallet(drawn + t)) == t && t < |snapshot|
  {
    AccountOfToken(snapshot, roles, vaultId, drawn, t);
    AccountOfToken(snapshot, roles, vaultId, drawn, OwnerOf(snapshot, Wallet(drawn + t)));
  }

  /** A log names role i exactly when its owner holds role i's first token, if no other token has the role's
      first email. */
  lemma {:induction false} NamesItsFirstToken(snapshot: seq<Account>, roles: seq<Role>, vaultId: string, drawn: nat,
                                              log: Created, i: nat)
    requires FirstAttempt(snapshot, roles, vaultId, drawn) && FirstEmailsOccurOnce(roles)
    requires i < |roles| && log.shareHolderVaultAddress.Some?
    ensures Names(snapshot, roles, log, i) <==>
      roles[i].emails != [] && log.shareHolderAddress == Wallet(drawn + Offset(roles, i))
  {
    if roles[i].emails != [] {
      var o := Offset(roles, i);
      TokenOfEmail(roles, i, 0);
      OwnerIsToken(snapshot, roles, vaultId, drawn, o);
      AccountOfToken(snapshot, roles, vaultId, drawn, o);
      var k := RoleOf(roles, roles[i].emails[0]);
      TokenOfEmail(roles, k, 0);
      if k < i { OffsetsGrow(roles, k + 1, i); }
      assert k == i;
      if Names(snapshot, roles, log, i) {
        var t := OwnerOf(snapshot, log.shareHolderAddress);
        AccountOfToken(snapshot, roles, vaultId, drawn, t);
        assert AllEmails(roles)[t] == AllEmails(roles)[o];
      }
    }
  }

  /** The log that names the owner of role i's first token. */
  function OwnLog(roles: seq<Role>, logs: seq<Created>, drawn: nat, i: nat): nat
    requires i < |roles|
  {
    LogOf(logs, Wallet(drawn + Offset(roles, i)))
  }

  /** Role i with the address deployed for the owner of its own first token. */
  ghost predicate LinkedToOwn(roles: seq<Role>, later: seq<Role>, logs: seq<Created>, drawn: nat, i: nat)
    requires i < |roles| == |later|
  {
    if roles[i].emails == [] then later[i] == roles[i]
    else
      && OwnLog(roles, logs, drawn, i) < |logs|
      && later[i] == roles[i].(shareHolderRoleAddress := logs[OwnLog(roles, logs, drawn, i)].shareHolderVaultAddress)
  }

  ghost predicate AllLinkedToOwn(roles: seq<Role>, later: seq<Role>, logs: seq<Created>, drawn: nat) {
    |roles| == |later| && forall i :: 0 <= i < |roles| ==> LinkedToOwn(roles, later, logs, drawn, i)
  }

  /** Address linking is a bijection: every role gets exactly the address deployed for the owner of
      its own first token, nothing else in the roles changes, and no log serves two roles. */
  lemma {:induction false} LinkingIsABijection(st: Linking, vaultId: string, selfManaged: bool,
        snapshot: seq<Account>, logs: seq<Created>, drawn: nat)
    requires FirstAttempt(snapshot, st.roles, vaultId, drawn) && FirstEmailsOccurOnce(st.roles)
    requires NamesEachOwnerOnce(logs, |AllEmails(st.roles)|, drawn)
    ensures AllLinkedToOwn(st.roles, LinkAll(st, vaultId, selfManaged, snapshot, logs).roles, logs, drawn)
    ensures forall i, j :: 0 <= i < j < |st.roles| && st.roles[i].emails != [] && st.roles[j].emails != [] ==>
      OwnLog(st.roles, logs, drawn, i) != OwnLog(st.roles, logs, drawn, j)
  {
    hide LinkedToOwn, SameButAddress, FirstAttempt, NamesEachOwnerOnce, FirstEmailsOccurOnce;
    var roles := LinkAll(st, vaultId, selfManaged, snapshot, logs).roles;
    LinkAllLength(st, vaultId, selfManaged, snapshot, logs);
    forall i | 0 <= i < |st.roles| ensures LinkedToOwn(st.roles, roles, logs, drawn, i) {
      LinkedToOwnToken(st, vaultId, selfManaged, snapshot, logs, drawn, i);
    }
    forall i, j | 0 <= i < j < |st.roles| && st.roles[i].emails != [] && st.roles[j].emails != []
      ensures OwnLog(st.roles, logs, drawn, i) != OwnLog(st.roles, logs, drawn, j)
    {
      OwnLogsDiffer(st.roles, logs, drawn, i, j);
    }
  }

  lemma {:induction false} LinkAllLength(st: Linking, vaultId: string, selfManaged: bool, snapshot: seq<Account>,
                                         logs: seq<Created>)
    ensures |LinkAll(st, vaultId, selfManaged, snapshot, logs).roles| == |st.roles|
  {
    SameRoles(st, vaultId, selfManaged, snapshot, logs);
  }

  lemma {:induction false} OwnLogsDiffer(roles: seq<Role>, logs: seq<Created>, drawn: nat, i: nat, j: nat)
    requires i < j < |roles| && roles[i].emails != [] && roles[j].emails != []
    requires NamesEachOwnerOnce(logs, |AllEmails(roles)|, drawn)
    ensures OwnLog(roles, logs, drawn, i) != OwnLog(roles, logs, drawn, j)
  {
    OffsetsGrow(roles, i + 1, j);
    TokenOfEmail(roles, i, 0);
    TokenOfEmail(roles, j, 0);
    var a, b := Wallet(drawn + Offset(roles, i)), Wallet(drawn + Offset(roles, j));
    assert LogOf(logs, a) < |logs| && LogOf(logs, b) < |logs|;
  }

  lemma {:induction false} LinkedToOwnToken(st: Linking, vaultId: string, selfManaged: bool, snapshot: seq<Account>,
                                            logs: seq<Created>, drawn: nat, i: nat)
    requires FirstAttempt(snapshot, st.roles, vaultId, drawn) && FirstEmailsOccurOnce(st.roles)
    requires NamesEachOwnerOnce(logs, |AllEmails(st.roles)|, drawn) && i < |st.roles|
    ensures var roles := LinkAll(st, vaultId, selfManaged, snapshot, logs).roles;
      |roles| == |st.roles| && LinkedToOwn(st.roles, roles, logs, drawn, i)
  {
    hide SameButAddress, LinkAll, Names, FirstAttempt, FirstEmailsOccurOnce;
    LinkedAddress(st, vaultId, selfManaged, snapshot, logs, i);
    OnlyOwnLogNames(st.roles, vaultId, snapshot, logs, drawn, i);
    SameRoles(st, vaultId, selfManaged, snapshot, logs);
    OnlyAddressOf(st.roles, LinkAll(st, vaultId, selfManaged, snapshot, logs).roles, i);
  }

  lemma {:induction false} OnlyAddressOf(roles: seq<Role>, later: seq<Role>, i: nat)
    requires SameButAddress(roles, later) && i < |roles|
    ensures |later| == |roles| && later[i] == roles[i].(shareHolderRoleAddress := later[i].shareHolderRoleAddress)
  {}

  lemma {:induction false} OnlyOwnLogNames(roles: seq<Role>, vaultId: string, snapshot: seq<Account>,
                                           logs: seq<Created>,
                                           drawn: nat, i: nat)
    requires FirstAttempt(snapshot, roles, vaultId, drawn) && FirstEmailsOccurOnce(roles)
    requires NamesEachOwnerOnce(logs, |AllEmails(roles)|, drawn) && i < |roles|
    ensures if roles[i].emails == [] then forall e :: !LastToName(snapshot, roles, logs, i, e)
            else
              var own := OwnLog(roles, logs, drawn, i);
              own < |logs| && LastToName(snapshot, roles, logs, i, own)
  {
    hide Names, FirstAttempt, FirstEmailsOccurOnce;
    forall e | 0 <= e < |logs| ensures Names(snapshot, roles, logs[e], i) <==>
      (roles[i].emails != [] && logs[e].shareHolderAddress == Wallet(drawn + Offset(roles, i)))
    {
      NamesItsFirstToken(snapshot, roles, vaultId, drawn, logs[e], i);
    }
    if roles[i].emails != [] {
      TokenOfEmail(roles, i, 0);
      assert LogOf(logs, Wallet(drawn + Offset(roles, i))) < |logs|;
    }
  }

  /** A receipt that names the owners in the order of their tokens, but for that of token t, which comes last
      and changes places with the last one. Each owner has a contract of its own. */
  function Swapped(n: nat, drawn: nat, t: nat): seq<Created> {
    seq(n, k requires 0 <= k < n =>
      Created(Some(Contract(k)), Wallet(drawn + if k == n - 1 then t else if k == t then n - 1 else k)))
  }

  ghost predicate DeployedApart(logs: seq<Created>) {
    forall e, f :: 0 <= e < f < |logs| ==> logs[e].shareHolderVaultAddress != logs[f].shareHolderVaultAddress
  }

  /** Where the log of an owner stands. */
  function SwappedBack(n: nat, t: nat, u: nat): nat
    requires t < n && u < n
  {
    if u == t then n - 1 else if u == n - 1 then t else u
  }

  lemma {:induction false} SwappedAt(n: nat, drawn: nat, t: nat, k: nat)
    requires t < n && k < n
    ensures |Swapped(n, drawn, t)| == n && Swapped(n, drawn, t)[k].shareHolderVaultAddress == Some(Contract(k))
    ensures Swapped(n, drawn, t)[k].shareHolderAddress == Wallet(drawn + SwappedBack(n, t, k))
  {}

  lemma {:induction false} SwappedIsProper(n: nat, drawn: nat, t: nat)
    requires t < n
    ensures NamesEachOwnerOnce(Swapped(n, drawn, t), n, drawn) && DeployedApart(Swapped(n, drawn, t))
  {
    var logs := Swapped(n, drawn, t);
    SwappedAt(n, drawn, t, 0);
    forall e | 0 <= e < n
      ensures logs[e].shareHolderVaultAddress == Some(Contract(e))
      ensures logs[e].shareHolderAddress == Wallet(drawn + SwappedBack(n, t, e))
    {
      SwappedAt(n, drawn, t, e);
    }
    hide Swapped;
    forall u {:trigger Wallet(u)} | drawn <= u < drawn + n ensures LogOf(logs, Wallet(u)) < |logs| {
      assert logs[SwappedBack(n, t, u - drawn)].shareHolderAddress == Wallet(u);
    }
  }

  /** If another token t has the email by which role i is found, the log of t takes the role over when it
      comes last. */
  lemma {:induction false} LastLogTakesOver(st: Linking, vaultId: string, selfManaged: bool, snapshot: seq<Account>,
                                            drawn: nat, t: nat, i: nat)
    requires FirstAttempt(snapshot, st.roles, vaultId, drawn) && t < |AllEmails(st.roles)| && i < |st.roles|
    requires RoleOf(st.roles, AllEmails(st.roles)[t]) == i && t != Offset(st.roles, i)
    ensures var logs := Swapped(|AllEmails(st.roles)|, drawn, t);
      !AllLinkedToOwn(st.roles, LinkAll(st, vaultId, selfManaged, snapshot, logs).roles, logs, drawn)
  {
    hide SameButAddress, FirstAttempt, AllEmails, LinkAll, Swapped;
    var n := |AllEmails(st.roles)|;
    var logs := Swapped(n, drawn, t);
    LastIsSwapped(n, drawn, t);
    LastLogNames(st.roles, snapshot, vaultId, drawn, logs, t);
    LastLogDecides(st, vaultId, selfManaged, snapshot, logs, i);
    TokenOfEmail(st.roles, i, 0);
    OwnLogIsApart(n, drawn, t, Offset(st.roles, i));
    NotLinkedToOwn(st.roles, LinkAll(st, vaultId, selfManaged, snapshot, logs).roles, logs, drawn, i);
  }

  lemma {:induction false} LastLogDecides(st: Linking, vaultId: string, selfManaged: bool, snapshot: seq<Account>,
                                          logs: seq<Created>, i: nat)
    requires logs != [] && i < |st.roles| && Names(snapshot, st.roles, Last(logs), i)
    ensures var roles := LinkAll(st, vaultId, selfManaged, snapshot, logs).roles;
      |roles| == |st.roles| && roles[i].shareHolderRoleAddress == Last(logs).shareHolderVaultAddress
  {
    hide LinkAll, Names;
    LinkedAddress(st, vaultId, selfManaged, snapshot, logs, i);
    assert LastToName(snapshot, st.roles, logs, i, |logs| - 1);
  }

  lemma {:induction false} NotLinkedToOwn(roles: seq<Role>, later: seq<Role>, logs: seq<Created>, drawn: nat, i: nat)
    requires i < |roles| == |later| && roles[i].emails != []
    requires var own := OwnLog(roles, logs, drawn, i);
      own < |logs| ==> logs[own].shareHolderVaultAddress != later[i].shareHolderRoleAddress
    ensures !AllLinkedToOwn(roles, later, logs, drawn)
  {
    assert !LinkedToOwn(roles, later, logs, drawn, i);
  }

  lemma {:induction false} LastIsSwapped(n: nat, drawn: nat, t: nat)
    requires t < n
    ensures var logs := Swapped(n, drawn, t);
      |logs| == n && Last(logs) == Created(Some(Contract(n - 1)), Wallet(drawn + t))
  {}

  lemma {:induction false} LastLogNames(roles: seq<Role>, snapshot: seq<Account>, vaultId: string, drawn: nat,
                                        logs: seq<Created>, t: nat)
    requires FirstAttempt(snapshot, roles, vaultId, drawn) && t < |AllEmails(roles)|
    requires logs != [] && Last(logs).shareHolderVaultAddress.Some?
    requires Last(logs).shareHolderAddress == Wallet(drawn + t)
    ensures Names(snapshot, roles, Last(logs), RoleOf(roles, AllEmails(roles)[t]))
  {
    OwnerIsToken(snapshot, roles, vaultId, drawn, t);
    AccountOfToken(snapshot, roles, vaultId, drawn, t);
  }

  lemma {:induction false} OwnLogIsApart(n: nat, drawn: nat, t: nat, other: nat)
    requires t < n && other < n && other != t
    ensures var logs := Swapped(n, drawn, t);
      var e := LogOf(logs, Wallet(drawn + other));
      e < |logs| ==> logs[e].shareHolderVaultAddress != Some(Contract(n - 1))
  {}

  lemma {:induction false} SharedFirstEmailMislinks(st: Linking, vaultId: string, selfManaged: bool,
                                                    snapshot: seq<Account>,
                                                    drawn: nat)
    returns (logs: seq<Created>)
    requires FirstAttempt(snapshot, st.roles, vaultId, drawn) && !FirstEmailsOccurOnce(st.roles)
    ensures NamesEachOwnerOnce(logs, |AllEmails(st.roles)|, drawn) && DeployedApart(logs)
    ensures !AllLinkedToOwn(st.roles, LinkAll(st, vaultId, selfManaged, snapshot, logs).roles, logs, drawn)
  {
    hide FirstAttempt, AllLinkedToOwn, NamesEachOwnerOnce, DeployedApart;
    var emails := AllEmails(st.roles);
    var i, t :| 0 <= i < |st.roles| && st.roles[i].emails != [] && 0 <= t < |emails| &&
      emails[t] == st.roles[i].emails[0] && t != Offset(st.roles, i);
    TokenOfEmail(st.roles, i, 0);
    var r := RoleOf(st.roles, emails[t]);
    var other := if t == Offset(st.roles, r) then Offset(st.roles, i) else t;
    logs := Swapped(|emails|, drawn, other);
    SwappedIsProper(|emails|, drawn, other);
    LastLogTakesOver(st, vaultId, selfManaged, snapshot, drawn, other, r);
  }

  /** Exactly when linking works on a first attempt: every receipt that names each owner once links every role
      to its own first token if and only if no role's first email is also that of another token. */
  lemma {:induction false} LinksIffFirstEmailsOccurOnce(st: Linking, vaultId: string, selfManaged: bool,
        snapshot: seq<Account>, drawn: nat)
    requires FirstAttempt(snapshot, st.roles, vaultId, drawn)
    ensures (forall logs :: NamesEachOwnerOnce(logs, |AllEmails(st.roles)|, drawn) ==>
               AllLinkedToOwn(st.roles, LinkAll(st, vaultId, selfManaged, snapshot, logs).roles, logs, drawn)) <==>
            FirstEmailsOccurOnce(st.roles)
  {
    hide FirstAttempt, AllLinkedToOwn, NamesEachOwnerOnce, FirstEmailsOccurOnce;
    if FirstEmailsOccurOnce(st.roles) {
      forall logs | NamesEachOwnerOnce(logs, |AllEmails(st.roles)|, drawn)
        ensures AllLinkedToOwn(st.roles, LinkAll(st, vaultId, selfManaged, snapshot, logs).roles, logs, drawn)
      {
        LinkingIsABijection(st, vaultId, selfManaged, snapshot, logs, drawn);
      }
    } else {
      var logs := SharedFirstEmailMislinks(st, vaultId, selfManaged, snapshot, drawn);
    }
  }

  /** In a self-managed vault no key is handed out and nobody is invited, whatever the receipt. */
  lemma {:induction false} SelfManagedKeepsKeys(st: Linking, vaultId: string, snapshot: seq<Account>,
                                                logs: seq<Created>)
    ensures var later := LinkAll(st, vaultId, true, snapshot, logs); later.rows == st.rows && later.mail == st.mail
  {
    if logs != [] { SelfManagedKeepsKeys(st, vaultId, snapshot, logs[..|logs| - 1]); }
  }

  // ---------------------------------------------------------------- every share holder gets a key, once

  /** The ciphertext in the row that a look-up by email finds. */
  function HeldKey(rows: seq<Account>, vaultId: string, email: string): Option<Ciphertext> {
    var i := FindByEmail(rows, vaultId, email);
    if i < |rows| then rows[i].encrypted else None
  }

  /** Handing it out takes it from that row and from no other. */
  lemma {:induction false} HandOutTakes(rows: seq<Account>, vaultId: string, email: string, other: string)
    ensures HandOut(rows, vaultId, email).1 == HeldKey(rows, vaultId, email)
    ensures HeldKey(HandOut(rows, vaultId, email).0, vaultId, other) ==
      if other == email then None else HeldKey(rows, vaultId, other)
  {
    var later := HandOut(rows, vaultId, email).0;
    assert SameIdentity(rows, later);
    FindIsStable(rows, later, vaultId, other);
  }

  /** Looking up in the rows of one vault and in the whole table finds the same row. */
  lemma {:induction false} FindInVault(rows: seq<Account>, vaultId: string, email: string)
    ensures var found := RowsOf(rows, vaultId);
      FindByEmail(found, vaultId, email) < |found| ==>
        FindByEmail(rows, vaultId, email) < |rows| &&
        rows[FindByEmail(rows, vaultId, email)] == found[FindByEmail(found, vaultId, email)]
  {
    if rows != [] {
      FindInVault(rows[1..], vaultId, email);
      var found := RowsOf(rows, vaultId);
      if rows[0].vaultId == vaultId {
        assert found == [rows[0]] + RowsOf(rows[1..], vaultId);
        assert found[1..] == RowsOf(rows[1..], vaultId);
      } else {
        assert found == RowsOf(rows[1..], vaultId);
      }
    }
  }

  /** The first token of an email. */
  function FirstToken(emails: seq<string>, email: string): (t: nat)
    ensures t <= |emails|
    ensures t < |emails| ==> emails[t] == email
    ensures forall u :: 0 <= u < t ==> emails[u] != email
  {
    FindIndex(emails, (e: string) => e == email)
  }

  /** After a first submission every email's row holds the key drawn for the first token of that email. */
  lemma {:induction false} FreshRowsHold(rows: seq<Account>, roles: seq<Role>, vaultId: string, drawn: nat, t: nat)
    requires RowsOf(rows, vaultId) == NewAccounts(AllEmails(roles), vaultId, drawn) && t < |AllEmails(roles)|
    ensures var email := AllEmails(roles)[t];
      var first := FirstToken(AllEmails(roles), email);
      HeldKey(rows, vaultId, email) == Some(Sealed(drawn + first, drawn + first))
  {
    var found := RowsOf(rows, vaultId);
    var email := AllEmails(roles)[t];
    FindInVault(rows, vaultId, email);
    var i, first := FindByEmail(found, vaultId, email), FirstToken(AllEmails(roles), email);
    assert found[first] == NewAccount(email, vaultId, first, drawn + first);
    assert found[i] == NewAccount(AllEmails(roles)[i], vaultId, i, drawn + i);
  }

  /** The log names the owner of one of the n tokens drawn from `drawn` on, with a deployed address. */
  predicate NamesOwner(log: Created, n: nat, drawn: nat) {
    && log.shareHolderVaultAddress.Some? && log.shareHolderAddress.Wallet?
    && drawn <= log.shareHolderAddress.secret < drawn + n
  }

  ghost predicate NamesOnlyOwners(logs: seq<Created>, n: nat, drawn: nat) {
    && (forall e :: 0 <= e < |logs| ==> NamesOwner(logs[e], n, drawn))
    && (forall e, f :: 0 <= e < f < |logs| ==> logs[e].shareHolderAddress != logs[f].shareHolderAddress)
  }

  /** The invitation that a log of a first attempt leads to. */
  function Expected(roles: seq<Role>, vaultId: string, drawn: nat, log: Created): Invitation
    requires NamesOwner(log, |AllEmails(roles)|, drawn)
  {
    var secret := log.shareHolderAddress.secret;
    var email := AllEmails(roles)[secret - drawn];
    Invitation(vaultId, email, RoleName(roles, email), Some(Sealed(secret, secret)), log.shareHolderVaultAddress.value)
  }

  /** The log names the owner of a token with this email. */
  predicate IsFor(log: Created, emails: seq<string>, drawn: nat, email: string) {
    NamesOwner(log, |emails|, drawn) && emails[log.shareHolderAddress.secret - drawn] == email
  }

  predicate AnyIsFor(logs: seq<Created>, emails: seq<string>, drawn: nat, email: string) {
    exists e :: 0 <= e < |logs| && IsFor(logs[e], emails, drawn, email)
  }

  /** What is left of an email's key after these logs: it goes out with the first log of the email. */
  function KeyLeft(logs: seq<Created>, emails: seq<string>, drawn: nat, email: string): Option<Ciphertext> {
    var first := FirstToken(emails, email);
    if AnyIsFor(logs, emails, drawn, email) then None else Some(Sealed(drawn + first, drawn + first))
  }

  ghost predicate KeysAreLeft(rows: seq<Account>, vaultId: string, emails: seq<string>, drawn: nat,
                              logs: seq<Created>) {
    forall t :: 0 <= t < |emails| ==> HeldKey(rows, vaultId, emails[t]) == KeyLeft(logs, emails, drawn, emails[t])
  }

  /** The invitation that the e-th log of a first attempt does lead to. */
  function InvitationOf(roles: seq<Role>, vaultId: string, drawn: nat, logs: seq<Created>, e: nat): Invitation
    requires e < |logs| && NamesOwner(logs[e], |AllEmails(roles)|, drawn)
  {
    var email := AllEmails(roles)[logs[e].shareHolderAddress.secret - drawn];
    Expected(roles, vaultId, drawn, logs[e]).(encrypted := KeyLeft(logs[..e], AllEmails(roles), drawn, email))
  }

  lemma {:induction false} FreshKeysAreLeft(rows: seq<Account>, roles: seq<Role>, vaultId: string, drawn: nat)
    requires RowsOf(rows, vaultId) == NewAccounts(AllEmails(roles), vaultId, drawn)
    ensures KeysAreLeft(rows, vaultId, AllEmails(roles), drawn, [])
  {
    hide HeldKey;
    forall t | 0 <= t < |AllEmails(roles)|
      ensures HeldKey(rows, vaultId, AllEmails(roles)[t]) == KeyLeft([], AllEmails(roles), drawn, AllEmails(roles)[t])
    {
      FreshRowsHold(rows, roles, vaultId, drawn, t);
    }
  }

  lemma {:induction false} FreshIsFirstAttempt(roles: seq<Role>, vaultId: string, drawn: nat)
    ensures FirstAttempt(NewAccounts(AllEmails(roles), vaultId, drawn), roles, vaultId, drawn)
  {}

  /** What an invitation says, told from the log and the roles alone: whose it is, which address was deployed, and
      the name of the role that the email is the first one of. */
  lemma {:induction false} InvitationTells(roles: seq<Role>, vaultId: string, drawn: nat, logs: seq<Created>, e: nat,
                                           i: nat)
    requires e < |logs| && NamesOwner(logs[e], |AllEmails(roles)|, drawn) && i < |roles|
    ensures var m, emails := InvitationOf(roles, vaultId, drawn, logs, e), AllEmails(roles);
      && m.vaultId == vaultId && m.email == emails[logs[e].shareHolderAddress.secret - drawn]
      && Some(m.address) == logs[e].shareHolderVaultAddress
      && (IsFirstEmailOf(roles, m.email, i) ==>
            m.roleName == if roles[i].name == "" then "Shareholder" else roles[i].name)
      && ((forall k :: 0 <= k < |roles| ==> FirstEmail(roles[k]) != Some(m.email)) ==> m.roleName == "Shareholder")
  {
    hide KeyLeft, AllEmails;
  }

  /** The first role whose first email it is. */
  predicate IsFirstEmailOf(roles: seq<Role>, email: string, i: nat)
    requires i < |roles|
  {
    && roles[i].emails != [] && roles[i].emails[0] == email
    && forall k :: 0 <= k < i ==> roles[k].emails == [] || roles[k].emails[0] != email
  }

  lemma {:induction false} AnyIsForSnoc(logs: seq<Created>, emails: seq<string>, drawn: nat, email: string)
    requires logs != []
    ensures AnyIsFor(logs, emails, drawn, email) <==>
      AnyIsFor(logs[..|logs| - 1], emails, drawn, email) || IsFor(Last(logs), emails, drawn, email)
  {
    hide IsFor;
    var before := logs[..|logs| - 1];
    if AnyIsFor(before, emails, drawn, email) {
      var e :| 0 <= e < |before| && IsFor(before[e], emails, drawn, email);
      assert IsFor(logs[e], emails, drawn, email);
    }
    if AnyIsFor(logs, emails, drawn, email) {
      var e :| 0 <= e < |logs| && IsFor(logs[e], emails, drawn, email);
      assert e < |before| ==> IsFor(before[e], emails, drawn, email);
    }
  }

  lemma {:induction false} InviteOne(roles: seq<Role>, mid: Linking, vaultId: string, snapshot: seq<Account>,
                                     logs: seq<Created>, drawn: nat)
    requires FirstAttempt(snapshot, roles, vaultId, drawn) && SameButAddress(roles, mid.roles)
    requires logs != [] && NamesOwner(Last(logs), |AllEmails(roles)|, drawn)
    requires KeysAreLeft(mid.rows, vaultId, AllEmails(roles), drawn, logs[..|logs| - 1])
    ensures var later := LinkOne(mid, vaultId, false, snapshot, Last(logs));
      && later.mail == mid.mail + [InvitationOf(roles, vaultId, drawn, logs, |logs| - 1)]
      && later.rows == HandOut(mid.rows, vaultId, AllEmails(roles)[Last(logs).shareHolderAddress.secret - drawn]).0
  {
    hide SameButAddress, FirstAttempt, KeyLeft, RoleName;
    var t := Last(logs).shareHolderAddress.secret - drawn;
    OwnerIsToken(snapshot, roles, vaultId, drawn, t);
    AccountOfToken(snapshot, roles, vaultId, drawn, t);
    SameRoleName(roles, mid.roles, AllEmails(roles)[t]);
    HandOutTakes(mid.rows, vaultId, AllEmails(roles)[t], AllEmails(roles)[t]);
  }

  lemma {:induction false} KeysAreStillLeft(rows: seq<Account>, vaultId: string, emails: seq<string>, drawn: nat,
                                            logs: seq<Created>)
    requires logs != [] && NamesOwner(Last(logs), |emails|, drawn)
    requires KeysAreLeft(rows, vaultId, emails, drawn, logs[..|logs| - 1])
    ensures KeysAreLeft(HandOut(rows, vaultId, emails[Last(logs).shareHolderAddress.secret - drawn]).0, vaultId, emails,
                        drawn, logs)
  {
    hide HeldKey, HandOut;
    var email := emails[Last(logs).shareHolderAddress.secret - drawn];
    forall t | 0 <= t < |emails|
      ensures HeldKey(HandOut(rows, vaultId, email).0, vaultId, emails[t]) == KeyLeft(logs, emails, drawn, emails[t])
    {
      HandOutTakes(rows, vaultId, email, emails[t]);
      AnyIsForSnoc(logs, emails, drawn, emails[t]);
    }
  }

  function Invitations(roles: seq<Role>, vaultId: string, drawn: nat, logs: seq<Created>): seq<Invitation>
    requires forall e :: 0 <= e < |logs| ==> NamesOwner(logs[e], |AllEmails(roles)|, drawn)
  {
    seq(|logs|, e requires 0 <= e < |logs| => InvitationOf(roles, vaultId, drawn, logs, e))
  }

  function AllExpected(roles: seq<Role>, vaultId: string, drawn: nat, logs: seq<Created>): seq<Invitation>
    requires forall e :: 0 <= e < |logs| ==> NamesOwner(logs[e], |AllEmails(roles)|, drawn)
  {
    seq(|logs|, e requires 0 <= e < |logs| => Expected(roles, vaultId, drawn, logs[e]))
  }

  lemma {:induction false} OneMoreInvitation(roles: seq<Role>, vaultId: string, drawn: nat, logs: seq<Created>)
    requires logs != [] && forall e :: 0 <= e < |logs| ==> NamesOwner(logs[e], |AllEmails(roles)|, drawn)
    ensures Invitations(roles, vaultId, drawn, logs) ==
      Invitations(roles, vaultId, drawn, logs[..|logs| - 1]) + [InvitationOf(roles, vaultId, drawn, logs, |logs| - 1)]
  {
    hide KeyLeft, Expected;
    var before := logs[..|logs| - 1];
    forall e | 0 <= e < |before|
      ensures InvitationOf(roles, vaultId, drawn, logs, e) == InvitationOf(roles, vaultId, drawn, before, e)
    {
      assert before[..e] == logs[..e];
    }
  }

  /** All invitations of a first attempt, whatever its emails: one per log, to the email of the token whose
      owner the log names. An email's first log carries the key of the email's first token, the others none. */
  lemma {:induction false} InvitationsAre(st: Linking, vaultId: string, snapshot: seq<Account>, logs: seq<Created>,
                                          drawn: nat)
    requires FirstAttempt(snapshot, st.roles, vaultId, drawn)
    requires forall e :: 0 <= e < |logs| ==> NamesOwner(logs[e], |AllEmails(st.roles)|, drawn)
    requires KeysAreLeft(st.rows, vaultId, AllEmails(st.roles), drawn, [])
    ensures var later := LinkAll(st, vaultId, false, snapshot, logs);
      && later.mail == st.mail + Invitations(st.roles, vaultId, drawn, logs)
      && KeysAreLeft(later.rows, vaultId, AllEmails(st.roles), drawn, logs)
  {
    hide KeysAreLeft, FirstAttempt, SameButAddress, LinkOne, HandOut, InvitationOf, NamesOwner;
    if logs != [] {
      var n := |logs| - 1;
      var before := logs[..n];
      InvitationsAre(st, vaultId, snapshot, before, drawn);
      var mid := LinkAll(st, vaultId, false, snapshot, before);
      SameRoles(st, vaultId, false, snapshot, before);
      InviteOne(st.roles, mid, vaultId, snapshot, logs, drawn);
      KeysAreStillLeft(mid.rows, vaultId, AllEmails(st.roles), drawn, logs);
      OneMoreInvitation(st.roles, vaultId, drawn, logs);
    }
  }

  /** Every log names the first token of its email. */
  ghost predicate NamesFirstTokens(logs: seq<Created>, emails: seq<string>, drawn: nat)
    requires forall e :: 0 <= e < |logs| ==> NamesOwner(logs[e], |emails|, drawn)
  {
    forall e :: 0 <= e < |logs| ==> NamesFirstToken(logs[e], emails, drawn)
  }

  predicate NamesFirstToken(log: Created, emails: seq<string>, drawn: nat)
    requires NamesOwner(log, |emails|, drawn)
  {
    var t := log.shareHolderAddress.secret - drawn;
    FirstToken(emails, emails[t]) == t
  }

  lemma {:induction false} ExpectedIsFirst(roles: seq<Role>, vaultId: string, logs: seq<Created>, drawn: nat, e: nat)
    requires NamesOnlyOwners(logs, |AllEmails(roles)|, drawn) && e < |logs|
    ensures InvitationOf(roles, vaultId, drawn, logs, e) == Expected(roles, vaultId, drawn, logs[e]) ==>
      NamesFirstToken(logs[e], AllEmails(roles), drawn)
    ensures NamesFirstTokens(logs, AllEmails(roles), drawn) ==>
      InvitationOf(roles, vaultId, drawn, logs, e) == Expected(roles, vaultId, drawn, logs[e])
  {
    hide RoleName, AllEmails;
    var emails, secret := AllEmails(roles), logs[e].shareHolderAddress.secret;
    if NamesFirstTokens(logs, emails, drawn) { NoEarlierLog(logs, emails, drawn, e); }
  }

  lemma {:induction false} NoEarlierLog(logs: seq<Created>, emails: seq<string>, drawn: nat, e: nat)
    requires NamesOnlyOwners(logs, |emails|, drawn) && NamesFirstTokens(logs, emails, drawn) && e < |logs|
    ensures !AnyIsFor(logs[..e], emails, drawn, emails[logs[e].shareHolderAddress.secret - drawn])
  {
    var email := emails[logs[e].shareHolderAddress.secret - drawn];
    forall f | 0 <= f < e ensures !IsFor(logs[f], emails, drawn, email) {
      assert NamesFirstToken(logs[f], emails, drawn) && NamesFirstToken(logs[e], emails, drawn);
    }
  }

  /** Exactly when every owner gets its key on a first attempt: each log leads to an invitation with the
      ciphertext of the owner that it names if and only if every log names the first token of its email. */
  lemma {:induction false} EveryOwnerGetsItsKey(st: Linking, vaultId: string, snapshot: seq<Account>,
        logs: seq<Created>, drawn: nat)
    requires FirstAttempt(snapshot, st.roles, vaultId, drawn)
    requires NamesOnlyOwners(logs, |AllEmails(st.roles)|, drawn)
    requires KeysAreLeft(st.rows, vaultId, AllEmails(st.roles), drawn, [])
    ensures LinkAll(st, vaultId, false, snapshot, logs).mail == st.mail + Invitations(st.roles, vaultId, drawn, logs)
    ensures Invitations(st.roles, vaultId, drawn, logs) == AllExpected(st.roles, vaultId, drawn, logs) <==>
      NamesFirstTokens(logs, AllEmails(st.roles), drawn)
  {
    hide KeysAreLeft, FirstAttempt, InvitationOf, Expected, NamesFirstToken, NamesOwner;
    InvitationsAre(st, vaultId, snapshot, logs, drawn);
    var sent, wanted := Invitations(st.roles, vaultId, drawn, logs), AllExpected(st.roles, vaultId, drawn, logs);
    forall e | 0 <= e < |logs|
      ensures sent[e] == wanted[e] ==> NamesFirstToken(logs[e], AllEmails(st.roles), drawn)
      ensures NamesFirstTokens(logs, AllEmails(st.roles), drawn) ==> sent[e] == wanted[e]
    {
      ExpectedIsFirst(st.roles, vaultId, logs, drawn, e);
    }
  }

  /** For a receipt that names every owner this asks for distinct emails, no more and no less. */
  lemma {:induction false} FirstTokensMeanDistinct(logs: seq<Created>, emails: seq<string>, drawn: nat)
    requires NamesOnlyOwners(logs, |emails|, drawn)
    ensures Distinct(emails) ==> NamesFirstTokens(logs, emails, drawn)
    ensures NamesEachOwnerOnce(logs, |emails|, drawn) && NamesFirstTokens(logs, emails, drawn) ==> Distinct(emails)
  {
    if NamesEachOwnerOnce(logs, |emails|, drawn) && NamesFirstTokens(logs, emails, drawn) {
      forall p, q | 0 <= p < q < |emails| ensures emails[p] != emails[q] {
        var e := LogOf(logs, Wallet(drawn + q));
        assert NamesFirstToken(logs[e], emails, drawn);
      }
    }
  }

  /** The ciphertext is in one of these invitations. */
  ghost predicate IsMailed(mail: seq<Invitation>, c: Option<Ciphertext>) {
    exists k :: 0 <= k < |mail| && mail[k].encrypted == c
  }

  /** A row keeps its key, and its ciphertext too unless that was mailed. */
  predicate KeepsOrMails(a: Account, later: Account, mailed: bool) {
    later == a || (mailed && a.encrypted.Some? && later == a.(encrypted := None))
  }

  /** Whatever the receipt, linking keeps every key, and takes no ciphertext out of a row without mailing it. */
  lemma {:induction false} LinkingMailsWhatItTakes(st: Linking, vaultId: string, selfManaged: bool,
                                                   snapshot: seq<Account>,
                                                   logs: seq<Created>, i: nat)
    requires i < |st.rows|
    ensures var later := LinkAll(st, vaultId, selfManaged, snapshot, logs);
      && |later.rows| == |st.rows| && st.mail <= later.mail
      && KeepsOrMails(st.rows[i], later.rows[i], IsMailed(later.mail[|st.mail|..], st.rows[i].encrypted))
  {
    if logs != [] {
      var before := logs[..|logs| - 1];
      LinkingMailsWhatItTakes(st, vaultId, selfManaged, snapshot, before, i);
      var mid := LinkAll(st, vaultId, selfManaged, snapshot, before);
      var later := LinkOne(mid, vaultId, selfManaged, snapshot, Last(logs));
      assert mid.mail <= later.mail;
      if IsMailed(mid.mail[|st.mail|..], st.rows[i].encrypted) {
        MailedStays(mid.mail[|st.mail|..], later.mail[|st.mail|..], st.rows[i].encrypted);
      }
      if later.rows[i] != mid.rows[i] {
        assert Last(later.mail).encrypted == mid.rows[i].encrypted;
        assert Last(later.mail) == later.mail[|st.mail|..][|later.mail| - |st.mail| - 1];
      }
    }
  }

  lemma {:induction false} MailedStays(mail: seq<Invitation>, more: seq<Invitation>, c: Option<Ciphertext>)
    requires mail <= more && IsMailed(mail, c)
    ensures IsMailed(more, c)
  {
    var k :| 0 <= k < |mail| && mail[k].encrypted == c;
    assert more[k].encrypted == c;
  }

  lemma {:induction false} SameRoleName(roles: seq<Role>, later: seq<Role>, email: string)
    requires SameButAddress(roles, later)
    ensures RoleName(roles, email) == RoleName(later, email)
  {
    RoleOfIsStable(roles, later, email);
    var i := RoleOf(roles, email);
    assert i < |roles| ==> later[i].name == roles[i].name;
  }
}
