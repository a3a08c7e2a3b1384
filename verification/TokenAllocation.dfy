/** Vault records, the uniqueness guard of createVault (vault.service.ts) and the allocation of
    token ids and claim accounts at submission (creator-handler.service.ts). */
module TokenAllocation {
  import opened Prelude
  import opened ClaimAccounts

  /** `sharePercentage` counts hundredths of a percent. */
  datatype Role = Role(name: string, emails: seq<string>, sharePercentage: nat, shareHolderRoleAddress: Option<Address>)

  datatype TransactionStatus = CREATED | SUBMITTED | SUCCESSFUL | REJECTED

  datatype Vault = Vault(
    roles: seq<Role>, transactionStatus: Option<TransactionStatus>, transactionHash: Option<string>,
    vaultAddress: Option<Address>, shareholderManagerAddress: Option<Address>, selfManaged: bool)

  datatype ShareOwner = ShareOwner(tokenId: nat, owner: Address)

  /** All emails, role by role: the order in which tokens are numbered. */
  function AllEmails(roles: seq<Role>): seq<string> {
    if roles == [] then [] else AllEmails(roles[..|roles| - 1]) + Last(roles).emails
  }

  /** The number of emails of the roles before role i. */
  function Offset(roles: seq<Role>, i: nat): nat
    requires i <= |roles|
  {
    if i == 0 then 0 else Offset(roles, i - 1) + |roles[i - 1].emails|
  }

  lemma {:induction false} OffsetOfPrefix(roles: seq<Role>, n: nat, i: nat)
    requires i <= n <= |roles|
    ensures Offset(roles[..n], i) == Offset(roles, i)
  {
    if i > 0 { OffsetOfPrefix(roles, n, i - 1); }
  }

  lemma {:induction false} OffsetsGrow(roles: seq<Role>, i: nat, j: nat)
    requires i <= j <= |roles|
    ensures Offset(roles, i) <= Offset(roles, j)
  {
    if i < j { OffsetsGrow(roles, i, j - 1); }
  }

  /** The j-th email of role i has token id Offset(i) + j, and all ids are used. */
  lemma {:induction false} TokenOfEmail(roles: seq<Role>, i: nat, j: nat)
    requires i < |roles| && j < |roles[i].emails|
    ensures |AllEmails(roles)| == Offset(roles, |roles|)
    ensures Offset(roles, i) + j < |AllEmails(roles)|
    ensures AllEmails(roles)[Offset(roles, i) + j] == roles[i].emails[j]
  {
    var n := |roles| - 1;
    var before := roles[..n];
    OffsetOfPrefix(roles, n, n);
    AllEmailsLength(before);
    OffsetOfPrefix(roles, n, i);
    if i < n {
      TokenOfEmail(before, i, j);
    }
  }

  lemma {:induction false} AllEmailsLength(roles: seq<Role>)
    ensures |AllEmails(roles)| == Offset(roles, |roles|)
  {
    if roles != [] {
      var n := |roles| - 1;
      AllEmailsLength(roles[..n]);
      OffsetOfPrefix(roles, n, n);
    }
  }

  /** Token t is that of the j-th email of role i. */
  predicate HasToken(roles: seq<Role>, i: nat, j: nat, t: nat) {
    i < |roles| && j < |roles[i].emails| && t == Offset(roles, i) + j
  }

  /** Conversely every token id belongs to exactly one email of one role. */
  lemma {:induction false} EmailOfToken(roles: seq<Role>, t: nat) returns (i: nat, j: nat)
    requires t < |AllEmails(roles)|
    ensures HasToken(roles, i, j, t)
    ensures forall k: nat, l: nat :: HasToken(roles, k, l, t) ==> k == i && l == j
  {
    var n := |roles| - 1;
    AllEmailsLength(roles[..n]);
    OffsetOfPrefix(roles, n, n);
    if t < |AllEmails(roles[..n])| {
      i, j := EmailOfToken(roles[..n], t);
      OffsetOfPrefix(roles, n, i);
    } else {
      i, j := n, t - Offset(roles, n);
    }
    forall k: nat, l: nat | HasToken(roles, k, l, t)
      ensures k == i && l == j
    {
      if k < i { OffsetsGrow(roles, k + 1, i); }
      if i < k { OffsetsGrow(roles, i + 1, k); }
    }
  }

  predicate TokensFollowRoles(roles: seq<Role>) {
    forall i :: 0 <= i < |roles| ==> Offset(roles, i) == i
  }

  /** The dashboards look a role's token up by the role's index. That is its first token for every
      role exactly when every role but the last has one email. */
  lemma {:induction false} RoleIndexIsFirstToken(roles: seq<Role>)
    ensures TokensFollowRoles(roles) <==> (forall i :: 0 <= i < |roles| - 1 ==> |roles[i].emails| == 1)
  {
    if TokensFollowRoles(roles) {
      forall i | 0 <= i < |roles| - 1 ensures |roles[i].emails| == 1 {
        assert Offset(roles, i) == i && Offset(roles, i + 1) == i + 1;
      }
    }
    if forall i :: 0 <= i < |roles| - 1 ==> |roles[i].emails| == 1 {
      forall i | 0 <= i < |roles| ensures Offset(roles, i) == i {
        SingleEmailsCount(roles, i);
      }
    }
  }

  lemma {:induction false} SingleEmailsCount(roles: seq<Role>, i: nat)
    requires i <= |roles| && forall k :: 0 <= k < i ==> |roles[k].emails| == 1
    ensures Offset(roles, i) == i
  {
    if i > 0 { SingleEmailsCount(roles, i - 1); }
  }

  // ---------------------------------------------------------------- the guard of createVault

  function FirstEmail(r: Role): Option<string> {
    if r.emails == [] then None else Some(r.emails[0])
  }

  /** Array.findIndex for another role with the same first email; -1 when there is none. */
  function OtherWithSameFirstEmail(roles: seq<Role>, current: nat, from: nat): (i: int)
    requires current < |roles| && from <= |roles|
    ensures i == -1 || (from <= i < |roles| && i != current && FirstEmail(roles[i]) == FirstEmail(roles[current]))
    ensures i == -1 ==> forall k :: from <= k < |roles| && k != current ==>
      FirstEmail(roles[k]) != FirstEmail(roles[current])
    decreases |roles| - from
  {
    if from == |roles| then -1
    else if FirstEmail(roles[from]) == FirstEmail(roles[current]) && current != from then from
    else OtherWithSameFirstEmail(roles, current, from + 1)
  }

  predicate FirstEmailIsUnique(roles: seq<Role>, current: nat)
    requires current < |roles|
  {
    OtherWithSameFirstEmail(roles, current, 0) == -1
  }

  /** `foundMatching.length > 0` means rejection. */
  predicate EmailsAreUnique(roles: seq<Role>) {
    forall current :: 0 <= current < |roles| ==> FirstEmailIsUnique(roles, current)
  }

  /** The guard accepts exactly the vaults whose first emails are pairwise distinct. A role without
      emails counts as one more value, so two such roles are rejected too. */
  lemma {:induction false} GuardMeansDistinctFirstEmails(roles: seq<Role>)
    ensures EmailsAreUnique(roles) <==>
      forall i, j :: 0 <= i < j < |roles| ==> FirstEmail(roles[i]) != FirstEmail(roles[j])
  {
    if EmailsAreUnique(roles) {
      forall i, j | 0 <= i < j < |roles| ensures FirstEmail(roles[i]) != FirstEmail(roles[j]) {
        assert FirstEmailIsUnique(roles, i);
      }
    }
  }

  /** No role's first email is also that of another token. */
  ghost predicate FirstEmailsOccurOnce(roles: seq<Role>) {
    forall i, t :: 0 <= i < |roles| && roles[i].emails != [] && 0 <= t < |AllEmails(roles)| ==>
      AllEmails(roles)[t] == roles[i].emails[0] ==> t == Offset(roles, i)
  }

  lemma {:induction false} DistinctEmailsOccurOnce(roles: seq<Role>)
    requires Distinct(AllEmails(roles))
    ensures FirstEmailsOccurOnce(roles)
  {
    forall i, t | 0 <= i < |roles| && roles[i].emails != [] && 0 <= t < |AllEmails(roles)| &&
      AllEmails(roles)[t] == roles[i].emails[0]
      ensures t == Offset(roles, i)
    {
      TokenOfEmail(roles, i, 0);
    }
  }

  /** For vaults with one email per role the guard makes all emails distinct. */
  lemma {:induction false} GuardProtectsSingleEmails(roles: seq<Role>)
    requires forall r :: r in roles ==> |r.emails| == 1
    ensures EmailsAreUnique(roles) <==> Distinct(AllEmails(roles))
  {
    GuardMeansDistinctFirstEmails(roles);
    AllEmailsLength(roles);
    SingleEmailsCount(roles, |roles|);
    forall i | 0 <= i < |roles|
      ensures AllEmails(roles)[i] == roles[i].emails[0] && FirstEmail(roles[i]) == Some(AllEmails(roles)[i])
    {
      assert roles[i] in roles;
      TokenOfEmail(roles, i, 0);
      SingleEmailsCount(roles, i);
    }
    if EmailsAreUnique(roles) {
      forall i, j | 0 <= i < j < |AllEmails(roles)| ensures AllEmails(roles)[i] != AllEmails(roles)[j] {
        assert FirstEmail(roles[i]) != FirstEmail(roles[j]);
      }
    }
  }

  /** The guard looks at first emails only: a later email of one role may be the first of another. */
  lemma {:induction false} GuardLetsSharedEmailsThrough(a: Role, b: Role)
    requires a.emails == ["a", "b"] && b.emails == ["b"]
    ensures EmailsAreUnique([a, b]) && !Distinct(AllEmails([a, b]))
  {
    GuardMeansDistinctFirstEmails([a, b]);
    assert "a"[0] != "b"[0];
    TokenOfEmail([a, b], 0, 1);
    TokenOfEmail([a, b], 1, 0);
    assert AllEmails([a, b])[1] == AllEmails([a, b])[2];
  }

  // ---------------------------------------------------------------- submission

  /** The claim accounts that a submission creates, one per token, in token order. */
  function NewAccounts(emails: seq<string>, vaultId: string, drawn: nat): seq<Account> {
    seq(|emails|, t requires 0 <= t < |emails| => NewAccount(emails[t], vaultId, t, drawn + t))
  }

  function NewOwners(count: nat, drawn: nat): seq<ShareOwner> {
    seq(count, t requires 0 <= t < count => ShareOwner(t, Wallet(drawn + t)))
  }

  datatype SubmissionError = VaultNotFound | VaultAlreadyCreated | TransactionSubmitted | TransactionCreated

  /** The guards of processCreatorConfigSubmission, in order. */
  function SubmissionGuard(vault: Option<Vault>): Option<SubmissionError> {
    match vault
    case None => Some(VaultNotFound)
    case Some(v) =>
      if v.transactionStatus == Some(SUCCESSFUL) then Some(VaultAlreadyCreated)
      else if v.transactionStatus == Some(SUBMITTED) then Some(TransactionSubmitted)
      else if v.transactionStatus == Some(CREATED) then Some(TransactionCreated)
      else None
  }

  /** Whether a submission of n tokens throws on the way; `breaksAfter` says after how many accounts. */
  predicate Breaks(breaksAfter: Option<nat>, n: nat) {
    breaksAfter.Some? && breaksAfter.value <= n
  }

  /** The two nested loops: one claim account and one owner entry per email of every role. Each account
      and each upload of token metadata may throw. */
  method AllocateTokens(accounts: ShareholdersClaimAccountsService, roles: seq<Role>, vaultId: string,
                        breaksAfter: Option<nat>)
    returns (shareOwners: seq<ShareOwner>)
    modifies accounts
    ensures var emails := AllEmails(roles);
      var n := if Breaks(breaksAfter, |emails|) then breaksAfter.value else |emails|;
      && shareOwners == NewOwners(n, old(accounts.drawn))
      && accounts.rows == old(accounts.rows) + NewAccounts(emails[..n], vaultId, old(accounts.drawn))
      && accounts.drawn == old(accounts.drawn) + n
  {
    shareOwners := [];
    ghost var start, rows := accounts.drawn, accounts.rows;
    ghost var done: seq<string> := [];
    for i := 0 to |roles|
      invariant done == AllEmails(roles[..i]) && (breaksAfter.Some? ==> |done| <= breaksAfter.value)
      invariant shareOwners == NewOwners(|done|, start) && accounts.drawn == start + |done|
      invariant accounts.rows == rows + NewAccounts(done, vaultId, start)
    {
      var emails := roles[i].emails;
      for j := 0 to |emails|
        invariant done == AllEmails(roles[..i]) + emails[..j] && (breaksAfter.Some? ==> |done| <= breaksAfter.value)
        invariant shareOwners == NewOwners(|done|, start) && accounts.drawn == start + |done|
        invariant accounts.rows == rows + NewAccounts(done, vaultId, start)
      {
        EmailsUpTo(roles, i, j);
        if breaksAfter == Some(|shareOwners|) { return; }
        var address := accounts.CreateShareholderClaimAccount(emails[j], vaultId, |shareOwners|);
        var tokenId := |shareOwners|;
        shareOwners := shareOwners + [ShareOwner(tokenId, address)];
        ghost var more := done + [emails[j]];
        assert NewAccounts(more, vaultId, start) ==
          NewAccounts(done, vaultId, start) + [NewAccount(emails[j], vaultId, |done|, start + |done|)];
        assert emails[..j + 1] == emails[..j] + [emails[j]];
        done := more;
      }
      assert emails[..|emails|] == emails;
      assert roles[..i + 1][..i] == roles[..i];
    }
    assert roles[..|roles|] == roles;
    assert AllEmails(roles)[..|done|] == done;
  }

  /** The emails before the j-th of role i are the first ones of all. */
  lemma {:induction false} EmailsUpTo(roles: seq<Role>, i: nat, j: nat)
    requires i < |roles| && j < |roles[i].emails|
    ensures var done := AllEmails(roles[..i]) + roles[i].emails[..j];
      |done| < |AllEmails(roles)| && AllEmails(roles)[..|done|] == done
  {
    var n := |roles| - 1;
    var done := AllEmails(roles[..i]) + roles[i].emails[..j];
    if i == n {
      assert AllEmails(roles)[..|done|] == done;
    } else {
      EmailsUpTo(roles[..n], i, j);
      assert roles[..n][..i] == roles[..i];
      assert AllEmails(roles)[..|done|] == AllEmails(roles[..n])[..|done|];
    }
  }
}
