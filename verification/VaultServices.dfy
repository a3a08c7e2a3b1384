/** The services of vault creation in their own, imperative form. Each method is proved to do exactly
    what the transition systems of VaultTables and BatchProtocol say. */
module VaultServices {
  import opened Prelude
  import opened ClaimAccounts
  import opened TokenAllocation
  import opened AddressLinking
  import opened KeyAgreement
  import opened VaultTables
  import opened BatchProtocol

  /** A vault of the creation request. */
  datatype VaultConfig = VaultConfig(roles: seq<Role>, agreeToTOSAndPP: bool, selfManaged: bool)

  function NewVault(config: VaultConfig): Vault {
    Vault(config.roles, None, None, None, None, config.selfManaged)
  }

  /** The record has the roles of the configuration and is managed as that says; nothing has happened to it. */
  predicate IsNew(vault: Vault, config: VaultConfig) {
    && vault.roles == config.roles && vault.selfManaged == config.selfManaged
    && vault.transactionStatus.None? && vault.transactionHash.None?
    && vault.vaultAddress.None? && vault.shareholderManagerAddress.None?
  }

  /** What createVault demands. */
  predicate Acceptable(config: VaultConfig) {
    config.agreeToTOSAndPP && EmailsAreUnique(config.roles)
  }

  /** How many vaults createVaults creates before one is refused. */
  function Accepted(configs: seq<VaultConfig>): (n: nat)
    ensures n <= |configs|
    ensures forall k :: 0 <= k < n ==> Acceptable(configs[k])
    ensures n < |configs| ==> !Acceptable(configs[n])
  {
    if configs == [] || !Acceptable(configs[0]) then 0 else 1 + Accepted(configs[1..])
  }

  /** The vault table after the first n vaults were created. */
  function WithVaults(vaults: map<string, Vault>, ids: seq<string>, configs: seq<VaultConfig>,
                      n: nat): map<string, Vault>
    requires n <= |ids| && n <= |configs|
  {
    if n == 0 then vaults else WithVaults(vaults, ids, configs, n - 1)[ids[n - 1] := NewVault(configs[n - 1])]
  }

  function CreatedVaults(ids: seq<string>, configs: seq<VaultConfig>, n: nat): seq<BatchVault>
    requires n <= |ids| && n <= |configs|
  {
    seq(n, k requires 0 <= k < n => BatchVault(Some(ids[k]), Some(NewVault(configs[k]))))
  }

  lemma {:induction false} NewVaultIsNew(config: VaultConfig)
    ensures IsNew(NewVault(config), config)
  {}

  /** Each of the first n has its own new record, and all others are as before. */
  ghost predicate HasCreated(vaults: map<string, Vault>, later: map<string, Vault>, ids: seq<string>,
                             configs: seq<VaultConfig>, n: nat)
    requires n <= |ids| == |configs|
  {
    && (forall id :: id in later <==> id in vaults || id in ids[..n])
    && (forall id :: id in vaults && id !in ids[..n] ==> later[id] == vaults[id])
    && (forall k :: 0 <= k < n ==> ids[k] in later && IsNew(later[ids[k]], configs[k]))
  }

  lemma {:induction false} OneMoreCreated(vaults: map<string, Vault>, mid: map<string, Vault>, ids: seq<string>,
                                          configs: seq<VaultConfig>, n: nat, record: Vault)
    requires n < |ids| == |configs| && Distinct(ids) && HasCreated(vaults, mid, ids, configs, n)
    requires IsNew(record, configs[n])
    ensures HasCreated(vaults, mid[ids[n] := record], ids, configs, n + 1)
  {
    hide IsNew;
    var later := mid[ids[n] := record];
    assert ids[..n + 1] == ids[..n] + [ids[n]];
    forall k | 0 <= k < n + 1 ensures ids[k] in later && IsNew(later[ids[k]], configs[k]) {
      if k < n { assert ids[k] != ids[n]; }
    }
  }

  /** Which is so after n vaults were created, and the batch lists them in order, with these records as copies. */
  lemma {:induction false} CreatedAre(vaults: map<string, Vault>, ids: seq<string>, configs: seq<VaultConfig>, n: nat)
    requires n <= |ids| == |configs| && Distinct(ids)
    ensures var later, listed := WithVaults(vaults, ids, configs, n), CreatedVaults(ids, configs, n);
      && HasCreated(vaults, later, ids, configs, n)
      && |listed| == n
      && forall k :: 0 <= k < n ==> ids[k] in later && listed[k] == BatchVault(Some(ids[k]), Some(later[ids[k]]))
  {
    hide HasCreated, IsNew, NewVault;
    if n == 0 {
      assert HasCreated(vaults, vaults, ids, configs, 0) by { NoneCreated(vaults, ids, configs); }
    } else {
      CreatedAre(vaults, ids, configs, n - 1);
      NewVaultIsNew(configs[n - 1]);
      OneMoreCreated(vaults, WithVaults(vaults, ids, configs, n - 1), ids, configs, n - 1, NewVault(configs[n - 1]));
      ListedBefore(ids, configs, n);
    }
  }

  lemma {:induction false} NoneCreated(vaults: map<string, Vault>, ids: seq<string>, configs: seq<VaultConfig>)
    requires |ids| == |configs|
    ensures HasCreated(vaults, vaults, ids, configs, 0)
  {}

  lemma {:induction false} ListedBefore(ids: seq<string>, configs: seq<VaultConfig>, n: nat)
    requires 0 < n <= |ids| == |configs|
    ensures CreatedVaults(ids, configs, n) ==
      CreatedVaults(ids, configs, n - 1) + [BatchVault(Some(ids[n - 1]), Some(NewVault(configs[n - 1])))]
  {}

  class CreatorHandlerService {
    const accounts: ShareholdersClaimAccountsService
    var vaults: map<string, Vault>
    var mail: seq<Invitation>
    var sent: seq<Submission>
    ghost var flights: map<string, Flight>

    ghost function State(): Tables
      reads this, accounts
    {
      Tables(vaults, flights, accounts.rows, accounts.drawn, mail, sent)
    }

    constructor (accounts: ShareholdersClaimAccountsService)
      requires accounts.rows == [] && accounts.drawn == 0
      ensures this.accounts == accounts && State() == EMPTY
    {
      this.accounts := accounts;
      vaults, mail, sent, flights := map[], [], [], map[];
    }

    /** createVault of vault.service.ts; `id` is the generated one. */
    method CreateVault(id: string, config: VaultConfig) returns (threw: bool)
      requires id !in vaults
      modifies this`vaults
      ensures threw <==> !Acceptable(config)
      ensures threw <==>
        !config.agreeToTOSAndPP ||
        exists i, j :: 0 <= i < j < |config.roles| && FirstEmail(config.roles[i]) == FirstEmail(config.roles[j])
      ensures threw ==> vaults == old(vaults)
      ensures !threw ==> vaults == old(vaults)[id := NewVault(config)] && IsNew(vaults[id], config)
    {
      GuardMeansDistinctFirstEmails(config.roles);
      if !config.agreeToTOSAndPP { return true; }
      var foundMatching := false;
      for current := 0 to |config.roles|
        invariant foundMatching <==>
          !(forall k :: 0 <= k < current ==> FirstEmailIsUnique(config.roles, k))
      {
        var foundMatchingIndex := OtherWithSameFirstEmail(config.roles, current, 0);
        assert FirstEmailIsUnique(config.roles, current) <==> foundMatchingIndex == -1;
        if foundMatchingIndex > -1 { foundMatching := true; }
      }
      if foundMatching { return true; }
      vaults := vaults[id := Vault(config.roles, None, None, None, None, config.selfManaged)];
      threw := false;
    }

    method SendVaultInvitationsWithAddress(vaultId: string, email: string, address: Address, roleName: string)
      modifies this`mail, accounts`rows
      ensures var (rows, encrypted) := HandOut(old(accounts.rows), vaultId, email);
        accounts.rows == rows && mail == old(mail) + [Invitation(vaultId, email, roleName, encrypted, address)]
    {
      var encrypted := accounts.GeneratePrivateKeyForShareholderClaimAccount(email, vaultId);
      mail := mail + [Invitation(vaultId, email, roleName, encrypted, address)];
    }

    /** The body of the linking loop: the role's new address, and the invitation. */
    method LinkAddress(roles: seq<Role>, vaultId: string, selfManaged: bool, parsed: seq<Account>, log: Created)
      returns (linked: seq<Role>)
      modifies this`mail, accounts`rows
      ensures Linking(linked, accounts.rows, mail) ==
        LinkOne(Linking(roles, old(accounts.rows), old(mail)), vaultId, selfManaged, parsed, log)
    {
      linked := roles;
      if log.shareHolderVaultAddress.Some? {
        var address := log.shareHolderVaultAddress.value;
        var u := OwnerOf(parsed, log.shareHolderAddress);
        if u < |parsed| {
          var email := parsed[u].userEmail;
          var i := RoleOf(linked, email);
          var roleName := RoleName(linked, email);
          if i < |linked| { linked := linked[i := linked[i].(shareHolderRoleAddress := Some(address))]; }
          if !selfManaged { SendVaultInvitationsWithAddress(vaultId, email, address, roleName); }
        }
      }
    }

    /** `receipt` is what the chain answers for the transaction hash. */
    method UpdateVaultTransactionDetails(vaultId: string, hash: Option<string>, status: TransactionStatus,
                                         receipt: Option<Receipt>)
      returns (threw: bool)
      modifies this`vaults, this`mail, accounts`rows
      ensures threw <==> vaultId !in old(vaults)
      ensures threw ==> vaults == old(vaults) && mail == old(mail) && accounts.rows == old(accounts.rows)
      ensures !threw ==>
        var e := ApplyEvent(old(vaults)[vaultId], old(accounts.rows), old(mail), vaultId, hash, status, receipt);
        vaults == old(vaults)[vaultId := e.vault] && mail == e.mail && accounts.rows == e.rows
    {
      if vaultId !in vaults { return true; }
      threw := false;
      var databaseRecord := vaults[vaultId];
      var hasHash := hash.Some? && hash.value != "";
      if hasHash { databaseRecord := databaseRecord.(transactionHash := hash); }
      databaseRecord := databaseRecord.(transactionStatus := Some(status));
      if status == SUCCESSFUL && hasHash && receipt.Some? {
        var r := receipt.value;
        databaseRecord := databaseRecord.(shareholderManagerAddress := r.managerAddress);
        if r.distributionAddress.Some? { databaseRecord := databaseRecord.(vaultAddress := r.distributionAddress); }
        var parsed := accounts.QueryByVault(vaultId);
        var roles := databaseRecord.roles;
        ghost var start := Linking(roles, accounts.rows, mail);
        for k := 0 to |r.created|
          invariant vaults == old(vaults)
          invariant Linking(roles, accounts.rows, mail) ==
            LinkAll(start, vaultId, databaseRecord.selfManaged, parsed, r.created[..k])
        {
          assert r.created[..k + 1][..k] == r.created[..k];
          roles := LinkAddress(roles, vaultId, databaseRecord.selfManaged, parsed, r.created[k]);
        }
        assert r.created[..|r.created|] == r.created;
        databaseRecord := databaseRecord.(roles := roles);
      }
      vaults := vaults[vaultId := databaseRecord];
    }

    /** Anything on the way may throw: `breaksAfter` says after how many accounts. */
    method ProcessCreatorConfigSubmission(vaultId: string, taskToken: Option<nat>, breaksAfter: Option<nat>)
      returns (error: Option<SubmissionError>, broke: bool)
      modifies this, accounts
      ensures error == SubmissionGuard(Lookup(old(vaults), vaultId))
      ensures error.Some? ==> !broke && State() == old(State())
      ensures error.None? ==>
        && (broke <==> Breaks(breaksAfter, |AllEmails(old(vaults)[vaultId].roles)|))
        && State() ==
             if broke then Broken(old(State()), vaultId, breaksAfter.value) else Submitted(old(State()), vaultId,
                                                                                           taskToken)
    {
      broke := false;
      if vaultId !in vaults { return Some(VaultNotFound), false; }
      var vaultRecord := vaults[vaultId];
      if vaultRecord.transactionStatus == Some(SUCCESSFUL) { return Some(VaultAlreadyCreated), false; }
      if vaultRecord.transactionStatus == Some(SUBMITTED) { return Some(TransactionSubmitted), false; }
      if vaultRecord.transactionStatus == Some(CREATED) { return Some(TransactionCreated), false; }
      var start := accounts.drawn;
      var shareOwners := AllocateTokens(accounts, vaultRecord.roles, vaultId, breaksAfter);
      broke := breaksAfter == Some(|shareOwners|);
      sent := sent + [Submission(vaultId, shareOwners, start, !broke)];
      if !broke {
        flights := flights[vaultId := Flight(None, taskToken)];
        assert AllEmails(vaultRecord.roles)[..|shareOwners|] == AllEmails(vaultRecord.roles);
      }
      error := None;
    }
  }

  datatype TaskResult = TaskSucceeded(token: nat) | TaskFailed(token: nat)

  class EvmTransactionEventsHandlerService {
    const creatorHandler: CreatorHandlerService
    var monitored: seq<string>
    var tasks: seq<TaskResult>

    constructor (creatorHandler: CreatorHandlerService)
      ensures this.creatorHandler == creatorHandler && monitored == [] && tasks == []
    {
      this.creatorHandler := creatorHandler;
      monitored, tasks := [], [];
    }

    /** A VAULT_CREATION event: a success starts monitoring and completes its task token, a
        rejection erases the keys and fails its token, any other status only goes into the vault record. */
    method HandleEvmTransactionEvent(vaultId: string, hash: Option<string>, status: TransactionStatus,
                                     receipt: Option<Receipt>, taskToken: Option<nat>) returns (threw: bool)
      modifies this, creatorHandler`vaults, creatorHandler`mail, creatorHandler`flights, creatorHandler.accounts`rows
      ensures threw <==> vaultId !in old(creatorHandler.vaults)
      ensures creatorHandler.State() ==
        if threw then old(creatorHandler.State())
        else Notified(old(creatorHandler.State()), vaultId, status, hash, receipt)
      ensures monitored == old(monitored) + if !threw && status == SUCCESSFUL then [vaultId] else []
      ensures tasks == old(tasks) +
        if threw || taskToken.None? then []
        else match status
          case SUCCESSFUL => [TaskSucceeded(taskToken.value)]
          case REJECTED => [TaskFailed(taskToken.value)]
          case _ => []
    {
      threw := creatorHandler.UpdateVaultTransactionDetails(vaultId, hash, status, receipt);
      if threw { return; }
      if status == SUCCESSFUL {
        monitored := monitored + [vaultId];
        if taskToken.Some? { tasks := tasks + [TaskSucceeded(taskToken.value)]; }
      } else if status == REJECTED {
        creatorHandler.accounts.RemovePrivateKeyWhenCreationFailed(vaultId);
        if taskToken.Some? { tasks := tasks + [TaskFailed(taskToken.value)]; }
      }
      ghost var flights := creatorHandler.flights;
      creatorHandler.flights :=
        if vaultId in flights then flights[vaultId := flights[vaultId].(last := Some(status))] else flights;
    }
  }

  class VaultsCreatorService {
    const creatorHandler: CreatorHandlerService
    var batches: map<string, Batch>

    constructor (creatorHandler: CreatorHandlerService)
      ensures this.creatorHandler == creatorHandler && batches == map[]
    {
      this.creatorHandler := creatorHandler;
      batches := map[];
    }

    method ChangeVaultsStatus(id: string, status: BatchStatus) returns (threw: bool)
      modifies this
      ensures threw <==> id !in old(batches)
      ensures batches == if threw then old(batches) else old(batches)[id := old(batches)[id].(status := status)]
    {
      if id !in batches { return true; }
      var record := batches[id];
      record := record.(status := status);
      batches := batches[id := record];
      threw := false;
    }

    method UpdateVaultByIds(id: string, vaultId: string) returns (threw: bool)
      modifies this
      ensures threw <==> id !in old(batches) || vaultId !in creatorHandler.vaults
      ensures batches ==
        if threw then old(batches)
        else old(batches)[id := WithCopy(old(batches)[id], vaultId, creatorHandler.vaults[vaultId])]
    {
      if id !in batches || vaultId !in creatorHandler.vaults { return true; }
      threw := false;
      var vaultsRecord := batches[id];
      var index := 0;
      while index < |vaultsRecord.vaults| && vaultsRecord.vaults[index].id != Some(vaultId)
        invariant 0 <= index <= |vaultsRecord.vaults|
        invariant forall j :: 0 <= j < index ==> vaultsRecord.vaults[j].id != Some(vaultId)
      {
        index := index + 1;
      }
      if index < |vaultsRecord.vaults| {
        var copy := BatchVault(Some(vaultId), Some(creatorHandler.vaults[vaultId]));
        vaultsRecord := vaultsRecord.(vaults := vaultsRecord.vaults[index := copy]);
      }
      batches := batches[id := vaultsRecord];
    }

    /** The catch block writes REJECTED before it rethrows, whatever threw. A task token is named by its index. */
    method CreateSeparatedVault(id: string, vaultIndex: nat, breaksAfter: Option<nat>) returns (threw: bool)
      modifies this, creatorHandler, creatorHandler.accounts
      ensures id !in old(batches) ==>
        threw && batches == old(batches) && creatorHandler.State() == old(creatorHandler.State())
      ensures id in old(batches) ==>
        var (batch, tables, fails) := SeparatedVault(old(batches)[id], old(creatorHandler.State()), vaultIndex,
                                                     breaksAfter);
        batches == old(batches)[id := batch] && creatorHandler.State() == tables && threw == fails
    {
      if id !in batches { return true; }
      threw := false;
      var record := batches[id];
      if vaultIndex < |record.vaults| && record.vaults[vaultIndex].id.Some? {
        var vaultId := record.vaults[vaultIndex].id.value;
        var error, broke := creatorHandler.ProcessCreatorConfigSubmission(vaultId, Some(vaultIndex), breaksAfter);
        if error.Some? || broke {
          var _ := ChangeVaultsStatus(id, Rejected);
          return true;
        }
      }
      assert batches == batches[id := batches[id]];
    }

    method ProcessCreationTransactionStatus(id: string, vaultIndex: nat) returns (threw: bool)
      modifies this
      ensures id !in old(batches) ==> threw && batches == old(batches)
      ensures id in old(batches) ==>
        var (batch, fails) := ProcessStatus(old(batches)[id], creatorHandler.vaults, vaultIndex);
        batches == old(batches)[id := batch] && threw == fails
    {
      if id !in batches { return true; }
      threw := false;
      var record := batches[id];
      if vaultIndex < |record.vaults| && record.vaults[vaultIndex].id.Some? {
        var vaultId := record.vaults[vaultIndex].id.value;
        if vaultId !in creatorHandler.vaults {
          var _ := ChangeVaultsStatus(id, Rejected);
          return true;
        }
        var status := creatorHandler.vaults[vaultId].transactionStatus;
        if status == Some(REJECTED) {
          var _ := ChangeVaultsStatus(id, Rejected);  // once before the throw,
          var _ := ChangeVaultsStatus(id, Rejected);  // and once more in the catch block
          assert batches == old(batches)[id := old(batches)[id].(status := Rejected)];
          return true;
        }
        if status == Some(SUCCESSFUL) {
          var _ := UpdateVaultByIds(id, vaultId);
          if |record.vaults| - 1 == vaultIndex { var _ := ChangeVaultsStatus(id, Success); }
        }
      }
      assert batches == old(batches)[id := batches[id]];
    }

    /** The event is already on its way when PROCESSING is written, and a failed entry throws after it. */
    method SendEvent(id: string, failed: bool) returns (threw: bool)
      modifies this
      ensures threw <==> failed || id !in old(batches)
      ensures batches ==
        if id in old(batches) then old(batches)[id := old(batches)[id].(status := Processing)] else old(batches)
    {
      var missing := ChangeVaultsStatus(id, Processing);
      threw := failed || missing;
    }

    /** `id` and `ids` are the generated ids. Vaults created before a refused one stay in the table, and
        then the batch record stays CREATED, without ids. */
    method CreateVaults(id: string, configs: seq<VaultConfig>, ids: seq<string>, sendFails: bool) returns (threw: bool)
      requires id !in batches && |ids| == |configs| && Distinct(ids)
      requires forall k :: 0 <= k < |ids| ==> ids[k] !in creatorHandler.vaults
      modifies this, creatorHandler`vaults
      ensures var n := if configs == [] || !configs[0].agreeToTOSAndPP then 0 else Accepted(configs);
        && creatorHandler.vaults == WithVaults(old(creatorHandler.vaults), ids, configs, n)
        && batches == (
             if configs == [] || !configs[0].agreeToTOSAndPP then old(batches)
             else if n < |configs|
             then old(batches)[id := Batch(BatchStatus.Created, seq(|configs|, _ => BatchVault(None, None)))]
             else old(batches)[id := Batch(Processing, CreatedVaults(ids, configs, n))])
        && (threw <==> configs == [] || n < |configs| || sendFails)
        && (!threw ==> forall k :: 0 <= k < |configs| ==>
              && configs[k].agreeToTOSAndPP
              && ids[k] in creatorHandler.vaults && IsNew(creatorHandler.vaults[ids[k]], configs[k]))
      ensures id in batches ==> DistinctIds(batches[id].vaults)
    {
      hide IsNew, NewVault, EmailsAreUnique;
      if configs == [] || !configs[0].agreeToTOSAndPP { return true; }
      batches := batches[id := Batch(BatchStatus.Created, seq(|configs|, _ => BatchVault(None, None)))];
      ghost var stored := batches;
      var databaseVaults: seq<BatchVault> := [];
      for k := 0 to |configs|
        invariant batches == stored
        invariant forall j :: 0 <= j < k ==> Acceptable(configs[j])
        invariant forall j :: k <= j < |ids| ==> ids[j] !in creatorHandler.vaults
        invariant creatorHandler.vaults == WithVaults(old(creatorHandler.vaults), ids, configs, k)
        invariant databaseVaults == CreatedVaults(ids, configs, k)
      {
        var refused := creatorHandler.CreateVault(ids[k], configs[k]);
        if refused {
          assert k == Accepted(configs);
          return true;
        }
        databaseVaults := databaseVaults + [BatchVault(Some(ids[k]), Some(creatorHandler.vaults[ids[k]]))];
      }
      CreatedAre(old(creatorHandler.vaults), ids, configs, |configs|);
      batches := batches[id := batches[id].(vaults := databaseVaults)];
      threw := SendEvent(id, sendFails);
    }
  }
}
