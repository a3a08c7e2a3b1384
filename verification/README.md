# Verified model of the vault and payment backend

This project models the parts of the backend that carry protocols, state machines or money
arithmetic, and proves properties of them for all inputs and all runs. `dafny verify dfyconfig.toml`
checks everything. DynamoDB tables are sequences or maps, `put` replaces a row, and `update` removes
the attributes that the written object omits. A request handler is one atomic step, except where
noted.

| file | component |
|---|---|
| `ClaimAccounts.dfy` | claim accounts of share holders: creation, handing out and erasing key material |
| `TokenAllocation.dfy` | the `createVault` guard, token ids and claim accounts at submission |
| `AddressLinking.dfy` | what a chain event does to a vault: status, role addresses, invitations |
| `KeyAgreement.dfy` | the invariant of accounts and invitations, and what a ciphertext opens |
| `VaultTables.dfy`, `VaultRuns.dfy` | the tables of vault creation as a transition system, and theorems over its runs |
| `VaultRecords.dfy` | what becomes of a vault's record and keys, told from its events, and that invited owners can sign |
| `SelfManagedVaults.dfy` | vaults whose keys are not mailed but asked for, until the claim is finished |
| `KeyOwnership.dfy` | whose wallet a look-up by email reaches after several attempts, broken ones included |
| `BatchProtocol.dfy` | batches of vaults and the external driver, on top of those tables |
| `BatchRuns.dfy`, `BatchScenarios.dfy` | theorems over runs of a batch, and the runs that show their conditions are needed |
| `BatchCopies.dfy` | what a successful batch record carries of its vaults |
| `VaultServices.dfy` | the services of vault creation as classes, refining the two transition systems |
| `BridgeSync.dfy`, `BridgeSyncService.dfy` | crash-tolerant ingestion of bank activities: transition system and service |
| `BridgeCompleteness.dfy` | which activities the ingestion stores in the end, which it loses, and what its rows tell of them |
| `Locker.dfy` | the coalescing lock |
| `Payout.dfy`, `FundingNotes.dfy` | payout arithmetic, and the notes and e-mails that use it |
| `TransactionQuery.dfy`, `TransactionListing.dfy`, `ListingOrder.dfy` | listing a user's transaction items: selection, counterparties, order |
| `DrainHistory.dfy` | paging through drains and adding them up per day |
| `AuditLog.dfy`, `TaxFormAccess.dfy` | access codes of tax forms and their audit |
| `Provisioning.dfy` | virtual accounts opened on demand by two services |
| `Prelude.dfy` | shared vocabulary |

## Hypotheses

These come from parts that are not in the repository, and appear as explicit conditions.

- The driver of a batch is a state machine that runs `lambdas/iterator.ts` and stops at the first
  thrown step. What it does with a failed task token is not in the repository, so both are modelled:
  it stops, or it goes on to `processCreationTransactionStatus`. Only going on makes the REJECTED branch of
  src/vaults-creator/vaults-creator.service.ts:220-223 reachable; if it stops, the batch stays PROCESSING
  (`BatchRuns.RejectedVaultOutcome`, `BatchScenarios.RejectionHappens`).
- `sendEvent` writes PROCESSING after the event is sent, so the write comes once, at any time of the run.
  `BatchRuns.OutcomeIsFinal` and `BatchRuns.FinishedLeavesSuccess` say what a late one does.
- Events of one submission come in life-cycle order, with gaps and repetitions allowed and the
  terminal one last. A vault is not submitted again between sending and its first event, which the
  guard does not notice (`VaultTables.GuardIsBlindInFlight`).
- Wallets, ciphertexts and generated ids are symbolic: fresh randomness is new, and a ciphertext opens
  with its own key only.
- Bridge activity ids determine content, a page starts directly after the cursor, and the index by
  trace number is consistent.
- A scheduled removal of a tax form code is delivered once.
- A page of drains that does not end the history is not empty. Bridge echoes customer, currency and
  destination of an account it opens.

## Where code and comments differ

The model follows the code.

- The comment at src/bridge-xyz/services/bridge-xyz.sync.service.ts:78-79 calls the stored cursor the newest activity.
  `activities.reverse()` works in place, so `activities[0]` is the OLDEST activity of the page. The
  cursor moves by one activity per completed sync, and pages overlap.
- The loop at src/bridge-xyz/services/bridge-xyz.sync.service.ts:61-65 means to skip an activity whose virtual account is
  missing. `getVirtualAccountById` throws instead, so the sync stops there until the account exists
  (`BridgeSync.BlockedActivityStalls`).
- `createVault` compares the first emails of the roles only (src/vault/vault.service.ts:276-285), and lets vaults through in
  which two tokens share an email (`TokenAllocation.GuardLetsSharedEmailsThrough`). Linking needs more: that no role's
  first email is also that of another token (`VaultRuns.SuccessLinksIffFirstEmailsOccurOnce`). Key delivery and
  rejection need all emails distinct (`VaultRuns.KeysArriveIffDistinct`, `VaultRuns.RejectionClearsIffDistinct`). With
  one email per role the guard ensures all of it (`TokenAllocation.GuardProtectsSingleEmails`).
- An activity that the cursor passes while its customer is not on record is lost for good, also when the
  customer comes later (src/bridge-xyz/services/bridge-xyz.sync.service.ts:56-59, `BridgeCompleteness.PassedIsLost`).
- A batch is SUCCESS when its last vault is (src/vaults-creator/vaults-creator.service.ts:225-228). A vault submitted
  again after its failed task token is passed over while it is pending (`BatchScenarios.SuccessCanPassOver`).
- A rejected vault's keys are meant to be erased. After a second attempt, look-ups by email reach
  the old rows and the new keys stay (`ClaimAccounts.RejectionCanLeaveKeys`).
- A submission that breaks down leaves its accounts behind (src/creator-handler/creator-handler.service.ts:191-211).
  When it is repeated, look-ups by email reach wallets that were never submitted, exactly for the tokens
  that an earlier attempt had got to (`KeyOwnership.FoundRowIsSubmitted`).
- `transformTransactions` treats a running total of NaN like a missing one and drops what came before
  (`DrainHistory.NaNForgets`).
- A tax form request that breaks down after storing its code leaves that code for ever
  (`TaxFormAccess.CodeStaysForEver`).
- A missing customer row goes unnoticed when virtual accounts are opened, and so does a failed scan
  (`Provisioning.FlagsTellTheTruth`, `Provisioning.MissingCustomerIsNotNoticed`, `Provisioning.FailedScanDuplicates`).
- Recipients are queried by exact address (src/virtual-accounts/direct-recipient.service.ts:110-126) and matched in upper and
  lower case alike (src/transaction-items/mappers/transaction-item.mapper.ts:22-24), so the receiver of an item depends on
  what is listed beside it (`TransactionListing.ReachDependsOnTheListing`).
- The put of a funding note is started before its mails and is not awaited (src/notes/notes.service.ts:128-130), so
  a note stays whose mails fail, and these are never sent again (`FundingNotes.NoSecondChance`).

## Model

| member | source | states |
|---|---|---|
| CoalescingLock.SingleFlight | src/utils/helpers.ts:38-72 | in every interleaving of calls and settlements, failing runs included, at most one run is in flight, and `locked` says whether one is |
| CoalescingLock.NoLostUpdate | src/utils/helpers.ts:47-71 | whenever the lock is free the last started run used the arguments of the last `exec` call; while it is held those are in use or stored |
| CoalescingLock.RunsAreASubsequenceOfCalls | src/utils/helpers.ts:47-71 | started runs are a subsequence of the calls, each with its own call's arguments, and never outnumber them |
| CoalescingLock.AtMostOneRunAfterLastCall | src/utils/helpers.ts:64-71 | after the last call at most one more run starts, with that call's arguments, and at most two runs settle |
| CoalescingLock.Locker.constructor | src/utils/helpers.ts:43-45 | a new lock is free and nothing is stored |
| CoalescingLock.Locker.Exec | src/utils/helpers.ts:47-62 | a call on a held lock only stores its arguments; on a free one it takes the lock and starts a run; the run stays one of the transition system |
| CoalescingLock.Locker.Settle | src/utils/helpers.ts:59-62 | a settling run frees the lock, or hands it to exactly one deferred run |
| CoalescingLock.Locker.RunDeferred | src/utils/helpers.ts:65-71 | `deffered`: the stored arguments are consumed and run once |
| BridgeSync.RowIsLatest | src/bridge-xyz/services/bridge-xyz.sync.service.ts:88-105 | every row of a deduplicated table is a newest item of its trace number among all ever stored |
| BridgeSync.LatestHasRow | src/bridge-xyz/services/bridge-xyz.sync.service.ts:88-105 | no untraced item is lost, and every trace number keeps a row as new as any stored item of it |
| BridgeSync.DedupedIsLatest | src/bridge-xyz/services/bridge-xyz.sync.service.ts:88-105 | with distinct times per trace number the table equals the specification: all untraced items and the latest item per trace number |
| BridgeSync.RunKeepsInv | src/bridge-xyz/services/bridge-xyz.sync.service.ts:43-86 | in every run, with crashes between any two store operations, the table keeps what it must, and the cursor moves by exactly one activity per saving sync and never back |
| BridgeSync.CompletedSyncIsDeduped | src/bridge-xyz/services/bridge-xyz.sync.service.ts:43-105 | after every completed sync the table is deduplicated with respect to everything ever stored, and equals the specification when times are distinct |
| BridgeSync.RunsAreConfluent | src/bridge-xyz/services/bridge-xyz.sync.service.ts:67-73 | two runs that stored the same items, in any order and with any replays and crashes, end their completed syncs with the same table |
| BridgeSync.BlockedActivityStalls | src/bridge-xyz/services/bridge-xyz.sync.service.ts:60-65 | an activity whose customer is known but whose virtual account is missing holds the cursor in every run until the account exists |
| BridgeCompleteness.KnownIsStored | src/bridge-xyz/services/bridge-xyz.sync.service.ts:52-82 | from any moment at which the customer of an activity ahead of the sync is known, the activity stays ahead or is stored |
| BridgeCompleteness.StoredWasKnown | src/bridge-xyz/services/bridge-xyz.sync.service.ts:56-69 | conversely, what a run stored was at some moment ahead of the sync with its customer on record |
| BridgeCompleteness.NothingSkipped | src/bridge-xyz/services/bridge-xyz.sync.service.ts:52-82 | an activity that the sync has got past is stored, with the right content, if and only if it was at the start or at some moment its customer was on record while it was still ahead; crashes, replays and earlier passes do not matter |
| BridgeCompleteness.CompletedPageIsStored | src/bridge-xyz/services/bridge-xyz.sync.service.ts:52-82 | the same for the whole page of a sync that just saved its cursor, although the cursor is only the page's oldest activity |
| BridgeCompleteness.PassedIsLost | src/bridge-xyz/services/bridge-xyz.sync.service.ts:56-59 | what the cursor has passed without storing it is not stored in any continuation |
| BridgeCompleteness.LateCustomerIsLost | src/bridge-xyz/services/bridge-xyz.sync.service.ts:56-82 | the run that loses it: the last activity of any feed, synced and saved before its customer comes on record |
| BridgeCompleteness.LateCustomerHappens | src/bridge-xyz/services/bridge-xyz.sync.service.ts:56-82 | the same in a concrete state |
| BridgeCompleteness.PagesAre | src/bridge-xyz/services/bridge-xyz.sync.service.ts:26-53 | a page has at most a hundred activities, begins directly behind the cursor and is full unless it reaches the newest one; without a cursor it is that of the newest hundred |
| BridgeCompleteness.RowsTellOfActivities | src/transaction-items/mappers/bridge-virtual-account.mapper.ts:4-30 | in every reachable state what is stored for an activity tells its own time, customer, account and trace number, and USD and no description where it leaves these out |
| BridgeCompleteness.NewestActivitiesStay | src/bridge-xyz/services/bridge-xyz.sync.service.ts:88-105 | after every completed sync, in terms of creation times of activities: no stored activity is newer than one of the same trace number that has a row |
| BridgeCompleteness.NewestActivityIsKept | src/bridge-xyz/services/bridge-xyz.sync.service.ts:88-105 | and an activity newer than all others stored with its trace number has a row that tells of it |
| BridgeSyncService.Reverse | src/bridge-xyz/services/bridge-xyz.sync.service.ts:52-53 | `reverse` turns the array around in place |
| BridgeSyncService.LatestOf | src/bridge-xyz/services/bridge-xyz.sync.service.ts:92-95 | `reduce` picks the first of the newest rows |
| BridgeSyncService.CountKnownCounts | src/bridge-xyz/services/bridge-xyz.sync.service.ts:44-74 | the count of a sync is the number of activities of its page whose customer and account are known |
| BridgeSyncService.BridgeXyzSyncService.FindManyByTraceNumber | src/transaction-items/services/transaction-item.service.ts:168-176 | finds exactly the rows with the trace number, each once |
| BridgeSyncService.BridgeXyzSyncService.ChooseLatest | src/bridge-xyz/services/bridge-xyz.sync.service.ts:89-98 | splits the rows of a trace number into a newest one to keep and all others to delete |
| BridgeSyncService.BridgeXyzSyncService.DeleteMany | src/transaction-items/services/transaction-item.service.ts:142-144 | deletes exactly the rows that the process lives to delete, by one Delete step each |
| BridgeSyncService.BridgeXyzSyncService.CleanTransactionsWithSameTraceNumber | src/bridge-xyz/services/bridge-xyz.sync.service.ts:88-105 | a Query step that splits the rows of the trace number, and the Delete steps for all but a newest one |
| BridgeSyncService.BridgeXyzSyncService.Put | src/bridge-xyz/services/bridge-xyz.sync.service.ts:67-69 | a Visit step that writes exactly the row with the activity's id |
| BridgeSyncService.BridgeXyzSyncService.SyncCustomerActivities | src/bridge-xyz/services/bridge-xyz.sync.service.ts:43-86 | a whole sync, dying anywhere, is a run of the transition system; when it completes the table is deduplicated, newest activities stay, the cursor is the oldest activity of the page and the count is that of the known activities; it throws only on a blocked activity |
| ClaimAccounts.EraseVaultEffect | src/creator-handler/creator-handler.service.ts:232-238 | a rejection erases exactly the rows of the vault that are the first with their email |
| ClaimAccounts.RejectionClearsVault | src/creator-handler/creator-handler.service.ts:232-238 | other vaults' rows are untouched, and no key material is left exactly if every row that held any was the first with its email |
| ClaimAccounts.RejectionClearsDistinct | src/creator-handler/creator-handler.service.ts:232-238 | with distinct emails every row of the vault is cleared |
| ClaimAccounts.RejectionCanLeaveKeys | src/creator-handler/creator-handler.service.ts:232-238 | a concrete second attempt whose rejection leaves its new private key in place |
| ClaimAccounts.ShareholdersClaimAccountsService.CreateShareholderClaimAccount | src/shareholders-claim-accounts/shareholders-claim-accounts.service.ts:20-33 | appends one full row with a fresh wallet and returns that wallet's address |
| ClaimAccounts.ShareholdersClaimAccountsService.RemoveShareholderClaimAccountPrivateKey | src/shareholders-claim-accounts/shareholders-claim-accounts.service.ts:35-51 | erases both halves in the first row of the vault with the email, if any |
| ClaimAccounts.ShareholdersClaimAccountsService.RemoveShareholderClaimAccountInfoByAddress | src/shareholders-claim-accounts/shareholders-claim-accounts.service.ts:53-69 | erases both halves in the first row of the vault with the address, if any |
| ClaimAccounts.ShareholdersClaimAccountsService.GeneratePrivateKeyForShareholderClaimAccount | src/shareholders-claim-accounts/shareholders-claim-accounts.service.ts:86-107 | returns the ciphertext of the first row with the email and removes it from the row, keeping the key |
| ClaimAccounts.ShareholdersClaimAccountsService.RemovePrivateKeyWhenCreationFailed | src/creator-handler/creator-handler.service.ts:232-238 | the loop erases exactly the rows that EraseVaultEffect names |
| TokenAllocation.TokenOfEmail | src/creator-handler/creator-handler.service.ts:189-211 | the j-th email of role i gets token id (emails of earlier roles) + j |
| TokenAllocation.EmailOfToken | src/creator-handler/creator-handler.service.ts:189-211 | conversely every token id from 0 to n-1 belongs to exactly one email of one role |
| TokenAllocation.RoleIndexIsFirstToken | src/vault/vault.service.ts:617-641 | looking a role's token up by the role's index finds its first token for every role exactly if every role but the last has one email |
| TokenAllocation.GuardMeansDistinctFirstEmails | src/vault/vault.service.ts:276-285 | `createVault` accepts exactly the vaults whose first emails are pairwise distinct |
| TokenAllocation.GuardProtectsSingleEmails | src/vault/vault.service.ts:276-285 | with one email per role `createVault` accepts exactly the vaults in which all emails are distinct |
| TokenAllocation.GuardLetsSharedEmailsThrough | src/vault/vault.service.ts:276-285 | with two emails in a role it does not: a concrete vault passes in which two tokens share an email |
| TokenAllocation.AllocateTokens | src/creator-handler/creator-handler.service.ts:189-203 | the nested loops create one fresh account per email and the matching owner entries, in token order; when something throws after k accounts, exactly the first k remain |
| AddressLinking.LinkedAddress | src/creator-handler/creator-handler.service.ts:92-112 | whatever the receipt, role i ends with the address of the last log that names it, or with what it had, and nothing else in the roles changes |
| AddressLinking.NamesItsFirstToken | src/creator-handler/creator-handler.service.ts:95-100 | on a first attempt a log names role i exactly if its owner holds role i's first token, if no other token has the role's first email |
| AddressLinking.LinkingIsABijection | src/creator-handler/creator-handler.service.ts:76-112 | then a receipt that names each owner once fills every role with the address deployed for its own first token, and no log serves two roles |
| AddressLinking.SharedFirstEmailMislinks | src/creator-handler/creator-handler.service.ts:92-112 | otherwise some receipt that names each owner once, each with a contract of its own, leaves a role without its own address |
| AddressLinking.LinksIffFirstEmailsOccurOnce | src/creator-handler/creator-handler.service.ts:76-112 | on a first attempt every receipt that names each owner once links every role to its own first token if and only if no role's first email is also that of another token |
| AddressLinking.SelfManagedKeepsKeys | src/creator-handler/creator-handler.service.ts:106-112 | in a self-managed vault linking hands out no key and invites nobody, whatever the receipt |
| AddressLinking.FreshRowsHold | src/shareholders-claim-accounts/shareholders-claim-accounts.service.ts:20-33 | after a first submission the row that a look-up by email finds holds the key drawn for the first token of that email |
| AddressLinking.InvitationsAre | src/creator-handler/creator-handler.service.ts:92-112 | all invitations of a first attempt, whatever its emails: one per log, to the email of the token whose owner the log names; the first log of an email carries the key of its first token and the others none |
| AddressLinking.InvitationTells | src/creator-handler/creator-handler.service.ts:92-112 | an invitation names the vault, the email of the logged token, the deployed address, and the role that the email is the first one of, or Shareholder |
| AddressLinking.LinkingMailsWhatItTakes | src/shareholders-claim-accounts/shareholders-claim-accounts.service.ts:86-107 | whatever the receipt, linking keeps every key and takes no ciphertext out of a row without mailing it |
| AddressLinking.EveryOwnerGetsItsKey | src/creator-handler/creator-handler.service.ts:92-112 | every invitation carries the ciphertext of the owner that its log names if and only if every log names the first token of its email |
| AddressLinking.FirstTokensMeanDistinct | src/creator-handler/creator-handler.service.ts:92-112 | for a receipt that names every owner that condition is that all emails are distinct |
| KeyAgreement.HandOutKeepsInv | src/creator-handler/creator-handler.service.ts:250-263 | sending an invitation keeps the invariant, so no ciphertext is ever sent twice |
| KeyAgreement.LinkingKeepsInv | src/creator-handler/creator-handler.service.ts:92-112 | the linking loop keeps the invariant and only wears rows out, for any receipt and however often it is repeated |
| KeyAgreement.SubmissionKeepsInv | src/creator-handler/creator-handler.service.ts:189-221 | an attempt, broken or not, adds rows whose owners it lists, and keeps the invariant |
| KeyAgreement.NoKycNoSignature | src/vault/vault.service.ts:689-694 | without completed KYC the answer is null for all rows, emails and ciphertexts |
| KeyAgreement.CiphertextOpensOwnKey | src/vault/vault.service.ts:689-713 | presented by the email it was sent to, a ciphertext signs with the wallet of the row found, one that an attempt allocated for that token, if and only if KYC is completed and the key is still there; otherwise the answer is null; it never throws |
| KeyAgreement.KeyAgreement | src/vault/vault.service.ts:689-713 | with distinct emails and no broken attempt that is THE row of the email, so with completed KYC the key is that of exactly the owner submitted for its token |
| KeyAgreement.OnlyOwnCiphertextSigns | src/vault/vault.service.ts:689-713 | whatever is presented: a wallet signs if and only if KYC is completed, the row found has its key and that row's own ciphertext is presented; the answer is null if and only if KYC, row or key are missing |
| VaultTables.GuardPasses | src/creator-handler/creator-handler.service.ts:177-187 | the guard lets through exactly vaults without a status and rejected ones, and says why it refuses the others |
| VaultTables.GuardIsBlindInFlight | src/creator-handler/creator-handler.service.ts:177-187 | a submission does not change what the guard answers, so a second one before the first event passes too and doubles every account |
| VaultTables.ChangeWears | src/creator-handler/creator-handler.service.ts:43-238 | every request and event only wears rows out, keeps all invitations sent and keeps the account invariant |
| VaultTables.SuccessfulIsFinal | src/creator-handler/creator-handler.service.ts:43-48 | a SUCCESSFUL vault stays SUCCESSFUL under every further request and event |
| VaultTables.ChangeKeepsInv | src/creator-handler/creator-handler.service.ts:43-238 | every request and event keeps the whole invariant of the tables |
| KeyOwnership.FoundRowIsSubmitted | src/creator-handler/creator-handler.service.ts:177-221 | whatever attempts a vault with distinct emails has had: the row that a token's email leads to holds the owner that an attempt submitted if and only if no earlier attempt got as far as that token |
| KeyOwnership.InvitationOpens | src/vault/vault.service.ts:695-713 | a ciphertext that was sent signs with the wallet of that row exactly if KYC is completed and the key is there, so it is the submitted one under the same exact condition |
| KeyOwnership.BrokenSubmissionMisleads | src/creator-handler/creator-handler.service.ts:191-211 | after a submission that broke down with so many accounts, and its repetition, the submitted wallets are reached exactly for the tokens from that number on |
| VaultRuns.RunKeepsInv | src/shareholders-claim-accounts/shareholders-claim-accounts.service.ts:20-107 | in every run rows only move forward and every ciphertext is sent at most once, duplicate success events included |
| VaultRuns.StagesMoveForward | src/creator-handler/creator-handler.service.ts:43-238 | in every run of requests and events rows move only from full to key-only to cleared, and their identity never changes |
| VaultRuns.OthersUntouched | src/creator-handler/creator-handler.service.ts:43-238 | what concerns one vault leaves record, accounts and submissions of all others as they were |
| VaultRuns.QuietRunLeavesVault | src/creator-handler/creator-handler.service.ts:43-238 | until its own outcome a vault's roles and accounts stay as they are, whatever runs in between |
| VaultRuns.InvitationOpensWallet | src/vault/vault.service.ts:689-713 | end to end in every reachable state, for any number of attempts: a ciphertext that was sent signs, for the email it was sent to, exactly if KYC is completed and the key is there, and with the wallet submitted for that email's token if and only if no earlier attempt got as far |
| VaultRuns.InvitationOpensSubmittedWallet | src/vault/vault.service.ts:689-713 | so with a single attempt it signs with exactly the wallet submitted as owner of that email's token, or the answer is null without KYC or key |
| VaultRuns.NothingElseSigns | src/vault/vault.service.ts:689-713 | in every reachable state nothing but the own ciphertext of the row found signs, and only with completed KYC |
| VaultRuns.RejectionClearsFirstAttempt | src/evm-transaction-events-handler/evm-transaction-events-handler.service.ts:45-46 | in every reachable state a REJECTED event on a first attempt with distinct emails clears all rows of that vault and no other |
| VaultRuns.RejectionClearsIffDistinct | src/creator-handler/creator-handler.service.ts:232-238 | while the rows of a first attempt hold their keys, a rejection clears them all if and only if the emails are distinct |
| VaultRuns.SuccessDeliversTheKeys | src/creator-handler/creator-handler.service.ts:92-112 | submission, any run in between, success: every log of the receipt yields exactly one invitation, to the email of its owner's token, and all carry their owners' keys if and only if the logs name first tokens of their emails |
| VaultRuns.KeysArriveIffDistinct | src/creator-handler/creator-handler.service.ts:92-112 | so a receipt that names every owner once delivers all keys if and only if all emails are distinct |
| VaultRuns.SuccessLinksEveryRole | src/creator-handler/creator-handler.service.ts:76-118 | every role is filled with the address deployed for its own first token, if no other token has its first email, and the record gets status, hash and contract addresses |
| VaultRuns.SuccessLinksIffFirstEmailsOccurOnce | src/creator-handler/creator-handler.service.ts:76-118 | end to end, every receipt that names each owner once links every role if and only if no role's first email is also that of another token |
| VaultRuns.GuardedVaultIsLinked | src/vault/vault.service.ts:276-285 | for a vault that passed the guard with one email per role nothing else is needed: role i gets the address deployed for token i |
| VaultRecords.RecordIsToldByEvents | src/creator-handler/creator-handler.service.ts:43-119 | in every run a vault's status, hash, manager and vault address are those that its own events brought last, and its roles change in their addresses only, and only by a success with a hash and a receipt |
| VaultRecords.AddedVaultIsNew | src/vault/vault.service.ts:286-296 | a vault that is added has its roles and its management and nothing else |
| VaultRecords.KeysStay | src/shareholders-claim-accounts/shareholders-claim-accounts.service.ts:35-107 | one request or event erases a key only by a rejection of its vault or by finishing its claim, and no ciphertext leaves a row without being erased so or mailed |
| VaultRecords.KeysLast | src/shareholders-claim-accounts/shareholders-claim-accounts.service.ts:35-107 | so over any run without these a row that can sign still can |
| VaultRecords.InvitedOwnersCanSign | src/vault/vault.service.ts:689-713 | end to end: after the success of a first attempt with distinct emails every invited owner with completed KYC signs with the very wallet that the log names |
| SelfManagedVaults.EventKeepsKeys | src/creator-handler/creator-handler.service.ts:106-112 | no event but a rejection touches the accounts of a self-managed vault, and none invites anybody |
| SelfManagedVaults.SuccessKeepsKeys | src/creator-handler/creator-handler.service.ts:106-112 | the success of a first attempt leaves every row of a self-managed vault full |
| SelfManagedVaults.InfoMeans | src/shareholders-claim-accounts/shareholders-claim-accounts.service.ts:71-84 | asking crashes without the vault, and finds nothing exactly if no account or no role has the email |
| SelfManagedVaults.OwnersFindTheirKeys | src/shareholders-claim-accounts/shareholders-claim-accounts.service.ts:71-84 | end to end: afterwards each owner that asks gets the address deployed for the first token of his role and the ciphertext of his own token's wallet |
| SelfManagedVaults.ClaimClearsItsRow | src/vault/vault.service.ts:383-398 | in every reachable state finishing the claim of an address clears exactly the row with that address and nothing else |
| SelfManagedVaults.ClaimedKeyIsGone | src/vault/vault.service.ts:383-398 | so its owner finds no key any more, and everybody else still does |
| BatchProtocol.StepKeepsInv | src/vaults-creator/vaults-creator.service.ts:170-235 | every step of driver, users and chain keeps the invariant of the batch |
| BatchRuns.SuccessMeansEveryVault | src/vaults-creator/vaults-creator.service.ts:209-235 | in every run a batch that is SUCCESS has its last vault done, and all vaults with their copies SUCCESSFUL if and only if none was passed over while pending |
| BatchRuns.SuccessWithoutResubmission | src/vaults-creator/vaults-creator.service.ts:209-235 | so SUCCESS means every vault in every run in which nobody submits a vault again between its failed task token and its processing |
| BatchRuns.StoppingDriverIsSafe | src/creator-handler/creator-handler.service.ts:177-187 | a driver that stops at failed task tokens never processes such a vault: what it processes has succeeded, and the guard refuses to submit it again |
| BatchRuns.RejectedMeansThrew | src/vaults-creator/vaults-creator.service.ts:170-235 | over whole runs a batch is REJECTED if and only if a step of its driver threw and the PROCESSING write did not come after that |
| BatchRuns.WhatThrows | src/vaults-creator/vaults-creator.service.ts:185-235 | the steps throw exactly for a vault that is missing, sent or done, for a broken submission, for a rejected outcome, or before their first write |
| BatchRuns.DriverSubmits | src/vaults-creator/vaults-creator.service.ts:185-207 | what the driver does to the tables is a submission like anybody else's with a task token for its index, or a broken one, which can break down after any number of accounts |
| BatchRuns.ProcessingAnyBatch | src/vaults-creator/vaults-creator.service.ts:209-235 | on any batch and table the step throws exactly for a missing or rejected vault and then only writes REJECTED; a pending vault changes nothing |
| BatchRuns.OutcomeIsFinal | src/vaults-creator/vaults-creator.service.ts:38-64 | between any two moments of a run SUCCESS and REJECTED stay as they are, exactly unless PROCESSING is written in between, and then it is PROCESSING for good |
| BatchRuns.EachIndexOnce | src/lambdas/iterator.ts:9-19 | the driver visits 0, 1, 2, ... once each, and one that finishes has visited all |
| BatchRuns.FinishedLeavesSuccess | src/vaults-creator/vaults-creator.service.ts:38-64 | a driver that finishes a non-empty batch leaves SUCCESS if and only if it did not pass over the last vault and PROCESSING was written before its last outcome; it never leaves REJECTED |
| BatchRuns.DriverTerminates | src/lambdas/iterator.ts:9-19 | the driver makes at most 4n + 2 steps, however users, events and the PROCESSING write interleave |
| BatchRuns.EndedDriverStays | src/vaults-creator/vaults-creator.service.ts:170-235 | once the driver has ended, only the PROCESSING write can still change the batch record |
| BatchRuns.RejectedVaultOutcome | src/evm-transaction-events-handler/evm-transaction-events-handler.service.ts:45-54 | when the awaited vault is rejected, in any run, going on makes the batch REJECTED, and stopping leaves it without an outcome in every continuation |
| BatchRuns.BatchInvitationOpens | src/vault/vault.service.ts:695-713 | the same end-to-end key agreement, with its exact condition, in every run of driver, users and chain |
| BatchScenarios.SuccessCanPassOver | src/vaults-creator/vaults-creator.service.ts:225-228 | for every new batch, the sets of vaults that some run passes over on the way to SUCCESS are exactly those without the last vault |
| BatchScenarios.RejectionHappens | src/vaults-creator/vaults-creator.service.ts:220-223 | for every new batch and every index some run has this vault rejected first, and leaves the batch REJECTED or PROCESSING as the driver goes on or stops |
| BatchScenarios.OneVaultIsRejected | src/vaults-creator/vaults-creator.service.ts:220-223 | a concrete batch of one vault that is rejected: with six steps REJECTED, with five PROCESSING |
| BatchCopies.CopyIsWholeRecord | src/vaults-creator/vaults-creator.service.ts:125-144 | processing a successful vault copies its whole record into its own place, and nothing else ever changes the entries of a batch |
| BatchCopies.SuccessCarriesWholeRecords | src/vaults-creator/vaults-creator.service.ts:209-235 | over whole runs the copy of every vault that a SUCCESS batch did not pass over is in full a record that a success event of this vault wrote |
| BatchCopies.EventLinksVault | src/creator-handler/creator-handler.service.ts:43-119 | a success event in any state in which the vault has been submitted once writes status, hash, addresses, and every role's own address, if no first email is shared |
| BatchCopies.CopyIsLinked | src/vaults-creator/vaults-creator.service.ts:131-137 | so the copies in a SUCCESS batch carry the linked roles and addresses |
| VaultServices.CreatorHandlerService.CreateVault | src/vault/vault.service.ts:269-287 | refuses exactly without consent or with equal first emails, else stores the vault with its roles and management and nothing else |
| VaultServices.CreatorHandlerService.SendVaultInvitationsWithAddress | src/creator-handler/creator-handler.service.ts:250-263 | takes the ciphertext out of the row and mails it |
| VaultServices.CreatorHandlerService.LinkAddress | src/creator-handler/creator-handler.service.ts:92-112 | one iteration of the linking loop is one step of LinkAll |
| VaultServices.CreatorHandlerService.UpdateVaultTransactionDetails | src/creator-handler/creator-handler.service.ts:43-119 | the handler writes exactly the record, accounts and mails that ApplyEvent says, and throws for an unknown vault |
| VaultServices.CreatorHandlerService.ProcessCreatorConfigSubmission | src/creator-handler/creator-handler.service.ts:167-229 | either a guard refuses and nothing changes, or it breaks down and leaves exactly its first accounts, or accounts, owners and transaction are exactly those of Submitted |
| VaultServices.EvmTransactionEventsHandlerService.HandleEvmTransactionEvent | src/evm-transaction-events-handler/evm-transaction-events-handler.service.ts:27-57 | the event changes the tables as Notified says, starts monitoring on success only, and completes or fails exactly its own task token |
| VaultServices.VaultsCreatorService.ChangeVaultsStatus | src/vaults-creator/vaults-creator.service.ts:170-183 | overwrites the status of one batch and nothing else, and throws for a missing one |
| VaultServices.VaultsCreatorService.UpdateVaultByIds | src/vaults-creator/vaults-creator.service.ts:125-144 | copies the current vault record into its first place in the batch |
| VaultServices.VaultsCreatorService.CreateSeparatedVault | src/vaults-creator/vaults-creator.service.ts:185-207 | refines the driver's CreateVault step, with REJECTED on a refused or broken submission |
| VaultServices.VaultsCreatorService.ProcessCreationTransactionStatus | src/vaults-creator/vaults-creator.service.ts:209-235 | refines the driver's ProcessCreationStatus step, with the status written once or twice |
| VaultServices.VaultsCreatorService.SendEvent | src/vaults-creator/vaults-creator.service.ts:38-64 | writes PROCESSING, and throws on a failed entry only after that |
| VaultServices.VaultsCreatorService.CreateVaults | src/vaults-creator/vaults-creator.service.ts:66-106 | stores exactly the vaults before the first refused one; only a complete batch gets distinct ids and PROCESSING |
| VaultServices.CreatedAre | src/vaults-creator/vaults-creator.service.ts:66-106 | after some vaults were created each has its own new record, all others are as before, and the batch lists them in order with these records as copies |
| Payout.FeeInversion | src/notes/notes.service.ts:135-141 | undoing the fee is adjoint to adding it rounded up: at least `net` comes out exactly if the gross amount covers `net` and its fee |
| Payout.RoundedUpFeeIsExact | src/notes/notes.service.ts:135-141 | for every net amount and fee, with the fee rounded up exactly the net amount comes back |
| Payout.RoundedDownFeeLosesAtMostOne | src/notes/notes.service.ts:135-141 | with the fee rounded down the net amount comes back exactly if the fee was whole, else one micro-unit less |
| Payout.InversionIsMonotone | src/notes/notes.service.ts:135-141 | paying more never yields less and a higher fee never yields more |
| Payout.PayoutConserves | src/notes/notes.service.ts:135-144 | shares and fee never exceed the payment, and at most (roles - 1) micro-units are left over |
| Payout.CentsAreNearest | src/notes/notes.service.ts:143-143 | `toFixed(2)`, taken as exact rounding, shows the nearest cents, ties going up |
| Payout.DisplayedCents | src/notes/notes.service.ts:98-113 | all displayed cents together miss the net payment by at most half a cent per role, and on the low side by less |
| Payout.PercentagesMean | src/notes/notes.service.ts:135-141 | the units: with the fee in millionths of a percent and shares in hundredths, amount / (1 + fee) and its percentage come out, rounded down |
| Payout.IncomesAddUp | src/vault/vault.service.ts:591-604 | the dashboard incomes of all roles add up to max(0, funds - threshold) with a profit switch and to the funds without |
| Payout.DollarsMean | src/vault/vault.service.ts:591-604 | in dollars and percent: a role is shown its percentage of what is left of the payment after the fee, above the profit switch if there is one |
| Payout.FormulasDiffer | src/vault/vault.service.ts:595-604 | P / (1 + f) exceeds P (1 - f) by exactly P f^2 / (1 + f) |
| Payout.DashboardAgainstEmail | src/vault/vault.service.ts:595-604 | without a switch the dashboard shows less than two micro-units more than the e-mail, and the e-mail at most the share of that gap more |
| FundingNotes.NameRoundTrip | src/notes/notes.service.ts:39-56 | the vault id comes back out of the distribution name for every project name, if it has no space itself |
| FundingNotes.OwnPaymentIsNotable | src/notes/notes.service.ts:119-127 | a payment can be noted exactly once, and exactly for the vault it was made to |
| FundingNotes.MailsAddUp | src/notes/notes.service.ts:98-113 | with one email per role the role mails add up to the net payment within half a cent per role |
| FundingNotes.MailOfEmail | src/notes/notes.service.ts:98-113 | each email of each role is mailed that role's amount, in the order in which tokens are numbered, and nobody else is |
| FundingNotes.OnlyOwnerIsToldGross | src/notes/notes.service.ts:78-114 | the first mail tells the owner the gross amount, and all others go to the emails in token order and tell received amounts |
| FundingNotes.NoSecondChance | src/notes/notes.service.ts:119-133 | once a transaction has its note, whether its mails got through or not, any further calls for it can be left out of any sequence of calls without a difference |
| FundingNotes.AllDelivered | src/notes/notes.service.ts:115-117 | the mails that go out are all of them exactly if none fails |
| FundingNotes.ErrorsMean | src/notes/notes.service.ts:119-133 | each error says which check failed first |
| FundingNotes.BooksGrow | src/notes/notes.service.ts:119-133 | a call adds its own note with its own contents exactly if the checks hold, and no note or mail is ever lost |
| FundingNotes.NotesService.CheckIfNoteExists | src/notes/notes.service.ts:66-72 | finds whether the transaction has a note |
| FundingNotes.NotesService.HandleSendEmails | src/notes/notes.service.ts:78-117 | the owner gets the gross amount and every email of every role that role's received amount, but for the mails that fail, and it throws exactly if one does |
| FundingNotes.NotesService.CreateFundingNote | src/notes/notes.service.ts:119-133 | either the first failing check refuses and nothing happens, or the transaction gets its only note and its mails; without an error exactly all of them |
| TransactionQuery.FilterMeansQuery | src/transaction-items/services/transaction-item.service.ts:178-230 | the condition tree that is built selects exactly the items that the query asks for |
| TransactionQuery.SortIsStable | src/transaction-items/services/transaction-item.service.ts:95-95 | the modelled sort is newest first and keeps the order of equal times |
| TransactionQuery.StableSortIsUnique | src/transaction-items/services/transaction-item.service.ts:95-95 | there is only one such order, so any conforming sort agrees |
| TransactionQuery.FilterCommutesWithSort | src/transaction-items/services/transaction-item.service.ts:88-95 | filtering before or after the sort is the same, for any test |
| TransactionListing.FoundIsFiltered | src/transaction-items/services/transaction-item.service.ts:84-95 | the items of a directed query are those of the undirected one filtered, in the same order |
| TransactionListing.SameDestinations | src/transaction-items/services/transaction-item.service.ts:101-107 | only sent items contribute recipient addresses, so both queries look up the same ones in the same order |
| TransactionListing.CacheIsTransparent | src/transaction-items/services/transaction-item.service.ts:109-118 | for a found item the cache gives the users that the user table has |
| TransactionListing.DirectionPushdown | src/transaction-items/services/transaction-item.service.ts:84-129 | a query with direction t answers exactly the type-t subsequence, with the same counterparties, of the same query without one |
| TransactionListing.AnswerListsExactly | src/transaction-items/mappers/transaction-item.mapper.ts:12-98 | exactly the matching items are listed in each wanted direction that applies, with the users that the user table knows; a receiver without user id is shown if and only if a looked-up recipient has his address |
| ListingOrder.AnswerIsSorted | src/transaction-items/services/transaction-item.service.ts:95-121 | the answer is newest first; entries of equal time keep the order of the table, and of one item received comes before sent |
| TransactionListing.ShownPersonIs | src/transaction-items/mappers/transaction-item.mapper.ts:77-87 | a user is shown exactly if the user table has an email or a name for the id, and with his own id, email and name |
| TransactionListing.CollectedOnceInOrder | src/transaction-items/services/transaction-item.service.ts:97-107 | ids and addresses are collected once each, in order of first appearance |
| TransactionListing.ResolvedMeansReachable | src/transaction-items/mappers/transaction-item.mapper.ts:22-24 | a receiver without user id is resolved if and only if some recipient is looked up by its exact address and matches up to case |
| TransactionListing.OwnAddressIsReachable | src/virtual-accounts/direct-recipient.service.ts:110-126 | a sent item is resolved whenever a recipient is stored under its very address |
| TransactionListing.ReachDependsOnTheListing | src/transaction-items/mappers/transaction-item.mapper.ts:22-24 | a concrete item that is resolved beside another one and not alone |
| TransactionListing.PushdownWithOneSpelling | src/transaction-items/services/transaction-item.service.ts:84-129 | source, currency, account and dates can be applied before or after the listing whenever no two listed addresses differ in upper and lower case only |
| TransactionListing.CriteriaPushdown | src/transaction-items/services/transaction-item.service.ts:84-129 | otherwise exactly if both listings find the receivers of the remaining items under the same spellings |
| TransactionListing.TransactionItemService.BuildTransactionItemFilter | src/transaction-items/services/transaction-item.service.ts:178-230 | the pushes build exactly the modelled condition, falsy criteria left out |
| TransactionListing.TransactionItemService.CollectIds | src/transaction-items/services/transaction-item.service.ts:97-107 | collects ids and addresses once each, in order of appearance |
| TransactionListing.TransactionItemService.FetchUsers | src/transaction-items/services/transaction-item.service.ts:109-118 | caches exactly the users that exist |
| TransactionListing.TransactionItemService.GetByDestinationAddressList | src/virtual-accounts/direct-recipient.service.ts:110-126 | concatenates the recipients of each address |
| TransactionListing.TransactionItemService.MapTransactionItems | src/transaction-items/mappers/transaction-item.mapper.ts:12-75 | lists each item once per direction, received first, with its counterparties |
| TransactionListing.TransactionItemService.GetTransactionItems | src/transaction-items/services/transaction-item.service.ts:84-129 | the whole listing is Answer, and with a direction the filtered answer without one |
| DrainHistory.DayTotalSinceNaN | src/bridge-xyz/bridge-xyz.service.ts:344-350 | a running total through zero loses nothing; a day's total is the sum since its last amount that is not a number |
| DrainHistory.DayConserves | src/bridge-xyz/bridge-xyz.service.ts:344-350 | a day's total is the sum of its amounts exactly if the day does not end in NaN and what precedes its last NaN cancels out |
| DrainHistory.GroupsAreDays | src/bridge-xyz/bridge-xyz.service.ts:329-356 | every day that occurs is listed once, with the total of exactly its own drains in order |
| DrainHistory.DaysInOrder | src/bridge-xyz/bridge-xyz.service.ts:329-356 | days are listed in order of first appearance |
| DrainHistory.DaysConserve | src/bridge-xyz/bridge-xyz.service.ts:329-356 | splitting by day neither loses nor repeats money |
| DrainHistory.GrandTotal | src/bridge-xyz/bridge-xyz.service.ts:409-440 | for any amounts: the grand total is the sum of all validly dated drains if and only if no day ends in NaN and what the days forgot cancels out; else it is NaN, or off by exactly that |
| DrainHistory.HistoryConserves | src/bridge-xyz/bridge-xyz.service.ts:409-440 | when all dated amounts are numbers each day has the sum of its drains and the grand total is that of all validly dated drains |
| DrainHistory.NaNForgets | src/bridge-xyz/bridge-xyz.service.ts:344-350 | a concrete day that loses the amounts before a NaN |
| DrainHistory.BridgeXyzService.TransformTransactions | src/bridge-xyz/bridge-xyz.service.ts:329-356 | the loop over the dictionary computes GroupByDay |
| DrainHistory.BridgeXyzService.GetLiqAddressDrainHistory | src/bridge-xyz/bridge-xyz.service.ts:409-440 | under the cursor contract the loop terminates with every drain once and in order, and the totals are those of GrandTotal |
| AuditLog.TableRefinesMap | src/audit/audit.service.ts:14-36 | after any calls the table refines the map from form and user to their exact event sequence, with one row per pair that has events |
| AuditLog.AuditService.AddAudit | src/audit/audit.service.ts:14-36 | appends the event to the row of its form and user, or inserts that row |
| TaxFormAccess.RemovalsArePendingIffComplete | src/tax-form/tax-form.service.ts:298-373 | after any run, whatever broke down in it, every code has a pending removal if and only if no request left its code behind, that is, stored one and then broke down before scheduling |
| TaxFormAccess.CodeMeansPending | src/tax-form/tax-form.service.ts:298-373 | then a form has a code exactly when one removal of it is pending, and none otherwise |
| TaxFormAccess.OwnerIsTold | src/tax-form/tax-form.service.ts:306-332 | in every run without such a request the newest mail about a form with a code went to its owner with exactly that code, and the audited requests are those of the mails, one by one and in order |
| TaxFormAccess.FormsAreIndependent | src/tax-form/tax-form.service.ts:298-373 | in every run, with or without breakdowns, a form's code is that of its own little machine and nothing else of its row changes |
| TaxFormAccess.AccessNeedsTheCurrentCode | src/tax-form/tax-form.service.ts:281-296 | in every run access succeeds exactly for the owner with the code issued since the last removal |
| TaxFormAccess.IssueThenRemove | src/tax-form/tax-form.service.ts:306-364 | issuing and removing a code is the identity on rows and pending removals, and in between the code opens the form |
| TaxFormAccess.AnswerMeans | src/tax-form/tax-form.service.ts:298-334 | success or an exception mean that the form has a code afterwards, refusals that nothing changed; a request throws exactly if it leaves its code behind, unless only the event bus did not take the entry |
| TaxFormAccess.TrailOfRequest | src/tax-form/tax-form.service.ts:306-333 | audit, mail and removal come in this order, and what comes before a breakdown is done |
| TaxFormAccess.CodeStaysForEver | src/tax-form/tax-form.service.ts:306-333 | the code of such a request stays in every continuation, and no later request sends another mail |
| TaxFormAccess.TaxFormService.RequestTaxFormAccess | src/tax-form/tax-form.service.ts:298-334 | the handler, with a breakdown at any step after the code is stored (document, audit, mail, scheduling), does what RequestAccess says |
| TaxFormAccess.TaxFormService.AccessTaxFormById | src/tax-form/tax-form.service.ts:281-296 | grants exactly the owner with the stored code, and names the first failing check otherwise |
| TaxFormAccess.TaxFormService.TaxFormDownloaded | src/tax-form/tax-form.service.ts:336-346 | appends one download event to the audit |
| TaxFormAccess.TaxFormService.RemoveTaxFormSecurityCodeAfterTime | src/tax-form/tax-form.service.ts:348-373 | the update drops the code and no other attribute, and uses up a pending removal; it throws exactly for a missing form |
| Provisioning.EnsureKeepsAtMostOne | src/virtual-accounts/virtual-accounts.service.ts:80-146 | a call of either service keeps at most one account per customer, currency and wallet, whatever Bridge answers |
| Provisioning.NeverTwoAccounts | src/direct-vaults/direct-vaults.service.ts:138-192 | so does any sequence of calls to either service |
| Provisioning.OnceIsEnough | src/virtual-accounts/virtual-accounts.service.ts:100-137 | once an account is in the table no later call asks for it again, and with both present a call changes nothing |
| Provisioning.AddedRowsAre | src/virtual-accounts/virtual-accounts.service.ts:47-78 | every row that a call adds is under its user and Bridge's id, for the customer, the wallet and dollars or euros; no row changes |
| Provisioning.AsksForWhatIsMissing | src/virtual-accounts/virtual-accounts.service.ts:80-146 | Bridge is asked exactly for the currencies in which the scan shows no account |
| Provisioning.CurrenciesAreIndependent | src/direct-vaults/direct-vaults.service.ts:165-187 | afterwards a currency has an account exactly if it had one or one was opened and saved, whatever happens to the other |
| Provisioning.FailedScanDuplicates | src/virtual-accounts/virtual-accounts.service.ts:226-243 | after a failed scan a purpose keeps at most one account exactly if it had none or none was added |
| Provisioning.FlagsTellTheTruth | src/direct-vaults/direct-vaults.service.ts:138-217 | per currency, a reported flag is true of the table if and only if the account was there, a customer row exists, or Bridge opened none |
| Provisioning.MissingCustomerIsNotNoticed | src/direct-vaults/direct-vaults.service.ts:209-216 | without a customer row n calls for missing accounts store nothing, have Bridge asked 2n times, and report whatever Bridge opened as present |
| Provisioning.VirtualAccountsService.GetVirtualAccountsByCustomerId | src/virtual-accounts/virtual-accounts.service.ts:226-243 | finds exactly the customer's rows, or nothing when the scan fails |
| Provisioning.VirtualAccountsService.SaveVirtualAccount | src/virtual-accounts/virtual-accounts.service.ts:47-78 | inserts a row and refuses to overwrite one |
| Provisioning.VirtualAccountsService.CreateMissingVirtualAccount | src/virtual-accounts/virtual-accounts.service.ts:148-180 | saves what Bridge opened, and fails with Bridge |
| Provisioning.VirtualAccountsService.EnsureVirtualAccountsExist | src/virtual-accounts/virtual-accounts.service.ts:80-146 | does nothing without customer, approval or wallet, else exactly what Ensure says |
| Provisioning.DirectVaultsService.CreateVirtualAccount | src/direct-vaults/direct-vaults.service.ts:194-217 | saves under the customer's user, and succeeds without saving when there is none |
| Provisioning.DirectVaultsService.EnsureVirtualAccountsExist | src/direct-vaults/direct-vaults.service.ts:138-192 | does what Ensure says and reports whether both flags came out true |

## Left out

- Interleavings inside a request handler, except in the bank sync and the lock: the code has no conditional writes.
- Failures of mail and event bus inside the handler of a chain event, and an event bus that fails after delivering. A submission may break down anywhere before the transaction is sent, and a step of the driver before its first write.
- `updateRoleEmail`, `unwatchVault`, `markTaxInfoProvidedToVault` and `createSelfManagedVault` of vault.service.ts: easy members. The runs of `VaultTables` therefore have fixed emails per role.
- `getVaultFundsStatistics` of vault.service.ts: the same day grouping as the drain history, without its falsy totals.
- NFT metadata, contract call encoding, summary mails and the Alchemy webhook in creator-handler.service.ts.
- `createTaxInfo` inside `createVaults`.
- The message that `signVaultTransaction` signs, and what `createVaults` first stores of its configuration.
- Encryption and wallets beyond the symbolic laws above, and the KYC service, which is a parameter of `SignVaultTransaction`.
- VaultRuns.SuccessDeliversTheKeys: for a first attempt, and so is SuccessLinksEveryRole. After several attempts `KeyOwnership.FoundRowIsSubmitted` says which rows a look-up reaches, but not which logs of a receipt are matched.
- VaultRuns.InvitationOpensWallet: for a vault with distinct emails, which `createVault` ensures for one email per role.
- FundingNotes.NotesService.CreateFundingNote: takes the put of the note, which is started without waiting for it, to succeed.
- The order of rows in an index query is modelled as table order.
- Creation and update time stamps of transaction items, and an activity date that does not parse.
- BridgeSync.RunKeepsInv: asks for a set cursor. Without one, the first page is the newest hundred activities and nothing is promised about older ones.
- Payout.DisplayedCents: takes `toFixed` as exact rounding and fees as whole 1e-6 percent, shares as whole hundredths of a percent. IEEE rounding is not modelled.
- Payout.IncomesAddUp: over the reals.
- TransactionListing.DirectionPushdown: as CriteriaPushdown, over a complete scan, for a user id that is not empty. Paging depends on the mapper library's iterator, which is not part of this model.
- The description text of a listed item, `findOneById` and `getTransactionItemsByVirtualAccountId`: easy members.
- `toLowerCase` outside ASCII.
- DrainHistory.GrandTotal: over the reals.
- `getVirtualAccountActivity`: its cursor is placed under an option that the client does not read, so its loop has no termination argument.
- Generation and contents of tax documents, and which files are stored and deleted: foreign calls.
- Accounts that users open themselves (`createVirtualAccount`): nothing limits them to one per purpose.
- Forex cache, wallet checks, webhooks of Bridge, Persona and Alchemy, controllers and guards: plumbing.
