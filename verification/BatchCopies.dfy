/** What a batch record says of its vaults: the copies that a successful batch carries are whole vault
    records, as the success events of the vaults wrote them. */
module BatchCopies {
  import opened Prelude
  import opened ClaimAccounts
  import opened TokenAllocation
  import opened AddressLinking
  import opened VaultTables
  import opened KeyOwnership
  import opened BatchProtocol
  import opened BatchRuns
  import VaultRuns

  // ---------------------------------------------------------------- one step

  /** The driver processes a vault that has succeeded. */
  predicate Copies(w: World, a: Action) {
    && a.ProcessCreationStatus? && w.driver.Checking?
    && w.driver.index < |w.batch.vaults| && w.batch.vaults[w.driver.index].id.Some?
    && Succeeded(w.tables, w.batch.vaults[w.driver.index].id.value)
  }

  /** It copies the whole vault record into the vault's own place in the batch, and nothing else ever changes
      the entries of a batch. */
  lemma {:induction false} CopyIsWholeRecord(w: World, a: Action)
    requires BatchInv(w) && CanHappen(w, a)
    ensures Step(w, a).batch.vaults ==
      if Copies(w, a) then
        var id := w.batch.vaults[w.driver.index].id;
        w.batch.vaults[w.driver.index := BatchVault(id, Some(w.tables.vaults[id.value]))]
      else w.batch.vaults
  {
    hide Progress, TokensOk, StatusMeans, VisitsOk;
    if Copies(w, a) {
      var i := w.driver.index;
      assert IndexOf(w.batch.vaults, w.batch.vaults[i].id.value) == i;
    }
  }

  // ---------------------------------------------------------------- where copies come from

  /** At the k-th step the record was copied into entry j. */
  ghost predicate CopiedAt(w: World, acts: seq<Action>, k: nat, j: nat, record: Vault) {
    && k < |acts| && Feasible(w, acts[..k])
    && var u := Run(w, acts[..k]);
    && Copies(u, acts[k]) && u.driver.index == j && u.tables.vaults[u.batch.vaults[j].id.value] == record
  }

  /** The k-th step was a success event of the vault, and left this record. */
  ghost predicate WrittenAt(w: World, acts: seq<Action>, k: nat, id: string, record: Vault) {
    && k < |acts| && Feasible(w, acts[..k]) && CanHappen(Run(w, acts[..k]), acts[k])
    && acts[k].Outside? && acts[k].change.Notify? && acts[k].change.id == id && acts[k].change.status == SUCCESSFUL
    && Apply(Run(w, acts[..k]).tables, acts[k].change).vaults[id] == record
  }

  lemma {:induction false} CopyWasTaken(w: World, acts: seq<Action>, j: nat) returns (k: nat)
    requires Initial(w) && Feasible(w, acts) && j < |Run(w, acts).batch.vaults| && CopyOk(Run(w, acts).batch.vaults[j])
    ensures CopiedAt(w, acts, k, j, Run(w, acts).batch.vaults[j].copy.value)
  {
    if acts == [] {
      assert false;
    } else {
      hide Initial, BatchInv, Inv, CanHappen, Step, Copies, CopiedAt, CopyOk;
      var n := |acts| - 1;
      var before := acts[..n];
      RunKeepsInv(w, before);
      CopyIsWholeRecord(Run(w, before), acts[n]);
      if Copies(Run(w, before), acts[n]) && j == Run(w, before).driver.index {
        k := n;
        CopiedNow(w, acts, j);
      } else {
        OtherEntryStays(Run(w, before), acts[n], j);
        k := CopyWasTaken(w, before, j);
        CopiedEarlier(w, acts, k, j, Run(w, before).batch.vaults[j].copy.value);
      }
    }
  }

  lemma {:induction false} OtherEntryStays(u: World, a: Action, j: nat)
    requires BatchInv(u) && CanHappen(u, a) && j < |Step(u, a).batch.vaults| && !(Copies(u, a) && j == u.driver.index)
    ensures j < |u.batch.vaults| && Step(u, a).batch.vaults[j] == u.batch.vaults[j]
  {
    hide BatchInv, Step;
    CopyIsWholeRecord(u, a);
  }

  lemma {:induction false} CopiedNow(w: World, acts: seq<Action>, j: nat)
    requires acts != [] && Feasible(w, acts) && BatchInv(Run(w, acts[..|acts| - 1]))
    requires var u := Run(w, acts[..|acts| - 1]); Copies(u, Last(acts)) && u.driver.index == j
    ensures var t := Run(w, acts);
      && j < |t.batch.vaults| && t.batch.vaults[j].copy.Some?
      && CopiedAt(w, acts, |acts| - 1, j, t.batch.vaults[j].copy.value)
  {
    hide BatchInv, Step;
    CopyIsWholeRecord(Run(w, acts[..|acts| - 1]), Last(acts));
  }

  lemma {:induction false} CopiedEarlier(w: World, acts: seq<Action>, k: nat, j: nat, record: Vault)
    requires acts != [] && CopiedAt(w, acts[..|acts| - 1], k, j, record)
    ensures CopiedAt(w, acts, k, j, record)
  {
    assert acts[..|acts| - 1][..k] == acts[..k];
  }

  lemma {:induction false} RecordStep(w: World, a: Action, id: string)
    requires CanHappen(w, a) && Succeeded(Step(w, a).tables, id)
    ensures (a.Outside? && a.change.Notify? && a.change.id == id && a.change.status == SUCCESSFUL) ||
      (Succeeded(w.tables, id) && Step(w, a).tables.vaults[id] == w.tables.vaults[id])
  {}

  lemma {:induction false} RecordWasWritten(w: World, acts: seq<Action>, id: string) returns (k: nat)
    requires Feasible(w, acts) && !Succeeded(w.tables, id) && Succeeded(Run(w, acts).tables, id)
    ensures WrittenAt(w, acts, k, id, Run(w, acts).tables.vaults[id])
  {
    hide CanHappen, Step, Succeeded;
    var n := |acts| - 1;
    var before := acts[..n];
    var u, a := Run(w, before), acts[n];
    RecordStep(u, a, id);
    if a.Outside? && a.change.Notify? && a.change.id == id && a.change.status == SUCCESSFUL {
      k := n;
      EventStep(u, a);
    } else {
      k := RecordWasWritten(w, before, id);
      assert before[..k] == acts[..k];
    }
  }

  lemma {:induction false} EventStep(w: World, a: Action)
    requires CanHappen(w, a) && a.Outside?
    ensures Enabled(w.tables, a.change) && Step(w, a).tables == Apply(w.tables, a.change)
  {}

  /** Over whole runs: the copy of every vault that a SUCCESS batch did not pass over is, in full, the record
      that a success event of this very vault wrote. */
  lemma {:induction false} SuccessCarriesWholeRecords(w: World, acts: seq<Action>, j: nat) returns (e: nat)
    requires Initial(w) && Feasible(w, acts) && Run(w, acts).batch.status.Success?
    requires j < |Run(w, acts).batch.vaults| && j !in Run(w, acts).passedOver
    requires forall v :: v in w.batch.vaults && v.id.Some? ==> !Succeeded(w.tables, v.id.value)
    ensures var v := Run(w, acts).batch.vaults[j];
      v.id.Some? && v.copy.Some? && WrittenAt(w, acts, e, v.id.value, v.copy.value)
  {
    RunKeepsInv(w, acts);
    var u := Run(w, acts);
    assert Done(u.batch.vaults[j], u.tables.vaults);
    hide BatchInv, Inv, Initial, CanHappen, Step;
    var k := CopyWasTaken(w, acts, j);
    IdsStay(w, acts);
    IdsStay(w, acts[..k]);
    PrefixStays(w, acts, k);
    assert w.batch.vaults[j] in w.batch.vaults;
    e := RecordWasWritten(w, acts[..k], u.batch.vaults[j].id.value);
    assert acts[..k][..e] == acts[..e];
  }

  lemma {:induction false} PrefixStays(w: World, acts: seq<Action>, k: nat)
    requires k <= |acts|
    ensures forall e :: 0 <= e < k ==> acts[..k][e] == acts[e]
  {}

  lemma {:induction false} IdsStay(w: World, acts: seq<Action>)
    requires Initial(w) && Feasible(w, acts)
    ensures var u := Run(w, acts);
      && |u.batch.vaults| == |w.batch.vaults|
      && forall j :: 0 <= j < |w.batch.vaults| ==> u.batch.vaults[j].id == w.batch.vaults[j].id
  {
    if acts != [] {
      hide BatchInv, Inv, Initial, CanHappen, Step;
      var before := acts[..|acts| - 1];
      IdsStay(w, before);
      RunKeepsInv(w, before);
      CopyIsWholeRecord(Run(w, before), Last(acts));
    }
  }

  // ---------------------------------------------------------------- what the event wrote

  /** A success event in any state in which the vault has been submitted once. */
  lemma {:induction false} EventLinksVault(t: Tables, id: string, hash: Option<string>, receipt: Receipt)
    requires Inv(t) && SubmittedOnce(t, id) && hash.Some? && hash.value != ""
    requires Enabled(t, Notify(id, SUCCESSFUL, hash, Some(receipt)))
    requires FirstEmailsOccurOnce(t.vaults[id].roles)
    requires NamesEachOwnerOnce(receipt.created, |AllEmails(t.vaults[id].roles)|, VaultRuns.DrawnAt(t, id))
    ensures IsLinkedBy(t, id, Apply(t, Notify(id, SUCCESSFUL, hash, Some(receipt))).vaults[id], hash, receipt)
  {
    hide Inv, AllLinkedToOwn, FirstEmailsOccurOnce, NamesEachOwnerOnce;
    VaultRuns.InvMeansHistory(t, id);
    var vault := t.vaults[id];
    LinkingIsABijection(Linking(vault.roles, t.rows, t.mail), id, vault.selfManaged, RowsOf(t.rows, id),
                        receipt.created, VaultRuns.DrawnAt(t, id));
  }

  /** The record has the status, the hash and the addresses of the event, and every role the address deployed
      for the owner of its first token. */
  ghost predicate IsLinkedBy(t: Tables, id: string, record: Vault, hash: Option<string>, receipt: Receipt)
    requires id in t.vaults && |Attempts(t.sent, id)| == 1
  {
    && record.transactionStatus == Some(SUCCESSFUL) && record.transactionHash == hash
    && record.shareholderManagerAddress == receipt.managerAddress
    && (receipt.distributionAddress.Some? ==> record.vaultAddress == receipt.distributionAddress)
    && AllLinkedToOwn(t.vaults[id].roles, record.roles, receipt.created, VaultRuns.DrawnAt(t, id))
  }

  /** So the copies in a SUCCESS batch carry the linked roles and addresses. */
  lemma {:induction false} CopyIsLinked(w: World, acts: seq<Action>, e: nat, id: string, copy: Vault)
    requires Initial(w) && Feasible(w, acts) && WrittenAt(w, acts, e, id, copy)
    requires var t, c := Run(w, acts[..e]).tables, acts[e].change;
      && SubmittedOnce(t, id) && c.hash.Some? && c.hash.value != "" && c.receipt.Some?
      && FirstEmailsOccurOnce(t.vaults[id].roles)
      && NamesEachOwnerOnce(c.receipt.value.created, |AllEmails(t.vaults[id].roles)|, VaultRuns.DrawnAt(t, id))
    ensures IsLinkedBy(Run(w, acts[..e]).tables, id, copy, acts[e].change.hash, acts[e].change.receipt.value)
  {
    hide Inv, BatchInv, Initial, IsLinkedBy, FirstEmailsOccurOnce, NamesEachOwnerOnce;
    RunKeepsInv(w, acts[..e]);
    EventStep(Run(w, acts[..e]), acts[e]);
    EventLinksVault(Run(w, acts[..e]).tables, id, acts[e].change.hash, acts[e].change.receipt.value);
  }
}
