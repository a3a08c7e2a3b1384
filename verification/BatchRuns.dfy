/** Whole runs of the batch protocol: what SUCCESS and REJECTED mean, when they are reached and when
    they last, whatever the driver does with a failed task token and whenever PROCESSING is written. */
module BatchRuns {
  import opened Prelude
  import opened TokenAllocation
  import opened AddressLinking
  import opened KeyAgreement
  import opened VaultTables
  import opened KeyOwnership
  import opened BatchProtocol

  // ---------------------------------------------------------------- SUCCESS

  /** SUCCESS means that every vault of the collection, and its copy in the batch record, is SUCCESSFUL,
      exactly if ProcessCreationStatus never passed over a vault that had not succeeded. */
  lemma {:induction false} SuccessMeansEveryVault(w: World, acts: seq<Action>)
    requires Initial(w) && Feasible(w, acts) && Run(w, acts).batch.status.Success?
    ensures var u := Run(w, acts);
      var n := |u.batch.vaults|;
      && n > 0 && Done(u.batch.vaults[n - 1], u.tables.vaults)
      && ((forall j :: 0 <= j < n ==> Done(u.batch.vaults[j], u.tables.vaults)) <==> u.passedOver == {})
  {
    RunKeepsInv(w, acts);
    var u := Run(w, acts);
    if forall j :: 0 <= j < |u.batch.vaults| ==> Done(u.batch.vaults[j], u.tables.vaults) {
      forall j ensures j !in u.passedOver {
        if 0 <= j < |u.batch.vaults| { assert Done(u.batch.vaults[j], u.tables.vaults); }
      }
    }
  }

  /** Somebody submits a vault again while the driver is about to process its outcome. */
  predicate Resubmits(w: World, a: Action) {
    && a.Outside? && a.change.Submit? && w.driver.Checking?
    && w.driver.index < |w.batch.vaults| && w.batch.vaults[w.driver.index].id == Some(a.change.id)
  }

  ghost predicate NeverResubmits(w: World, acts: seq<Action>)
    requires Feasible(w, acts)
  {
    acts == [] || (NeverResubmits(w, acts[..|acts| - 1]) && !Resubmits(Run(w, acts[..|acts| - 1]), Last(acts)))
  }

  /** The vault has an outcome, and only repetitions of it to expect. */
  ghost predicate IsOver(t: Tables, id: string) {
    && id in t.vaults && id in t.flights && t.vaults[id].transactionStatus == t.flights[id].last
    && (t.flights[id].last == Some(SUCCESSFUL) || t.flights[id].last == Some(REJECTED))
  }

  ghost predicate CheckedIsOver(w: World) {
    w.driver.Checking? ==>
      && w.driver.index < |w.batch.vaults| && w.batch.vaults[w.driver.index].id.Some?
      && IsOver(w.tables, w.batch.vaults[w.driver.index].id.value)
  }

  lemma {:induction false} StaysOver(t: Tables, c: Change, id: string)
    requires Enabled(t, c) && IsOver(t, id) && !(c.Submit? && c.id == id)
    ensures IsOver(Apply(t, c), id)
  {}

  lemma {:induction false} GetsOver(t: Tables, c: Change)
    requires Enabled(t, c) && c.Notify? && (c.status == SUCCESSFUL || c.status == REJECTED)
    ensures IsOver(Apply(t, c), c.id)
  {}

  lemma {:induction false} StepKeepsOver(w: World, a: Action)
    requires Inv(w.tables) && BatchInv(w) && CanHappen(w, a) && CheckedIsOver(w) && w.passedOver == {}
    requires !Resubmits(w, a)
    ensures CheckedIsOver(Step(w, a)) && Step(w, a).passedOver == {}
  {
    if a.Outside? {
      OutsideKeepsOver(w, a.change, a.goesOn);
    } else {
      hide Inv, BatchInv;
    }
  }

  lemma {:induction false} OutsideKeepsOver(w: World, c: Change, goesOn: bool)
    requires Inv(w.tables) && BatchInv(w) && CanHappen(w, Outside(c, goesOn)) && CheckedIsOver(w)
    requires !Resubmits(w, Outside(c, goesOn))
    ensures CheckedIsOver(Step(w, Outside(c, goesOn)))
  {
    hide Inv, IsOver, Enabled, Apply, Progress, VisitsOk, StatusMeans, CheckedOk, DistinctIds;
    assert TokenOk(w.tables.flights, w.batch.vaults, w.visits, c.id);
    if w.driver.Checking? {
      StaysOver(w.tables, c, w.batch.vaults[w.driver.index].id.value);
    } else if IsAwaited(w.driver, w.tables.flights, c) && (c.status == SUCCESSFUL || c.status == REJECTED) {
      GetsOver(w.tables, c);
    }
  }

  lemma {:induction false} RunKeepsOver(w: World, acts: seq<Action>)
    requires Initial(w) && Feasible(w, acts) && NeverResubmits(w, acts)
    ensures CheckedIsOver(Run(w, acts)) && Run(w, acts).passedOver == {}
  {
    if acts != [] {
      hide Initial, CheckedIsOver, CanHappen, Step, BatchInv, Inv, Resubmits;
      var before := acts[..|acts| - 1];
      RunKeepsOver(w, before);
      RunKeepsInv(w, before);
      StepKeepsOver(Run(w, before), Last(acts));
    }
  }

  /** So nothing is passed over, and SUCCESS means every vault, in every run in which nobody submits a
      vault again while the driver is about to process it. */
  lemma {:induction false} SuccessWithoutResubmission(w: World, acts: seq<Action>)
    requires Initial(w) && Feasible(w, acts) && NeverResubmits(w, acts) && Run(w, acts).batch.status.Success?
    ensures var u := Run(w, acts);
      forall j :: 0 <= j < |u.batch.vaults| ==> Done(u.batch.vaults[j], u.tables.vaults)
  {
    RunKeepsOver(w, acts);
    SuccessMeansEveryVault(w, acts);
  }

  /** In particular with a driver that always stops at a failed task token: the vault it processes has
      succeeded, and the guard lets nobody submit it again. */
  lemma {:induction false} StoppingDriverIsSafe(w: World, acts: seq<Action>)
    requires Initial(w) && Feasible(w, acts) && forall a :: a in acts && a.Outside? ==> !a.goesOn
    ensures NeverResubmits(w, acts) && CheckedSucceeded(Run(w, acts))
  {
    if acts != [] {
      hide Initial, CheckedSucceeded, CanHappen, Step, BatchInv, Inv, Resubmits;
      var before := acts[..|acts| - 1];
      assert (forall a :: a in before ==> a in acts) && Last(acts) in acts;
      StoppingDriverIsSafe(w, before);
      RunKeepsInv(w, before);
      StoppingStep(Run(w, before), Last(acts));
    }
  }

  predicate Succeeded(t: Tables, id: string) {
    id in t.vaults && t.vaults[id].transactionStatus == Some(SUCCESSFUL)
  }

  ghost predicate CheckedSucceeded(w: World) {
    w.driver.Checking? ==>
      && w.driver.index < |w.batch.vaults| && w.batch.vaults[w.driver.index].id.Some?
      && Succeeded(w.tables, w.batch.vaults[w.driver.index].id.value)
  }

  lemma {:induction false} GetsSucceeded(t: Tables, c: Change)
    requires Enabled(t, c) && c.Notify? && c.status == SUCCESSFUL
    ensures Succeeded(Apply(t, c), c.id)
  {}

  lemma {:induction false} SucceededIsRefused(t: Tables, id: string, taskToken: Option<nat>)
    requires Succeeded(t, id)
    ensures !Enabled(t, Submit(id, taskToken))
  {}

  lemma {:induction false} StoppingStep(w: World, a: Action)
    requires Inv(w.tables) && BatchInv(w) && CanHappen(w, a) && CheckedSucceeded(w) && (a.Outside? ==> !a.goesOn)
    ensures CheckedSucceeded(Step(w, a)) && !Resubmits(w, a)
  {
    hide Succeeded, Enabled, Apply, Progress, VisitsOk, StatusMeans, CheckedOk, DistinctIds, AccountsInv, AllHistoryOk,
         AllStatusOk;
    if a.Outside? {
      var c := a.change;
      assert TokenOk(w.tables.flights, w.batch.vaults, w.visits, c.id);
      if w.driver.Checking? {
        StaysSucceeded(w.tables, c, w.batch.vaults[w.driver.index].id.value);
        if c.Submit? { SucceededIsRefused(w.tables, w.batch.vaults[w.driver.index].id.value, c.taskToken); }
      } else if c.Notify? && c.status == SUCCESSFUL {
        GetsSucceeded(w.tables, c);
      }
    }
  }

  lemma {:induction false} StaysSucceeded(t: Tables, c: Change, id: string)
    requires AllStatusOk(t.vaults, t.flights) && Enabled(t, c) && Succeeded(t, id)
    ensures Succeeded(Apply(t, c), id)
  {
    SuccessfulIsFinal(t, c, id);
  }

  // ---------------------------------------------------------------- REJECTED

  /** A step of the driver throws. */
  predicate Throws(w: World, a: Action)
    requires CanHappen(w, a)
  {
    match a
    case StepFails => true
    case CreateVault(breaksAfter) => SeparatedVault(w.batch, w.tables, w.driver.index, breaksAfter).2
    case ProcessCreationStatus => ProcessStatus(w.batch, w.tables.vaults, w.driver.index).1
    case _ => false
  }

  /** ... and PROCESSING was not written after that. */
  ghost predicate ThrewAndStays(w: World, acts: seq<Action>)
    requires Feasible(w, acts)
  {
    acts != [] &&
    var before := acts[..|acts| - 1];
    (Throws(Run(w, before), Last(acts)) || (ThrewAndStays(w, before) && !Last(acts).Announce?))
  }

  lemma {:induction false} RejectedStep(w: World, a: Action)
    requires BatchInv(w) && CanHappen(w, a)
    ensures Step(w, a).batch.status.Rejected? <==> Throws(w, a) || (w.batch.status.Rejected? && !a.Announce?)
  {
    hide Progress, TokensOk, CheckedOk, DistinctIds, VisitsOk;
  }

  /** A batch is REJECTED exactly if a step of its driver threw, and the PROCESSING write of sendEvent did
      not come after that. */
  lemma {:induction false} RejectedMeansThrew(w: World, acts: seq<Action>)
    requires Initial(w) && Feasible(w, acts)
    ensures Run(w, acts).batch.status.Rejected? <==> ThrewAndStays(w, acts)
  {
    if acts != [] {
      hide BatchInv, Inv, CanHappen, Step, Throws;
      var before := acts[..|acts| - 1];
      RejectedMeansThrew(w, before);
      RunKeepsInv(w, before);
      RejectedStep(Run(w, before), Last(acts));
    }
  }

  /** The driver's steps throw for a vault that is missing, already sent or done, or whose submission
      breaks down, and for an outcome that is a rejection. */
  lemma {:induction false} WhatThrows(w: World, a: Action)
    requires BatchInv(w) && CanHappen(w, a)
    ensures Throws(w, a) <==>
      || a.StepFails?
      || (a.CreateVault? && w.batch.vaults[w.driver.index].id.Some? && RefusedOrBroken(w, a.breaksAfter))
      || (a.ProcessCreationStatus? &&
            w.tables.vaults[w.batch.vaults[w.driver.index].id.value].transactionStatus == Some(REJECTED))
  {
    hide Progress, TokensOk, DistinctIds;
    if a.CreateVault? && w.batch.vaults[w.driver.index].id.Some? {
      var vault := Lookup(w.tables.vaults, w.batch.vaults[w.driver.index].id.value);
      if vault.Some? { GuardPasses(vault.value); }
    }
  }

  /** What a driver does to the tables is a submission or a broken one like anybody else's, with a task token for
      its index; a submission can break down after any number of accounts, from none to all. */
  lemma {:induction false} DriverSubmits(w: World, a: Action)
    requires BatchInv(w) && CanHappen(w, a)
    ensures Step(w, a).tables ==
      if a.Outside? then Apply(w.tables, a.change)
      else if a.CreateVault? && w.batch.vaults[w.driver.index].id.Some? then
        var id := w.batch.vaults[w.driver.index].id.value;
        if !Enabled(w.tables, Submit(id, Some(w.driver.index))) then w.tables
        else if a.breaksAfter.Some? && Enabled(w.tables, Break(id, a.breaksAfter.value)) then
          Apply(w.tables, Break(id, a.breaksAfter.value))
        else Apply(w.tables, Submit(id, Some(w.driver.index)))
      else w.tables
  {
    hide Progress, TokensOk, DistinctIds, StatusMeans, Submitted, Broken;
  }

  /** processCreationTransactionStatus on any batch and table: it throws exactly for a vault that is missing or
      rejected, and then writes REJECTED and nothing else; a pending vault changes nothing. */
  lemma {:induction false} ProcessingAnyBatch(batch: Batch, vaults: map<string, Vault>, index: nat)
    ensures var (after, threw) := ProcessStatus(batch, vaults, index);
      var there := index < |batch.vaults| && batch.vaults[index].id.Some?;
      && (threw <==>
            && there
            && var id := batch.vaults[index].id.value;
               id !in vaults || vaults[id].transactionStatus == Some(REJECTED))
      && (threw ==> after == batch.(status := Rejected))
      && (after != batch && !threw ==>
            there && vaults[batch.vaults[index].id.value].transactionStatus == Some(SUCCESSFUL))
  {}

  predicate RefusedOrBroken(w: World, breaksAfter: Option<nat>)
    requires w.driver.Creating? && w.driver.index < |w.batch.vaults| && w.batch.vaults[w.driver.index].id.Some?
  {
    var vault := Lookup(w.tables.vaults, w.batch.vaults[w.driver.index].id.value);
    || vault.None?
    || (vault.value.transactionStatus.Some? && vault.value.transactionStatus != Some(REJECTED))
    || Breaks(breaksAfter, |AllEmails(vault.value.roles)|)
  }

  // ---------------------------------------------------------------- outcomes last

  /** Between two moments of a run. */
  predicate AnnouncedSince(acts: seq<Action>, k: nat) {
    exists j :: k <= j < |acts| && acts[j].Announce?
  }

  lemma {:induction false} DecidedStep(w: World, a: Action)
    requires BatchInv(w) && CanHappen(w, a) && (Decided(w.batch.status) || w.overwritten)
    ensures var u := Step(w, a);
      && (a.Announce? ==> u.batch.status == Processing && u.overwritten)
      && (!a.Announce? ==> u.batch.status == w.batch.status && u.overwritten == w.overwritten)
  {
    hide Progress, TokensOk, CheckedOk, DistinctIds;
  }

  /** SUCCESS and REJECTED are final, and so exclude each other, exactly as long as the PROCESSING write of
      sendEvent does not come after them; if it does, the batch is PROCESSING for good. */
  lemma {:induction false} OutcomeIsFinal(w: World, acts: seq<Action>, k: nat)
    requires Initial(w) && Feasible(w, acts) && k <= |acts| && Feasible(w, acts[..k])
    requires Decided(Run(w, acts[..k]).batch.status)
    ensures var status := Run(w, acts).batch.status;
      status == if AnnouncedSince(acts, k) then Processing else Run(w, acts[..k]).batch.status
    ensures AnnouncedSince(acts, k) ==> Run(w, acts).overwritten
    decreases |acts|
  {
    if k == |acts| {
      assert acts[..k] == acts;
    } else {
      hide Initial, CanHappen, Step, BatchInv, Inv;
      var before := acts[..|acts| - 1];
      assert before[..k] == acts[..k];
      OutcomeIsFinal(w, before, k);
      RunKeepsInv(w, before);
      DecidedStep(Run(w, before), Last(acts));
      AnnouncedSnoc(acts, k);
    }
  }

  lemma {:induction false} AnnouncedSnoc(acts: seq<Action>, k: nat)
    requires k < |acts|
    ensures AnnouncedSince(acts, k) <==> AnnouncedSince(acts[..|acts| - 1], k) || Last(acts).Announce?
  {
    var before := acts[..|acts| - 1];
    if AnnouncedSince(before, k) {
      var j :| k <= j < |before| && before[j].Announce?;
      assert acts[j].Announce?;
    }
    if AnnouncedSince(acts, k) {
      var j :| k <= j < |acts| && acts[j].Announce?;
      assert j < |before| ==> before[j].Announce?;
    }
  }

  // ---------------------------------------------------------------- the driver's walk

  /** The driver visits the indexes 0, 1, 2, ... once each, and one that finishes has visited them all. */
  lemma {:induction false} EachIndexOnce(w: World, acts: seq<Action>)
    requires Initial(w) && Feasible(w, acts)
    ensures var u := Run(w, acts);
      && |u.visits| <= |u.batch.vaults| && (forall k :: 0 <= k < |u.visits| ==> u.visits[k] == k)
      && (u.driver.Finished? ==> |u.visits| == |u.batch.vaults|)
  {
    RunKeepsInv(w, acts);
  }

  /** The PROCESSING write came after the last outcome was processed. */
  predicate LateWrite(acts: seq<Action>) {
    acts != [] && (Last(acts).Announce? || (!Last(acts).ProcessCreationStatus? && LateWrite(acts[..|acts| - 1])))
  }

  lemma {:induction false} LateStep(w: World, a: Action)
    requires BatchInv(w) && CanHappen(w, a) && AtEnd(Step(w, a).driver, |w.batch.vaults|)
    ensures a.ProcessCreationStatus? ==> !Step(w, a).overwritten
    ensures !a.ProcessCreationStatus? ==> AtEnd(w.driver, |w.batch.vaults|) && Step(w, a).passedOver == w.passedOver
    ensures a.Announce? && |w.batch.vaults| - 1 !in w.passedOver ==> Step(w, a).overwritten
    ensures !a.ProcessCreationStatus? && !a.Announce? ==> Step(w, a).overwritten == w.overwritten
    ensures |Step(w, a).batch.vaults| == |w.batch.vaults|
  {
    hide TokensOk, DistinctIds;
  }

  lemma {:induction false} LateMeansOverwritten(w: World, acts: seq<Action>)
    requires Initial(w) && Feasible(w, acts)
    requires var u := Run(w, acts); AtEnd(u.driver, |u.batch.vaults|) && |u.batch.vaults| - 1 !in u.passedOver
    ensures LateWrite(acts) <==> Run(w, acts).overwritten
  {
    if acts != [] {
      var before := acts[..|acts| - 1];
      RunKeepsInv(w, before);
      SizeStays(w, before);
      SizeStays(w, acts);
      LateStep(Run(w, before), Last(acts));
      hide Initial, BatchInv, Inv, CanHappen, Step;
      if !Last(acts).ProcessCreationStatus? { LateMeansOverwritten(w, before); }
    }
  }

  lemma {:induction false} SizeStays(w: World, acts: seq<Action>)
    requires Feasible(w, acts)
    ensures |Run(w, acts).batch.vaults| == |w.batch.vaults|
  {
    if acts != [] {
      SizeStays(w, acts[..|acts| - 1]);
      SizeStep(Run(w, acts[..|acts| - 1]), Last(acts));
    }
  }

  lemma {:induction false} SizeStep(w: World, a: Action)
    requires CanHappen(w, a)
    ensures |Step(w, a).batch.vaults| == |w.batch.vaults|
  {}

  /** A driver that finishes a non-empty batch leaves SUCCESS exactly if it did not pass over the last vault
      and PROCESSING was not written after the last outcome was processed; otherwise no outcome at all. */
  lemma {:induction false} FinishedLeavesSuccess(w: World, acts: seq<Action>)
    requires Initial(w) && Feasible(w, acts) && Run(w, acts).driver.Finished? && |Run(w, acts).batch.vaults| > 0
    ensures var u := Run(w, acts);
      && (u.batch.status.Success? <==> |u.batch.vaults| - 1 !in u.passedOver && !LateWrite(acts))
      && !u.batch.status.Rejected?
  {
    RunKeepsInv(w, acts);
    var u := Run(w, acts);
    if |u.batch.vaults| - 1 !in u.passedOver { LateMeansOverwritten(w, acts); }
  }

  // ---------------------------------------------------------------- the driver stops

  /** Bounds how many steps the driver still makes in a batch of n vaults. */
  function Measure(d: Driver, n: nat): int {
    match d
    case Idle => 4 * n + 2
    case Iterating(current) => 4 * (n - (if current.Some? then current.value + 1 else 0)) + 1
    case Creating(i) => 4 * (n - i)
    case Waiting(i) => 4 * (n - i) - 1
    case Checking(i) => 4 * (n - i) - 2
    case _ => 0
  }

  function DriverSteps(acts: seq<Action>): nat {
    if acts == [] then 0
    else DriverSteps(acts[..|acts| - 1]) + if Last(acts).Outside? || Last(acts).Announce? then 0 else 1
  }

  lemma {:induction false} MeasureDrops(w: World, a: Action)
    requires BatchInv(w) && CanHappen(w, a)
    ensures var n := |w.batch.vaults|;
      && |Step(w, a).batch.vaults| == n
      && 0 <= Measure(Step(w, a).driver, n) <= Measure(w.driver, n) - if a.Outside? || a.Announce? then 0 else 1
  {
    hide Progress, StatusMeans, TokensOk, DistinctIds;
  }

  /** However users, events and the PROCESSING write interleave, the driver makes at most 4n + 2 steps. */
  lemma {:induction false} DriverTerminates(w: World, acts: seq<Action>)
    requires Initial(w) && Feasible(w, acts)
    ensures var n := |w.batch.vaults|;
      && |Run(w, acts).batch.vaults| == n
      && 0 <= Measure(Run(w, acts).driver, n) <= 4 * n + 2 - DriverSteps(acts)
  {
    if acts != [] {
      hide Initial, BatchInv, Inv, CanHappen, Step;
      DriverTerminates(w, acts[..|acts| - 1]);
      RunKeepsInv(w, acts[..|acts| - 1]);
      MeasureDrops(Run(w, acts[..|acts| - 1]), Last(acts));
    }
  }

  // ---------------------------------------------------------------- a rejected vault

  /** A driver that ended makes no more steps: of the batch record only the PROCESSING write is left. */
  lemma {:induction false} EndedDriverStays(w: World, acts: seq<Action>)
    requires (w.driver.Stopped? || w.driver.Finished?) && Feasible(w, acts)
    ensures var u := Run(w, acts);
      && u.driver == w.driver && u.batch.vaults == w.batch.vaults
      && u.batch.status == if AnnouncedSince(acts, 0) then Processing else w.batch.status
  {
    if acts != [] {
      EndedDriverStays(w, acts[..|acts| - 1]);
      AnnouncedSnoc(acts, 0);
    }
  }

  /** The awaited vault is rejected. If the driver goes on, processing the outcome makes the batch REJECTED;
      if it stops, the batch has no outcome in any continuation. */
  lemma {:induction false} RejectedVaultOutcome(w: World, acts: seq<Action>, c: Change, goesOn: bool,
                                                later: seq<Action>)
    requires Initial(w) && Feasible(w, acts)
    requires var u := Run(w, acts);
      && CanHappen(u, Outside(c, goesOn)) && IsAwaited(u.driver, u.tables.flights, c) && c.status == REJECTED
      && Feasible(Step(u, Outside(c, goesOn)), later)
    ensures var v := Step(Run(w, acts), Outside(c, goesOn));
      if goesOn then CanHappen(v, ProcessCreationStatus) && Step(v, ProcessCreationStatus).batch.status.Rejected?
      else !Decided(Run(v, later).batch.status)
  {
    hide Inv, BatchInv, Enabled, Apply, Step, CanHappen;
    RunKeepsInv(w, acts);
    if goesOn {
      RejectionIsProcessed(Run(w, acts), c);
    } else {
      RejectionStops(Run(w, acts), c);
      EndedDriverStays(Step(Run(w, acts), Outside(c, false)), later);
    }
  }

  lemma {:induction false} RejectionStops(u: World, c: Change)
    requires BatchInv(u) && CanHappen(u, Outside(c, false)) && IsAwaited(u.driver, u.tables.flights, c)
    requires c.status == REJECTED
    ensures var v := Step(u, Outside(c, false)); v.driver.Stopped? && !Decided(v.batch.status)
  {
    hide Progress, TokensOk, DistinctIds, Enabled, Apply;
  }

  lemma {:induction false} RejectionIsProcessed(u: World, c: Change)
    requires BatchInv(u) && CanHappen(u, Outside(c, true)) && IsAwaited(u.driver, u.tables.flights, c)
    requires c.status == REJECTED
    ensures var v := Step(u, Outside(c, true));
      CanHappen(v, ProcessCreationStatus) && Step(v, ProcessCreationStatus).batch.status.Rejected?
  {
    hide Progress, StatusMeans, VisitsOk, DistinctIds;
    assert TokenOk(u.tables.flights, u.batch.vaults, u.visits, c.id);
  }

  /** What holds in every run of the tables holds while batches are created: for one, an invitation
      opens the wallet that was submitted for its email's token under the same exact condition. */
  lemma {:induction false} BatchInvitationOpens(w: World, acts: seq<Action>, m: Invitation, token: nat, l: nat)
    requires Initial(w) && Feasible(w, acts) && IsInvitationOf(Run(w, acts).tables, m, token)
    requires var attempts := Attempts(Run(w, acts).tables.sent, m.vaultId); l < |attempts| && attempts[l].delivered
    ensures OpensWallet(Run(w, acts).tables, m, token, l)
  {
    hide Inv, BatchInv, OpensWallet;
    RunKeepsInv(w, acts);
    InvitationOpens(Run(w, acts).tables, m, token, l);
  }
}
