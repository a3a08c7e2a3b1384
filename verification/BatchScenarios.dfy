/** Runs of the batch protocol that exist: every set of vaults without the last can be passed over on the
    way to SUCCESS, and a rejected vault can leave its batch REJECTED or PROCESSING. */
module BatchScenarios {
  import opened Prelude
  import opened TokenAllocation
  import opened VaultTables
  import opened BatchProtocol
  import opened BatchRuns

  lemma {:induction false} RunsCompose(w: World, first: seq<Action>, second: seq<Action>)
    requires Feasible(w, first) && Feasible(Run(w, first), second)
    ensures Feasible(w, first + second) && Run(w, first + second) == Run(Run(w, first), second)
  {
    if second == [] {
      assert first + second == first;
    } else {
      var before := second[..|second| - 1];
      RunsCompose(w, first, before);
      assert (first + second)[..|first + second| - 1] == first + before;
    }
  }

  lemma {:induction false} OneStep(w: World, a: Action)
    requires CanHappen(w, a)
    ensures Feasible(w, [a]) && Run(w, [a]) == Step(w, a)
  {
    assert [a][..0] == [];
  }

  lemma {:induction false} OneMoreStep(w: World, acts: seq<Action>, a: Action)
    requires Feasible(w, acts) && CanHappen(Run(w, acts), a)
    ensures Feasible(w, acts + [a]) && Run(w, acts + [a]) == Step(Run(w, acts), a)
  {
    OneStep(Run(w, acts), a);
    RunsCompose(w, acts, [a]);
  }

  // ---------------------------------------------------------------- one vault after the other

  /** The vault can be submitted. */
  predicate Submittable(t: Tables, id: string) {
    id in t.vaults && SubmissionGuard(Some(t.vaults[id])).None? && !InFlight(t.flights, id)
  }

  /** The driver is about to reach index k, and the vaults from there on can be submitted. */
  ghost predicate Before(w: World, k: nat) {
    && w.driver == Iterating(if k == 0 then None else Some(k - 1)) && k <= |w.batch.vaults|
    && DistinctIds(w.batch.vaults) && w.announced
    && forall j {:trigger w.batch.vaults[j]} :: k <= j < |w.batch.vaults| ==>
         w.batch.vaults[j].id.Some? && Submittable(w.tables, w.batch.vaults[j].id.value)
  }

  /** Only this vault's part of the tables has changed. */
  ghost predicate OnlyVault(t: Tables, u: Tables, id: string) {
    forall other :: other != id ==> AsBefore(t, u, other)
  }

  predicate AsBefore(t: Tables, u: Tables, id: string) {
    && (id in u.vaults <==> id in t.vaults) && (id in t.vaults && id in u.vaults ==> u.vaults[id] == t.vaults[id])
    && (id in u.flights <==> id in t.flights) && (id in t.flights && id in u.flights ==> u.flights[id] == t.flights[id])
  }

  /** From iteration to the outcome of a vault. */
  function UpToOutcome(id: string, status: TransactionStatus, goesOn: bool): seq<Action> {
    [Iterate, CreateVault(None), Outside(Notify(id, status, None, None), goesOn)]
  }

  /** A rejected vault is submitted again, and its new transaction is pending when the driver looks. */
  function Resubmission(id: string): seq<Action> {
    [Outside(Submit(id, None), true), Outside(Notify(id, SUBMITTED, None, None), true)]
  }

  function Round(id: string, passOver: bool): seq<Action> {
    if passOver then UpToOutcome(id, REJECTED, true) + Resubmission(id) + [ProcessCreationStatus]
    else UpToOutcome(id, SUCCESSFUL, true) + [ProcessCreationStatus]
  }

  lemma {:induction false} SubmissionComes(w: World, k: nat)
    requires Before(w, k) && k < |w.batch.vaults|
    ensures CanHappen(w, Iterate) && CanHappen(Step(w, Iterate), CreateVault(None))
    ensures Step(Step(w, Iterate), CreateVault(None)) ==
      w.(driver := Waiting(k), tables := Submitted(w.tables, w.batch.vaults[k].id.value, Some(k)),
         visits := w.visits + [k])
  {
    hide DistinctIds, Submitted;
    assert Submittable(w.tables, w.batch.vaults[k].id.value);
  }

  lemma {:induction false} EventResolves(t: Tables, id: string, k: nat, status: TransactionStatus)
    requires id in t.vaults
    ensures var waiting := Submitted(t, id, Some(k));
      && Enabled(waiting, Notify(id, status, None, None))
      && var u := Apply(waiting, Notify(id, status, None, None));
      && OnlyVault(t, u, id) && id in u.vaults && u.vaults[id].transactionStatus == Some(status)
      && u.flights == t.flights[id := Flight(Some(status), Some(k))]
  {}

  lemma {:induction false} OutcomeComes(w: World, k: nat, status: TransactionStatus, goesOn: bool)
    requires Before(w, k) && k < |w.batch.vaults| && (status == SUCCESSFUL || status == REJECTED)
    ensures var id := w.batch.vaults[k].id.value;
      var acts := UpToOutcome(id, status, goesOn);
      && Feasible(w, acts)
      && var u := Run(w, acts);
      && u.driver == (if status == SUCCESSFUL || goesOn then Checking(k) else Stopped)
      && u.batch == w.batch && u.announced && u.passedOver == w.passedOver
      && OnlyVault(w.tables, u.tables, id)
      && id in u.tables.vaults && u.tables.vaults[id].transactionStatus == Some(status)
      && u.tables.flights == w.tables.flights[id := Flight(Some(status), Some(k))]
  {
    hide OnlyVault, DistinctIds, Submitted, Enabled, Apply;
    var id := w.batch.vaults[k].id.value;
    var iterate, create, event := Iterate, CreateVault(None), Outside(Notify(id, status, None, None), goesOn);
    assert Submittable(w.tables, id);
    SubmissionComes(w, k);
    EventResolves(w.tables, id, k, status);
    SubmittedFlies(w.tables, id, k);
    assert CanHappen(Step(Step(w, iterate), create), event);
    hide CanHappen, Run, Feasible;
    OneStep(w, iterate);
    OneMoreStep(w, [iterate], create);
    OneMoreStep(w, [iterate] + [create], event);
    assert UpToOutcome(id, status, goesOn) == [iterate] + [create] + [event];
  }

  lemma {:induction false} SubmittedFlies(t: Tables, id: string, k: nat)
    requires id in t.vaults
    ensures Submitted(t, id, Some(k)).flights == t.flights[id := Flight(None, Some(k))]
  {}

  lemma {:induction false} ResubmissionComes(w: World, k: nat)
    requires w.driver == Checking(k) && k < |w.batch.vaults| && w.batch.vaults[k].id.Some?
    requires var id := w.batch.vaults[k].id.value;
      && id in w.tables.vaults && w.tables.vaults[id].transactionStatus == Some(REJECTED)
      && id in w.tables.flights && w.tables.flights[id].last == Some(REJECTED)
    ensures var id := w.batch.vaults[k].id.value;
      && Feasible(w, Resubmission(id))
      && var u := Run(w, Resubmission(id));
      && u == w.(tables := u.tables) && OnlyVault(w.tables, u.tables, id)
      && id in u.tables.vaults && u.tables.vaults[id].transactionStatus == Some(SUBMITTED)
  {
    var id := w.batch.vaults[k].id.value;
    var submit, event := Outside(Submit(id, None), true), Outside(Notify(id, SUBMITTED, None, None), true);
    GuardPasses(w.tables.vaults[id]);
    assert CanHappen(w, submit);
    var w1 := Step(w, submit);
    assert CanHappen(w1, event);
    var w2 := Step(w1, event);
    hide CanHappen, Step;
    OneStep(w, submit);
    OneMoreStep(w, [submit], event);
    assert Resubmission(id) == [submit] + [event];
  }

  /** The driver processes the outcome of a vault that has succeeded or is pending. */
  lemma {:induction false} OutcomeIsProcessed(w: World, k: nat)
    requires w.driver == Checking(k) && k < |w.batch.vaults| && w.batch.vaults[k].id.Some?
    requires DistinctIds(w.batch.vaults)
    requires var id := w.batch.vaults[k].id.value;
      id in w.tables.vaults && w.tables.vaults[id].transactionStatus != Some(REJECTED)
    ensures var succeeded := w.tables.vaults[w.batch.vaults[k].id.value].transactionStatus == Some(SUCCESSFUL);
      && CanHappen(w, ProcessCreationStatus)
      && var u := Step(w, ProcessCreationStatus);
      && u.driver == Iterating(Some(k)) && u.tables == w.tables && u.announced == w.announced
      && SameIds(w.batch.vaults, u.batch.vaults)
      && u.passedOver == w.passedOver + (if succeeded then {} else {k})
      && u.batch.status == (if succeeded && k == |w.batch.vaults| - 1 then Success else w.batch.status)
  {}

  ghost predicate SameIds(bs: seq<BatchVault>, later: seq<BatchVault>) {
    |bs| == |later| && forall j :: 0 <= j < |bs| ==> later[j].id == bs[j].id
  }

  /** The round is over: index k was passed over or is done. */
  ghost predicate AfterRound(w: World, u: World, k: nat, passOver: bool) {
    && Before(u, k + 1) && SameIds(w.batch.vaults, u.batch.vaults)
    && u.passedOver == w.passedOver + (if passOver then {k} else {})
    && u.batch.status == if !passOver && k == |w.batch.vaults| - 1 then Success else w.batch.status
  }

  /** The outcome is there, and the driver looks at it next. */
  ghost predicate OutcomeIsThere(w: World, u: World, k: nat)
    requires k < |w.batch.vaults| && w.batch.vaults[k].id.Some?
  {
    var id := w.batch.vaults[k].id.value;
    && u.driver == Checking(k) && u.batch == w.batch && u.announced && u.passedOver == w.passedOver
    && OnlyVault(w.tables, u.tables, id) && id in u.tables.vaults
  }

  lemma {:induction false} OutcomeIsPassed(w: World, u: World, k: nat, passOver: bool)
    requires Before(w, k) && k < |w.batch.vaults| && OutcomeIsThere(w, u, k)
    requires u.tables.vaults[w.batch.vaults[k].id.value].transactionStatus ==
      Some(if passOver then SUBMITTED else SUCCESSFUL)
    ensures CanHappen(u, ProcessCreationStatus) && AfterRound(w, Step(u, ProcessCreationStatus), k, passOver)
  {
    hide CanHappen, Step, OnlyVault;
    OutcomeIsProcessed(u, k);
    StillBefore(w, Step(u, ProcessCreationStatus), k);
  }

  lemma {:induction false} GoodRound(w: World, k: nat)
    requires Before(w, k) && k < |w.batch.vaults|
    ensures var acts := Round(w.batch.vaults[k].id.value, false);
      Feasible(w, acts) && AfterRound(w, Run(w, acts), k, false)
  {
    hide CanHappen, Step, OnlyVault, AfterRound, Run, Feasible, DistinctIds, UpToOutcome;
    var id := w.batch.vaults[k].id.value;
    OutcomeComes(w, k, SUCCESSFUL, true);
    OutcomeIsPassed(w, Run(w, UpToOutcome(id, SUCCESSFUL, true)), k, false);
    OneMoreStep(w, UpToOutcome(id, SUCCESSFUL, true), ProcessCreationStatus);
  }

  lemma {:induction false} PassingRound(w: World, k: nat)
    requires Before(w, k) && k < |w.batch.vaults|
    ensures var acts := Round(w.batch.vaults[k].id.value, true);
      Feasible(w, acts) && AfterRound(w, Run(w, acts), k, true)
  {
    hide CanHappen, Step, OnlyVault, AfterRound, Run, Feasible, DistinctIds, UpToOutcome, Resubmission;
    var id := w.batch.vaults[k].id.value;
    var rejected := UpToOutcome(id, REJECTED, true);
    OutcomeComes(w, k, REJECTED, true);
    ResubmissionComes(Run(w, rejected), k);
    RunsCompose(w, rejected, Resubmission(id));
    OnlyVaultComposes(w.tables, Run(w, rejected).tables, Run(w, rejected + Resubmission(id)).tables, id);
    OutcomeIsPassed(w, Run(w, rejected + Resubmission(id)), k, true);
    OneMoreStep(w, rejected + Resubmission(id), ProcessCreationStatus);
  }

  lemma {:induction false} OnlyVaultComposes(t: Tables, mid: Tables, u: Tables, id: string)
    requires OnlyVault(t, mid, id) && OnlyVault(mid, u, id)
    ensures OnlyVault(t, u, id)
  {
    forall other | other != id ensures AsBefore(t, u, other) {
      assert AsBefore(t, mid, other) && AsBefore(mid, u, other);
    }
  }

  lemma {:induction false} StillBefore(w: World, u: World, k: nat)
    requires Before(w, k) && k < |w.batch.vaults| && SameIds(w.batch.vaults, u.batch.vaults)
    requires OnlyVault(w.tables, u.tables, w.batch.vaults[k].id.value)
    requires u.driver == Iterating(Some(k)) && u.announced
    ensures Before(u, k + 1)
  {
    forall j {:trigger u.batch.vaults[j]} | k + 1 <= j < |u.batch.vaults|
      ensures u.batch.vaults[j].id.Some? && Submittable(u.tables, u.batch.vaults[j].id.value)
    {
      assert w.batch.vaults[j].id == u.batch.vaults[j].id;
      assert w.batch.vaults[k].id != w.batch.vaults[j].id;
      assert AsBefore(w.tables, u.tables, w.batch.vaults[j].id.value);
    }
  }

  /** All vaults before index k, passing over the given ones. */
  ghost function Rounds(bs: seq<BatchVault>, passOver: set<nat>, k: nat): seq<Action>
    requires k <= |bs| && forall j :: 0 <= j < |bs| ==> bs[j].id.Some?
  {
    if k == 0 then [Begin] + [Announce] else Rounds(bs, passOver, k - 1) + Round(bs[k - 1].id.value, k - 1 in passOver)
  }

  /** A new batch whose vaults can all be submitted. */
  ghost predicate Ready(w: World) {
    && Initial(w)
    && forall j {:trigger w.batch.vaults[j]} :: 0 <= j < |w.batch.vaults| ==>
         w.batch.vaults[j].id.Some? && Submittable(w.tables, w.batch.vaults[j].id.value)
  }

  /** The first k vaults are through. */
  ghost predicate Through(w: World, u: World, passOver: set<nat>, k: nat) {
    && Before(u, k) && SameIds(w.batch.vaults, u.batch.vaults)
    && u.passedOver == (set j | j in passOver && 0 <= j < k)
    && u.batch.status == if k > 0 && k == |w.batch.vaults| && k - 1 !in passOver then Success else Processing
  }

  lemma {:induction false} RoundsPass(w: World, passOver: set<nat>, k: nat)
    requires Ready(w) && k <= |w.batch.vaults|
    ensures var acts := Rounds(w.batch.vaults, passOver, k);
      Feasible(w, acts) && Through(w, Run(w, acts), passOver, k)
  {
    hide CanHappen, Step, Initial, Through, Feasible, Run, Round;
    if k == 0 {
      BatchStarts(w, passOver);
    } else {
      RoundsPass(w, passOver, k - 1);
      var before := Rounds(w.batch.vaults, passOver, k - 1);
      OneMoreRound(w, Run(w, before), passOver, k - 1);
      RunsCompose(w, before, Round(w.batch.vaults[k - 1].id.value, k - 1 in passOver));
    }
  }

  lemma {:induction false} BatchStarts(w: World, passOver: set<nat>)
    requires Ready(w)
    ensures Feasible(w, [Begin] + [Announce]) && Through(w, Run(w, [Begin] + [Announce]), passOver, 0)
  {
    hide Run, Feasible;
    OneStep(w, Begin);
    OneMoreStep(w, [Begin], Announce);
  }

  lemma {:induction false} OneMoreRound(w: World, u: World, passOver: set<nat>, k: nat)
    requires Through(w, u, passOver, k) && k < |w.batch.vaults| && w.batch.vaults[k].id.Some?
    ensures var acts := Round(w.batch.vaults[k].id.value, k in passOver);
      Feasible(u, acts) && Through(w, Run(u, acts), passOver, k + 1)
  {
    hide CanHappen, Step, Feasible, Run, Round, Before;
    assert u.batch.vaults[k].id == w.batch.vaults[k].id;
    if k in passOver { PassingRound(u, k); } else { GoodRound(u, k); }
    var v := Run(u, Round(w.batch.vaults[k].id.value, k in passOver));
    SameIdsCompose(w.batch.vaults, u.batch.vaults, v.batch.vaults);
    assert v.passedOver == (set j | j in passOver && 0 <= j < k + 1);
  }

  lemma {:induction false} SameIdsCompose(bs: seq<BatchVault>, mid: seq<BatchVault>, later: seq<BatchVault>)
    requires SameIds(bs, mid) && SameIds(mid, later)
    ensures SameIds(bs, later)
  {
    forall j | 0 <= j < |bs| ensures later[j].id == bs[j].id {
      assert mid[j].id == bs[j].id;
    }
  }

  /** For every new batch, a set of vaults can be passed over on the way to SUCCESS exactly if the last vault
      is not in it. Those that were are the ones that are not done. */
  lemma {:induction false} SuccessCanPassOver(w: World, passOver: set<nat>)
    requires Ready(w) && |w.batch.vaults| > 0
    ensures (exists acts :: Feasible(w, acts) && SucceedsWithout(Run(w, acts), passOver)) <==>
      forall j :: j in passOver ==> j < |w.batch.vaults| - 1
  {
    hide Inv, Run, Feasible, Before;
    var n := |w.batch.vaults|;
    if forall j :: j in passOver ==> j < n - 1 {
      var acts := Rounds(w.batch.vaults, passOver, n);
      RoundsPass(w, passOver, n);
      assert (set j | j in passOver && 0 <= j < n) == passOver;
      RunKeepsInv(w, acts);
      assert SucceedsWithout(Run(w, acts), passOver);
    }
    if acts :| Feasible(w, acts) && SucceedsWithout(Run(w, acts), passOver) {
      RunKeepsInv(w, acts);
      SizeStays(w, acts);
    }
  }

  ghost predicate SucceedsWithout(u: World, passOver: set<nat>) {
    && u.batch.status.Success? && u.passedOver == passOver
    && forall j {:trigger u.batch.vaults[j]} :: 0 <= j < |u.batch.vaults| ==>
         (j in passOver <==> !Done(u.batch.vaults[j], u.tables.vaults))
  }

  /** For every new batch and every index there is a run in which this vault is the first to be rejected.
      If the driver stops there, the batch stays PROCESSING; if it goes on, it becomes REJECTED. */
  lemma {:induction false} RejectionHappens(w: World, k: nat, goesOn: bool)
    requires Ready(w) && k < |w.batch.vaults|
    ensures var acts := UpToRejection(w.batch.vaults, k, goesOn);
      Feasible(w, acts) && IsOutcomeOfRejection(Run(w, acts), goesOn)
  {
    hide Initial, CanHappen, Step, Feasible, Run, Rounds, UpToOutcome;
    var before := Rounds(w.batch.vaults, {}, k);
    var acts := UpToOutcome(w.batch.vaults[k].id.value, REJECTED, goesOn);
    RoundsPass(w, {}, k);
    RejectionComes(w, Run(w, before), k, goesOn);
    RunsCompose(w, before, acts);
    if goesOn { OneMoreStep(w, before + acts, ProcessCreationStatus); }
    assert before + acts + [] == before + acts;
  }

  predicate IsOutcomeOfRejection(u: World, goesOn: bool) {
    u.driver.Stopped? && u.batch.status == if goesOn then BatchStatus.Rejected else Processing
  }

  lemma {:induction false} RejectionComes(w: World, u: World, k: nat, goesOn: bool)
    requires Through(w, u, {}, k) && k < |w.batch.vaults| && w.batch.vaults[k].id.Some?
    ensures var acts := UpToOutcome(w.batch.vaults[k].id.value, REJECTED, goesOn);
      && Feasible(u, acts)
      && var v := Run(u, acts);
      if goesOn then CanHappen(v, ProcessCreationStatus) && IsOutcomeOfRejection(Step(v, ProcessCreationStatus), true)
      else IsOutcomeOfRejection(v, false)
  {
    hide Run, Feasible, OnlyVault, DistinctIds, CanHappen, Step, UpToOutcome;
    assert u.batch.vaults[k].id == w.batch.vaults[k].id;
    OutcomeComes(u, k, REJECTED, goesOn);
    if goesOn { RejectionIsSeen(Run(u, UpToOutcome(w.batch.vaults[k].id.value, REJECTED, goesOn)), k); }
  }

  lemma {:induction false} RejectionIsSeen(w: World, k: nat)
    requires w.driver == Checking(k) && k < |w.batch.vaults| && w.batch.vaults[k].id.Some?
    requires var id := w.batch.vaults[k].id.value;
      id in w.tables.vaults && w.tables.vaults[id].transactionStatus == Some(REJECTED)
    ensures CanHappen(w, ProcessCreationStatus) && IsOutcomeOfRejection(Step(w, ProcessCreationStatus), true)
  {}

  ghost function UpToRejection(bs: seq<BatchVault>, k: nat, goesOn: bool): seq<Action>
    requires k < |bs| && forall j :: 0 <= j < |bs| ==> bs[j].id.Some?
  {
    Rounds(bs, {}, k) + UpToOutcome(bs[k].id.value, REJECTED, goesOn) + if goesOn then [ProcessCreationStatus] else []
  }

  // ---------------------------------------------------------------- one vault

  const ROLE := Role("Director", ["owner@mail"], 10_000, None)
  const ONE_VAULT := World(
    Apply(EMPTY, Add("v", [ROLE], false)), Batch(BatchStatus.Created, [BatchVault(Some("v"), None)]), Idle, [],
    false, false, {})

  /** One new vault in a batch of its own: created, announced, submitted and rejected. */
  lemma {:induction false} OneVaultIsRejected(goesOn: bool)
    ensures Ready(ONE_VAULT)
    ensures var stopped := [Begin, Announce, Iterate, CreateVault(None),
                            Outside(Notify("v", REJECTED, None, None), goesOn)];
      var acts := if goesOn then stopped + [ProcessCreationStatus] else stopped;
      Feasible(ONE_VAULT, acts) && IsOutcomeOfRejection(Run(ONE_VAULT, acts), goesOn)
  {
    hide Ready, Feasible, Run, IsOutcomeOfRejection;
    OneVaultIsReady();
    RejectionHappens(ONE_VAULT, 0, goesOn);
    var stopped := [Begin, Announce, Iterate, CreateVault(None), Outside(Notify("v", REJECTED, None, None), goesOn)];
    assert Rounds(ONE_VAULT.batch.vaults, {}, 0) + UpToOutcome("v", REJECTED, goesOn) == stopped;
    assert stopped + [] == stopped;
  }

  lemma {:induction false} OneVaultIsReady()
    ensures Ready(ONE_VAULT)
  {
    assert Attempts(EMPTY.sent, "v") == [];
    ChangeKeepsInv(EMPTY, Add("v", [ROLE], false));
  }
}
