/** The creation of a batch of vaults: an external driver walks the batch (lambdas/iterator.ts), for
    each index submits the vault, waits for its task token and then processes the outcome
    (vaults-creator.service.ts), while users and chain events change the tables in between. */
module BatchProtocol {
  import opened Prelude
  import opened TokenAllocation
  import opened KeyAgreement
  import opened VaultTables

  datatype BatchStatus = Created | Processing | Success | Rejected

  /** `copy` is the vault record as last written into the batch record. */
  datatype BatchVault = BatchVault(id: Option<string>, copy: Option<Vault>)

  datatype Batch = Batch(status: BatchStatus, vaults: seq<BatchVault>)

  datatype Iteration = Iteration(index: nat, count: nat, continue_: bool)

  /** lambdas/iterator.ts: no iterator yet counts as index -1. */
  function NextIteration(current: Option<nat>, count: nat): Iteration {
    var index := if current.Some? then current.value + 1 else 0;
    Iteration(index, count, index < count)
  }

  /** Where the driver is. `Waiting` is for a task token of its index. */
  datatype Driver =
    | Idle | Iterating(current: Option<nat>) | Creating(index: nat) | Waiting(index: nat) | Checking(index: nat)
    | Finished | Stopped

  // ---------------------------------------------------------------- the steps of vaults-creator.service.ts

  function IndexOf(vaults: seq<BatchVault>, id: string): (i: nat)
    ensures i <= |vaults|
    ensures i < |vaults| ==> vaults[i].id == Some(id)
    ensures forall j :: 0 <= j < i ==> vaults[j].id != Some(id)
  {
    FindIndex(vaults, (v: BatchVault) => v.id == Some(id))
  }

  /** updateVaultByIds */
  function WithCopy(batch: Batch, id: string, record: Vault): Batch {
    var i := IndexOf(batch.vaults, id);
    if i < |batch.vaults| then batch.(vaults := batch.vaults[i := BatchVault(Some(id), Some(record))]) else batch
  }

  /** processCreationTransactionStatus: the batch afterwards, and whether the step throws. */
  function ProcessStatus(batch: Batch, vaults: map<string, Vault>, index: nat): (Batch, bool) {
    if index >= |batch.vaults| || batch.vaults[index].id.None? then (batch, false)
    else match Lookup(vaults, batch.vaults[index].id.value)
      case None => (batch.(status := Rejected), true)
      case Some(record) =>
        if record.transactionStatus == Some(REJECTED) then (batch.(status := Rejected), true)
        else if record.transactionStatus == Some(SUCCESSFUL) then
          var copied := WithCopy(batch, batch.vaults[index].id.value, record);
          (if index == |batch.vaults| - 1 then copied.(status := Success) else copied, false)
        else (batch, false)
  }

  /** createSeparatedVault: the batch and the tables afterwards, and whether the step throws. The
      submission itself may break down after so many accounts; the catch block handles all alike. */
  function SeparatedVault(batch: Batch, t: Tables, index: nat, breaksAfter: Option<nat>): (Batch, Tables, bool) {
    if index >= |batch.vaults| || batch.vaults[index].id.None? then (batch, t, false)
    else
      var id := batch.vaults[index].id.value;
      if SubmissionGuard(Lookup(t.vaults, id)).Some? then (batch.(status := Rejected), t, true)
      else if Breaks(breaksAfter, |AllEmails(t.vaults[id].roles)|) then
        (batch.(status := Rejected), Broken(t, id, breaksAfter.value), true)
      else (batch, Submitted(t, id, Some(index)), false)
  }

  /** The step goes on although the vault has not succeeded. */
  predicate PassesOver(batch: Batch, vaults: map<string, Vault>, index: nat)
    requires index < |batch.vaults| && batch.vaults[index].id.Some? && batch.vaults[index].id.value in vaults
  {
    var status := vaults[batch.vaults[index].id.value].transactionStatus;
    status != Some(SUCCESSFUL) && status != Some(REJECTED)
  }

  // ---------------------------------------------------------------- the transition system

  /** History: `visits` are the indexes for which CreateVault ran, `announced` whether sendEvent has
      written PROCESSING, `overwritten` whether that wiped out an outcome, and `passedOver` the indexes
      that ProcessCreationStatus passed over. */
  datatype World = World(
    tables: Tables, batch: Batch, driver: Driver, visits: seq<nat>,
    announced: bool, overwritten: bool, passedOver: set<nat>)

  /** The driver is not part of the repository, so both reactions to a failed task token are allowed:
      `goesOn` to ProcessCreationStatus, or stop. */
  datatype Action =
    | Outside(change: Change, goesOn: bool)  // users, other vaults, and chain events with their task tokens
    | Begin                                  // the driver receives the event of sendEvent
    | Announce                               // sendEvent writes PROCESSING, sooner or later
    | Iterate
    | CreateVault(breaksAfter: Option<nat>)
    | ProcessCreationStatus
    | StepFails                              // a step of the driver throws before it has written anything
    | DriverDies

  predicate Moving(d: Driver) {
    d.Iterating? || d.Creating? || d.Waiting? || d.Checking?
  }

  predicate Decided(s: BatchStatus) {
    s.Success? || s.Rejected?
  }

  predicate CanHappen(w: World, a: Action) {
    match a
    case Outside(c, _) => Enabled(w.tables, c) && (c.Submit? ==> c.taskToken.None?)
    case Begin => w.driver.Idle?
    case Announce => !w.announced
    case Iterate => w.driver.Iterating?
    case CreateVault(_) => w.driver.Creating? && !Races(w, w.driver.index)
    case ProcessCreationStatus => w.driver.Checking?
    case StepFails => w.driver.Creating? || w.driver.Checking?
    case DriverDies => Moving(w.driver)
  }

  /** Somebody else's submission of the same vault is sent and has no event yet. */
  predicate Races(w: World, index: nat) {
    && index < |w.batch.vaults| && w.batch.vaults[index].id.Some?
    && InFlight(w.tables.flights, w.batch.vaults[index].id.value)
  }

  /** The change is an event of the submission that the driver waits for. */
  predicate IsAwaited(d: Driver, flights: map<string, Flight>, c: Change) {
    c.Notify? && c.id in flights && d.Waiting? && flights[c.id].taskToken == Some(d.index)
  }

  /** SendTaskSuccess lets the waiting driver go on; SendTaskFailure stops it or does not. */
  function Resolved(d: Driver, flights: map<string, Flight>, c: Change, goesOn: bool): Driver {
    if !IsAwaited(d, flights, c) then d
    else if c.status == SUCCESSFUL || (c.status == REJECTED && goesOn) then Checking(d.index)
    else if c.status == REJECTED then Stopped
    else d
  }

  function PassedNow(w: World): set<nat>
    requires w.driver.Checking?
  {
    var i := w.driver.index;
    if i < |w.batch.vaults| && w.batch.vaults[i].id.Some? && w.batch.vaults[i].id.value in w.tables.vaults &&
       PassesOver(w.batch, w.tables.vaults, i) then {i} else {}
  }

  function Step(w: World, a: Action): World
    requires CanHappen(w, a)
  {
    match a
    case Outside(c, goesOn) =>
      w.(tables := Apply(w.tables, c), driver := Resolved(w.driver, w.tables.flights, c, goesOn))
    case Begin => w.(driver := Iterating(None))
    case Announce =>
      w.(batch := w.batch.(status := Processing), announced := true, overwritten := Decided(w.batch.status))
    case Iterate =>
      var next := NextIteration(w.driver.current, |w.batch.vaults|);
      w.(driver := if next.continue_ then Creating(next.index) else Finished)
    case CreateVault(breaksAfter) =>
      var (batch, tables, threw) := SeparatedVault(w.batch, w.tables, w.driver.index, breaksAfter);
      w.(tables := tables, batch := batch, driver := if threw then Stopped else Waiting(w.driver.index),
         visits := w.visits + [w.driver.index])
    case ProcessCreationStatus =>
      var (batch, threw) := ProcessStatus(w.batch, w.tables.vaults, w.driver.index);
      w.(batch := batch, driver := if threw then Stopped else Iterating(Some(w.driver.index)),
         passedOver := w.passedOver + PassedNow(w))
    case StepFails => w.(batch := w.batch.(status := Rejected), driver := Stopped)
    case DriverDies => w.(driver := Stopped)
  }

  /** A copy in the batch record says SUCCESSFUL. */
  predicate CopyOk(v: BatchVault) {
    v.copy.Some? && v.copy.value.transactionStatus == Some(SUCCESSFUL)
  }

  /** createVaults has stored the batch with the ids of freshly created vaults; no driver runs yet. */
  ghost predicate Initial(w: World) {
    && Inv(w.tables) && w.batch.status.Created? && w.driver == Idle && w.visits == []
    && !w.announced && !w.overwritten && w.passedOver == {}
    && (forall id :: id in w.tables.flights ==> w.tables.flights[id].taskToken.None?)
    && DistinctIds(w.batch.vaults) && Untouched(w.batch.vaults, 0)
  }

  ghost predicate DistinctIds(vaults: seq<BatchVault>) {
    forall i, j :: 0 <= i < j < |vaults| && vaults[i].id.Some? ==> vaults[i].id != vaults[j].id
  }

  ghost predicate Feasible(w: World, acts: seq<Action>)
    decreases |acts|, 0
  {
    acts == [] || (Feasible(w, acts[..|acts| - 1]) && CanHappen(Run(w, acts[..|acts| - 1]), Last(acts)))
  }

  ghost function Run(w: World, acts: seq<Action>): World
    requires Feasible(w, acts)
    decreases |acts|, 1
  {
    if acts == [] then w else Step(Run(w, acts[..|acts| - 1]), Last(acts))
  }

  // ---------------------------------------------------------------- the invariant

  /** How many vaults the driver has been through completely. */
  function Passed(d: Driver, n: nat): nat {
    match d
    case Iterating(Some(i)) => i + 1
    case Creating(i) => i
    case Waiting(i) => i
    case Checking(i) => i
    case Finished => n
    case _ => 0
  }

  function Visited(d: Driver, n: nat): nat {
    match d
    case Waiting(i) => i + 1
    case Checking(i) => i + 1
    case _ => Passed(d, n)
  }

  /** The driver has been through the whole, non-empty batch. */
  predicate AtEnd(d: Driver, n: nat) {
    n > 0 && (d == Iterating(Some(n - 1)) || d.Finished?)
  }

  /** Index k was visited k-th, and the driver is inside the batch. */
  ghost predicate VisitsOk(d: Driver, visits: seq<nat>, n: nat) {
    && (forall k :: 0 <= k < |visits| ==> visits[k] == k)
    && |visits| <= n
    && (!d.Stopped? ==> |visits| == Visited(d, n))
    && (d.Creating? ==> d.index < n)
  }

  /** Vault and copy say SUCCESSFUL. */
  predicate Done(v: BatchVault, vaults: map<string, Vault>) {
    v.id.Some? && v.id.value in vaults && vaults[v.id.value].transactionStatus == Some(SUCCESSFUL) && CopyOk(v)
  }

  /** Of the first k vaults, those that were passed over have no good copy, and all others are done. */
  ghost predicate PassedMeans(bs: seq<BatchVault>, vaults: map<string, Vault>, passedOver: set<nat>, k: nat) {
    && k <= |bs| && (forall j :: j in passedOver ==> j < k)
    && forall j {:trigger bs[j]} :: 0 <= j < k ==> if j in passedOver then !CopyOk(bs[j]) else Done(bs[j], vaults)
  }

  /** From the k-th on no copy has been written. */
  ghost predicate Untouched(bs: seq<BatchVault>, k: nat) {
    forall j :: k <= j < |bs| ==> !CopyOk(bs[j])
  }

  ghost predicate Progress(w: World) {
    var n, k := |w.batch.vaults|, Passed(w.driver, |w.batch.vaults|);
    && (!w.driver.Stopped? ==>
          PassedMeans(w.batch.vaults, w.tables.vaults, w.passedOver, k) && Untouched(w.batch.vaults, k))
    && (w.batch.status.Success? ==> PassedMeans(w.batch.vaults, w.tables.vaults, w.passedOver, n))
  }

  /** What the batch's status says about the driver. */
  predicate StatusMeans(status: BatchStatus, n: nat, d: Driver, announced: bool, overwritten: bool,
                        passedOver: set<nat>) {
    && (overwritten ==> announced)
    && (status.Created? ==> !announced)
    && (status.Success? ==> n > 0 && (AtEnd(d, n) || d.Stopped?) && n - 1 !in passedOver)
    && (status.Rejected? ==> d.Stopped?)
    && (!d.Stopped? ==>
          if AtEnd(d, n) && n - 1 !in passedOver then status == if overwritten then Processing else Success
          else status == (if announced then Processing else BatchStatus.Created) && !overwritten)
  }

  /** A task token belongs to the submission of the vault at its index, and was issued by a visit. */
  ghost predicate TokenOk(flights: map<string, Flight>, vaults: seq<BatchVault>, visits: seq<nat>, id: string) {
    id in flights && flights[id].taskToken.Some? ==>
      var i := flights[id].taskToken.value;
      i < |vaults| && i < |visits| && vaults[i].id == Some(id)
  }

  ghost predicate TokensOk(flights: map<string, Flight>, vaults: seq<BatchVault>, visits: seq<nat>) {
    forall id :: TokenOk(flights, vaults, visits, id)
  }

  /** A driver that checks does so for a vault on record. */
  ghost predicate CheckedOk(d: Driver, bs: seq<BatchVault>, vaults: map<string, Vault>) {
    d.Checking? ==> d.index < |bs| && bs[d.index].id.Some? && bs[d.index].id.value in vaults
  }

  ghost predicate BatchInv(w: World) {
    && VisitsOk(w.driver, w.visits, |w.batch.vaults|)
    && Progress(w)
    && StatusMeans(w.batch.status, |w.batch.vaults|, w.driver, w.announced, w.overwritten, w.passedOver)
    && TokensOk(w.tables.flights, w.batch.vaults, w.visits)
    && CheckedOk(w.driver, w.batch.vaults, w.tables.vaults)
    && DistinctIds(w.batch.vaults)
  }

  // ---------------------------------------------------------------- every step keeps it

  lemma {:induction false} PassedIsStable(bs: seq<BatchVault>, t: Tables, c: Change, passedOver: set<nat>, k: nat)
    requires AllStatusOk(t.vaults, t.flights) && Enabled(t, c) && PassedMeans(bs, t.vaults, passedOver, k)
    ensures PassedMeans(bs, Apply(t, c).vaults, passedOver, k)
  {
    forall j | 0 <= j < k ensures if j in passedOver then !CopyOk(bs[j]) else Done(bs[j], Apply(t, c).vaults) {
      if j !in passedOver { SuccessfulIsFinal(t, c, bs[j].id.value); }
    }
  }

  lemma {:induction false} VaultsStay(t: Tables, c: Change, id: string)
    requires Enabled(t, c) && id in t.vaults
    ensures id in Apply(t, c).vaults
  {}

  lemma {:induction false} OutsideKeepsTokens(w: World, c: Change)
    requires CanHappen(w, Outside(c, false)) && TokensOk(w.tables.flights, w.batch.vaults, w.visits)
    ensures TokensOk(Apply(w.tables, c).flights, w.batch.vaults, w.visits)
  {
    var flights := Apply(w.tables, c).flights;
    forall id ensures TokenOk(flights, w.batch.vaults, w.visits, id) {
      assert TokenOk(w.tables.flights, w.batch.vaults, w.visits, id);
    }
  }

  lemma {:induction false} OutsideKeepsChecked(w: World, c: Change, goesOn: bool)
    requires TokensOk(w.tables.flights, w.batch.vaults, w.visits)
    requires CheckedOk(w.driver, w.batch.vaults, w.tables.vaults)
    requires CanHappen(w, Outside(c, goesOn))
    ensures CheckedOk(Resolved(w.driver, w.tables.flights, c, goesOn), w.batch.vaults, Apply(w.tables, c).vaults)
  {
    var d := Resolved(w.driver, w.tables.flights, c, goesOn);
    if w.driver.Checking? {
      VaultsStay(w.tables, c, w.batch.vaults[d.index].id.value);
    } else if d.Checking? {
      assert TokenOk(w.tables.flights, w.batch.vaults, w.visits, c.id);
    }
  }

  lemma {:induction false} OutsideKeepsProgress(w: World, c: Change, goesOn: bool)
    requires AllStatusOk(w.tables.vaults, w.tables.flights) && Progress(w) && CanHappen(w, Outside(c, goesOn))
    ensures Progress(Step(w, Outside(c, goesOn)))
  {
    var n, k := |w.batch.vaults|, Passed(w.driver, |w.batch.vaults|);
    hide PassedMeans, Untouched, AllStatusOk, Apply, Enabled;
    if !w.driver.Stopped? { PassedIsStable(w.batch.vaults, w.tables, c, w.passedOver, k); }
    if w.batch.status.Success? { PassedIsStable(w.batch.vaults, w.tables, c, w.passedOver, n); }
  }

  /** Resolving a task token does not move the driver past any vault. */
  lemma {:induction false} ResolvedKeeps(w: World, d: Driver)
    requires VisitsOk(w.driver, w.visits, |w.batch.vaults|)
    requires StatusMeans(w.batch.status, |w.batch.vaults|, w.driver, w.announced, w.overwritten, w.passedOver)
    requires d == w.driver || (w.driver.Waiting? && (d == Stopped || d == Checking(w.driver.index)))
    ensures VisitsOk(d, w.visits, |w.batch.vaults|)
    ensures StatusMeans(w.batch.status, |w.batch.vaults|, d, w.announced, w.overwritten, w.passedOver)
  {}

  lemma {:induction false} OutsideKeepsInv(w: World, c: Change, goesOn: bool)
    requires Inv(w.tables) && BatchInv(w) && CanHappen(w, Outside(c, goesOn))
    ensures BatchInv(Step(w, Outside(c, goesOn)))
  {
    hide TokensOk, CheckedOk, Progress, VisitsOk, StatusMeans, AllStatusOk, AccountsInv, AllHistoryOk, DistinctIds,
         Apply, Enabled;
    OutsideKeepsTokens(w, c);
    OutsideKeepsChecked(w, c, goesOn);
    OutsideKeepsProgress(w, c, goesOn);
    ResolvedKeeps(w, Resolved(w.driver, w.tables.flights, c, goesOn));
  }

  lemma {:induction false} CreateKeepsInv(w: World, breaksAfter: Option<nat>)
    requires Inv(w.tables) && BatchInv(w) && CanHappen(w, CreateVault(breaksAfter))
    ensures BatchInv(Step(w, CreateVault(breaksAfter)))
  {
    hide DistinctIds, PassedMeans, Untouched, Inv;
    var u := Step(w, CreateVault(breaksAfter));
    assert u.visits == w.visits + [w.driver.index];
    assert u.tables.vaults == w.tables.vaults && u.batch.vaults == w.batch.vaults;
    forall id ensures TokenOk(u.tables.flights, u.batch.vaults, u.visits, id) {
      assert TokenOk(w.tables.flights, w.batch.vaults, w.visits, id);
    }
  }

  lemma {:induction false} ProcessKeepsProgress(w: World)
    requires BatchInv(w) && CanHappen(w, ProcessCreationStatus)
    ensures Progress(Step(w, ProcessCreationStatus))
  {
    hide TokensOk;
    var u, i := Step(w, ProcessCreationStatus), w.driver.index;
    if !u.driver.Stopped? {
      assert IndexOf(w.batch.vaults, w.batch.vaults[i].id.value) == i;
      assert i !in w.passedOver;
      forall j | 0 <= j <= i
        ensures if j in u.passedOver then !CopyOk(u.batch.vaults[j]) else Done(u.batch.vaults[j], u.tables.vaults)
      {
        if j < i { assert u.batch.vaults[j] == w.batch.vaults[j]; }
      }
      assert PassedMeans(u.batch.vaults, u.tables.vaults, u.passedOver, i + 1);
    }
  }

  lemma {:induction false} ProcessKeepsIds(w: World)
    requires CheckedOk(w.driver, w.batch.vaults, w.tables.vaults) && CanHappen(w, ProcessCreationStatus)
    ensures var u := Step(w, ProcessCreationStatus);
      && |u.batch.vaults| == |w.batch.vaults|
      && forall j :: 0 <= j < |u.batch.vaults| ==> u.batch.vaults[j].id == w.batch.vaults[j].id
  {}

  lemma {:induction false} ProcessKeepsInv(w: World)
    requires BatchInv(w) && CanHappen(w, ProcessCreationStatus)
    ensures BatchInv(Step(w, ProcessCreationStatus))
  {
    var u := Step(w, ProcessCreationStatus);
    ProcessKeepsProgress(w);
    ProcessKeepsIds(w);
    ProcessKeepsStatus(w);
    hide Progress, StatusMeans, Step;
    forall id ensures TokenOk(u.tables.flights, u.batch.vaults, u.visits, id) {
      assert TokenOk(w.tables.flights, w.batch.vaults, w.visits, id);
    }
  }

  lemma {:induction false} ProcessKeepsStatus(w: World)
    requires BatchInv(w) && CanHappen(w, ProcessCreationStatus)
    ensures var u := Step(w, ProcessCreationStatus);
      && StatusMeans(u.batch.status, |u.batch.vaults|, u.driver, u.announced, u.overwritten, u.passedOver)
      && VisitsOk(u.driver, u.visits, |u.batch.vaults|) && u.tables == w.tables && u.visits == w.visits
      && !u.driver.Checking?
  {
    hide TokensOk, DistinctIds, Untouched;
  }

  lemma {:induction false} StepKeepsInv(w: World, a: Action)
    requires Inv(w.tables) && BatchInv(w) && CanHappen(w, a)
    ensures Inv(Step(w, a).tables) && BatchInv(Step(w, a))
  {
    TablesStep(w, a);
    match a
    case Outside(c, goesOn) => OutsideKeepsInv(w, c, goesOn);
    case CreateVault(breaksAfter) => CreateKeepsInv(w, breaksAfter);
    case ProcessCreationStatus => ProcessKeepsInv(w);
    case _ => DriverStepKeepsInv(w, a);
  }

  lemma {:induction false} DriverStepKeepsInv(w: World, a: Action)
    requires BatchInv(w) && CanHappen(w, a) && (a.Begin? || a.Announce? || a.Iterate? || a.StepFails? || a.DriverDies?)
    ensures BatchInv(Step(w, a))
  {
    hide PassedMeans, Untouched, DistinctIds, TokensOk;
    assert Step(w, a).batch.vaults == w.batch.vaults && Step(w, a).tables == w.tables;
  }

  /** Every step leaves the tables alone or is a change of the tables. */
  lemma {:induction false} TablesStep(w: World, a: Action)
    requires Inv(w.tables) && CanHappen(w, a)
    ensures Inv(Step(w, a).tables)
  {
    hide Inv;
    if a.Outside? { ChangeKeepsInv(w.tables, a.change); }
    if a.CreateVault? && Step(w, a).tables != w.tables {
      var id := w.batch.vaults[w.driver.index].id.value;
      if Breaks(a.breaksAfter, |AllEmails(w.tables.vaults[id].roles)|) {
        ChangeKeepsInv(w.tables, Break(id, a.breaksAfter.value));
      } else {
        ChangeKeepsInv(w.tables, Submit(id, Some(w.driver.index)));
      }
    }
  }

  lemma {:induction false} RunKeepsInv(w: World, acts: seq<Action>)
    requires Initial(w) && Feasible(w, acts)
    ensures Inv(Run(w, acts).tables) && BatchInv(Run(w, acts))
  {
    hide Inv, CanHappen, Step, BatchInv;
    if acts == [] {
      InitialInv(w);
    } else {
      RunKeepsInv(w, acts[..|acts| - 1]);
      StepKeepsInv(Run(w, acts[..|acts| - 1]), Last(acts));
    }
  }

  lemma {:induction false} InitialInv(w: World)
    requires Initial(w)
    ensures BatchInv(w)
  {
    hide Inv;
    forall id ensures TokenOk(w.tables.flights, w.batch.vaults, w.visits, id) {}
  }
}
