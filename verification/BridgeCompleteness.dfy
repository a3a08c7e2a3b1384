/** Which activities the ingestion of BridgeSync stores in the end and which it loses, and what the rows
    of its table say of the activities they come from. */
module BridgeCompleteness {
  import opened Prelude
  import opened BridgeSync

  /** The activity is still ahead, or it has been stored. */
  ghost predicate AheadOrStored(s: State, j: nat) {
    j < |s.feed| && s.feed[j].customerId in s.customers && (Frontier(s) <= j || s.feed[j].id in s.stored)
  }

  lemma {:induction false} StepStoresKnown(s: State, a: Action, j: nat)
    requires Enabled(s, a) && PageOk(s) && PageOk(Apply(s, a)) && CleaningOk(s) && AheadOrStored(s, j)
    requires Pos(Apply(s, a)) == Pos(s) + if a.Save? then 1 else 0
    ensures AheadOrStored(Apply(s, a), j)
  {
    hide IndexOf, Splits, Fresh;
  }

  /** A sync that gets past an activity whose customer was known at some moment before that has stored it,
      with the right content: it does not matter when the customer came on record, how often the activity
      was passed over or replayed before, and what crashed. */
  lemma {:induction false} KnownIsStored(s: State, acts: seq<Action>, k: nat, j: nat)
    requires Initial(s) && Feasible(s, acts) && k <= |acts| && Feasible(s, acts[..k])
    requires AheadAndKnown(Run(s, acts[..k]), j)
    ensures var t := Run(s, acts);
      && AheadOrStored(t, j) && t.feed[j] == Run(s, acts[..k]).feed[j]
      && (j < Frontier(t) ==> t.feed[j].id in t.stored && t.stored[t.feed[j].id] == ToItem(t.feed[j]))
    decreases |acts|
  {
    hide OnePerTrace, FeedOk, Keeps, DirtyIn, DeletingOk, Enabled, Apply, Frontier;
    RunKeepsInv(s, acts);
    if k == |acts| {
      assert acts[..k] == acts;
    } else {
      var before := acts[..|acts| - 1];
      assert before[..k] == acts[..k];
      KnownIsStored(s, before, k, j);
      var t := Run(s, before);
      RunKeepsInv(s, before);
      StepMovesCursor(t, Last(acts));
      StepStoresKnown(t, Last(acts), j);
      FeedStays(t, Last(acts));
    }
    if Run(s, acts).feed[j].id in Run(s, acts).stored { StoredIsRight(Run(s, acts), j); }
  }

  lemma {:induction false} FeedStays(s: State, a: Action)
    requires Enabled(s, a)
    ensures s.feed <= Apply(s, a).feed
  {}

  lemma {:induction false} StoredIsRight(s: State, j: nat)
    requires FeedOk(s.feed, s.stored) && j < |s.feed| && s.feed[j].id in s.stored
    ensures s.stored[s.feed[j].id] == ToItem(s.feed[j])
  {}

  /** The activity at this position is ahead of the sync, and its customer is on record. */
  ghost predicate AheadAndKnown(s: State, j: nat) {
    Frontier(s) <= j < |s.feed| && s.feed[j].customerId in s.customers
  }

  /** At some moment of the run it was. */
  ghost predicate WasAheadAndKnown(s: State, acts: seq<Action>, j: nat) {
    exists k :: 0 <= k <= |acts| && AheadAndKnownAt(s, acts, k, j)
  }

  ghost predicate AheadAndKnownAt(s: State, acts: seq<Action>, k: nat, j: nat)
    requires k <= |acts|
  {
    Feasible(s, acts[..k]) && AheadAndKnown(Run(s, acts[..k]), j)
  }

  lemma {:induction false} OnlyVisitStores(s: State, a: Action, id: string)
    requires Enabled(s, a) && id !in s.stored && id in Apply(s, a).stored
    ensures Apply(s, a).feed == s.feed && AheadAndKnown(s, s.next) && s.next < |s.feed| && s.feed[s.next].id == id
  {
    hide Splits, Fresh;
  }

  lemma {:induction false} StoredStays(s: State, acts: seq<Action>, id: string)
    requires Feasible(s, acts) && id in s.stored
    ensures id in Run(s, acts).stored
  {
    if acts != [] {
      StoredStays(s, acts[..|acts| - 1], id);
      StepKeepsStored(Run(s, acts[..|acts| - 1]), Last(acts), id);
    }
  }

  lemma {:induction false} StepKeepsStored(s: State, a: Action, id: string)
    requires Enabled(s, a) && id in s.stored
    ensures id in Apply(s, a).stored
  {
    hide Splits, Fresh;
  }

  /** Conversely, what was stored on the way was ahead of the sync with its customer on record. */
  lemma {:induction false} StoredWasKnown(s: State, acts: seq<Action>, j: nat)
    requires Initial(s) && Feasible(s, acts)
    requires var t := Run(s, acts); j < |t.feed| && t.feed[j].id !in s.stored && t.feed[j].id in t.stored
    ensures WasAheadAndKnown(s, acts, j)
  {
    hide Inv, Enabled, Apply, AheadAndKnown;
    var n := |acts| - 1;
    var before := acts[..n];
    var u, t := Run(s, before), Run(s, acts);
    RunKeepsInv(s, acts);
    FeedStays(u, Last(acts));
    if t.feed[j].id in u.stored {
      StoredBefore(u, Last(acts), j);
      StoredWasKnown(s, before, j);
      var k :| 0 <= k <= n && AheadAndKnownAt(s, before, k, j);
      assert acts[..k] == before[..k];
      assert AheadAndKnownAt(s, acts, k, j);
    } else {
      OnlyVisitStores(u, Last(acts), t.feed[j].id);
      SamePosition(t, j, u.next);
      assert AheadAndKnownAt(s, acts, n, j);
    }
  }

  lemma {:induction false} SamePosition(s: State, j: nat, k: nat)
    requires Inv(s) && j < |s.feed| && k < |s.feed| && s.feed[j].id == s.feed[k].id
    ensures j == k
  {
    assert IndexOf(s.feed, s.feed[j].id) == j && IndexOf(s.feed, s.feed[k].id) == k;
  }

  lemma {:induction false} StoredBefore(s: State, a: Action, j: nat)
    requires Enabled(s, a) && j < |Apply(s, a).feed| && Apply(s, a).feed[j].id in s.stored
    ensures j < |s.feed| && s.feed[j] == Apply(s, a).feed[j]
  {}

  /** Exactly which activities are skipped. One that the sync has got past is stored if and only if it was
      at the start, or at some moment of the run its customer was on record while it was still ahead.
      It does not matter when the customer came, how often it was passed over or replayed, and what crashed. */
  lemma {:induction false} NothingSkipped(s: State, acts: seq<Action>, j: nat)
    requires Initial(s) && Feasible(s, acts)
    requires j < |Run(s, acts).feed| && j < Frontier(Run(s, acts))
    ensures var t := Run(s, acts);
      && (t.feed[j].id in t.stored <==> t.feed[j].id in s.stored || WasAheadAndKnown(s, acts, j))
      && (t.feed[j].id in t.stored ==> t.stored[t.feed[j].id] == ToItem(t.feed[j]))
  {
    hide Initial, Enabled, Apply, Frontier, AheadAndKnown, PageOk, CleaningOk, DeletingOk, Keeps, OnePerTrace;
    var t := Run(s, acts);
    RunKeepsInv(s, acts);
    if t.feed[j].id in s.stored { StoredStays(s, acts, t.feed[j].id); }
    else if t.feed[j].id in t.stored { StoredWasKnown(s, acts, j); }
    if WasAheadAndKnown(s, acts, j) {
      var k :| 0 <= k <= |acts| && AheadAndKnownAt(s, acts, k, j);
      KnownIsStored(s, acts, k, j);
    }
    if t.feed[j].id in t.stored { StoredIsRight(t, j); }
  }

  /** The same for the whole page of a sync that just saved its cursor, although the new cursor is
      only the oldest activity of that page. */
  lemma {:induction false} CompletedPageIsStored(s: State, acts: seq<Action>, j: nat)
    requires Initial(s) && Feasible(s, acts) && acts != [] && Last(acts).Save?
    requires var t := Run(s, acts); t.first <= j < t.end <= |t.feed|
    ensures var t := Run(s, acts);
      && (t.feed[j].id in t.stored <==> t.feed[j].id in s.stored || WasAheadAndKnown(s, acts[..|acts| - 1], j))
      && (t.feed[j].id in t.stored ==> t.stored[t.feed[j].id] == ToItem(t.feed[j]))
  {
    NothingSkipped(s, acts[..|acts| - 1], j);
  }

  // ---------------------------------------------------------------- what is lost

  lemma {:induction false} SavesGrow(acts: seq<Action>, k: nat, m: nat)
    requires k <= m <= |acts|
    ensures Saves(acts[..k]) <= Saves(acts[..m])
  {
    if k < m {
      SavesGrow(acts, k, m - 1);
      assert acts[..m][..m - 1] == acts[..m - 1];
    }
  }

  lemma {:induction false} FeedGrows(s: State, acts: seq<Action>, k: nat)
    requires Feasible(s, acts) && k <= |acts| && Feasible(s, acts[..k])
    ensures Run(s, acts[..k]).feed <= Run(s, acts).feed
  {
    if k == |acts| {
      assert acts[..k] == acts;
    } else {
      hide Enabled, Apply;
      var before := acts[..|acts| - 1];
      assert before[..k] == acts[..k];
      FeedGrows(s, before, k);
      FeedStays(Run(s, before), Last(acts));
    }
  }

  lemma {:induction false} FrontierIsBeyondCursor(s: State)
    requires Inv(s)
    ensures Frontier(s) > Pos(s)
  {}

  lemma {:induction false} WasAheadBefore(s: State, acts: seq<Action>, k: nat, m: nat, j: nat)
    requires m < k <= |acts| && AheadAndKnownAt(s, acts, m, j)
    ensures WasAheadAndKnown(s, acts[..k], j)
  {
    assert acts[..k][..m] == acts[..m];
    assert AheadAndKnownAt(s, acts[..k], m, j);
  }

  /** An activity that the cursor has passed without storing it is lost for good, whoever comes on record. */
  lemma {:induction false} PassedIsLost(s: State, acts: seq<Action>, k: nat, j: nat)
    requires Initial(s) && Feasible(s, acts) && k <= |acts| && Feasible(s, acts[..k])
    requires var u := Run(s, acts[..k]); j <= Pos(u) && j < |u.feed| && u.feed[j].id !in u.stored
    ensures var t := Run(s, acts); j < |t.feed| && t.feed[j] == Run(s, acts[..k]).feed[j] && t.feed[j].id !in t.stored
  {
    hide Inv, Initial, Enabled, Apply, Frontier, Pos;
    var u, t := Run(s, acts[..k]), Run(s, acts);
    FeedGrows(s, acts, k);
    RunKeepsInv(s, acts[..k]);
    FrontierIsBeyondCursor(u);
    NothingSkipped(s, acts[..k], j);
    if t.feed[j].id in t.stored {
      StoredWasKnown(s, acts, j);
      var m :| 0 <= m <= |acts| && AheadAndKnownAt(s, acts, m, j);
      if m < k {
        WasAheadBefore(s, acts, k, m, j);
      } else {
        RunKeepsInv(s, acts[..m]);
        SavesGrow(acts, k, m);
        FrontierIsBeyondCursor(Run(s, acts[..m]));
      }
    }
  }

  /** A sync of the one activity after the cursor, whose customer comes on record afterwards. */
  function LateCustomer(a: Activity, auth0Id: string): seq<Action> {
    [Start, Visit, Save, AddCustomer(a.customerId, auth0Id)]
  }

  /** It is never stored, in any continuation. */
  lemma {:induction false} LateCustomerIsLost(s: State, auth0Id: string, acts: seq<Action>)
    requires Initial(s) && |s.feed| == Pos(s) + 2
    requires Last(s.feed).customerId !in s.customers && Last(s.feed).id !in s.stored
    ensures Feasible(s, LateCustomer(Last(s.feed), auth0Id))
    ensures LateCustomer(Last(s.feed), auth0Id) <= acts && Feasible(s, acts) ==> Last(s.feed).id !in Run(s, acts).stored
  {
    hide Initial, Enabled, Apply, Feasible, Run, Pos;
    var late, j := LateCustomer(Last(s.feed), auth0Id), |s.feed| - 1;
    LateRun(s, auth0Id);
    if late <= acts && Feasible(s, acts) {
      assert acts[..4] == late;
      PassedIsLost(s, acts, 4, j);
    }
  }

  lemma {:induction false} LateRun(s: State, auth0Id: string)
    requires Initial(s) && |s.feed| == Pos(s) + 2
    requires Last(s.feed).customerId !in s.customers && Last(s.feed).id !in s.stored
    ensures var late := LateCustomer(Last(s.feed), auth0Id);
      && Feasible(s, late)
      && var u := Run(s, late);
      u.feed == s.feed && u.stored == s.stored && Pos(u) == |s.feed| - 1 && Last(s.feed).customerId in u.customers
  {
    hide Initial, Enabled, Apply, Feasible, Run;
    var start, add := Start, AddCustomer(Last(s.feed).customerId, auth0Id);
    assert [start] + [Visit] == [start, Visit] && [start, Visit] + [Save] == [start, Visit, Save];
    assert [start, Visit, Save] + [add] == LateCustomer(Last(s.feed), auth0Id);
    LateSteps(s, add);
    EmptyRun(s);
    RunSnoc(s, [], start);
    RunSnoc(s, [start], Visit);
    RunSnoc(s, [start, Visit], Save);
    RunSnoc(s, [start, Visit, Save], add);
  }

  lemma {:induction false} LateSteps(s: State, add: Action)
    requires Initial(s) && |s.feed| == Pos(s) + 2 && Last(s.feed).customerId !in s.customers
    requires add.AddCustomer? && add.customerId == Last(s.feed).customerId
    ensures Enabled(s, Start) && Enabled(Apply(s, Start), Visit) && Enabled(Apply(Apply(s, Start), Visit), Save)
    ensures var saved := Apply(Apply(Apply(s, Start), Visit), Save);
      && Enabled(saved, add)
      && var u := Apply(saved, add);
      u.feed == s.feed && u.stored == s.stored && Pos(u) == |s.feed| - 1 && Last(s.feed).customerId in u.customers
  {
    hide Deduped, FeedOk;
    var visited := Apply(Apply(s, Start), Visit);
    assert visited.first == |s.feed| - 1 && visited.next == visited.end == |s.feed|;
    SaveMovesCursor(visited);
  }

  const SEEN := Activity("seen", "customer", "account", None, 0, None, None)
  const LATE := Activity("late", "customer", "account", None, 1, None, None)

  /** Two activities of a customer that is not on record, of which the first has been passed over. */
  const UNKNOWN := State([SEEN, LATE], map[], {}, map[], Some("seen"), map[], Idle, 0, 0, 0)

  /** For one, this happens here. */
  lemma {:induction false} LateCustomerHappens(auth0Id: string, acts: seq<Action>)
    ensures Feasible(UNKNOWN, LateCustomer(LATE, auth0Id))
    ensures LateCustomer(LATE, auth0Id) <= acts && Feasible(UNKNOWN, acts) ==> "late" !in Run(UNKNOWN, acts).stored
  {
    hide Feasible, Run, LateCustomer;
    UnknownIsInitial();
    LateCustomerIsLost(UNKNOWN, auth0Id, acts);
  }

  lemma {:induction false} UnknownIsInitial()
    ensures Initial(UNKNOWN) && Pos(UNKNOWN) == 0
  {
    assert "seen"[0] != "late"[0];
    assert UNKNOWN.feed[0].id == "seen" && UNKNOWN.feed[1].id == "late";
    assert IndexOf(UNKNOWN.feed, "seen") == 0 && IndexOf(UNKNOWN.feed, "late") == 1;
  }

  lemma {:induction false} EmptyRun(s: State)
    ensures Feasible(s, []) && Run(s, []) == s
  {}

  // ---------------------------------------------------------------- pages

  /** A page has at most a hundred activities. With a cursor it begins directly behind it, and is full unless it
      reaches the newest activity; without one it is that of the newest hundred. */
  lemma {:induction false} PagesAre(feed: seq<Activity>, cursor: Option<string>)
    ensures var lo, hi := PageStart(feed, cursor), PageEnd(feed, cursor);
      && lo <= hi <= |feed| && hi - lo <= 100 && (hi - lo == 100 || hi == |feed|)
      && (cursor.None? ==> hi == |feed| && (hi - lo == 100 || lo == 0))
      && (cursor.Some? && lo < hi ==>
            lo > 0 && feed[lo - 1].id == cursor.value && forall j :: 0 <= j < lo - 1 ==> feed[j].id != cursor.value)
  {}

  // ---------------------------------------------------------------- rows and activities

  /** The row tells the activity's own time, customer, account and trace number, and the defaults for what
      the activity leaves out. */
  ghost predicate TellsOf(row: Item, a: Activity) {
    && row.id == a.id && row.occurredAt == a.createdAt
    && row.customerId == a.customerId && row.virtualAccountId == a.virtualAccountId && row.traceNumber == a.traceNumber
    && (if a.currency.Some? then row.currency == a.currency.value else row.currency == "USD")
    && (if a.description.Some? then row.description == a.description.value else row.description == "")
  }

  /** In every reachable state, whatever is stored for an activity and whatever row it has tells of it. */
  lemma {:induction false} RowsTellOfActivities(s: State, acts: seq<Action>, j: nat)
    requires Initial(s) && Feasible(s, acts) && j < |Run(s, acts).feed|
    ensures var t := Run(s, acts);
      var id := t.feed[j].id;
      && (id in t.stored ==> TellsOf(t.stored[id], t.feed[j]))
      && (id in t.table ==> id in t.stored && TellsOf(t.table[id], t.feed[j]))
  {
    hide OnePerTrace, DirtyIn, DeletingOk, PageOk, CleaningOk;
    RunKeepsInv(s, acts);
    var t := Run(s, acts);
    if t.feed[j].id in t.stored { StoredIsRight(t, j); }
  }

  /** Two activities with the same trace number. */
  predicate SameTransfer(a: Activity, b: Activity) {
    a.traceNumber.Some? && a.traceNumber.value != "" && a.traceNumber == b.traceNumber
  }

  /** No stored activity of a transfer is newer than one that has a row. */
  ghost predicate NewestStay(feed: seq<Activity>, table: Table, stored: Table) {
    forall j, k :: 0 <= j < |feed| && 0 <= k < |feed| && SameTransfer(feed[j], feed[k]) ==>
      feed[j].id in table && feed[k].id in stored ==> feed[k].createdAt <= feed[j].createdAt
  }

  /** After every completed sync only newest activities of each transfer have rows, in terms of the times at
      which the activities were created. */
  lemma {:induction false} NewestActivitiesStay(s: State, acts: seq<Action>)
    requires Initial(s) && Feasible(s, acts) && acts != []
    requires Completes(Run(s, acts[..|acts| - 1]), Last(acts))
    ensures var t := Run(s, acts); NewestStay(t.feed, t.table, t.stored)
  {
    hide Initial, Feasible, Run, Completes, Deduped, TellsOf;
    CompletedSyncIsDeduped(s, acts);
    var t := Run(s, acts);
    forall j, k | 0 <= j < |t.feed| && 0 <= k < |t.feed| && SameTransfer(t.feed[j], t.feed[k]) &&
      t.feed[j].id in t.table && t.feed[k].id in t.stored
      ensures t.feed[k].createdAt <= t.feed[j].createdAt
    {
      NewerStays(s, acts, j, k);
    }
  }

  lemma {:induction false} NewerStays(s: State, acts: seq<Action>, j: nat, k: nat)
    requires Initial(s) && Feasible(s, acts) && Deduped(Run(s, acts).table, Run(s, acts).stored)
    requires var t := Run(s, acts);
      && j < |t.feed| && k < |t.feed| && SameTransfer(t.feed[j], t.feed[k])
      && t.feed[j].id in t.table && t.feed[k].id in t.stored
    ensures Run(s, acts).feed[k].createdAt <= Run(s, acts).feed[j].createdAt
  {
    hide Initial, Feasible, Run, Deduped;
    var t := Run(s, acts);
    RowsTellOfActivities(s, acts, j);
    RowsTellOfActivities(s, acts, k);
    RowIsLatest(t.table, t.stored, t.feed[j].id);
  }

  /** And the newest activity of a transfer is not lost: it has a row when all others stored are older. */
  lemma {:induction false} NewestActivityIsKept(s: State, acts: seq<Action>, k: nat)
    requires Initial(s) && Feasible(s, acts) && acts != []
    requires Completes(Run(s, acts[..|acts| - 1]), Last(acts))
    requires var t := Run(s, acts); k < |t.feed| && t.feed[k].id in t.stored
    requires var t := Run(s, acts);
      forall x :: x in t.stored && x != t.feed[k].id && t.stored[x].traceNumber == t.feed[k].traceNumber ==>
        t.stored[x].occurredAt < t.feed[k].createdAt
    ensures var t := Run(s, acts); t.feed[k].id in t.table && TellsOf(t.table[t.feed[k].id], t.feed[k])
  {
    hide Initial, Feasible, Run, Completes;
    var t := Run(s, acts);
    CompletedSyncIsDeduped(s, acts);
    RowsTellOfActivities(s, acts, k);
    var row := LatestHasRow(t.table, t.stored, t.feed[k].id);
  }
}
