/** The sync as the service runs it, proved to be a run of the transition system of BridgeSync. */
module BridgeSyncService {
  import opened Prelude
  import opened BridgeSync
  import opened BridgeCompleteness

  /** How a call ends: normally, by the exception for an unknown virtual account, or because the
      process dies. */
  datatype Outcome = Completed(activitiesProcessed: nat) | Threw | Died

  lemma {:induction false} PutKeyed(table: Table, item: Item)
    requires Keyed(table)
    ensures Keyed(table[item.id := item])
  {}

  function CountKnown(customers: map<string, string>, accounts: set<(string, string)>, feed: seq<Activity>, lo: nat,
                      hi: nat): nat
    requires lo <= hi <= |feed|
  {
    if lo == hi then 0
    else CountKnown(customers, accounts, feed, lo, hi - 1) + if Known(customers, accounts, feed[hi - 1]) then 1 else 0
  }

  /** The positions of a page whose customer and account are on record. */
  function KnownPositions(customers: map<string, string>, accounts: set<(string, string)>, feed: seq<Activity>,
                          lo: nat, hi: nat): set<int>
    requires lo <= hi <= |feed|
  {
    set j | lo <= j < hi && Known(customers, accounts, feed[j])
  }

  /** The count of a sync is their number. */
  lemma {:induction false} CountKnownCounts(customers: map<string, string>, accounts: set<(string, string)>,
                                            feed: seq<Activity>, lo: nat, hi: nat)
    requires lo <= hi <= |feed|
    ensures CountKnown(customers, accounts, feed, lo, hi) == |KnownPositions(customers, accounts, feed, lo, hi)|
  {
    if lo < hi {
      CountKnownCounts(customers, accounts, feed, lo, hi - 1);
      assert KnownPositions(customers, accounts, feed, lo, hi) ==
        KnownPositions(customers, accounts, feed, lo, hi - 1) +
        if Known(customers, accounts, feed[hi - 1]) then {hi - 1} else {};
    }
  }

  /** Array.prototype.reverse: in place. */
  method Reverse(xs: array<Activity>)
    modifies xs
    ensures forall i :: 0 <= i < xs.Length ==> xs[i] == old(xs[xs.Length - 1 - i])
  {
    var n, i := xs.Length, 0;
    while i < n / 2
      invariant 0 <= i <= n / 2
      invariant forall k :: 0 <= k < i ==> xs[k] == old(xs[n - 1 - k]) && xs[n - 1 - k] == old(xs[k])
      invariant forall k :: i <= k < n - i ==> xs[k] == old(xs[k])
    {
      xs[i], xs[n - 1 - i] := xs[n - 1 - i], xs[i];
      i := i + 1;
    }
  }

  /** The newest row, scanning in query order and replacing only on a strictly later time. */
  method LatestOf(rows: seq<Item>) returns (latest: Item)
    requires rows != []
    ensures latest in rows
    ensures forall r :: r in rows ==> r.occurredAt <= latest.occurredAt
    ensures exists i ::
      && 0 <= i < |rows| && rows[i] == latest
      && forall j :: 0 <= j < i ==> rows[j].occurredAt < latest.occurredAt
  {
    latest := rows[0];
    ghost var at := 0;
    for i := 1 to |rows|
      invariant 0 <= at < i && rows[at] == latest
      invariant forall j :: 0 <= j < i ==> rows[j].occurredAt <= latest.occurredAt
      invariant forall j :: 0 <= j < at ==> rows[j].occurredAt < latest.occurredAt
    {
      if rows[i].occurredAt > latest.occurredAt {
        latest, at := rows[i], i;
      }
    }
  }

  function Ids(ids: seq<string>): set<string> {
    set d | d in ids
  }

  /** The rows that a process with this budget lives to delete. */
  function Deleted(doomed: seq<string>, budget: nat): seq<string> {
    if |doomed| <= budget then doomed else doomed[..budget]
  }

  /** Its steps: one per row, and one more that ends the clean-up or the process. */
  function Deletions(doomed: seq<string>, budget: nat): seq<Action> {
    if |doomed| <= budget then seq(|doomed|, _ => Delete) + [Delete] else seq(budget, _ => Delete) + [Crash]
  }

  lemma {:induction false} OneMoreDeleted(doomed: seq<string>, n: nat)
    requires n < |doomed|
    ensures doomed[n..][0] == doomed[n] && doomed[n..][1..] == doomed[n + 1..]
    ensures Ids(doomed[..n + 1]) == Ids(doomed[..n]) + {doomed[n]}
    ensures seq(n + 1, _ => Delete) == seq(n, _ => Delete) + [Delete]
  {
    assert doomed[..n + 1] == doomed[..n] + [doomed[n]];
  }

  class BridgeXyzSyncService {
    // what Bridge and the directory of customers and accounts answer
    var feed: seq<Activity>
    var customers: map<string, string>
    var accounts: set<(string, string)>
    // the transaction item table and the Redis key
    var table: Table
    var cursor: Option<string>
    // the run so far
    ghost var stored: Table
    ghost var phase: Phase
    ghost var first: nat
    ghost var next: nat
    ghost var end: nat
    ghost var origin: State
    ghost var history: seq<Action>

    ghost function Now(): State reads this {
      State(feed, customers, accounts, table, cursor, stored, phase, first, next, end)
    }

    ghost predicate Valid() reads this {
      Feasible(origin, history) && Run(origin, history) == Now() && Keyed(table)
    }

    /** GET /v0/virtual_accounts/history: newest first. */
    method GetActivities(lastSyncedId: Option<string>) returns (activities: array<Activity>)
      ensures fresh(activities)
      ensures activities.Length == PageEnd(feed, lastSyncedId) - PageStart(feed, lastSyncedId)
      ensures forall i :: 0 <= i < activities.Length ==>
        activities[i] == feed[PageEnd(feed, lastSyncedId) - 1 - i]
    {
      var lo, hi := PageStart(feed, lastSyncedId), PageEnd(feed, lastSyncedId);
      if lo == hi {
        activities := new Activity[0];
        return;
      }
      activities := new Activity[hi - lo](_ => Activity("", "", "", None, 0, None, None));
      for i := 0 to hi - lo
        invariant forall k :: 0 <= k < i ==> activities[k] == feed[hi - 1 - k]
      {
        activities[i] := feed[hi - 1 - i];
      }
    }

    /** The rows with a trace number, each once, in no particular order. */
    method FindManyByTraceNumber(trace: string) returns (rows: seq<Item>)
      requires Keyed(table)
      ensures forall r :: r in rows ==> r.id in table && table[r.id] == r && r.traceNumber == Some(trace)
      ensures forall k :: k in table && table[k].traceNumber == Some(trace) ==> table[k] in rows
      ensures Distinct(rows)
    {
      rows := [];
      var keys := table.Keys;
      while keys != {}
        invariant keys <= table.Keys
        invariant forall r :: r in rows ==> r.id in table && table[r.id] == r && r.traceNumber == Some(trace)
        invariant forall k :: k in table && k !in keys && table[k].traceNumber == Some(trace) ==> table[k] in rows
        invariant Distinct(rows) && forall r :: r in rows ==> r.id !in keys
        decreases keys
      {
        var k :| k in keys;
        if table[k].traceNumber == Some(trace) {
          rows := rows + [table[k]];
        }
        keys := keys - {k};
      }
    }

    /** Note a step of the run. The caller then makes the step. */
    ghost method Log(a: Action)
      requires Valid() && Enabled(Now(), a)
      modifies this`history
      ensures history == old(history) + [a]
      ensures history[..|history| - 1] == old(history)
      ensures Feasible(origin, history) && Run(origin, history) == Apply(old(Now()), a)
    {
      RunSnoc(origin, history, a);
      history := history + [a];
    }

    /** The process dies. */
    method Die()
      requires Valid() && !phase.Idle?
      modifies this`phase, this`history
      ensures Valid() && phase == Idle && history == old(history) + [Crash]
    {
      Log(Crash);
      phase := Idle;
    }

    /** Query the rows of a trace number, and choose the newest to keep and all others to delete. */
    method ChooseLatest(trace: string) returns (keep: Option<string>, doomed: seq<string>)
      requires Keyed(table)
      ensures Splits(table, RowsOf(table, trace), keep, doomed)
    {
      var existing := FindManyByTraceNumber(trace);
      assert forall k :: k in RowsOf(table, trace) ==> table[k] in existing;
      keep, doomed := None, [];
      if |existing| > 0 {
        var latest := LatestOf(existing);
        keep := Some(latest.id);
        for i := 0 to |existing|
          invariant forall d :: d in doomed ==> d in RowsOf(table, trace) && d != latest.id
          invariant forall j :: 0 <= j < i ==> existing[j].id == latest.id || existing[j].id in doomed
        {
          if existing[i].id != latest.id { doomed := doomed + [existing[i].id]; }
        }
      } else {
        assert forall k :: k !in RowsOf(table, trace);
      }
    }

    /** A Delete step: delete the next row. */
    method DeleteOne(id: string)
      requires Valid() && phase.Deleting? && phase.doomed != [] && id == phase.doomed[0]
      modifies this`table, this`phase, this`history
      ensures Valid() && history == old(history) + [Delete] && table == old(table) - {id}
      ensures phase == Deleting(old(phase).trace, old(phase).keep, old(phase).doomed[1..])
    {
      hide Feasible, Run;
      Log(Delete);
      table := table - {id};
      phase := Deleting(phase.trace, phase.keep, phase.doomed[1..]);
    }

    /** Delete rows one at a time. `budget` is the number of store operations the process lives to do. */
    method DeleteMany(doomed: seq<string>, budget: nat) returns (left: nat, alive: bool)
      requires Valid() && phase.Deleting? && phase.doomed == doomed
      modifies this`table, this`phase, this`next, this`history
      ensures Valid() && alive == (|doomed| <= budget)
      ensures left == if alive then budget - |doomed| else 0
      ensures table == old(table) - Ids(Deleted(doomed, budget))
      ensures history == old(history) + Deletions(doomed, budget)
      ensures alive ==> phase == Visiting && next == old(next) + 1
      ensures !alive ==> phase == Idle
    {
      hide Feasible, Run, Keyed;
      left := budget;
      var n := 0;
      while n < |doomed|
        invariant n <= |doomed| && n + left == budget
        invariant Valid() && phase == Deleting(old(phase).trace, old(phase).keep, doomed[n..])
        invariant history == old(history) + seq(n, _ => Delete) && next == old(next)
        invariant table == old(table) - Ids(doomed[..n])
      {
        if left == 0 {
          Die();
          return 0, false;
        }
        DeleteOne(doomed[n]);
        OneMoreDeleted(doomed, n);
        left, n := left - 1, n + 1;
      }
      assert doomed[..n] == doomed;
      Log(Delete);
      phase, next := Visiting, next + 1;
      alive := true;
    }

    /** Keep the newest row of a trace number and delete the others: a Query step, then Delete steps. */
    method CleanTransactionsWithSameTraceNumber(trace: string, budget: nat)
      returns (left: nat, alive: bool, ghost keep: Option<string>, ghost doomed: seq<string>)
      requires Valid() && phase == Cleaning(trace)
      modifies this`table, this`phase, this`next, this`history
      ensures Valid() && Splits(old(table), RowsOf(old(table), trace), keep, doomed)
      ensures table == old(table) - Ids(Deleted(doomed, budget))
      ensures history == old(history) + [Query(keep, doomed)] + if keep.None? then [] else Deletions(doomed, budget)
      ensures alive == (|doomed| <= budget)
      ensures alive ==> phase == Visiting && next == old(next) + 1
      ensures !alive ==> phase == Idle
    {
      hide Feasible, Run, Keyed;
      left, alive := budget, true;
      var kept, others := ChooseLatest(trace);
      keep, doomed := kept, others;
      Log(Query(kept, others));
      if kept.None? {
        phase, next := Visiting, next + 1;
      } else {
        phase := Deleting(trace, kept.value, others);
        left, alive := DeleteMany(others, left);
      }
    }

    /** Put the item, then clean up its trace number if it has one. */
    method Store(activity: Activity, budget: nat) returns (left: nat, alive: bool)
      requires Valid() && phase == Visiting && next < end <= |feed| && activity == feed[next]
      requires Known(customers, accounts, activity)
      modifies this`table, this`stored, this`phase, this`next, this`history
      ensures Valid() && old(history) < history
      ensures alive ==> phase == Visiting && next == old(next) + 1
      ensures !alive ==> phase == Idle
    {
      hide Feasible, Run, Keyed;
      if budget == 0 {
        Die();
        return 0, false;
      }
      left, alive := budget - 1, true;
      Put(activity);
      if activity.traceNumber.Some? && activity.traceNumber.value != "" {
        ghost var keep, doomed;
        left, alive, keep, doomed := CleanTransactionsWithSameTraceNumber(activity.traceNumber.value, left);
      }
    }

    /** A Visit step: write the row with the activity's id. */
    method Put(activity: Activity)
      requires Valid() && phase == Visiting && next < end <= |feed| && activity == feed[next]
      requires Known(customers, accounts, activity)
      modifies this`table, this`stored, this`phase, this`next, this`history
      ensures Valid() && history == old(history) + [Visit]
      ensures table == old(table)[activity.id := ToItem(activity)]
      ensures stored == old(stored)[activity.id := ToItem(activity)]
      ensures if Traced(ToItem(activity)) then phase == Cleaning(activity.traceNumber.value) && next == old(next)
              else phase == Visiting && next == old(next) + 1
    {
      hide Feasible, Run, Keyed;
      var item := ToItem(activity);
      Log(Visit);
      PutKeyed(table, item);
      table, stored := table[item.id := item], stored[item.id := item];
      if Traced(item) { phase := Cleaning(item.traceNumber.value); } else { next := next + 1; }
    }

    /** One iteration of the loop. `stop` is set when the whole sync ends here. */
    method Process(activity: Activity, budget: nat) returns (left: nat, counted: bool, stop: Option<Outcome>)
      requires Valid() && phase == Visiting && next < end <= |feed| && activity == feed[next]
      modifies this`table, this`stored, this`phase, this`next, this`history
      ensures Valid() && old(history) < history
      ensures stop.None? ==> phase == Visiting && next == old(next) + 1
      ensures stop.None? ==> counted == Known(customers, accounts, activity) == (activity.customerId in customers)
      ensures stop.Some? ==> phase == Idle && activity.customerId in customers
      ensures stop.Some? ==> stop.value == if Known(customers, accounts, activity) then Died else Threw
    {
      hide Feasible, Run;
      left, counted, stop := budget, false, None;
      if activity.customerId !in customers {
        Log(Visit);
        next := next + 1;
        return;
      }
      var auth0Id := customers[activity.customerId];
      if (auth0Id, activity.virtualAccountId) !in accounts {
        Log(Visit);
        phase, stop := Idle, Some(Threw);
        return;
      }
      left, counted := Store(activity, budget);
      if !counted { stop := Some(Died); }
    }

    /** The loop over the reversed page. */
    method ProcessPage(activities: array<Activity>, budget: nat)
      returns (left: nat, processed: nat, stop: Option<Outcome>)
      requires Valid() && phase == Visiting && next == first && end == first + activities.Length <= |feed|
      requires forall k :: 0 <= k < activities.Length ==> activities[k] == feed[first + k]
      modifies this`table, this`stored, this`phase, this`next, this`history
      ensures Valid() && old(history) <= history
      ensures stop.None? ==>
        && phase == Visiting && next == end
        && processed == CountKnown(customers, accounts, feed, first, end)
        && (forall j :: first <= j < end ==> !Blocked(customers, accounts, feed[j]))
      ensures stop.Some? ==> phase == Idle && !stop.value.Completed?
      ensures stop == Some(Threw) ==> exists j :: first <= j < end && Blocked(customers, accounts, feed[j])
    {
      hide Feasible, Run, Keyed;
      left, processed, stop := budget, 0, None;
      for i := 0 to activities.Length
        invariant Valid() && phase == Visiting && next == first + i
        invariant old(history) <= history && stop.None?
        invariant processed == CountKnown(customers, accounts, feed, first, first + i)
        invariant forall j :: first <= j < first + i ==> !Blocked(customers, accounts, feed[j])
      {
        var counted;
        left, counted, stop := Process(activities[i], left);
        if stop.Some? { return; }
        if counted { processed := processed + 1; }
      }
    }

    /** A sync has just finished. */
    ghost predicate JustCompleted() reads this {
      && history != []
      && Feasible(origin, history[..|history| - 1])
      && Completes(Run(origin, history[..|history| - 1]), Last(history))
    }

    method SaveCursor(lastActivity: Activity, budget: nat) returns (alive: bool)
      requires Valid() && phase == Visiting && first < next == end <= |feed| && lastActivity == feed[first]
      modifies this`cursor, this`phase, this`history
      ensures Valid() && phase == Idle && old(history) < history && alive == (budget > 0)
      ensures alive ==> JustCompleted()
      ensures cursor == if alive && lastActivity.id != "" then Some(lastActivity.id) else old(cursor)
    {
      hide Feasible, Run;
      if budget == 0 {
        Die();
        return false;
      }
      Log(Save);
      if lastActivity.id != "" { cursor := Some(lastActivity.id); }
      phase := Idle;
      return true;
    }

    /** The page in processing order. */
    method FetchPage() returns (activities: array<Activity>)
      ensures fresh(activities)
      ensures activities.Length == PageEnd(feed, cursor) - PageStart(feed, cursor)
      ensures forall k :: 0 <= k < activities.Length ==> activities[k] == feed[PageStart(feed, cursor) + k]
    {
      activities := GetActivities(cursor);
      Reverse(activities);
    }

    method Begin(activities: array<Activity>)
      requires Valid() && phase.Idle?
      requires activities.Length == PageEnd(feed, cursor) - PageStart(feed, cursor)
      modifies this`phase, this`first, this`next, this`end, this`history
      ensures Valid() && old(history) < history
      ensures activities.Length == 0 ==> phase == Idle && JustCompleted()
      ensures activities.Length > 0 ==>
        phase == Visiting && first == next == PageStart(feed, cursor) && end == PageEnd(feed, cursor)
    {
      hide Feasible, Run, Keyed;
      Log(Start);
      if activities.Length > 0 {
        phase, first, end := Visiting, PageStart(feed, cursor), PageEnd(feed, cursor);
        next := first;
      }
    }

    /** One sync. It reads the page after the stored cursor, stores its activities oldest first,
        and only then saves the id of the OLDEST of them. */
    method SyncCustomerActivities(budget: nat) returns (outcome: Outcome)
      requires Valid() && phase.Idle?
      modifies this`table, this`cursor, this`stored, this`phase, this`first, this`next, this`end, this`history
      ensures Valid() && phase.Idle? && old(history) < history
      ensures outcome.Completed? ==> JustCompleted()
      ensures outcome.Completed? && Initial(origin) ==> Deduped(table, stored) && NewestStay(feed, table, stored)
      ensures !outcome.Completed? ==> cursor == old(cursor)
      ensures var lo, hi := PageStart(feed, old(cursor)), PageEnd(feed, old(cursor));
        && (outcome.Completed? ==>
              && outcome.activitiesProcessed == CountKnown(customers, accounts, feed, lo, hi)
              && cursor == (if lo < hi && feed[lo].id != "" then Some(feed[lo].id) else old(cursor))
              && forall j :: lo <= j < hi ==> !Blocked(customers, accounts, feed[j]))
        && (outcome.Threw? ==> exists j :: lo <= j < hi && Blocked(customers, accounts, feed[j]))
    {
      hide Feasible, Run, Keyed, Completes, Enabled, Deduped, NewestStay;
      var activities := FetchPage();
      Begin(activities);
      outcome := Completed(0);
      if activities.Length > 0 {
        var left, processed, stop := ProcessPage(activities, budget);
        if stop.Some? { return stop.value; }
        var alive := SaveCursor(activities[0], left);
        if !alive { return Died; }
        outcome := Completed(processed);
      }
      assert JustCompleted();
      if Initial(origin) {
        CompletedSyncIsDeduped(origin, history);
        NewestActivitiesStay(origin, history);
      }
    }
  }
}
