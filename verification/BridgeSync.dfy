/** Ingestion of virtual-account activities (bridge-xyz.sync.service.ts).

    A sync reads the page of activities after the cursor, stores each one by its id, keeps only the
    newest item of each trace number, and moves the cursor to the OLDEST activity of the page.
    Pages therefore overlap, and a sync may die between any two store operations. */
module BridgeSync {
  import opened Prelude

  const PAGE_LIMIT := 100

  datatype Activity = Activity(
    id: string, customerId: string, virtualAccountId: string, traceNumber: Option<string>,
    createdAt: int, currency: Option<string>, description: Option<string>)

  datatype Item = Item(
    id: string, customerId: string, virtualAccountId: string, traceNumber: Option<string>,
    occurredAt: int, currency: string, description: string)

  function OrElse(o: Option<string>, default: string): string {
    match o case None => default case Some(s) => s
  }

  /** mapVirtualAccountActivityToTransactionItem, without the two processing timestamps. */
  function ToItem(a: Activity): Item {
    Item(a.id, a.customerId, a.virtualAccountId, a.traceNumber, a.createdAt,
         OrElse(a.currency, "USD"), OrElse(a.description, ""))
  }

  /** The empty string is falsy, so it counts as no trace number. */
  predicate Traced(i: Item) {
    i.traceNumber.Some? && i.traceNumber.value != ""
  }

  predicate SameTrace(i: Item, j: Item) {
    Traced(i) && i.traceNumber == j.traceNumber
  }

  // ---------------------------------------------------------------- the pure specification

  /** Rows by id. The history of a run is one too: an activity's id determines its content. */
  type Table = map<string, Item>

  ghost predicate Keyed(table: Table) {
    forall k :: k in table ==> table[k].id == k
  }

  /** No stored item with the same trace number is newer. Vacuous without a trace number. */
  ghost predicate IsLatest(i: Item, stored: Table) {
    forall k :: k in stored && SameTrace(i, stored[k]) ==> stored[k].occurredAt <= i.occurredAt
  }

  /** All items without a trace number, and the newest items of each trace number. */
  ghost function LatestPerTrace(stored: Table): Table {
    map k | k in stored && IsLatest(stored[k], stored) :: stored[k]
  }

  ghost predicate DistinctTimes(stored: Table) {
    forall k, l :: k in stored && l in stored && k != l && SameTrace(stored[k], stored[l]) ==>
      stored[k].occurredAt != stored[l].occurredAt
  }

  /** What a table must keep of everything stored, even in the middle of a sync. */
  ghost predicate Keeps(table: Table, stored: Table) {
    && (forall k :: k in table ==> k in stored && table[k] == stored[k])
    && (forall k :: k in stored && !Traced(stored[k]) ==> k in table)
    && (forall k {:trigger HasNewer(table, stored[k])} :: k in stored && Traced(stored[k]) ==>
          HasNewer(table, stored[k]))
  }

  ghost predicate HasNewer(table: Table, i: Item) {
    exists k :: k in table && SameTrace(table[k], i) && i.occurredAt <= table[k].occurredAt
  }

  /** Two rows share a trace number only if that number is in `dirty`. */
  ghost predicate OnePerTrace(table: Table, dirty: iset<string>) {
    forall k, l :: k in table && l in table && k != l && SameTrace(table[k], table[l]) ==>
      table[k].traceNumber.value in dirty
  }

  ghost predicate Deduped(table: Table, stored: Table) {
    Keeps(table, stored) && OnePerTrace(table, iset{})
  }

  /** Every row of a deduplicated table is a newest item of its trace number. */
  lemma {:induction false} RowIsLatest(table: Table, stored: Table, k: string)
    requires Deduped(table, stored) && k in table
    ensures k in LatestPerTrace(stored) && LatestPerTrace(stored)[k] == table[k]
  {
    forall j | j in stored && SameTrace(table[k], stored[j])
      ensures stored[j].occurredAt <= table[k].occurredAt
    {
      assert HasNewer(table, stored[j]);
      var l :| l in table && SameTrace(table[l], stored[j]) && stored[j].occurredAt <= table[l].occurredAt;
      assert k == l;
    }
  }

  /** Nothing that should be kept is missing: a newest item's trace number has a row as new as it. */
  lemma {:induction false} LatestHasRow(table: Table, stored: Table, k: string) returns (row: string)
    requires Deduped(table, stored) && k in LatestPerTrace(stored)
    ensures row in table && table[row].occurredAt == stored[k].occurredAt
    ensures row == k || SameTrace(table[row], stored[k])
  {
    if Traced(stored[k]) {
      assert HasNewer(table, stored[k]);
      row :| row in table && SameTrace(table[row], stored[k]) && stored[k].occurredAt <= table[row].occurredAt;
      assert SameTrace(stored[k], stored[row]);
    } else {
      row := k;
    }
  }

  /** With distinct times per trace number the table is exactly the specification. */
  lemma {:induction false} DedupedIsLatest(table: Table, stored: Table)
    requires Deduped(table, stored) && DistinctTimes(stored)
    ensures table == LatestPerTrace(stored)
  {
    forall k | k in table ensures k in LatestPerTrace(stored) && LatestPerTrace(stored)[k] == table[k] {
      RowIsLatest(table, stored, k);
    }
    forall k | k in LatestPerTrace(stored) ensures k in table {
      var row := LatestHasRow(table, stored, k);
      assert table[row] == stored[row];
    }
  }

  // ---------------------------------------------------------------- the transition system

  /** What a running sync does next. `Deleting` has found the rows of a trace number, and `keep` is
      the id of the row that stays. */
  datatype Phase =
    | Idle
    | Visiting
    | Cleaning(trace: string)
    | Deleting(trace: string, keep: string, doomed: seq<string>)

  /** `feed` is oldest first and only grows. The page being processed is feed[first..end], and
      feed[next] is the activity whose turn it is. `stored` records every item ever put. */
  datatype State = State(
    feed: seq<Activity>, customers: map<string, string>, accounts: set<(string, string)>,
    table: Table, cursor: Option<string>, stored: Table,
    phase: Phase, first: nat, next: nat, end: nat)

  datatype Action =
    | Publish(activity: Activity)
    | AddCustomer(customerId: string, auth0Id: string)
    | AddAccount(auth0Id: string, accountId: string)
    | Start
    | Visit
    | Query(found: Option<string>, others: seq<string>)
    | Delete
    | Save
    | Crash

  /** Customer and virtual account are both on record. */
  predicate Known(customers: map<string, string>, accounts: set<(string, string)>, a: Activity) {
    a.customerId in customers && (customers[a.customerId], a.virtualAccountId) in accounts
  }

  /** The customer is on record but the virtual account is not. */
  predicate Blocked(customers: map<string, string>, accounts: set<(string, string)>, a: Activity) {
    a.customerId in customers && !Known(customers, accounts, a)
  }

  function IndexOf(feed: seq<Activity>, id: string): (i: nat)
    ensures i <= |feed|
    ensures i < |feed| ==> feed[i].id == id
    ensures forall j :: 0 <= j < i ==> feed[j].id != id
  {
    FindIndex(feed, (a: Activity) => a.id == id)
  }

  function Min(a: int, b: int): int { if a <= b then a else b }

  /** The page the API answers with starts directly after the cursor, or PAGE_LIMIT activities
      before the end when there is no cursor yet. */
  function PageStart(feed: seq<Activity>, cursor: Option<string>): (p: nat)
    ensures p <= |feed|
  {
    match cursor
    case None => if |feed| <= PAGE_LIMIT then 0 else |feed| - PAGE_LIMIT
    case Some(id) => Min(IndexOf(feed, id) + 1, |feed|)
  }

  function PageEnd(feed: seq<Activity>, cursor: Option<string>): nat {
    Min(PageStart(feed, cursor) + PAGE_LIMIT, |feed|)
  }

  ghost function RowsOf(table: Table, trace: string): set<string> {
    set k | k in table && table[k].traceNumber == Some(trace)
  }

  /** The outcome of the query by trace number: nothing found, or a newest row and all others. */
  ghost predicate Splits(table: Table, rows: set<string>, found: Option<string>, others: seq<string>)
    requires forall r :: r in rows ==> r in table
  {
    match found
    case None => rows == {} && others == []
    case Some(k) =>
      && k in rows
      && (forall r :: r in rows ==> table[r].occurredAt <= table[k].occurredAt)
      && (forall r :: r in others <==> r in rows && r != k)
  }

  ghost predicate Fresh(s: State, id: string) {
    && id != "" && id !in s.stored
    && (forall y :: y in s.feed ==> y.id != id)
  }

  ghost predicate Enabled(s: State, a: Action) {
    match a
    case Publish(x) => Fresh(s, x.id)
    case AddCustomer(c, _) => c !in s.customers
    case AddAccount(_, _) => true
    case Start => s.phase.Idle?
    case Visit => s.phase.Visiting? && s.next < s.end <= |s.feed|
    case Query(found, others) => s.phase.Cleaning? && Splits(s.table, RowsOf(s.table, s.phase.trace), found, others)
    case Delete => s.phase.Deleting?
    case Save => s.phase.Visiting? && s.first < s.next == s.end <= |s.feed|
    case Crash => !s.phase.Idle?
  }

  /** One loop iteration up to and including the put. An unknown virtual account throws. */
  function VisitStep(s: State): State
    requires s.next < |s.feed|
  {
    var a := s.feed[s.next];
    if a.customerId !in s.customers then
      s.(next := s.next + 1)
    else if !Known(s.customers, s.accounts, a) then
      s.(phase := Idle)
    else
      var item := ToItem(a);
      var put := s.(table := s.table[item.id := item], stored := s.stored[item.id := item]);
      if Traced(item) then put.(phase := Cleaning(item.traceNumber.value)) else put.(next := s.next + 1)
  }

  function QueryStep(s: State, found: Option<string>, others: seq<string>): State
    requires s.phase.Cleaning?
  {
    match found
    case None => s.(phase := Visiting, next := s.next + 1)
    case Some(k) => s.(phase := Deleting(s.phase.trace, k, others))
  }

  function DeleteStep(s: State): State
    requires s.phase.Deleting?
  {
    if s.phase.doomed == [] then s.(phase := Visiting, next := s.next + 1)
    else s.(table := s.table - {s.phase.doomed[0]},
            phase := Deleting(s.phase.trace, s.phase.keep, s.phase.doomed[1..]))
  }

  ghost function Apply(s: State, a: Action): State
    requires Enabled(s, a)
  {
    match a
    case Publish(x) => s.(feed := s.feed + [x])
    case AddCustomer(c, u) => s.(customers := s.customers[c := u])
    case AddAccount(u, v) => s.(accounts := s.accounts + {(u, v)})
    case Start =>
      var first, end := PageStart(s.feed, s.cursor), PageEnd(s.feed, s.cursor);
      if first == end then s else s.(phase := Visiting, first := first, next := first, end := end)
    case Visit => VisitStep(s)
    case Query(found, others) => QueryStep(s, found, others)
    case Delete => DeleteStep(s)
    case Save => s.(cursor := if s.feed[s.first].id != "" then Some(s.feed[s.first].id) else s.cursor, phase := Idle)
    case Crash => s.(phase := Idle)
  }

  /** The sync finished: there was nothing after the cursor, or the cursor was saved. */
  ghost predicate Completes(s: State, a: Action) {
    Enabled(s, a) && (a.Save? || (a.Start? && PageStart(s.feed, s.cursor) == PageEnd(s.feed, s.cursor)))
  }

  ghost predicate Feasible(s: State, acts: seq<Action>)
    decreases |acts|, 0
  {
    acts == [] ||
    (Feasible(s, acts[..|acts| - 1]) && Enabled(Run(s, acts[..|acts| - 1]), Last(acts)))
  }

  ghost function Run(s: State, acts: seq<Action>): State
    requires Feasible(s, acts)
    decreases |acts|, 1
  {
    if acts == [] then s else Apply(Run(s, acts[..|acts| - 1]), Last(acts))
  }

  lemma {:induction false} RunSnoc(s: State, acts: seq<Action>, a: Action)
    requires Feasible(s, acts) && Enabled(Run(s, acts), a)
    ensures Feasible(s, acts + [a]) && Run(s, acts + [a]) == Apply(Run(s, acts), a)
  {
    assert (acts + [a])[..|acts + [a]| - 1] == acts;
  }

  // ---------------------------------------------------------------- the invariant

  /** Every activity is the first one with its id. */
  ghost predicate UniqueIds(feed: seq<Activity>) {
    forall i {:trigger IndexOf(feed, feed[i].id)} :: 0 <= i < |feed| ==> IndexOf(feed, feed[i].id) == i
  }

  /** Ids determine content, across the feed and everything stored. */
  ghost predicate FeedOk(feed: seq<Activity>, stored: Table) {
    && UniqueIds(feed)
    && (forall i :: 0 <= i < |feed| ==>
          feed[i].id != "" && (feed[i].id in stored ==> stored[feed[i].id] == ToItem(feed[i])))
  }

  /** The position of the cursor in the feed. */
  function Pos(s: State): nat {
    if s.cursor.Some? then IndexOf(s.feed, s.cursor.value) else 0
  }

  /** The page of a running sync starts directly after the cursor. */
  ghost predicate PageOk(s: State) {
    && s.cursor.Some? && Pos(s) < |s.feed|
    && (!s.phase.Idle? ==>
        s.first == Pos(s) + 1 && s.first <= s.next <= s.end <= |s.feed| &&
        s.first < s.end <= s.first + PAGE_LIMIT)
  }

  /** A clean-up is for the trace number of the activity just stored. */
  ghost predicate CleaningOk(s: State) {
    s.phase.Cleaning? || s.phase.Deleting? ==>
      && s.next < s.end <= |s.feed|
      && Known(s.customers, s.accounts, s.feed[s.next])
      && s.feed[s.next].traceNumber == Some(s.phase.trace) && s.phase.trace != ""
      && s.feed[s.next].id in s.stored
  }

  /** While rows are being deleted, a newest row of the trace number stays, and no third one exists. */
  ghost predicate DeletingOk(phase: Phase, table: Table, stored: Table) {
    phase.Deleting? ==>
      && phase.keep in table && table[phase.keep].traceNumber == Some(phase.trace)
      && (forall d :: d in phase.doomed ==>
            (d != phase.keep && d in stored && stored[d].traceNumber == Some(phase.trace) &&
             stored[d].occurredAt <= table[phase.keep].occurredAt))
      && (forall l :: l in table && table[l].traceNumber == Some(phase.trace) ==>
            l == phase.keep || l in phase.doomed)
  }

  /** The next feed position to look at. */
  function Frontier(s: State): nat {
    if s.phase.Idle? then Pos(s) + 1 else s.next
  }

  /** What the next complete sync is still going to process: feed[AheadFrom..AheadTo]. */
  function AheadFrom(s: State): nat {
    if s.phase.Idle? then PageStart(s.feed, s.cursor) else s.next
  }

  function AheadTo(s: State): nat {
    if s.phase.Idle? then PageEnd(s.feed, s.cursor) else s.end
  }

  /** A sync that gets to feed[lo..hi] will store an item with this trace number, and clean up after it. */
  ghost predicate WillClean(s: State, lo: nat, hi: nat, trace: string) {
    exists j :: lo <= j < hi && j < |s.feed| && Cleans(s, s.feed[j], trace)
  }

  predicate Cleans(s: State, a: Activity, trace: string) {
    Known(s.customers, s.accounts, a) && a.traceNumber == Some(trace)
  }

  ghost function DirtyIn(s: State, lo: nat, hi: nat): iset<string> {
    iset trace | trace != "" && WillClean(s, lo, hi, trace)
  }

  ghost predicate Inv(s: State) {
    && FeedOk(s.feed, s.stored)
    && PageOk(s) && CleaningOk(s)
    && DeletingOk(s.phase, s.table, s.stored)
    && Keeps(s.table, s.stored)
    && OnePerTrace(s.table, DirtyIn(s, AheadFrom(s), AheadTo(s)))
  }

  /** Observation may begin whenever no sync is running, the cursor is set and the table is in order. */
  ghost predicate Initial(s: State) {
    && FeedOk(s.feed, s.stored) && PageOk(s)
    && s.phase.Idle? && Deduped(s.table, s.stored)
  }

  lemma {:induction false} InvInitially(s: State)
    requires Initial(s)
    ensures Inv(s)
  {}

  // ---------------------------------------------------------------- every step keeps the invariant

  lemma {:induction false} IndexOfAppend(feed: seq<Activity>, x: Activity, id: string)
    requires IndexOf(feed, id) < |feed|
    ensures IndexOf(feed + [x], id) == IndexOf(feed, id)
  {
    if feed[0].id != id {
      IndexOfAppend(feed[1..], x, id);
      assert (feed + [x])[1..] == feed[1..] + [x];
    }
  }

  lemma {:induction false} SameIdSamePlace(feed: seq<Activity>, i: nat, j: nat)
    requires UniqueIds(feed) && i < |feed| && j < |feed| && feed[i].id == feed[j].id
    ensures i == j
  {
    assert IndexOf(feed, feed[i].id) == i && IndexOf(feed, feed[j].id) == j;
  }

  /** More trace numbers may be dirty when more is known and more lies ahead. */
  lemma {:induction false} DirtyGrows(s: State, lo: nat, hi: nat, t: State, lo': nat, hi': nat)
    requires s.feed <= t.feed
    requires lo < hi && lo < |s.feed| ==> lo' <= lo && hi <= hi'
    requires forall c :: c in s.customers ==> c in t.customers && t.customers[c] == s.customers[c]
    requires s.accounts <= t.accounts
    ensures DirtyIn(s, lo, hi) <= DirtyIn(t, lo', hi')
  {
    forall trace | trace in DirtyIn(s, lo, hi) ensures WillClean(t, lo', hi', trace) {
      var j :| lo <= j < hi && j < |s.feed| && Cleans(s, s.feed[j], trace);
      assert t.feed[j] == s.feed[j] && Cleans(t, t.feed[j], trace);
    }
  }

  lemma {:induction false} OnePerTraceGrows(table: Table, dirty: iset<string>, more: iset<string>)
    requires OnePerTrace(table, dirty) && dirty <= more
    ensures OnePerTrace(table, more)
  {}

  lemma {:induction false} PublishKeepsFeedOk(feed: seq<Activity>, stored: Table, x: Activity)
    requires FeedOk(feed, stored) && x.id != "" && x.id !in stored && forall y :: y in feed ==> y.id != x.id
    ensures FeedOk(feed + [x], stored)
  {
    var longer := feed + [x];
    forall i | 0 <= i < |longer| ensures IndexOf(longer, longer[i].id) == i {
      if i < |feed| {
        assert IndexOf(feed, feed[i].id) == i;
        IndexOfAppend(feed, x, longer[i].id);
      }
    }
  }

  lemma {:induction false} PublishKeepsInv(s: State, x: Activity)
    requires Inv(s) && Enabled(s, Publish(x))
    ensures Inv(Apply(s, Publish(x)))
    ensures Pos(Apply(s, Publish(x))) == Pos(s)
  {
    hide OnePerTrace, DirtyIn, FeedOk, DeletingOk, Keeps;
    var t := Apply(s, Publish(x));
    PublishKeepsFeedOk(s.feed, s.stored, x);
    IndexOfAppend(s.feed, x, s.cursor.value);
    DirtyGrows(s, AheadFrom(s), AheadTo(s), t, AheadFrom(t), AheadTo(t));
    OnePerTraceGrows(s.table, DirtyIn(s, AheadFrom(s), AheadTo(s)), DirtyIn(t, AheadFrom(t), AheadTo(t)));
  }

  lemma {:induction false} DirectoryKeepsInv(s: State, a: Action)
    requires Inv(s) && Enabled(s, a) && (a.AddCustomer? || a.AddAccount?)
    ensures Inv(Apply(s, a))
  {
    hide OnePerTrace, DirtyIn, FeedOk, DeletingOk, Keeps;
    var t := Apply(s, a);
    DirtyGrows(s, AheadFrom(s), AheadTo(s), t, AheadFrom(t), AheadTo(t));
    OnePerTraceGrows(s.table, DirtyIn(s, AheadFrom(s), AheadTo(s)), DirtyIn(t, AheadFrom(t), AheadTo(t)));
  }

  lemma {:induction false} StartKeepsInv(s: State)
    requires Inv(s) && Enabled(s, Start)
    ensures Inv(Apply(s, Start))
  {
    hide OnePerTrace, DirtyIn, FeedOk, Keeps;
    var t := Apply(s, Start);
    DirtyGrows(s, AheadFrom(s), AheadTo(s), t, AheadFrom(t), AheadTo(t));
    OnePerTraceGrows(s.table, DirtyIn(s, AheadFrom(s), AheadTo(s)), DirtyIn(t, AheadFrom(t), AheadTo(t)));
  }

  lemma {:induction false} CrashKeepsInv(s: State)
    requires Inv(s) && !s.phase.Idle?
    ensures Inv(s.(phase := Idle))
  {
    hide OnePerTrace, DirtyIn, FeedOk, Keeps;
    var t := s.(phase := Idle);
    DirtyGrows(s, AheadFrom(s), AheadTo(s), t, AheadFrom(t), AheadTo(t));
    OnePerTraceGrows(s.table, DirtyIn(s, AheadFrom(s), AheadTo(s)), DirtyIn(t, AheadFrom(t), AheadTo(t)));
  }

  /** The trace number of feed[next] is settled: it is not one a sync cleans, or no two rows share it. */
  ghost predicate Settled(s: State) {
    s.next < |s.feed| && forall trace :: Cleans(s, s.feed[s.next], trace) ==> SingleRow(s.table, trace)
  }

  ghost predicate SingleRow(table: Table, trace: string) {
    forall k, l :: k in table && l in table && k != l && SameTrace(table[k], table[l]) ==>
      table[k].traceNumber.value != trace
  }

  lemma {:induction false} AdvanceKeepsClean(s: State)
    requires Settled(s) && OnePerTrace(s.table, DirtyIn(s, s.next, s.end))
    ensures OnePerTrace(s.table, DirtyIn(s, s.next + 1, s.end))
  {
    forall k, l | k in s.table && l in s.table && k != l && SameTrace(s.table[k], s.table[l])
      ensures s.table[k].traceNumber.value in DirtyIn(s, s.next + 1, s.end)
    {
      var trace := s.table[k].traceNumber.value;
      assert WillClean(s, s.next, s.end, trace);
      var j :| s.next <= j < s.end && j < |s.feed| && Cleans(s, s.feed[j], trace);
      assert j != s.next;
    }
  }

  /** Moving on when the trace number of feed[next] is settled. */
  lemma {:induction false} AdvanceKeepsInv(s: State)
    requires Inv(s) && !s.phase.Idle? && s.next < s.end && Settled(s)
    ensures Inv(s.(phase := Visiting, next := s.next + 1))
  {
    hide OnePerTrace, DirtyIn, FeedOk, Keeps, Settled;
    var t := s.(phase := Visiting, next := s.next + 1);
    AdvanceKeepsClean(s);
    DirtyGrows(s, s.next + 1, s.end, t, AheadFrom(t), AheadTo(t));
    OnePerTraceGrows(s.table, DirtyIn(s, s.next + 1, s.end), DirtyIn(t, AheadFrom(t), AheadTo(t)));
  }

  lemma {:induction false} SkipKeepsInv(s: State)
    requires Inv(s) && Enabled(s, Visit) && s.feed[s.next].customerId !in s.customers
    ensures Inv(VisitStep(s))
  {
    hide OnePerTrace, FeedOk, Keeps;
    AdvanceKeepsInv(s);
  }

  /** The put of an item whose id already determines it only adds rows. */
  lemma {:induction false} PutKeeps(table: Table, stored: Table, item: Item)
    requires Keeps(table, stored)
    requires item.id in stored ==> stored[item.id] == item
    ensures Keeps(table[item.id := item], stored[item.id := item])
    ensures item.id in table ==> table[item.id] == item
  {
    var t := table[item.id := item];
    assert forall k :: k in table ==> k in t && t[k] == table[k];
    forall k | k in stored && Traced(stored[k]) ensures HasNewer(t, stored[k]) {
      assert HasNewer(table, stored[k]);
    }
    if Traced(item) { assert SameTrace(t[item.id], item); }
  }

  lemma {:induction false} PutKeepsOnePerTrace(table: Table, item: Item, dirty: iset<string>)
    requires OnePerTrace(table, dirty)
    requires item.id in table ==> table[item.id] == item
    requires Traced(item) ==> item.traceNumber.value in dirty
    ensures OnePerTrace(table[item.id := item], dirty)
  {}

  lemma {:induction false} StoreKeepsFeedOk(feed: seq<Activity>, stored: Table, i: nat)
    requires FeedOk(feed, stored) && i < |feed|
    ensures FeedOk(feed, stored[feed[i].id := ToItem(feed[i])])
    ensures feed[i].id in stored ==> stored[feed[i].id] == ToItem(feed[i])
  {
    forall j | 0 <= j < |feed| && feed[j].id == feed[i].id ensures j == i { SameIdSamePlace(feed, i, j); }
  }

  /** The put alone, before the sync moves on or starts to clean up. */
  lemma {:induction false} PutKeepsInv(s: State)
    requires Inv(s) && Enabled(s, Visit)
    requires Known(s.customers, s.accounts, s.feed[s.next])
    ensures var item := ToItem(s.feed[s.next]);
      Inv(s.(table := s.table[item.id := item], stored := s.stored[item.id := item]))
  {
    hide OnePerTrace, FeedOk, Keeps;
    var item := ToItem(s.feed[s.next]);
    var t := s.(table := s.table[item.id := item], stored := s.stored[item.id := item]);
    StoreKeepsFeedOk(s.feed, s.stored, s.next);
    PutKeeps(s.table, s.stored, item);
    if Traced(item) {
      assert Cleans(s, s.feed[s.next], item.traceNumber.value);
      assert WillClean(s, s.next, s.end, item.traceNumber.value);
    }
    PutKeepsOnePerTrace(s.table, item, DirtyIn(s, s.next, s.end));
    DirtyGrows(s, s.next, s.end, t, s.next, s.end);
    OnePerTraceGrows(t.table, DirtyIn(s, s.next, s.end), DirtyIn(t, s.next, s.end));
  }

  /** Only the phase changes, and stays one of a running sync. */
  lemma {:induction false} PhaseKeepsInv(s: State, phase: Phase)
    requires Inv(s) && !s.phase.Idle? && !phase.Idle?
    requires CleaningOk(s.(phase := phase)) && DeletingOk(phase, s.table, s.stored)
    ensures Inv(s.(phase := phase))
  {
    hide OnePerTrace, FeedOk, Keeps, DirtyIn, DeletingOk;
    var t := s.(phase := phase);
    DirtyGrows(s, s.next, s.end, t, s.next, s.end);
    OnePerTraceGrows(t.table, DirtyIn(s, s.next, s.end), DirtyIn(t, s.next, s.end));
  }

  lemma {:induction false} StoreKeepsInv(s: State)
    requires Inv(s) && Enabled(s, Visit)
    requires Known(s.customers, s.accounts, s.feed[s.next])
    ensures Inv(VisitStep(s))
  {
    hide OnePerTrace, FeedOk, Keeps, DirtyIn;
    var item := ToItem(s.feed[s.next]);
    var u := s.(table := s.table[item.id := item], stored := s.stored[item.id := item]);
    PutKeepsInv(s);
    if Traced(item) {
      PhaseKeepsInv(u, Cleaning(item.traceNumber.value));
    } else {
      UntracedIsSettled(u);
      AdvanceKeepsInv(u);
    }
  }

  lemma {:induction false} UntracedIsSettled(s: State)
    requires s.next < |s.feed| && !Traced(ToItem(s.feed[s.next]))
    ensures Settled(s)
  {}

  lemma {:induction false} QueryKeepsDeletingOk(s: State, found: Option<string>, others: seq<string>)
    requires Keeps(s.table, s.stored)
    requires Enabled(s, Query(found, others)) && found.Some?
    ensures DeletingOk(Deleting(s.phase.trace, found.value, others), s.table, s.stored)
  {
    var rows := RowsOf(s.table, s.phase.trace);
    assert forall l :: l in s.table && s.table[l].traceNumber == Some(s.phase.trace) ==> l in rows;
  }

  /** The clean-up of a trace number is over when at most one row has it. */
  lemma {:induction false} CleanupSettles(s: State)
    requires CleaningOk(s) && DeletingOk(s.phase, s.table, s.stored)
    requires (s.phase.Cleaning? && RowsOf(s.table, s.phase.trace) == {}) || (s.phase.Deleting? && s.phase.doomed == [])
    ensures Settled(s)
  {
    if s.phase.Cleaning? {
      assert forall l :: l in s.table ==> l !in RowsOf(s.table, s.phase.trace);
    }
  }

  lemma {:induction false} QueryKeepsInv(s: State, found: Option<string>, others: seq<string>)
    requires Inv(s) && Enabled(s, Query(found, others))
    ensures Inv(QueryStep(s, found, others))
  {
    hide OnePerTrace, FeedOk, Keeps, DirtyIn, DeletingOk, Settled;
    if found.None? {
      CleanupSettles(s);
      AdvanceKeepsInv(s);
    } else {
      QueryKeepsDeletingOk(s, found, others);
      PhaseKeepsInv(s, Deleting(s.phase.trace, found.value, others));
    }
  }

  /** Removing a row that is dominated by another row of its trace number loses nothing. */
  lemma {:induction false} DeleteKeeps(table: Table, stored: Table, d: string, keep: string)
    requires Keeps(table, stored)
    requires keep in table && keep != d && d in stored && SameTrace(stored[d], table[keep])
    requires stored[d].occurredAt <= table[keep].occurredAt
    ensures Keeps(table - {d}, stored)
  {
    hide HasNewer;
    forall i | i in stored && Traced(stored[i]) ensures HasNewer(table - {d}, stored[i]) {
      NewerSurvives(table, stored[i], stored[d], d, keep);
    }
  }

  lemma {:induction false} NewerSurvives(table: Table, i: Item, doomed: Item, d: string, keep: string)
    requires HasNewer(table, i) && (d in table ==> table[d] == doomed)
    requires keep in table && keep != d && SameTrace(doomed, table[keep]) && doomed.occurredAt <= table[keep].occurredAt
    ensures HasNewer(table - {d}, i)
  {
    var k :| k in table && SameTrace(table[k], i) && i.occurredAt <= table[k].occurredAt;
    var l := if k == d then keep else k;
    assert l in table - {d} && (table - {d})[l] == table[l];
  }

  lemma {:induction false} DeleteKeepsOnePerTrace(table: Table, d: string, dirty: iset<string>)
    requires OnePerTrace(table, dirty)
    ensures OnePerTrace(table - {d}, dirty)
  {}

  lemma {:induction false} DeleteKeepsDeletingOk(s: State)
    requires DeletingOk(s.phase, s.table, s.stored) && s.phase.Deleting? && s.phase.doomed != []
    ensures var t := DeleteStep(s); DeletingOk(t.phase, t.table, s.stored)
  {
    var t := DeleteStep(s);
    assert s.phase.doomed[0] in s.phase.doomed;
    assert s.phase.doomed == [s.phase.doomed[0]] + t.phase.doomed;
  }

  lemma {:induction false} DeleteKeepsRows(s: State, dirty: iset<string>)
    requires Keeps(s.table, s.stored) && OnePerTrace(s.table, dirty)
    requires DeletingOk(s.phase, s.table, s.stored) && CleaningOk(s) && s.phase.Deleting? && s.phase.doomed != []
    ensures var t := DeleteStep(s); Keeps(t.table, t.stored) && OnePerTrace(t.table, dirty)
  {
    var d := s.phase.doomed[0];
    assert d in s.phase.doomed;
    DeleteKeeps(s.table, s.stored, d, s.phase.keep);
    DeleteKeepsOnePerTrace(s.table, d, dirty);
  }

  lemma {:induction false} DeleteKeepsInv(s: State)
    requires Inv(s) && Enabled(s, Delete)
    ensures Inv(DeleteStep(s))
  {
    hide OnePerTrace, FeedOk, Keeps, DirtyIn, DeletingOk, Settled;
    if s.phase.doomed == [] {
      CleanupSettles(s);
      AdvanceKeepsInv(s);
    } else {
      var t := DeleteStep(s);
      DeleteKeepsRows(s, DirtyIn(s, s.next, s.end));
      DeleteKeepsDeletingOk(s);
      DirtyGrows(s, s.next, s.end, t, s.next, s.end);
      OnePerTraceGrows(t.table, DirtyIn(s, s.next, s.end), DirtyIn(t, s.next, s.end));
    }
  }

  /** A sync that is about to save its cursor leaves nothing to clean. */
  lemma {:induction false} SaveIsDeduped(s: State)
    requires Inv(s) && AheadFrom(s) >= AheadTo(s)
    ensures Deduped(s.table, s.stored)
  {
    hide FeedOk, Keeps;
    assert DirtyIn(s, AheadFrom(s), AheadTo(s)) == iset{};
  }

  lemma {:induction false} SaveMovesCursor(s: State)
    requires FeedOk(s.feed, s.stored) && PageOk(s) && Enabled(s, Save)
    ensures Pos(Apply(s, Save)) == Pos(s) + 1 && PageOk(Apply(s, Save))
  {
    assert IndexOf(s.feed, s.feed[s.first].id) == s.first;
  }

  lemma {:induction false} SaveKeepsInv(s: State)
    requires Inv(s) && Enabled(s, Save)
    ensures Inv(Apply(s, Save))
  {
    hide OnePerTrace, FeedOk, Keeps, DirtyIn;
    var t := Apply(s, Save);
    SaveMovesCursor(s);
    DirtyGrows(s, s.next, s.end, t, AheadFrom(t), AheadTo(t));
    OnePerTraceGrows(s.table, DirtyIn(s, s.next, s.end), DirtyIn(t, AheadFrom(t), AheadTo(t)));
  }

  lemma {:induction false} VisitKeepsInv(s: State)
    requires Inv(s) && Enabled(s, Visit)
    ensures Inv(VisitStep(s))
  {
    hide Inv;
    if s.feed[s.next].customerId !in s.customers {
      SkipKeepsInv(s);
    } else if Known(s.customers, s.accounts, s.feed[s.next]) {
      StoreKeepsInv(s);
    } else {
      CrashKeepsInv(s);
    }
  }

  lemma {:induction false} StepKeepsInv(s: State, a: Action)
    requires Inv(s) && Enabled(s, a)
    ensures Inv(Apply(s, a))
  {
    hide Inv;
    match a
    case Publish(x) => PublishKeepsInv(s, x);
    case AddCustomer(_, _) => DirectoryKeepsInv(s, a);
    case AddAccount(_, _) => DirectoryKeepsInv(s, a);
    case Start => StartKeepsInv(s);
    case Visit => VisitKeepsInv(s);
    case Query(found, others) => QueryKeepsInv(s, found, others);
    case Delete => DeleteKeepsInv(s);
    case Save => SaveKeepsInv(s);
    case Crash => CrashKeepsInv(s);
  }

  lemma {:induction false} StepMovesCursor(s: State, a: Action)
    requires Inv(s) && Enabled(s, a)
    ensures Pos(Apply(s, a)) == Pos(s) + if a.Save? then 1 else 0
  {
    hide OnePerTrace, FeedOk, Keeps, DirtyIn, DeletingOk;
    if a.Publish? { PublishKeepsInv(s, a.activity); }
    if a.Save? { SaveMovesCursor(s); }
  }

  // ---------------------------------------------------------------- whole runs

  function Saves(acts: seq<Action>): nat {
    if acts == [] then 0 else Saves(acts[..|acts| - 1]) + if Last(acts).Save? then 1 else 0
  }

  /** The invariant over every run, and the cursor: it moves forward by exactly one activity per
      sync that saved it, and never back. */
  lemma {:induction false} RunKeepsInv(s: State, acts: seq<Action>)
    requires Initial(s) && Feasible(s, acts)
    ensures Inv(Run(s, acts))
    ensures Pos(Run(s, acts)) == Pos(s) + Saves(acts)
  {
    if acts == [] {
      InvInitially(s);
    } else {
      var before := acts[..|acts| - 1];
      RunKeepsInv(s, before);
      StepKeepsInv(Run(s, before), Last(acts));
      StepMovesCursor(Run(s, before), Last(acts));
    }
  }

  /** Crash tolerance: in every run, with crashes between any two store operations, each completed
      sync leaves exactly one newest row per trace number ever stored and every untraced row. */
  lemma {:induction false} CompletedSyncIsDeduped(s: State, acts: seq<Action>)
    requires Initial(s) && Feasible(s, acts) && acts != []
    requires Completes(Run(s, acts[..|acts| - 1]), Last(acts))
    ensures var t := Run(s, acts);
      && Deduped(t.table, t.stored)
      && (DistinctTimes(t.stored) ==> t.table == LatestPerTrace(t.stored))
  {
    hide Inv, Deduped;
    var before := acts[..|acts| - 1];
    RunKeepsInv(s, before);
    SaveIsDeduped(Run(s, before));
    var t := Run(s, acts);
    if DistinctTimes(t.stored) { DedupedIsLatest(t.table, t.stored); }
  }

  /** Confluence: two runs that stored the same items, in whatever order and with whatever replays
      and crashes, end their completed syncs with the same table. */
  lemma {:induction false} RunsAreConfluent(s: State, acts: seq<Action>, t: State, other: seq<Action>)
    requires Initial(s) && Feasible(s, acts) && acts != []
    requires Completes(Run(s, acts[..|acts| - 1]), Last(acts))
    requires Initial(t) && Feasible(t, other) && other != []
    requires Completes(Run(t, other[..|other| - 1]), Last(other))
    requires Run(s, acts).stored == Run(t, other).stored && DistinctTimes(Run(s, acts).stored)
    ensures Run(s, acts).table == Run(t, other).table
  {
    CompletedSyncIsDeduped(s, acts);
    CompletedSyncIsDeduped(t, other);
  }

  /** What a blocked activity at position `j` does to a run that began in `s`. */
  ghost predicate Stuck(s: State, t: State, j: nat) {
    && s.feed <= t.feed && j < |s.feed|
    && t.cursor == s.cursor
    && s.feed[j].customerId in t.customers && s.feed[j].customerId in s.customers
    && t.customers[s.feed[j].customerId] == s.customers[s.feed[j].customerId]
    && (!t.phase.Idle? ==> t.next <= j < t.end)
  }

  lemma {:induction false} StuckStep(s: State, t: State, a: Action, j: nat)
    requires Stuck(s, t, j) && Enabled(t, a) && PageOk(t) && CleaningOk(t)
    requires s.cursor.Some? && Pos(s) < |s.feed| && Pos(s) < j < PageEnd(s.feed, s.cursor)
    requires (s.customers[s.feed[j].customerId], s.feed[j].virtualAccountId) !in Apply(t, a).accounts
    ensures Stuck(s, Apply(t, a), j)
  {
    hide IndexOf, Splits, Fresh, PageStart, PageEnd;
    assert t.feed[j] == s.feed[j];
    if a.Start? { StuckStart(s, t, j); }
    if a.Visit? { assert VisitStep(t).feed == t.feed; }
  }

  lemma {:induction false} StuckStart(s: State, t: State, j: nat)
    requires Stuck(s, t, j) && Enabled(t, Start) && s.cursor.Some? && Pos(s) < |s.feed|
    requires Pos(s) < j < PageEnd(s.feed, s.cursor)
    ensures Stuck(s, Apply(t, Start), j)
  {
    hide IndexOf;
    IndexOfPrefix(s.feed, t.feed, s.cursor.value);
  }

  lemma {:induction false} DirectoryGrows(t: State, a: Action)
    requires Enabled(t, a)
    ensures t.accounts <= Apply(t, a).accounts
  {}

  lemma {:induction false} IndexOfPrefix(feed: seq<Activity>, longer: seq<Activity>, id: string)
    requires feed <= longer && IndexOf(feed, id) < |feed|
    ensures IndexOf(longer, id) == IndexOf(feed, id)
  {
    if feed[0].id != id { IndexOfPrefix(feed[1..], longer[1..], id); }
  }

  /** An activity on the next page whose customer is on record, but whose virtual account is not,
      stops the cursor for as long as the account is missing, however often the sync is tried. */
  lemma {:induction false} BlockedActivityStalls(s: State, acts: seq<Action>, j: nat)
    requires Initial(s) && Feasible(s, acts)
    requires Pos(s) < j < PageEnd(s.feed, s.cursor)
    requires s.feed[j].customerId in s.customers
    requires (s.customers[s.feed[j].customerId], s.feed[j].virtualAccountId) !in Run(s, acts).accounts
    ensures Run(s, acts).cursor == s.cursor && Stuck(s, Run(s, acts), j)
  {
    if acts != [] {
      hide FeedOk, Keeps, OnePerTrace, DirtyIn, DeletingOk, Enabled, Apply;
      var before := acts[..|acts| - 1];
      RunKeepsInv(s, before);
      DirectoryGrows(Run(s, before), Last(acts));
      BlockedActivityStalls(s, before, j);
      StuckStep(s, Run(s, before), Last(acts), j);
    }
  }
}
