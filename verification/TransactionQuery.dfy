/** Listing a user's transaction items (transaction-item.service.ts, transaction-item.mapper.ts): the
    direction of a query becomes part of the database filter, the found items are sorted, and their
    counterparties are looked up. Proved: pushing the direction down does not change the answer. */
module TransactionQuery {
  import opened Prelude

  /** The attributes that queries look at. */
  datatype TransactionItem = TransactionItem(
    id: string, senderAuth0Id: Option<string>, receiverAuth0Id: Option<string>, toAddress: Option<string>,
    virtualAccountId: Option<string>, source: Option<string>, currency: Option<string>, occurredAt: int)

  datatype TypeFilter = FUNDS_RECEIVED | FUNDS_SENT

  /** Dates are already parsed to milliseconds. */
  datatype Query = Query(
    type_: Option<TypeFilter>, virtualAccountId: Option<string>, source: Option<string>, currency: Option<string>,
    startDate: Option<int>, endDate: Option<int>)

  // ---------------------------------------------------------------- the database filter

  datatype Attribute = SenderAuth0Id | ReceiverAuth0Id | VirtualAccountId | Source | Currency

  datatype Condition =
    | Equals(subject: Attribute, wanted: string)
    | OccurredAtLeast(time: int)
    | OccurredAtMost(time: int)
    | Or(conditions: seq<Condition>)
    | And(conditions: seq<Condition>)

  function Get(item: TransactionItem, subject: Attribute): Option<string> {
    match subject
    case SenderAuth0Id => item.senderAuth0Id
    case ReceiverAuth0Id => item.receiverAuth0Id
    case VirtualAccountId => item.virtualAccountId
    case Source => item.source
    case Currency => item.currency
  }

  /** A comparison with a missing attribute is false. */
  predicate Holds(c: Condition, item: TransactionItem) {
    match c
    case Equals(subject, wanted) => Get(item, subject) == Some(wanted)
    case OccurredAtLeast(time) => item.occurredAt >= time
    case OccurredAtMost(time) => item.occurredAt <= time
    case Or(conditions) => exists k :: 0 <= k < |conditions| && Holds(conditions[k], item)
    case And(conditions) => forall k :: 0 <= k < |conditions| ==> Holds(conditions[k], item)
  }

  function Direction(auth0Id: string, type_: Option<TypeFilter>): Condition {
    match type_
    case Some(FUNDS_SENT) => Equals(SenderAuth0Id, auth0Id)
    case Some(FUNDS_RECEIVED) => Equals(ReceiverAuth0Id, auth0Id)
    case None => Or([Equals(SenderAuth0Id, auth0Id), Equals(ReceiverAuth0Id, auth0Id)])
  }

  function IfTruthy(subject: Attribute, value: Option<string>): seq<Condition> {
    if Truthy(value) then [Equals(subject, value.value)] else []
  }

  function IfStart(startDate: Option<int>): seq<Condition> {
    if startDate.Some? then [OccurredAtLeast(startDate.value)] else []
  }

  function IfEnd(endDate: Option<int>): seq<Condition> {
    if endDate.Some? then [OccurredAtMost(endDate.value)] else []
  }

  function Filters(auth0Id: string, q: Query): (filters: seq<Condition>)
    ensures |filters| >= 1
  {
    [Direction(auth0Id, q.type_)] + IfTruthy(VirtualAccountId, q.virtualAccountId) + IfTruthy(Source, q.source) +
    IfTruthy(Currency, q.currency) + IfStart(q.startDate) + IfEnd(q.endDate)
  }

  /** buildTransactionItemFilter: a single condition is not wrapped. */
  function BuildFilter(auth0Id: string, q: Query): Condition {
    var filters := Filters(auth0Id, q);
    if |filters| == 1 then filters[0] else And(filters)
  }

  predicate IsSender(item: TransactionItem, auth0Id: string) { item.senderAuth0Id == Some(auth0Id) }

  predicate IsReceiver(item: TransactionItem, auth0Id: string) { item.receiverAuth0Id == Some(auth0Id) }

  /** The item is one of the user's in the wanted direction. */
  predicate Directed(item: TransactionItem, auth0Id: string, type_: Option<TypeFilter>) {
    || (type_ != Some(FUNDS_RECEIVED) && IsSender(item, auth0Id))
    || (type_ != Some(FUNDS_SENT) && IsReceiver(item, auth0Id))
  }

  predicate Satisfies(value: Option<string>, wanted: Option<string>) {
    Truthy(wanted) ==> value == wanted
  }

  /** What a query asks for. */
  predicate Matches(auth0Id: string, q: Query, item: TransactionItem) {
    && Directed(item, auth0Id, q.type_)
    && Satisfies(item.virtualAccountId, q.virtualAccountId)
    && Satisfies(item.source, q.source)
    && Satisfies(item.currency, q.currency)
    && (q.startDate.Some? ==> q.startDate.value <= item.occurredAt)
    && (q.endDate.Some? ==> item.occurredAt <= q.endDate.value)
  }

  lemma {:induction false} AndConcat(cs: seq<Condition>, ds: seq<Condition>, item: TransactionItem)
    ensures Holds(And(cs + ds), item) <==> Holds(And(cs), item) && Holds(And(ds), item)
  {
    if Holds(And(cs + ds), item) {
      forall k | 0 <= k < |cs| ensures Holds(cs[k], item) { assert cs[k] == (cs + ds)[k]; }
      forall k | 0 <= k < |ds| ensures Holds(ds[k], item) { assert ds[k] == (cs + ds)[|cs| + k]; }
    }
  }

  lemma {:induction false} IfTruthyMeans(subject: Attribute, value: Option<string>, item: TransactionItem)
    ensures Holds(And(IfTruthy(subject, value)), item) <==> Satisfies(Get(item, subject), value)
  {
    var cs := IfTruthy(subject, value);
    if cs != [] { assert Holds(And(cs), item) <==> Holds(cs[0], item); }
  }

  lemma {:induction false} SingleMeans(c: Condition, item: TransactionItem)
    ensures Holds(And([c]), item) <==> Holds(c, item)
  {
    assert [c][0] == c;
  }

  lemma {:induction false} DatesMean(q: Query, item: TransactionItem)
    ensures Holds(And(IfStart(q.startDate)), item) <==> (q.startDate.Some? ==> q.startDate.value <= item.occurredAt)
    ensures Holds(And(IfEnd(q.endDate)), item) <==> (q.endDate.Some? ==> item.occurredAt <= q.endDate.value)
  {
    if q.startDate.Some? { SingleMeans(OccurredAtLeast(q.startDate.value), item); }
    if q.endDate.Some? { SingleMeans(OccurredAtMost(q.endDate.value), item); }
  }

  /** The filter that is built selects exactly the items that the query asks for. */
  lemma {:induction false} FilterMeansQuery(auth0Id: string, q: Query, item: TransactionItem)
    ensures Holds(BuildFilter(auth0Id, q), item) <==> Matches(auth0Id, q, item)
  {
    hide IfTruthy, IfStart, IfEnd, Directed, Satisfies, Direction;
    var direction, a := Direction(auth0Id, q.type_), IfTruthy(VirtualAccountId, q.virtualAccountId);
    var b, c := IfTruthy(Source, q.source), IfTruthy(Currency, q.currency);
    var d, e := IfStart(q.startDate), IfEnd(q.endDate);
    AndConcat([direction], a, item);
    AndConcat([direction] + a, b, item);
    AndConcat([direction] + a + b, c, item);
    AndConcat([direction] + a + b + c, d, item);
    AndConcat([direction] + a + b + c + d, e, item);
    SingleMeans(direction, item);
    DirectionMeans(auth0Id, q.type_, item);
    IfTruthyMeans(VirtualAccountId, q.virtualAccountId, item);
    IfTruthyMeans(Source, q.source, item);
    IfTruthyMeans(Currency, q.currency, item);
    DatesMean(q, item);
    var filters := Filters(auth0Id, q);
    if |filters| == 1 {
      SingleMeans(filters[0], item);
      assert filters == [filters[0]];
    }
  }

  lemma {:induction false} DirectionMeans(auth0Id: string, type_: Option<TypeFilter>, item: TransactionItem)
    ensures Holds(Direction(auth0Id, type_), item) <==> Directed(item, auth0Id, type_)
  {
    if type_.None? {
      var both := [Equals(SenderAuth0Id, auth0Id), Equals(ReceiverAuth0Id, auth0Id)];
      assert Holds(both[0], item) <==> IsSender(item, auth0Id);
      assert Holds(both[1], item) <==> IsReceiver(item, auth0Id);
    } else {
      match type_.value case FUNDS_RECEIVED => case FUNDS_SENT =>
    }
  }

  // ---------------------------------------------------------------- stable sort, newest first

  function Insert(x: TransactionItem, sorted: seq<TransactionItem>): seq<TransactionItem> {
    if sorted == [] || sorted[0].occurredAt <= x.occurredAt then [x] + sorted
    else [sorted[0]] + Insert(x, sorted[1..])
  }

  function StableSort(items: seq<TransactionItem>): seq<TransactionItem> {
    if items == [] then [] else Insert(items[0], StableSort(items[1..]))
  }

  ghost predicate Descending(items: seq<TransactionItem>) {
    forall i, j :: 0 <= i < j < |items| ==> items[i].occurredAt >= items[j].occurredAt
  }

  function At(items: seq<TransactionItem>, time: int): seq<TransactionItem> {
    Filter(items, (i: TransactionItem) => i.occurredAt == time)
  }

  /** Array.prototype.sort with a stable comparison, section 23.1.3.30 of ECMA-262 (2023): in order, and
      items of equal time keep their order. */
  ghost predicate SortsStably(items: seq<TransactionItem>, sorted: seq<TransactionItem>) {
    Descending(sorted) && SameGroups(sorted, items)
  }

  lemma {:induction false} FilterHead(x: TransactionItem, rest: seq<TransactionItem>, p: TransactionItem -> bool)
    ensures Filter([x] + rest, p) == if p(x) then [x] + Filter(rest, p) else Filter(rest, p)
  {
    assert ([x] + rest)[1..] == rest;
  }

  lemma {:induction false} InsertDescending(x: TransactionItem, sorted: seq<TransactionItem>)
    requires Descending(sorted)
    ensures Descending(Insert(x, sorted))
    ensures forall y :: y in Insert(x, sorted) <==> y == x || y in sorted
  {
    if sorted != [] && sorted[0].occurredAt > x.occurredAt {
      InsertDescending(x, sorted[1..]);
      var tail := Insert(x, sorted[1..]);
      forall j | 0 <= j < |tail| ensures sorted[0].occurredAt >= tail[j].occurredAt {
        assert tail[j] in tail;
        if tail[j] != x {
          assert tail[j] in sorted[1..];
          var k :| 0 <= k < |sorted[1..]| && sorted[1..][k] == tail[j];
          assert sorted[k + 1] == tail[j];
        }
      }
    }
  }

  lemma {:induction false} InsertBehind(x: TransactionItem, head: TransactionItem, rest: seq<TransactionItem>)
    requires head.occurredAt > x.occurredAt
    ensures Insert(x, [head] + rest) == [head] + Insert(x, rest)
  {
    assert ([head] + rest)[1..] == rest;
  }

  lemma {:induction false} InsertInFront(x: TransactionItem, sorted: seq<TransactionItem>, p: TransactionItem -> bool)
    requires Descending(sorted) && (sorted == [] || sorted[0].occurredAt <= x.occurredAt)
    ensures Insert(x, Filter(sorted, p)) == [x] + Filter(sorted, p)
  {
    var kept := Filter(sorted, p);
    if kept != [] {
      FilterMember(sorted, p, kept[0]);
      var k :| 0 <= k < |sorted| && sorted[k] == kept[0];
    }
  }

  /** Inserting and filtering commute: the inserted item, if it passes, keeps its place. */
  lemma {:induction false} InsertFilter(x: TransactionItem, sorted: seq<TransactionItem>, p: TransactionItem -> bool)
    requires Descending(sorted)
    ensures Filter(Insert(x, sorted), p) == if p(x) then Insert(x, Filter(sorted, p)) else Filter(sorted, p)
  {
    if sorted == [] || sorted[0].occurredAt <= x.occurredAt {
      FilterHead(x, sorted, p);
      InsertInFront(x, sorted, p);
    } else {
      InsertFilter(x, sorted[1..], p);
      assert sorted == [sorted[0]] + sorted[1..];
      FilterHead(sorted[0], sorted[1..], p);
      FilterHead(sorted[0], Insert(x, sorted[1..]), p);
      InsertBehind(x, sorted[0], Filter(sorted[1..], p));
    }
  }

  lemma {:induction false} SortIsDescending(items: seq<TransactionItem>)
    ensures Descending(StableSort(items))
  {
    if items != [] {
      SortIsDescending(items[1..]);
      InsertDescending(items[0], StableSort(items[1..]));
    }
  }

  /** Filtering commutes with the stable sort. */
  lemma {:induction false} FilterCommutesWithSort(items: seq<TransactionItem>, p: TransactionItem -> bool)
    ensures Filter(StableSort(items), p) == StableSort(Filter(items, p))
  {
    if items != [] {
      var x, rest, kept := items[0], items[1..], Filter(items[1..], p);
      FilterCommutesWithSort(rest, p);
      SortIsDescending(rest);
      InsertFilter(x, StableSort(rest), p);
      assert items == [x] + rest;
      FilterHead(x, rest, p);
      SortHead(x, kept);
    }
  }

  lemma {:induction false} SortHead(x: TransactionItem, rest: seq<TransactionItem>)
    ensures StableSort([x] + rest) == Insert(x, StableSort(rest))
  {
    assert ([x] + rest)[1..] == rest;
  }

  lemma {:induction false} SortOfEquals(items: seq<TransactionItem>, time: int)
    requires forall i :: i in items ==> i.occurredAt == time
    ensures StableSort(items) == items
  {
    if items != [] { SortOfEquals(items[1..], time); }
  }

  lemma {:induction false} SortIsStable(items: seq<TransactionItem>)
    ensures SortsStably(items, StableSort(items))
  {
    SortIsDescending(items);
    forall time ensures At(StableSort(items), time) == At(items, time) {
      var p := (i: TransactionItem) => i.occurredAt == time;
      FilterCommutesWithSort(items, p);
      forall i | i in At(items, time) ensures i.occurredAt == time { FilterMember(items, p, i); }
      SortOfEquals(At(items, time), time);
    }
  }

  ghost predicate SameGroups(xs: seq<TransactionItem>, ys: seq<TransactionItem>) {
    forall time :: At(xs, time) == At(ys, time)
  }

  /** There is only one such order, so any conforming sort gives this result. */
  lemma {:induction false} StableSortIsUnique(xs: seq<TransactionItem>, ys: seq<TransactionItem>)
    requires Descending(xs) && Descending(ys) && SameGroups(xs, ys)
    ensures xs == ys
    decreases |xs|
  {
    HeadIsInItsGroup(xs);
    HeadIsInItsGroup(ys);
    assert xs != [] ==> At(xs, xs[0].occurredAt) == At(ys, xs[0].occurredAt);
    assert ys != [] ==> At(xs, ys[0].occurredAt) == At(ys, ys[0].occurredAt);
    if xs != [] {
      SameFirst(xs, ys);
      SameFirst(ys, xs);
      assert xs[0] == ys[0];
      forall t ensures At(xs[1..], t) == At(ys[1..], t) {
        assert At(xs, t) == At(ys, t);
        var k := if xs[0].occurredAt == t then 1 else 0;
        assert At(xs[1..], t) == At(xs, t)[k..] && At(ys[1..], t) == At(ys, t)[k..];
      }
      StableSortIsUnique(xs[1..], ys[1..]);
      assert xs == [xs[0]] + xs[1..] && ys == [ys[0]] + ys[1..];
    }
  }

  lemma {:induction false} HeadIsInItsGroup(xs: seq<TransactionItem>)
    ensures xs != [] ==> At(xs, xs[0].occurredAt) != [] && At(xs, xs[0].occurredAt)[0] == xs[0]
  {}

  lemma {:induction false} SameFirst(xs: seq<TransactionItem>, ys: seq<TransactionItem>)
    requires Descending(ys) && SameGroups(xs, ys) && xs != [] && ys != []
    ensures xs[0].occurredAt <= ys[0].occurredAt
  {
    var time := xs[0].occurredAt;
    HeadIsInItsGroup(xs);
    assert At(xs, time) == At(ys, time);
    FilterMember(ys, (i: TransactionItem) => i.occurredAt == time, xs[0]);
    var k :| 0 <= k < |ys| && ys[k] == xs[0];
  }
}
