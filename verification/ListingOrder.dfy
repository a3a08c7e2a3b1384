/** The order of a listing: newest first, items of equal time in the order of the table, and an item that is
    both received and sent by the user listed as received first. */
module ListingOrder {
  import opened Prelude
  import opened TransactionQuery
  import opened TransactionListing

  // ---------------------------------------------------------------- positions

  /** x occurs before y. */
  ghost predicate InOrder(items: seq<TransactionItem>, x: TransactionItem, y: TransactionItem) {
    exists p, q :: 0 <= p < q < |items| && items[p] == x && items[q] == y
  }

  lemma {:induction false} OrderOfTail(items: seq<TransactionItem>, x: TransactionItem, y: TransactionItem)
    requires items != []
    ensures InOrder(items, x, y) <==> (items[0] == x && y in items[1..]) || InOrder(items[1..], x, y)
  {
    var rest := items[1..];
    if InOrder(rest, x, y) {
      var p, q :| 0 <= p < q < |rest| && rest[p] == x && rest[q] == y;
      assert items[p + 1] == x && items[q + 1] == y;
    }
    if items[0] == x && y in rest {
      var q :| 0 <= q < |rest| && rest[q] == y;
      assert items[q + 1] == y;
    }
    if InOrder(items, x, y) {
      var p, q :| 0 <= p < q < |items| && items[p] == x && items[q] == y;
      assert rest[q - 1] == y;
      if p > 0 { assert rest[p - 1] == x; }
    }
  }

  lemma {:induction false} FilterKeepsOrder(items: seq<TransactionItem>, f: TransactionItem -> bool,
                                            x: TransactionItem, y: TransactionItem)
    ensures InOrder(Filter(items, f), x, y) <==> f(x) && f(y) && InOrder(items, x, y)
  {
    hide InOrder;
    if items == [] {
      NothingInOrder(x, y);
    } else {
      var kept := Filter(items, f);
      FilterKeepsOrder(items[1..], f, x, y);
      OrderOfTail(items, x, y);
      FilterMember(items[1..], f, y);
      if f(items[0]) {
        assert kept[1..] == Filter(items[1..], f);
        OrderOfTail(kept, x, y);
      } else {
        assert kept == Filter(items[1..], f);
      }
    }
  }

  lemma {:induction false} NothingInOrder(x: TransactionItem, y: TransactionItem)
    ensures !InOrder([], x, y)
  {}

  /** The stable sort does not change the order of items of equal time. */
  lemma {:induction false} SortKeepsOrder(items: seq<TransactionItem>, x: TransactionItem, y: TransactionItem)
    requires x.occurredAt == y.occurredAt
    ensures InOrder(StableSort(items), x, y) <==> InOrder(items, x, y)
  {
    hide InOrder, StableSort;
    var f := (i: TransactionItem) => i.occurredAt == x.occurredAt;
    SortIsStable(items);
    assert At(StableSort(items), x.occurredAt) == At(items, x.occurredAt);
    SameFilter(items, f, x.occurredAt);
    SameFilter(StableSort(items), f, x.occurredAt);
    FilterKeepsOrder(items, f, x, y);
    FilterKeepsOrder(StableSort(items), f, x, y);
  }

  lemma {:induction false} SameFilter(items: seq<TransactionItem>, f: TransactionItem -> bool, time: int)
    requires forall i :: f(i) == (i.occurredAt == time)
    ensures Filter(items, f) == At(items, time)
  {
    FilterTwice(items, f, f, (i: TransactionItem) => i.occurredAt == time);
    FilterTwice(items, f, f, f);
  }

  // ---------------------------------------------------------------- entries

  /** The entry d comes from a later position than c, or both from the same and d is the sent direction. */
  ghost predicate Follows(items: seq<TransactionItem>, c: Entry, d: Entry) {
    || InOrder(items, c.item, d.item)
    || (c.item in items && c.item == d.item && c.type_ == FUNDS_RECEIVED && d.type_ == FUNDS_SENT)
  }

  lemma {:induction false} OneMoreFollows(items: seq<TransactionItem>, x: TransactionItem, c: Entry, d: Entry)
    ensures Follows(items, c, d) ==> Follows(items + [x], c, d)
    ensures c.item in items && d.item == x ==> Follows(items + [x], c, d)
    ensures c.item == d.item == x && c.type_ == FUNDS_RECEIVED && d.type_ == FUNDS_SENT ==> Follows(items + [x], c, d)
  {
    var more := items + [x];
    if InOrder(items, c.item, d.item) {
      var p, q :| 0 <= p < q < |items| && items[p] == c.item && items[q] == d.item;
      assert more[p] == c.item && more[q] == d.item;
    }
    if c.item in items && d.item == x {
      var p :| 0 <= p < |items| && items[p] == c.item;
      assert more[p] == c.item && more[|items|] == x;
    }
  }

  ghost predicate AllFollow(items: seq<TransactionItem>, entries: seq<Entry>) {
    && (forall c :: 0 <= c < |entries| ==> entries[c].item in items)
    && forall c, d :: 0 <= c < d < |entries| ==> Follows(items, entries[c], entries[d])
  }

  /** Mapping keeps the order of the items. */
  lemma {:induction false} MapKeepsOrder(auth0Id: string, items: seq<TransactionItem>, cache: Cache,
                                         recipients: seq<DirectRecipient>, type_: Option<TypeFilter>)
    ensures AllFollow(items, MapItems(auth0Id, items, cache, recipients, type_))
  {
    if items != [] {
      hide AllFollow, MapItem;
      var before, x := items[..|items| - 1], Last(items);
      MapKeepsOrder(auth0Id, before, cache, recipients, type_);
      assert items == before + [x];
      OneItem(auth0Id, x, cache, recipients, type_);
      OneMoreItem(before, x, MapItems(auth0Id, before, cache, recipients, type_),
                  MapItem(auth0Id, x, cache, recipients, type_));
    } else {
      assert AllFollow(items, []);
    }
  }

  lemma {:induction false} OneMoreItem(items: seq<TransactionItem>, x: TransactionItem, entries: seq<Entry>,
                                       added: seq<Entry>)
    requires AllFollow(items, entries)
    requires |added| <= 2 && forall c :: 0 <= c < |added| ==> added[c].item == x
    requires |added| == 2 ==> added[0].type_ == FUNDS_RECEIVED && added[1].type_ == FUNDS_SENT
    ensures AllFollow(items + [x], entries + added)
  {
    hide Follows;
    var all := entries + added;
    forall c, d | 0 <= c < d < |all| ensures Follows(items + [x], all[c], all[d]) {
      OneMoreFollows(items, x, all[c], all[d]);
    }
  }

  lemma {:induction false} OneItem(auth0Id: string, x: TransactionItem, cache: Cache, recipients: seq<DirectRecipient>,
                                   type_: Option<TypeFilter>)
    ensures var entries := MapItem(auth0Id, x, cache, recipients, type_);
      && |entries| <= 2 && (forall c :: 0 <= c < |entries| ==> entries[c].item == x)
      && (|entries| == 2 ==> entries[0].type_ == FUNDS_RECEIVED && entries[1].type_ == FUNDS_SENT)
  {}

  // ---------------------------------------------------------------- the answer

  /** Newest first; of two entries of equal time the second follows in the table, or is the sent direction of
      the same item. */
  ghost predicate Sorted(answer: seq<Entry>, table: seq<TransactionItem>) {
    forall c, d :: 0 <= c < d < |answer| ==> SortedPair(answer[c], answer[d], table)
  }

  ghost predicate SortedPair(c: Entry, d: Entry, table: seq<TransactionItem>) {
    && c.item.occurredAt >= d.item.occurredAt
    && (c.item.occurredAt == d.item.occurredAt ==> Follows(table, c, d))
  }

  lemma {:induction false} AnswerIsSorted(auth0Id: string, q: Query, table: seq<TransactionItem>, users: Cache,
                                          recipients: seq<DirectRecipient>)
    ensures Sorted(Answer(auth0Id, q, table, users, recipients), table)
  {
    hide SortedPair, Follows, MapItems;
    var items := Found(auth0Id, q, table);
    var cache, fetched := CacheOf(UserIds(items), users), RecipientsFor(Destinations(items, auth0Id), recipients);
    var answer := MapItems(auth0Id, items, cache, fetched, q.type_);
    MapKeepsOrder(auth0Id, items, cache, fetched, q.type_);
    forall c, d | 0 <= c < d < |answer| ensures SortedPair(answer[c], answer[d], table) {
      FollowingIsSorted(auth0Id, q, table, answer[c], answer[d]);
    }
  }

  lemma {:induction false} FollowingIsSorted(auth0Id: string, q: Query, table: seq<TransactionItem>, c: Entry, d: Entry)
    requires Follows(Found(auth0Id, q, table), c, d)
    ensures SortedPair(c, d, table)
  {
    hide StableSort, InOrder;
    var p := (i: TransactionItem) => Holds(BuildFilter(auth0Id, q), i);
    SortIsDescending(Filter(table, p));
    FoundMeans(auth0Id, q, table, c.item);
    if InOrder(Found(auth0Id, q, table), c.item, d.item) {
      OrderIsDescending(Found(auth0Id, q, table), c.item, d.item);
      if c.item.occurredAt == d.item.occurredAt {
        SortKeepsOrder(Filter(table, p), c.item, d.item);
        FilterKeepsOrder(table, p, c.item, d.item);
      }
    }
  }

  lemma {:induction false} OrderIsDescending(items: seq<TransactionItem>, x: TransactionItem, y: TransactionItem)
    requires Descending(items) && InOrder(items, x, y)
    ensures x.occurredAt >= y.occurredAt
  {}
}
