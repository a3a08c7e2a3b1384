/** The answer to a query for transaction items (getTransactionItems and mapTransactionItems): each
    found item with its counterparties, once per direction in which it is the user's. */
module TransactionListing {
  import opened Prelude
  import opened TransactionQuery

  datatype User = User(auth0Id: string, email: Option<string>, name: Option<string>)

  datatype DirectRecipient = DirectRecipient(id: string, vaultName: string, destinationAddress: string)

  datatype UserLike =
    | Person(auth0Id: string, email: Option<string>, name: Option<string>)
    | Recipient(vaultName: string, destinationAddress: string)

  datatype Entry = Entry(item: TransactionItem, senderUser: Option<UserLike>, receiverUser: Option<UserLike>,
                         type_: TypeFilter)

  type Cache = map<string, User>

  // ---------------------------------------------------------------- mapUserLikeEntity

  function PersonOf(cache: Cache, id: string): Option<UserLike> {
    if id in cache && (Truthy(cache[id].email) || Truthy(cache[id].name))
    then Some(Person(cache[id].auth0Id, cache[id].email, cache[id].name)) else None
  }

  function RecipientOf(r: DirectRecipient): Option<UserLike> {
    if r.destinationAddress != "" then Some(Recipient(r.vaultName, r.destinationAddress)) else None
  }

  /** String.prototype.toLowerCase, on ASCII. */
  function ToLowerCase(s: string): string {
    seq(|s|, i requires 0 <= i < |s| => if 'A' <= s[i] <= 'Z' then s[i] - 'A' + 'a' else s[i])
  }

  /** The first recipient with this address, upper and lower case alike. */
  function FindRecipient(recipients: seq<DirectRecipient>, address: string): (i: nat)
    ensures i <= |recipients|
    ensures i < |recipients| ==> ToLowerCase(recipients[i].destinationAddress) == ToLowerCase(address)
    ensures forall j :: 0 <= j < i ==> ToLowerCase(recipients[j].destinationAddress) != ToLowerCase(address)
  {
    FindIndex(recipients, (r: DirectRecipient) => ToLowerCase(r.destinationAddress) == ToLowerCase(address))
  }

  function SenderUser(item: TransactionItem, cache: Cache): Option<UserLike> {
    if Truthy(item.senderAuth0Id) then PersonOf(cache, item.senderAuth0Id.value) else None
  }

  function ReceiverUser(item: TransactionItem, cache: Cache, recipients: seq<DirectRecipient>): Option<UserLike> {
    if Truthy(item.receiverAuth0Id) then PersonOf(cache, item.receiverAuth0Id.value)
    else if item.toAddress.None? then None
    else
      var i := FindRecipient(recipients, item.toAddress.value);
      if i < |recipients| then RecipientOf(recipients[i]) else None
  }

  function EntryOf(item: TransactionItem, cache: Cache, recipients: seq<DirectRecipient>, type_: TypeFilter): Entry {
    Entry(item, SenderUser(item, cache), ReceiverUser(item, cache, recipients), type_)
  }

  /** Without a type filter an item of both directions is listed twice, received first. */
  function MapItem(auth0Id: string, item: TransactionItem, cache: Cache, recipients: seq<DirectRecipient>,
                   type_: Option<TypeFilter>): seq<Entry>
  {
    (if type_ != Some(FUNDS_SENT) && IsReceiver(item, auth0Id)
     then [EntryOf(item, cache, recipients, FUNDS_RECEIVED)] else []) +
    (if type_ != Some(FUNDS_RECEIVED) && IsSender(item, auth0Id)
     then [EntryOf(item, cache, recipients, FUNDS_SENT)] else [])
  }

  function MapItems(auth0Id: string, items: seq<TransactionItem>, cache: Cache, recipients: seq<DirectRecipient>,
                    type_: Option<TypeFilter>): seq<Entry>
  {
    if items == [] then []
    else
      MapItems(auth0Id, items[..|items| - 1], cache, recipients, type_) +
      MapItem(auth0Id, Last(items), cache, recipients, type_)
  }

  // ---------------------------------------------------------------- what is looked up

  /** Set.prototype.add keeps the order of insertion. */
  function AddUnique(xs: seq<string>, x: string): seq<string> {
    if x in xs then xs else xs + [x]
  }

  function AddTruthy(xs: seq<string>, x: Option<string>): seq<string> {
    if Truthy(x) then AddUnique(xs, x.value) else xs
  }

  function UserIds(items: seq<TransactionItem>): seq<string> {
    if items == [] then []
    else AddTruthy(AddTruthy(UserIds(items[..|items| - 1]), Last(items).senderAuth0Id), Last(items).receiverAuth0Id)
  }

  function Destination(item: TransactionItem, auth0Id: string): Option<string> {
    if IsSender(item, auth0Id) && !Truthy(item.receiverAuth0Id) then item.toAddress else None
  }

  function Destinations(items: seq<TransactionItem>, auth0Id: string): seq<string> {
    if items == [] then []
    else AddTruthy(Destinations(items[..|items| - 1], auth0Id), Destination(Last(items), auth0Id))
  }

  function CacheOf(ids: seq<string>, users: Cache): Cache {
    map id | id in ids && id in users :: users[id]
  }

  function AtAddress(recipients: seq<DirectRecipient>, address: string): seq<DirectRecipient> {
    Filter(recipients, (r: DirectRecipient) => r.destinationAddress == address)
  }

  /** getByDestinationAddressList: one index query per address. */
  function RecipientsFor(addresses: seq<string>, recipients: seq<DirectRecipient>): seq<DirectRecipient> {
    if addresses == [] then []
    else RecipientsFor(addresses[..|addresses| - 1], recipients) + AtAddress(recipients, Last(addresses))
  }

  function Found(auth0Id: string, q: Query, table: seq<TransactionItem>): seq<TransactionItem> {
    StableSort(Filter(table, (i: TransactionItem) => Holds(BuildFilter(auth0Id, q), i)))
  }

  function Answer(auth0Id: string, q: Query, table: seq<TransactionItem>, users: Cache,
                  recipients: seq<DirectRecipient>): seq<Entry> {
    var items := Found(auth0Id, q, table);
    MapItems(auth0Id, items, CacheOf(UserIds(items), users), RecipientsFor(Destinations(items, auth0Id), recipients),
             q.type_)
  }

  // ---------------------------------------------------------------- pushing the direction down

  /** The items of the directed query are those of the undirected one, filtered, in the same order. */
  lemma {:induction false} FoundIsFiltered(auth0Id: string, q: Query, t: TypeFilter, table: seq<TransactionItem>,
                                           p: TransactionItem -> bool)
    requires q.type_ == Some(t) && forall i :: p(i) == Directed(i, auth0Id, Some(t))
    ensures Found(auth0Id, q, table) == Filter(Found(auth0Id, q.(type_ := None), table), p)
  {
    var q0 := q.(type_ := None);
    var any, typed := (i: TransactionItem) => Holds(BuildFilter(auth0Id, q0), i),
                      (i: TransactionItem) => Holds(BuildFilter(auth0Id, q), i);
    forall i | i in table ensures typed(i) == (any(i) && p(i)) {
      FilterMeansQuery(auth0Id, q, i);
      FilterMeansQuery(auth0Id, q0, i);
    }
    FilterTwice(table, any, p, typed);
    FilterCommutesWithSort(Filter(table, any), p);
  }

  /** Only sent items contribute an address, so both queries look up the same ones. */
  lemma {:induction false} SameDestinations(items: seq<TransactionItem>, auth0Id: string, p: TransactionItem -> bool)
    requires forall i :: p(i) == IsSender(i, auth0Id)
    ensures Destinations(Filter(items, p), auth0Id) == Destinations(items, auth0Id)
  {
    if items != [] {
      SameDestinations(items[..|items| - 1], auth0Id, p);
      FilterSnoc(items, p);
      var before := Filter(items[..|items| - 1], p);
      if p(Last(items)) {
        assert (before + [Last(items)])[..|before|] == before;
      }
    }
  }

  lemma {:induction false} IdsAreCollected(items: seq<TransactionItem>, item: TransactionItem)
    requires item in items
    ensures Truthy(item.senderAuth0Id) ==> item.senderAuth0Id.value in UserIds(items)
    ensures Truthy(item.receiverAuth0Id) ==> item.receiverAuth0Id.value in UserIds(items)
  {
    if item != Last(items) {
      assert item in items[..|items| - 1];
      IdsAreCollected(items[..|items| - 1], item);
    }
  }

  /** Caching does not show: for a found item the users are those of the user table. */
  lemma {:induction false} CacheIsTransparent(items: seq<TransactionItem>, item: TransactionItem, users: Cache,
                                              recipients: seq<DirectRecipient>)
    requires item in items
    ensures SenderUser(item, CacheOf(UserIds(items), users)) == SenderUser(item, users)
    ensures ReceiverUser(item, CacheOf(UserIds(items), users), recipients) == ReceiverUser(item, users, recipients)
  {
    IdsAreCollected(items, item);
  }

  ghost predicate SameUsers(items: seq<TransactionItem>, auth0Id: string, t: TypeFilter, cache: Cache,
                            recipients: seq<DirectRecipient>,
                            cache': Cache, recipients': seq<DirectRecipient>) {
    forall i :: i in items && Directed(i, auth0Id, Some(t)) ==>
      EntryOf(i, cache, recipients, t) == EntryOf(i, cache', recipients', t)
  }

  /** Mapping the filtered items by type is mapping all items and keeping the entries of that type. */
  lemma {:induction false} MapFiltered(auth0Id: string, items: seq<TransactionItem>, t: TypeFilter, cache: Cache,
                                       recipients: seq<DirectRecipient>,
                                       cache': Cache, recipients': seq<DirectRecipient>,
                                       p: TransactionItem -> bool, ofType: Entry -> bool)
    requires SameUsers(items, auth0Id, t, cache, recipients, cache', recipients')
    requires (forall i :: p(i) == Directed(i, auth0Id, Some(t))) && forall e :: ofType(e) == (e.type_ == t)
    ensures MapItems(auth0Id, Filter(items, p), cache, recipients, Some(t)) ==
      Filter(MapItems(auth0Id, items, cache', recipients', None), ofType)
  {
    hide MapItem, EntryOf, Directed;
    if items != [] {
      var before, item := items[..|items| - 1], Last(items);
      assert item in items && forall i :: i in before ==> i in items;
      MapFiltered(auth0Id, before, t, cache, recipients, cache', recipients', p, ofType);
      FilterSnoc(items, p);
      FilterConcat(MapItems(auth0Id, before, cache', recipients', None),
                   MapItem(auth0Id, item, cache', recipients', None), ofType);
      MapItemFiltered(auth0Id, item, t, cache', recipients', ofType);
      var kept := Filter(before, p);
      if p(item) {
        assert (kept + [item])[..|kept|] == kept;
        MapItemTyped(auth0Id, item, t, cache, recipients);
      }
    }
  }

  lemma {:induction false} MapItemTyped(auth0Id: string, item: TransactionItem, t: TypeFilter, cache: Cache,
                                        recipients: seq<DirectRecipient>)
    ensures MapItem(auth0Id, item, cache, recipients, Some(t)) ==
      if Directed(item, auth0Id, Some(t)) then [EntryOf(item, cache, recipients, t)] else []
  {
    match t case FUNDS_RECEIVED => case FUNDS_SENT =>
  }

  lemma {:induction false} MapItemFiltered(auth0Id: string, item: TransactionItem, t: TypeFilter, cache: Cache,
                                           recipients: seq<DirectRecipient>,
                                           ofType: Entry -> bool)
    requires forall e :: ofType(e) == (e.type_ == t)
    ensures Filter(MapItem(auth0Id, item, cache, recipients, None), ofType) ==
      if Directed(item, auth0Id, Some(t)) then [EntryOf(item, cache, recipients, t)] else []
  {
    var received := if IsReceiver(item, auth0Id) then [EntryOf(item, cache, recipients, FUNDS_RECEIVED)] else [];
    var sent := if IsSender(item, auth0Id) then [EntryOf(item, cache, recipients, FUNDS_SENT)] else [];
    FilterConcat(received, sent, ofType);
    assert MapItem(auth0Id, item, cache, recipients, None) == received + sent;
    match t case FUNDS_RECEIVED => case FUNDS_SENT =>
  }

  /** Both queries resolve the items of the wanted direction alike. */
  lemma {:induction false} SameCounterparties(auth0Id: string, t: TypeFilter, all: seq<TransactionItem>,
                                              p: TransactionItem -> bool,
                                              users: Cache, recipients: seq<DirectRecipient>)
    requires auth0Id != "" && forall i :: p(i) == Directed(i, auth0Id, Some(t))
    ensures var some := Filter(all, p);
      SameUsers(all, auth0Id, t,
                CacheOf(UserIds(some), users), RecipientsFor(Destinations(some, auth0Id), recipients),
                CacheOf(UserIds(all), users), RecipientsFor(Destinations(all, auth0Id), recipients))
  {
    var some := Filter(all, p);
    var rs, rs' := RecipientsFor(Destinations(some, auth0Id), recipients),
                   RecipientsFor(Destinations(all, auth0Id), recipients);
    if t == FUNDS_SENT { SameDestinations(all, auth0Id, p); }
    forall i | i in all && Directed(i, auth0Id, Some(t))
      ensures EntryOf(i, CacheOf(UserIds(some), users), rs, t) == EntryOf(i, CacheOf(UserIds(all), users), rs', t)
    {
      FilterMember(all, p, i);
      CacheIsTransparent(some, i, users, rs);
      CacheIsTransparent(all, i, users, rs');
    }
  }

  /** A query with a direction answers exactly the entries of that direction of the same query without
      one: the same items in the same order, with the same counterparties. The empty string is falsy and
      never the id of an authenticated user. */
  lemma {:induction false} DirectionPushdown(auth0Id: string, q: Query, t: TypeFilter, table: seq<TransactionItem>,
                                             users: Cache, recipients: seq<DirectRecipient>)
    requires auth0Id != "" && q.type_ == Some(t)
    ensures Answer(auth0Id, q, table, users, recipients) ==
      Filter(Answer(auth0Id, q.(type_ := None), table, users, recipients), (e: Entry) => e.type_ == t)
  {
    hide Found, Directed, SameUsers, CacheOf, RecipientsFor;
    var p := (i: TransactionItem) => Directed(i, auth0Id, Some(t));
    var all := Found(auth0Id, q.(type_ := None), table);
    FoundIsFiltered(auth0Id, q, t, table, p);
    SameCounterparties(auth0Id, t, all, p, users, recipients);
    var some := Filter(all, p);
    MapFiltered(auth0Id, all, t,
                CacheOf(UserIds(some), users), RecipientsFor(Destinations(some, auth0Id), recipients),
                CacheOf(UserIds(all), users), RecipientsFor(Destinations(all, auth0Id), recipients),
                p, (e: Entry) => e.type_ == t);
  }

  // ---------------------------------------------------------------- what is listed

  /** Some listed item makes the listing look recipients up at this very address. */
  ghost predicate LooksUp(listed: seq<TransactionItem>, auth0Id: string, address: string) {
    exists i :: i in listed && LooksUpAddress(i, auth0Id, address)
  }

  /** The item was sent by the user, to this address and to no user. */
  predicate LooksUpAddress(i: TransactionItem, auth0Id: string, address: string) {
    && i.senderAuth0Id == Some(auth0Id) && (i.receiverAuth0Id.None? || i.receiverAuth0Id.value == "")
    && i.toAddress == Some(address) && address != ""
  }

  /** A recipient that is looked up and matches the address up to upper and lower case. */
  ghost predicate Reaches(r: DirectRecipient, address: string, listed: seq<TransactionItem>, auth0Id: string) {
    LooksUp(listed, auth0Id, r.destinationAddress) && ToLowerCase(r.destinationAddress) == ToLowerCase(address)
  }

  ghost predicate Reachable(address: Option<string>, listed: seq<TransactionItem>, auth0Id: string,
                            recipients: seq<DirectRecipient>) {
    address.Some? && exists r :: r in recipients && Reaches(r, address.value, listed, auth0Id)
  }

  /** Sender, and receiver with a user id, are as the user table knows them. A receiver without one is a
      recipient exactly if one is reachable, and then a reachable one. */
  ghost predicate RightCounterparties(e: Entry, listed: seq<TransactionItem>, auth0Id: string, users: Cache,
                                      recipients: seq<DirectRecipient>) {
    && e.senderUser == (if Truthy(e.item.senderAuth0Id) then PersonOf(users, e.item.senderAuth0Id.value) else None)
    && (if Truthy(e.item.receiverAuth0Id) then e.receiverUser == PersonOf(users, e.item.receiverAuth0Id.value)
        else
          && (e.receiverUser.Some? <==> Reachable(e.item.toAddress, listed, auth0Id, recipients))
          && (e.receiverUser.Some? ==> IsReached(e.receiverUser.value, e.item.toAddress, listed, auth0Id, recipients)))
  }

  predicate Shows(user: UserLike, r: DirectRecipient) {
    user == Recipient(r.vaultName, r.destinationAddress)
  }

  ghost predicate IsReached(user: UserLike, address: Option<string>, listed: seq<TransactionItem>, auth0Id: string,
                            recipients: seq<DirectRecipient>) {
    address.Some? && exists r :: r in recipients && Reaches(r, address.value, listed, auth0Id) && Shows(user, r)
  }

  /** A counterparty with a user id is shown exactly if the user table has it with an email or a name, and then with
      its own id, email and name. */
  lemma {:induction false} ShownPersonIs(users: Cache, id: string)
    ensures PersonOf(users, id).Some? <==>
      && id in users
      && var u := users[id];
         (u.email.Some? && u.email.value != "") || (u.name.Some? && u.name.value != "")
    ensures PersonOf(users, id).Some? ==>
      var u := users[id]; PersonOf(users, id).value == Person(u.auth0Id, u.email, u.name)
  {}

  /** Ids and addresses are collected once each, and in the order in which they first occur: more items only add
      new ones at the end. */
  lemma {:induction false} CollectedOnceInOrder(items: seq<TransactionItem>, auth0Id: string, k: nat)
    requires k <= |items|
    ensures Distinct(UserIds(items)) && Distinct(Destinations(items, auth0Id))
    ensures UserIds(items[..k]) <= UserIds(items) && Destinations(items[..k], auth0Id) <= Destinations(items, auth0Id)
  {
    if items == [] {
      assert items[..k] == items;
    } else {
      var before, last := items[..|items| - 1], Last(items);
      hide Destination;
      CollectedOnceInOrder(before, auth0Id, if k == |items| then k - 1 else k);
      AddedOnce(UserIds(before), last.senderAuth0Id);
      AddedOnce(AddTruthy(UserIds(before), last.senderAuth0Id), last.receiverAuth0Id);
      AddedOnce(Destinations(before, auth0Id), Destination(last, auth0Id));
      if k == |items| { assert items[..k] == items; } else { assert before[..k] == items[..k]; }
    }
  }

  lemma {:induction false} AddedOnce(xs: seq<string>, x: Option<string>)
    requires Distinct(xs)
    ensures Distinct(AddTruthy(xs, x)) && xs <= AddTruthy(xs, x)
  {}

  lemma {:induction false} SortKeepsItems(items: seq<TransactionItem>, item: TransactionItem)
    ensures item in StableSort(items) <==> item in items
  {
    if items != [] {
      SortKeepsItems(items[1..], item);
      SortIsDescending(items[1..]);
      InsertDescending(items[0], StableSort(items[1..]));
    }
  }

  lemma {:induction false} FoundMeans(auth0Id: string, q: Query, table: seq<TransactionItem>, item: TransactionItem)
    ensures item in Found(auth0Id, q, table) <==> item in table && Matches(auth0Id, q, item)
  {
    var p := (i: TransactionItem) => Holds(BuildFilter(auth0Id, q), i);
    SortKeepsItems(Filter(table, p), item);
    FilterMember(table, p, item);
    FilterMeansQuery(auth0Id, q, item);
  }

  /** The mapped entries are exactly those of the items, in each direction that is wanted and applies. */
  lemma {:induction false} MapMember(auth0Id: string, items: seq<TransactionItem>, cache: Cache,
                                     recipients: seq<DirectRecipient>,
                                     type_: Option<TypeFilter>, e: Entry)
    ensures e in MapItems(auth0Id, items, cache, recipients, type_) <==>
      && e.item in items && e == EntryOf(e.item, cache, recipients, e.type_)
      && Directed(e.item, auth0Id, Some(e.type_)) && (type_.None? || type_ == Some(e.type_))
  {
    if items != [] {
      var before, item := items[..|items| - 1], Last(items);
      hide MapItem, EntryOf, Directed;
      MapMember(auth0Id, before, cache, recipients, type_, e);
      assert forall i :: i in items <==> i in before || i == item;
      ItemMember(auth0Id, item, cache, recipients, type_, e);
    }
  }

  lemma {:induction false} ItemMember(auth0Id: string, item: TransactionItem, cache: Cache,
                                      recipients: seq<DirectRecipient>,
                                      type_: Option<TypeFilter>, e: Entry)
    ensures e in MapItem(auth0Id, item, cache, recipients, type_) <==>
      && e.item == item && e == EntryOf(item, cache, recipients, e.type_)
      && Directed(item, auth0Id, Some(e.type_)) && (type_.None? || type_ == Some(e.type_))
  {
    var received, sent := EntryOf(item, cache, recipients, FUNDS_RECEIVED),
                          EntryOf(item, cache, recipients, FUNDS_SENT);
    var listsReceived := type_ != Some(FUNDS_SENT) && IsReceiver(item, auth0Id);
    var listsSent := type_ != Some(FUNDS_RECEIVED) && IsSender(item, auth0Id);
    assert e in MapItem(auth0Id, item, cache, recipients, type_) <==>
      (listsReceived && e == received) || (listsSent && e == sent);
    match e.type_ {
      case FUNDS_RECEIVED => assert e != sent;
      case FUNDS_SENT => assert e != received;
    }
    assert type_.None? || type_.value == FUNDS_RECEIVED || type_.value == FUNDS_SENT;
  }

  lemma {:induction false} DestinationMember(items: seq<TransactionItem>, auth0Id: string, address: string)
    ensures address in Destinations(items, auth0Id) <==> LooksUp(items, auth0Id, address)
  {
    if items != [] {
      var before, last := items[..|items| - 1], Last(items);
      DestinationMember(before, auth0Id, address);
      assert forall i :: i in items <==> i in before || i == last;
      assert LooksUpAddress(last, auth0Id, address) <==> Destination(last, auth0Id) == Some(address) && address != "";
      if LooksUp(items, auth0Id, address) {
        var i :| i in items && LooksUpAddress(i, auth0Id, address);
        assert i in before || i == last;
      }
    }
  }

  lemma {:induction false} RecipientMember(addresses: seq<string>, recipients: seq<DirectRecipient>, r: DirectRecipient)
    ensures r in RecipientsFor(addresses, recipients) <==> r in recipients && r.destinationAddress in addresses
  {
    if addresses != [] {
      var before := addresses[..|addresses| - 1];
      RecipientMember(before, recipients, r);
      FilterMember(recipients, (x: DirectRecipient) => x.destinationAddress == Last(addresses), r);
      assert r.destinationAddress in addresses <==>
        r.destinationAddress in before || r.destinationAddress == Last(addresses);
    }
  }

  /** The exact condition for a receiver without user id to be resolved. */
  lemma {:induction false} ResolvedMeansReachable(items: seq<TransactionItem>, auth0Id: string, item: TransactionItem,
                                                  cache: Cache, recipients: seq<DirectRecipient>)
    requires !Truthy(item.receiverAuth0Id)
    ensures var user := ReceiverUser(item, cache, RecipientsFor(Destinations(items, auth0Id), recipients));
      && (user.Some? <==> Reachable(item.toAddress, items, auth0Id, recipients))
      && (user.Some? ==> IsReached(user.value, item.toAddress, items, auth0Id, recipients))
  {
    var addresses := Destinations(items, auth0Id);
    var fetched := RecipientsFor(addresses, recipients);
    if item.toAddress.Some? {
      forall r ensures r in fetched <==> r in recipients && LooksUp(items, auth0Id, r.destinationAddress) {
        RecipientMember(addresses, recipients, r);
        DestinationMember(items, auth0Id, r.destinationAddress);
      }
      var i := FindRecipient(fetched, item.toAddress.value);
      if i < |fetched| {
        assert fetched[i] in fetched && Reaches(fetched[i], item.toAddress.value, items, auth0Id);
      } else {
        forall r | r in recipients ensures !Reaches(r, item.toAddress.value, items, auth0Id) {
          assert r in fetched ==> ToLowerCase(r.destinationAddress) != ToLowerCase(item.toAddress.value);
        }
      }
    }
  }

  /** So a sent item is resolved whenever a recipient is stored under its very address. */
  lemma {:induction false} OwnAddressIsReachable(items: seq<TransactionItem>, auth0Id: string, item: TransactionItem,
                                                 recipients: seq<DirectRecipient>, r: DirectRecipient)
    requires item in items && IsSender(item, auth0Id) && !Truthy(item.receiverAuth0Id) && Truthy(item.toAddress)
    requires r in recipients && r.destinationAddress == item.toAddress.value
    ensures Reachable(item.toAddress, items, auth0Id, recipients)
  {
    assert Destination(item, auth0Id) == Some(r.destinationAddress);
    assert Reaches(r, item.toAddress.value, items, auth0Id);
  }

  /** But it also depends on what else is listed: alone an item to "A" does not reach the recipient at
      "a", and listed beside an item to "a" it does. */
  lemma {:induction false} ReachDependsOnTheListing(auth0Id: string, x: TransactionItem, y: TransactionItem,
                                                    r: DirectRecipient)
    requires IsSender(x, auth0Id) && IsSender(y, auth0Id) && x.receiverAuth0Id.None? && y.receiverAuth0Id.None?
    requires x.toAddress == Some("A") && y.toAddress == Some("a") && r.destinationAddress == "a"
    ensures !Reachable(x.toAddress, [x], auth0Id, [r]) && Reachable(x.toAddress, [x, y], auth0Id, [r])
  {
    assert "A"[0] != "a"[0];
    assert !LooksUp([x], auth0Id, "a");
    assert y in [x, y] && Destination(y, auth0Id) == Some("a");
    assert ToLowerCase("a") == ToLowerCase("A") == "a";
    assert r in [r] && Reaches(r, "A", [x, y], auth0Id);
  }

  lemma {:induction false} EntryIsRight(items: seq<TransactionItem>, auth0Id: string, item: TransactionItem,
                                        t: TypeFilter,
                                        users: Cache, recipients: seq<DirectRecipient>)
    requires item in items
    ensures RightCounterparties(
      EntryOf(item, CacheOf(UserIds(items), users), RecipientsFor(Destinations(items, auth0Id), recipients), t),
      items, auth0Id, users, recipients)
  {
    hide Reachable, IsReached;
    var fetched := RecipientsFor(Destinations(items, auth0Id), recipients);
    CacheIsTransparent(items, item, users, fetched);
    if !Truthy(item.receiverAuth0Id) { ResolvedMeansReachable(items, auth0Id, item, users, recipients); }
  }

  ghost predicate Lists(answer: seq<Entry>, item: TransactionItem, t: TypeFilter) {
    exists e :: e in answer && e.item == item && e.type_ == t
  }

  /** The answer lists exactly the matching items of the table, in each direction that is wanted and
      applies, and with the right counterparties. */
  lemma {:induction false} AnswerListsExactly(auth0Id: string, q: Query, table: seq<TransactionItem>, users: Cache,
                                              recipients: seq<DirectRecipient>, item: TransactionItem, t: TypeFilter)
    ensures var answer := Answer(auth0Id, q, table, users, recipients);
      && (Lists(answer, item, t) <==>
            && item in table && Matches(auth0Id, q, item)
            && Directed(item, auth0Id, Some(t)) && (q.type_.None? || q.type_ == Some(t)))
      && (forall e :: e in answer ==> RightCounterparties(e, Found(auth0Id, q, table), auth0Id, users, recipients))
  {
    hide Found, MapItems, EntryOf, RightCounterparties, Matches, Directed;
    var items := Found(auth0Id, q, table);
    var cache, fetched := CacheOf(UserIds(items), users), RecipientsFor(Destinations(items, auth0Id), recipients);
    FoundMeans(auth0Id, q, table, item);
    forall e ensures e in Answer(auth0Id, q, table, users, recipients) <==>
      && e.item in items && e == EntryOf(e.item, cache, fetched, e.type_)
      && Directed(e.item, auth0Id, Some(e.type_)) && (q.type_.None? || q.type_ == Some(e.type_))
    {
      MapMember(auth0Id, items, cache, fetched, q.type_, e);
    }
    forall e | e in Answer(auth0Id, q, table, users, recipients)
      ensures RightCounterparties(e, items, auth0Id, users, recipients)
    {
      EntryIsRight(items, auth0Id, e.item, e.type_, users, recipients);
    }
    var entry := EntryOf(item, cache, fetched, t);
    EntryHasItem(item, cache, fetched, t);
    assert entry.item == item && entry.type_ == t;
  }

  lemma {:induction false} EntryHasItem(item: TransactionItem, cache: Cache, recipients: seq<DirectRecipient>,
                                        t: TypeFilter)
    ensures EntryOf(item, cache, recipients, t).item == item && EntryOf(item, cache, recipients, t).type_ == t
  {}

  // ---------------------------------------------------------------- pushing the other criteria down

  /** Of the addresses looked up that are the given one up to upper and lower case, the first under which
      a recipient is stored. */
  function SpellingFound(addresses: seq<string>, recipients: seq<DirectRecipient>, address: string): Option<string> {
    var p := (b: string) => ToLowerCase(b) == ToLowerCase(address) && AtAddress(recipients, b) != [];
    var i := FindIndex(addresses, p);
    if i < |addresses| then Some(addresses[i]) else None
  }

  lemma {:induction false} OneMoreAddress(addresses: seq<string>, recipients: seq<DirectRecipient>, address: string)
    requires addresses != []
    ensures var before, b := SpellingFound(addresses[..|addresses| - 1], recipients, address), Last(addresses);
      SpellingFound(addresses, recipients, address) ==
        if before.Some? then before
        else if ToLowerCase(b) == ToLowerCase(address) && AtAddress(recipients, b) != [] then Some(b) else None
  {
    var p := (b: string) => ToLowerCase(b) == ToLowerCase(address) && AtAddress(recipients, b) != [];
    var before := addresses[..|addresses| - 1];
    assert addresses == before + [Last(addresses)];
    FindIndexConcat(before, [Last(addresses)], p);
    SameSearch(addresses, recipients, address, p);
    SameSearch(before, recipients, address, p);
  }

  lemma {:induction false} SameSearch(addresses: seq<string>, recipients: seq<DirectRecipient>, address: string,
                                      p: string -> bool)
    requires forall b :: p(b) == (ToLowerCase(b) == ToLowerCase(address) && AtAddress(recipients, b) != [])
    ensures var i := FindIndex(addresses, p);
      SpellingFound(addresses, recipients, address) == if i < |addresses| then Some(addresses[i]) else None
  {
    hide ToLowerCase, AtAddress, FindIndex;
    var q := (b: string) => ToLowerCase(b) == ToLowerCase(address) && AtAddress(recipients, b) != [];
    var i, j := FindIndex(addresses, p), FindIndex(addresses, q);
    assert i < |addresses| ==> q(addresses[i]);
    assert j < |addresses| ==> p(addresses[j]);
  }

  /** The mapper finds the first recipient stored under that spelling. */
  lemma {:induction false} FoundUnderSpelling(addresses: seq<string>, recipients: seq<DirectRecipient>, address: string)
    ensures var fetched := RecipientsFor(addresses, recipients);
      var spelling := SpellingFound(addresses, recipients, address);
      var i := FindRecipient(fetched, address);
      if spelling.None? then i == |fetched|
      else
        && AtAddress(recipients, spelling.value) != []
        && i < |fetched| && fetched[i] == AtAddress(recipients, spelling.value)[0]
  {
    if addresses != [] {
      hide SpellingFound, AtAddress, FindRecipient;
      var before, b := addresses[..|addresses| - 1], Last(addresses);
      FoundUnderSpelling(before, recipients, address);
      OneMoreAddress(addresses, recipients, address);
      FoundInBlocks(RecipientsFor(before, recipients), recipients, b, address);
    }
  }

  /** Behind what is fetched already come the recipients at one more address: they all match or none does. */
  lemma {:induction false} FoundInBlocks(fetched: seq<DirectRecipient>, recipients: seq<DirectRecipient>, b: string,
                                         address: string)
    ensures var block, i := AtAddress(recipients, b), FindRecipient(fetched, address);
      FindRecipient(fetched + block, address) ==
        if i < |fetched| then i
        else if ToLowerCase(b) == ToLowerCase(address) then |fetched| else |fetched| + |block|
  {
    hide AtAddress, ToLowerCase, FindIndex;
    var matches := (r: DirectRecipient) => ToLowerCase(r.destinationAddress) == ToLowerCase(address);
    var block := AtAddress(recipients, b);
    FindIndexConcat(fetched, block, matches);
    BlockMatches(recipients, b, matches, ToLowerCase(b) == ToLowerCase(address));
    SameFind(fetched, address, matches);
    SameFind(fetched + block, address, matches);
  }

  lemma {:induction false} SameFind(recipients: seq<DirectRecipient>, address: string, matches: DirectRecipient -> bool)
    requires forall r :: matches(r) == (ToLowerCase(r.destinationAddress) == ToLowerCase(address))
    ensures FindRecipient(recipients, address) == FindIndex(recipients, matches)
  {
    var i, j := FindRecipient(recipients, address), FindIndex(recipients, matches);
    assert i < |recipients| ==> matches(recipients[i]);
    assert j < |recipients| ==> matches(recipients[j]);
  }

  lemma {:induction false} BlockMatches(recipients: seq<DirectRecipient>, address: string, p: DirectRecipient -> bool,
                                        all: bool)
    requires forall r: DirectRecipient :: r.destinationAddress == address ==> p(r) == all
    ensures var block := AtAddress(recipients, address); FindIndex(block, p) == if all then 0 else |block|
  {
    var block := AtAddress(recipients, address);
    forall r | r in block ensures p(r) == all {
      FilterMember(recipients, (x: DirectRecipient) => x.destinationAddress == address, r);
    }
    var i := FindIndex(block, p);
    if i < |block| { assert block[i] in block; }
    if block != [] { assert block[0] in block; }
  }

  /** So two look-ups resolve an address alike exactly if they find it under the same spelling. */
  lemma {:induction false} SpellingDecides(item: TransactionItem, cache: Cache, recipients: seq<DirectRecipient>,
                                           addresses: seq<string>, addresses': seq<string>)
    requires !Truthy(item.receiverAuth0Id) && item.toAddress.Some? && "" !in addresses && "" !in addresses'
    ensures var address := item.toAddress.value;
      ReceiverUser(item, cache, RecipientsFor(addresses, recipients)) ==
        ReceiverUser(item, cache, RecipientsFor(addresses', recipients))
      <==> SpellingFound(addresses, recipients, address) == SpellingFound(addresses', recipients, address)
  {
    ShownSpelling(item, cache, recipients, addresses);
    ShownSpelling(item, cache, recipients, addresses');
  }

  lemma {:induction false} ShownSpelling(item: TransactionItem, cache: Cache, recipients: seq<DirectRecipient>,
                                         addresses: seq<string>)
    requires !Truthy(item.receiverAuth0Id) && item.toAddress.Some? && "" !in addresses
    ensures var spelling := SpellingFound(addresses, recipients, item.toAddress.value);
      var user := ReceiverUser(item, cache, RecipientsFor(addresses, recipients));
      if spelling.None? then user.None?
      else
        var stored := AtAddress(recipients, spelling.value);
        stored != [] && user == Some(Recipient(stored[0].vaultName, spelling.value))
  {
    var address := item.toAddress.value;
    FoundUnderSpelling(addresses, recipients, address);
    var spelling := SpellingFound(addresses, recipients, address);
    if spelling.Some? {
      var r := AtAddress(recipients, spelling.value)[0];
      FilterMember(recipients, (x: DirectRecipient) => x.destinationAddress == spelling.value, r);
    }
  }

  lemma {:induction false} DestinationsAreTruthy(items: seq<TransactionItem>, auth0Id: string)
    ensures "" !in Destinations(items, auth0Id)
  {
    DestinationMember(items, auth0Id, "");
  }

  // ------------------------------------------------ where two listings agree

  /** Both listings find the receiver of the item, if it has one to find, under the same spelling. */
  ghost predicate SameSpelling(item: TransactionItem, some: seq<TransactionItem>, all: seq<TransactionItem>,
                               auth0Id: string,
                               recipients: seq<DirectRecipient>) {
    IsSender(item, auth0Id) && !Truthy(item.receiverAuth0Id) && Truthy(item.toAddress) ==>
      SpellingFound(Destinations(some, auth0Id), recipients, item.toAddress.value) ==
      SpellingFound(Destinations(all, auth0Id), recipients, item.toAddress.value)
  }

  ghost predicate SameSpellings(some: seq<TransactionItem>, all: seq<TransactionItem>, auth0Id: string,
                                recipients: seq<DirectRecipient>) {
    forall i :: i in some ==> SameSpelling(i, some, all, auth0Id, recipients)
  }

  /** An item that is in both listings has the same entry in a direction that applies exactly then. */
  lemma {:induction false} SameEntry(some: seq<TransactionItem>, all: seq<TransactionItem>, auth0Id: string,
                                     item: TransactionItem,
                                     t: TypeFilter, users: Cache, recipients: seq<DirectRecipient>)
    requires auth0Id != "" && item in some && item in all && Directed(item, auth0Id, Some(t))
    ensures EntryOf(item, CacheOf(UserIds(some), users), RecipientsFor(Destinations(some, auth0Id), recipients), t) ==
            EntryOf(item, CacheOf(UserIds(all), users), RecipientsFor(Destinations(all, auth0Id), recipients), t) <==>
            SameSpelling(item, some, all, auth0Id, recipients)
  {
    hide SpellingFound, RecipientsFor, Destinations;
    var rs, rs' := RecipientsFor(Destinations(some, auth0Id), recipients),
                   RecipientsFor(Destinations(all, auth0Id), recipients);
    CacheIsTransparent(some, item, users, rs);
    CacheIsTransparent(all, item, users, rs');
    DestinationsAreTruthy(some, auth0Id);
    DestinationsAreTruthy(all, auth0Id);
    if !Truthy(item.receiverAuth0Id) && item.toAddress.Some? {
      SpellingDecides(item, users, recipients, Destinations(some, auth0Id), Destinations(all, auth0Id));
      if item.toAddress.value == "" {
        NothingUnderEmpty(Destinations(some, auth0Id), recipients);
        NothingUnderEmpty(Destinations(all, auth0Id), recipients);
      }
    }
  }

  lemma {:induction false} NothingUnderEmpty(addresses: seq<string>, recipients: seq<DirectRecipient>)
    requires "" !in addresses
    ensures SpellingFound(addresses, recipients, "").None?
  {}

  ghost predicate SameEntries(items: seq<TransactionItem>, p: TransactionItem -> bool, auth0Id: string,
                              type_: Option<TypeFilter>, cache: Cache, recipients: seq<DirectRecipient>,
                              cache': Cache, recipients': seq<DirectRecipient>) {
    forall i, t :: i in items && p(i) && Directed(i, auth0Id, Some(t)) && (type_.None? || type_ == Some(t)) ==>
      EntryOf(i, cache, recipients, t) == EntryOf(i, cache', recipients', t)
  }

  lemma {:induction false} MapSelected(auth0Id: string, items: seq<TransactionItem>, type_: Option<TypeFilter>,
                                       cache: Cache, recipients: seq<DirectRecipient>,
                                       cache': Cache, recipients': seq<DirectRecipient>,
                                       p: TransactionItem -> bool, ofItem: Entry -> bool)
    requires forall e :: ofItem(e) == p(e.item)
    ensures var some := MapItems(auth0Id, Filter(items, p), cache, recipients, type_);
      var all := Filter(MapItems(auth0Id, items, cache', recipients', type_), ofItem);
      && |some| == |all|
      && (some == all <==> SameEntries(items, p, auth0Id, type_, cache, recipients, cache', recipients'))
  {
    hide MapItem, EntryOf, Directed;
    if items != [] {
      var before, item := items[..|items| - 1], Last(items);
      assert forall i :: i in items <==> i in before || i == item;
      MapSelected(auth0Id, before, type_, cache, recipients, cache', recipients', p, ofItem);
      FilterSnoc(items, p);
      FilterConcat(MapItems(auth0Id, before, cache', recipients', type_),
                   MapItem(auth0Id, item, cache', recipients', type_), ofItem);
      MapItemSelected(auth0Id, item, type_, cache, recipients, cache', recipients', p, ofItem);
      var kept := Filter(before, p);
      if p(item) { assert (kept + [item])[..|kept|] == kept; }
      var x, y := MapItems(auth0Id, kept, cache, recipients, type_),
                  Filter(MapItems(auth0Id, before, cache', recipients', type_), ofItem);
      var x', y' := if p(item) then MapItem(auth0Id, item, cache, recipients, type_) else [],
                    Filter(MapItem(auth0Id, item, cache', recipients', type_), ofItem);
      SplitEqual(x, x', y, y');
      assert MapItems(auth0Id, Filter(items, p), cache, recipients, type_) == x + x';
      assert Filter(MapItems(auth0Id, items, cache', recipients', type_), ofItem) == y + y';
    }
  }

  lemma {:induction false} SplitEqual<T>(x: seq<T>, x': seq<T>, y: seq<T>, y': seq<T>)
    requires |x| == |y|
    ensures x + x' == y + y' <==> x == y && x' == y'
  {
    if x + x' == y + y' {
      assert x == (x + x')[..|x|] && x' == (x + x')[|x|..];
      assert y == (y + y')[..|y|] && y' == (y + y')[|y|..];
    }
  }

  lemma {:induction false} MapItemSelected(auth0Id: string, item: TransactionItem, type_: Option<TypeFilter>,
                                           cache: Cache, recipients: seq<DirectRecipient>,
                                           cache': Cache, recipients': seq<DirectRecipient>,
                                           p: TransactionItem -> bool, ofItem: Entry -> bool)
    requires forall e :: ofItem(e) == p(e.item)
    ensures var some := if p(item) then MapItem(auth0Id, item, cache, recipients, type_) else [];
      var all := Filter(MapItem(auth0Id, item, cache', recipients', type_), ofItem);
      && |some| == |all|
      && (some == all <==> SameEntries([item], p, auth0Id, type_, cache, recipients, cache', recipients'))
  {
    hide EntryOf;
    var wantsReceived, wantsSent := type_ != Some(FUNDS_SENT) && IsReceiver(item, auth0Id),
                                    type_ != Some(FUNDS_RECEIVED) && IsSender(item, auth0Id);
    var a := if wantsReceived then [EntryOf(item, cache', recipients', FUNDS_RECEIVED)] else [];
    var b := if wantsSent then [EntryOf(item, cache', recipients', FUNDS_SENT)] else [];
    var c := if wantsReceived then [EntryOf(item, cache, recipients, FUNDS_RECEIVED)] else [];
    var d := if wantsSent then [EntryOf(item, cache, recipients, FUNDS_SENT)] else [];
    FilterConcat(a, b, ofItem);
    OfItem(item, cache', recipients', FUNDS_RECEIVED, p, ofItem);
    OfItem(item, cache', recipients', FUNDS_SENT, p, ofItem);
    SplitEqual(c, d, a, b);
    SameEntriesOfOne(item, p, auth0Id, type_, cache, recipients, cache', recipients');
  }

  lemma {:induction false} OfItem(item: TransactionItem, cache: Cache, recipients: seq<DirectRecipient>, t: TypeFilter,
                                  p: TransactionItem -> bool, ofItem: Entry -> bool)
    requires forall e :: ofItem(e) == p(e.item)
    ensures var e := EntryOf(item, cache, recipients, t); Filter([e], ofItem) == if p(item) then [e] else []
  {}

  lemma {:induction false} SameEntriesOfOne(item: TransactionItem, p: TransactionItem -> bool, auth0Id: string,
                                            type_: Option<TypeFilter>, cache: Cache, recipients: seq<DirectRecipient>,
                                            cache': Cache, recipients': seq<DirectRecipient>)
    ensures SameEntries([item], p, auth0Id, type_, cache, recipients, cache', recipients') <==> (p(item) ==>
      && (type_ != Some(FUNDS_SENT) && IsReceiver(item, auth0Id) ==>
            EntryOf(item, cache, recipients, FUNDS_RECEIVED) == EntryOf(item, cache', recipients', FUNDS_RECEIVED))
      && (type_ != Some(FUNDS_RECEIVED) && IsSender(item, auth0Id) ==>
            EntryOf(item, cache, recipients, FUNDS_SENT) == EntryOf(item, cache', recipients', FUNDS_SENT)))
  {
    hide EntryOf;
    var received, sent := FUNDS_RECEIVED, FUNDS_SENT;
    assert item in [item];
    if SameEntries([item], p, auth0Id, type_, cache, recipients, cache', recipients') && p(item) {
      assert type_.None? || type_.value.FUNDS_RECEIVED? || type_.value.FUNDS_SENT?;
      assert IsReceiver(item, auth0Id) ==> Directed(item, auth0Id, Some(received));
      assert IsSender(item, auth0Id) ==> Directed(item, auth0Id, Some(sent));
    } else if p(item) {
      var t :| Directed(item, auth0Id, Some(t)) && (type_.None? || type_ == Some(t)) &&
        EntryOf(item, cache, recipients, t) != EntryOf(item, cache', recipients', t);
      match t case FUNDS_RECEIVED => case FUNDS_SENT =>
    }
  }

  /** The same query without source, currency, account and dates. */
  function Unfiltered(q: Query): Query {
    Query(q.type_, None, None, None, None, None)
  }

  lemma {:induction false} FoundIsSelected(auth0Id: string, q: Query, table: seq<TransactionItem>,
                                           p: TransactionItem -> bool)
    requires forall i :: p(i) == Matches(auth0Id, q, i)
    ensures Found(auth0Id, q, table) == Filter(Found(auth0Id, Unfiltered(q), table), p)
  {
    var any := (i: TransactionItem) => Holds(BuildFilter(auth0Id, Unfiltered(q)), i);
    var selected := (i: TransactionItem) => Holds(BuildFilter(auth0Id, q), i);
    forall i | i in table ensures selected(i) == (any(i) && p(i)) {
      FilterMeansQuery(auth0Id, q, i);
      FilterMeansQuery(auth0Id, Unfiltered(q), i);
    }
    FilterTwice(table, any, p, selected);
    FilterCommutesWithSort(Filter(table, any), p);
  }

  /** Source, currency, account and dates can be pushed down too, exactly if the smaller listing finds the
      receivers of its items under the same spellings as the larger one. */
  lemma {:induction false} CriteriaPushdown(auth0Id: string, q: Query, table: seq<TransactionItem>, users: Cache,
                                            recipients: seq<DirectRecipient>)
    requires auth0Id != ""
    ensures var all := Answer(auth0Id, Unfiltered(q), table, users, recipients);
      Answer(auth0Id, q, table, users, recipients) == Filter(all, (e: Entry) => Matches(auth0Id, q, e.item)) <==>
      SameSpellings(Found(auth0Id, q, table), Found(auth0Id, Unfiltered(q), table), auth0Id, recipients)
  {
    hide Found, SameSpellings, SameEntries, Matches, MapItems;
    var p := (i: TransactionItem) => Matches(auth0Id, q, i);
    var all, some := Found(auth0Id, Unfiltered(q), table), Found(auth0Id, q, table);
    FoundIsSelected(auth0Id, q, table, p);
    MapSelected(auth0Id, all, q.type_,
                CacheOf(UserIds(some), users), RecipientsFor(Destinations(some, auth0Id), recipients),
                CacheOf(UserIds(all), users), RecipientsFor(Destinations(all, auth0Id), recipients),
                p, (e: Entry) => Matches(auth0Id, q, e.item));
    EntriesAgree(auth0Id, q, all, p, users, recipients);
  }

  lemma {:induction false} EntriesAgree(auth0Id: string, q: Query, all: seq<TransactionItem>,
                                        p: TransactionItem -> bool, users: Cache,
                                        recipients: seq<DirectRecipient>)
    requires auth0Id != "" && forall i :: p(i) == Matches(auth0Id, q, i)
    ensures var some := Filter(all, p);
      SameEntries(all, p, auth0Id, q.type_,
                  CacheOf(UserIds(some), users), RecipientsFor(Destinations(some, auth0Id), recipients),
                  CacheOf(UserIds(all), users), RecipientsFor(Destinations(all, auth0Id), recipients)) <==>
      SameSpellings(some, all, auth0Id, recipients)
  {
    hide CacheOf, RecipientsFor, SameSpelling, EntryOf, Matches, Directed;
    var some := Filter(all, p);
    forall i ensures i in some <==> i in all && p(i) { FilterMember(all, p, i); }
    forall i, t | i in some && Directed(i, auth0Id, Some(t))
      ensures EntryOf(i, CacheOf(UserIds(some), users), RecipientsFor(Destinations(some, auth0Id), recipients), t) ==
              EntryOf(i, CacheOf(UserIds(all), users), RecipientsFor(Destinations(all, auth0Id), recipients), t) <==>
              SameSpelling(i, some, all, auth0Id, recipients)
    {
      SameEntry(some, all, auth0Id, i, t, users, recipients);
    }
    forall i | i in some ensures WantedOrSame(i, q, some, all, auth0Id, recipients) {
      SentIsWanted(auth0Id, q, i, some, all, recipients);
    }
  }

  /** A found item is listed as sent, or its receiver is not looked up. */
  ghost predicate WantedOrSame(item: TransactionItem, q: Query, some: seq<TransactionItem>, all: seq<TransactionItem>,
                               auth0Id: string,
                               recipients: seq<DirectRecipient>) {
    || (Directed(item, auth0Id, Some(FUNDS_SENT)) && (q.type_.None? || q.type_ == Some(FUNDS_SENT)))
    || SameSpelling(item, some, all, auth0Id, recipients)
  }

  lemma {:induction false} SentIsWanted(auth0Id: string, q: Query, item: TransactionItem, some: seq<TransactionItem>,
                                        all: seq<TransactionItem>, recipients: seq<DirectRecipient>)
    requires auth0Id != "" && Matches(auth0Id, q, item)
    ensures WantedOrSame(item, q, some, all, auth0Id, recipients)
  {
    assert q.type_.None? || q.type_.value.FUNDS_RECEIVED? || q.type_.value.FUNDS_SENT?;
  }

  /** That is so whenever no two of the addresses looked up differ in upper and lower case only. */
  lemma {:induction false} OneSpellingIsEnough(some: seq<TransactionItem>, all: seq<TransactionItem>, auth0Id: string,
                                               recipients: seq<DirectRecipient>)
    requires (forall i :: i in some ==> i in all) && OneSpelling(all, auth0Id)
    ensures SameSpellings(some, all, auth0Id, recipients)
  {
    hide OneSpelling, SpellingFound;
    forall i | i in some ensures SameSpelling(i, some, all, auth0Id, recipients) {
      if IsSender(i, auth0Id) && !Truthy(i.receiverAuth0Id) && Truthy(i.toAddress) {
        assert Destination(i, auth0Id) == Some(i.toAddress.value);
        OnlySpelling(all, all, auth0Id, i.toAddress.value, recipients);
        OnlySpelling(some, all, auth0Id, i.toAddress.value, recipients);
      }
    }
  }

  /** No two addresses that are looked up differ in upper and lower case only. */
  ghost predicate OneSpelling(listed: seq<TransactionItem>, auth0Id: string) {
    forall a, b ::
      LooksUp(listed, auth0Id, a) && LooksUp(listed, auth0Id, b) && ToLowerCase(a) == ToLowerCase(b) ==> a == b
  }

  lemma {:induction false} OnlySpelling(some: seq<TransactionItem>, all: seq<TransactionItem>, auth0Id: string,
                                        address: string,
                                        recipients: seq<DirectRecipient>)
    requires (forall i :: i in some ==> i in all) && OneSpelling(all, auth0Id) && LooksUp(some, auth0Id, address)
    ensures SpellingFound(Destinations(some, auth0Id), recipients, address) ==
      if AtAddress(recipients, address) != [] then Some(address) else None
  {
    var addresses := Destinations(some, auth0Id);
    var p := (b: string) => ToLowerCase(b) == ToLowerCase(address) && AtAddress(recipients, b) != [];
    SameSearch(addresses, recipients, address, p);
    DestinationMember(some, auth0Id, address);
    var i := FindIndex(addresses, p);
    if i < |addresses| {
      DestinationMember(some, auth0Id, addresses[i]);
      assert LooksUp(all, auth0Id, addresses[i]) && LooksUp(all, auth0Id, address);
    } else {
      var k :| 0 <= k < |addresses| && addresses[k] == address;
      assert !p(addresses[k]);
    }
  }

  /** What a caller can check: when no two of the addresses listed without the criteria differ in upper and
      lower case only, source, currency, account and dates can be pushed down. */
  lemma {:induction false} PushdownWithOneSpelling(auth0Id: string, q: Query, table: seq<TransactionItem>, users: Cache,
                                                   recipients: seq<DirectRecipient>)
    requires auth0Id != "" && OneSpelling(Found(auth0Id, Unfiltered(q), table), auth0Id)
    ensures var all := Answer(auth0Id, Unfiltered(q), table, users, recipients);
      Answer(auth0Id, q, table, users, recipients) == Filter(all, (e: Entry) => Matches(auth0Id, q, e.item))
  {
    hide Found, Answer, OneSpelling, SameSpellings, Matches;
    var some, all := Found(auth0Id, q, table), Found(auth0Id, Unfiltered(q), table);
    var p := (i: TransactionItem) => Matches(auth0Id, q, i);
    FoundIsSelected(auth0Id, q, table, p);
    forall i | i in some ensures i in all { FilterMember(all, p, i); }
    OneSpellingIsEnough(some, all, auth0Id, recipients);
    CriteriaPushdown(auth0Id, q, table, users, recipients);
  }

  // ---------------------------------------------------------------- the service

  class TransactionItemService {
    var table: seq<TransactionItem>
    var users: Cache
    var recipients: seq<DirectRecipient>

    /** The scan with the filter pushed into it, to its end. */
    method Scan(filter: Condition) returns (items: seq<TransactionItem>)
      ensures items == Filter(table, (i: TransactionItem) => Holds(filter, i))
    {
      items := [];
      for k := 0 to |table|
        invariant items == Filter(table[..k], (i: TransactionItem) => Holds(filter, i))
      {
        FilterSnoc(table[..k + 1], (i: TransactionItem) => Holds(filter, i));
        assert table[..k + 1][..k] == table[..k];
        if Holds(filter, table[k]) { items := items + [table[k]]; }
      }
      assert table[..|table|] == table;
    }

    method BuildTransactionItemFilter(auth0Id: string, query: Query) returns (filter: Condition)
      ensures filter == BuildFilter(auth0Id, query)
    {
      hide IfTruthy, IfStart, IfEnd;
      var filters: seq<Condition> := [];
      if query.type_ == Some(FUNDS_SENT) {
        filters := filters + [Equals(SenderAuth0Id, auth0Id)];
      } else if query.type_ == Some(FUNDS_RECEIVED) {
        filters := filters + [Equals(ReceiverAuth0Id, auth0Id)];
      } else {
        filters := filters + [Or([Equals(SenderAuth0Id, auth0Id), Equals(ReceiverAuth0Id, auth0Id)])];
      }
      assert filters == [Direction(auth0Id, query.type_)];
      filters := PushIfTruthy(filters, VirtualAccountId, query.virtualAccountId);
      filters := PushIfTruthy(filters, Source, query.source);
      filters := PushIfTruthy(filters, Currency, query.currency);
      filters := PushDates(filters, query.startDate, query.endDate);
      filter := if |filters| == 1 then filters[0] else And(filters);
    }

    method PushIfTruthy(filters: seq<Condition>, subject: Attribute, value: Option<string>)
      returns (more: seq<Condition>)
      ensures more == filters + IfTruthy(subject, value)
    {
      more := filters;
      if Truthy(value) { more := more + [Equals(subject, value.value)]; }
    }

    method PushDates(filters: seq<Condition>, startDate: Option<int>, endDate: Option<int>)
      returns (more: seq<Condition>)
      ensures more == filters + IfStart(startDate) + IfEnd(endDate)
    {
      more := filters;
      if startDate.Some? { more := more + [OccurredAtLeast(startDate.value)]; }
      if endDate.Some? { more := more + [OccurredAtMost(endDate.value)]; }
    }

    method GetByDestinationAddressList(addresses: seq<string>) returns (results: seq<DirectRecipient>)
      ensures results == RecipientsFor(addresses, recipients)
    {
      results := [];
      for k := 0 to |addresses|
        invariant results == RecipientsFor(addresses[..k], recipients)
      {
        assert addresses[..k + 1][..k] == addresses[..k];
        results := results + AtAddress(recipients, addresses[k]);
      }
      assert addresses[..|addresses|] == addresses;
    }

    method CollectIds(items: seq<TransactionItem>, auth0Id: string)
      returns (userIds: seq<string>, addresses: seq<string>)
      ensures userIds == UserIds(items) && addresses == Destinations(items, auth0Id)
    {
      userIds, addresses := [], [];
      for k := 0 to |items|
        invariant userIds == UserIds(items[..k]) && addresses == Destinations(items[..k], auth0Id)
      {
        assert items[..k + 1][..k] == items[..k];
        var item := items[k];
        if Truthy(item.senderAuth0Id) { userIds := AddUnique(userIds, item.senderAuth0Id.value); }
        if Truthy(item.receiverAuth0Id) { userIds := AddUnique(userIds, item.receiverAuth0Id.value); }
        if IsSender(item, auth0Id) && Truthy(item.toAddress) && !Truthy(item.receiverAuth0Id) {
          addresses := AddUnique(addresses, item.toAddress.value);
        }
      }
      assert items[..|items|] == items;
    }

    /** A user that is not found is left out of the cache. */
    method FetchUsers(userIds: seq<string>) returns (userCache: Cache)
      ensures userCache == CacheOf(userIds, users)
    {
      userCache := map[];
      for k := 0 to |userIds|
        invariant userCache == CacheOf(userIds[..k], users)
      {
        if userIds[k] in users { userCache := userCache[userIds[k] := users[userIds[k]]]; }
      }
      assert userIds[..|userIds|] == userIds;
    }

    method MapTransactionItems(auth0Id: string, items: seq<TransactionItem>, userCache: Cache,
                               directRecipients: seq<DirectRecipient>, typeFilter: Option<TypeFilter>)
      returns (response: seq<Entry>)
      ensures response == MapItems(auth0Id, items, userCache, directRecipients, typeFilter)
    {
      response := [];
      for k := 0 to |items|
        invariant response == MapItems(auth0Id, items[..k], userCache, directRecipients, typeFilter)
      {
        assert items[..k + 1][..k] == items[..k];
        ghost var before := response;
        var item := items[k];
        var receiver := ReceiverUser(item, userCache, directRecipients);
        var sender := SenderUser(item, userCache);
        var isSender, isReceiver := IsSender(item, auth0Id), IsReceiver(item, auth0Id);
        if typeFilter == Some(FUNDS_RECEIVED) && isReceiver {
          response := response + [Entry(item, sender, receiver, FUNDS_RECEIVED)];
        }
        if typeFilter == Some(FUNDS_SENT) && isSender {
          response := response + [Entry(item, sender, receiver, FUNDS_SENT)];
        }
        if typeFilter.None? && isReceiver { response := response + [Entry(item, sender, receiver, FUNDS_RECEIVED)]; }
        if typeFilter.None? && isSender { response := response + [Entry(item, sender, receiver, FUNDS_SENT)]; }
        assert typeFilter.None? || typeFilter.value == FUNDS_RECEIVED || typeFilter.value == FUNDS_SENT;
        assert response == before + MapItem(auth0Id, item, userCache, directRecipients, typeFilter);
      }
      assert items[..|items|] == items;
    }

    method GetTransactionItems(auth0Id: string, query: Query) returns (entries: seq<Entry>)
      ensures entries == Answer(auth0Id, query, table, users, recipients)
      ensures auth0Id != "" && query.type_.Some? ==>
        entries == Filter(Answer(auth0Id, query.(type_ := None), table, users, recipients),
                          (e: Entry) => e.type_ == query.type_.value)
    {
      var filters := BuildTransactionItemFilter(auth0Id, query);
      var items := Scan(filters);
      items := StableSort(items);
      var userIds, addresses := CollectIds(items, auth0Id);
      var userCache := FetchUsers(userIds);
      var directRecipients := GetByDestinationAddressList(addresses);
      entries := MapTransactionItems(auth0Id, items, userCache, directRecipients, query.type_);
      assert items == Found(auth0Id, query, table);
      if auth0Id != "" && query.type_.Some? {
        DirectionPushdown(auth0Id, query, query.type_.value, table, users, recipients);
      }
    }
  }
}
