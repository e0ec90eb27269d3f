/**
 The observer's two tables describe one relation -- except behind `updateSubscription` for a client
 that already has items -- the framework's ledger follows the item table in every run, and a
 notification reaches exactly the clients it concerns.
 */
module ObserverTheorems {
  import opened SetMap
  import opened ObserverModel

  /** The items the framework was told to report are those with clients. */
  ghost predicate FrameworkAgrees(o: Observer)
  {
    o.subscription.Some? ==> Ledger(o, o.subscription.value) == o.itemToClients.Keys
  }

  // ---------------------------------------------------------------- what each request relates

  predicate Has(o: Observer, c: Client, i: Item)
  {
    i in ValSet(o.clientToItems, c)
  }

  predicate Serves(o: Observer, c: Client, i: Item)
  {
    c in ValSet(o.itemToClients, i)
  }

  lemma SubscribeAt(o: Observer, items: set<Item>, client: Client, requestData: bool, c: Client, i: Item)
    requires items != {} && client != NULL
    ensures var u := Subscribe(o, items, client, requestData);
      && (Has(u, c, i) <==> Has(o, c, i) || (c == client && i in items))
      && (Serves(u, c, i) <==> Serves(o, c, i) || (c == client && i in items))
      && (NonEmpty(o.clientToItems) ==> NonEmpty(u.clientToItems))
      && (NonEmpty(o.itemToClients) ==> NonEmpty(u.itemToClients))
  {
    hide Added;
    AddedAt(o.itemToClients, items, {client}, i);
    AddedAt(o.clientToItems, {client}, items, c);
  }

  lemma UnsubscribeAt(o: Observer, items: set<Item>, client: Client, c: Client, i: Item)
    requires items != {} && client != NULL
    ensures var u := Unsubscribe(o, items, client);
      && (Has(u, c, i) <==> Has(o, c, i) && !(c == client && i in items))
      && (Serves(u, c, i) <==> Serves(o, c, i) && !(c == client && i in items && Has(o, client, i)))
  {
    hide Trimmed, GoneVals;
    var unused := GoneVals(o.clientToItems, {client}, items);
    UnusedItems(o, items, client);
    TrimmedAt(o.clientToItems, {client}, items, c);
    TrimmedAt(o.itemToClients, unused, {client}, i);
  }

  lemma UnusedItems(o: Observer, items: set<Item>, client: Client)
    ensures GoneVals(o.clientToItems, {client}, items) == ValSet(o.clientToItems, client) * items
  {
  }

  lemma UnsubscribeAllAt(o: Observer, client: Client, c: Client, i: Item)
    requires client != NULL
    ensures var u := UnsubscribeAll(o, client);
      && (Has(u, c, i) <==> Has(o, c, i) && c != client)
      && (Serves(u, c, i) <==> Serves(o, c, i) && !(c == client && Has(o, client, i)))
  {
    hide Trimmed;
    TrimmedAt(o.itemToClients, ValSet(o.clientToItems, client), {client}, i);
  }

  /** An update leaves the item table with what the client gains or drops, and without what it keeps. */
  lemma UpdateAt(o: Observer, items: set<Item>, client: Client, c: Client, i: Item)
    requires items != {} && client != NULL
    ensures var u := UpdateSubscription(o, items, client);
      && (Has(u, c, i) <==> if c == client then i in items else Has(o, c, i))
      && (Serves(u, c, i) <==>
            if c == client && i in items then !Has(o, c, i) else Serves(o, c, i))
  {
    hide Trimmed, Added;
    var had := ValSet(o.clientToItems, client);
    var gone, left := had * items, items - had;
    TrimmedAt(o.itemToClients, gone, {client}, i);
    AddedAt(Trimmed(o.itemToClients, gone, {client}), left, {client}, i);
  }

  // ---------------------------------------------------------------- the tables stay inverse

  ghost predicate NoEmptyEntries(o: Observer)
  {
    NonEmpty(o.clientToItems) && NonEmpty(o.itemToClients)
  }

  /** The two tables are inverse relations, without empty entries. */
  ghost predicate Inverse(o: Observer)
  {
    NoEmptyEntries(o) && forall c, i :: Has(o, c, i) <==> Serves(o, c, i)
  }

  lemma ServeNoEmptyEntries(o: Observer, r: Request)
    requires NoEmptyEntries(o)
    ensures NoEmptyEntries(Serve(o, r))
  {
    hide Trimmed, Added, GoneKeys, GoneVals, NewKeys;
    match r
    case SetSubscription(_) =>
    case SubscribeTo(items, client, _) =>
      AddedAt(o.itemToClients, items, {client}, 0);
      AddedAt(o.clientToItems, {client}, items, 0);
    case UpdateTo(items, client) =>
      var had := ValSet(o.clientToItems, client);
      TrimmedNonEmpty(o.itemToClients, had * items, {client});
      AddedAt(Trimmed(o.itemToClients, had * items, {client}), items - had, {client}, 0);
    case UnsubscribeFrom(items, client) =>
      TrimmedNonEmpty(o.clientToItems, {client}, items);
      TrimmedNonEmpty(o.itemToClients, GoneVals(o.clientToItems, {client}, items), {client});
    case UnsubscribeFromAll(client) =>
      TrimmedNonEmpty(o.itemToClients, ValSet(o.clientToItems, client), {client});
    case Notified(_) =>
  }

  /** An update keeps the tables inverse exactly when the client had no items before. */
  lemma UpdateInverse(o: Observer, items: set<Item>, client: Client)
    requires Inverse(o) && items != {} && client != NULL
    ensures Inverse(UpdateSubscription(o, items, client)) <==> client !in o.clientToItems
  {
    hide UpdateSubscription, Has, Serves;
    var u := UpdateSubscription(o, items, client);
    UpdateServed(o, items, client);
    ServeNoEmptyEntries(o, UpdateTo(items, client));
    if client in o.clientToItems {
      var i := SomeItem(o, client);
      UpdateAt(o, items, client, client, i);
      assert Has(u, client, i) != Serves(u, client, i);
    } else {
      forall c, i ensures Has(u, c, i) <==> Serves(u, c, i) {
        UpdateAt(o, items, client, c, i);
        NoItems(o, client, i);
        assert Has(o, c, i) <==> Serves(o, c, i);
        assert Has(o, client, i) <==> Serves(o, client, i);
      }
    }
  }

  lemma UpdateServed(o: Observer, items: set<Item>, client: Client)
    ensures Serve(o, UpdateTo(items, client)) == UpdateSubscription(o, items, client)
  {
  }

  lemma NoItems(o: Observer, client: Client, i: Item)
    requires client !in o.clientToItems
    ensures !Has(o, client, i)
  {
  }

  lemma SomeItem(o: Observer, client: Client) returns (i: Item)
    requires Inverse(o) && client in o.clientToItems
    ensures Has(o, client, i) && Serves(o, client, i)
  {
    i := SomeValue(o.clientToItems, client);
    assert Has(o, client, i);
  }

  /** Client 1 keeps item 7 through an update, and is struck off it. */
  lemma UpdateExample()
    ensures var o := UpdateSubscription(Subscribe(EMPTY, {7}, 1, false), {7}, 1);
      Has(o, 1, 7) && !Serves(o, 1, 7)
  {
    SubscribeAt(EMPTY, {7}, 1, false, 1, 7);
    UpdateAt(Subscribe(EMPTY, {7}, 1, false), {7}, 1, 1, 7);
  }

  /** The updates that break the tables: a list for a client that already has items. */
  predicate Breaks(o: Observer, r: Request)
  {
    r.UpdateTo? && r.items != {} && r.client != NULL && r.client in o.clientToItems
  }

  lemma ServeInverse(o: Observer, r: Request)
    requires Inverse(o)
    ensures Inverse(Serve(o, r)) <==> !Breaks(o, r)
  {
    hide Subscribe, UpdateSubscription, Unsubscribe, UnsubscribeAll, Has, Serves;
    ServeNoEmptyEntries(o, r);
    var u := Serve(o, r);
    if r.UpdateTo? && r.items != {} && r.client != NULL {
      UpdateInverse(o, r.items, r.client);
    } else {
      forall c, i ensures Has(u, c, i) <==> Serves(u, c, i) {
        assert Has(o, c, i) <==> Serves(o, c, i);
        ServeOthersAt(o, r, c, i);
      }
    }
  }

  lemma ServeOthersAt(o: Observer, r: Request, c: Client, i: Item)
    requires !(r.UpdateTo? && r.items != {} && r.client != NULL)
    requires Has(o, c, i) <==> Serves(o, c, i)
    ensures Has(Serve(o, r), c, i) <==> Serves(Serve(o, r), c, i)
  {
    match r
    case SetSubscription(_) =>
    case SubscribeTo(items, client, requestData) =>
      if items != {} && client != NULL {
        SubscribeAt(o, items, client, requestData, c, i);
      }
    case UpdateTo(_, _) =>
    case UnsubscribeFrom(items, client) =>
      if items != {} && client != NULL {
        UnsubscribeAt(o, items, client, c, i);
      }
    case UnsubscribeFromAll(client) =>
      if client != NULL {
        UnsubscribeAllAt(o, client, c, i);
      }
    case Notified(_) =>
  }

  /** In every run without such an update the tables stay inverse. */
  lemma {:induction false} TablesStayInverse(rs: seq<Request>)
    requires forall k :: 0 <= k < |rs| ==> !Breaks(ServeAll(EMPTY, rs[..k]), rs[k])
    ensures Inverse(ServeAll(EMPTY, rs))
  {
    hide Serve, Breaks;
    if rs != [] {
      var n := |rs| - 1;
      forall k | 0 <= k < n ensures !Breaks(ServeAll(EMPTY, rs[..n][..k]), rs[..n][k]) {
        assert rs[..n][..k] == rs[..k];
      }
      TablesStayInverse(rs[..n]);
      ServeInverse(ServeAll(EMPTY, rs[..n]), rs[n]);
    }
  }

  // ---------------------------------------------------------------- the framework's ledger

  /**
   The two requests after which the framework reports other items than those with clients: a subscription with a
   data request, which asks for the data of items new to the table without subscribing to them, and an object
   that still holds items nobody subscribes to.
   */
  predicate Untold(o: Observer, r: Request)
  {
    match r
    case SubscribeTo(items, client, requestData) =>
      requestData && client != NULL && o.subscription.Some? && NewKeys(o.itemToClients, items, {client}) != {}
    case SetSubscription(obj) => !(Ledger(o, obj) <= o.itemToClients.Keys)
    case _ => false
  }

  /** A new subscription object reports the items with clients exactly when it held no others. */
  lemma SetSubscriptionAgrees(o: Observer, obj: int)
    ensures FrameworkAgrees(SetSubscriptionObj(o, obj)) <==> Ledger(o, obj) <= o.itemToClients.Keys
  {
  }

  /** A data request leaves the framework in agreement exactly when there is none or no item is new. */
  lemma DataRequestAgrees(o: Observer, items: set<Item>, client: Client)
    requires FrameworkAgrees(o) && items != {} && client != NULL
    ensures FrameworkAgrees(Subscribe(o, items, client, true))
      <==> o.subscription.None? || NewKeys(o.itemToClients, items, {client}) == {}
  {
    hide Added, NewKeys;
    AddedAt(o.itemToClients, items, {client}, 0);
    NewKeysAreNew(o.itemToClients, items, {client});
  }

  lemma NewKeysAreNew(m: map<Item, set<Client>>, keys: set<Item>, vals: set<Client>)
    ensures NewKeys(m, keys, vals) !! m.Keys
    ensures keys == {} ==> NewKeys(m, keys, vals) == {}
  {
  }

  /** A request keeps the framework in agreement if and only if it is not one of those two. */
  lemma ServeFrameworkAgrees(o: Observer, r: Request)
    requires FrameworkAgrees(o)
    ensures FrameworkAgrees(Serve(o, r)) <==> !Untold(o, r)
  {
    hide Trimmed, Added, GoneKeys, GoneVals, NewKeys;
    match r
    case SetSubscription(obj) => SetSubscriptionAgrees(o, obj);
    case SubscribeTo(items, client, requestData) =>
      NewKeysAreNew(o.itemToClients, items, {client});
      if items != {} && client != NULL && requestData {
        DataRequestAgrees(o, items, client);
      } else {
        AddedAt(o.itemToClients, items, {client}, 0);
      }
    case UpdateTo(items, client) =>
      var had := ValSet(o.clientToItems, client);
      UpdateKeys(o, had * items, items - had, client);
    case UnsubscribeFrom(items, client) =>
      TrimmedAt(o.itemToClients, GoneVals(o.clientToItems, {client}, items), {client}, 0);
    case UnsubscribeFromAll(client) =>
      TrimmedAt(o.itemToClients, ValSet(o.clientToItems, client), {client}, 0);
    case Notified(_) =>
  }

  /** An update subscribes to the new keys and unsubscribes from the gone ones, which are different items. */
  lemma UpdateKeys(o: Observer, gone: set<Item>, left: set<Item>, client: Client)
    requires gone !! left
    ensures var trimmed := Trimmed(o.itemToClients, gone, {client});
      Added(trimmed, left, {client}).Keys
        == o.itemToClients.Keys + NewKeys(trimmed, left, {client}) - GoneKeys(o.itemToClients, gone, {client})
  {
    TrimmedAt(o.itemToClients, gone, {client}, 0);
    AddedAt(Trimmed(o.itemToClients, gone, {client}), left, {client}, 0);
    assert GoneKeys(o.itemToClients, gone, {client}) <= gone;
    assert NewKeys(Trimmed(o.itemToClients, gone, {client}), left, {client}) <= left;
  }

  /**
   In every run without such a request, updates included, the framework reports exactly the items
   that have clients.
   */
  lemma {:induction false} LedgerFollowsItems(rs: seq<Request>)
    requires forall k :: 0 <= k < |rs| ==> !Untold(ServeAll(EMPTY, rs[..k]), rs[k])
    ensures FrameworkAgrees(ServeAll(EMPTY, rs))
  {
    hide Serve, Untold;
    if rs != [] {
      var n := |rs| - 1;
      forall k | 0 <= k < n ensures !Untold(ServeAll(EMPTY, rs[..n][..k]), rs[..n][k]) {
        assert rs[..n][..k] == rs[..k];
      }
      LedgerFollowsItems(rs[..n]);
      ServeFrameworkAgrees(ServeAll(EMPTY, rs[..n]), rs[n]);
    }
  }

  /** A data request for a new item: the framework is asked for its data, and not told to report it. */
  lemma DataRequestExample()
    ensures var o := SetSubscriptionObj(EMPTY, 1); FrameworkAgrees(o) && !FrameworkAgrees(Subscribe(o, {7}, 1, true))
  {
    var o := SetSubscriptionObj(EMPTY, 1);
    DataRequestAgrees(o, {7}, 1);
    assert 7 in NewKeys(o.itemToClients, {7}, {1});
  }

  /** An object that is set again after another one still reports the item that was given up in between. */
  lemma ReturningObjectExample()
    ensures var o := Subscribe(SetSubscriptionObj(EMPTY, 1), {7}, 1, false);
      var u := UnsubscribeAll(SetSubscriptionObj(o, 2), 1);
      FrameworkAgrees(u) && !FrameworkAgrees(SetSubscriptionObj(u, 1))
  {
    var first := SetSubscriptionObj(EMPTY, 1);
    var o := Subscribe(first, {7}, 1, false);
    assert 7 in NewKeys(first.itemToClients, {7}, {1});
    var second := SetSubscriptionObj(o, 2);
    var u := UnsubscribeAll(second, 1);
    UnsubscribeAllAt(second, 1, 1, 7);
    SetSubscriptionAgrees(o, 2);
    ServeFrameworkAgrees(second, UnsubscribeFromAll(1));
    SetSubscriptionAgrees(u, 1);
    assert 7 in Ledger(u, 1) && 7 !in u.itemToClients;
  }

  // ---------------------------------------------------------------- exact delivery

  /** Items outside the changed set keep their cached value; those in it have one. */
  lemma {:induction false} ChangedIsExact(cache: map<Item, int>, rs: seq<Report>)
    ensures Changed(cache, rs) <= Cached(cache, rs).Keys
    ensures forall i :: i !in Changed(cache, rs) ==>
      (i in Cached(cache, rs) <==> i in cache) && (i in cache ==> Cached(cache, rs)[i] == cache[i])
    ensures cache.Keys <= Cached(cache, rs).Keys
  {
    if rs != [] {
      ChangedIsExact(cache, rs[..|rs| - 1]);
    }
  }

  /** The null pointer never gets into the tables. */
  ghost predicate NoNullClient(o: Observer)
  {
    NULL !in o.clientToItems
  }

  lemma ServeNoNullClient(o: Observer, r: Request)
    requires NoNullClient(o)
    ensures NoNullClient(Serve(o, r))
  {
    hide Trimmed, Added, GoneVals;
    match r
    case SubscribeTo(items, client, _) => AddedAt(o.clientToItems, {client}, items, NULL);
    case UnsubscribeFrom(items, client) => TrimmedAt(o.clientToItems, {client}, items, NULL);
    case _ =>
  }

  lemma {:induction false} NeverANullClient(rs: seq<Request>)
    ensures NoNullClient(ServeAll(EMPTY, rs))
  {
    hide Serve;
    if rs != [] {
      NeverANullClient(rs[..|rs| - 1]);
      ServeNoNullClient(ServeAll(EMPTY, rs[..|rs| - 1]), rs[|rs| - 1]);
    }
  }

  lemma SentOne(cache: map<Item, int>, items: set<Item>, d: Delivery)
    requires [d] == Sent(cache, items, d.to)
    ensures d.items == CachedItems(cache, items) && d.items.Keys != {}
  {
    var sent := Sent(cache, items, d.to);
    assert |sent| == 1 && sent[0] == d;
  }

  ghost predicate SubscribesToAny(o: Observer, c: Client, items: set<Item>)
  {
    exists i :: i in items && Has(o, c, i)
  }

  ghost predicate ServedAny(o: Observer, c: Client, items: set<Item>)
  {
    exists i :: i in items && Serves(o, c, i)
  }

  /**
   Whatever the tables hold, a batch calls exactly the clients that the client table gives a changed item and the
   item table lists for a changed item, each once, with exactly the changed items it subscribes to and their new
   values.
   */
  lemma ExactDelivery(o: Observer, rs: seq<Report>, calls: seq<Delivery>)
    requires NoNullClient(o)
    requires Delivered(o.(cache := Cached(o.cache, rs)), Changed(o.cache, rs), calls)
    ensures forall c :: Called(calls, c) <==> SubscribesToAny(o, c, Changed(o.cache, rs)) && ServedAny(o, c, Changed(o.cache, rs))
    ensures forall j, k :: 0 <= j < k < |calls| ==> calls[j].to != calls[k].to
    ensures forall k :: 0 <= k < |calls| ==>
      && calls[k].items.Keys == ValSet(o.clientToItems, calls[k].to) * Changed(o.cache, rs)
      && forall i :: i in calls[k].items ==> i in Cached(o.cache, rs) && calls[k].items[i] == Cached(o.cache, rs)[i]
  {
    var changed, n := Changed(o.cache, rs), o.(cache := Cached(o.cache, rs));
    hide Changed, Cached;
    ChangedIsExact(o.cache, rs);
    forall k | 0 <= k < |calls|
      ensures calls[k].items == CachedItems(n.cache, ValSet(o.clientToItems, calls[k].to) * changed)
      ensures calls[k].items.Keys == ValSet(o.clientToItems, calls[k].to) * changed && calls[k].items.Keys != {}
    {
      var share := ValSet(o.clientToItems, calls[k].to) * changed;
      SentOne(n.cache, share, calls[k]);
      assert share <= n.cache.Keys;
      RestrictedKeys(n.cache, share);
    }
    forall c ensures Called(calls, c) <==> SubscribesToAny(o, c, changed) && ServedAny(o, c, changed) {
      if SubscribesToAny(o, c, changed) && ServedAny(o, c, changed) {
        var i :| i in changed && Has(o, c, i);
        assert i in CachedItems(n.cache, ValSet(o.clientToItems, c) * changed);
        var s :| s in changed && Serves(o, c, s);
        assert c in Reached(n, changed);
      }
      if Called(calls, c) {
        var k :| 0 <= k < |calls| && calls[k].to == c;
        assert calls[k].items.Keys == ValSet(o.clientToItems, c) * changed;
        var i := SomeKey(calls[k].items);
        assert Has(o, c, i);
        ReachedServes(o, c, changed);
      }
    }
  }

  lemma ReachedServes(o: Observer, c: Client, items: set<Item>)
    ensures c in Reached(o, items) <==> ServedAny(o, c, items)
  {
    hide UnionOf, ValSet;
    if ServedAny(o, c, items) {
      var i :| i in items && Serves(o, c, i);
      UnionHas(o.itemToClients, items, i, c);
    }
    if c in Reached(o, items) {
      var i := UnionSource(o.itemToClients, items, c);
      assert Serves(o, c, i);
    }
  }

  /** So every subscribed client is called if and only if the item table lists each of them for some changed item. */
  lemma CompleteDelivery(o: Observer, rs: seq<Report>, calls: seq<Delivery>)
    requires NoNullClient(o)
    requires Delivered(o.(cache := Cached(o.cache, rs)), Changed(o.cache, rs), calls)
    ensures var changed := Changed(o.cache, rs);
      (forall c :: SubscribesToAny(o, c, changed) ==> Called(calls, c))
      <==> forall c :: SubscribesToAny(o, c, changed) ==> ServedAny(o, c, changed)
    ensures Inverse(o) ==> forall c :: Called(calls, c) <==> SubscribesToAny(o, c, Changed(o.cache, rs))
  {
    ExactDelivery(o, rs, calls);
    var changed := Changed(o.cache, rs);
    hide Changed, Cached, Delivered, Called;
    forall c | Inverse(o) && SubscribesToAny(o, c, changed) ensures ServedAny(o, c, changed) {
      var i :| i in changed && Has(o, c, i);
      assert Serves(o, c, i);
    }
  }

  /** Exact delivery in every run of requests, whatever they are. */
  lemma RunsDeliverExactly(requests: seq<Request>, rs: seq<Report>, calls: seq<Delivery>)
    requires var o := ServeAll(EMPTY, requests); Delivered(o.(cache := Cached(o.cache, rs)), Changed(o.cache, rs), calls)
    ensures var o := ServeAll(EMPTY, requests);
      var changed := Changed(o.cache, rs);
      && (forall c :: Called(calls, c) <==> SubscribesToAny(o, c, changed) && ServedAny(o, c, changed))
      && (forall j, k :: 0 <= j < k < |calls| ==> calls[j].to != calls[k].to)
      && (forall k :: 0 <= k < |calls| ==>
            && calls[k].items.Keys == ValSet(o.clientToItems, calls[k].to) * changed
            && forall i :: i in calls[k].items ==> i in Cached(o.cache, rs) && calls[k].items[i] == Cached(o.cache, rs)[i])
  {
    hide Delivered, SubscribesToAny, ServedAny, Called, Changed, Cached;
    NeverANullClient(requests);
    ExactDelivery(ServeAll(EMPTY, requests), rs, calls);
  }

  /** Where no client that has items was updated, every subscribed client is called, and nobody else. */
  lemma RunsDeliverToAll(requests: seq<Request>, rs: seq<Report>, calls: seq<Delivery>)
    requires forall k :: 0 <= k < |requests| ==> !Breaks(ServeAll(EMPTY, requests[..k]), requests[k])
    requires var o := ServeAll(EMPTY, requests); Delivered(o.(cache := Cached(o.cache, rs)), Changed(o.cache, rs), calls)
    ensures var o := ServeAll(EMPTY, requests); forall c :: Called(calls, c) <==> SubscribesToAny(o, c, Changed(o.cache, rs))
  {
    hide Breaks, Delivered, SubscribesToAny, Called, Changed, Cached;
    TablesStayInverse(requests);
    NeverANullClient(requests);
    CompleteDelivery(ServeAll(EMPTY, requests), rs, calls);
  }

  /** Client 1 subscribes to item 7 and updates its subscription to item 7: from then on a change of item 7 passes it by. */
  lemma MissedDelivery(value: int, calls: seq<Delivery>)
    requires var o, rs := ServeAll(EMPTY, [SubscribeTo({7}, 1, false), UpdateTo({7}, 1)]), [Report(7, value, true)];
      Delivered(o.(cache := Cached(o.cache, rs)), Changed(o.cache, rs), calls)
    ensures var o := ServeAll(EMPTY, [SubscribeTo({7}, 1, false), UpdateTo({7}, 1)]);
      7 in Changed(o.cache, [Report(7, value, true)]) && Has(o, 1, 7) && !Called(calls, 1)
  {
    var requests, rs := [SubscribeTo({7}, 1, false), UpdateTo({7}, 1)], [Report(7, value, true)];
    var o := ServeAll(EMPTY, requests);
    assert requests[..1] == [SubscribeTo({7}, 1, false)] && requests[..1][..0] == [];
    assert o == UpdateSubscription(Subscribe(EMPTY, {7}, 1, false), {7}, 1);
    UpdateExample();
    assert rs[..0] == [] && o.cache == map[] && Changed(o.cache, rs) == {7};
    hide Changed, Cached, Delivered, UpdateSubscription, Subscribe;
    RunsDeliverExactly(requests, rs, calls);
  }
}
