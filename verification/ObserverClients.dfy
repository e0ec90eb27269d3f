/**
 What the observer's clients and its subscription objects see over whole runs: the data requests made, the cache as
 the batches leave it, and that every client knows the cached value of every item it subscribes to.
 */
module ObserverClients {
  import opened Common
  import opened SetMap
  import opened ObserverModel
  import opened ObserverTheorems

  // ---------------------------------------------------------------- data requests

  /** The data a request has the current subscription object asked for, if any. */
  function Asks(o: Observer, r: Request): seq<DataRequest>
  {
    match r
    case SetSubscription(obj) =>
      var items := set i | i in o.itemToClients;
      if items == {} then [] else [DataRequest(obj, items)]
    case SubscribeTo(items, client, requestData) =>
      if requestData && items != {} && client != NULL && o.subscription.Some? then [DataRequest(o.subscription.value, items)] else []
    case _ => []
  }

  /** A new object is asked for all items with clients, the current one for the items of a data request, new or not. */
  lemma ServeAsks(o: Observer, r: Request)
    ensures Serve(o, r).asked == o.asked + Asks(o, r)
  {
    hide Added, Trimmed, NewKeys, GoneKeys, GoneVals;
    assert (set i | i in o.itemToClients) == o.itemToClients.Keys;
  }

  /** Every data request of a run made while an object was set reached that object with just its items ... */
  lemma {:induction false} RequestsReach(rs: seq<Request>, k: nat, d: DataRequest)
    requires k < |rs| && d in Asks(ServeAll(EMPTY, rs[..k]), rs[k])
    ensures d in ServeAll(EMPTY, rs).asked
  {
    hide Serve, Asks;
    var n := |rs| - 1;
    ServeAsks(ServeAll(EMPTY, rs[..n]), rs[n]);
    if k < n {
      assert rs[..n][..k] == rs[..k];
      RequestsReach(rs[..n], k, d);
    }
  }

  /** ... and nothing else was asked for. */
  lemma {:induction false} RequestsCome(rs: seq<Request>, d: DataRequest) returns (k: nat)
    requires d in ServeAll(EMPTY, rs).asked
    ensures k < |rs| && d in Asks(ServeAll(EMPTY, rs[..k]), rs[k])
  {
    hide Serve, Asks;
    var n := |rs| - 1;
    ServeAsks(ServeAll(EMPTY, rs[..n]), rs[n]);
    if d in ServeAll(EMPTY, rs[..n]).asked {
      k := RequestsCome(rs[..n], d);
      assert rs[..n][..k] == rs[..k];
    } else {
      k := n;
    }
  }

  // ---------------------------------------------------------------- the cache

  predicate Takes(rs: seq<Report>, j: int, i: Item)
  {
    0 <= j < |rs| && rs[j].id == i && rs[j].accepted
  }

  /** The cache holds the last accepted value of each item, and of the others what it held. */
  lemma {:induction false} CachedIsLast(cache: map<Item, int>, rs: seq<Report>, i: Item)
    ensures (exists j :: Takes(rs, j, i)) ==>
      exists j :: Takes(rs, j, i) && (forall k :: j < k ==> !Takes(rs, k, i)) && i in Cached(cache, rs) && Cached(cache, rs)[i] == rs[j].value
    ensures (forall j :: !Takes(rs, j, i)) ==>
      (i in Cached(cache, rs) <==> i in cache) && (i in cache ==> Cached(cache, rs)[i] == cache[i])
  {
    if rs != [] {
      var n := |rs| - 1;
      CachedIsLast(cache, rs[..n], i);
      assert forall j :: 0 <= j < n ==> (Takes(rs[..n], j, i) <==> Takes(rs, j, i));
      if Takes(rs, n, i) {
        assert forall k :: n < k ==> !Takes(rs, k, i);
      } else if exists j :: Takes(rs, j, i) {
        var j :| Takes(rs[..n], j, i) && (forall k :: j < k ==> !Takes(rs[..n], k, i)) && i in Cached(cache, rs[..n]) && Cached(cache, rs[..n])[i] == rs[..n][j].value;
        assert Takes(rs, j, i);
      }
    }
  }

  /** An item counts as changed exactly when some accepted value of it is not the one that was cached. */
  lemma {:induction false} ChangedIsDifferent(cache: map<Item, int>, rs: seq<Report>, i: Item)
    ensures i in Changed(cache, rs) <==> exists j :: Takes(rs, j, i) && (i in cache ==> rs[j].value != cache[i])
  {
    if rs != [] {
      var n := |rs| - 1;
      ChangedIsDifferent(cache, rs[..n], i);
      ChangedIsExact(cache, rs[..n]);
      assert forall j :: 0 <= j < n ==> (Takes(rs[..n], j, i) <==> Takes(rs, j, i)) && rs[..n][j] == rs[j];
      assert i in Changed(cache, rs) <==> i in Changed(cache, rs[..n]) || (rs[n].id == i && Changes(Cached(cache, rs[..n]), rs[n]));
    }
  }

  // ---------------------------------------------------------------- what clients know

  /** The value a client was last told for an item. */
  function LastTold(calls: seq<Delivery>, c: Client, i: Item): Option<int>
  {
    if calls == [] then None
    else
      var d := calls[|calls| - 1];
      if d.to == c && i in d.items then Some(d.items[i]) else LastTold(calls[..|calls| - 1], c, i)
  }

  /** The calls that serving a request makes: those of a batch, or the first response. */
  ghost predicate Calls(o: Observer, r: Request, calls: seq<Delivery>)
  {
    if r.Notified? then Delivered(Serve(o, r), Changed(o.cache, r.reports), calls) else calls == FirstResponse(o, r)
  }

  ghost predicate CallsOf(rs: seq<Request>, made: seq<seq<Delivery>>)
  {
    |made| == |rs| && forall k :: 0 <= k < |rs| ==> Calls(ServeAll(EMPTY, rs[..k]), rs[k], made[k])
  }

  function Flat(made: seq<seq<Delivery>>): seq<Delivery>
  {
    if made == [] then [] else Flat(made[..|made| - 1]) + made[|made| - 1]
  }

  /** Every client knows the cached value of every item it subscribes to. */
  ghost predicate Informed(o: Observer, made: seq<Delivery>)
  {
    forall c, i :: Has(o, c, i) && i in o.cache ==> LastTold(made, c, i) == Some(o.cache[i])
  }

  lemma {:induction false} LastToldAppend(a: seq<Delivery>, b: seq<Delivery>, c: Client, i: Item)
    ensures LastTold(a + b, c, i) == if LastTold(b, c, i).Some? then LastTold(b, c, i) else LastTold(a, c, i)
  {
    if b == [] {
      assert a + b == a;
    } else {
      LastToldAppend(a, b[..|b| - 1], c, i);
      assert (a + b)[..|a + b| - 1] == a + b[..|b| - 1];
    }
  }

  lemma {:induction false} LastToldIs(calls: seq<Delivery>, c: Client, i: Item, value: int)
    requires forall k :: 0 <= k < |calls| && calls[k].to == c && i in calls[k].items ==> calls[k].items[i] == value
    ensures LastTold(calls, c, i) == None || LastTold(calls, c, i) == Some(value)
    ensures LastTold(calls, c, i) == None <==> forall k :: 0 <= k < |calls| && calls[k].to == c ==> i !in calls[k].items
  {
    if calls != [] {
      var n := |calls| - 1;
      assert forall k :: 0 <= k < n ==> calls[..n][k] == calls[k];
      LastToldIs(calls[..n], c, i, value);
    }
  }

  /** A first response tells its client what is cached of the items, and nobody else anything. */
  lemma SentTells(cache: map<Item, int>, items: set<Item>, to: Client, c: Client, i: Item)
    ensures LastTold(Sent(cache, items, to), c, i)
      == if c == to && to != NULL && i in items && i in cache then Some(cache[i]) else None
  {
    var sent, cached := Sent(cache, items, to), CachedItems(cache, items);
    assert i in cached <==> i in items && i in cache;
    if sent != [] {
      assert sent[..0] == [];
    }
  }

  /** A batch leaves its clients informed: those that subscribe to a changed item are told its value. */
  lemma NotifyInforms(o: Observer, r: Request, made: seq<Delivery>, calls: seq<Delivery>)
    requires Inverse(o) && NoNullClient(o) && Informed(o, made) && r.Notified? && Calls(o, r, calls)
    ensures Informed(Serve(o, r), made + calls)
  {
    var u, changed := Serve(o, r), Changed(o.cache, r.reports);
    hide Changed, Cached, Delivered, Called, SubscribesToAny, ServedAny;
    ExactDelivery(o, r.reports, calls);
    CompleteDelivery(o, r.reports, calls);
    ChangedIsExact(o.cache, r.reports);
    forall c, i | Has(u, c, i) && i in u.cache ensures LastTold(made + calls, c, i) == Some(u.cache[i]) {
      assert Has(o, c, i);
      LastToldAppend(made, calls, c, i);
      LastToldIs(calls, c, i, u.cache[i]);
      if i in changed {
        CalledFor(o, calls, changed, c, i);
      }
    }
  }

  lemma CalledFor(o: Observer, calls: seq<Delivery>, changed: set<Item>, c: Client, i: Item)
    requires forall c :: SubscribesToAny(o, c, changed) ==> Called(calls, c)
    requires forall k :: 0 <= k < |calls| ==> calls[k].items.Keys == ValSet(o.clientToItems, calls[k].to) * changed
    requires Has(o, c, i) && i in changed
    ensures exists k :: 0 <= k < |calls| && calls[k].to == c && i in calls[k].items
  {
    assert SubscribesToAny(o, c, changed);
    var k :| 0 <= k < |calls| && calls[k].to == c;
    assert i in calls[k].items.Keys;
  }

  /** So does every other request, unless it updates a client that has items. */
  lemma RequestInforms(o: Observer, r: Request, made: seq<Delivery>, calls: seq<Delivery>)
    requires Informed(o, made) && !r.Notified? && !Breaks(o, r) && Calls(o, r, calls)
    ensures Informed(Serve(o, r), made + calls)
  {
    hide Sent, Subscribe, UpdateSubscription, Unsubscribe, UnsubscribeAll, SetSubscriptionObj;
    var u := Serve(o, r);
    SameCache(o, r);
    forall c, i | Has(u, c, i) && i in u.cache ensures LastTold(made + calls, c, i) == Some(u.cache[i]) {
      LastToldAppend(made, calls, c, i);
      match r
      case SubscribeTo(items, client, requestData) =>
        SentTells(o.cache, items, client, c, i);
        if items != {} && client != NULL {
          SubscribeAt(o, items, client, requestData, c, i);
        } else {
          SameTables(o, r);
        }
      case UpdateTo(items, client) =>
        SentTells(o.cache, items - ValSet(o.clientToItems, client), client, c, i);
        if items != {} && client != NULL {
          UpdateAt(o, items, client, c, i);
        } else {
          SameTables(o, r);
        }
      case UnsubscribeFrom(items, client) =>
        if items != {} && client != NULL {
          UnsubscribeAt(o, items, client, c, i);
        } else {
          SameTables(o, r);
        }
      case UnsubscribeFromAll(client) =>
        if client != NULL {
          UnsubscribeAllAt(o, client, c, i);
        } else {
          SameTables(o, r);
        }
      case SetSubscription(_) => SameTables(o, r);
    }
  }

  lemma SameCache(o: Observer, r: Request)
    requires !r.Notified?
    ensures Serve(o, r).cache == o.cache
  {
    hide Added, Trimmed, NewKeys, GoneKeys, GoneVals;
  }

  lemma SameTables(o: Observer, r: Request)
    requires r.SetSubscription? || (!r.Notified? && (r.client == NULL || (!r.UnsubscribeFromAll? && r.items == {})))
    ensures Serve(o, r).clientToItems == o.clientToItems
  {
  }

  /**
   In every run in which no client that has items is updated, what a client was last told for an item it subscribes to
   is the item's cached value, whatever the order of subscriptions, batches and cancellations.
   */
  lemma {:induction false} ClientsAreInformed(rs: seq<Request>, made: seq<seq<Delivery>>)
    requires forall k :: 0 <= k < |rs| ==> !Breaks(ServeAll(EMPTY, rs[..k]), rs[k])
    requires CallsOf(rs, made)
    ensures Informed(ServeAll(EMPTY, rs), Flat(made))
  {
    hide Serve, Breaks, Informed, Calls, Inverse;
    if rs == [] {
      NothingToKnow();
    } else {
      var n := |rs| - 1;
      var o := ServeAll(EMPTY, rs[..n]);
      forall k | 0 <= k < n
        ensures !Breaks(ServeAll(EMPTY, rs[..n][..k]), rs[..n][k]) && Calls(ServeAll(EMPTY, rs[..n][..k]), rs[..n][k], made[..n][k])
      {
        assert rs[..n][..k] == rs[..k];
        assert Calls(ServeAll(EMPTY, rs[..k]), rs[k], made[k]);
      }
      ClientsAreInformed(rs[..n], made[..n]);
      assert Calls(o, rs[n], made[n]) && !Breaks(o, rs[n]);
      if rs[n].Notified? {
        TablesStayInverse(rs[..n]);
        NeverANullClient(rs[..n]);
        NotifyInforms(o, rs[n], Flat(made[..n]), made[n]);
      } else {
        RequestInforms(o, rs[n], Flat(made[..n]), made[n]);
      }
    }
  }

  lemma NothingToKnow()
    ensures Informed(EMPTY, [])
  {
  }
}
