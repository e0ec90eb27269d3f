/**
 The data-item observer as functions on values: two subscription tables, a cache of data items,
 and what the framework has been told to report.
 */
module ObserverModel {
  import opened Common
  import opened SetMap

  type Client = int
  type Item = int

  const NULL: Client := 0

  /** What a `notify` batch brings for one item; the flags are the answers of other components. */
  datatype Report = Report(id: Item, value: int, accepted: bool)

  /** A `requestData` call on a subscription object. */
  datatype DataRequest = DataRequest(obj: int, items: set<Item>)

  /**
   `told` is the ledger of each subscription object: the items it was asked to report and not to stop.
   `asked` lists the data requests made, in order.
   */
  datatype Observer = Observer(
    clientToItems: map<Client, set<Item>>,
    itemToClients: map<Item, set<Client>>,
    cache: map<Item, int>,
    subscription: Option<int>,
    told: map<int, set<Item>>,
    asked: seq<DataRequest>)

  const EMPTY := Observer(map[], map[], map[], None, map[], [])

  function Ledger(o: Observer, obj: int): set<Item>
  {
    ValSet(o.told, obj)
  }

  /** Subscribe and unsubscribe calls on the current subscription object, if there is one and a list is not empty. */
  function Tell(o: Observer, subscribe: set<Item>, unsubscribe: set<Item>): Observer
  {
    if o.subscription.None? || (subscribe == {} && unsubscribe == {}) then o
    else o.(told := o.told[o.subscription.value := Ledger(o, o.subscription.value) + subscribe - unsubscribe])
  }

  function AskData(o: Observer, items: set<Item>): Observer
  {
    if o.subscription.None? then o else o.(asked := o.asked + [DataRequest(o.subscription.value, items)])
  }

  function SetSubscriptionObj(o: Observer, obj: int): Observer
  {
    var renewed := Tell(o.(subscription := Some(obj)), o.itemToClients.Keys, {});
    if o.itemToClients.Keys == {} then renewed else AskData(renewed, o.itemToClients.Keys)
  }

  function Subscribe(o: Observer, items: set<Item>, client: Client, requestData: bool): Observer
  {
    if items == {} || client == NULL then o
    else
      var renewed := o.(itemToClients := Added(o.itemToClients, items, {client}),
                        clientToItems := Added(o.clientToItems, {client}, items));
      if requestData then AskData(renewed, items) else Tell(renewed, NewKeys(o.itemToClients, items, {client}), {})
  }

  function UpdateSubscription(o: Observer, items: set<Item>, client: Client): Observer
  {
    if items == {} || client == NULL then o
    else
      var had := ValSet(o.clientToItems, client);
      var gone, left := had * items, items - had;
      var trimmed := Trimmed(o.itemToClients, gone, {client});
      var renewed := o.(clientToItems := Updated(o.clientToItems, client, items),
                        itemToClients := Added(trimmed, left, {client}));
      Tell(renewed, NewKeys(trimmed, left, {client}), GoneKeys(o.itemToClients, gone, {client}))
  }

  function Unsubscribe(o: Observer, items: set<Item>, client: Client): Observer
  {
    if items == {} || client == NULL then o
    else
      var unused := GoneVals(o.clientToItems, {client}, items);
      Tell(o.(clientToItems := Trimmed(o.clientToItems, {client}, items),
              itemToClients := Trimmed(o.itemToClients, unused, {client})),
           {}, GoneKeys(o.itemToClients, unused, {client}))
  }

  function UnsubscribeAll(o: Observer, client: Client): Observer
  {
    var had := ValSet(o.clientToItems, client);
    if client == NULL || had == {} then o
    else
      Tell(o.(clientToItems := o.clientToItems - {client}, itemToClients := Trimmed(o.itemToClients, had, {client})),
           {}, GoneKeys(o.itemToClients, had, {client}))
  }

  // ---------------------------------------------------------------- notify

  /** An item changes the cache if the system status takes it and it is new or different. */
  predicate Changes(cache: map<Item, int>, r: Report)
  {
    r.accepted && (r.id in cache ==> cache[r.id] != r.value)
  }

  function Cached(cache: map<Item, int>, rs: seq<Report>): map<Item, int>
  {
    if rs == [] then cache
    else
      var c, r := Cached(cache, rs[..|rs| - 1]), rs[|rs| - 1];
      if Changes(c, r) then c[r.id := r.value] else c
  }

  function Changed(cache: map<Item, int>, rs: seq<Report>): set<Item>
  {
    if rs == [] then {}
    else
      var c, r := Cached(cache, rs[..|rs| - 1]), rs[|rs| - 1];
      Changed(cache, rs[..|rs| - 1]) + if Changes(c, r) then {r.id} else {}
  }

  /** A call of one client's `notify`, with the items and the values it hands over. */
  datatype Delivery = Delivery(to: Client, items: map<Item, int>)

  function CachedItems(cache: map<Item, int>, items: set<Item>): map<Item, int>
  {
    Restricted(cache, items)
  }

  /** `sendCachedDataItems`: one call with what is cached of the items, or none. */
  function Sent(cache: map<Item, int>, items: set<Item>, to: Client): seq<Delivery>
  {
    var cached := CachedItems(cache, items);
    if to == NULL || cached == map[] then [] else [Delivery(to, cached)]
  }

  /** The clients the item table lists for any of the items. */
  ghost function Reached(o: Observer, items: set<Item>): set<Client>
  {
    UnionOf(o.itemToClients, items)
  }

  /** Some call goes to the client. */
  ghost predicate Called(calls: seq<Delivery>, c: Client)
  {
    exists k :: 0 <= k < |calls| && calls[k].to == c
  }

  /** What one batch delivers: the reached clients, each with its share of the changed items. */
  ghost predicate Delivered(o: Observer, changed: set<Item>, calls: seq<Delivery>)
  {
    && (forall j, k :: 0 <= j < k < |calls| ==> calls[j].to != calls[k].to)
    && (forall k :: 0 <= k < |calls| ==>
          && calls[k].to in Reached(o, changed)
          && [calls[k]] == Sent(o.cache, ValSet(o.clientToItems, calls[k].to) * changed, calls[k].to))
    && (forall c :: c in Reached(o, changed) && Sent(o.cache, ValSet(o.clientToItems, c) * changed, c) != [] ==> Called(calls, c))
  }

  // ---------------------------------------------------------------- runs

  datatype Request =
    | SetSubscription(obj: int)
    | SubscribeTo(items: set<Item>, client: Client, requestData: bool)
    | UpdateTo(items: set<Item>, client: Client)
    | UnsubscribeFrom(items: set<Item>, client: Client)
    | UnsubscribeFromAll(client: Client)
    | Notified(reports: seq<Report>)

  function Serve(o: Observer, r: Request): Observer
  {
    match r
    case SetSubscription(obj) => SetSubscriptionObj(o, obj)
    case SubscribeTo(items, client, requestData) => Subscribe(o, items, client, requestData)
    case UpdateTo(items, client) => UpdateSubscription(o, items, client)
    case UnsubscribeFrom(items, client) => Unsubscribe(o, items, client)
    case UnsubscribeFromAll(client) => UnsubscribeAll(o, client)
    case Notified(reports) => o.(cache := Cached(o.cache, reports))
  }

  function ServeAll(o: Observer, rs: seq<Request>): Observer
  {
    if rs == [] then o else Serve(ServeAll(o, rs[..|rs| - 1]), rs[|rs| - 1])
  }

  /** What the client of a request is sent at once: what is cached of the items it newly asks for. */
  function FirstResponse(o: Observer, r: Request): seq<Delivery>
  {
    match r
    case SubscribeTo(items, client, _) => if items == {} then [] else Sent(o.cache, items, client)
    case UpdateTo(items, client) => if items == {} then [] else Sent(o.cache, items - ValSet(o.clientToItems, client), client)
    case _ => []
  }
}
