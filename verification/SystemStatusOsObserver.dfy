/**
 The observer's message handlers over two `LocUnorderedSetMap` tables, proved to follow the
 functions of `ObserverModel`.  Set-valued loops visit their elements in no particular order.
 */
module OsObserver {
  import opened Common
  import opened SetMap
  import opened ObserverModel

  lemma CalledAfter(calls: seq<Delivery>, sent: seq<Delivery>)
    ensures forall c :: Called(calls, c) ==> Called(calls + sent, c)
    ensures sent != [] ==> Called(calls + sent, sent[0].to)
  {
    forall c | Called(calls, c) ensures Called(calls + sent, c) {
      var k :| 0 <= k < |calls| && calls[k].to == c;
      assert (calls + sent)[k].to == c;
    }
    if sent != [] {
      assert (calls + sent)[|calls|] == sent[0];
    }
  }

  class SystemStatusOsObserver {
    const mClientToDataItems: LocUnorderedSetMap<Client, Item>
    const mDataItemToClients: LocUnorderedSetMap<Item, Client>
    var mDataItemCache: map<Item, int>
    var mSubscriptionObj: Option<int>
    ghost var told: map<int, set<Item>>  // the subscribe and unsubscribe calls made, for each object
    ghost var asked: seq<DataRequest>    // the data requests made

    ghost predicate Valid()
    {
      mClientToDataItems != mDataItemToClients
    }

    ghost function Model(): Observer
      reads this, mClientToDataItems, mDataItemToClients
    {
      Observer(mClientToDataItems.mMap, mDataItemToClients.mMap, mDataItemCache, mSubscriptionObj, told, asked)
    }

    constructor ()
      ensures Valid() && Model() == EMPTY
      ensures fresh(mClientToDataItems) && fresh(mDataItemToClients)
    {
      mClientToDataItems := new LocUnorderedSetMap();
      mDataItemToClients := new LocUnorderedSetMap();
      mDataItemCache, mSubscriptionObj, told, asked := map[], None, map[], [];
    }

    /** The subscription object's own calls: what they say is kept in its ledger. */
    ghost method TellFramework(subscribe: set<Item>, unsubscribe: set<Item>)
      modifies this`told
      ensures Model() == Tell(old(Model()), subscribe, unsubscribe)
    {
      if mSubscriptionObj.Some? && (subscribe != {} || unsubscribe != {}) {
        told := told[mSubscriptionObj.value := ValSet(told, mSubscriptionObj.value) + subscribe - unsubscribe];
      }
    }

    ghost method RequestData(items: set<Item>)
      modifies this`asked
      ensures Model() == AskData(old(Model()), items)
    {
      if mSubscriptionObj.Some? {
        asked := asked + [DataRequest(mSubscriptionObj.value, items)];
      }
    }

    method HandleSetSubscriptionObj(obj: int)
      modifies this`mSubscriptionObj, this`told, this`asked
      ensures Model() == SetSubscriptionObj(old(Model()), obj)
    {
      mSubscriptionObj := Some(obj);
      if mDataItemToClients.mMap != map[] {
        TellFramework(mDataItemToClients.mMap.Keys, {});
        RequestData(mDataItemToClients.mMap.Keys);
      }
    }

    method SendCachedDataItems(items: set<Item>, to: Client) returns (sent: seq<Delivery>)
      ensures sent == Sent(mDataItemCache, items, to)
    {
      sent := [];
      if to != NULL {
        var dataItems, todo := map[], items;
        while todo != {}
          invariant todo <= items
          invariant dataItems == CachedItems(mDataItemCache, items - todo)
        {
          var each := Pick(todo);
          assert items - (todo - {each}) == (items - todo) + {each};
          if each in mDataItemCache {
            dataItems := dataItems[each := mDataItemCache[each]];
          }
          todo := todo - {each};
        }
        assert items - todo == items;
        if dataItems != map[] {
          sent := [Delivery(to, dataItems)];
        }
      }
    }

    method HandleSubscribe(l: set<Item>, client: Client, toRequestData: bool) returns (sent: seq<Delivery>)
      requires Valid()
      modifies this`told, this`asked, mClientToDataItems, mDataItemToClients
      ensures Model() == Subscribe(old(Model()), l, client, toRequestData)
      ensures sent == FirstResponse(old(Model()), SubscribeTo(l, client, toRequestData))
    {
      hide Added, NewKeys;
      sent := [];
      if l != {} && client != NULL {
        var dataItemsToSubscribe := mDataItemToClients.Add(l, {client});
        var _ := mClientToDataItems.AddOne(client, l);
        sent := SendCachedDataItems(l, client);
        if toRequestData {
          RequestData(l);
        } else if dataItemsToSubscribe != {} {
          TellFramework(dataItemsToSubscribe, {});
        }
      }
    }

    method HandleUpdateSubscription(l: set<Item>, client: Client) returns (sent: seq<Delivery>)
      requires Valid()
      modifies this`told, mClientToDataItems, mDataItemToClients
      ensures Model() == UpdateSubscription(old(Model()), l, client)
      ensures sent == FirstResponse(old(Model()), UpdateTo(l, client))
    {
      hide Added, NewKeys, Trimmed, GoneKeys, GoneVals, Updated;
      sent := [];
      if l != {} && client != NULL {
        var unused, dataItemSet := mClientToDataItems.Update(client, l);
        var dataItemsToUnsubscribe, _ := mDataItemToClients.TrimOrRemove(unused, {client});
        var dataItemsToSubscribe := mDataItemToClients.Add(dataItemSet, {client});
        sent := SendCachedDataItems(dataItemSet, client);
        TellFramework(dataItemsToSubscribe, dataItemsToUnsubscribe);  // first the one call, then the other
      }
    }

    method HandleUnsubscribe(l: set<Item>, client: Client)
      requires Valid()
      modifies this`told, mClientToDataItems, mDataItemToClients
      ensures Model() == Unsubscribe(old(Model()), l, client)
    {
      hide Trimmed, GoneKeys, GoneVals;
      if l != {} && client != NULL {
        var _, dataItemsUnusedByClient := mClientToDataItems.TrimOrRemove({client}, l);
        var dataItemsToUnsubscribe, _ := mDataItemToClients.TrimOrRemove(dataItemsUnusedByClient, {client});
        TellFramework({}, dataItemsToUnsubscribe);
      }
    }

    method HandleUnsubscribeAll(client: Client)
      requires Valid()
      modifies this`told, mClientToDataItems, mDataItemToClients
      ensures Model() == UnsubscribeAll(old(Model()), client)
    {
      hide Trimmed, GoneKeys, GoneVals;
      if client != NULL {
        var diByClient := mClientToDataItems.GetValSet(client);
        if diByClient != {} {
          mClientToDataItems.Remove(client);
          var dataItemsToUnsubscribe, _ := mDataItemToClients.TrimOrRemove(diByClient, {client});
          TellFramework({}, dataItemsToUnsubscribe);
        }
      }
    }

    /** `accepted` is the system status's answer; a missing data item changes nothing. */
    method UpdateCache(d: Option<Report>) returns (updated: bool)
      modifies this`mDataItemCache
      ensures updated == (d.Some? && Changes(old(mDataItemCache), d.value))
      ensures mDataItemCache == if updated then old(mDataItemCache)[d.value.id := d.value.value] else old(mDataItemCache)
    {
      updated := false;
      if d.Some? && d.value.accepted {
        if d.value.id !in mDataItemCache || mDataItemCache[d.value.id] != d.value.value {
          mDataItemCache := mDataItemCache[d.value.id := d.value.value];
          updated := true;
        }
      }
    }

    /**
     The batch handler.  The copies of the batch stand behind as many null pointers as it has
     items, which `updateCache` passes over.
     */
    method HandleNotify(dlist: seq<Report>) returns (calls: seq<Delivery>)
      requires Valid()
      modifies this`mDataItemCache
      ensures Model() == old(Model()).(cache := Cached(old(mDataItemCache), dlist))
      ensures Delivered(Model(), Changed(old(mDataItemCache), dlist), calls)
    {
      hide Sent, UnionOf, Changed, Cached;
      var dataItemIdsToBeSent := UpdateAll(dlist);
      var clientSet := ClientsOf(dataItemIdsToBeSent);
      calls := DeliverAll(clientSet, dataItemIdsToBeSent);
    }

    method DeliverAll(clientSet: set<Client>, ids: set<Item>) returns (calls: seq<Delivery>)
      ensures forall j, k :: 0 <= j < k < |calls| ==> calls[j].to != calls[k].to
      ensures forall k :: 0 <= k < |calls| ==> calls[k].to in clientSet && [calls[k]] == Share(calls[k].to, ids)
      ensures forall c :: c in clientSet && Share(c, ids) != [] ==> Called(calls, c)
    {
      hide Share, Called;
      calls := [];
      var todo := clientSet;
      while todo != {}
        invariant todo <= clientSet
        invariant forall j, k :: 0 <= j < k < |calls| ==> calls[j].to != calls[k].to
        invariant forall k :: 0 <= k < |calls| ==> calls[k].to in clientSet - todo && [calls[k]] == Share(calls[k].to, ids)
        invariant forall c :: c in clientSet - todo && Share(c, ids) != [] ==> Called(calls, c)
      {
        var client := Pick(todo);
        var sent := SendShare(client, ids);
        CalledAfter(calls, sent);
        calls := calls + sent;
        todo := todo - {client};
      }
      assert clientSet - todo == clientSet;
    }

    method SendShare(client: Client, ids: set<Item>) returns (sent: seq<Delivery>)
      ensures sent == Share(client, ids)
      ensures sent == [] || (|sent| == 1 && sent[0].to == client)
    {
      var dataItemIdsForThisClient := mClientToDataItems.GetValSet(client);
      sent := SendCachedDataItems(dataItemIdsForThisClient * ids, client);
    }

    ghost function Share(c: Client, items: set<Item>): seq<Delivery>
      reads this, mClientToDataItems
    {
      Sent(mDataItemCache, ValSet(mClientToDataItems.mMap, c) * items, c)
    }

    method UpdateAll(dlist: seq<Report>) returns (ids: set<Item>)
      modifies this`mDataItemCache
      ensures mDataItemCache == Cached(old(mDataItemCache), dlist) && ids == Changed(old(mDataItemCache), dlist)
    {
      var n := |dlist|;
      var dataItemVec := seq(n, _ => None) + seq(n, i requires 0 <= i < n => Some(dlist[i]));
      ids := {};
      for i := 0 to |dataItemVec|
        invariant i <= n ==> mDataItemCache == old(mDataItemCache) && ids == {}
        invariant i >= n ==> mDataItemCache == Cached(old(mDataItemCache), dlist[..i - n]) && ids == Changed(old(mDataItemCache), dlist[..i - n])
      {
        var updated := UpdateCache(dataItemVec[i]);
        if updated {
          ids := ids + {dlist[i - n].id};
        }
        if i >= n {
          assert dlist[..i + 1 - n][..i - n] == dlist[..i - n];
        }
      }
      assert dlist[..n] == dlist;
    }

    method ClientsOf(items: set<Item>) returns (clientSet: set<Client>)
      ensures clientSet == Reached(Model(), items)
    {
      clientSet := {};
      var todo := items;
      while todo != {}
        invariant todo <= items
        invariant clientSet == Reached(Model(), items - todo)
      {
        var each := Pick(todo);
        assert items - (todo - {each}) == (items - todo) + {each};
        UnionOfOneMore(mDataItemToClients.mMap, items - todo, each);
        var clients := mDataItemToClients.GetValSet(each);
        clientSet := clientSet + clients;
        todo := todo - {each};
      }
      assert items - todo == items;
    }
  }
}
