/** The OS observer as an object over two SetMaps: one method for each message, tied to SubscriptionIndex. */
module SystemStatusOsObserver {
  import opened LocUnorderedSetMap
  import opened SubscriptionIndex

  class SystemStatusOsObserver {
    const mClientToDataItems: SetMap<Client, Item>
    const mDataItemToClients: SetMap<Item, Client>
    var mDataItemCache: map<Item, int>
    /** Whether a subscription object is set, and what it has been told to subscribe to. */
    var mSubscriptionObj: bool
    var mTold: set<Item>
    /** What the last message sent, by client. */
    var mSent: map<Client, map<Item, int>>

    ghost predicate Valid() {
      mClientToDataItems as object != mDataItemToClients as object
      && mClientToDataItems as object != this && mDataItemToClients as object != this
    }

    ghost function View(): Index
      reads this, mClientToDataItems, mDataItemToClients
    {
      Index(mClientToDataItems.mMap, mDataItemToClients.mMap, mSubscriptionObj, mTold, mDataItemCache, mSent)
    }

    constructor ()
      ensures Valid() && View() == Empty()
    {
      mClientToDataItems := new SetMap();
      mDataItemToClients := new SetMap();
      mDataItemCache, mSubscriptionObj, mTold, mSent := map[], false, {}, map[];
    }

    method SetSubscriptionObj()
      requires Valid()
      modifies this
      ensures View() == Step(AsCoded, old(View()), Message.SetSubscriptionObj)
    {
      mSubscriptionObj, mTold, mSent := true, {}, map[];
      if mDataItemToClients.mMap != map[] {
        mTold := mDataItemToClients.mMap.Keys;
      }
    }

    /** Sends a client the cached ones of some items, if there are any. */
    method SendCachedDataItems(s: set<Item>, to: Client)
      requires Valid()
      modifies `mSent
      ensures mSent == Merge(old(mSent), Delivery(to, Cached(mDataItemCache, s)))
    {
      var dataItems: map<Item, int> := map[];
      var rest := s;
      while rest != {}
        invariant rest <= s
        invariant dataItems == Cached(mDataItemCache, s - rest)
        decreases |rest|
      {
        var each :| each in rest;
        if each in mDataItemCache {
          dataItems := dataItems[each := mDataItemCache[each]];
        }
        rest := rest - {each};
      }
      assert s - rest == s;
      if dataItems != map[] {
        mSent := mSent[to := dataItems];
      }
    }

    method Subscribe(items: set<Item>, client: Client, toRequestData: bool)
      requires Valid()
      modifies this, mClientToDataItems, mDataItemToClients
      ensures View() == Step(AsCoded, old(View()),
                             if toRequestData then RequestData(items, client) else Message.Subscribe(items, client))
    {
      mSent := map[];
      if items == {} || client == NO_CLIENT {
        return;
      }
      var dataItemsToSubscribe := mDataItemToClients.Add(items, {client});
      var _ := mClientToDataItems.AddTo(client, items);
      SendCachedDataItems(items, client);
      if mSubscriptionObj && !toRequestData {
        mTold := mTold + dataItemsToSubscribe;
      }
    }

    method UpdateSubscription(items: set<Item>, client: Client)
      requires Valid()
      modifies this, mClientToDataItems, mDataItemToClients
      ensures View() == Step(AsCoded, old(View()), Update(items, client))
    {
      hide Trimmed, Added, Emptied, NewKeys, Cached, Delivery, Lost;
      mSent := map[];
      if items == {} || client == NO_CLIENT {
        return;
      }
      var gone, rest := mClientToDataItems.Update(client, items);
      var dataItemsToUnsubscribe, _ := mDataItemToClients.TrimOrRemove(gone, {client});
      var dataItemsToSubscribe := mDataItemToClients.Add(rest, {client});
      SendCachedDataItems(rest, client);
      if mSubscriptionObj {
        mTold := mTold + dataItemsToSubscribe;
        mTold := mTold - dataItemsToUnsubscribe;
      }
    }

    method Unsubscribe(items: set<Item>, client: Client)
      requires Valid()
      modifies this, mClientToDataItems, mDataItemToClients
      ensures View() == Step(AsCoded, old(View()), Message.Unsubscribe(items, client))
    {
      hide Trimmed, Emptied, Lost;
      mSent := map[];
      if items == {} || client == NO_CLIENT {
        return;
      }
      var _, unused := mClientToDataItems.TrimOrRemove({client}, items);
      var dataItemsToUnsubscribe, _ := mDataItemToClients.TrimOrRemove(unused, {client});
      if mSubscriptionObj {
        mTold := mTold - dataItemsToUnsubscribe;
      }
    }

    method UnsubscribeAll(client: Client)
      requires Valid()
      modifies this, mClientToDataItems, mDataItemToClients
      ensures View() == Step(AsCoded, old(View()), Message.UnsubscribeAll(client))
    {
      hide Trimmed, Emptied, Lost;
      mSent := map[];
      if client == NO_CLIENT {
        return;
      }
      var diByClient := Vals(mClientToDataItems.mMap, client);
      if diByClient != {} {
        var _ := mClientToDataItems.Remove(client);
        var dataItemsToUnsubscribe, _ := mDataItemToClients.TrimOrRemove(diByClient, {client});
        if mSubscriptionObj {
          mTold := mTold - dataItemsToUnsubscribe;
        }
      }
    }

    /** Records a data item; true if it is new or changed. */
    method UpdateCache(d: Datum) returns (dataItemUpdated: bool)
      modifies `mDataItemCache
      ensures dataItemUpdated <==> d.taken && (d.id !in old(mDataItemCache) || old(mDataItemCache)[d.id] != d.value)
      ensures mDataItemCache == if dataItemUpdated then old(mDataItemCache)[d.id := d.value] else old(mDataItemCache)
    {
      dataItemUpdated := false;
      if d.taken {
        if d.id !in mDataItemCache || mDataItemCache[d.id] != d.value {
          mDataItemCache := mDataItemCache[d.id := d.value];
          dataItemUpdated := true;
        }
      }
    }

    method Notify(data: seq<Datum>)
      requires Valid()
      modifies this
      ensures View() == Step(AsCoded, old(View()), Message.Notify(data))
    {
      mSent := map[];
      if data == [] {
        return;
      }
      ghost var cache := mDataItemCache;
      var toBeSent: set<Item> := {};
      for k := 0 to |data|
        invariant mSent == map[] && mTold == old(mTold) && mSubscriptionObj == old(mSubscriptionObj)
        invariant (mDataItemCache, toBeSent) == Refresh(cache, data[..k])
      {
        assert data[..k + 1][..k] == data[..k];
        var updated := UpdateCache(data[k]);
        if updated {
          toBeSent := toBeSent + {data[k].id};
        }
      }
      assert data[..|data|] == data;
      var clients := ClientsOf(toBeSent);
      SendToClients(toBeSent, clients);
    }

    method ClientsOf(items: set<Item>) returns (clients: set<Client>)
      ensures clients == set i, c | i in items && c in Vals(mDataItemToClients.mMap, i) :: c
    {
      clients := {};
      var rest := items;
      while rest != {}
        invariant rest <= items
        invariant forall c :: c in clients <==>
          exists i :: i in items && i !in rest && c in Vals(mDataItemToClients.mMap, i)
        decreases |rest|
      {
        var each :| each in rest;
        clients := clients + Vals(mDataItemToClients.mMap, each);
        rest := rest - {each};
      }
    }

    /** Sends each client its own items among the updated ones. */
    method SendToClients(toBeSent: set<Item>, clients: set<Client>)
      requires Valid() && mSent == map[]
      modifies `mSent
      ensures mSent == BroadcastTo(mClientToDataItems.mMap, mDataItemCache, toBeSent, clients)
    {
      ghost var c2d := mClientToDataItems.mMap;
      assert BroadcastTo(c2d, mDataItemCache, toBeSent, {}) == map[];
      hide *;
      var rest := clients;
      ghost var done: set<Client> := {};
      while rest != {}
        invariant done + rest == clients && done !! rest
        invariant mSent == BroadcastTo(c2d, mDataItemCache, toBeSent, done)
        decreases |rest|
      {
        var client :| client in rest;
        BroadcastStep(c2d, mDataItemCache, toBeSent, done, client);
        var forThisClient := TrimTo(Vals(mClientToDataItems.mMap, client), toBeSent);
        SendCachedDataItems(forThisClient, client);
        rest, done := rest - {client}, done + {client};
      }
      assert done == clients;
    }
  }

  function Merge(sent: map<Client, map<Item, int>>, more: map<Client, map<Item, int>>): map<Client, map<Item, int>> {
    sent + more
  }

  ghost function BroadcastTo(c2d: map<Client, set<Item>>, cache: map<Item, int>, ids: set<Item>, clients: set<Client>)
    : map<Client, map<Item, int>>
  {
    map c | c in clients && Cached(cache, Vals(c2d, c) * ids) != map[] :: Cached(cache, Vals(c2d, c) * ids)
  }

  lemma BroadcastStep(c2d: map<Client, set<Item>>, cache: map<Item, int>, ids: set<Item>, done: set<Client>, c: Client)
    requires c !in done
    ensures BroadcastTo(c2d, cache, ids, done + {c})
         == Merge(BroadcastTo(c2d, cache, ids, done), Delivery(c, Cached(cache, Vals(c2d, c) * ids)))
  {
    hide Cached, Vals;
  }

  /** The items that are also in another set, by erasing the others. */
  method TrimTo(items: set<Item>, keep: set<Item>) returns (kept: set<Item>)
    ensures kept == items * keep
  {
    kept := items;
    var rest := items;
    while rest != {}
      invariant rest <= items
      invariant forall i :: i in kept <==> i in items && (i in keep || i in rest)
      decreases |rest|
    {
      var each :| each in rest;
      if each !in keep {
        kept := kept - {each};
      }
      rest := rest - {each};
    }
  }
}
