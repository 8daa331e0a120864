/** The subscription index of the OS observer: client to items, item to clients, and what the framework was told. */
module SubscriptionIndex {
  import opened LocUnorderedSetMap

  type Client = nat
  type Item = nat
  const NO_CLIENT: Client := 0

  /** One data item of a notification; `taken` says whether SystemStatus records it. */
  datatype Datum = Datum(id: Item, value: int, taken: bool)

  datatype Message =
    | Subscribe(items: set<Item>, client: Client)
    | RequestData(items: set<Item>, client: Client)
    | Update(items: set<Item>, client: Client)
    | Unsubscribe(items: set<Item>, client: Client)
    | UnsubscribeAll(client: Client)
    | SetSubscriptionObj
    | Notify(data: seq<Datum>)

  /** What the map's update hands back: in the code the values it keeps, by the comments those it drops. */
  datatype Reading = AsCoded | AsDescribed

  datatype Index = Index(
    c2d: map<Client, set<Item>>, d2c: map<Item, set<Client>>,
    hasObj: bool, told: set<Item>,
    cache: map<Item, int>, sent: map<Client, map<Item, int>>)

  function Empty(): Index {
    Index(map[], map[], false, {}, map[], map[])
  }

  /** The cached values of some items, as one delivery to a client; nothing is sent when there are none. */
  function Cached(cache: map<Item, int>, items: set<Item>): map<Item, int> {
    map i | i in items && i in cache :: cache[i]
  }

  function Delivery(client: Client, payload: map<Item, int>): map<Client, map<Item, int>> {
    if payload == map[] then map[] else map[client := payload]
  }

  // ---------- messages ----------

  function OnSubscribe(x: Index, items: set<Item>, c: Client, requestData: bool): Index {
    var newItems := NewKeys(x.d2c, items, {c});
    x.(c2d := Added(x.c2d, {c}, items), d2c := Added(x.d2c, items, {c}),
       told := if x.hasObj && !requestData then x.told + newItems else x.told,
       sent := Delivery(c, Cached(x.cache, items)))
  }

  function OnUpdate(r: Reading, x: Index, items: set<Item>, c: Client): Index {
    var cur := Vals(x.c2d, c);
    var gone := if r == AsCoded then cur * items else cur - items;
    var rest := items - cur;
    var trimmed := Trimmed(x.d2c, gone, {c});
    x.(c2d := x.c2d[c := items], d2c := Added(trimmed, rest, {c}),
       told := if x.hasObj then x.told + NewKeys(trimmed, rest, {c}) - Emptied(x.d2c, gone, {c}) else x.told,
       sent := Delivery(c, Cached(x.cache, rest)))
  }

  function OnUnsubscribe(x: Index, items: set<Item>, c: Client): Index {
    var unused := Lost(x.c2d, {c}, items);
    x.(c2d := Trimmed(x.c2d, {c}, items), d2c := Trimmed(x.d2c, unused, {c}),
       told := if x.hasObj then x.told - Emptied(x.d2c, unused, {c}) else x.told, sent := map[])
  }

  function OnUnsubscribeAll(x: Index, c: Client): Index {
    var all := Vals(x.c2d, c);
    if all == {} then x.(sent := map[]) else
    x.(c2d := x.c2d - {c}, d2c := Trimmed(x.d2c, all, {c}),
       told := if x.hasObj then x.told - Emptied(x.d2c, all, {c}) else x.told, sent := map[])
  }

  /** A data item enters the cache when SystemStatus takes it and it is new or changed. */
  function Refresh(cache: map<Item, int>, data: seq<Datum>): (r: (map<Item, int>, set<Item>))
    ensures r.1 <= r.0.Keys && r.0.Keys == cache.Keys + r.1
    ensures forall i :: i in cache && i !in r.1 ==> r.0[i] == cache[i]
  {
    if data == [] then (cache, {}) else
    var (now, ids) := Refresh(cache, data[..|data| - 1]);
    var d := data[|data| - 1];
    if d.taken && (d.id !in now || now[d.id] != d.value) then (now[d.id := d.value], ids + {d.id}) else (now, ids)
  }

  /** Each client listed for an updated item gets its items among the updated ones. */
  function Broadcast(x: Index, ids: set<Item>): map<Client, map<Item, int>> {
    var clients := set i, c | i in ids && c in Vals(x.d2c, i) :: c;
    map c | c in clients && Cached(x.cache, Vals(x.c2d, c) * ids) != map[] :: Cached(x.cache, Vals(x.c2d, c) * ids)
  }

  function OnNotify(x: Index, data: seq<Datum>): Index {
    var (cache, ids) := Refresh(x.cache, data);
    var x' := x.(cache := cache);
    x'.(sent := Broadcast(x', ids))
  }

  /** An empty list or a null client is ignored. */
  predicate Ignored(msg: Message) {
    match msg
    case Subscribe(items, c) => items == {} || c == NO_CLIENT
    case RequestData(items, c) => items == {} || c == NO_CLIENT
    case Update(items, c) => items == {} || c == NO_CLIENT
    case Unsubscribe(items, c) => items == {} || c == NO_CLIENT
    case UnsubscribeAll(c) => c == NO_CLIENT
    case SetSubscriptionObj => false
    case Notify(data) => data == []
  }

  function Step(r: Reading, x: Index, msg: Message): Index {
    if Ignored(msg) then x.(sent := map[]) else
    match msg
    case Subscribe(items, c) => OnSubscribe(x, items, c, false)
    case RequestData(items, c) => OnSubscribe(x, items, c, true)
    case Update(items, c) => OnUpdate(r, x, items, c)
    case Unsubscribe(items, c) => OnUnsubscribe(x, items, c)
    case UnsubscribeAll(c) => OnUnsubscribeAll(x, c)
    case SetSubscriptionObj => x.(hasObj := true, told := x.d2c.Keys, sent := map[])
    case Notify(data) => OnNotify(x, data)
  }

  function Run(r: Reading, msgs: seq<Message>): Index {
    if msgs == [] then Empty() else Step(r, Run(r, msgs[..|msgs| - 1]), msgs[|msgs| - 1])
  }

  // ---------- converses ----------

  ghost predicate Converse(x: Index) {
    forall c, d :: Has(x.c2d, c, d) <==> Has(x.d2c, d, c)
  }

  /** An update of a client that already has items. */
  predicate Clobbers(x: Index, msg: Message) {
    msg.Update? && !Ignored(msg) && Vals(x.c2d, msg.client) != {}
  }

  lemma SubscribeConverse(x: Index, items: set<Item>, c: Client, requestData: bool)
    requires Converse(x)
    ensures Converse(OnSubscribe(x, items, c, requestData))
  {
    AddedHas(x.c2d, {c}, items);
    AddedHas(x.d2c, items, {c});
    hide Added, Has, NewKeys, Cached, Delivery, NoEmptyEntries;
  }

  lemma AnyOf<T>(s: set<T>) returns (x: T)
    requires s != {}
    ensures x in s
  {
    x :| x in s;
  }

  /** Who is listed for what after an update. */
  lemma UpdateHas(r: Reading, x: Index, items: set<Item>, c: Client)
    requires items != {}
    ensures var x', cur := OnUpdate(r, x, items, c), Vals(x.c2d, c);
      && (forall c', d :: Has(x'.c2d, c', d) <==> if c' == c then d in items else Has(x.c2d, c', d))
      && (forall c', d :: Has(x'.d2c, d, c') <==>
            if c' != c then Has(x.d2c, d, c')
            else if d in items then d !in cur || (r == AsDescribed && Has(x.d2c, d, c))
            else Has(x.d2c, d, c) && (r == AsCoded || d !in cur))
  {
    var cur := Vals(x.c2d, c);
    var gone := if r == AsCoded then cur * items else cur - items;
    TrimmedHas(x.d2c, gone, {c});
    AddedHas(Trimmed(x.d2c, gone, {c}), items - cur, {c});
    hide Added, Trimmed, NewKeys, Cached, Delivery, NoEmptyEntries, Emptied, Vals;
  }

  lemma UpdateConverse(r: Reading, x: Index, items: set<Item>, c: Client)
    requires Converse(x) && items != {}
    ensures Converse(OnUpdate(r, x, items, c)) <==> r == AsDescribed || Vals(x.c2d, c) == {}
  {
    UpdateHas(r, x, items, c);
    hide OnUpdate;
    var x', cur := OnUpdate(r, x, items, c), Vals(x.c2d, c);
    assert forall d :: d in cur <==> Has(x.c2d, c, d);
    if r == AsCoded && cur != {} {
      var d := AnyOf(cur);
      assert Has(x.c2d, c, d) && Has(x.d2c, d, c);
      assert Has(x'.c2d, c, d) != Has(x'.d2c, d, c);
    }
  }

  lemma UnsubscribeConverse(x: Index, items: set<Item>, c: Client)
    requires Converse(x)
    ensures Converse(OnUnsubscribe(x, items, c))
  {
    var unused := Lost(x.c2d, {c}, items);
    assert forall d :: d in unused <==> d in items && Has(x.c2d, c, d);
    TrimmedHas(x.c2d, {c}, items);
    TrimmedHas(x.d2c, unused, {c});
    hide Trimmed, Lost, Has, Emptied, NoEmptyEntries;
  }

  lemma UnsubscribeAllConverse(x: Index, c: Client)
    requires Converse(x)
    ensures Converse(OnUnsubscribeAll(x, c))
  {
    var all := Vals(x.c2d, c);
    assert forall d :: d in all <==> Has(x.c2d, c, d);
    TrimmedHas(x.d2c, all, {c});
    assert forall c', d :: Has(x.c2d - {c}, c', d) <==> Has(x.c2d, c', d) && c' != c;
    hide Trimmed, Has, Emptied, NoEmptyEntries, Vals;
  }

  /** One message keeps the two maps converse, except, as coded, an update of a client that already has items. */
  lemma StepConverse(r: Reading, x: Index, msg: Message)
    requires Converse(x)
    ensures Converse(Step(r, x, msg)) <==> r == AsDescribed || !Clobbers(x, msg)
  {
    hide OnSubscribe, OnUpdate, OnUnsubscribe, OnUnsubscribeAll, Has, Vals;
    if !Ignored(msg) {
      match msg
      case Subscribe(items, c) => SubscribeConverse(x, items, c, false);
      case RequestData(items, c) => SubscribeConverse(x, items, c, true);
      case Update(items, c) => UpdateConverse(r, x, items, c);
      case Unsubscribe(items, c) => UnsubscribeConverse(x, items, c);
      case UnsubscribeAll(c) => UnsubscribeAllConverse(x, c);
      case _ =>
    }
  }

  ghost predicate AlwaysConverse(r: Reading, msgs: seq<Message>)
    decreases |msgs|
  {
    Converse(Run(r, msgs)) && (msgs != [] ==> AlwaysConverse(r, msgs[..|msgs| - 1]))
  }

  predicate NeverClobbers(r: Reading, msgs: seq<Message>)
    decreases |msgs|
  {
    msgs != [] ==>
      NeverClobbers(r, msgs[..|msgs| - 1]) && !Clobbers(Run(r, msgs[..|msgs| - 1]), msgs[|msgs| - 1])
  }

  /** As described, the maps are converse after every run; as coded, throughout a run exactly when no update in
      it finds its client with items. */
  lemma {:induction false} RunConverse(r: Reading, msgs: seq<Message>)
    ensures AlwaysConverse(r, msgs) <==> r == AsDescribed || NeverClobbers(r, msgs)
    decreases |msgs|
  {
    if msgs == [] {
      assert Converse(Empty());
    } else {
      var init, msg := msgs[..|msgs| - 1], msgs[|msgs| - 1];
      RunConverse(r, init);
      if Converse(Run(r, init)) {
        StepConverse(r, Run(r, init), msg);
      }
      assert AlwaysConverse(r, init) ==> Converse(Run(r, init));
      hide Converse, Step, Clobbers;
    }
  }

  // ---------- the client side against what the clients asked for ----------

  /** Whether, by the messages alone, client c wants item d. */
  predicate Wants(msgs: seq<Message>, c: Client, d: Item) {
    if msgs == [] then false else
    var before, msg := Wants(msgs[..|msgs| - 1], c, d), msgs[|msgs| - 1];
    if Ignored(msg) then before else
    match msg
    case Subscribe(items, c') => before || (c == c' && d in items)
    case RequestData(items, c') => before || (c == c' && d in items)
    case Update(items, c') => if c == c' then d in items else before
    case Unsubscribe(items, c') => before && !(c == c' && d in items)
    case UnsubscribeAll(c') => before && c != c'
    case _ => before
  }

  lemma StepClientSide(r: Reading, x: Index, msgs: seq<Message>, c: Client, d: Item)
    requires msgs != [] && (Has(x.c2d, c, d) <==> Wants(msgs[..|msgs| - 1], c, d))
    ensures Has(Step(r, x, msgs[|msgs| - 1]).c2d, c, d) <==> Wants(msgs, c, d)
  {
    var msg := msgs[|msgs| - 1];
    var before := Wants(msgs[..|msgs| - 1], c, d);
    if !Ignored(msg) {
      match msg
      case Subscribe(items, c') => SubscribeClientSide(x, items, c', false, c, d);
      case RequestData(items, c') => SubscribeClientSide(x, items, c', true, c, d);
      case Update(items, c') => UpdateHas(r, x, items, c');
      case Unsubscribe(items, c') => UnsubscribeClientSide(x, items, c', c, d);
      case UnsubscribeAll(c') => UnsubscribeAllClientSide(x, c', c, d);
      case _ =>
    }
    hide OnSubscribe, OnUpdate, OnUnsubscribe, OnUnsubscribeAll, Has, Refresh, Broadcast;
  }

  lemma SubscribeClientSide(x: Index, items: set<Item>, who: Client, requestData: bool, c: Client, d: Item)
    ensures Has(OnSubscribe(x, items, who, requestData).c2d, c, d) <==> Has(x.c2d, c, d) || (c == who && d in items)
  {
    AddedHas(x.c2d, {who}, items);
    hide Added, Has, NewKeys, Cached, Delivery, NoEmptyEntries;
  }

  lemma UnsubscribeClientSide(x: Index, items: set<Item>, who: Client, c: Client, d: Item)
    ensures Has(OnUnsubscribe(x, items, who).c2d, c, d) <==> Has(x.c2d, c, d) && !(c == who && d in items)
  {
    TrimmedHas(x.c2d, {who}, items);
    hide Trimmed, Has, Lost, Emptied, NoEmptyEntries;
  }

  lemma UnsubscribeAllClientSide(x: Index, who: Client, c: Client, d: Item)
    ensures Has(OnUnsubscribeAll(x, who).c2d, c, d) <==> Has(x.c2d, c, d) && c != who
  {
    hide Trimmed, Emptied;
  }

  /** The client map holds exactly what the messages asked for; so does the item map, in every run that never
      updates a client that has items. */
  lemma {:induction false} IndexHoldsWants(r: Reading, msgs: seq<Message>, c: Client, d: Item)
    ensures Has(Run(r, msgs).c2d, c, d) <==> Wants(msgs, c, d)
    ensures r == AsDescribed || NeverClobbers(r, msgs) ==> (Has(Run(r, msgs).d2c, d, c) <==> Wants(msgs, c, d))
    decreases |msgs|
  {
    RunConverse(r, msgs);
    if msgs != [] {
      IndexHoldsWants(r, msgs[..|msgs| - 1], c, d);
      StepClientSide(r, Run(r, msgs[..|msgs| - 1]), msgs, c, d);
    }
  }

  // ---------- the framework and the empty entries ----------

  /** Holds in every run: no empty entries, and the framework was told of no item without a client. */
  ghost predicate Tidy(x: Index) {
    NoEmptyEntries(x.c2d) && NoEmptyEntries(x.d2c) && x.told <= x.d2c.Keys && (!x.hasObj ==> x.told == {})
  }

  /** The framework was told of exactly the items that have clients. */
  ghost predicate Synced(x: Index) {
    x.hasObj ==> x.told == x.d2c.Keys
  }

  /** A request for data that brings new items: with a subscription object set the framework is asked for their
      data but not told to subscribe. */
  predicate Skips(x: Index, msg: Message) {
    x.hasObj && msg.RequestData? && !Ignored(msg) && NewKeys(x.d2c, msg.items, {msg.client}) != {}
  }

  lemma SubscribeTidy(x: Index, items: set<Item>, c: Client, requestData: bool)
    requires Tidy(x) && items != {}
    ensures var x' := OnSubscribe(x, items, c, requestData);
      && Tidy(x')
      && (Synced(x) ==> (Synced(x') <==> !(x.hasObj && requestData && NewKeys(x.d2c, items, {c}) != {})))
  {
    AddedHas(x.c2d, {c}, items);
    AddedHas(x.d2c, items, {c});
    NewKeysAreNew(x.d2c.Keys, NewKeys(x.d2c, items, {c}));
    assert NewKeys(x.d2c, items, {c}) !! x.d2c.Keys;
    hide Added, Has, NewKeys, Cached, Delivery, NoEmptyEntries;
  }

  lemma NewKeysAreNew(keys: set<Item>, more: set<Item>)
    ensures more !! keys ==> (keys + more == keys <==> more == {})
  {
    if more != {} {
      var d := AnyOf(more);
      assert d in keys + more;
    }
  }

  lemma UpdateTidy(r: Reading, x: Index, items: set<Item>, c: Client)
    requires Tidy(x) && items != {}
    ensures var x' := OnUpdate(r, x, items, c); Tidy(x') && (Synced(x) ==> Synced(x'))
  {
    var cur := Vals(x.c2d, c);
    var gone := if r == AsCoded then cur * items else cur - items;
    TrimmedHas(x.d2c, gone, {c});
    AddedHas(Trimmed(x.d2c, gone, {c}), items - cur, {c});
    assert Emptied(x.d2c, gone, {c}) <= gone;
    assert NewKeys(Trimmed(x.d2c, gone, {c}), items - cur, {c}) <= items - cur;
    assert NoEmptyEntries(x.c2d[c := items]);
    hide Added, Trimmed, Has, NewKeys, Cached, Delivery, NoEmptyEntries, Emptied, Vals;
  }

  lemma UnsubscribeTidy(x: Index, items: set<Item>, c: Client)
    requires Tidy(x)
    ensures var x' := OnUnsubscribe(x, items, c); Tidy(x') && (Synced(x) ==> Synced(x'))
  {
    TrimmedHas(x.c2d, {c}, items);
    TrimmedHas(x.d2c, Lost(x.c2d, {c}, items), {c});
    hide Trimmed, Lost, Has, Emptied, NoEmptyEntries;
  }

  lemma UnsubscribeAllTidy(x: Index, c: Client)
    requires Tidy(x)
    ensures var x' := OnUnsubscribeAll(x, c); Tidy(x') && (Synced(x) ==> Synced(x'))
  {
    TrimmedHas(x.d2c, Vals(x.c2d, c), {c});
    assert NoEmptyEntries(x.c2d - {c});
    hide Trimmed, Has, Emptied, NoEmptyEntries, Vals;
  }

  lemma StepTidy(r: Reading, x: Index, msg: Message)
    requires Tidy(x)
    ensures Tidy(Step(r, x, msg)) && (Synced(x) ==> (Synced(Step(r, x, msg)) <==> !Skips(x, msg)))
  {
    hide OnSubscribe, OnUpdate, OnUnsubscribe, OnUnsubscribeAll, NoEmptyEntries, NewKeys;
    if !Ignored(msg) {
      match msg
      case Subscribe(items, c) => SubscribeTidy(x, items, c, false);
      case RequestData(items, c) => SubscribeTidy(x, items, c, true);
      case Update(items, c) => UpdateTidy(r, x, items, c);
      case Unsubscribe(items, c) => UnsubscribeTidy(x, items, c);
      case UnsubscribeAll(c) => UnsubscribeAllTidy(x, c);
      case _ =>
    }
  }

  ghost predicate AlwaysSynced(r: Reading, msgs: seq<Message>)
    decreases |msgs|
  {
    Synced(Run(r, msgs)) && (msgs != [] ==> AlwaysSynced(r, msgs[..|msgs| - 1]))
  }

  predicate NeverSkips(r: Reading, msgs: seq<Message>)
    decreases |msgs|
  {
    msgs != [] ==>
      NeverSkips(r, msgs[..|msgs| - 1]) && !Skips(Run(r, msgs[..|msgs| - 1]), msgs[|msgs| - 1])
  }

  /** No run leaves empty entries or tells the framework of an item without a client; and throughout a run the
      framework was told of exactly the items with clients if and only if no request for data, with a subscription
      object set, brings a new item. */
  lemma {:induction false} RunTidy(r: Reading, msgs: seq<Message>)
    ensures Tidy(Run(r, msgs))
    ensures AlwaysSynced(r, msgs) <==> NeverSkips(r, msgs)
    ensures (forall i :: 0 <= i < |msgs| ==> !msgs[i].RequestData?) ==> NeverSkips(r, msgs)
    decreases |msgs|
  {
    if msgs != [] {
      var init, msg := msgs[..|msgs| - 1], msgs[|msgs| - 1];
      RunTidy(r, init);
      StepTidy(r, Run(r, init), msg);
      assert AlwaysSynced(r, init) ==> Synced(Run(r, init));
      assert forall i :: 0 <= i < |init| ==> init[i] == msgs[i];
      hide Tidy, Synced, Step;
    }
  }

  // ---------- notification ----------

  /** Every item of a client has the client on its list: what a notification needs of the two maps. */
  ghost predicate Forward(x: Index) {
    forall c, d :: Has(x.c2d, c, d) ==> Has(x.d2c, d, c)
  }

  /** An update that names an item its client already has. */
  predicate Repeats(x: Index, msg: Message) {
    msg.Update? && !Ignored(msg) && Vals(x.c2d, msg.client) * msg.items != {}
  }

  lemma SubscribeForward(x: Index, items: set<Item>, c: Client, requestData: bool)
    requires Forward(x)
    ensures Forward(OnSubscribe(x, items, c, requestData))
  {
    AddedHas(x.c2d, {c}, items);
    AddedHas(x.d2c, items, {c});
    hide Added, Has, NewKeys, Cached, Delivery, NoEmptyEntries;
  }

  lemma UpdateForward(r: Reading, x: Index, items: set<Item>, c: Client)
    requires Forward(x) && items != {}
    ensures Forward(OnUpdate(r, x, items, c)) <==> r == AsDescribed || Vals(x.c2d, c) * items == {}
  {
    UpdateHas(r, x, items, c);
    hide OnUpdate;
    var x', cur := OnUpdate(r, x, items, c), Vals(x.c2d, c);
    assert forall d :: d in cur <==> Has(x.c2d, c, d);
    if r == AsCoded && cur * items != {} {
      var d := AnyOf(cur * items);
      assert Has(x'.c2d, c, d) && !Has(x'.d2c, d, c);
    } else {
      assert r == AsCoded ==> forall d :: d in items ==> d !in cur * items;
    }
  }

  lemma UnsubscribeForward(x: Index, items: set<Item>, c: Client)
    requires Forward(x)
    ensures Forward(OnUnsubscribe(x, items, c))
  {
    var unused := Lost(x.c2d, {c}, items);
    assert forall d :: d in unused <==> d in items && Has(x.c2d, c, d);
    TrimmedHas(x.c2d, {c}, items);
    TrimmedHas(x.d2c, unused, {c});
    hide Trimmed, Lost, Has, Emptied, NoEmptyEntries;
  }

  lemma UnsubscribeAllForward(x: Index, c: Client)
    requires Forward(x)
    ensures Forward(OnUnsubscribeAll(x, c))
  {
    TrimmedHas(x.d2c, Vals(x.c2d, c), {c});
    assert forall c', d :: Has(x.c2d - {c}, c', d) <==> Has(x.c2d, c', d) && c' != c;
    hide Trimmed, Has, Emptied, NoEmptyEntries, Vals;
  }

  lemma StepForward(r: Reading, x: Index, msg: Message)
    requires Forward(x)
    ensures Forward(Step(r, x, msg)) <==> r == AsDescribed || !Repeats(x, msg)
  {
    hide OnSubscribe, OnUpdate, OnUnsubscribe, OnUnsubscribeAll, Has, Vals;
    if !Ignored(msg) {
      match msg
      case Subscribe(items, c) => SubscribeForward(x, items, c, false);
      case RequestData(items, c) => SubscribeForward(x, items, c, true);
      case Update(items, c) => UpdateForward(r, x, items, c);
      case Unsubscribe(items, c) => UnsubscribeForward(x, items, c);
      case UnsubscribeAll(c) => UnsubscribeAllForward(x, c);
      case _ =>
    }
  }

  /** The client is sent the item, with the cached value. */
  predicate Hears(x: Index, c: Client, d: Item) {
    c in x.sent && d in x.sent[c]
  }

  /** By the data alone: v is the last value taken for the item among the first k. */
  ghost predicate LastTaken(data: seq<Datum>, k: nat, i: Item, v: int)
    requires k <= |data|
  {
    exists j :: 0 <= j < k && data[j].taken && data[j].id == i && data[j].value == v
                && forall m :: j < m < k ==> !(data[m].taken && data[m].id == i)
  }

  /** The value known for the item before the k-th datum: the last one taken, or else the one cached at first. */
  ghost predicate Known(cache: map<Item, int>, data: seq<Datum>, k: nat, i: Item, v: int)
    requires k <= |data|
  {
    LastTaken(data, k, i, v)
    || ((forall m :: 0 <= m < k ==> !(data[m].taken && data[m].id == i)) && i in cache && cache[i] == v)
  }

  /** Some taken datum brings the item a value other than the one known when it comes. */
  ghost predicate Updated(cache: map<Item, int>, data: seq<Datum>, i: Item) {
    exists k :: 0 <= k < |data| && data[k].taken && data[k].id == i && !Known(cache, data, k, i, data[k].value)
  }

  lemma KnownInPrefix(cache: map<Item, int>, data: seq<Datum>, k: nat, i: Item, v: int)
    requires k < |data|
    ensures Known(cache, data, k, i, v) <==> Known(cache, data[..|data| - 1], k, i, v)
  {
    var init := data[..|data| - 1];
    assert forall m :: 0 <= m < k ==> init[m] == data[m];
  }

  lemma KnownAfter(cache: map<Item, int>, data: seq<Datum>, i: Item, v: int)
    requires data != []
    ensures var d := data[|data| - 1];
      Known(cache, data, |data|, i, v) <==>
        if d.taken && d.id == i then v == d.value else Known(cache, data, |data| - 1, i, v)
  {
    var last := |data| - 1;
    if data[last].taken && data[last].id == i {
      assert v == data[last].value ==> LastTaken(data, |data|, i, v);
    } else {
      assert LastTaken(data, |data|, i, v) <==> LastTaken(data, last, i, v);
    }
  }

  lemma UpdatedAfter(cache: map<Item, int>, data: seq<Datum>, i: Item)
    requires data != []
    ensures var init, d := data[..|data| - 1], data[|data| - 1];
      Updated(cache, data, i) <==>
        Updated(cache, init, i) || (d.taken && d.id == i && !Known(cache, init, |init|, i, d.value))
  {
    var init := data[..|data| - 1];
    forall k, v | 0 <= k < |data|
      ensures Known(cache, data, k, i, v) <==> Known(cache, init, k, i, v)
    {
      KnownInPrefix(cache, data, k, i, v);
    }
    hide Known;
    if Updated(cache, init, i) {
      var k :| 0 <= k < |init| && init[k].taken && init[k].id == i && !Known(cache, init, k, i, init[k].value);
      assert data[k] == init[k];
    }
    if Updated(cache, data, i) {
      var k :| 0 <= k < |data| && data[k].taken && data[k].id == i && !Known(cache, data, k, i, data[k].value);
      assert k < |init| ==> data[k] == init[k];
    }
  }

  /** The items a notification counts as updated, and the cache it leaves, by the data and the old cache alone. */
  lemma {:induction false} RefreshMeans(cache: map<Item, int>, data: seq<Datum>, i: Item)
    ensures i in Refresh(cache, data).1 <==> Updated(cache, data, i)
    ensures forall v :: i in Refresh(cache, data).0 && Refresh(cache, data).0[i] == v
                   <==> Known(cache, data, |data|, i, v)
    decreases |data|
  {
    if data != [] {
      var init := data[..|data| - 1];
      RefreshMeans(cache, init, i);
      UpdatedAfter(cache, data, i);
      forall v
        ensures i in Refresh(cache, data).0 && Refresh(cache, data).0[i] == v <==> Known(cache, data, |data|, i, v)
      {
        KnownAfter(cache, data, i, v);
        KnownInPrefix(cache, data, |init|, i, v);
        hide Known;
      }
      hide Known, Updated;
    }
  }

  lemma BroadcastExact(x: Index, data: seq<Datum>, c: Client)
    requires Forward(x)
    ensures var x', ids := OnNotify(x, data), Refresh(x.cache, data).1;
      && (c in x'.sent <==> Vals(x.c2d, c) * ids != {})
      && (c in x'.sent ==>
            x'.sent[c].Keys == Vals(x.c2d, c) * ids && forall i :: i in x'.sent[c] ==> x'.sent[c][i] == x'.cache[i])
  {
    var (cache, ids) := Refresh(x.cache, data);
    var mine := Vals(x.c2d, c) * ids;
    assert Cached(cache, mine).Keys == mine;
    if mine != {} {
      var i := AnyOf(mine);
      assert Has(x.c2d, c, i) && Has(x.d2c, i, c);
      assert i in ids && c in Vals(x.d2c, i);
      assert i in Cached(cache, mine);
    }
  }

  /** With every client on the lists of its items, a notification gives every client, and nobody else, exactly the
      items it subscribes to that are updated, with their last values, and no empty delivery. */
  lemma NotifyExact(x: Index, data: seq<Datum>, c: Client)
    requires Forward(x)
    ensures var x' := OnNotify(x, data);
      && (forall i :: Hears(x', c, i) <==> Has(x.c2d, c, i) && Updated(x.cache, data, i))
      && (forall i :: Hears(x', c, i) ==> Known(x.cache, data, |data|, i, x'.sent[c][i]))
      && (c in x'.sent ==> x'.sent[c] != map[])
  {
    BroadcastExact(x, data, c);
    var x' := OnNotify(x, data);
    var mine := Vals(x.c2d, c) * Refresh(x.cache, data).1;
    hide OnNotify, Refresh, Forward, Known, Updated;
    forall i
      ensures Hears(x', c, i) <==> Has(x.c2d, c, i) && Updated(x.cache, data, i)
      ensures Hears(x', c, i) ==> Known(x.cache, data, |data|, i, x'.sent[c][i])
    {
      RefreshMeans(x.cache, data, i);
      CacheRefreshed(x, data);
      assert i in mine <==> Has(x.c2d, c, i) && Updated(x.cache, data, i);
      assert c in x'.sent ==> (i in mine <==> i in x'.sent[c].Keys);
    }
  }

  lemma CacheRefreshed(x: Index, data: seq<Datum>)
    ensures OnNotify(x, data).cache == Refresh(x.cache, data).0
    ensures Refresh(x.cache, data).1 <= Refresh(x.cache, data).0.Keys
    ensures forall c :: c in OnNotify(x, data).sent ==> OnNotify(x, data).sent[c] != map[]
  {
    hide Refresh;
  }

  /** A notification that brings only values known already sends nothing to anybody, whatever the maps hold. */
  lemma StaleSendsNothing(x: Index, data: seq<Datum>)
    requires forall k :: 0 <= k < |data| && data[k].taken ==> Known(x.cache, data, k, data[k].id, data[k].value)
    ensures OnNotify(x, data) == x.(sent := map[])
  {
    forall i
      ensures i !in Refresh(x.cache, data).1
    {
      RefreshMeans(x.cache, data, i);
    }
    hide Known, Refresh;
    var (cache, ids) := Refresh(x.cache, data);
    assert ids == {};
    assert cache == x.cache;
  }

  // ---------- what the other messages send ----------

  /** A subscription, or a request for data, sends its client exactly the cached ones of its items, with their
      cached values, and nobody else anything. */
  lemma SubscribeSends(r: Reading, x: Index, items: set<Item>, c: Client, requestData: bool, c': Client, d: Item)
    ensures var x' := Step(r, x, if requestData then RequestData(items, c) else Subscribe(items, c));
      && (Hears(x', c', d) <==> c != NO_CLIENT && c' == c && d in items && d in x.cache)
      && (Hears(x', c', d) ==> x'.sent[c'][d] == x.cache[d])
      && (c' in x'.sent ==> x'.sent[c'] != map[])
  {
    CachedHolds(x.cache, items, d);
    hide Added, NewKeys, Cached;
  }

  /** An update sends its client exactly the cached ones of the items it did not have. */
  lemma UpdateSends(r: Reading, x: Index, items: set<Item>, c: Client, c': Client, d: Item)
    ensures var x' := Step(r, x, Update(items, c));
      && (Hears(x', c', d) <==> c != NO_CLIENT && c' == c && d in items && !Has(x.c2d, c, d) && d in x.cache)
      && (Hears(x', c', d) ==> x'.sent[c'][d] == x.cache[d])
      && (c' in x'.sent ==> x'.sent[c'] != map[])
  {
    CachedHolds(x.cache, items - Vals(x.c2d, c), d);
    hide Added, Trimmed, NewKeys, Emptied, Cached;
  }

  lemma CachedHolds(cache: map<Item, int>, items: set<Item>, d: Item)
    ensures d in Cached(cache, items) <==> d in items && d in cache
    ensures d in Cached(cache, items) ==> Cached(cache, items)[d] == cache[d] && Cached(cache, items) != map[]
  {
  }

  /** The other messages send nothing. */
  lemma QuietMessages(r: Reading, x: Index, items: set<Item>, c: Client)
    ensures Step(r, x, Unsubscribe(items, c)).sent == map[] && Step(r, x, UnsubscribeAll(c)).sent == map[]
    ensures Step(r, x, SetSubscriptionObj).sent == map[]
  {
    hide Trimmed, Lost, Emptied;
  }

  /** An empty list or a null client changes nothing. */
  lemma EmptyMessages(r: Reading, x: Index, items: set<Item>, c: Client)
    ensures items == {} || c == 0 ==>
      && Step(r, x, Subscribe(items, c)) == Step(r, x, RequestData(items, c)) == Step(r, x, Update(items, c))
      && Step(r, x, Update(items, c)) == Step(r, x, Unsubscribe(items, c)) == x.(sent := map[])
    ensures Step(r, x, UnsubscribeAll(0)) == x.(sent := map[]) && Step(r, x, Notify([])) == x.(sent := map[])
  {
  }

  /** A notification, of whatever data, gives the client the item exactly when it is updated and wanted. */
  ghost predicate HearsWhen(x: Index, c: Client, d: Item, wanted: bool) {
    forall data: seq<Datum> :: Hears(OnNotify(x, data), c, d) <==> Updated(x.cache, data, d) && wanted
  }

  /** Any notification from here would give every client exactly its updated items. */
  ghost predicate Exact(x: Index) {
    forall c, d :: HearsWhen(x, c, d, Has(x.c2d, c, d))
  }

  /** A client that an item's list lacks misses the item. */
  lemma MissesItem(x: Index, c: Client, d: Item)
    requires Has(x.c2d, c, d) && !Has(x.d2c, d, c)
    ensures !Exact(x)
  {
    var value := if d in x.cache then x.cache[d] + 1 else 0;
    var data := [Datum(d, value, true)];
    OneDatum(x.cache, data[0]);
    RefreshMeans(x.cache, data, d);
    hide Known, Updated;
    assert !Hears(OnNotify(x, data), c, d);
  }

  lemma OneDatum(cache: map<Item, int>, d: Datum)
    requires d.taken && (d.id !in cache || cache[d.id] != d.value)
    ensures Refresh(cache, [d]).1 == {d.id}
  {
    assert [d][..0] == [] && Refresh(cache, []) == (cache, {});
    assert Refresh(cache, [d]).1 == {} + {d.id};
  }

  lemma ExactIff(x: Index)
    ensures Exact(x) <==> Forward(x)
  {
    if Forward(x) {
      forall c, d
        ensures HearsWhen(x, c, d, Has(x.c2d, c, d))
      {
        forall data: seq<Datum>
          ensures Hears(OnNotify(x, data), c, d) <==> Updated(x.cache, data, d) && Has(x.c2d, c, d)
        {
          HearsExactly(x, data, c, d);
        }
      }
    } else {
      var c, d :| Has(x.c2d, c, d) && !Has(x.d2c, d, c);
      MissesItem(x, c, d);
    }
  }

  lemma HearsExactly(x: Index, data: seq<Datum>, c: Client, d: Item)
    requires Forward(x)
    ensures Hears(OnNotify(x, data), c, d) <==> Updated(x.cache, data, d) && Has(x.c2d, c, d)
  {
    hide *;
    NotifyExact(x, data, c);
  }

  /** By the messages alone: any notification after them reaches exactly the clients that want its updated items. */
  ghost predicate HearsWants(r: Reading, msgs: seq<Message>) {
    forall c, d :: HearsWhen(Run(r, msgs), c, d, Wants(msgs, c, d))
  }

  lemma HearsWantsIff(r: Reading, msgs: seq<Message>)
    ensures HearsWants(r, msgs) <==> Forward(Run(r, msgs))
  {
    ExactIff(Run(r, msgs));
    forall c, d
      ensures Has(Run(r, msgs).c2d, c, d) <==> Wants(msgs, c, d)
    {
      IndexHoldsWants(r, msgs, c, d);
    }
    hide Run, Wants, Forward, HearsWhen, Has;
  }

  ghost predicate AlwaysHearsWants(r: Reading, msgs: seq<Message>)
    decreases |msgs|
  {
    HearsWants(r, msgs) && (msgs != [] ==> AlwaysHearsWants(r, msgs[..|msgs| - 1]))
  }

  /** By the messages alone: an update names an item that its client wants already. */
  predicate RepeatsWanted(before: seq<Message>, msg: Message) {
    msg.Update? && !Ignored(msg) && exists d :: d in msg.items && Wants(before, msg.client, d)
  }

  predicate NeverRepeats(msgs: seq<Message>)
    decreases |msgs|
  {
    msgs != [] ==> NeverRepeats(msgs[..|msgs| - 1]) && !RepeatsWanted(msgs[..|msgs| - 1], msgs[|msgs| - 1])
  }

  lemma RepeatsIff(r: Reading, before: seq<Message>, msg: Message)
    ensures Repeats(Run(r, before), msg) <==> RepeatsWanted(before, msg)
  {
    if msg.Update? {
      var x := Run(r, before);
      var common := Vals(x.c2d, msg.client) * msg.items;
      forall d
        ensures d in common <==> d in msg.items && Wants(before, msg.client, d)
      {
        IndexHoldsWants(r, before, msg.client, d);
      }
      if common != {} {
        var d := AnyOf(common);
        assert d in msg.items && Wants(before, msg.client, d);
      }
      hide Run, Wants;
    }
  }

  /** Throughout a run every client hears exactly what it wants: as described always, and as coded exactly when no
      update in the run repeats an item that its client wants already. */
  lemma {:induction false} AlwaysHearsWantsIff(r: Reading, msgs: seq<Message>)
    ensures AlwaysHearsWants(r, msgs) <==> r == AsDescribed || NeverRepeats(msgs)
    decreases |msgs|
  {
    HearsWantsIff(r, msgs);
    hide HearsWants, Forward, Step, Repeats, RepeatsWanted, Has;
    if msgs == [] {
      assert Forward(Empty()) by { NobodyYet(); }
    } else {
      var init, msg := msgs[..|msgs| - 1], msgs[|msgs| - 1];
      AlwaysHearsWantsIff(r, init);
      HearsWantsIff(r, init);
      RepeatsIff(r, init, msg);
      if Forward(Run(r, init)) {
        StepForward(r, Run(r, init), msg);
      }
      assert AlwaysHearsWants(r, init) ==> HearsWants(r, init);
    }
  }

  lemma NobodyYet()
    ensures Forward(Empty())
  {
  }

  /** A change of subscription to other items breaks the converse and still loses no notification. */
  lemma ChangeStillHears(c: Client, d: Item, e: Item)
    requires c != NO_CLIENT && d != e
    ensures var msgs := [Subscribe({d}, c), Update({e}, c)];
      AlwaysHearsWants(AsCoded, msgs) && !Converse(Run(AsCoded, msgs))
  {
    var m1, m2 := Subscribe({d}, c), Update({e}, c);
    var msgs := [m1, m2];
    assert msgs[..1] == [m1] && [m1][..0] == [];
    assert Wants([], c, e) == false && Wants([m1], c, d) && !Wants([m1], c, e);
    assert !RepeatsWanted([m1], m2) && NeverRepeats([]) && NeverRepeats([m1]) && NeverRepeats(msgs);
    AlwaysHearsWantsIff(AsCoded, msgs);
    RunAppend([m1], m2);
    RunAppend([], m1);
    assert [] + [m1] == [m1] && [m1] + [m2] == msgs;
    IndexHoldsWants(AsCoded, [m1], c, d);
    RunConverse(AsCoded, [m1]);
    assert NeverClobbers(AsCoded, []) && NeverClobbers(AsCoded, [m1]);
    hide AlwaysHearsWants, Run, Step, Wants, NeverRepeats, NeverClobbers;
    assert d in Vals(Run(AsCoded, [m1]).c2d, c);
    assert AlwaysConverse(AsCoded, [m1]) ==> Converse(Run(AsCoded, [m1]));
    StepConverse(AsCoded, Run(AsCoded, [m1]), m2);
  }

  /** After a notification the cache holds, for each item, the last value taken, or what it held before. */
  lemma {:induction false} CacheHoldsLast(cache: map<Item, int>, data: seq<Datum>, k: nat)
    requires k < |data| && data[k].taken && forall j :: k < j < |data| ==> !(data[j].taken && data[j].id == data[k].id)
    ensures data[k].id in Refresh(cache, data).0 && Refresh(cache, data).0[data[k].id] == data[k].value
    decreases |data|
  {
    if k < |data| - 1 {
      CacheHoldsLast(cache, data[..|data| - 1], k);
    }
  }

  lemma RunAppend(msgs: seq<Message>, msg: Message)
    ensures Run(AsCoded, msgs + [msg]) == Step(AsCoded, Run(AsCoded, msgs), msg)
  {
    assert (msgs + [msg])[..|msgs + [msg]| - 1] == msgs;
  }

  /** As coded, a client that repeats its own subscription as an update is no longer told of anything: the item
      map and the framework drop the item although the client map lists it. */
  lemma RepeatedUpdateGoesDeaf(c: Client, d: Item, value: int)
    requires c != NO_CLIENT
    ensures var x := Run(AsCoded, [SetSubscriptionObj, Subscribe({d}, c), Update({d}, c),
        Notify([Datum(d, value, true)])]);
      Has(x.c2d, c, d) && !Has(x.d2c, d, c) && d !in x.told && c !in x.sent && x.cache == map[d := value]
  {
    hide *;
    var m1, m2, m3, m4 := SetSubscriptionObj, Subscribe({d}, c), Update({d}, c), Notify([Datum(d, value, true)]);
    RunAppend([], m1);
    RunAppend([m1], m2);
    RunAppend([m1, m2], m3);
    RunAppend([m1, m2, m3], m4);
    RunNothing();
    Subscribed(c, d);
    var x2 := Step(AsCoded, Step(AsCoded, Empty(), m1), m2);
    Repeated(x2, c, d);
    Unheard(Step(AsCoded, x2, m3), c, d, value);
    assert [] + [m1] == [m1] && [m1] + [m2] == [m1, m2] && [m1, m2] + [m3] == [m1, m2, m3];
    assert [m1, m2, m3] + [m4] == [m1, m2, m3, m4];
  }

  lemma RunNothing()
    ensures Run(AsCoded, []) == Empty()
  {
  }

  lemma Subscribed(c: Client, d: Item)
    requires c != NO_CLIENT
    ensures var x := Step(AsCoded, Step(AsCoded, Empty(), SetSubscriptionObj), Subscribe({d}, c));
      x.c2d == map[c := {d}] && x.d2c == map[d := {c}] && x.told == {d} && x.hasObj && x.cache == map[]
  {
    AddedOne(map[], c, {d});
    AddedOne(map[], d, {c});
  }

  lemma WithItself<T>(s: set<T>)
    ensures s * s == s && s - s == {}
  {
  }

  lemma Repeated(x: Index, c: Client, d: Item)
    requires c != NO_CLIENT && x.c2d == map[c := {d}] && x.d2c == map[d := {c}] && x.told == {d} && x.hasObj
    ensures var x' := Step(AsCoded, x, Update({d}, c));
      x'.c2d == map[c := {d}] && x'.d2c == map[] && x'.told == {} && x'.cache == x.cache
  {
    var cur: set<Item> := {d};
    assert Vals(x.c2d, c) == cur;
    WithItself(cur);
    assert Emptied(x.d2c, {d}, {c}) == {d};
    assert Trimmed(x.d2c, {d}, {c}) == map[];
    assert Added<Item, Client>(map[], {}, {c}) == map[];
  }

  lemma Unheard(x: Index, c: Client, d: Item, value: int)
    requires x.c2d == map[c := {d}] && x.d2c == map[] && x.told == {} && x.cache == map[]
    ensures var x' := Step(AsCoded, x, Notify([Datum(d, value, true)]));
      Has(x'.c2d, c, d) && !Has(x'.d2c, d, c) && d !in x'.told && c !in x'.sent && x'.cache == map[d := value]
  {
    var data := [Datum(d, value, true)];
    assert data[..|data| - 1] == [];
    assert Refresh(x.cache, []) == (map[], {});
    assert Refresh(x.cache, data).0 == map[d := value] && Refresh(x.cache, data).1 == {} + {d};
  }
}
