/** The network handle table: ten slots collated in place from one network event to the next, and the bounded
    history of the items that carry it. */
module NetworkTable {
  import GapFill

  const MAX_NETWORK_HANDLES := 10
  const MAX_ITEM := 5
  const HANDLE_UNKNOWN := 0xFFFF_FFFF_FFFF_FFFF
  const TYPE_MOBILE := 0
  const TYPE_UNKNOWN := 10

  datatype Entry = Entry(handle: nat, ty: int)

  const NONE := Entry(HANDLE_UNKNOWN, TYPE_UNKNOWN)

  /** One connection status event. */
  datatype Event = Event(connected: bool, handle: nat, ty: int, apn: string)

  /** A cached item, with its table as the entries before the unknown ones. */
  datatype Item = Item(event: Event, table: seq<Entry>, apn: string)

  /** The type has a bit in the mask of types. */
  predicate Known(ty: int) {
    TYPE_MOBILE <= ty < TYPE_UNKNOWN
  }

  // ---------- on lists of entries ----------

  predicate HasHandle(list: seq<Entry>, h: nat) {
    exists i :: 0 <= i < |list| && list[i].handle == h
  }

  ghost predicate Proper(list: seq<Entry>) {
    && |list| <= MAX_NETWORK_HANDLES
    && (forall i :: 0 <= i < |list| ==> list[i].handle != HANDLE_UNKNOWN)
    && (forall i, j :: 0 <= i < j < |list| ==> list[i].handle != list[j].handle)
  }

  /** A known handle, or one without a slot, is not added. */
  function Connect(list: seq<Entry>, e: Entry): seq<Entry> {
    if HasHandle(list, e.handle) || e.handle == HANDLE_UNKNOWN || |list| == MAX_NETWORK_HANDLES then list
    else list + [e]
  }

  /** The last entry takes the place of the one that goes, which must agree in type too. */
  function Disconnect(list: seq<Entry>, e: Entry): seq<Entry> {
    if Known(e.ty) then GapFill.Remove(list, e) else list
  }

  lemma Disconnected(list: seq<Entry>, e: Entry)
    requires Known(e.ty)
    ensures var j, r := GapFill.IndexOf(list, e), Disconnect(list, e);
      if j == |list| then r == list
      else |r| == |list| - 1
           && forall k :: 0 <= k < |r| ==> r[k] == if k == j then list[|list| - 1] else list[k]
  {
  }

  function Collated(list: seq<Entry>, ev: Event): seq<Entry> {
    var e := Entry(ev.handle, ev.ty);
    if ev.connected then Connect(list, e) else Disconnect(list, e)
  }

  lemma ConnectKeeps(list: seq<Entry>, e: Entry)
    requires Proper(list)
    ensures Proper(Connect(list, e))
    ensures forall x :: x in Connect(list, e) <==> x in list || (x == e && Connect(list, e) != list)
    ensures Connect(list, e) != list
       <==> !HasHandle(list, e.handle) && e.handle != HANDLE_UNKNOWN && |list| < MAX_NETWORK_HANDLES
  {
    if !(HasHandle(list, e.handle) || e.handle == HANDLE_UNKNOWN || |list| == MAX_NETWORK_HANDLES) {
      assert |Connect(list, e)| == |list| + 1;
    }
  }

  lemma DisconnectKeeps(list: seq<Entry>, e: Entry)
    requires Proper(list) && Known(e.ty)
    ensures Proper(Disconnect(list, e)) && |Disconnect(list, e)| == |list| - if e in list then 1 else 0
    ensures forall x :: x in Disconnect(list, e) <==> x in list && x != e
  {
    GapFill.RemoveDrops(list, e);
    SameHandle(list);
    hide GapFill.Remove;
    var r := Disconnect(list, e);
    assert forall i :: 0 <= i < |r| ==> r[i] in list;
  }

  /** A disconnect of a type that has no bit in the mask leaves the table alone. */
  lemma OddTypesKeep(list: seq<Entry>, ev: Event)
    requires !ev.connected
    ensures !(0 <= ev.ty < 10) ==> Collated(list, ev) == list
    ensures 0 <= ev.ty < 10 && Entry(ev.handle, ev.ty) in list ==> |Collated(list, ev)| == |list| - 1
  {
    hide GapFill.IndexOf;
  }

  /** In a proper list entries with the same handle are the same. */
  lemma SameHandle(list: seq<Entry>)
    requires Proper(list)
    ensures forall x, y :: x in list && y in list && x.handle == y.handle ==> x == y
  {
  }

  // ---------- history ----------

  /** The apn an item ends up with: a cached one is kept by events of other types than mobile. */
  function Apn(cached: string, ev: Event): string {
    if ev.ty != TYPE_MOBILE && cached != "" then cached else ev.apn
  }

  function Successor(back: Item, ev: Event): Item {
    Item(ev, Collated(back.table, ev), Apn(back.apn, ev))
  }

  predicate Alike(a: Item, b: Item) {
    a.event.connected == b.event.connected && a.table == b.table && a.apn == b.apn
  }

  /** The first item is cached as it comes, with its own handle as the only entry; later ones are collated with
      the newest, and cached when they differ from it. At most five are kept. */
  function Cache(report: seq<Item>, ev: Event): seq<Item> {
    if report == [] then [Item(ev, [Entry(ev.handle, ev.ty)], ev.apn)] else
    var back := report[|report| - 1];
    var item := Successor(back, ev);
    if Alike(back, item) then report
    else if |report| == MAX_ITEM then report[1..] + [item]
    else report + [item]
  }

  lemma CacheCases(report: seq<Item>, ev: Event)
    ensures report == [] ==> Cache(report, ev) == [Item(ev, [Entry(ev.handle, ev.ty)], ev.apn)]
    ensures report != [] ==>
      var item := Successor(report[|report| - 1], ev);
      Cache(report, ev) == if Alike(report[|report| - 1], item) then report
                           else if |report| == MAX_ITEM then report[1..] + [item]
                           else report + [item]
  {
  }

  function Run(events: seq<Event>): seq<Item> {
    if events == [] then [] else Cache(Run(events[..|events| - 1]), events[|events| - 1])
  }

  /** The handles that the table follows: the first event's, whatever it says, and then what comes, while there is
      room, and goes. */
  function Tracked(events: seq<Event>): set<nat> {
    if events == [] then {} else
    var before, ev := Tracked(events[..|events| - 1]), events[|events| - 1];
    if |events| == 1 then {ev.handle}
    else if !ev.connected then before - {ev.handle}
    else if |before| < MAX_NETWORK_HANDLES then before + {ev.handle}
    else before
  }

  function Connected(events: seq<Event>): set<nat> {
    if events == [] then {} else
    var ev := events[|events| - 1];
    if ev.connected then Connected(events[..|events| - 1]) + {ev.handle}
    else Connected(events[..|events| - 1]) - {ev.handle}
  }

  /** Handles are valid and keep their type, and types are known. */
  ghost predicate Regular(events: seq<Event>, typeOf: nat -> int) {
    forall i :: 0 <= i < |events| ==>
      events[i].handle != HANDLE_UNKNOWN && events[i].ty == typeOf(events[i].handle) && Known(events[i].ty)
  }

  /** At no time are more than ten handles connected. */
  predicate Within(events: seq<Event>)
    decreases |events|
  {
    |Connected(events)| <= MAX_NETWORK_HANDLES && (events != [] ==> Within(events[..|events| - 1]))
  }

  /** Every connect of a handle that is not followed yet finds room. */
  predicate NoneTurnedAway(events: seq<Event>)
    decreases |events|
  {
    |events| > 1 ==>
      var init, ev := events[..|events| - 1], events[|events| - 1];
      && NoneTurnedAway(init)
      && (ev.connected ==> ev.handle in Tracked(init) || |Tracked(init)| < MAX_NETWORK_HANDLES)
  }

  ghost predicate TableIs(list: seq<Entry>, handles: set<nat>, typeOf: nat -> int) {
    && Proper(list) && (forall i :: 0 <= i < |list| ==> list[i].ty == typeOf(list[i].handle))
    && (forall h :: HasHandle(list, h) <==> h in handles) && |list| == |handles|
  }

  /** The newest table holds exactly the handles followed, at most ten, each once and without a hole; the history
      stays within its bound. */
  lemma {:induction false} RunTable(events: seq<Event>, typeOf: nat -> int)
    requires events != [] && Regular(events, typeOf)
    ensures var report := Run(events);
      1 <= |report| <= MAX_ITEM && TableIs(report[|report| - 1].table, Tracked(events), typeOf)
    decreases |events|
  {
    assert MAX_ITEM == 5;
    hide *;
    var init, ev := events[..|events| - 1], events[|events| - 1];
    RegularInit(events, typeOf);
    TrackedStep(events);
    RunStep(events);
    if init == [] {
      FirstTable(ev, typeOf);
      CacheTable([], ev);
    } else {
      RunTable(init, typeOf);
      CacheTable(Run(init), ev);
      var newest := Run(init)[|Run(init)| - 1].table;
      StepTable(newest, Tracked(init), ev, typeOf);
      TableCounts(newest, Tracked(init), typeOf);
    }
  }

  lemma RunStep(events: seq<Event>)
    requires events != []
    ensures Run(events) == Cache(Run(events[..|events| - 1]), events[|events| - 1]) && Run([]) == []
  {
  }

  lemma TrackedStep(events: seq<Event>)
    requires events != []
    ensures var init, ev := events[..|events| - 1], events[|events| - 1];
      Tracked(events)
      == if init == [] then {ev.handle}
         else if !ev.connected then Tracked(init) - {ev.handle}
         else if |Tracked(init)| < MAX_NETWORK_HANDLES then Tracked(init) + {ev.handle}
         else Tracked(init)
  {
  }

  /** Cached or not, the newest item carries the collated table afterwards. */
  lemma CacheTable(report: seq<Item>, ev: Event)
    requires |report| <= MAX_ITEM
    ensures var r := Cache(report, ev);
      && 1 <= |r| <= MAX_ITEM
      && r[|r| - 1].table
         == if report == [] then [Entry(ev.handle, ev.ty)] else Collated(report[|report| - 1].table, ev)
  {
    hide Collated;
  }

  // ---------- the newest item and the history ----------

  /** The last event of type mobile, or the first event when there is none. */
  ghost predicate ApnStart(events: seq<Event>, k: nat) {
    k < |events| && (k == 0 || events[k].ty == 0) && forall m :: k < m < |events| ==> events[m].ty != 0
  }

  /** `apn` is the first one named from the k-th event on, or empty when none is. */
  ghost predicate FirstNamed(events: seq<Event>, k: nat, apn: string) {
    || (apn == "" && forall m :: k <= m < |events| ==> events[m].apn == "")
    || (exists j :: k <= j < |events| && events[j].apn == apn != "" && forall m :: k <= m < j ==> events[m].apn == "")
  }

  /** Over every run the newest item says what the last event says of the connection, and carries the first APN
      named since the last event of type mobile. */
  lemma {:induction false} NewestItem(events: seq<Event>, k: nat)
    requires ApnStart(events, k)
    ensures events != []
    ensures var report := Run(events);
      && report != []
      && report[|report| - 1].event.connected == events[|events| - 1].connected
      && FirstNamed(events, k, report[|report| - 1].apn)
    decreases |events|
  {
    hide *;
    StartsAt(events, k);
    var init, ev := events[..|events| - 1], events[|events| - 1];
    RunStep(events);
    CacheNewest(Run(init), ev);
    if k < |init| {
      NewestItem(init, k);
      NamedLater(events, k, Run(init)[|Run(init)| - 1].apn);
    } else {
      NamedLast(events);
    }
  }

  lemma StartsAt(events: seq<Event>, k: nat)
    requires ApnStart(events, k)
    ensures events != []
    ensures var init, ev := events[..|events| - 1], events[|events| - 1];
      if k < |init| then ApnStart(init, k) && ev.ty != 0 else k == |init| && (init == [] || ev.ty == 0)
  {
  }

  lemma NamedLast(events: seq<Event>)
    requires events != []
    ensures FirstNamed(events, |events| - 1, events[|events| - 1].apn)
  {
  }

  lemma NamedLater(events: seq<Event>, k: nat, before: string)
    requires k < |events| - 1 && FirstNamed(events[..|events| - 1], k, before)
    ensures FirstNamed(events, k, if before != "" then before else events[|events| - 1].apn)
  {
    var init := events[..|events| - 1];
    if before != "" {
      var j :| k <= j < |init| && init[j].apn == before && forall m :: k <= m < j ==> init[m].apn == "";
      assert events[j].apn == before && forall m :: k <= m < j ==> events[m] == init[m];
    } else {
      assert forall m :: k <= m < |init| ==> events[m] == init[m];
    }
  }

  /** Cached or not, the newest item agrees with the event. */
  lemma CacheNewest(report: seq<Item>, ev: Event)
    ensures var r := Cache(report, ev);
      && r != [] && r[|r| - 1].event.connected == ev.connected
      && r[|r| - 1].apn == if report == [] || ev.ty == 0 || report[|report| - 1].apn == "" then ev.apn
                           else report[|report| - 1].apn
  {
    hide Collated;
  }

  /** They differ in connection, table or APN. */
  predicate Differ(a: Item, b: Item) {
    a.event.connected != b.event.connected || a.table != b.table || a.apn != b.apn
  }

  ghost predicate NeighboursDiffer(report: seq<Item>) {
    forall i :: 0 <= i && i + 1 < |report| ==> Differ(report[i], report[i + 1])
  }

  /** An item is cached only when something changed: no two neighbours in the history agree in connection, table
      and APN. */
  lemma {:induction false} HistoryChanges(events: seq<Event>)
    ensures NeighboursDiffer(Run(events))
    decreases |events|
  {
    hide *;
    RunNever();
    if events != [] {
      var init, ev := events[..|events| - 1], events[|events| - 1];
      HistoryChanges(init);
      RunStep(events);
      CacheChanges(Run(init), ev);
    } else {
      NoNeighbours();
    }
  }

  lemma RunNever()
    ensures Run([]) == []
  {
  }

  lemma NoNeighbours()
    ensures NeighboursDiffer([])
  {
  }

  lemma CacheChanges(report: seq<Item>, ev: Event)
    requires NeighboursDiffer(report)
    ensures NeighboursDiffer(Cache(report, ev))
  {
    hide Successor, Cache, Differ;
    CacheCases(report, ev);
    if report != [] {
      AlikeDiffer(report[|report| - 1], Successor(report[|report| - 1], ev));
      hide Alike;
    }
  }

  lemma AlikeDiffer(a: Item, b: Item)
    ensures Alike(a, b) <==> !Differ(a, b)
  {
  }

  lemma RegularInit(events: seq<Event>, typeOf: nat -> int)
    requires events != [] && Regular(events, typeOf)
    ensures var init, ev := events[..|events| - 1], events[|events| - 1];
      Regular(init, typeOf) && ev.handle != HANDLE_UNKNOWN && ev.ty == typeOf(ev.handle) && Known(ev.ty)
  {
  }

  lemma FirstTable(ev: Event, typeOf: nat -> int)
    requires ev.handle != HANDLE_UNKNOWN && ev.ty == typeOf(ev.handle)
    ensures TableIs([Entry(ev.handle, ev.ty)], {ev.handle}, typeOf)
  {
    var list := [Entry(ev.handle, ev.ty)];
    assert list[0].handle == ev.handle;
  }

  lemma StepTable(list: seq<Entry>, handles: set<nat>, ev: Event, typeOf: nat -> int)
    requires TableIs(list, handles, typeOf) && ev.handle != HANDLE_UNKNOWN && ev.ty == typeOf(ev.handle) && Known(ev.ty)
    ensures TableIs(Collated(list, ev),
                    if !ev.connected then handles - {ev.handle}
                    else if |handles| < MAX_NETWORK_HANDLES then handles + {ev.handle}
                    else handles,
                    typeOf)
  {
    if ev.connected {
      ConnectTable(list, handles, Entry(ev.handle, ev.ty), typeOf);
    } else {
      DisconnectTable(list, handles, Entry(ev.handle, ev.ty), typeOf);
    }
  }

  lemma ConnectTable(list: seq<Entry>, handles: set<nat>, e: Entry, typeOf: nat -> int)
    requires TableIs(list, handles, typeOf) && e.handle != HANDLE_UNKNOWN && e.ty == typeOf(e.handle)
    ensures TableIs(Connect(list, e), if |handles| < MAX_NETWORK_HANDLES then handles + {e.handle} else handles, typeOf)
  {
    ConnectKeeps(list, e);
    var r := Connect(list, e);
    if e.handle in handles {
      assert handles + {e.handle} == handles;
    } else if |handles| < MAX_NETWORK_HANDLES {
      assert r == list + [e];
      forall h
        ensures HasHandle(r, h) <==> h in handles + {e.handle}
      {
        assert r[|list|].handle == e.handle;
        if HasHandle(list, h) {
          var i :| 0 <= i < |list| && list[i].handle == h;
          assert r[i].handle == h;
        }
      }
    }
  }

  lemma DisconnectTable(list: seq<Entry>, handles: set<nat>, e: Entry, typeOf: nat -> int)
    requires TableIs(list, handles, typeOf) && e.ty == typeOf(e.handle) && Known(e.ty)
    ensures TableIs(Disconnect(list, e), handles - {e.handle}, typeOf)
  {
    DisconnectKeeps(list, e);
    var r := Disconnect(list, e);
    assert e in list <==> e.handle in handles by {
      if HasHandle(list, e.handle) {
        var i :| 0 <= i < |list| && list[i].handle == e.handle;
        assert list[i] == e;
      }
    }
    forall i | 0 <= i < |r|
      ensures r[i] in list && r[i].ty == typeOf(r[i].handle) && r[i].handle != e.handle
    {
      assert r[i] in r;
    }
    forall h
      ensures HasHandle(r, h) <==> h in handles - {e.handle}
    {
      if HasHandle(list, h) && h != e.handle {
        var i :| 0 <= i < |list| && list[i].handle == h;
        assert list[i] in r;
      }
    }
  }

  // ---------- the table against the connected handles ----------

  ghost predicate NewestIs(events: seq<Event>, handles: set<nat>, typeOf: nat -> int) {
    var report := Run(events);
    report != [] && TableIs(report[|report| - 1].table, handles, typeOf)
  }

  lemma NewestIsTracked(events: seq<Event>, handles: set<nat>, typeOf: nat -> int)
    requires events != [] && Regular(events, typeOf)
    ensures NewestIs(events, handles, typeOf) <==> handles == Tracked(events)
    ensures |Tracked(events)| <= MAX_NETWORK_HANDLES
  {
    RunTable(events, typeOf);
    var list := Run(events)[|Run(events)| - 1].table;
    assert |list| <= MAX_NETWORK_HANDLES;
    hide Run, Tracked, Regular, TableIs;
    TableCounts(list, Tracked(events), typeOf);
    if TableIs(list, handles, typeOf) {
      TableIsOne(list, handles, Tracked(events), typeOf);
    }
  }

  lemma TableIsOne(list: seq<Entry>, s: set<nat>, t: set<nat>, typeOf: nat -> int)
    requires TableIs(list, s, typeOf) && TableIs(list, t, typeOf)
    ensures s == t
  {
    assert forall h :: h in s <==> HasHandle(list, h);
  }

  lemma TableCounts(list: seq<Entry>, handles: set<nat>, typeOf: nat -> int)
    requires TableIs(list, handles, typeOf)
    ensures |handles| <= MAX_NETWORK_HANDLES
  {
  }

  /** After every event of the run the newest table holds exactly the connected handles. */
  ghost predicate AlwaysExact(events: seq<Event>, typeOf: nat -> int)
    decreases |events|
  {
    events != [] ==>
      NewestIs(events, Connected(events), typeOf) && AlwaysExact(events[..|events| - 1], typeOf)
  }

  /** The table is exact throughout a regular run if and only if the first event is a connect and never more than
      ten handles are connected. */
  lemma {:induction false} AlwaysExactIff(events: seq<Event>, typeOf: nat -> int)
    requires events != [] && Regular(events, typeOf)
    ensures AlwaysExact(events, typeOf) <==> events[0].connected && Within(events)
    decreases |events|
  {
    var init := events[..|events| - 1];
    RegularInit(events, typeOf);
    NewestIsTracked(events, Connected(events), typeOf);
    hide NewestIs, Regular, Tracked, Connected;
    if init == [] {
      FirstCounts(events);
      assert AlwaysExact(init, typeOf) && Within(init) by { NothingYet(typeOf); }
    } else {
      AlwaysExactIff(init, typeOf);
    }
    if events[0].connected && Within(events) {
      TrackedWhenConnected(events);
    }
  }

  lemma NothingYet(typeOf: nat -> int)
    ensures AlwaysExact([], typeOf) && Within([])
  {
  }

  /** After the first event only a connect is exact. */
  lemma FirstCounts(events: seq<Event>)
    requires |events| == 1
    ensures Tracked(events) == Connected(events) <==> events[0].connected
  {
    assert events[..0] == [] && Connected([]) == {};
    assert events[0].handle in Tracked(events);
  }

  lemma {:induction false} TrackedWhenConnected(events: seq<Event>)
    requires events != [] && events[0].connected && Within(events)
    ensures Tracked(events) == Connected(events)
    decreases |events|
  {
    var init, ev := events[..|events| - 1], events[|events| - 1];
    if init == [] {
      assert Connected(init) == {};
    } else {
      TrackedWhenConnected(init);
      if ev.connected && |Connected(init)| == MAX_NETWORK_HANDLES {
        FullAlready(Connected(init), ev.handle);
      }
    }
  }

  /** A set of ten that takes one more and stays within ten had it. */
  lemma FullAlready(s: set<nat>, h: nat)
    requires |s| == MAX_NETWORK_HANDLES && |s + {h}| <= MAX_NETWORK_HANDLES
    ensures s + {h} == s
  {
  }

  /** The first event is a disconnect, and its handle is not heard of again. */
  predicate Phantom(events: seq<Event>) {
    events != [] && !events[0].connected && forall i :: 0 < i < |events| ==> events[i].handle != events[0].handle
  }

  /** While no connect is turned away, the table follows exactly the connected handles, and the phantom if there
      is one. */
  lemma {:induction false} TrackedIsConnected(events: seq<Event>)
    requires events != [] && NoneTurnedAway(events)
    ensures Phantom(events) ==> Tracked(events) == Connected(events) + {events[0].handle}
    ensures Phantom(events) ==> events[0].handle !in Connected(events)
    ensures !Phantom(events) ==> Tracked(events) == Connected(events)
    decreases |events|
  {
    hide *;
    if |events| == 1 {
      OneEvent(events);
    } else {
      TrackedGrows(events);
      PhantomGrows(events);
      ConnectedStep(events);
      TurnedAwayStep(events);
      TrackedIsConnected(events[..|events| - 1]);
      OneApart(Connected(events[..|events| - 1]), events[0].handle, events[|events| - 1].handle);
    }
  }

  /** Sets that differ in f, after h comes or goes. */
  lemma OneApart(s: set<nat>, f: nat, h: nat)
    ensures h != f ==> s + {f} + {h} == s + {h} + {f} && s + {f} - {h} == s - {h} + {f}
    ensures h == f ==> s + {f} + {h} == s + {h} && s + {f} - {h} == s - {h}
  {
  }

  lemma OneEvent(events: seq<Event>)
    requires |events| == 1
    ensures Tracked(events) == {events[0].handle} && (Phantom(events) <==> !events[0].connected)
    ensures Connected(events) == if events[0].connected then {events[0].handle} else {}
  {
    assert events[..0] == [] && Connected([]) == {};
  }

  lemma PhantomGrows(events: seq<Event>)
    requires |events| > 1
    ensures Phantom(events) <==> Phantom(events[..|events| - 1]) && events[|events| - 1].handle != events[0].handle
  {
    var init := events[..|events| - 1];
    assert forall i :: 0 <= i < |init| ==> init[i] == events[i];
  }

  lemma TrackedGrows(events: seq<Event>)
    requires |events| > 1 && NoneTurnedAway(events)
    ensures var before, ev := Tracked(events[..|events| - 1]), events[|events| - 1];
      Tracked(events) == if ev.connected then before + {ev.handle} else before - {ev.handle}
  {
    var before, ev := Tracked(events[..|events| - 1]), events[|events| - 1];
    if ev.handle in before {
      assert before + {ev.handle} == before;
    }
  }

  /** In a regular run that turned no connect away the newest table holds exactly the connected handles if and only
      if it has no phantom. */
  lemma TableIsConnectedIff(events: seq<Event>, typeOf: nat -> int)
    requires events != [] && Regular(events, typeOf) && NoneTurnedAway(events)
    ensures NewestIs(events, Connected(events), typeOf) <==> !Phantom(events)
  {
    NewestIsTracked(events, Connected(events), typeOf);
    TrackedIsConnected(events);
    hide Tracked, Connected, Regular, NewestIs, Phantom, NoneTurnedAway;
  }

  /** One disconnect on its own is such a phantom. */
  lemma OnePhantom(ev: Event)
    requires !ev.connected && ev.handle != HANDLE_UNKNOWN && Known(ev.ty)
    ensures var typeOf := (_: nat) => ev.ty;
      && Regular([ev], typeOf) && Within([ev]) && Phantom([ev]) && Connected([ev]) == {}
      && NewestIs([ev], {ev.handle}, typeOf) && !NewestIs([ev], Connected([ev]), typeOf)
  {
    var typeOf := (_: nat) => ev.ty;
    assert [ev][..0] == [];
    assert Connected([]) == {} && Connected([ev]) == {} - {ev.handle};
    NewestIsTracked([ev], {ev.handle}, typeOf);
    NewestIsTracked([ev], {}, typeOf);
    assert ev.handle in Tracked([ev]);
    hide NewestIs, Tracked;
  }

  const WIFI := 1

  function Connects(n: nat): seq<Event> {
    if n == 0 then [] else Connects(n - 1) + [Event(true, n, WIFI, "")]
  }

  function UpTo(n: nat): (s: set<nat>)
    ensures |s| == n && forall h: nat :: h in s <==> 1 <= h <= n
  {
    if n == 0 then {} else UpTo(n - 1) + {n}
  }

  /** After a phantom and n connects. */
  function Crowd(n: nat): seq<Event> {
    [Event(false, 100, WIFI, "")] + Connects(n)
  }

  lemma CrowdGrows(n: nat)
    requires n > 0
    ensures |Crowd(n)| > 1 && Crowd(n)[..|Crowd(n)| - 1] == Crowd(n - 1)
    ensures Crowd(n)[|Crowd(n)| - 1] == Event(true, n, WIFI, "")
  {
  }

  lemma {:induction false} CrowdConnected(n: nat)
    requires n <= MAX_NETWORK_HANDLES
    ensures Connected(Crowd(n)) == UpTo(n) && Within(Crowd(n))
    decreases n
  {
    UpToStep(n);
    hide *;
    if n == 0 {
      CrowdStarts();
    } else {
      CrowdConnected(n - 1);
      CrowdGrows(n);
      ConnectedStep(Crowd(n));
    }
  }

  lemma UpToStep(n: nat)
    ensures UpTo(n) == if n == 0 then {} else UpTo(n - 1) + {n}
    ensures n < 100 ==> 100 !in UpTo(n) && UpTo(n) - {100} == UpTo(n) && UpTo(n) + {100} - {100} == UpTo(n)
  {
  }

  lemma ConnectedStep(events: seq<Event>)
    requires events != []
    ensures var init, ev := events[..|events| - 1], events[|events| - 1];
      && Connected(events) == (if ev.connected then Connected(init) + {ev.handle} else Connected(init) - {ev.handle})
      && (Within(events) <==> |Connected(events)| <= MAX_NETWORK_HANDLES && Within(init))
  {
  }

  lemma CrowdStarts()
    ensures |Crowd(0)| == 1 && Connected(Crowd(0)) == {} && Within(Crowd(0)) && Tracked(Crowd(0)) == {100}
    ensures Regular(Crowd(0), (_: nat) => WIFI)
  {
    var events := Crowd(0);
    assert events == [Event(false, 100, WIFI, "")] && events[..0] == [];
    assert Connected([]) == {} && Within([]);
    assert Connected(events) == {} - {100};
  }

  lemma {:induction false} CrowdTracked(n: nat)
    requires n < MAX_NETWORK_HANDLES
    ensures Tracked(Crowd(n)) == UpTo(n) + {100} && |Tracked(Crowd(n))| == n + 1
    decreases n
  {
    assert 100 !in UpTo(n);
    if n == 0 {
      CrowdStarts();
    } else {
      CrowdTracked(n - 1);
      CrowdGrows(n);
      TrackedStep(Crowd(n));
      hide Crowd, Tracked;
      assert UpTo(n - 1) + {100} + {n} == UpTo(n) + {100};
    }
  }

  lemma {:induction false} CrowdRegulars(n: nat)
    requires n <= MAX_NETWORK_HANDLES
    ensures Regular(Crowd(n), (_: nat) => WIFI)
    decreases n
  {
    hide Crowd, Regular;
    if n == 0 {
      CrowdStarts();
    } else {
      CrowdRegulars(n - 1);
      CrowdRegular(n);
    }
  }

  lemma CrowdRegular(n: nat)
    requires n > 0 && Regular(Crowd(n - 1), (_: nat) => WIFI) && n <= MAX_NETWORK_HANDLES
    ensures Regular(Crowd(n), (_: nat) => WIFI)
  {
    CrowdGrows(n);
    hide Crowd;
    assert forall i :: 0 <= i < |Crowd(n)| - 1 ==> Crowd(n)[i] == Crowd(n - 1)[i];
  }

  /** Without more than ten handles connected at any time, a phantom can still cost the table one: here it holds the
      tenth slot when handle 10 connects, and its late disconnect does not bring handle 10 back. */
  lemma PhantomCostsAHandle()
    ensures var events, typeOf := Crowd(10) + [Event(false, 100, WIFI, "")], (_: nat) => WIFI;
      && Regular(events, typeOf) && Within(events) && !Phantom(events) && !NoneTurnedAway(events)
      && 10 in Connected(events) && 10 !in Tracked(events)
      && NewestIs(events, Tracked(events), typeOf) && !NewestIs(events, Connected(events), typeOf)
  {
    var last, typeOf := Event(false, 100, WIFI, ""), (_: nat) => WIFI;
    var events := Crowd(10) + [last];
    assert MAX_NETWORK_HANDLES == 10;
    hide *;
    LateDisconnect(events, last, typeOf);
    CrowdConnected(10);
    CrowdTracked(9);
    CrowdGrows(10);
    UpToStep(9);
    UpToStep(10);
    TrackedStep(Crowd(10));
    TrackedStep(events);
    ConnectedStep(events);
    TurnedAway(events);
    NewestIsTracked(events, Tracked(events), typeOf);
    NewestIsTracked(events, Connected(events), typeOf);
  }

  lemma TurnedAway(events: seq<Event>)
    requires |events| > 1 && events[..|events| - 1] == Crowd(10)
    ensures !NoneTurnedAway(events)
  {
    assert MAX_NETWORK_HANDLES == 10;
    hide *;
    CrowdGrows(10);
    CrowdTracked(9);
    UpToStep(9);
    TurnedAwayStep(Crowd(10));
    TurnedAwayStep(events);
  }

  lemma TurnedAwayStep(events: seq<Event>)
    requires |events| > 1
    ensures var init, ev := events[..|events| - 1], events[|events| - 1];
      NoneTurnedAway(events) <==>
        NoneTurnedAway(init) && (ev.connected ==> ev.handle in Tracked(init) || |Tracked(init)| < MAX_NETWORK_HANDLES)
  {
  }

  lemma LateDisconnect(events: seq<Event>, last: Event, typeOf: nat -> int)
    requires last == Event(false, 100, WIFI, "") && events == Crowd(10) + [last] && typeOf == ((_: nat) => WIFI)
    ensures |events| > 1 && events[..|events| - 1] == Crowd(10) && events[|events| - 1] == last
    ensures Regular(events, typeOf) && !Phantom(events)
  {
    CrowdRegulars(10);
    CrowdGrows(10);
    assert events[0] == last;
    assert forall i :: 0 <= i < |Crowd(10)| ==> events[i] == Crowd(10)[i];
    assert events[|Crowd(10)|] == last;
  }

  // ---------- in place ----------

  class SystemStatusNetworkInfo {
    const mEvent: Event
    const mAllNetworkHandles: array<Entry>
    var mApn: string

    /** The array is the list followed by unknown entries. */
    ghost predicate Holds(list: seq<Entry>)
      reads mAllNetworkHandles
    {
      && mAllNetworkHandles.Length == MAX_NETWORK_HANDLES && |list| <= MAX_NETWORK_HANDLES
      && (forall i :: 0 <= i < |list| ==> mAllNetworkHandles[i] == list[i])
      && (forall i :: |list| <= i < MAX_NETWORK_HANDLES ==> mAllNetworkHandles[i] == NONE)
    }

    constructor (ev: Event)
      ensures mEvent == ev && mApn == ev.apn && fresh(mAllNetworkHandles) && Holds([Entry(ev.handle, ev.ty)])
    {
      mEvent, mApn := ev, ev.apn;
      mAllNetworkHandles := new Entry[MAX_NETWORK_HANDLES](i => if i == 0 then Entry(ev.handle, ev.ty) else NONE);
    }

    /** The list a proper array holds is the only one. */
    lemma HoldsOne(list: seq<Entry>, other: seq<Entry>)
      requires Holds(list) && Holds(other) && Proper(list) && Proper(other)
      ensures list == other
    {
      assert |list| < MAX_NETWORK_HANDLES ==> mAllNetworkHandles[|list|] == NONE;
      assert |other| < MAX_NETWORK_HANDLES ==> mAllNetworkHandles[|other|] == NONE;
    }

    method Equals(peer: SystemStatusNetworkInfo, ghost list: seq<Entry>, ghost other: seq<Entry>) returns (same: bool)
      requires Holds(list) && Proper(list) && peer.Holds(other) && Proper(other)
      ensures same <==> mEvent.connected == peer.mEvent.connected && list == other && mApn == peer.mApn
    {
      same := peer.mEvent.connected == mEvent.connected;
      var i := 0;
      while same && i < MAX_NETWORK_HANDLES
        invariant 0 <= i <= MAX_NETWORK_HANDLES
        invariant same ==> peer.mEvent.connected == mEvent.connected
        invariant same <==> peer.mEvent.connected == mEvent.connected
                            && forall k :: 0 <= k < i ==> mAllNetworkHandles[k] == peer.mAllNetworkHandles[k]
      {
        same := same && mAllNetworkHandles[i] == peer.mAllNetworkHandles[i];
        i := i + 1;
      }
      if same {
        assert Holds(other);
        HoldsOne(list, other);
      }
      same := same && peer.mApn == mApn;
    }

    method Collate(curInfo: SystemStatusNetworkInfo, ghost list: seq<Entry>)
      requires curInfo.Holds(list) && Proper(list) && mAllNetworkHandles.Length == MAX_NETWORK_HANDLES
      requires mAllNetworkHandles != curInfo.mAllNetworkHandles && mApn == mEvent.apn
      modifies `mApn, mAllNetworkHandles
      ensures Holds(Collated(list, mEvent)) && mApn == Apn(old(curInfo.mApn), mEvent)
    {
      var cached := curInfo.mApn;
      CopyTable(curInfo, list);
      if TYPE_MOBILE != mEvent.ty && cached != "" {
        mApn := cached;
      }
      if mEvent.connected {
        AddHandle(list);
      } else if Known(mEvent.ty) {
        DropHandle(list);
      }
    }

    method CopyTable(curInfo: SystemStatusNetworkInfo, ghost list: seq<Entry>)
      requires curInfo.Holds(list) && mAllNetworkHandles.Length == MAX_NETWORK_HANDLES
      requires mAllNetworkHandles != curInfo.mAllNetworkHandles
      modifies mAllNetworkHandles
      ensures Holds(list)
    {
      for i := 0 to MAX_NETWORK_HANDLES
        invariant forall k :: 0 <= k < i ==> mAllNetworkHandles[k] == curInfo.mAllNetworkHandles[k]
      {
        mAllNetworkHandles[i] := curInfo.mAllNetworkHandles[i];
      }
    }

    method AddHandle(ghost list: seq<Entry>)
      requires Holds(list) && Proper(list)
      modifies mAllNetworkHandles
      ensures Holds(Connect(list, Entry(mEvent.handle, mEvent.ty)))
    {
      var i := 0;
      while i < MAX_NETWORK_HANDLES
        invariant 0 <= i <= |list| && Holds(list)
        invariant forall k :: 0 <= k < i ==> list[k].handle != mEvent.handle
      {
        if mEvent.handle == mAllNetworkHandles[i].handle {
          if i < |list| {
            assert list[i].handle == mEvent.handle;
          }
          return;
        }
        if HANDLE_UNKNOWN == mAllNetworkHandles[i].handle {
          assert i == |list|;
          mAllNetworkHandles[i] := Entry(mEvent.handle, mEvent.ty);
          return;
        }
        i := i + 1;
      }
    }

    method DropHandle(ghost list: seq<Entry>)
      requires Holds(list) && Proper(list) && Known(mEvent.ty)
      modifies mAllNetworkHandles
      ensures Holds(Disconnect(list, Entry(mEvent.handle, mEvent.ty)))
    {
      hide Disconnect, GapFill.IndexOf, Proper;
      var deletedIndex, lastValidIndex := FindHandle(list);
      Disconnected(list, Entry(mEvent.handle, mEvent.ty));
      if lastValidIndex > 0 {
        lastValidIndex := lastValidIndex - 1;
      }
      if MAX_NETWORK_HANDLES != deletedIndex {
        mAllNetworkHandles[deletedIndex] := mAllNetworkHandles[lastValidIndex];
        mAllNetworkHandles[lastValidIndex] := NONE;
      }
    }

    /** Where the handle is, if it is listed, and the first place that is free. */
    method FindHandle(ghost list: seq<Entry>) returns (deletedIndex: nat, lastValidIndex: nat)
      requires Holds(list) && Proper(list)
      ensures var j := GapFill.IndexOf(list, Entry(mEvent.handle, mEvent.ty));
        lastValidIndex == |list| && deletedIndex == if j < |list| then j else MAX_NETWORK_HANDLES
    {
      ghost var e := Entry(mEvent.handle, mEvent.ty);
      deletedIndex, lastValidIndex := MAX_NETWORK_HANDLES, 0;
      while lastValidIndex < MAX_NETWORK_HANDLES && HANDLE_UNKNOWN != mAllNetworkHandles[lastValidIndex].handle
        invariant 0 <= lastValidIndex <= |list|
        invariant if deletedIndex == MAX_NETWORK_HANDLES then forall k :: 0 <= k < lastValidIndex ==> list[k] != e
                  else 0 <= deletedIndex < lastValidIndex && list[deletedIndex] == e
      {
        var entry := mAllNetworkHandles[lastValidIndex];
        if mEvent.ty == entry.ty && mEvent.handle == entry.handle {
          deletedIndex := lastValidIndex;
        }
        lastValidIndex := lastValidIndex + 1;
      }
      if deletedIndex != MAX_NETWORK_HANDLES {
        assert list[GapFill.IndexOf(list, e)].handle == list[deletedIndex].handle;
      }
    }
  }

  lemma CollatedProper(list: seq<Entry>, ev: Event)
    requires Proper(list)
    ensures Proper(Collated(list, ev))
  {
    var e := Entry(ev.handle, ev.ty);
    if ev.connected {
      ConnectKeeps(list, e);
    } else if Known(ev.ty) {
      DisconnectKeeps(list, e);
    }
  }

  /** The cached network items. */
  class NetworkReport {
    var mNetworkInfo: seq<SystemStatusNetworkInfo>
    ghost var items: seq<Item>

    ghost predicate Carries(s: SystemStatusNetworkInfo, item: Item)
      reads s, s.mAllNetworkHandles
    {
      s.Holds(item.table) && Proper(item.table) && s.mApn == item.apn && s.mEvent == item.event
    }

    ghost predicate AllCarry(infos: seq<SystemStatusNetworkInfo>, list: seq<Item>)
      requires |infos| == |list|
      reads infos, set s | s in infos :: s.mAllNetworkHandles
    {
      forall i :: 0 <= i < |list| ==> Carries(infos[i], list[i])
    }

    ghost predicate Valid()
      reads this, mNetworkInfo, set s | s in mNetworkInfo :: s.mAllNetworkHandles
    {
      |mNetworkInfo| == |items| <= MAX_ITEM && AllCarry(mNetworkInfo, items)
    }

    constructor ()
      ensures Valid() && items == []
    {
      mNetworkInfo, items := [], [];
    }

    /** Collates a new item with the newest one, and caches it when it differs; the first is cached as it comes. */
    method SetItemInReport(s: SystemStatusNetworkInfo) returns (updated: bool)
      requires Valid() && Carries(s, Item(s.mEvent, [Entry(s.mEvent.handle, s.mEvent.ty)], s.mEvent.apn))
      requires forall x :: x in mNetworkInfo ==> x != s && x.mAllNetworkHandles != s.mAllNetworkHandles
      modifies this, s`mApn, s.mAllNetworkHandles
      ensures Valid() && items == Cache(old(items), s.mEvent)
      ensures updated <==>
        old(items) == [] || !Alike(old(items)[|old(items)| - 1], Successor(old(items)[|old(items)| - 1], s.mEvent))
    {
      hide *;
      ghost var item := Item(s.mEvent, [Entry(s.mEvent.handle, s.mEvent.ty)], s.mEvent.apn);
      SameLength();
      CacheCases(items, s.mEvent);
      if |mNetworkInfo| > 0 {
        var back := mNetworkInfo[|mNetworkInfo| - 1];
        item := Successor(items[|items| - 1], s.mEvent);
        CollateWithNewest(s, back);
        var same := EqualsNewest(back, s);
        if same {
          return false;
        }
      }
      PushItem(s, item);
      return true;
    }

    lemma SameLength()
      requires Valid()
      ensures |mNetworkInfo| == |items|
    {
    }

    method PushItem(s: SystemStatusNetworkInfo, ghost item: Item)
      requires Valid() && Carries(s, item)
      modifies this
      ensures Valid()
      ensures items == if |old(items)| == MAX_ITEM then old(items)[1..] + [item] else old(items) + [item]
      ensures old(items) == [] ==> items == [item]
    {
      hide AllCarry, Carries;
      Lengthened(mNetworkInfo, items, s, item);
      mNetworkInfo, items := mNetworkInfo + [s], items + [item];
      if |mNetworkInfo| > MAX_ITEM {
        Shortened(mNetworkInfo, items);
        mNetworkInfo, items := mNetworkInfo[1..], items[1..];
      }
    }

    lemma Lengthened(infos: seq<SystemStatusNetworkInfo>, list: seq<Item>, s: SystemStatusNetworkInfo, item: Item)
      requires |infos| == |list| && AllCarry(infos, list) && Carries(s, item)
      ensures AllCarry(infos + [s], list + [item])
    {
      hide Carries;
    }

    lemma Shortened(infos: seq<SystemStatusNetworkInfo>, list: seq<Item>)
      requires |infos| == |list| > 0 && AllCarry(infos, list)
      ensures AllCarry(infos[1..], list[1..])
    {
      hide Carries;
    }

    lemma NewestCarries()
      requires Valid() && mNetworkInfo != []
      ensures Carries(mNetworkInfo[|mNetworkInfo| - 1], items[|items| - 1])
    {
      hide Carries;
    }

    method CollateWithNewest(s: SystemStatusNetworkInfo, back: SystemStatusNetworkInfo)
      requires Valid() && Carries(s, Item(s.mEvent, [Entry(s.mEvent.handle, s.mEvent.ty)], s.mEvent.apn))
      requires mNetworkInfo != [] && back == mNetworkInfo[|mNetworkInfo| - 1]
      requires forall x :: x in mNetworkInfo ==> x != s && x.mAllNetworkHandles != s.mAllNetworkHandles
      modifies s`mApn, s.mAllNetworkHandles
      ensures Valid() && Carries(s, Successor(items[|items| - 1], s.mEvent))
    {
      hide AllCarry, Proper, Collated, Apn;
      ghost var newest := items[|items| - 1];
      NewestCarries();
      CollatedProper(newest.table, s.mEvent);
      s.Collate(back, newest.table);
    }

    method EqualsNewest(back: SystemStatusNetworkInfo, s: SystemStatusNetworkInfo) returns (same: bool)
      requires Valid() && mNetworkInfo != [] && back == mNetworkInfo[|mNetworkInfo| - 1]
      requires Carries(s, Successor(items[|items| - 1], s.mEvent))
      ensures same <==> Alike(items[|items| - 1], Successor(items[|items| - 1], s.mEvent))
    {
      hide AllCarry, Proper, Collated, Apn;
      ghost var newest := items[|items| - 1];
      NewestCarries();
      same := back.Equals(s, newest.table, Collated(newest.table, s.mEvent));
    }
  }
}
