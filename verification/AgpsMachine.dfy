/** The AGPS connection state machine as a value: one transition function over state, subscribers and outputs. */
module AgpsMachine {
  datatype AgpsState = Released | Pending | Acquired | Releasing
  datatype AgpsEvent = EvSubscribe | EvUnsubscribe | EvGranted | EvReleased | EvDenied
  datatype AgpsType = TypeInvalid | TypeAny | TypeSupl | TypeC2k | TypeWwanAny | TypeWifi | TypeSuplEs
  datatype Audience = AllSubscribers | InactiveSubscribers | ActiveSubscribers

  datatype Sub = Sub(handle: int, waits: bool, inactive: bool)

  /** What the machine says: status callbacks to a subscriber, and commands to the framework. */
  datatype Output =
    | OpenStatus(handle: int, success: bool)
    | CloseStatus(handle: int)
    | Request(ty: AgpsType)
    | Release(ty: AgpsType)

  datatype Machine = Machine(state: AgpsState, subs: seq<Sub>, ty: AgpsType, out: seq<Output>)

  // ---------- the subscriber list ----------

  predicate Listed(subs: seq<Sub>, h: int) {
    exists i :: 0 <= i < |subs| && subs[i].handle == h
  }

  predicate AnyActive(subs: seq<Sub>) {
    exists i :: 0 <= i < |subs| && !subs[i].inactive
  }

  ghost predicate AnyInactive(subs: seq<Sub>) {
    exists i :: 0 <= i < |subs| && subs[i].inactive
  }

  ghost predicate DistinctHandles(subs: seq<Sub>) {
    forall i, j :: 0 <= i < j < |subs| ==> subs[i].handle != subs[j].handle
  }

  ghost predicate AllWait(subs: seq<Sub>) {
    forall i :: 0 <= i < |subs| ==> subs[i].waits
  }

  /** A handle that is already listed is not added again. */
  function Add(subs: seq<Sub>, s: Sub): seq<Sub> {
    if Listed(subs, s.handle) then subs else subs + [s]
  }

  function Delete(subs: seq<Sub>, h: int): seq<Sub> {
    if subs == [] then [] else
    var rest, last := Delete(subs[..|subs| - 1], h), subs[|subs| - 1];
    if last.handle == h then rest else rest + [last]
  }

  function MarkInactive(subs: seq<Sub>, h: int): (r: seq<Sub>)
    ensures |r| == |subs|
    ensures forall i :: 0 <= i < |subs| ==> r[i] == if subs[i].handle == h then subs[i].(inactive := true) else subs[i]
  {
    seq(|subs|, i requires 0 <= i < |subs| =>
      if subs[i].handle == h then subs[i].(inactive := true) else subs[i])
  }

  predicate Addressed(a: Audience, s: Sub) {
    a == AllSubscribers || (a == InactiveSubscribers && s.inactive) || (a == ActiveSubscribers && !s.inactive)
  }

  function Kept(subs: seq<Sub>, a: Audience): seq<Sub> {
    if subs == [] then [] else
    var rest, last := Kept(subs[..|subs| - 1], a), subs[|subs| - 1];
    if Addressed(a, last) then rest else rest + [last]
  }

  function Note(ev: AgpsEvent, h: int): seq<Output> {
    match ev
    case EvGranted => [OpenStatus(h, true)]
    case EvDenied => [OpenStatus(h, false)]
    case EvUnsubscribe => [CloseStatus(h)]
    case EvReleased => [CloseStatus(h)]
    case EvSubscribe => []
  }

  function Notes(ev: AgpsEvent, subs: seq<Sub>, a: Audience): seq<Output> {
    if subs == [] then [] else
    var rest, last := Notes(ev, subs[..|subs| - 1], a), subs[|subs| - 1];
    if Addressed(a, last) then rest + Note(ev, last.handle) else rest
  }

  // ---------- transitions ----------

  function Say(m: Machine, out: seq<Output>): Machine {
    m.(out := m.out + out)
  }

  function OnSubscribe(m: Machine, cur: Sub): Machine {
    match m.state
    case Released => Say(m.(subs := Add(m.subs, cur), state := Pending), [Request(m.ty)])
    case Pending => m.(subs := Add(m.subs, cur))
    case Acquired => Say(m.(subs := Add(m.subs, cur)), Note(EvGranted, cur.handle))
    case Releasing => m.(subs := Add(m.subs, cur))
  }

  /** The current subscriber either waits, inactive, for the close, or is told and dropped at once. */
  function Retire(m: Machine, cur: Sub): Machine {
    if cur.waits then m.(subs := MarkInactive(m.subs, cur.handle))
    else Say(m.(subs := Delete(m.subs, cur.handle)), Note(EvUnsubscribe, cur.handle))
  }

  function OnUnsubscribe(m: Machine, cur: Sub): Machine {
    match m.state
    case Released => Say(m, Note(EvUnsubscribe, cur.handle))
    case Releasing =>
      var m' := Retire(m, cur);
      if m'.subs == [] then m'.(state := Released) else m'
    case _ =>
      var m' := Retire(m, cur);
      if m'.subs == [] then Say(m'.(state := Released), [Release(m.ty)])
      else if !AnyActive(m'.subs) then Say(m'.(state := Releasing), [Release(m.ty)])
      else m'
  }

  function OnGranted(m: Machine): Machine {
    if m.state == Pending
    then Say(m.(state := Acquired), Notes(EvGranted, m.subs, ActiveSubscribers))
    else m
  }

  /** The close that RELEASING waits for: drop the inactive, and ask again if others came meanwhile. */
  function Closed(m: Machine): Machine {
    var m' := Say(m.(subs := Kept(m.subs, InactiveSubscribers)), Notes(EvReleased, m.subs, InactiveSubscribers));
    if AnyActive(m'.subs) then Say(m'.(state := Pending), [Request(m.ty)]) else m'.(state := Released)
  }

  function OnReleased(m: Machine): Machine {
    match m.state
    case Acquired =>
      Say(m.(state := Released, subs := Kept(m.subs, AllSubscribers)), Notes(EvReleased, m.subs, AllSubscribers))
    case Releasing => Closed(m)
    case _ => m
  }

  function OnDenied(m: Machine): Machine {
    match m.state
    case Pending =>
      Say(m.(state := Released, subs := Kept(m.subs, AllSubscribers)), Notes(EvDenied, m.subs, AllSubscribers))
    case Releasing => Closed(m)
    case _ => m
  }

  function Process(m: Machine, ev: AgpsEvent, cur: Sub): Machine {
    match ev
    case EvSubscribe => OnSubscribe(m, cur)
    case EvUnsubscribe => OnUnsubscribe(m, cur)
    case EvGranted => OnGranted(m)
    case EvReleased => OnReleased(m)
    case EvDenied => OnDenied(m)
  }

  // ---------- dispatch ----------

  /** Without the emergency PDN an emergency SUPL request counts as SUPL. */
  function Effective(ty: AgpsType, emergencyPdn: bool): AgpsType {
    if ty == TypeSuplEs && !emergencyPdn then TypeSupl else ty
  }

  /** The types that belong to the AGNSS machine; all others go to the internet machine. */
  predicate ForAgnss(ty: AgpsType) {
    ty == TypeInvalid || ty == TypeSupl || ty == TypeSuplEs
  }

  /** The listed subscriber with handle h. */
  function Find(subs: seq<Sub>, h: int): (s: Sub)
    requires Listed(subs, h)
    ensures s in subs && s.handle == h
  {
    if subs[0].handle == h then subs[0] else
    assert Listed(subs[1..], h) by {
      var i :| 0 <= i < |subs| && subs[i].handle == h;
      assert subs[1..][i - 1].handle == h;
    }
    Find(subs[1..], h)
  }

  // ---------- facts about the list functions ----------

  function Handles(subs: seq<Sub>): multiset<int> {
    if subs == [] then multiset{} else Handles(subs[..|subs| - 1]) + multiset{subs[|subs| - 1].handle}
  }

  /** The subscribers that a stretch of output tells for good: open failed, or closed. */
  function Terminals(out: seq<Output>): multiset<int> {
    if out == [] then multiset{} else
    var rest := Terminals(out[..|out| - 1]);
    match out[|out| - 1]
    case OpenStatus(h, success) => if success then rest else rest + multiset{h}
    case CloseStatus(h) => rest + multiset{h}
    case _ => rest
  }

  lemma {:induction false} TerminalsConcat(a: seq<Output>, b: seq<Output>)
    ensures Terminals(a + b) == Terminals(a) + Terminals(b)
    decreases |b|
  {
    if b == [] {
      assert a + b == a;
    } else {
      var init := b[..|b| - 1];
      assert (a + b)[..|a + b| - 1] == a + init;
      TerminalsConcat(a, init);
    }
  }

  lemma {:induction false} NotesTerminals(ev: AgpsEvent, subs: seq<Sub>, a: Audience)
    requires ev == EvDenied || ev == EvReleased
    ensures Terminals(Notes(ev, subs, a)) + Handles(Kept(subs, a)) == Handles(subs)
    decreases |subs|
  {
    if subs != [] {
      hide *;
      var init, last := subs[..|subs| - 1], subs[|subs| - 1];
      NotesTerminals(ev, init, a);
      assert subs == init + [last];
      ToldAndKept(ev, init, last, a);
      HandlesConcat(init, last);
      if Addressed(a, last) {
        OneTold(ev, init, last.handle, a);
      } else {
        OneKept(ev, init, last, a);
      }
    } else {
      NobodyListed(ev, a);
    }
  }

  lemma OneTold(ev: AgpsEvent, subs: seq<Sub>, h: int, a: Audience)
    requires ev == EvDenied || ev == EvReleased
    requires Terminals(Notes(ev, subs, a)) + Handles(Kept(subs, a)) == Handles(subs)
    ensures Terminals(Notes(ev, subs, a) + Note(ev, h)) + Handles(Kept(subs, a)) == Handles(subs) + multiset{h}
  {
    hide *;
    NoteTerminal(ev, h);
    TerminalsConcat(Notes(ev, subs, a), Note(ev, h));
  }

  lemma OneKept(ev: AgpsEvent, subs: seq<Sub>, s: Sub, a: Audience)
    requires Terminals(Notes(ev, subs, a)) + Handles(Kept(subs, a)) == Handles(subs)
    ensures Terminals(Notes(ev, subs, a)) + Handles(Kept(subs, a) + [s]) == Handles(subs) + multiset{s.handle}
  {
    hide *;
    HandlesConcat(Kept(subs, a), s);
  }

  lemma NobodyListed(ev: AgpsEvent, a: Audience)
    ensures Terminals(Notes(ev, [], a)) + Handles(Kept([], a)) == Handles([])
  {
  }

  lemma NoteTerminal(ev: AgpsEvent, h: int)
    ensures Terminals(Note(ev, h)) == if ev == EvGranted || ev == EvSubscribe then multiset{} else multiset{h}
  {
    assert forall o: Output :: Terminals([o]) == match o
      case OpenStatus(h, success) => if success then multiset{} else multiset{h}
      case CloseStatus(h) => multiset{h}
      case _ => multiset{};
  }

  lemma HandlesConcat(subs: seq<Sub>, s: Sub)
    ensures Handles(subs + [s]) == Handles(subs) + multiset{s.handle}
  {
    assert (subs + [s])[..|subs + [s]| - 1] == subs;
  }

  lemma {:induction false} GrantsAreNotTerminal(subs: seq<Sub>, a: Audience)
    ensures Terminals(Notes(EvGranted, subs, a)) == multiset{}
    decreases |subs|
  {
    if subs != [] {
      var init, last := subs[..|subs| - 1], subs[|subs| - 1];
      GrantsAreNotTerminal(init, a);
      NoteTerminal(EvGranted, last.handle);
      TerminalsConcat(Notes(EvGranted, init, a), Note(EvGranted, last.handle));
    }
  }

  lemma {:induction false} MarkKeepsHandles(subs: seq<Sub>, h: int)
    ensures Handles(MarkInactive(subs, h)) == Handles(subs)
    decreases |subs|
  {
    if subs != [] {
      var init := subs[..|subs| - 1];
      MarkKeepsHandles(init, h);
      assert MarkInactive(subs, h)[..|subs| - 1] == MarkInactive(init, h);
    }
  }

  lemma ToldAndKept(ev: AgpsEvent, subs: seq<Sub>, s: Sub, a: Audience)
    ensures Kept(subs + [s], a) == if Addressed(a, s) then Kept(subs, a) else Kept(subs, a) + [s]
    ensures Notes(ev, subs + [s], a)
         == if Addressed(a, s) then Notes(ev, subs, a) + Note(ev, s.handle) else Notes(ev, subs, a)
  {
    assert (subs + [s])[..|subs + [s]| - 1] == subs;
  }

  /** Who stays when some are told: exactly the others, in order. */
  lemma {:induction false} KeptMembers(subs: seq<Sub>, a: Audience)
    ensures forall i :: 0 <= i < |Kept(subs, a)| ==> Kept(subs, a)[i] in subs && !Addressed(a, Kept(subs, a)[i])
    ensures forall i :: 0 <= i < |subs| && !Addressed(a, subs[i]) ==> subs[i] in Kept(subs, a)
    ensures DistinctHandles(subs) ==> DistinctHandles(Kept(subs, a))
    decreases |subs|
  {
    if subs != [] {
      var init, last := subs[..|subs| - 1], subs[|subs| - 1];
      KeptMembers(init, a);
      var k := Kept(init, a);
      assert forall i :: 0 <= i < |k| ==> k[i] in init;
      assert Kept(subs, a) == if Addressed(a, last) then k else k + [last];
    }
  }

  lemma KeptDistinct(subs: seq<Sub>, a: Audience)
    requires DistinctHandles(subs)
    ensures DistinctHandles(Kept(subs, a))
  {
    KeptMembers(subs, a);
  }

  // ---------- invariants of one transition ----------

  /** Without a modem restart: state and list agree. */
  ghost predicate Agrees(m: Machine) {
    && DistinctHandles(m.subs) && AllWait(m.subs)
    && (m.state == Released <==> m.subs == [])
    && (m.state == Pending || m.state == Acquired ==> AnyActive(m.subs))
    && (m.state == Releasing ==> AnyInactive(m.subs))
  }

  /** What survives a modem restart, which empties the list and leaves the state. */
  ghost predicate Sound(m: Machine) {
    DistinctHandles(m.subs) && AllWait(m.subs) && (m.state == Released ==> m.subs == [])
  }

  /** Subscribers arrive active and waiting; the one that unsubscribes is listed. */
  predicate Admissible(m: Machine, ev: AgpsEvent, cur: Sub) {
    && (ev == EvSubscribe ==> cur.waits && !cur.inactive)
    && (ev == EvUnsubscribe ==> cur in m.subs)
  }

  lemma AddFacts(subs: seq<Sub>, s: Sub)
    requires DistinctHandles(subs) && AllWait(subs) && s.waits && !s.inactive
    ensures var r := Add(subs, s);
      && DistinctHandles(r) && AllWait(r) && r != [] && Listed(r, s.handle)
      && (AnyActive(subs) || subs == [] ==> AnyActive(r)) && (AnyInactive(subs) ==> AnyInactive(r))
      && Handles(r) == Handles(subs) + if Listed(subs, s.handle) then multiset{} else multiset{s.handle}
  {
    HandlesConcat(subs, s);
    var r := Add(subs, s);
    if !Listed(subs, s.handle) {
      assert r[|subs|] == s;
      if AnyInactive(subs) {
        var i :| 0 <= i < |subs| && subs[i].inactive;
        assert r[i].inactive;
      }
    }
  }

  lemma MarkFacts(subs: seq<Sub>, h: int)
    requires DistinctHandles(subs) && AllWait(subs) && Listed(subs, h)
    ensures var r := MarkInactive(subs, h); DistinctHandles(r) && AllWait(r) && r != [] && AnyInactive(r)
  {
    var i :| 0 <= i < |subs| && subs[i].handle == h;
    assert MarkInactive(subs, h)[i].inactive;
  }

  lemma {:induction false} KeepAllEmpty(subs: seq<Sub>)
    ensures Kept(subs, AllSubscribers) == []
    decreases |subs|
  {
    if subs != [] {
      KeepAllEmpty(subs[..|subs| - 1]);
    }
  }

  /** After a close only active subscribers are left. */
  lemma KeptAreActive(subs: seq<Sub>)
    requires DistinctHandles(subs) && AllWait(subs)
    ensures var r := Kept(subs, InactiveSubscribers);
      DistinctHandles(r) && AllWait(r) && (AnyActive(r) <==> r != []) && (AnyActive(r) <==> AnyActive(subs))
  {
    KeptMembers(subs, InactiveSubscribers);
    var r := Kept(subs, InactiveSubscribers);
    if r != [] {
      assert !r[0].inactive;
    }
    if AnyActive(subs) {
      var i :| 0 <= i < |subs| && !subs[i].inactive;
      assert subs[i] in r;
    }
    if AnyActive(r) {
      var i :| 0 <= i < |r| && !r[i].inactive;
      assert r[i] in subs;
    }
  }

  /** Every transition keeps state and list in agreement. */
  lemma ProcessKeepsAgreement(m: Machine, ev: AgpsEvent, cur: Sub)
    requires Agrees(m) && Admissible(m, ev, cur)
    ensures Agrees(Process(m, ev, cur))
  {
    hide MarkInactive;
    match ev
    case EvSubscribe => AddFacts(m.subs, cur);
    case EvUnsubscribe => MarkFacts(m.subs, cur.handle);
    case EvGranted =>
    case EvReleased =>
      KeptAreActive(m.subs);
      KeepAllEmpty(m.subs);
    case EvDenied =>
      KeptAreActive(m.subs);
      KeepAllEmpty(m.subs);
  }

  lemma ProcessKeepsSound(m: Machine, ev: AgpsEvent, cur: Sub)
    requires Sound(m) && Admissible(m, ev, cur)
    ensures Sound(Process(m, ev, cur))
  {
    hide MarkInactive;
    match ev
    case EvSubscribe => AddFacts(m.subs, cur);
    case EvUnsubscribe => MarkFacts(m.subs, cur.handle);
    case EvGranted =>
    case EvReleased =>
      KeptAreActive(m.subs);
      KeepAllEmpty(m.subs);
    case EvDenied =>
      KeptAreActive(m.subs);
      KeepAllEmpty(m.subs);
  }

  // ---------- who comes and goes ----------

  lemma {:induction false} DeletedMembers(subs: seq<Sub>, h: int)
    ensures forall s :: s in Delete(subs, h) <==> s in subs && s.handle != h
    ensures |Delete(subs, h)| <= |subs|
    decreases |subs|
  {
    if subs != [] {
      var init, last := subs[..|subs| - 1], subs[|subs| - 1];
      DeletedMembers(init, h);
      assert forall s :: s in subs <==> s in init || s == last;
    }
  }

  /** A subscriber that waits for the close stays, marked inactive, and is told nothing; one that does not is told
      of its close and goes. When that leaves nobody active, an asked or held connection is given back, and the
      machine waits for the close of those who stayed, if any; with nobody left it is RELEASED. */
  lemma UnsubscribeOutcome(m: Machine, cur: Sub)
    requires m.state != Released
    ensures var m' := OnUnsubscribe(m, cur);
      var told := if cur.waits then [] else [CloseStatus(cur.handle)];
      && m'.ty == m.ty
      && (cur.waits ==> |m'.subs| == |m.subs| && forall i :: 0 <= i < |m.subs| ==>
            m'.subs[i] == if m.subs[i].handle == cur.handle then m.subs[i].(inactive := true) else m.subs[i])
      && (!cur.waits ==> forall s :: s in m'.subs <==> s in m.subs && s.handle != cur.handle)
      && (if m.state != Releasing && forall s :: s in m'.subs ==> s.inactive
          then m'.out == m.out + told + [Release(m.ty)] && m'.state == if m'.subs == [] then Released else Releasing
          else m'.out == m.out + told && m'.state == if m'.subs == [] then Released else m.state)
  {
    DeletedMembers(m.subs, cur.handle);
    var m' := OnUnsubscribe(m, cur);
    ActiveMeans(m'.subs);
    hide Delete, MarkInactive, AnyActive;
  }

  lemma ActiveMeans(subs: seq<Sub>)
    ensures AnyActive(subs) <==> exists s :: s in subs && !s.inactive
  {
    if s :| s in subs && !s.inactive {
      var i :| 0 <= i < |subs| && subs[i] == s;
      assert !subs[i].inactive;
    }
  }

  /** A newcomer is added once, is told of an open connection at once, and makes a RELEASED machine ask for one. */
  lemma SubscribeOutcome(m: Machine, cur: Sub)
    ensures var m' := OnSubscribe(m, cur);
      && m'.ty == m.ty && m'.state == (if m.state == Released then Pending else m.state)
      && m'.subs == (if exists s :: s in m.subs && s.handle == cur.handle then m.subs else m.subs + [cur])
      && m'.out == m.out + if m.state == Released then [Request(m.ty)]
                           else if m.state == Acquired then [OpenStatus(cur.handle, true)]
                           else []
  {
    if s :| s in m.subs && s.handle == cur.handle {
      var i :| 0 <= i < |m.subs| && m.subs[i] == s;
      assert m.subs[i].handle == cur.handle;
    }
  }

  // ---------- the connection, watched from outside ----------

  /** The framework's connection as an observer of commands and answers sees it. */
  datatype Link = NoLink | Asked | Up | Misused

  function HearEvent(l: Link, ev: AgpsEvent): Link {
    if l == Asked && ev == EvGranted then Up
    else if l == Asked && ev == EvDenied then NoLink
    else if l == Up && ev == EvReleased then NoLink
    else l
  }

  /** A request is in order only without a link, a release only with one. */
  function SeeOutput(l: Link, o: Output): Link {
    match o
    case Request(_) => if l == NoLink then Asked else Misused
    case Release(_) => if l == Asked || l == Up then NoLink else Misused
    case _ => l
  }

  function SeeOutputs(l: Link, out: seq<Output>): Link {
    if out == [] then l else SeeOutput(SeeOutputs(l, out[..|out| - 1]), out[|out| - 1])
  }

  /** The link each state stands for. */
  function LinkOf(s: AgpsState): Link {
    match s
    case Pending => Asked
    case Acquired => Up
    case _ => NoLink
  }

  lemma {:induction false} SeeConcat(l: Link, a: seq<Output>, b: seq<Output>)
    ensures SeeOutputs(l, a + b) == SeeOutputs(SeeOutputs(l, a), b)
    decreases |b|
  {
    if b == [] {
      assert a + b == a;
    } else {
      assert (a + b)[..|a + b| - 1] == a + b[..|b| - 1];
      SeeConcat(l, a, b[..|b| - 1]);
    }
  }

  lemma {:induction false} NotesKeepLink(l: Link, ev: AgpsEvent, subs: seq<Sub>, a: Audience)
    ensures SeeOutputs(l, Notes(ev, subs, a)) == l
    decreases |subs|
  {
    if subs != [] {
      var init, last := subs[..|subs| - 1], subs[|subs| - 1];
      NotesKeepLink(l, ev, init, a);
      NoteKeepsLink(l, ev, last.handle);
      SeeConcat(l, Notes(ev, init, a), Note(ev, last.handle));
    }
  }

  lemma NoteKeepsLink(l: Link, ev: AgpsEvent, h: int)
    ensures SeeOutputs(l, Note(ev, h)) == l
  {
    forall o: Output
      ensures SeeOutputs(l, [o]) == SeeOutput(l, o)
    {
      assert [o][..0] == [];
    }
  }

  /** From m to m' the output only grew, and an observer that had seen l now sees the link of the new state. */
  ghost predicate Tracks(m: Machine, l: Link, m': Machine) {
    m.out <= m'.out && SeeOutputs(l, m'.out[|m.out|..]) == LinkOf(m'.state)
  }

  lemma SayTracks(m: Machine, l: Link, m': Machine, out: seq<Output>)
    requires m'.out == m.out + out && SeeOutputs(l, out) == LinkOf(m'.state)
    ensures Tracks(m, l, m')
  {
    assert m'.out[|m.out|..] == out;
  }

  /** In every state and for every event, whatever the list holds, a request goes out only when no
      connection is outstanding, a release only when one is, and the state tells which is the case. */
  lemma ProcessKeepsLink(m: Machine, ev: AgpsEvent, cur: Sub)
    ensures Tracks(m, HearEvent(LinkOf(m.state), ev), Process(m, ev, cur))
  {
    match ev
    case EvSubscribe => SubscribeTracks(m, cur);
    case EvUnsubscribe => UnsubscribeTracks(m, cur);
    case EvGranted => GrantedTracks(m);
    case EvReleased => ReleasedTracks(m);
    case EvDenied => DeniedTracks(m);
  }

  lemma ProcessAppends(m: Machine, ev: AgpsEvent, cur: Sub)
    ensures m.out <= Process(m, ev, cur).out
  {
    ProcessKeepsLink(m, ev, cur);
  }

  lemma SubscribeTracks(m: Machine, cur: Sub)
    ensures Tracks(m, LinkOf(m.state), OnSubscribe(m, cur))
  {
    hide Add, SeeOutputs, Tracks;
    var l, m' := LinkOf(m.state), OnSubscribe(m, cur);
    OneCommand(l, m.ty);
    NoteKeepsLink(l, EvGranted, cur.handle);
    match m.state
    case Released => SayTracks(m, l, m', [Request(m.ty)]);
    case Acquired => SayTracks(m, l, m', Note(EvGranted, cur.handle));
    case _ => SayTracks(m, l, m', []);
  }

  lemma UnsubscribeTracks(m: Machine, cur: Sub)
    ensures Tracks(m, LinkOf(m.state), OnUnsubscribe(m, cur))
  {
    hide Delete, MarkInactive, AnyActive, SeeOutputs, Tracks;
    var l, m' := LinkOf(m.state), OnUnsubscribe(m, cur);
    var said := if m.state == Released || !cur.waits then Note(EvUnsubscribe, cur.handle) else [];
    NoteKeepsLink(l, EvUnsubscribe, cur.handle);
    OneCommand(l, m.ty);
    SeeConcat(l, said, [Release(m.ty)]);
    if m'.out == m.out + said {
      SayTracks(m, l, m', said);
    } else {
      assert m'.out == m.out + (said + [Release(m.ty)]);
      SayTracks(m, l, m', said + [Release(m.ty)]);
    }
  }

  lemma GrantedTracks(m: Machine)
    ensures Tracks(m, HearEvent(LinkOf(m.state), EvGranted), OnGranted(m))
  {
    hide Notes, SeeOutputs, Tracks;
    var l, m' := HearEvent(LinkOf(m.state), EvGranted), OnGranted(m);
    NotesKeepLink(l, EvGranted, m.subs, ActiveSubscribers);
    OneCommand(l, m.ty);
    SayTracks(m, l, m', if m.state == Pending then Notes(EvGranted, m.subs, ActiveSubscribers) else []);
  }

  lemma ReleasedTracks(m: Machine)
    ensures Tracks(m, HearEvent(LinkOf(m.state), EvReleased), OnReleased(m))
  {
    hide Notes, Kept, Closed, SeeOutputs, Tracks;
    var l, m' := HearEvent(LinkOf(m.state), EvReleased), OnReleased(m);
    NotesKeepLink(l, EvReleased, m.subs, AllSubscribers);
    OneCommand(l, m.ty);
    match m.state
    case Acquired => SayTracks(m, l, m', Notes(EvReleased, m.subs, AllSubscribers));
    case Releasing => ClosedTracks(m);
    case _ => SayTracks(m, l, m', []);
  }

  lemma DeniedTracks(m: Machine)
    ensures Tracks(m, HearEvent(LinkOf(m.state), EvDenied), OnDenied(m))
  {
    hide Notes, Kept, Closed, SeeOutputs, Tracks;
    var l, m' := HearEvent(LinkOf(m.state), EvDenied), OnDenied(m);
    NotesKeepLink(l, EvDenied, m.subs, AllSubscribers);
    OneCommand(l, m.ty);
    match m.state
    case Pending => SayTracks(m, l, m', Notes(EvDenied, m.subs, AllSubscribers));
    case Releasing => ClosedTracks(m);
    case _ => SayTracks(m, l, m', []);
  }

  lemma ClosedTracks(m: Machine)
    ensures Tracks(m, NoLink, Closed(m))
  {
    hide Notes, Kept, AnyActive, SeeOutputs, Tracks;
    var notes := Notes(EvReleased, m.subs, InactiveSubscribers);
    NotesKeepLink(NoLink, EvReleased, m.subs, InactiveSubscribers);
    OneCommand(NoLink, m.ty);
    SeeConcat(NoLink, notes, [Request(m.ty)]);
    if AnyActive(Kept(m.subs, InactiveSubscribers)) {
      assert Closed(m).out == m.out + (notes + [Request(m.ty)]);
      SayTracks(m, NoLink, Closed(m), notes + [Request(m.ty)]);
    } else {
      SayTracks(m, NoLink, Closed(m), notes);
    }
  }

  lemma OneCommand(l: Link, ty: AgpsType)
    ensures SeeOutputs(l, [Request(ty)]) == SeeOutput(l, Request(ty))
    ensures SeeOutputs(l, [Release(ty)]) == SeeOutput(l, Release(ty))
    ensures SeeOutputs(l, []) == l
  {
    assert [Request(ty)][..0] == [] && [Release(ty)][..0] == [];
  }

  // ---------- who is told what ----------

  /** The positions of the addressed subscribers whose callback is o. */
  ghost function Hearers(ev: AgpsEvent, subs: seq<Sub>, a: Audience, o: Output): set<nat> {
    set i: nat | i < |subs| && Addressed(a, subs[i]) && o in Note(ev, subs[i].handle)
  }

  lemma {:induction false} NotesCount(ev: AgpsEvent, subs: seq<Sub>, a: Audience, o: Output)
    ensures multiset(Notes(ev, subs, a))[o] == |Hearers(ev, subs, a, o)|
    decreases |subs|
  {
    hide Hearers, Addressed, Note;
    if subs == [] {
      NobodyHears(ev, a, o);
    } else {
      var init, last := subs[..|subs| - 1], subs[|subs| - 1];
      NotesCount(ev, init, a, o);
      NoteOnce(ev, last.handle, o);
      HearersGrow(ev, subs, a, o);
      ToldAndKept(ev, init, last, a);
      assert subs == init + [last];
    }
  }

  lemma NobodyHears(ev: AgpsEvent, a: Audience, o: Output)
    ensures Hearers(ev, [], a, o) == {}
  {
  }

  lemma HearersSplit(ev: AgpsEvent, subs: seq<Sub>, a: Audience, o: Output)
    requires subs != []
    ensures var before, last := Hearers(ev, subs[..|subs| - 1], a, o), |subs| - 1;
      && last !in before
      && forall i: nat :: i in Hearers(ev, subs, a, o)
                     <==> i in before || (i == last && Addressed(a, subs[last]) && o in Note(ev, subs[last].handle))
  {
    hide Addressed, Note;
    var init := subs[..|subs| - 1];
    assert forall i: nat :: i < |init| ==> init[i] == subs[i];
  }

  lemma HearersGrow(ev: AgpsEvent, subs: seq<Sub>, a: Audience, o: Output)
    requires subs != []
    ensures var init, last := subs[..|subs| - 1], subs[|subs| - 1];
      |Hearers(ev, subs, a, o)|
      == |Hearers(ev, init, a, o)| + if Addressed(a, last) && o in Note(ev, last.handle) then 1 else 0
  {
    hide *;
    HearersSplit(ev, subs, a, o);
    var before, last := Hearers(ev, subs[..|subs| - 1], a, o), |subs| - 1;
    if Addressed(a, subs[last]) && o in Note(ev, subs[last].handle) {
      assert Hearers(ev, subs, a, o) == before + {last};
    } else {
      assert Hearers(ev, subs, a, o) == before;
    }
  }

  lemma NoteOnce(ev: AgpsEvent, h: int, o: Output)
    ensures multiset(Note(ev, h))[o] == if o in Note(ev, h) then 1 else 0
  {
  }

  /** Distinct handles: nobody hears twice. */
  lemma HeardAtMostOnce(ev: AgpsEvent, subs: seq<Sub>, a: Audience, o: Output)
    requires DistinctHandles(subs)
    ensures |Hearers(ev, subs, a, o)| <= 1
  {
    var s := Hearers(ev, subs, a, o);
    if s != {} {
      var i :| i in s;
      assert forall j :: j in s ==> subs[j].handle == subs[i].handle;
      assert s == {i};
    }
  }

  /** How often an event calls for a status callback. */
  ghost function Calls(m: Machine, ev: AgpsEvent, cur: Sub, o: Output): nat {
    match ev
    case EvSubscribe => if m.state == Acquired && o == OpenStatus(cur.handle, true) then 1 else 0
    case EvUnsubscribe => if (m.state == Released || !cur.waits) && o == CloseStatus(cur.handle) then 1 else 0
    case EvGranted => if m.state == Pending then |Hearers(EvGranted, m.subs, ActiveSubscribers, o)| else 0
    case EvReleased =>
      if m.state == Acquired then |Hearers(EvReleased, m.subs, AllSubscribers, o)|
      else if m.state == Releasing then |Hearers(EvReleased, m.subs, InactiveSubscribers, o)|
      else 0
    case EvDenied =>
      if m.state == Pending then |Hearers(EvDenied, m.subs, AllSubscribers, o)|
      else if m.state == Releasing then |Hearers(EvReleased, m.subs, InactiveSubscribers, o)|
      else 0
  }

  /** An event makes exactly these callbacks, each as often as it is called for and so, handles being distinct, at
      most once: success to the newcomer of an open connection, success to the active when it opens, failure to all
      when it is refused, closure to those who leave, and nothing to anybody else. */
  lemma WhoIsTold(m: Machine, ev: AgpsEvent, cur: Sub, o: Output)
    requires o.OpenStatus? || o.CloseStatus?
    ensures m.out <= Process(m, ev, cur).out
    ensures multiset(Process(m, ev, cur).out[|m.out|..])[o] == Calls(m, ev, cur, o)
    ensures DistinctHandles(m.subs) ==> Calls(m, ev, cur, o) <= 1
  {
    CalledAtMostOnce(m, ev, cur, o);
    match ev
    case EvSubscribe => SubscribeTells(m, cur, o);
    case EvUnsubscribe => UnsubscribeTells(m, cur, o);
    case EvGranted => GrantedTells(m, o);
    case EvReleased => ReleasedTells(m, o);
    case EvDenied => DeniedTells(m, o);
    hide Hearers, OnSubscribe, OnUnsubscribe, OnGranted, OnReleased, OnDenied;
  }

  lemma GrantedTells(m: Machine, o: Output)
    requires o.OpenStatus? || o.CloseStatus?
    ensures var m' := OnGranted(m);
      m.out <= m'.out && multiset(m'.out[|m.out|..])[o] == Calls(m, EvGranted, Sub(0, true, false), o)
  {
    hide Hearers, Notes;
    NotesCount(EvGranted, m.subs, ActiveSubscribers, o);
    SayTells(m, OnGranted(m), o, if m.state == Pending then Notes(EvGranted, m.subs, ActiveSubscribers) else [], []);
  }

  lemma ReleasedTells(m: Machine, o: Output)
    requires o.OpenStatus? || o.CloseStatus?
    ensures var m' := OnReleased(m);
      m.out <= m'.out && multiset(m'.out[|m.out|..])[o] == Calls(m, EvReleased, Sub(0, true, false), o)
  {
    hide Hearers, Notes, Kept, Closed;
    NotesCount(EvReleased, m.subs, AllSubscribers, o);
    if m.state == Releasing {
      ClosedTells(m, o);
    } else {
      SayTells(m, OnReleased(m), o, if m.state == Acquired then Notes(EvReleased, m.subs, AllSubscribers) else [], []);
    }
  }

  lemma DeniedTells(m: Machine, o: Output)
    requires o.OpenStatus? || o.CloseStatus?
    ensures var m' := OnDenied(m);
      m.out <= m'.out && multiset(m'.out[|m.out|..])[o] == Calls(m, EvDenied, Sub(0, true, false), o)
  {
    hide Hearers, Notes, Kept, Closed;
    NotesCount(EvDenied, m.subs, AllSubscribers, o);
    if m.state == Releasing {
      ClosedTells(m, o);
    } else {
      SayTells(m, OnDenied(m), o, if m.state == Pending then Notes(EvDenied, m.subs, AllSubscribers) else [], []);
    }
  }

  lemma CalledAtMostOnce(m: Machine, ev: AgpsEvent, cur: Sub, o: Output)
    ensures DistinctHandles(m.subs) ==> Calls(m, ev, cur, o) <= 1
  {
    hide Hearers;
    if DistinctHandles(m.subs) {
      HeardAtMostOnce(EvGranted, m.subs, ActiveSubscribers, o);
      HeardAtMostOnce(EvReleased, m.subs, AllSubscribers, o);
      HeardAtMostOnce(EvReleased, m.subs, InactiveSubscribers, o);
      HeardAtMostOnce(EvDenied, m.subs, AllSubscribers, o);
    }
  }

  lemma SayTells(m: Machine, m': Machine, o: Output, notes: seq<Output>, commands: seq<Output>)
    requires m'.out == m.out + notes + commands && o !in commands
    ensures m.out <= m'.out && multiset(m'.out[|m.out|..])[o] == multiset(notes)[o]
  {
    assert m'.out[|m.out|..] == notes + commands;
    assert o !in multiset(commands);
  }

  lemma SubscribeTells(m: Machine, cur: Sub, o: Output)
    requires o.OpenStatus? || o.CloseStatus?
    ensures var m' := OnSubscribe(m, cur);
      m.out <= m'.out && multiset(m'.out[|m.out|..])[o] == Calls(m, EvSubscribe, cur, o)
  {
    hide Add;
    NoteOnce(EvGranted, cur.handle, o);
    SayTells(m, OnSubscribe(m, cur), o,
             if m.state == Acquired then Note(EvGranted, cur.handle) else [],
             if m.state == Released then [Request(m.ty)] else []);
  }

  lemma UnsubscribeTells(m: Machine, cur: Sub, o: Output)
    requires o.OpenStatus? || o.CloseStatus?
    ensures var m' := OnUnsubscribe(m, cur);
      m.out <= m'.out && multiset(m'.out[|m.out|..])[o] == Calls(m, EvUnsubscribe, cur, o)
  {
    hide Delete, MarkInactive, AnyActive;
    NoteOnce(EvUnsubscribe, cur.handle, o);
    var notes := if m.state == Released || !cur.waits then Note(EvUnsubscribe, cur.handle) else [];
    var m' := OnUnsubscribe(m, cur);
    SayTells(m, m', o, notes, if m'.out == m.out + notes then [] else [Release(m.ty)]);
  }

  lemma ClosedTells(m: Machine, o: Output)
    requires o.OpenStatus? || o.CloseStatus?
    ensures m.out <= Closed(m).out
    ensures multiset(Closed(m).out[|m.out|..])[o] == |Hearers(EvReleased, m.subs, InactiveSubscribers, o)|
  {
    NotesCount(EvReleased, m.subs, InactiveSubscribers, o);
    hide Hearers, Notes, Kept, AnyActive;
    SayTells(m, Closed(m), o, Notes(EvReleased, m.subs, InactiveSubscribers),
             if AnyActive(Kept(m.subs, InactiveSubscribers)) then [Request(m.ty)] else []);
  }

  // ---------- conservation ----------

  /** Added subscribers are still listed or were told for good, once, as they left. */
  lemma ProcessConserves(m: Machine, ev: AgpsEvent, cur: Sub)
    requires Sound(m) && Admissible(m, ev, cur)
    ensures var m' := Process(m, ev, cur);
      Handles(m'.subs) + Terminals(m'.out)
      == Handles(m.subs) + Terminals(m.out)
         + if ev == EvSubscribe && !Listed(m.subs, cur.handle) then multiset{cur.handle} else multiset{}
  {
    hide Kept, Notes, Terminals, Handles;
    var m' := Process(m, ev, cur);
    CommandTerminals(m.ty);
    match ev
    case EvSubscribe =>
      AddFacts(m.subs, cur);
      NoteTerminal(EvGranted, cur.handle);
      TerminalsConcat(m.out, [Request(m.ty)]);
      TerminalsConcat(m.out, Note(EvGranted, cur.handle));
    case EvUnsubscribe =>
      MarkFacts(m.subs, cur.handle);
      MarkKeepsHandles(m.subs, cur.handle);
      TerminalsConcat(m.out, [Release(m.ty)]);
    case EvGranted =>
      GrantsAreNotTerminal(m.subs, ActiveSubscribers);
      TerminalsConcat(m.out, Notes(EvGranted, m.subs, ActiveSubscribers));
    case EvReleased =>
      ClosedConserves(m);
      NotesTerminals(EvReleased, m.subs, AllSubscribers);
      TerminalsConcat(m.out, Notes(EvReleased, m.subs, AllSubscribers));
    case EvDenied =>
      ClosedConserves(m);
      NotesTerminals(EvDenied, m.subs, AllSubscribers);
      TerminalsConcat(m.out, Notes(EvDenied, m.subs, AllSubscribers));
  }

  lemma CommandTerminals(ty: AgpsType)
    ensures Terminals([Request(ty)]) == multiset{} && Terminals([Release(ty)]) == multiset{}
  {
    assert [Request(ty)][..0] == [] && [Release(ty)][..0] == [];
  }

  lemma ClosedConserves(m: Machine)
    ensures Handles(Closed(m).subs) + Terminals(Closed(m).out) == Handles(m.subs) + Terminals(m.out)
  {
    hide Notes, Kept, Terminals, Handles, AnyActive;
    var notes := Notes(EvReleased, m.subs, InactiveSubscribers);
    NotesTerminals(EvReleased, m.subs, InactiveSubscribers);
    TerminalsConcat(m.out, notes);
    TerminalsConcat(m.out + notes, [Request(m.ty)]);
    CommandTerminals(m.ty);
  }
}
