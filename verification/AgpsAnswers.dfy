/** Which requests are answered by an open status once the loop has settled: all but those of a handle that is
    still listed as inactive, which addSubscriber ignores. */
module AgpsAnswers {
  import opened AgpsMachine
  import opened NativeAgps

  predicate ListedActive(subs: seq<Sub>, h: int) {
    exists i :: 0 <= i < |subs| && subs[i].handle == h && !subs[i].inactive
  }

  predicate ListedInactive(subs: seq<Sub>, h: int) {
    exists i :: 0 <= i < |subs| && subs[i].handle == h && subs[i].inactive
  }

  /** An open status, of success or of failure, for the handle. */
  predicate Opened(out: seq<Output>, h: int) {
    OpenStatus(h, true) in out || OpenStatus(h, false) in out
  }

  /** The first answer in the queue that ends PENDING. */
  function Verdict(queue: seq<AgpsEvent>): AgpsEvent {
    if queue == [] || queue[0] != EvReleased then (if queue == [] then EvReleased else queue[0])
    else Verdict(queue[1..])
  }

  /** What the driver has said from w to w'. */
  ghost predicate Heard(w: World, w': World, h: int) {
    w.m.out <= w'.m.out && Opened(w'.m.out[|w.m.out|..], h)
  }

  lemma HeardLater(w: World, w1: World, w2: World, h: int)
    requires w.m.out <= w1.m.out <= w2.m.out
    ensures Heard(w, w2, h) <==> Heard(w, w1, h) || Heard(w1, w2, h)
  {
    assert w2.m.out[|w.m.out|..] == w1.m.out[|w.m.out|..] + w2.m.out[|w1.m.out|..];
  }

  // ---------- one delivery ----------

  lemma HearersOpen(ev: AgpsEvent, subs: seq<Sub>, a: Audience, h: int, success: bool)
    ensures Hearers(ev, subs, a, OpenStatus(h, success)) != {}
       <==> ev == (if success then EvGranted else EvDenied)
            && exists i :: 0 <= i < |subs| && Addressed(a, subs[i]) && subs[i].handle == h
  {
    var s := Hearers(ev, subs, a, OpenStatus(h, success));
    if s != {} {
      var i :| i in s;
      assert OpenStatus(h, success) in Note(ev, subs[i].handle);
    }
    if ev == (if success then EvGranted else EvDenied) {
      if i :| 0 <= i < |subs| && Addressed(a, subs[i]) && subs[i].handle == h {
        assert OpenStatus(h, success) in Note(ev, subs[i].handle);
        assert i in s;
      }
    }
  }

  /** Among the answers only a GRANTED in PENDING calls for successes, only a DENIED for failures. */
  lemma OpenCalls(m: Machine, ev: AgpsEvent, h: int, success: bool)
    requires IsAnswer(ev)
    ensures Calls(m, ev, Sub(0, true, false), OpenStatus(h, success)) > 0
       <==> m.state == Pending
            && if success then ev == EvGranted && ListedActive(m.subs, h) else ev == EvDenied && Listed(m.subs, h)
  {
    HearersOpen(EvGranted, m.subs, ActiveSubscribers, h, success);
    HearersOpen(EvDenied, m.subs, AllSubscribers, h, success);
    HearersOpen(EvReleased, m.subs, AllSubscribers, h, success);
    HearersOpen(EvReleased, m.subs, InactiveSubscribers, h, success);
    hide Hearers;
  }

  lemma CountedIsIn<T>(s: seq<T>, x: T)
    ensures multiset(s)[x] > 0 <==> x in s
  {
  }

  lemma DeliveryProcesses(w: World)
    requires w.queue != []
    ensures Step(w, Deliver, false).m == Process(w.m, w.queue[0], Sub(0, true, false))
  {
    hide Process, Answers, SeeOutputs;
  }

  /** A delivery opens for a handle exactly in PENDING: a GRANTED for the active, a DENIED for all. */
  lemma DeliveryOpens(w: World, h: int)
    requires w.queue != [] && IsAnswer(w.queue[0])
    ensures Heard(w, Step(w, Deliver, false), h)
       <==> w.m.state == Pending
            && ((w.queue[0] == EvGranted && ListedActive(w.m.subs, h))
                || (w.queue[0] == EvDenied && Listed(w.m.subs, h)))
    ensures w.m.out <= Step(w, Deliver, false).m.out
  {
    var ev, cur := w.queue[0], Sub(0, true, false);
    DeliveryProcesses(w);
    hide Process, Calls, IsAnswer, Step, ListedActive, Listed;
    forall success: bool
      ensures OpenStatus(h, success) in Process(w.m, ev, cur).out[|w.m.out|..]
         <==> Calls(w.m, ev, cur, OpenStatus(h, success)) > 0
    {
      WhoIsTold(w.m, ev, cur, OpenStatus(h, success));
      CountedIsIn(Process(w.m, ev, cur).out[|w.m.out|..], OpenStatus(h, success));
    }
    OpenCalls(w.m, ev, h, true);
    OpenCalls(w.m, ev, h, false);
    WhoIsTold(w.m, ev, cur, OpenStatus(h, true));
  }

  /** What a delivery makes of the list. */
  lemma DeliveryKeeps(w: World)
    requires Standing(w) && w.queue != []
    ensures var subs', ev := Step(w, Deliver, false).m.subs, w.queue[0];
      subs' == if w.m.state == Releasing && ev != EvGranted then Kept(w.m.subs, InactiveSubscribers)
               else if (w.m.state == Acquired && ev == EvReleased) || (w.m.state == Pending && ev == EvDenied) then []
               else w.m.subs
  {
    var ev, cur := w.queue[0], Sub(0, true, false);
    assert IsAnswer(ev);
    DriveMoves(w.(queue := w.queue[1..]), ev, cur);
    KeepAllEmpty(w.m.subs);
    hide Kept, Notes, AnyActive, Drive;
  }

  lemma KeptLists(subs: seq<Sub>, h: int)
    ensures ListedActive(Kept(subs, InactiveSubscribers), h) <==> ListedActive(subs, h)
    ensures !ListedInactive(Kept(subs, InactiveSubscribers), h)
  {
    KeptMembers(subs, InactiveSubscribers);
    hide Kept;
    var r := Kept(subs, InactiveSubscribers);
    if i :| 0 <= i < |subs| && subs[i].handle == h && !subs[i].inactive {
      assert subs[i] in r;
    }
    if i :| 0 <= i < |r| && r[i].handle == h && !r[i].inactive {
      assert r[i] in subs;
    }
  }

  lemma ListedIs(subs: seq<Sub>, h: int)
    ensures Listed(subs, h) <==> ListedActive(subs, h) || ListedInactive(subs, h)
    ensures ListedActive(subs, h) ==> AnyActive(subs)
  {
  }

  // ---------- waiting subscribers are told ----------

  lemma OneDelivered(w: World, n: nat)
    requires w.queue != []
    ensures Load(w) > 0 && (n > 0 ==> Deliveries(w, n) == Deliveries(Step(w, Deliver, false), n - 1))
  {
    hide Step;
  }

  lemma DeliveryAppends(w: World)
    ensures w.m.out <= Step(w, Deliver, false).m.out
  {
    if w.queue != [] {
      DeliveryProcesses(w);
      ProcessAppends(w.m, w.queue[0], Sub(0, true, false));
    }
    hide Process, Drive;
  }

  lemma {:induction false} OutGrows(w: World, n: nat)
    ensures w.m.out <= Deliveries(w, n).m.out
    decreases n
  {
    hide Step;
    if n > 0 {
      DeliveryAppends(w);
      OutGrows(Step(w, Deliver, false), n - 1);
    }
  }

  /** An active subscriber in PENDING or RELEASING is told, one way or the other, before the queue is empty. */
  lemma {:induction false} WaiterTold(w: World, h: int, n: nat)
    requires Accounted(w) && Awaiting(w) && !Doomed(w) && Load(w) <= n
    requires ListedActive(w.m.subs, h) && (w.m.state == Pending || w.m.state == Releasing)
    ensures Heard(w, Deliveries(w, n), h)
    decreases n
  {
    hide *;
    var w' := Step(w, Deliver, false);
    WaiterStep(w, h);
    StepKeepsAccount(w, Deliver, false);
    DeliveryLightens(w);
    OneDelivered(w, n);
    OutGrows(w', n - 1);
    HeardLater(w, w', Deliveries(w', n - 1), h);
    if !Heard(w, w', h) {
      WaiterTold(w', h, n - 1);
    }
  }

  lemma WaiterStep(w: World, h: int)
    requires Accounted(w) && Awaiting(w)
    requires ListedActive(w.m.subs, h) && (w.m.state == Pending || w.m.state == Releasing)
    ensures w.queue != [] && w.m.out <= Step(w, Deliver, false).m.out
    ensures var w' := Step(w, Deliver, false);
      Heard(w, w', h) || (ListedActive(w'.m.subs, h) && (w'.m.state == Pending || w'.m.state == Releasing))
  {
    AccountedStands(w);
    assert IsAnswer(w.queue[0]);
    DeliveryOpens(w, h);
    DeliveryKeeps(w);
    AfterDelivery(w, false);
    KeptLists(w.m.subs, h);
    ListedIs(w.m.subs, h);
    hide Step, Accounted, Standing, Kept, ListedActive, ListedInactive, Listed, AnyActive, Heard;
  }

  // ---------- others are not ----------

  /** Nothing that is queued, or that its delivery causes, opens for the handle. */
  ghost predicate Mute(w: World, h: int) {
    match w.m.state
    case Pending => !ListedActive(w.m.subs, h) && (ListedInactive(w.m.subs, h) ==> Verdict(w.queue) != EvDenied)
    case Releasing => !ListedActive(w.m.subs, h)
    case _ => true
  }

  lemma MuteStep(w: World, h: int)
    requires Standing(w) && Mute(w, h) && w.queue != []
    ensures w.m.out <= Step(w, Deliver, false).m.out
    ensures !Heard(w, Step(w, Deliver, false), h) && Mute(Step(w, Deliver, false), h)
  {
    assert IsAnswer(w.queue[0]);
    assert w.queue[1..] + [] == w.queue[1..];
    DeliveryOpens(w, h);
    DeliveryKeeps(w);
    AfterDelivery(w, false);
    KeptLists(w.m.subs, h);
    ListedIs(w.m.subs, h);
    hide Step, Standing, Kept, ListedActive, ListedInactive, Listed, AnyActive, Heard;
  }

  lemma {:induction false} MuteStays(w: World, h: int, n: nat)
    requires Accounted(w) && Mute(w, h)
    ensures !Heard(w, Deliveries(w, n), h)
    decreases n
  {
    hide *;
    if n == 0 || w.queue == [] {
      NothingSaid(w, h, n);
    } else {
      var w' := Step(w, Deliver, false);
      AccountedStands(w);
      MuteStep(w, h);
      StepKeepsAccount(w, Deliver, false);
      MuteStays(w', h, n - 1);
      OneDelivered(w, n);
      OutGrows(w', n - 1);
      HeardLater(w, w', Deliveries(w', n - 1), h);
    }
  }

  lemma NothingSaid(w: World, h: int, n: nat)
    requires n == 0 || w.queue == []
    ensures Deliveries(w, n) == w && !Heard(w, w, h)
  {
    if w.queue == [] {
      NothingDelivered(w, n);
    }
    assert w.m.out[|w.m.out|..] == [];
  }

  /** A DENIED in PENDING reaches the inactive too. */
  lemma {:induction false} InactiveDenied(w: World, h: int, n: nat)
    requires Accounted(w) && w.m.state == Pending && Listed(w.m.subs, h) && Verdict(w.queue) == EvDenied
    requires |w.queue| <= n
    ensures Heard(w, Deliveries(w, n), h)
    decreases n
  {
    hide *;
    var w' := Step(w, Deliver, false);
    InactiveDeniedStep(w, h);
    StepKeepsAccount(w, Deliver, false);
    OneDelivered(w, n);
    OutGrows(w', n - 1);
    HeardLater(w, w', Deliveries(w', n - 1), h);
    if !Heard(w, w', h) {
      InactiveDenied(w', h, n - 1);
    }
  }

  lemma InactiveDeniedStep(w: World, h: int)
    requires Accounted(w) && w.m.state == Pending && Listed(w.m.subs, h) && Verdict(w.queue) == EvDenied
    ensures w.queue != [] && w.m.out <= Step(w, Deliver, false).m.out
    ensures var w' := Step(w, Deliver, false);
      Heard(w, w', h)
      || (w'.m.state == Pending && Listed(w'.m.subs, h) && Verdict(w'.queue) == EvDenied && |w'.queue| < |w.queue|)
  {
    AccountedStands(w);
    assert IsAnswer(w.queue[0]);
    assert w.queue[1..] + [] == w.queue[1..];
    DeliveryOpens(w, h);
    DeliveryKeeps(w);
    AfterDelivery(w, false);
    hide Step, Accounted, Standing, Kept, Listed, Heard;
  }

  // ---------- requests ----------

  /** The handle is listed as inactive when the request comes, and nothing opens for the inactive: neither an
      immediate success in ACQUIRED nor a denial of what is pending. */
  predicate Overlooked(w: World, h: int) {
    ListedInactive(w.m.subs, h)
    && (w.m.state == Releasing || (w.m.state == Pending && Verdict(w.queue) != EvDenied))
  }

  lemma RequestSays(w: World, h: int, asked: AgpsType, emergencyPdn: bool)
    ensures var w' := Step(w, RequestATL(h, asked), emergencyPdn);
      && w.m.out <= w'.m.out
      && (Heard(w, w', h) <==> ForAgnss(Effective(asked, emergencyPdn)) || w.m.state == Acquired)
  {
    var ty, cur := Effective(asked, emergencyPdn), Sub(h, true, false);
    var m := w.m.(ty := ty);
    if ForAgnss(ty) {
      assert (w.m.out + [OpenStatus(h, false)])[|w.m.out|..] == [OpenStatus(h, false)];
    } else {
      WhoIsTold(m, EvSubscribe, cur, OpenStatus(h, true));
      WhoIsTold(m, EvSubscribe, cur, OpenStatus(h, false));
      hide Process, Hearers, Answers, SeeOutputs, Listed;
      var said := Process(m, EvSubscribe, cur).out[|m.out|..];
      CountedIsIn(said, OpenStatus(h, true));
      CountedIsIn(said, OpenStatus(h, false));
    }
  }

  lemma AddLists(subs: seq<Sub>, h: int)
    requires DistinctHandles(subs)
    ensures var subs' := Add(subs, Sub(h, true, false));
      (ListedActive(subs', h) <==> !ListedInactive(subs, h)) && (ListedInactive(subs', h) <==> ListedInactive(subs, h))
  {
    var subs' := Add(subs, Sub(h, true, false));
    if Listed(subs, h) {
      var i :| 0 <= i < |subs| && subs[i].handle == h;
      assert forall j :: 0 <= j < |subs| && subs[j].handle == h ==> j == i;
    } else {
      assert subs'[|subs|] == Sub(h, true, false);
    }
  }

  /** A request is answered by an open status, once the loop has settled, exactly unless it reaches the machine and
      is overlooked there. It needs that the request and the close that may be due are heard. */
  lemma AnsweredIff(w: World, h: int, asked: AgpsType, emergencyPdn: bool, n: nat)
    requires Accounted(w) && Awaiting(w) && !Unanswered(w, RequestATL(h, asked), emergencyPdn)
    requires var w' := Step(w, RequestATL(h, asked), emergencyPdn); !Doomed(w') && Load(w') <= n
    ensures Heard(w, Deliveries(Step(w, RequestATL(h, asked), emergencyPdn), n), h)
       <==> ForAgnss(Effective(asked, emergencyPdn)) || !Overlooked(w, h)
  {
    var a := RequestATL(h, asked);
    var w' := Step(w, a, emergencyPdn);
    StepKeepsAccount(w, a, emergencyPdn);
    StepAwaits(w, a, emergencyPdn);
    RequestSays(w, h, asked, emergencyPdn);
    hide *;
    OutGrows(w', n);
    HeardLater(w, w', Deliveries(w', n), h);
    if ForAgnss(Effective(asked, emergencyPdn)) || w.m.state == Acquired {
      AcquiredAnswers(w, h);
    } else {
      ArrivesAs(w, h, asked, emergencyPdn);
      if ListedActive(w'.m.subs, h) {
        WaiterTold(w', h, n);
      } else if Overlooked(w, h) {
        MuteStays(w', h, n);
      } else {
        InactiveDenied(w', h, n);
      }
    }
  }

  lemma AcquiredAnswers(w: World, h: int)
    ensures w.m.state == Acquired ==> !Overlooked(w, h)
  {
  }

  /** While all requests are of type WWAN_ANY, or have no machine, nothing else is needed: after every run, modem
      restarts included, a further such request is answered exactly unless it is overlooked. */
  lemma WwanAnsweredIff(acts: seq<Action>, h: int, asked: AgpsType, emergencyPdn: bool, n: nat)
    requires forall i :: 0 <= i < |acts| && acts[i].RequestATL? ==> acts[i].ty == TypeWwanAny || ForAgnss(acts[i].ty)
    requires asked == TypeWwanAny || ForAgnss(asked)
    ensures var w := Run(Initially(), acts, emergencyPdn);
      var w' := Step(w, RequestATL(h, asked), emergencyPdn);
      Load(w') <= n ==> (Heard(w, Deliveries(w', n), h) <==> asked != TypeWwanAny || !Overlooked(w, h))
  {
    var w, a := Run(Initially(), acts, emergencyPdn), RequestATL(h, asked);
    WwanIsHeard(acts, emergencyPdn);
    Quiescence(acts, emergencyPdn);
    RunKeepsAccount(acts, emergencyPdn);
    StepKeepsWwan(w, a, emergencyPdn);
    assert !Unanswered(w, a, emergencyPdn) && !Doomed(Step(w, a, emergencyPdn));
    assert ForAgnss(Effective(asked, emergencyPdn)) <==> asked != TypeWwanAny;
    hide *;
    if Load(Step(w, a, emergencyPdn)) <= n {
      AnsweredIff(w, h, asked, emergencyPdn, n);
    }
  }

  /** How a request leaves its handle listed. */
  lemma ArrivesAs(w: World, h: int, asked: AgpsType, emergencyPdn: bool)
    requires Accounted(w) && !ForAgnss(Effective(asked, emergencyPdn))
    ensures var w' := Step(w, RequestATL(h, asked), emergencyPdn);
      && (w.m.state == Acquired ==> !Overlooked(w, h))
      && (w.m.state != Acquired && ListedActive(w'.m.subs, h) ==>
            (w'.m.state == Pending || w'.m.state == Releasing) && !Overlooked(w, h))
      && (Overlooked(w, h) ==> Mute(w', h))
      && (w.m.state != Acquired && !ListedActive(w'.m.subs, h) && !Overlooked(w, h) ==>
            w'.m.state == Pending && Listed(w'.m.subs, h) && Verdict(w'.queue) == EvDenied)
      && |w'.queue| <= Load(w')
  {
    AccountedStands(w);
    AfterRequest(w, h, asked, emergencyPdn);
    SubsAfterRequest(w, h, asked, emergencyPdn);
    AddLists(w.m.subs, h);
    ListedIs(Add(w.m.subs, Sub(h, true, false)), h);
    assert w.queue + [] == w.queue;
    assert w.m.state == Released ==> w.m.subs == [] && !ListedInactive(w.m.subs, h);
    hide Step, Accounted, Standing, Add, Listed, ListedActive, ListedInactive;
  }

  /** It happens: subscriber 1 has its connection, releases it, and asks again before the close has come. */
  lemma AskingAgainIsOverlooked()
    ensures var acts := [Connectivity(true), RequestATL(1, TypeWwanAny), Deliver, ReleaseATL(1)];
      Overlooked(Run(Initially(), acts, false), 1)
  {
    var acts := [Connectivity(true), RequestATL(1, TypeWwanAny), Deliver];
    var w := OneConnected(acts);
    RunKeepsAccount(acts, false);
    OneReleased(w);
    assert (acts + [ReleaseATL(1)])[..3] == acts;
    assert acts + [ReleaseATL(1)] == [Connectivity(true), RequestATL(1, TypeWwanAny), Deliver, ReleaseATL(1)];
    hide Step, Accounted, Overlooked;
  }

  lemma OneReleased(w: World)
    requires Accounted(w) && w.m.subs == [Sub(1, true, false)] && w.m.state == Acquired
    ensures Overlooked(Step(w, ReleaseATL(1), false), 1)
  {
    AccountedStands(w);
    AfterRelease(w, 1, false);
    OnlyOneLetsGo(w.m);
    OnlyOneMarked(w);
    hide Step, Accounted, Standing, LetsGo, ListedInactive;
  }

  lemma OnlyOneMarked(w: World)
    requires w.m.subs == [Sub(1, true, false)] && w.m.state == Acquired
    ensures ListedInactive(Step(w, ReleaseATL(1), false).m.subs, 1)
  {
    assert w.m.subs[0].handle == 1;
    MarkedSubs(w.m, w.m.subs[0]);
    assert MarkInactive(w.m.subs, 1)[0].inactive;
    hide Answers, SeeOutputs, MarkInactive, AnyActive;
  }
}
