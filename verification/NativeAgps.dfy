/** The AGPS state machine closed with its native driver: requests from the modem side, commands answered by
    the driver through a FIFO queue, changes of connectivity and modem restarts, in any order. */
module NativeAgps {
  import opened AgpsMachine

  /** `granted` says whether the driver accepted its last command, a request; `link` is what an observer of
      events and commands makes of them; `asked` and `dropped` count the handles that came and that a modem
      restart threw away. */
  datatype World = World(
    m: Machine, connected: bool, queue: seq<AgpsEvent>,
    granted: bool, link: Link, asked: multiset<int>, dropped: multiset<int>)

  datatype Action =
    | RequestATL(handle: int, ty: AgpsType)
    | ReleaseATL(handle: int)
    | Deliver
    | Connectivity(up: bool)
    | ModemSSR

  function Initially(): World {
    World(Machine(Released, [], TypeWwanAny, []), false, [], false, NoLink, multiset{}, multiset{})
  }

  /** The driver answers commands of type WWAN_ANY and no others. */
  function Answers(out: seq<Output>, connected: bool): seq<AgpsEvent> {
    if out == [] then [] else
    var rest := Answers(out[..|out| - 1], connected);
    match out[|out| - 1]
    case Request(ty) => if ty == TypeWwanAny then rest + [if connected then EvGranted else EvDenied] else rest
    case Release(ty) => if ty == TypeWwanAny then rest + [EvReleased] else rest
    case _ => rest
  }

  /** One event processed, and the driver's answers to the commands it caused. */
  function Drive(w: World, ev: AgpsEvent, cur: Sub): World {
    ProcessAppends(w.m, ev, cur);
    var m' := Process(w.m, ev, cur);
    var said := m'.out[|w.m.out|..];
    var answers := Answers(said, w.connected);
    w.(m := m',
       queue := w.queue + answers,
       granted := if answers == [] then w.granted else answers[|answers| - 1] == EvGranted,
       link := SeeOutputs(HearEvent(w.link, ev), said))
  }

  function Step(w: World, a: Action, emergencyPdn: bool): World {
    match a
    case RequestATL(h, asked) =>
      var ty := Effective(asked, emergencyPdn);
      if ForAgnss(ty) then
        w.(m := Say(w.m, [OpenStatus(h, false)]), asked := w.asked + multiset{h})
      else
        var w' := w.(m := w.m.(ty := ty),
                     asked := w.asked + if Listed(w.m.subs, h) then multiset{} else multiset{h});
        Drive(w', EvSubscribe, Sub(h, true, false))
    case ReleaseATL(h) =>
      if Listed(w.m.subs, h) then Drive(w, EvUnsubscribe, Find(w.m.subs, h)) else w
    case Deliver =>
      if w.queue == [] then w else Drive(w.(queue := w.queue[1..]), w.queue[0], Sub(0, true, false))
    case Connectivity(up) => w.(connected := up)
    case ModemSSR => w.(m := w.m.(subs := []), dropped := w.dropped + Handles(w.m.subs))
  }

  function Run(w: World, acts: seq<Action>, emergencyPdn: bool): World {
    if acts == [] then w else Step(Run(w, acts[..|acts| - 1], emergencyPdn), acts[|acts| - 1], emergencyPdn)
  }

  // ---------- what holds after every run ----------

  predicate IsAnswer(ev: AgpsEvent) {
    ev == EvGranted || ev == EvDenied || ev == EvReleased
  }

  ghost predicate OnlyAnswers(queue: seq<AgpsEvent>) {
    forall i :: 0 <= i < |queue| ==> IsAnswer(queue[i])
  }

  /** Holds in every run: handles are distinct, the list is empty in RELEASED, the observer's link is the one
      the state stands for, and nobody is lost: who asked is listed, was told for good, or was dropped. */
  ghost predicate Accounted(w: World) {
    && Sound(w.m) && OnlyAnswers(w.queue) && w.link == LinkOf(w.m.state)
    && w.asked == Handles(w.m.subs) + Terminals(w.m.out) + w.dropped
  }

  lemma {:induction false} AnswersAreAnswers(out: seq<Output>, connected: bool)
    ensures OnlyAnswers(Answers(out, connected))
    decreases |out|
  {
    if out != [] {
      AnswersAreAnswers(out[..|out| - 1], connected);
    }
  }

  lemma DriveKeepsAccount(w: World, ev: AgpsEvent, cur: Sub, extra: multiset<int>)
    requires Sound(w.m) && OnlyAnswers(w.queue) && w.link == LinkOf(w.m.state) && Admissible(w.m, ev, cur)
    requires extra == if ev == EvSubscribe && !Listed(w.m.subs, cur.handle) then multiset{cur.handle} else multiset{}
    requires w.asked == Handles(w.m.subs) + Terminals(w.m.out) + w.dropped + extra
    ensures Accounted(Drive(w, ev, cur))
  {
    hide Process, Sound, Admissible, Terminals, Handles, Answers, SeeOutputs, Listed;
    ProcessAppends(w.m, ev, cur);
    ProcessKeepsSound(w.m, ev, cur);
    ProcessKeepsLink(w.m, ev, cur);
    ProcessConserves(w.m, ev, cur);
    AnswersAreAnswers(Process(w.m, ev, cur).out[|w.m.out|..], w.connected);
  }

  lemma StepKeepsAccount(w: World, a: Action, emergencyPdn: bool)
    requires Accounted(w)
    ensures Accounted(Step(w, a, emergencyPdn))
  {
    hide Drive, Terminals, Handles;
    match a
    case RequestATL(h, asked) =>
      var ty := Effective(asked, emergencyPdn);
      if ForAgnss(ty) {
        RefusalIsTerminal(w.m.out, h);
      } else {
        var extra := if Listed(w.m.subs, h) then multiset{} else multiset{h};
        DriveKeepsAccount(w.(m := w.m.(ty := ty), asked := w.asked + extra), EvSubscribe, Sub(h, true, false), extra);
      }
    case ReleaseATL(h) =>
      if Listed(w.m.subs, h) {
        DriveKeepsAccount(w, EvUnsubscribe, Find(w.m.subs, h), multiset{});
      }
    case Deliver =>
      if w.queue != [] {
        DriveKeepsAccount(w.(queue := w.queue[1..]), w.queue[0], Sub(0, true, false), multiset{});
      }
    case Connectivity(up) =>
    case ModemSSR => NobodyListed();
  }

  lemma NobodyListed()
    ensures Handles([]) == multiset{}
  {
  }

  lemma RefusalIsTerminal(out: seq<Output>, h: int)
    ensures Terminals(out + [OpenStatus(h, false)]) == Terminals(out) + multiset{h}
  {
    NoteTerminal(EvDenied, h);
    TerminalsConcat(out, Note(EvDenied, h));
  }

  /** Conservation and connection discipline over every run, modem restarts included. */
  lemma {:induction false} RunKeepsAccount(acts: seq<Action>, emergencyPdn: bool)
    ensures Accounted(Run(Initially(), acts, emergencyPdn))
    decreases |acts|
  {
    if acts == [] {
      NobodyListed();
    } else {
      RunKeepsAccount(acts[..|acts| - 1], emergencyPdn);
      StepKeepsAccount(Run(Initially(), acts[..|acts| - 1], emergencyPdn), acts[|acts| - 1], emergencyPdn);
    }
  }

  /** While the modem does not restart, state and list agree after every run: the list is empty exactly in
      RELEASED, PENDING and ACQUIRED have an active subscriber, RELEASING an inactive one. */
  lemma {:induction false} RunKeepsAgreement(acts: seq<Action>, emergencyPdn: bool)
    requires ModemSSR !in acts
    ensures Agrees(Run(Initially(), acts, emergencyPdn).m)
    decreases |acts|
  {
    if acts != [] {
      var init, a := acts[..|acts| - 1], acts[|acts| - 1];
      RunKeepsAgreement(init, emergencyPdn);
      RunKeepsAccount(init, emergencyPdn);
      var w := Run(Initially(), init, emergencyPdn);
      StepKeepsAgreement(w, a, emergencyPdn);
    }
  }

  lemma StepKeepsAgreement(w: World, a: Action, emergencyPdn: bool)
    requires Agrees(w.m) && OnlyAnswers(w.queue) && a != ModemSSR
    ensures Agrees(Step(w, a, emergencyPdn).m)
  {
    hide Process;
    match a
    case RequestATL(h, ty) =>
      ProcessKeepsAgreement(w.m.(ty := Effective(ty, emergencyPdn)), EvSubscribe, Sub(h, true, false));
    case ReleaseATL(h) =>
      if Listed(w.m.subs, h) {
        ProcessKeepsAgreement(w.m, EvUnsubscribe, Find(w.m.subs, h));
      }
    case Deliver =>
      if w.queue != [] {
        ProcessKeepsAgreement(w.m, w.queue[0], Sub(0, true, false));
      }
    case Connectivity(up) =>
  }

  /** releaseATL never reaches the UNSUBSCRIBE branch of RELEASED: there nobody is listed, so it returns first. */
  lemma ReleaseFindsNobodyInReleased(acts: seq<Action>, h: int, emergencyPdn: bool)
    ensures var w := Run(Initially(), acts, emergencyPdn);
      w.m.state == Released ==> !Listed(w.m.subs, h) && Step(w, ReleaseATL(h), emergencyPdn) == w
  {
    RunKeepsAccount(acts, emergencyPdn);
  }

  /** By type: there is no AGNSS machine here, so after every run a request of type SUPL, emergency or not, or INVALID
      is refused at once and changes nothing else; one of any other type is listed, and sets the type, as it asks. */
  lemma RequestsByType(acts: seq<Action>, h: int, asked: AgpsType, emergencyPdn: bool)
    ensures var w := Run(Initially(), acts, emergencyPdn);
      var w' := Step(w, RequestATL(h, asked), emergencyPdn);
      if asked in {TypeInvalid, TypeSupl, TypeSuplEs}
      then w' == w.(m := w.m.(out := w.m.out + [OpenStatus(h, false)]), asked := w.asked + multiset{h})
      else w'.m.ty == asked && w'.m.subs == if Listed(w.m.subs, h) then w.m.subs else w.m.subs + [Sub(h, true, false)]
  {
    var w := Run(Initially(), acts, emergencyPdn);
    hide Run, Answers, SeeOutputs, Listed;
  }

  // ---------- commands and answers follow the states ----------

  /** The commands a transition from m to m' gives: a request when it enters PENDING, a release when an
      unsubscribe takes the connection down. */
  function Commands(m: Machine, ev: AgpsEvent, m': Machine): seq<Output> {
    if m.state != Pending && m'.state == Pending then [Request(m.ty)]
    else if ev == EvUnsubscribe && LinkOf(m.state) != NoLink && LinkOf(m'.state) == NoLink then [Release(m.ty)]
    else []
  }

  /** The answer it gets. */
  function Reply(m: Machine, ev: AgpsEvent, m': Machine, connected: bool): seq<AgpsEvent> {
    var commands := Commands(m, ev, m');
    if m.ty != TypeWwanAny || commands == [] then []
    else if commands == [Request(m.ty)] then [if connected then EvGranted else EvDenied]
    else [EvReleased]
  }

  ghost predicate Statuses(out: seq<Output>) {
    forall i :: 0 <= i < |out| ==> out[i].OpenStatus? || out[i].CloseStatus?
  }

  lemma {:induction false} NotesAreStatuses(ev: AgpsEvent, subs: seq<Sub>, a: Audience)
    ensures Statuses(Notes(ev, subs, a))
    decreases |subs|
  {
    if subs != [] {
      NotesAreStatuses(ev, subs[..|subs| - 1], a);
    }
  }

  lemma {:induction false} StatusesUnanswered(out: seq<Output>, connected: bool)
    requires Statuses(out)
    ensures Answers(out, connected) == []
    decreases |out|
  {
    if out != [] {
      StatusesUnanswered(out[..|out| - 1], connected);
    }
  }

  lemma {:induction false} AnswersConcat(a: seq<Output>, b: seq<Output>, connected: bool)
    ensures Answers(a + b, connected) == Answers(a, connected) + Answers(b, connected)
    decreases |b|
  {
    if b == [] {
      assert a + b == a;
    } else {
      assert (a + b)[..|a + b| - 1] == a + b[..|b| - 1];
      AnswersConcat(a, b[..|b| - 1], connected);
    }
  }

  lemma CommandsAnswered(m: Machine, ev: AgpsEvent, m': Machine, connected: bool)
    ensures Answers(Commands(m, ev, m'), connected) == Reply(m, ev, m', connected)
  {
    assert forall o: Output :: [o][..0] == [];
  }

  /** What an event makes the machine say: statuses, and then its commands. */
  lemma ProcessSays(m: Machine, ev: AgpsEvent, cur: Sub) returns (notes: seq<Output>)
    ensures Statuses(notes) && Process(m, ev, cur).out == m.out + notes + Commands(m, ev, Process(m, ev, cur))
  {
    hide Add, Kept, Notes, AnyActive, Closed, Statuses;
    notes := [];
    assert Statuses([]) && Statuses(Note(EvGranted, cur.handle)) by { NoteIsStatus(EvGranted, cur.handle); }
    match ev
    case EvSubscribe =>
      if m.state == Acquired {
        notes := Note(EvGranted, cur.handle);
      }
    case EvUnsubscribe => notes := UnsubscribeSays(m, cur);
    case EvGranted =>
      if m.state == Pending {
        notes := Notes(EvGranted, m.subs, ActiveSubscribers);
        NotesAreStatuses(EvGranted, m.subs, ActiveSubscribers);
      }
    case EvReleased =>
      if m.state == Acquired {
        notes := Notes(ev, m.subs, AllSubscribers);
        NotesAreStatuses(ev, m.subs, AllSubscribers);
      } else if m.state == Releasing {
        notes := ClosedSays(m, ev);
      }
    case EvDenied =>
      if m.state == Pending {
        notes := Notes(ev, m.subs, AllSubscribers);
        NotesAreStatuses(ev, m.subs, AllSubscribers);
      } else if m.state == Releasing {
        notes := ClosedSays(m, ev);
      }
  }

  lemma NoteIsStatus(ev: AgpsEvent, h: int)
    ensures Statuses([]) && Statuses(Note(ev, h))
  {
  }

  lemma UnsubscribeSays(m: Machine, cur: Sub) returns (notes: seq<Output>)
    ensures Statuses(notes)
    ensures var m' := OnUnsubscribe(m, cur); m'.out == m.out + notes + Commands(m, EvUnsubscribe, m')
  {
    hide Delete, MarkInactive, AnyActive, Statuses;
    NoteIsStatus(EvUnsubscribe, cur.handle);
    notes := if m.state == Released || !cur.waits then Note(EvUnsubscribe, cur.handle) else [];
  }

  lemma ClosedSays(m: Machine, ev: AgpsEvent) returns (notes: seq<Output>)
    requires m.state == Releasing && ev != EvUnsubscribe
    ensures Statuses(notes) && Closed(m).out == m.out + notes + Commands(m, ev, Closed(m))
  {
    hide Kept, Notes, AnyActive, Statuses;
    notes := Notes(EvReleased, m.subs, InactiveSubscribers);
    NotesAreStatuses(EvReleased, m.subs, InactiveSubscribers);
  }

  /** The driver answers a command of type WWAN_ANY once, and nothing else. */
  lemma ProcessReplies(m: Machine, ev: AgpsEvent, cur: Sub, connected: bool)
    ensures var m' := Process(m, ev, cur);
      m.out <= m'.out && Answers(m'.out[|m.out|..], connected) == Reply(m, ev, m', connected)
  {
    var notes := ProcessSays(m, ev, cur);
    hide Process, Commands, Statuses, Answers, Reply;
    var m' := Process(m, ev, cur);
    var commands := Commands(m, ev, m');
    assert m'.out[|m.out|..] == notes + commands;
    StatusesUnanswered(notes, connected);
    AnswersConcat(notes, commands, connected);
    CommandsAnswered(m, ev, m', connected);
  }

  /** Where an event takes the state. */
  lemma Moves(m: Machine, ev: AgpsEvent, cur: Sub)
    requires Sound(m) && Admissible(m, ev, cur)
    ensures Process(m, ev, cur).state == NextState(m, ev, cur)
  {
    hide Add, Kept, Notes;
    if ev == EvUnsubscribe {
      assert m.subs != [] && cur.waits;
      assert MarkInactive(m.subs, cur.handle) != [];
    }
    KeptAreActive(m.subs);
    hide AnyActive;
  }

  function NextState(m: Machine, ev: AgpsEvent, cur: Sub): AgpsState {
    match ev
    case EvSubscribe => if m.state == Released then Pending else m.state
    case EvUnsubscribe =>
      if LinkOf(m.state) != NoLink && !AnyActive(MarkInactive(m.subs, cur.handle)) then Releasing else m.state
    case EvGranted => if m.state == Pending then Acquired else m.state
    case EvReleased => AfterAnswer(m, Acquired)
    case EvDenied => AfterAnswer(m, Pending)
  }

  /** RELEASED ends ACQUIRED, DENIED ends PENDING, and either ends RELEASING. */
  function AfterAnswer(m: Machine, ended: AgpsState): AgpsState {
    if m.state == ended then Released
    else if m.state != Releasing then m.state
    else if AnyActive(m.subs) then Pending
    else Released
  }

  lemma TypeKept(m: Machine, ev: AgpsEvent, cur: Sub)
    ensures Process(m, ev, cur).ty == m.ty
  {
    hide Add, Kept, Notes, AnyActive, MarkInactive, Delete;
  }

  /** One event in the world: the machine moves, and the answer to its command is queued. */
  lemma DriveMoves(w: World, ev: AgpsEvent, cur: Sub)
    ensures var w' := Drive(w, ev, cur);
      var reply := Reply(w.m, ev, w'.m, w.connected);
      && w'.m == Process(w.m, ev, cur) && w'.m.ty == w.m.ty && w'.connected == w.connected
      && w'.queue == w.queue + reply
      && w'.granted == if reply == [] then w.granted else reply[|reply| - 1] == EvGranted
  {
    ProcessReplies(w.m, ev, cur, w.connected);
    TypeKept(w.m, ev, cur);
    hide Process, Answers, SeeOutputs;
  }

  // ---------- the three driven actions ----------

  ghost predicate Standing(w: World) {
    Sound(w.m) && OnlyAnswers(w.queue)
  }

  /** After a request that reaches the machine. */
  lemma AfterRequest(w: World, h: int, asked: AgpsType, emergencyPdn: bool)
    requires Standing(w) && !ForAgnss(Effective(asked, emergencyPdn))
    ensures var ty, w' := Effective(asked, emergencyPdn), Step(w, RequestATL(h, asked), emergencyPdn);
      && w'.m.state == (if w.m.state == Released then Pending else w.m.state) && w'.m.ty == ty
      && w'.queue == w.queue + (if w.m.state == Released && ty == TypeWwanAny
                                then [if w.connected then EvGranted else EvDenied] else [])
      && w'.granted == if w.m.state == Released && ty == TypeWwanAny then w.connected else w.granted
  {
    var ty := Effective(asked, emergencyPdn);
    var extra := if Listed(w.m.subs, h) then multiset{} else multiset{h};
    var w1 := w.(m := w.m.(ty := ty), asked := w.asked + extra);
    DriveMoves(w1, EvSubscribe, Sub(h, true, false));
    Moves(w1.m, EvSubscribe, Sub(h, true, false));
    hide Process, Drive, Sound, Listed, OnlyAnswers;
  }

  /** The last active subscriber of a connection asked for or held lets go. */
  predicate LetsGo(m: Machine, h: int) {
    LinkOf(m.state) != NoLink && Listed(m.subs, h) && !AnyActive(MarkInactive(m.subs, h))
  }

  lemma AfterRelease(w: World, h: int, emergencyPdn: bool)
    requires Standing(w)
    ensures var w', ends := Step(w, ReleaseATL(h), emergencyPdn), LetsGo(w.m, h);
      && w'.m.state == (if ends then Releasing else w.m.state) && w'.m.ty == w.m.ty
      && w'.queue == w.queue + (if ends && w.m.ty == TypeWwanAny then [EvReleased] else [])
      && w'.granted == (w.granted && !(ends && w.m.ty == TypeWwanAny))
      && (ends ==> !AnyActive(w'.m.subs))
  {
    if Listed(w.m.subs, h) {
      var cur := Find(w.m.subs, h);
      DriveMoves(w, EvUnsubscribe, cur);
      Moves(w.m, EvUnsubscribe, cur);
      MarkedSubs(w.m, cur);
      hide Process, Drive, Sound, Listed, OnlyAnswers, AnyActive, Find, MarkInactive;
    }
  }

  lemma MarkedSubs(m: Machine, cur: Sub)
    requires cur.waits
    ensures OnUnsubscribe(m, cur).subs == if m.state == Released then m.subs else MarkInactive(m.subs, cur.handle)
  {
    hide AnyActive;
  }

  /** A close lets the machine ask again. */
  predicate AsksAgain(m: Machine, ev: AgpsEvent) {
    m.state == Releasing && ev != EvGranted && AnyActive(m.subs)
  }

  lemma AfterDelivery(w: World, emergencyPdn: bool)
    requires Standing(w) && w.queue != []
    ensures var w', ev := Step(w, Deliver, emergencyPdn), w.queue[0];
      && w'.m.state == NextState(w.m, ev, Sub(0, true, false)) && w'.m.ty == w.m.ty
      && w'.queue == w.queue[1..] + (if AsksAgain(w.m, ev) && w.m.ty == TypeWwanAny
                                     then [if w.connected then EvGranted else EvDenied] else [])
      && w'.granted == (if AsksAgain(w.m, ev) && w.m.ty == TypeWwanAny then w.connected else w.granted)
      && (w.m.state == Releasing && ev == EvGranted ==> w'.m == w.m)
  {
    var ev := w.queue[0];
    assert IsAnswer(ev);
    DriveMoves(w.(queue := w.queue[1..]), ev, Sub(0, true, false));
    Moves(w.m, ev, Sub(0, true, false));
    assert w.m.state == Releasing && ev == EvGranted ==> Process(w.m, ev, Sub(0, true, false)) == w.m;
    hide Process, Drive, Sound, OnlyAnswers, AnyActive;
  }

  // ---------- commands that nobody hears ----------

  /** The action makes the machine issue a command of a type that the driver ignores: a request in RELEASED sets
      its own type, and a release or a repeated request uses the type of the latest request. */
  predicate Unheard(w: World, a: Action, emergencyPdn: bool) {
    match a
    case RequestATL(_, asked) =>
      var ty := Effective(asked, emergencyPdn);
      ty != TypeWwanAny && !ForAgnss(ty) && w.m.state == Released
    case ReleaseATL(h) => w.m.ty != TypeWwanAny && LetsGo(w.m, h)
    case Deliver => w.m.ty != TypeWwanAny && w.queue != [] && AsksAgain(w.m, w.queue[0])
    case _ => false
  }

  ghost predicate SaysUnheard(out: seq<Output>) {
    exists i :: 0 <= i < |out| && (out[i].Request? || out[i].Release?) && out[i].ty != TypeWwanAny
  }

  /** The guard says exactly that: what the action adds to the output holds a command of another type. */
  lemma UnheardMeans(w: World, a: Action, emergencyPdn: bool)
    requires Accounted(w)
    ensures w.m.out <= Step(w, a, emergencyPdn).m.out
    ensures Unheard(w, a, emergencyPdn) <==> SaysUnheard(Step(w, a, emergencyPdn).m.out[|w.m.out|..])
  {
    AccountedStands(w);
    match a
    case RequestATL(h, asked) => RequestUnheard(w, h, asked, emergencyPdn);
    case ReleaseATL(h) => ReleaseUnheard(w, h, emergencyPdn);
    case Deliver => DeliverUnheard(w, emergencyPdn);
    case _ => assert w.m.out[|w.m.out|..] == [];
  }

  lemma RequestUnheard(w: World, h: int, asked: AgpsType, emergencyPdn: bool)
    requires Standing(w)
    ensures var a := RequestATL(h, asked); var w' := Step(w, a, emergencyPdn);
      w.m.out <= w'.m.out && (Unheard(w, a, emergencyPdn) <==> SaysUnheard(w'.m.out[|w.m.out|..]))
  {
    var ty := Effective(asked, emergencyPdn);
    if ForAgnss(ty) {
      assert (w.m.out + [OpenStatus(h, false)])[|w.m.out|..] == [OpenStatus(h, false)];
    } else {
      DrivenUnheard(w.m.(ty := ty), EvSubscribe, Sub(h, true, false));
    }
    hide Process, Answers, SeeOutputs, SaysUnheard, Listed;
  }

  lemma ReleaseUnheard(w: World, h: int, emergencyPdn: bool)
    requires Standing(w)
    ensures var a := ReleaseATL(h); var w' := Step(w, a, emergencyPdn);
      w.m.out <= w'.m.out && (Unheard(w, a, emergencyPdn) <==> SaysUnheard(w'.m.out[|w.m.out|..]))
  {
    assert w.m.out[|w.m.out|..] == [];
    if Listed(w.m.subs, h) {
      DrivenUnheard(w.m, EvUnsubscribe, Find(w.m.subs, h));
      hide Process, Answers, SeeOutputs, SaysUnheard, Listed, Find, AnyActive, MarkInactive, Sound, OnlyAnswers;
    }
  }

  lemma DeliverUnheard(w: World, emergencyPdn: bool)
    requires Standing(w)
    ensures var w' := Step(w, Deliver, emergencyPdn);
      w.m.out <= w'.m.out && (Unheard(w, Deliver, emergencyPdn) <==> SaysUnheard(w'.m.out[|w.m.out|..]))
  {
    assert w.m.out[|w.m.out|..] == [];
    if w.queue != [] {
      assert IsAnswer(w.queue[0]);
      DrivenUnheard(w.m, w.queue[0], Sub(0, true, false));
      hide Process, Answers, SeeOutputs, SaysUnheard, AnyActive, Sound, OnlyAnswers;
    }
  }

  lemma DrivenUnheard(m: Machine, ev: AgpsEvent, cur: Sub)
    requires Sound(m) && Admissible(m, ev, cur)
    ensures var m', s' := Process(m, ev, cur), NextState(m, ev, cur);
      && m.out <= m'.out
      && (SaysUnheard(m'.out[|m.out|..]) <==>
            m.ty != TypeWwanAny
            && ((m.state != Pending && s' == Pending)
                || (ev == EvUnsubscribe && LinkOf(m.state) != NoLink && LinkOf(s') == NoLink)))
  {
    var notes := ProcessSays(m, ev, cur);
    Moves(m, ev, cur);
    hide Process, Sound, Admissible, NextState, Commands, SaysUnheard, Statuses;
    var m' := Process(m, ev, cur);
    assert m'.out[|m.out|..] == notes + Commands(m, ev, m');
    SaidUnheard(notes, Commands(m, ev, m'));
    CommandsUnheard(m, ev, m');
  }

  lemma SaidUnheard(notes: seq<Output>, commands: seq<Output>)
    requires Statuses(notes)
    ensures SaysUnheard(notes + commands) <==> SaysUnheard(commands)
  {
    assert forall i :: 0 <= i < |commands| ==> (notes + commands)[|notes| + i] == commands[i];
  }

  lemma CommandsUnheard(m: Machine, ev: AgpsEvent, m': Machine)
    ensures SaysUnheard(Commands(m, ev, m')) <==>
      m.ty != TypeWwanAny
      && ((m.state != Pending && m'.state == Pending)
          || (ev == EvUnsubscribe && LinkOf(m.state) != NoLink && LinkOf(m'.state) == NoLink))
  {
    var commands := Commands(m, ev, m');
    assert commands != [] ==> commands[0] == if commands[0].Request? then Request(m.ty) else Release(m.ty);
  }

  // ---------- quiescence ----------

  predicate Settled(w: World) {
    w.queue == [] && (w.m.state == Released || w.m.state == Acquired)
  }

  predicate EndsIn(queue: seq<AgpsEvent>, evs: set<AgpsEvent>) {
    queue != [] && queue[|queue| - 1] in evs
  }

  /** PENDING has its GRANTED or DENIED still to come, RELEASING its RELEASED: as the newest answer queued. */
  ghost predicate Awaiting(w: World) {
    && (w.m.state == Pending ==> EndsIn(w.queue, {EvGranted, EvDenied}))
    && (w.m.state == Releasing ==> EndsIn(w.queue, {EvReleased}))
  }

  /** A command goes unheard, and no answer left over from an earlier one can stand in for its own. */
  predicate Unanswered(w: World, a: Action, emergencyPdn: bool) {
    Unheard(w, a, emergencyPdn)
    && match a
       case RequestATL(_, _) => !EndsIn(w.queue, {EvGranted, EvDenied})
       case ReleaseATL(_) => !EndsIn(w.queue, {EvReleased})
       case _ => w.queue != [] && !EndsIn(w.queue[1..], {EvGranted, EvDenied})
  }

  lemma AccountedStands(w: World)
    requires Accounted(w)
    ensures Standing(w)
  {
  }

  lemma StepAwaits(w: World, a: Action, emergencyPdn: bool)
    requires Accounted(w) && Awaiting(w)
    ensures Awaiting(Step(w, a, emergencyPdn)) <==> !Unanswered(w, a, emergencyPdn)
  {
    AccountedStands(w);
    match a
    case RequestATL(h, asked) => RequestAwaits(w, h, asked, emergencyPdn);
    case ReleaseATL(h) => ReleaseAwaits(w, h, emergencyPdn);
    case Deliver => DeliverAwaits(w, emergencyPdn);
    case _ =>
  }

  lemma RequestAwaits(w: World, h: int, asked: AgpsType, emergencyPdn: bool)
    requires Standing(w) && Awaiting(w)
    ensures var a := RequestATL(h, asked);
      Awaiting(Step(w, a, emergencyPdn)) <==> !Unanswered(w, a, emergencyPdn)
  {
    if !ForAgnss(Effective(asked, emergencyPdn)) {
      AfterRequest(w, h, asked, emergencyPdn);
      hide Step, Standing;
    }
  }

  lemma ReleaseAwaits(w: World, h: int, emergencyPdn: bool)
    requires Standing(w) && Awaiting(w)
    ensures var a := ReleaseATL(h);
      Awaiting(Step(w, a, emergencyPdn)) <==> !Unanswered(w, a, emergencyPdn)
  {
    AfterRelease(w, h, emergencyPdn);
    hide Step, Standing, LetsGo;
    assert LetsGo(w.m, h) ==> LinkOf(w.m.state) != NoLink by { LetsGoMeans(w.m, h); }
  }

  lemma LetsGoMeans(m: Machine, h: int)
    ensures LetsGo(m, h) ==> LinkOf(m.state) != NoLink
  {
  }

  lemma DeliverAwaits(w: World, emergencyPdn: bool)
    requires Standing(w) && Awaiting(w)
    ensures Awaiting(Step(w, Deliver, emergencyPdn)) <==> !Unanswered(w, Deliver, emergencyPdn)
  {
    if w.queue != [] {
      AfterDelivery(w, emergencyPdn);
      assert IsAnswer(w.queue[0]);
      hide Step, Standing, AnyActive;
    }
  }

  ghost predicate AlwaysAwaiting(acts: seq<Action>, emergencyPdn: bool)
    decreases |acts|
  {
    Awaiting(Run(Initially(), acts, emergencyPdn)) && (acts != [] ==> AlwaysAwaiting(acts[..|acts| - 1], emergencyPdn))
  }

  predicate AlwaysAnswered(acts: seq<Action>, emergencyPdn: bool)
    decreases |acts|
  {
    acts != [] ==>
      var init := acts[..|acts| - 1];
      AlwaysAnswered(init, emergencyPdn)
      && !Unanswered(Run(Initially(), init, emergencyPdn), acts[|acts| - 1], emergencyPdn)
  }

  predicate AlwaysHeard(acts: seq<Action>, emergencyPdn: bool)
    decreases |acts|
  {
    acts != [] ==>
      var init := acts[..|acts| - 1];
      AlwaysHeard(init, emergencyPdn)
      && !Unheard(Run(Initially(), init, emergencyPdn), acts[|acts| - 1], emergencyPdn)
  }

  /** For every run of requests of any type, releases, deliveries, connectivity changes and modem restarts: a
      waiting state has its answer queued throughout the run exactly when no command stays unanswered. */
  lemma {:induction false} AwaitingIff(acts: seq<Action>, emergencyPdn: bool)
    ensures AlwaysAwaiting(acts, emergencyPdn) <==> AlwaysAnswered(acts, emergencyPdn)
    decreases |acts|
  {
    hide Step, Accounted, Unanswered, Awaiting;
    if acts == [] {
      assert Awaiting(Initially()) by { StartsAwaiting(); }
    } else {
      var init, a := acts[..|acts| - 1], acts[|acts| - 1];
      AwaitingIff(init, emergencyPdn);
      RunKeepsAccount(init, emergencyPdn);
      if Awaiting(Run(Initially(), init, emergencyPdn)) {
        StepAwaits(Run(Initially(), init, emergencyPdn), a, emergencyPdn);
      }
      assert AlwaysAwaiting(init, emergencyPdn) ==> Awaiting(Run(Initially(), init, emergencyPdn));
    }
  }

  lemma StartsAwaiting()
    ensures Awaiting(Initially())
  {
  }

  lemma {:induction false} HeardIsAnswered(acts: seq<Action>, emergencyPdn: bool)
    requires AlwaysHeard(acts, emergencyPdn)
    ensures AlwaysAnswered(acts, emergencyPdn)
    decreases |acts|
  {
    if acts != [] {
      HeardIsAnswered(acts[..|acts| - 1], emergencyPdn);
    }
  }

  /** In every run whose commands are all heard an empty queue finds the machine in RELEASED or ACQUIRED, never
      waiting for an answer that will not come. */
  lemma Quiescence(acts: seq<Action>, emergencyPdn: bool)
    requires AlwaysHeard(acts, emergencyPdn)
    ensures var w := Run(Initially(), acts, emergencyPdn);
      Awaiting(w) && (w.queue == [] ==> Settled(w))
  {
    HeardIsAnswered(acts, emergencyPdn);
    AwaitingIff(acts, emergencyPdn);
    hide Run, AlwaysAnswered, AlwaysHeard;
  }

  /** Requests of type WWAN_ANY, and those without a machine, are always heard. */
  lemma {:induction false} WwanIsHeard(acts: seq<Action>, emergencyPdn: bool)
    requires forall i :: 0 <= i < |acts| && acts[i].RequestATL? ==> acts[i].ty == TypeWwanAny || ForAgnss(acts[i].ty)
    ensures AlwaysHeard(acts, emergencyPdn) && Run(Initially(), acts, emergencyPdn).m.ty == TypeWwanAny
    decreases |acts|
  {
    if acts != [] {
      var init, a := acts[..|acts| - 1], acts[|acts| - 1];
      WwanIsHeard(init, emergencyPdn);
      StepKeepsWwan(Run(Initially(), init, emergencyPdn), a, emergencyPdn);
      hide Step, Unheard;
    }
  }

  lemma StepKeepsWwan(w: World, a: Action, emergencyPdn: bool)
    requires w.m.ty == TypeWwanAny && (a.RequestATL? ==> a.ty == TypeWwanAny || ForAgnss(a.ty))
    ensures !Unheard(w, a, emergencyPdn) && Step(w, a, emergencyPdn).m.ty == TypeWwanAny
  {
    match a
    case RequestATL(h, asked) => TypeKept(w.m, EvSubscribe, Sub(h, true, false));
    case ReleaseATL(h) =>
      if Listed(w.m.subs, h) {
        TypeKept(w.m, EvUnsubscribe, Find(w.m.subs, h));
      }
    case Deliver =>
      if w.queue != [] {
        TypeKept(w.m, w.queue[0], Sub(0, true, false));
      }
    case _ =>
    hide Process, Answers, SeeOutputs, Listed;
  }

  // ---------- settling ----------

  function Deliveries(w: World, n: nat): World
    decreases n
  {
    if n == 0 then w else Deliveries(Step(w, Deliver, false), n - 1)
  }

  /** How many deliveries empty the queue: a close may ask once more. */
  function Load(w: World): nat {
    |w.queue| + if w.m.state == Releasing then 1 else 0
  }

  /** The close that is due will ask again with a type the driver ignores. */
  predicate Doomed(w: World) {
    w.m.state == Releasing && w.m.ty != TypeWwanAny && AnyActive(w.m.subs)
  }

  lemma DeliveryLightens(w: World)
    requires Accounted(w) && Awaiting(w)
    ensures var w' := Step(w, Deliver, false);
      && Load(w') <= (if Load(w) == 0 then 0 else Load(w) - 1)
      && (!Doomed(w) ==> !Doomed(w') && Awaiting(w'))
  {
    AccountedStands(w);
    StepAwaits(w, Deliver, false);
    if w.queue != [] {
      AfterDelivery(w, false);
      assert IsAnswer(w.queue[0]);
      hide Step, Standing, Accounted, AnyActive;
    }
  }

  /** Left alone, the loop settles: each delivery takes one answer and only leaving RELEASING adds one. */
  lemma {:induction false} QueueDrains(w: World, n: nat)
    requires Accounted(w) && Awaiting(w) && Load(w) <= n && !Doomed(w)
    ensures Settled(Deliveries(w, n))
    decreases n
  {
    if n > 0 {
      hide Step, Accounted, Awaiting, Doomed;
      StepKeepsAccount(w, Deliver, false);
      DeliveryLightens(w);
      QueueDrains(Step(w, Deliver, false), n - 1);
    }
  }

  lemma {:induction false} NothingDelivered(w: World, n: nat)
    requires w.queue == []
    ensures Deliveries(w, n) == w
    decreases n
  {
    if n > 0 {
      NothingDelivered(w, n - 1);
    }
  }

  /** From a settled world, whichever state it settled in, the world settles again after any action exactly when
      the action's command is heard. */
  lemma SettlesIff(w: World, a: Action, emergencyPdn: bool, n: nat)
    requires Accounted(w) && Settled(w) && n >= 1
    ensures Settled(Deliveries(Step(w, a, emergencyPdn), n)) <==> !Unheard(w, a, emergencyPdn)
  {
    hide Step, Accounted, Unheard, AnyActive;
    var w' := Step(w, a, emergencyPdn);
    StepKeepsAccount(w, a, emergencyPdn);
    OneAnswerDue(w, a, emergencyPdn);
    if w'.queue == [] {
      NothingDelivered(w', n);
    } else {
      SettledByOne(w');
      NothingDelivered(Step(w', Deliver, false), n - 1);
    }
  }

  /** What an action can leave behind in a settled world. */
  lemma OneAnswerDue(w: World, a: Action, emergencyPdn: bool)
    requires Accounted(w) && Settled(w)
    ensures var w' := Step(w, a, emergencyPdn);
      if Unheard(w, a, emergencyPdn) then w'.queue == [] && (w'.m.state == Pending || w'.m.state == Releasing)
      else Settled(w')
           || (w'.m.state == Pending && (w'.queue == [EvGranted] || w'.queue == [EvDenied]))
           || (w'.m.state == Releasing && w'.queue == [EvReleased] && !AnyActive(w'.m.subs))
  {
    AccountedStands(w);
    match a
    case RequestATL(h, asked) =>
      if !ForAgnss(Effective(asked, emergencyPdn)) {
        AfterRequest(w, h, asked, emergencyPdn);
        hide Step, Accounted, Standing;
      }
    case ReleaseATL(h) =>
      AfterRelease(w, h, emergencyPdn);
      hide Step, Accounted, Standing, LetsGo, AnyActive;
    case _ =>
  }

  lemma SettledByOne(w: World)
    requires Accounted(w)
    requires (w.m.state == Pending && (w.queue == [EvGranted] || w.queue == [EvDenied]))
             || (w.m.state == Releasing && w.queue == [EvReleased] && !AnyActive(w.m.subs))
    ensures Settled(Step(w, Deliver, false))
  {
    AccountedStands(w);
    AfterDelivery(w, false);
    hide Step, Accounted, Standing, AnyActive;
  }

  // ---------- the machine and its driver in step ----------

  /** The queue holds exactly the answers the state is waiting for, and the machine has the connection, or is
      about to be told of it, exactly when the driver granted it. */
  ghost predicate InStep(w: World) {
    match w.m.state
    case Released => w.queue == [] && !w.granted
    case Pending => w.queue == [if w.granted then EvGranted else EvDenied]
    case Acquired => w.queue == [] && w.granted
    case Releasing =>
      && !w.granted
      && (w.queue == [EvReleased] || w.queue == [EvGranted, EvReleased] || w.queue == [EvDenied, EvReleased])
  }

  /** A DENIED that overtakes the RELEASED it is queued before is taken for it. */
  predicate DeniesARelease(w: World, a: Action) {
    a == Deliver && w.m.state == Releasing && w.queue != [] && w.queue[0] == EvDenied
  }

  lemma StepInStep(w: World, a: Action, emergencyPdn: bool)
    requires Accounted(w) && InStep(w)
    ensures InStep(Step(w, a, emergencyPdn)) <==> !DeniesARelease(w, a) && !Unheard(w, a, emergencyPdn)
  {
    AccountedStands(w);
    match a
    case RequestATL(h, asked) => RequestInStep(w, h, asked, emergencyPdn);
    case ReleaseATL(h) => ReleaseInStep(w, h, emergencyPdn);
    case Deliver => DeliverInStep(w, emergencyPdn);
    case _ =>
  }

  lemma RequestInStep(w: World, h: int, asked: AgpsType, emergencyPdn: bool)
    requires Standing(w) && InStep(w)
    ensures var a := RequestATL(h, asked); InStep(Step(w, a, emergencyPdn)) <==> !Unheard(w, a, emergencyPdn)
  {
    if !ForAgnss(Effective(asked, emergencyPdn)) {
      AfterRequest(w, h, asked, emergencyPdn);
      hide Step, Standing;
    }
  }

  lemma ReleaseInStep(w: World, h: int, emergencyPdn: bool)
    requires Standing(w) && InStep(w)
    ensures InStep(Step(w, ReleaseATL(h), emergencyPdn)) <==> !Unheard(w, ReleaseATL(h), emergencyPdn)
  {
    AfterRelease(w, h, emergencyPdn);
    LetsGoMeans(w.m, h);
    hide Step, Standing, LetsGo, AnyActive;
    assert [EvGranted] + [EvReleased] == [EvGranted, EvReleased] && [EvDenied] + [EvReleased] == [EvDenied, EvReleased];
    assert w.queue == [] ==> w.queue + [EvReleased] == [EvReleased];
    assert w.queue + [] == w.queue;
  }

  lemma DeliverInStep(w: World, emergencyPdn: bool)
    requires Standing(w) && InStep(w)
    ensures InStep(Step(w, Deliver, emergencyPdn))
       <==> !DeniesARelease(w, Deliver) && !Unheard(w, Deliver, emergencyPdn)
  {
    if w.queue != [] {
      AfterDelivery(w, emergencyPdn);
      hide Step, Standing, AnyActive;
    }
  }

  ghost predicate AlwaysInStep(acts: seq<Action>, emergencyPdn: bool)
    decreases |acts|
  {
    InStep(Run(Initially(), acts, emergencyPdn)) && (acts != [] ==> AlwaysInStep(acts[..|acts| - 1], emergencyPdn))
  }

  predicate NeverDeniesARelease(acts: seq<Action>, emergencyPdn: bool)
    decreases |acts|
  {
    acts != [] ==>
      var init := acts[..|acts| - 1];
      NeverDeniesARelease(init, emergencyPdn)
      && !DeniesARelease(Run(Initially(), init, emergencyPdn), acts[|acts| - 1])
  }

  /** For every run: machine and driver stay in step throughout exactly when the run never delivers a DENIED in
      RELEASING and every command is heard. */
  lemma {:induction false} InStepIff(acts: seq<Action>, emergencyPdn: bool)
    ensures AlwaysInStep(acts, emergencyPdn)
       <==> NeverDeniesARelease(acts, emergencyPdn) && AlwaysHeard(acts, emergencyPdn)
    decreases |acts|
  {
    hide InStep, Step, DeniesARelease, Unheard, Accounted;
    if acts == [] {
      assert InStep(Initially()) by { StartsInStep(); }
    } else {
      var init, a := acts[..|acts| - 1], acts[|acts| - 1];
      InStepIff(init, emergencyPdn);
      RunKeepsAccount(init, emergencyPdn);
      if InStep(Run(Initially(), init, emergencyPdn)) {
        StepInStep(Run(Initially(), init, emergencyPdn), a, emergencyPdn);
      }
      assert AlwaysInStep(init, emergencyPdn) ==> InStep(Run(Initially(), init, emergencyPdn));
    }
  }

  lemma StartsInStep()
    ensures InStep(Initially())
  {
  }

  /** A world in step settles, left alone, exactly when the close it waits for will not ask again unheard. */
  lemma DrainsIff(w: World, n: nat)
    requires Accounted(w) && InStep(w) && Load(w) <= n
    ensures Settled(Deliveries(w, n)) <==> !Doomed(w)
  {
    if Doomed(w) {
      DoomedStays(w, n);
    } else {
      QueueDrains(w, n);
    }
  }

  lemma {:induction false} DoomedStays(w: World, n: nat)
    requires Accounted(w) && InStep(w) && Doomed(w) && |w.queue| <= n
    ensures Deliveries(w, n).m.state == Pending && Deliveries(w, n).queue == []
    decreases n
  {
    hide Step, Accounted, Doomed, InStep;
    var w' := Step(w, Deliver, false);
    StepKeepsAccount(w, Deliver, false);
    DoomedStep(w);
    if w'.m.state == Releasing {
      DoomedStays(w', n - 1);
    } else if w'.queue == [] {
      NothingDelivered(w', n - 1);
    } else {
      LateRelease(w');
      TwoDelivered(w, n);
      NothingDelivered(Step(w', Deliver, false), n - 2);
    }
  }

  lemma TwoDelivered(w: World, n: nat)
    requires n >= 2
    ensures Deliveries(w, n) == Deliveries(Step(Step(w, Deliver, false), Deliver, false), n - 2)
  {
    hide Step;
  }

  /** The next delivery leaves the world doomed, or PENDING with at most the RELEASED that was denied. */
  lemma DoomedStep(w: World)
    requires Accounted(w) && InStep(w) && Doomed(w)
    ensures var w' := Step(w, Deliver, false);
      && |w'.queue| == |w.queue| - 1
      && if w'.m.state == Releasing then InStep(w') && Doomed(w')
         else w'.m.state == Pending && (w'.queue == [] || w'.queue == [EvReleased])
  {
    AccountedStands(w);
    AfterDelivery(w, false);
    hide Step, Accounted, Standing, AnyActive;
  }

  /** A RELEASED that reaches PENDING is ignored. */
  lemma LateRelease(w: World)
    requires Accounted(w) && w.m.state == Pending && w.queue == [EvReleased]
    ensures var w' := Step(w, Deliver, false); w'.m.state == Pending && w'.queue == []
  {
    AccountedStands(w);
    AfterDelivery(w, false);
    hide Step, Accounted, Standing;
  }

  /** A request of type WIFI that joins an open connection changes the type of its machine: here subscriber 1 has
      its WWAN_ANY connection, asks once more for WIFI, and its release then waits in RELEASING for good. */
  lemma JoiningStrandsTheRelease(n: nat)
    ensures var acts := [Connectivity(true), RequestATL(1, TypeWwanAny), Deliver, RequestATL(1, TypeWifi)];
      var w := Run(Initially(), acts, false);
      var w' := Deliveries(Step(w, ReleaseATL(1), false), n);
      && Settled(w) && w.m.state == Acquired && w.connected && w.granted
      && w'.m.state == Releasing && w'.queue == [] && w'.granted
  {
    var acts := [Connectivity(true), RequestATL(1, TypeWwanAny), Deliver];
    var w3 := OneConnected(acts);
    var w := Run(Initially(), acts + [RequestATL(1, TypeWifi)], false);
    assert (acts + [RequestATL(1, TypeWifi)])[..3] == acts;
    RunKeepsAccount(acts, false);
    RunKeepsAccount(acts + [RequestATL(1, TypeWifi)], false);
    AccountedStands(w3);
    AfterRequest(w3, 1, TypeWifi, false);
    AccountedStands(w);
    AfterRelease(w, 1, false);
    assert w.m.subs == w3.m.subs == [Sub(1, true, false)];
    OnlyOneLetsGo(w.m);
    NothingDelivered(Step(w, ReleaseATL(1), false), n);
    hide *;
    assert acts + [RequestATL(1, TypeWifi)]
        == [Connectivity(true), RequestATL(1, TypeWwanAny), Deliver, RequestATL(1, TypeWifi)];
  }

  lemma OnlyOneLetsGo(m: Machine)
    requires m.subs == [Sub(1, true, false)] && m.state == Acquired
    ensures LetsGo(m, 1)
  {
    assert m.subs[0].handle == 1;
  }

  lemma OneConnected(acts: seq<Action>) returns (w: World)
    requires acts == [Connectivity(true), RequestATL(1, TypeWwanAny), Deliver]
    ensures w == Run(Initially(), acts, false) && w.m.subs == [Sub(1, true, false)]
    ensures w.m.state == Acquired && w.queue == [] && w.granted && w.connected
  {
    hide *;
    w := Step(Step(Step(Initially(), Connectivity(true), false), RequestATL(1, TypeWwanAny), false), Deliver, false);
    RunThree(Initially(), Connectivity(true), RequestATL(1, TypeWwanAny), Deliver, []);
    RunNone(w);
    assert acts + [] == acts;
    var w1 := GoesOnline();
    ConnectsOne(w1);
  }

  lemma RunNone(w: World)
    ensures Run(w, [], false) == w
  {
  }

  lemma GoesOnline() returns (w: World)
    ensures w == Step(Initially(), Connectivity(true), false) && Standing(w)
    ensures w.m.state == Released && w.m.subs == [] && w.queue == [] && w.connected
  {
    w := Step(Initially(), Connectivity(true), false);
  }

  lemma ConnectsOne(w: World)
    requires Standing(w) && w.m.state == Released && w.m.subs == [] && w.queue == [] && w.connected
    ensures var w' := Step(Step(w, RequestATL(1, TypeWwanAny), false), Deliver, false);
      w'.m.subs == [Sub(1, true, false)] && w'.m.state == Acquired && w'.queue == [] && w'.granted && w'.connected
  {
    var w2 := Step(w, RequestATL(1, TypeWwanAny), false);
    AfterRequest(w, 1, TypeWwanAny, false);
    FirstListed(w);
    ConnectionKept(w, RequestATL(1, TypeWwanAny));
    ConnectionKept(w2, Deliver);
    hide Step, Standing, AnyActive;
    assert w2.queue == [EvGranted];
    AfterDelivery(w2, false);
    assert w2.queue[1..] + [] == [];
  }

  lemma ConnectionKept(w: World, a: Action)
    ensures !a.Connectivity? ==> Step(w, a, false).connected == w.connected
  {
    hide Process, Answers, SeeOutputs, Listed;
  }

  lemma StandsAtFirst()
    ensures Standing(Initially())
  {
  }

  lemma FirstListed(w: World)
    requires Standing(w) && w.m.state == Released && w.m.subs == [] && w.queue == [] && w.connected
    ensures var w' := Step(w, RequestATL(1, TypeWwanAny), false);
      && w'.m.subs == [Sub(1, true, false)] && Standing(w')
      && Step(w', Deliver, false).m.subs == w'.m.subs
  {
    var w' := Step(w, RequestATL(1, TypeWwanAny), false);
    AfterRequest(w, 1, TypeWwanAny, false);
    SubsAfterRequest(w, 1, TypeWwanAny, false);
    SubsAfterGrant(w');
    hide Step;
    assert w'.queue == [EvGranted];
  }

  lemma SubsAfterRequest(w: World, h: int, ty: AgpsType, emergencyPdn: bool)
    requires !ForAgnss(Effective(ty, emergencyPdn))
    ensures Step(w, RequestATL(h, ty), emergencyPdn).m.subs == Add(w.m.subs, Sub(h, true, false))
  {
    hide Add, Answers, SeeOutputs, Listed;
  }

  lemma SubsAfterGrant(w: World)
    requires w.queue == [EvGranted]
    ensures Step(w, Deliver, false).m.subs == w.m.subs
  {
    hide Answers, SeeOutputs, Notes;
  }

  // ---------- out of step: answers that trail the commands ----------

  ghost predicate Looks(w: World, s: AgpsState, subs: seq<Sub>, queue: seq<AgpsEvent>, connected: bool, granted: bool) {
    w.m.state == s && w.m.subs == subs && w.m.ty == TypeWwanAny
    && w.queue == queue && w.connected == connected && w.granted == granted
  }

  lemma Join(w: World, a: int, b: int, queue: seq<AgpsEvent>, granted: bool)
    requires a != b && Looks(w, Releasing, [Sub(a, true, true)], queue, true, granted)
    ensures Looks(Step(w, RequestATL(b, TypeWwanAny), false), Releasing, [Sub(a, true, true), Sub(b, true, false)],
                  queue, true, granted)
  {
    DriveMoves(w.(asked := w.asked + multiset{b}), EvSubscribe, Sub(b, true, false));
  }

  lemma KeepOther(a: int, b: int)
    ensures Kept([Sub(a, true, true), Sub(b, true, false)], InactiveSubscribers) == [Sub(b, true, false)]
  {
    ToldAndKept(EvReleased, [], Sub(a, true, true), InactiveSubscribers);
    ToldAndKept(EvReleased, [Sub(a, true, true)], Sub(b, true, false), InactiveSubscribers);
    assert [] + [Sub(a, true, true)] == [Sub(a, true, true)];
    assert [Sub(a, true, true)] + [Sub(b, true, false)] == [Sub(a, true, true), Sub(b, true, false)];
  }

  lemma CloseOne(w: World, a: int, b: int, queue: seq<AgpsEvent>, granted: bool)
    requires Looks(w, Releasing, [Sub(a, true, true), Sub(b, true, false)], queue, true, granted)
    requires queue != [] && queue[0] in {EvDenied, EvReleased}
    ensures Looks(Step(w, Deliver, false), Pending, [Sub(b, true, false)], queue[1..] + [EvGranted], true, true)
  {
    hide Kept, Notes, Drive;
    KeepOther(a, b);
    assert !Kept(w.m.subs, InactiveSubscribers)[0].inactive;
    DriveMoves(w.(queue := w.queue[1..]), w.queue[0], Sub(0, true, false));
  }

  /** A request while the only subscriber, inactive, waits for the close; then that close, or a denial taken
      for it, comes first in the queue and the new one is asked for. */
  lemma JoinAndClose(w: World, a: int, b: int, queue: seq<AgpsEvent>, granted: bool)
    requires a != b && Looks(w, Releasing, [Sub(a, true, true)], queue, true, granted)
    requires queue != [] && queue[0] in {EvDenied, EvReleased}
    ensures var w' := Step(Step(w, RequestATL(b, TypeWwanAny), false), Deliver, false);
      && Looks(w', Pending, [Sub(b, true, false)], queue[1..] + [EvGranted], true, true)
  {
    hide Step, Looks;
    Join(w, a, b, queue, granted);
    CloseOne(Step(w, RequestATL(b, TypeWwanAny), false), a, b, queue, granted);
  }

  lemma LeavePending(w: World, h: int, queue: seq<AgpsEvent>, connected: bool, granted: bool)
    requires Looks(w, Pending, [Sub(h, true, false)], queue, connected, granted)
    ensures Looks(Step(w, ReleaseATL(h), false),
                  Releasing, [Sub(h, true, true)], queue + [EvReleased], connected, false)
  {
    assert w.m.subs[0].handle == h;
    DriveMoves(w, EvUnsubscribe, w.m.subs[0]);
  }

  /** The request of the only subscriber is granted, and a close left in the queue takes it down again. */
  lemma OpenAndForce(w: World, h: int)
    requires Looks(w, Pending, [Sub(h, true, false)], [EvGranted, EvReleased, EvGranted], true, true)
    ensures var w' := Step(Step(Step(w, Deliver, false), Deliver, false), Deliver, false);
      && Looks(w', Released, [], [], true, true)
      && OpenStatus(h, true) in w'.m.out && CloseStatus(h) in w'.m.out
  {
    hide *;
    var w1 := Step(w, Deliver, false);
    var w2 := Step(w1, Deliver, false);
    GrantedOne(w, h);
    ForcedOne(w1, h);
    GrantedTooLate(w2);
    assert OpenStatus(h, true) == w2.m.out[|w.m.out|] && CloseStatus(h) == w2.m.out[|w.m.out| + 1];
  }

  lemma GrantedOne(w: World, h: int)
    requires Looks(w, Pending, [Sub(h, true, false)], [EvGranted, EvReleased, EvGranted], true, true)
    ensures var w' := Step(w, Deliver, false);
      && Looks(w', Acquired, [Sub(h, true, false)], [EvReleased, EvGranted], true, true)
      && w'.m.out == w.m.out + [OpenStatus(h, true)]
  {
    hide Notes, Kept, Drive;
    ToldAndKept(EvGranted, [], Sub(h, true, false), ActiveSubscribers);
    assert [] + [Sub(h, true, false)] == [Sub(h, true, false)];
    NobodyTold(EvGranted, ActiveSubscribers);
    DriveMoves(w.(queue := w.queue[1..]), EvGranted, Sub(0, true, false));
    assert w.queue[1..] + [] == [EvReleased, EvGranted];
  }

  lemma ForcedOne(w: World, h: int)
    requires Looks(w, Acquired, [Sub(h, true, false)], [EvReleased, EvGranted], true, true)
    ensures var w' := Step(w, Deliver, false);
      Looks(w', Released, [], [EvGranted], true, true) && w'.m.out == w.m.out + [CloseStatus(h)]
  {
    hide Notes, Kept, Drive;
    ToldAndKept(EvReleased, [], Sub(h, true, false), AllSubscribers);
    assert [] + [Sub(h, true, false)] == [Sub(h, true, false)];
    NobodyTold(EvReleased, AllSubscribers);
    DriveMoves(w.(queue := w.queue[1..]), EvReleased, Sub(0, true, false));
    assert w.queue[1..] + [] == [EvGranted];
  }

  lemma GrantedTooLate(w: World)
    requires Looks(w, Released, [], [EvGranted], true, true)
    ensures var w' := Step(w, Deliver, false); Looks(w', Released, [], [], true, true) && w'.m.out == w.m.out
  {
    hide Notes, Kept, Drive;
    DriveMoves(w.(queue := w.queue[1..]), EvGranted, Sub(0, true, false));
  }

  lemma NobodyTold(ev: AgpsEvent, a: Audience)
    ensures Notes(ev, [], a) == [] && Kept([], a) == []
  {
  }

  lemma GoOnline(w: World, s: AgpsState, subs: seq<Sub>, queue: seq<AgpsEvent>, granted: bool)
    requires Looks(w, s, subs, queue, false, granted)
    ensures Looks(Step(w, Connectivity(true), false), s, subs, queue, true, granted)
  {
  }

  lemma FirstRequest(h: int)
    ensures Looks(Step(Initially(), RequestATL(h, TypeWwanAny), false),
                  Pending, [Sub(h, true, false)], [EvDenied], false, false)
  {
    StandsAtFirst();
    AfterRequest(Initially(), h, TypeWwanAny, false);
    SubsAfterRequest(Initially(), h, TypeWwanAny, false);
    hide Step, Standing;
  }

  lemma {:induction false} RunForward(w: World, a: Action, acts: seq<Action>)
    ensures Run(w, [a] + acts, false) == Run(Step(w, a, false), acts, false)
    decreases |acts|
  {
    hide Step;
    var all := [a] + acts;
    if acts == [] {
      assert all[..0] == [] && all == [a];
    } else {
      var init := acts[..|acts| - 1];
      assert all[..|all| - 1] == [a] + init;
      RunForward(w, a, init);
    }
  }

  /** Requests are all of type WWAN_ANY, nobody releases handle 3, and the modem does not restart. */
  predicate Blameless(a: Action) {
    (a.RequestATL? ==> a.ty == TypeWwanAny) && a != ReleaseATL(3) && a != ModemSSR
  }

  /** After a denial taken for a close the answers trail the commands. In this run subscriber 3 is told its
      connection is open and then, by the answer to an older release, that it is closed, though nobody released
      it; the loop settles in RELEASED with the last request granted by the driver and never given back. */
  lemma TrailingAnswers()
    ensures exists acts: seq<Action> ::
      var w := Run(Initially(), acts, false);
      && (forall i :: 0 <= i < |acts| ==> Blameless(acts[i]))
      && Settled(w) && w.m.state == Released && w.granted && w.connected
      && OpenStatus(3, true) in w.m.out && CloseStatus(3) in w.m.out
  {
    hide Run, Step, Looks;
    var acts3 := [RequestATL(3, TypeWwanAny), Deliver, Deliver, Deliver, Deliver];
    var acts2 := [RequestATL(2, TypeWwanAny), Deliver, ReleaseATL(2)] + acts3;
    var acts1 := [RequestATL(1, TypeWwanAny), ReleaseATL(1), Connectivity(true)] + acts2;
    assert forall i :: 0 <= i < |acts1| ==> Blameless(acts1[i]);
    var w0 := Run(Initially(), acts1, false);
    var w3 := FirstDenied(acts2);
    var w6 := SecondTrails(w3, acts3);
    ThirdClosed(w6);
    assert w0 == Run(w6, acts3, false);
  }

  lemma FirstDenied(acts: seq<Action>) returns (w: World)
    ensures Looks(w, Releasing, [Sub(1, true, true)], [EvDenied, EvReleased], true, false)
    ensures Run(Initially(), [RequestATL(1, TypeWwanAny), ReleaseATL(1), Connectivity(true)] + acts, false)
        == Run(w, acts, false)
  {
    hide Step, Run, Looks;
    FirstRequest(1);
    var w1 := Step(Initially(), RequestATL(1, TypeWwanAny), false);
    LeavePending(w1, 1, [EvDenied], false, false);
    var w2 := Step(w1, ReleaseATL(1), false);
    assert [EvDenied] + [EvReleased] == [EvDenied, EvReleased];
    GoOnline(w2, Releasing, [Sub(1, true, true)], [EvDenied, EvReleased], false);
    w := Step(w2, Connectivity(true), false);
    RunThree(Initially(), RequestATL(1, TypeWwanAny), ReleaseATL(1), Connectivity(true), acts);
  }

  lemma RunThree(w: World, a: Action, b: Action, c: Action, acts: seq<Action>)
    ensures Run(w, [a, b, c] + acts, false) == Run(Step(Step(Step(w, a, false), b, false), c, false), acts, false)
  {
    hide Run, Step;
    assert [a, b, c] + acts == [a] + ([b] + ([c] + acts));
    RunForward(w, a, [b] + ([c] + acts));
    RunForward(Step(w, a, false), b, [c] + acts);
    RunForward(Step(Step(w, a, false), b, false), c, acts);
  }

  lemma SecondTrails(w: World, acts: seq<Action>) returns (w': World)
    requires Looks(w, Releasing, [Sub(1, true, true)], [EvDenied, EvReleased], true, false)
    ensures Looks(w', Releasing, [Sub(2, true, true)], [EvReleased, EvGranted, EvReleased], true, false)
    ensures Run(w, [RequestATL(2, TypeWwanAny), Deliver, ReleaseATL(2)] + acts, false) == Run(w', acts, false)
  {
    hide Step, Run, Looks;
    JoinAndClose(w, 1, 2, [EvDenied, EvReleased], false);
    var w1 := Step(Step(w, RequestATL(2, TypeWwanAny), false), Deliver, false);
    assert [EvDenied, EvReleased][1..] + [EvGranted] == [EvReleased, EvGranted];
    LeavePending(w1, 2, [EvReleased, EvGranted], true, true);
    assert [EvReleased, EvGranted] + [EvReleased] == [EvReleased, EvGranted, EvReleased];
    w' := Step(w1, ReleaseATL(2), false);
    RunThree(w, RequestATL(2, TypeWwanAny), Deliver, ReleaseATL(2), acts);
  }

  lemma ThirdClosed(w: World)
    requires Looks(w, Releasing, [Sub(2, true, true)], [EvReleased, EvGranted, EvReleased], true, false)
    ensures var w' := Run(w, [RequestATL(3, TypeWwanAny), Deliver, Deliver, Deliver, Deliver], false);
      && Settled(w') && w'.m.state == Released && w'.granted && w'.connected
      && OpenStatus(3, true) in w'.m.out && CloseStatus(3) in w'.m.out
  {
    hide Step, Run;
    JoinAndClose(w, 2, 3, [EvReleased, EvGranted, EvReleased], false);
    var w1 := Step(Step(w, RequestATL(3, TypeWwanAny), false), Deliver, false);
    assert [EvReleased, EvGranted, EvReleased][1..] + [EvGranted] == [EvGranted, EvReleased, EvGranted];
    OpenAndForce(w1, 3);
    var rest := [Deliver, Deliver];
    assert [RequestATL(3, TypeWwanAny), Deliver, Deliver] + rest
        == [RequestATL(3, TypeWwanAny), Deliver, Deliver, Deliver, Deliver];
    RunThree(w, RequestATL(3, TypeWwanAny), Deliver, Deliver, rest);
    RunTwo(Step(w1, Deliver, false));
  }

  lemma RunTwo(w: World)
    ensures Run(w, [Deliver, Deliver], false) == Step(Step(w, Deliver, false), Deliver, false)
  {
    hide Step;
    assert [Deliver, Deliver] == [Deliver] + [Deliver] && [Deliver] == [Deliver] + [];
    RunForward(w, Deliver, [Deliver]);
    RunForward(Step(w, Deliver, false), Deliver, []);
  }
}
