/** The interaction hint protocol: client threads, one worker thread, a mutex and an eventfd, as interleaved
    steps, one for each critical section and one for the worker's return from poll. */
module HintProtocol {
  datatype State = Uninitialized | Idle | Interaction | Waiting

  /** Where the worker is: before the condition variable, in poll, before its call of Release, or returned. */
  datatype Worker = NoWorker | AtLoop | Polling | AtRelease | Ended

  datatype Timespec = Timespec(sec: int, nsec: int)

  /** What happened, in order: hint switched, request accepted, wait begun with this eventfd count. */
  datatype Mark = HintOn | HintOff | Accepted(at: Timespec, durationMs: int) | WaitBegins(events: nat)

  datatype Handler = Handler(
    state: State, worker: Worker, events: nat, durationMs: int, last: Timespec, clock: Timespec, log: seq<Mark>)

  datatype Step =
    | Init
    | Acquire(duration: int, now: Timespec)
    | Exit
    | WorkerTakes
    | PollReturns
    | WorkerReleases

  const MIN_DURATION_MS := 1400
  const MAX_DURATION_MS := 5650
  const EXTRA_MS := 650
  const INT_MAX := 0x7FFF_FFFF

  // ---------- time ----------

  function Nanos(t: Timespec): int {
    t.sec * 1_000_000_000 + t.nsec
  }

  predicate Normal(t: Timespec) {
    0 <= t.nsec < 1_000_000_000
  }

  /** C's division: towards zero. */
  function Truncated(n: int, d: int): int
    requires d > 0
  {
    if n >= 0 then n / d else -(-n / d)
  }

  function DiffMs(start: Timespec, end: Timespec): int {
    (end.sec - start.sec) * 1000 + Truncated(end.nsec - start.nsec, 1_000_000)
  }

  function Clamped(duration: int): (f: int)
    ensures MIN_DURATION_MS <= f <= MAX_DURATION_MS
    ensures MIN_DURATION_MS < duration + EXTRA_MS < MAX_DURATION_MS ==> f == duration + EXTRA_MS
  {
    var wanted := duration + EXTRA_MS;
    if wanted > MAX_DURATION_MS then MAX_DURATION_MS
    else if wanted > MIN_DURATION_MS then wanted
    else MIN_DURATION_MS
  }

  /** The difference of two normalized times is less than a millisecond off, and not negative when time does
      not run backwards. */
  lemma DiffIsClose(start: Timespec, end: Timespec)
    requires Normal(start) && Normal(end)
    ensures -1_000_000 < DiffMs(start, end) * 1_000_000 - (Nanos(end) - Nanos(start)) < 1_000_000
    ensures Nanos(start) <= Nanos(end) ==> DiffMs(start, end) >= 0
  {
    var d := end.nsec - start.nsec;
    assert -1_000_000 < Truncated(d, 1_000_000) * 1_000_000 - d < 1_000_000;
  }

  // ---------- steps ----------

  function Fresh(t: Timespec): Handler {
    Handler(Uninitialized, NoWorker, 0, 0, t, t, [])
  }

  function Marked(h: Handler, m: Mark): Handler {
    h.(log := h.log + [m])
  }

  /** A running hint that lasts longer than the new one would covers it. */
  predicate Covers(h: Handler, f: int, now: Timespec) {
    h.state != Idle && f <= h.durationMs && DiffMs(h.last, now) <= h.durationMs - f
  }

  function Acquired(h: Handler, duration: int, now: Timespec): Handler {
    var f := Clamped(duration);
    if h.state == Uninitialized then h
    else if Covers(h, f, now) then h.(clock := now)
    else
      var h' := Marked(h.(last := now, durationMs := f, clock := now, state := Interaction), Accepted(now, f));
      match h.state
      case Waiting => h'.(events := h.events + 1)
      case Idle => Marked(h', HintOn)
      case _ => h'
  }

  /** The worker's Release: end the hint, or clear the wait aborts pending in the eventfd. */
  function Released(h: Handler): Handler {
    if h.state == Waiting then Marked(h.(state := Idle), HintOff) else h.(events := 0)
  }

  function Next(h: Handler, step: Step): Handler {
    match step
    case Init =>
      if h.state == Uninitialized && h.worker == NoWorker then h.(state := Idle, worker := AtLoop, events := 0) else h
    case Acquire(duration, now) => Acquired(h, duration, now)
    case Exit =>
      if h.state == Uninitialized then h else h.(events := h.events + 1, state := Uninitialized)
    case WorkerTakes =>
      if h.worker != AtLoop || h.state == Idle then h
      else if h.state == Uninitialized then h.(worker := Ended)
      else Marked(h.(state := Waiting, worker := Polling), WaitBegins(h.events))
    case PollReturns =>
      if h.worker == Polling then h.(worker := AtRelease) else h
    case WorkerReleases =>
      if h.worker == AtRelease then Released(h).(worker := AtLoop) else h
  }

  function Run(h: Handler, steps: seq<Step>): Handler {
    if steps == [] then h else Next(Run(h, steps[..|steps| - 1]), steps[|steps| - 1])
  }

  // ---------- the law of the log ----------

  /** Whether the hint is on after these marks. */
  function On(log: seq<Mark>): bool {
    if log == [] then false else
    match log[|log| - 1]
    case HintOn => true
    case HintOff => false
    case _ => On(log[..|log| - 1])
  }

  /** A wait has begun since the last accepted request. */
  function Waited(log: seq<Mark>): bool {
    if log == [] then false else
    match log[|log| - 1]
    case WaitBegins(_) => true
    case Accepted(_, _) => false
    case _ => Waited(log[..|log| - 1])
  }

  /** On and off alternate, every wait begins with the eventfd at zero, and the hint is only ended after a wait
      begun after the last accepted request. */
  predicate Lawful(log: seq<Mark>) {
    log == [] ||
      var init := log[..|log| - 1];
      && Lawful(init)
      && match log[|log| - 1]
         case HintOn => !On(init)
         case HintOff => On(init) && Waited(init)
         case WaitBegins(events) => events == 0
         case Accepted(_, _) => true
  }

  /** State, worker, eventfd and hint between Init and Exit. */
  ghost predicate Live(h: Handler) {
    && h.state != Uninitialized
    && (On(h.log) <==> h.state == Interaction || h.state == Waiting)
    && match h.worker
       case AtLoop => h.state != Waiting && h.events == 0
       case Polling => Busy(h)
       case AtRelease => Busy(h)
       case _ => false
  }

  /** The worker is in a wait: either nobody has signalled it, or exactly one signal awaits its Release. */
  ghost predicate Busy(h: Handler) {
    (h.state == Waiting && h.events == 0 && Waited(h.log)) || (h.state == Interaction && h.events == 1)
  }

  ghost predicate Safe(h: Handler) {
    Lawful(h.log) && (h.worker == NoWorker ==> h.state == Uninitialized && !On(h.log))
    && (h.state != Uninitialized ==> Live(h))
  }

  lemma MarkFacts(log: seq<Mark>, m: Mark)
    ensures var r := log + [m];
      && On(r) == (if m == HintOn then true else if m == HintOff then false else On(log))
      && Waited(r) == (if m.WaitBegins? then true else if m.Accepted? then false else Waited(log))
      && (Lawful(r) <==> Lawful(log) && match m
            case HintOn => !On(log)
            case HintOff => On(log) && Waited(log)
            case WaitBegins(events) => events == 0
            case Accepted(_, _) => true)
  {
    assert (log + [m])[..|log + [m]| - 1] == log;
  }

  lemma NextSafe(h: Handler, step: Step)
    requires Safe(h)
    ensures Safe(Next(h, step))
  {
    hide On, Waited, Lawful;
    match step
    case Acquire(duration, now) =>
      var f := Clamped(duration);
      MarkFacts(h.log, Accepted(now, f));
      MarkFacts(h.log + [Accepted(now, f)], HintOn);
    case WorkerTakes => MarkFacts(h.log, WaitBegins(h.events));
    case WorkerReleases => MarkFacts(h.log, HintOff);
    case _ =>
  }

  /** The protocol's safety under every interleaving of clients and worker. */
  lemma {:induction false} RunSafe(t: Timespec, steps: seq<Step>)
    ensures Safe(Run(Fresh(t), steps))
    decreases |steps|
  {
    if steps != [] {
      RunSafe(t, steps[..|steps| - 1]);
      NextSafe(Run(Fresh(t), steps[..|steps| - 1]), steps[|steps| - 1]);
    }
  }

  /** What a lawful log means: before every end of the hint there is a wait, begun with a clear eventfd, after
      which no request was accepted. */
  lemma LawfulMeans(log: seq<Mark>, i: nat)
    requires Lawful(log) && i < |log| && log[i] == HintOff
    ensures exists j :: 0 <= j < i && log[j] == WaitBegins(0) && forall k :: j < k < i ==> !log[k].Accepted?
  {
    hide *;
    var j := WaitBefore(log, i);
  }

  lemma {:induction false} WaitBefore(log: seq<Mark>, i: nat) returns (j: nat)
    requires Lawful(log) && i < |log| && log[i] == HintOff
    ensures j < i && log[j] == WaitBegins(0) && forall k :: j < k < i ==> !log[k].Accepted?
    decreases |log|
  {
    LawfulParts(log);
    hide Lawful, On, Waited;
    if i == |log| - 1 {
      j := LastWait(log[..|log| - 1]);
    } else {
      j := WaitBefore(log[..|log| - 1], i);
    }
  }

  lemma LawfulParts(log: seq<Mark>)
    requires Lawful(log) && log != []
    ensures Lawful(log[..|log| - 1]) && (log[|log| - 1] == HintOff ==> Waited(log[..|log| - 1]))
  {
    hide On, Waited;
  }

  lemma {:induction false} LastWait(log: seq<Mark>) returns (j: nat)
    requires Lawful(log) && Waited(log)
    ensures j < |log| && log[j] == WaitBegins(0) && forall k :: j < k < |log| ==> !log[k].Accepted?
    decreases |log|
  {
    if log[|log| - 1].WaitBegins? {
      j := |log| - 1;
    } else {
      j := LastWait(log[..|log| - 1]);
    }
  }

  /** Left alone, the worker ends the hint, wherever it and a pending signal are: at most one wait is aborted. */
  lemma HintEnds(h: Handler)
    requires Safe(h) && h.state != Uninitialized
    ensures var h1 := Next(Next(h, PollReturns), WorkerReleases);
      var h' := Next(Next(Next(h1, WorkerTakes), PollReturns), WorkerReleases);
      h'.state == Idle && h'.worker == AtLoop && h'.events == 0 && !On(h'.log)
  {
    hide On, Lawful, Waited, Safe;
    var h1 := Next(h, PollReturns);
    var h2 := Next(h1, WorkerReleases);
    var h3 := Next(h2, WorkerTakes);
    var h4 := Next(h3, PollReturns);
    var h5 := Next(h4, WorkerReleases);
    NextSafe(h, PollReturns);
    NextSafe(h1, WorkerReleases);
    NextSafe(h2, WorkerTakes);
    NextSafe(h3, PollReturns);
    NextSafe(h4, WorkerReleases);
    SafeIsLive(h);
    SafeIsLive(h2);
    SafeIsLive(h5);
  }

  lemma SafeIsLive(h: Handler)
    requires Safe(h)
    ensures h.state != Uninitialized ==> Live(h)
  {
  }

  // ---------- what a request does ----------

  predicate Held(h: Handler) {
    h.state == Interaction || h.state == Waiting
  }

  /** The clamped duration: the least one at and below it, the greatest one at and above it. */
  lemma ClampedEnds(duration: int)
    ensures duration <= 750 <==> Clamped(duration) == 1400
    ensures duration >= 5000 <==> Clamped(duration) == 5650
    ensures 750 < duration < 5000 ==> Clamped(duration) == duration + 650
  {
  }

  /** After any request the hint is held, and on; only a request that the held hint outlasts leaves no trace, and
      each other one is accepted, with a signal when the worker waits, and turns the hint on when it was idle. */
  lemma RequestHolds(h: Handler, duration: int, now: Timespec)
    requires Safe(h) && h.state != Uninitialized
    ensures var h', f := Next(h, Acquire(duration, now)), Clamped(duration);
      && On(h'.log) && Held(h') && h'.worker == h.worker && h'.clock == now
      && if h.state != Idle && f <= h.durationMs && DiffMs(h.last, now) <= h.durationMs - f
         then h'.state == h.state && h'.log == h.log && h'.events == h.events
              && h'.last == h.last && h'.durationMs == h.durationMs
         else h'.state == Interaction && h'.last == now && h'.durationMs == f
              && h'.events == (if h.state == Waiting then h.events + 1 else h.events)
              && h'.log == h.log + [Accepted(now, f)] + (if h.state == Idle then [HintOn] else [])
  {
    NextSafe(h, Acquire(duration, now));
    hide On, Lawful, Waited, Clamped, DiffMs;
  }

  /** Before Init and after Exit a request does nothing. */
  lemma RequestIgnored(h: Handler, duration: int, now: Timespec)
    ensures h.state == Uninitialized ==> Next(h, Acquire(duration, now)) == h
  {
  }

  /** A first request is accepted and turns the hint on; the worker waits for it, and ends it. */
  lemma FirstRound(t: Timespec, duration: int, now: Timespec)
    ensures var h := Run(Fresh(t), [Init, Acquire(duration, now)]);
      && h.state == Interaction && On(h.log) && h.worker == AtLoop && h.events == 0
      && h.log == [Accepted(now, Clamped(duration)), HintOn]
    ensures var h := Run(Fresh(t), [Init, Acquire(duration, now), WorkerTakes, PollReturns, WorkerReleases]);
      && h.state == Idle && !On(h.log) && h.worker == AtLoop && h.events == 0
      && h.log == [Accepted(now, Clamped(duration)), HintOn, WaitBegins(0), HintOff]
  {
    FiveSteps(t, duration, now);
    hide *;
    RunFive(Fresh(t), Init, Acquire(duration, now), WorkerTakes, PollReturns, WorkerReleases);
  }

  lemma FiveSteps(t: Timespec, duration: int, now: Timespec)
    ensures var h := Next(Next(Fresh(t), Init), Acquire(duration, now));
      var h' := Next(Next(Next(h, WorkerTakes), PollReturns), WorkerReleases);
      && h.state == Interaction && On(h.log) && h.worker == AtLoop && h.events == 0
      && h.log == [Accepted(now, Clamped(duration)), HintOn]
      && h'.state == Idle && !On(h'.log) && h'.worker == AtLoop && h'.events == 0
      && h'.log == [Accepted(now, Clamped(duration)), HintOn, WaitBegins(0), HintOff]
  {
    hide Clamped;
    var h := Next(Next(Fresh(t), Init), Acquire(duration, now));
    assert h.log == [Accepted(now, Clamped(duration)), HintOn];
    var h' := Next(Next(Next(h, WorkerTakes), PollReturns), WorkerReleases);
    assert h'.log == [Accepted(now, Clamped(duration)), HintOn, WaitBegins(0), HintOff];
  }

  lemma RunFive(h: Handler, a: Step, b: Step, c: Step, d: Step, e: Step)
    ensures Run(h, [a, b]) == Next(Next(h, a), b)
    ensures Run(h, [a, b, c, d, e]) == Next(Next(Next(Next(Next(h, a), b), c), d), e)
  {
    RunNothing(h);
    hide *;
    assert [] + [a] == [a] && [a] + [b] == [a, b] && [a, b] + [c] == [a, b, c];
    assert [a, b, c] + [d] == [a, b, c, d] && [a, b, c, d] + [e] == [a, b, c, d, e];
    RunLast(h, [], a);
    RunLast(h, [a], b);
    RunLast(h, [a, b], c);
    RunLast(h, [a, b, c], d);
    RunLast(h, [a, b, c, d], e);
  }

  lemma RunLast(h: Handler, steps: seq<Step>, a: Step)
    ensures Run(h, steps + [a]) == Next(Run(h, steps), a)
  {
    hide Next;
    assert (steps + [a])[..|steps + [a]| - 1] == steps;
  }

  lemma RunNothing(h: Handler)
    ensures Run(h, []) == h
  {
  }

  // ---------- after Exit ----------

  /** Exit leaves a signal that ends the wait the worker may be in, and no mark; a second one does nothing. */
  lemma ExitSignals(h: Handler)
    requires Safe(h) && h.state != Uninitialized
    ensures var h' := Next(h, Exit);
      && h'.events > 0 && h'.events == h.events + 1 && h'.state == Uninitialized && h'.worker == h.worker
      && h'.log == h.log && Next(h', Exit) == h'
  {
    hide On, Lawful, Waited;
  }

  /** Exit does not end a held hint, and nothing after it does: the hint stays as Exit found it. */
  lemma {:induction false} ExitKeepsHint(h: Handler, steps: seq<Step>)
    requires Safe(h) && h.state != Uninitialized
    ensures var h' := Run(Next(h, Exit), steps);
      h'.state == Uninitialized && h'.worker != NoWorker
      && (On(h'.log) <==> h.state == Interaction || h.state == Waiting)
    decreases |steps|
  {
    if steps != [] {
      ExitKeepsHint(h, steps[..|steps| - 1]);
    }
  }

  /** After Exit the worker is at most three steps of its own away from the end that Exit joins on. */
  lemma ExitJoins(h: Handler)
    requires Safe(h) && h.state != Uninitialized
    ensures Next(Next(Next(Next(h, Exit), PollReturns), WorkerReleases), WorkerTakes).worker == Ended
  {
    hide On, Lawful, Waited;
  }

  // ---------- deadlines ----------

  /** When the hint was asked to last until, in nanoseconds. */
  function Deadline(h: Handler): int {
    Nanos(h.last) + h.durationMs * 1_000_000
  }

  /** Times are normalized and do not run backwards, and adding the extra time does not overflow. */
  predicate Sane(h: Handler, step: Step) {
    step.Acquire? ==>
      && Normal(step.now) && Nanos(h.clock) <= Nanos(step.now)
      && -INT_MAX - 1 <= step.duration <= INT_MAX - EXTRA_MS
  }

  ghost predicate Timed(h: Handler) {
    Normal(h.last) && Normal(h.clock) && Nanos(h.last) <= Nanos(h.clock)
  }

  /** The deadline a request asks for. */
  function Wanted(step: Step): int
    requires step.Acquire?
  {
    Nanos(step.now) + Clamped(step.duration) * 1_000_000
  }

  /** While the hint is held, no step brings the deadline forward; a request moves it to what it asks for or
      finds it there already, up to the rounding of the difference. */
  lemma DeadlineStep(h: Handler, step: Step)
    requires Timed(h) && Sane(h, step)
    ensures Timed(Next(h, step))
    ensures Held(h) ==> Deadline(Next(h, step)) >= Deadline(h)
    ensures step.Acquire? && h.state != Uninitialized ==> Deadline(Next(h, step)) > Wanted(step) - 1_000_000
    ensures (step.Acquire? && h.state != Uninitialized && Deadline(Next(h, step)) != Deadline(h))
            ==> Deadline(Next(h, step)) == Wanted(step)
  {
    if step.Acquire? {
      DiffIsClose(h.last, step.now);
    }
  }

  ghost predicate SaneRun(h: Handler, steps: seq<Step>)
    decreases |steps|
  {
    steps == [] || (SaneRun(h, steps[..|steps| - 1]) && Sane(Run(h, steps[..|steps| - 1]), steps[|steps| - 1]))
  }

  ghost predicate HeldThroughout(h: Handler, steps: seq<Step>)
    decreases |steps|
  {
    Held(Run(h, steps)) && (steps == [] || HeldThroughout(h, steps[..|steps| - 1]))
  }

  /** Over any stretch of steps with the hint held, the deadline does not move back and ends up, to within a
      millisecond, no earlier than what any request on the way asked for. */
  lemma {:induction false} DeadlinesNeverShorten(h: Handler, steps: seq<Step>)
    requires Timed(h) && SaneRun(h, steps) && HeldThroughout(h, steps)
    ensures Timed(Run(h, steps)) && Deadline(Run(h, steps)) >= Deadline(h)
    ensures forall i :: 0 <= i < |steps| && steps[i].Acquire? ==>
      Deadline(Run(h, steps)) > Wanted(steps[i]) - 1_000_000
    decreases |steps|
  {
    if steps != [] {
      var init, last := steps[..|steps| - 1], steps[|steps| - 1];
      DeadlinesNeverShorten(h, init);
      DeadlineStep(Run(h, init), last);
      assert HeldThroughout(h, init) ==> Held(Run(h, init));
      forall i | 0 <= i < |steps| && steps[i].Acquire?
        ensures Deadline(Run(h, steps)) > Wanted(steps[i]) - 1_000_000
      {
        assert i < |init| ==> steps[i] == init[i];
      }
    }
  }
}
