/** The elapsed-realtime estimator: boot time of a fix from its data time, through the clock difference seen at
    a reference fix. All times are in nanoseconds. */
module Estimator {
  const STABILIZATION_FIXES := 5

  datatype State = State(
    clockDiff: int, prevUtc: int, prevBoot: int, prevData: int, threshold: int, initialTravelTime: int)

  /** One call: what the clocks say, unless reading them fails, and the arguments. */
  datatype Fix = Fix(clockOk: bool, utc: int, boot: int, data: int, trusted: bool, tbf: int)

  function Fresh(initialTravelTime: int): State {
    State(0, 0, 0, 0, STABILIZATION_FIXES, initialTravelTime)
  }

  predicate Counts(f: Fix) {
    f.clockOk && f.trusted
  }

  /** The time between fixes is announced and not what the data times say. */
  predicate Mismatch(e: State, f: Fix) {
    f.tbf > 0 && f.tbf != f.data - e.prevData
  }

  function Threshold(e: State, f: Fix): int {
    if Mismatch(e, f) then STABILIZATION_FIXES else e.threshold
  }

  function ClockDiff(e: State, f: Fix): int {
    var threshold := Threshold(e, f);
    if threshold == 0 then f.utc - f.data - e.initialTravelTime
    else if threshold < 0 then e.clockDiff + (f.utc - f.boot) - (e.prevUtc - e.prevBoot)
    else e.clockDiff
  }

  function After(e: State, f: Fix): State {
    if Counts(f)
    then State(ClockDiff(e, f), f.utc, f.boot, f.data, Threshold(e, f) - 1, e.initialTravelTime)
    else e
  }

  function Estimate(e: State, f: Fix): int {
    if !f.clockOk then -1
    else if f.trusted && Threshold(e, f) < 0 then f.boot - (f.utc - f.data - ClockDiff(e, f))
    else f.boot - e.initialTravelTime
  }

  function Run(e: State, fixes: seq<Fix>): State {
    if fixes == [] then e else After(Run(e, fixes[..|fixes| - 1]), fixes[|fixes| - 1])
  }

  /** No counted fix of the run is out of rhythm. */
  predicate InRhythm(e: State, fixes: seq<Fix>)
    decreases |fixes|
  {
    fixes == [] ||
      var init, last := fixes[..|fixes| - 1], fixes[|fixes| - 1];
      InRhythm(e, init) && (Counts(last) ==> !Mismatch(Run(e, init), last))
  }

  function Counted(fixes: seq<Fix>): nat {
    if fixes == [] then 0
    else Counted(fixes[..|fixes| - 1]) + if Counts(fixes[|fixes| - 1]) then 1 else 0
  }

  /** A fix that sets the clock difference. */
  predicate IsReference(e: State, f: Fix) {
    Counts(f) && Threshold(e, f) == 0
  }

  /** What later fixes keep: the difference between clock difference and wall-clock offset that the reference left. */
  lemma {:induction false} AfterReference(e: State, r: Fix, fixes: seq<Fix>)
    requires IsReference(e, r) && InRhythm(After(e, r), fixes)
    ensures var e' := Run(After(e, r), fixes);
      && e'.threshold < 0 && e'.initialTravelTime == e.initialTravelTime
      && e'.clockDiff - (e'.prevUtc - e'.prevBoot) == r.boot - r.data - e.initialTravelTime
    decreases |fixes|
  {
    if fixes != [] {
      AfterReference(e, r, fixes[..|fixes| - 1]);
    }
  }

  /** Whatever the wall clock did in between, and whatever untrusted fixes or failed readings came, a trusted fix
      in rhythm after the reference is placed by the data clock alone. */
  lemma WallClockImmunity(e: State, r: Fix, fixes: seq<Fix>, f: Fix)
    requires IsReference(e, r) && InRhythm(After(e, r), fixes + [f]) && Counts(f)
    ensures Estimate(Run(After(e, r), fixes), f) == r.boot + (f.data - r.data) - e.initialTravelTime
  {
    assert (fixes + [f])[..|fixes + [f]| - 1] == fixes;
    AfterReference(e, r, fixes);
  }

  /** In rhythm the threshold only counts fixes; out of rhythm it starts again at five before it counts. */
  lemma {:induction false} ThresholdCounts(e: State, fixes: seq<Fix>)
    requires InRhythm(e, fixes)
    ensures Run(e, fixes).threshold == e.threshold - Counted(fixes)
    decreases |fixes|
  {
    if fixes != [] {
      ThresholdCounts(e, fixes[..|fixes| - 1]);
    }
  }

  lemma {:induction false} UncountedChangeNothing(e: State, fixes: seq<Fix>)
    requires Counted(fixes) == 0
    ensures Run(e, fixes) == e
    decreases |fixes|
  {
    if fixes != [] {
      UncountedChangeNothing(e, fixes[..|fixes| - 1]);
    }
  }

  /** After a reset and any fixes that do not count, the first fix that counts starts the rhythm, whatever time
      between fixes it announces; it and the four that keep the rhythm after it get the default travel time, and the
      next one is the reference. */
  lemma SixthIsReference(initialTravelTime: int, lead: seq<Fix>, first: Fix, fixes: seq<Fix>, f: Fix)
    requires Counted(lead) == 0 && Counts(first) && Counts(f)
    requires InRhythm(After(Fresh(initialTravelTime), first), fixes + [f])
    ensures var e0 := Run(Fresh(initialTravelTime), lead);
      var e := Run(After(e0, first), fixes);
      && Estimate(e0, first) == first.boot - initialTravelTime
      && (IsReference(e, f) <==> Counted(fixes) == STABILIZATION_FIXES - 1)
      && (Counted(fixes) < STABILIZATION_FIXES ==> Estimate(e, f) == f.boot - initialTravelTime)
  {
    UncountedChangeNothing(Fresh(initialTravelTime), lead);
    var e1 := After(Fresh(initialTravelTime), first);
    assert (fixes + [f])[..|fixes + [f]| - 1] == fixes;
    ThresholdCounts(e1, fixes);
    InitialKept(e1, fixes);
  }

  lemma {:induction false} InitialKept(e: State, fixes: seq<Fix>)
    ensures Run(e, fixes).initialTravelTime == e.initialTravelTime
    decreases |fixes|
  {
    if fixes != [] {
      InitialKept(e, fixes[..|fixes| - 1]);
    }
  }

  /** In every state that a run reaches: an untrusted fix gets the default travel time and changes nothing, failing
      clocks give -1 and change nothing, and the reference gets the default travel time. */
  lemma OtherFixes(initialTravelTime: int, fixes: seq<Fix>, f: Fix)
    ensures var e := Run(Fresh(initialTravelTime), fixes);
      && (f.clockOk && !f.trusted ==> Estimate(e, f) == f.boot - initialTravelTime && After(e, f) == e)
      && (!f.clockOk ==> Estimate(e, f) == -1 && After(e, f) == e)
      && (IsReference(e, f) ==> Estimate(e, f) == f.boot - initialTravelTime)
  {
    InitialKept(Fresh(initialTravelTime), fixes);
  }

  /** What a counted fix does to the count: it starts again at five exactly when the time between fixes is announced
      and is not the time since the last counted fix, or since zero after a reset; then it goes down by one. Until it
      has reached zero the clock difference stays zero. */
  lemma RhythmKept(initialTravelTime: int, fixes: seq<Fix>, p: Fix, rest: seq<Fix>, f: Fix)
    requires Counts(p) && Counted(rest) == 0 && Counts(f)
    ensures var e0 := Fresh(initialTravelTime);
      After(e0, f).threshold == 4 && After(e0, f).clockDiff == 0 && After(e0, f).prevData == f.data
    ensures var e := Run(After(Run(Fresh(initialTravelTime), fixes), p), rest);
      var count := if f.tbf > 0 && f.data - p.data != f.tbf then 5 else e.threshold;
      && After(e, f).threshold == count - 1 && After(e, f).prevData == f.data
      && (count > 0 ==> After(e, f).clockDiff == e.clockDiff)
  {
    UncountedChangeNothing(After(Run(Fresh(initialTravelTime), fixes), p), rest);
  }

  /** A counted fix out of rhythm discards any reference: the five after it that keep the rhythm wait again. */
  lemma MismatchStartsOver(e: State, f: Fix, fixes: seq<Fix>)
    requires Counts(f) && Mismatch(e, f) && InRhythm(After(e, f), fixes)
    ensures Run(After(e, f), fixes).threshold == STABILIZATION_FIXES - 1 - Counted(fixes)
    ensures Estimate(e, f) == f.boot - e.initialTravelTime
  {
    ThresholdCounts(After(e, f), fixes);
  }

  class ElapsedRealtimeEstimator {
    var mCurrentClockDiff: int
    var mPrevUtcTimeNanos: int
    var mPrevBootTimeNanos: int
    var mFixTimeStablizationThreshold: int
    const mInitialTravelTime: int
    var mPrevDataTimeNanos: int

    function View(): State
      reads this
    {
      State(mCurrentClockDiff, mPrevUtcTimeNanos, mPrevBootTimeNanos, mPrevDataTimeNanos,
            mFixTimeStablizationThreshold, mInitialTravelTime)
    }

    constructor (travelTimeNanosEstimate: int)
      ensures View() == Fresh(travelTimeNanosEstimate)
    {
      mInitialTravelTime := travelTimeNanosEstimate;
      new;
      Reset();
    }

    method Reset()
      modifies this
      ensures View() == Fresh(mInitialTravelTime)
      ensures mCurrentClockDiff == mPrevUtcTimeNanos == mPrevBootTimeNanos == mPrevDataTimeNanos == 0
      ensures mFixTimeStablizationThreshold == 5
    {
      mCurrentClockDiff := 0;
      mPrevDataTimeNanos := 0;
      mPrevUtcTimeNanos := 0;
      mPrevBootTimeNanos := 0;
      mFixTimeStablizationThreshold := STABILIZATION_FIXES;
    }

    method GetElapsedRealtimeEstimateNanos(f: Fix) returns (nanos: int)
      modifies this
      ensures nanos == Estimate(old(View()), f) && View() == After(old(View()), f)
    {
      var currentTravelTimeNanos := mInitialTravelTime;
      if !f.clockOk {
        return -1;
      }
      if f.trusted {
        if f.tbf > 0 && f.tbf != f.data - mPrevDataTimeNanos {
          mFixTimeStablizationThreshold := STABILIZATION_FIXES;
        }
        if mFixTimeStablizationThreshold == 0 {
          mCurrentClockDiff := f.utc - f.data - currentTravelTimeNanos;
        } else if mFixTimeStablizationThreshold < 0 {
          mCurrentClockDiff := mCurrentClockDiff + (f.utc - f.boot) - (mPrevUtcTimeNanos - mPrevBootTimeNanos);
          currentTravelTimeNanos := f.utc - f.data - mCurrentClockDiff;
        }
        mPrevUtcTimeNanos := f.utc;
        mPrevBootTimeNanos := f.boot;
        mPrevDataTimeNanos := f.data;
        mFixTimeStablizationThreshold := mFixTimeStablizationThreshold - 1;
      }
      return f.boot - currentTravelTimeNanos;
    }
  }
}
