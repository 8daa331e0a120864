/** The interaction handler as an object: one method for each critical section, each tied to a step of HintProtocol. */
module InteractionHandler {
  import opened HintProtocol

  class InteractionHandler {
    var mState: State
    var mDurationMs: int
    var mLastTimespec: Timespec
    /** The counter behind mEventFd. */
    var mEvents: nat
    /** Where the worker thread is, the latest time seen, and what happened: for the specification only. */
    ghost var worker: Worker
    ghost var clock: Timespec
    ghost var log: seq<Mark>

    ghost function View(): Handler
      reads this
    {
      Handler(mState, worker, mEvents, mDurationMs, mLastTimespec, clock, log)
    }

    constructor (t: Timespec)
      ensures View() == Fresh(t)
    {
      mState, mDurationMs, mLastTimespec, mEvents := Uninitialized, 0, t, 0;
      worker, clock, log := NoWorker, t, [];
    }

    /** Opens the descriptors, unless one of them fails, and starts the worker. */
    method Init(idleFdOpens: bool, eventFdOpens: bool) returns (ok: bool)
      requires mState == Uninitialized ==> worker == NoWorker
      modifies this
      ensures ok <==> old(mState) != Uninitialized || (idleFdOpens && eventFdOpens)
      ensures View() == if ok then Next(old(View()), Step.Init) else old(View())
    {
      if mState != Uninitialized || !idleFdOpens || !eventFdOpens {
        return mState != Uninitialized;
      }
      mEvents := 0;
      mState := Idle;
      worker := AtLoop;
      return true;
    }

    method Exit()
      modifies this
      ensures View() == Next(old(View()), Step.Exit)
    {
      if mState == Uninitialized {
        return;
      }
      AbortWaitLocked();
      mState := Uninitialized;
    }

    method PerfLock()
      modifies `log
      ensures log == old(log) + [HintOn]
    {
      log := log + [HintOn];
    }

    method PerfRel()
      modifies `log
      ensures log == old(log) + [HintOff]
    {
      log := log + [HintOff];
    }

    method AbortWaitLocked()
      modifies `mEvents
      ensures mEvents == old(mEvents) + 1
    {
      mEvents := mEvents + 1;
    }

    method CalcTimespecDiffMs(start: Timespec, end: Timespec) returns (diff: int)
      requires Normal(start) && Normal(end)
      ensures diff == DiffMs(start, end)
      ensures -1_000_000 < diff * 1_000_000 - (Nanos(end) - Nanos(start)) < 1_000_000
    {
      diff := 0;
      diff := diff + (end.sec - start.sec) * 1000;
      diff := diff + Truncated(end.nsec - start.nsec, 1_000_000);
      DiffIsClose(start, end);
    }

    method Acquire(duration: int, curTimespec: Timespec)
      requires Timed(View()) && Sane(View(), Step.Acquire(duration, curTimespec))
      modifies this
      ensures View() == Next(old(View()), Step.Acquire(duration, curTimespec))
      ensures Timed(View())
    {
      DeadlineStep(View(), Step.Acquire(duration, curTimespec));
      if mState == Uninitialized {
        return;
      }
      var inputDuration := duration + EXTRA_MS;
      var finalDuration;
      if inputDuration > MAX_DURATION_MS {
        finalDuration := MAX_DURATION_MS;
      } else if inputDuration > MIN_DURATION_MS {
        finalDuration := inputDuration;
      } else {
        finalDuration := MIN_DURATION_MS;
      }
      clock := curTimespec;
      if mState != Idle && finalDuration <= mDurationMs {
        var elapsedTime := CalcTimespecDiffMs(mLastTimespec, curTimespec);
        if elapsedTime <= mDurationMs - finalDuration {
          return;
        }
      }
      mLastTimespec := curTimespec;
      mDurationMs := finalDuration;
      log := log + [Accepted(curTimespec, finalDuration)];
      if mState == Waiting {
        AbortWaitLocked();
      } else if mState == Idle {
        PerfLock();
      }
      mState := Interaction;
    }

    /** Called by the worker when poll has returned. */
    method Release()
      requires worker == AtRelease
      modifies this
      ensures View() == Next(old(View()), WorkerReleases)
    {
      if mState == Waiting {
        PerfRel();
        mState := Idle;
      } else {
        mEvents := 0;
      }
      worker := AtLoop;
    }

    /** The critical section at the head of the worker's loop, entered when the condition holds; false ends the
        thread. */
    method RoutineTakes() returns (goesOn: bool)
      requires worker == AtLoop && mState != Idle
      modifies this
      ensures View() == Next(old(View()), WorkerTakes)
      ensures goesOn <==> old(mState) != Uninitialized
    {
      if mState == Uninitialized {
        worker := Ended;
        return false;
      }
      log := log + [WaitBegins(mEvents)];
      mState := Waiting;
      worker := Polling;
      return true;
    }

    /** poll may return at any time: idle, timeout, error, or an abort. */
    method WaitForIdle()
      requires worker == Polling
      modifies `worker
      ensures View() == Next(old(View()), PollReturns)
    {
      worker := AtRelease;
    }
  }
}
