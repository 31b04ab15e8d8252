/** The circuit breaker as a class whose methods update its fields in place. */
module CircuitBreakers {
  import opened Prelude
  import opened BreakerStates
  import opened BreakerRuns

  /** Each method is one critical section of the breaker's lock; `now` is the
      monotonic clock reading taken inside it. */
  class CircuitBreaker {
    const settings: Settings
    var state: State
    var failures: seq<real>
    var openedAt: Option<real>
    /** Every use since the breaker was made. */
    ghost var log: seq<Event>

    constructor (settings: Settings)
      ensures this.settings == settings && View() == FRESH && log == [] && Valid()
    {
      this.settings := settings;
      state, failures, openedAt := Closed, [], None;
      log := [];
    }

    function View(): Snapshot
      reads this
    {
      Snapshot(state, failures, openedAt)
    }

    /** The fields are what the uses so far make of a new breaker. */
    ghost predicate Valid()
      reads this
    {
      forall uses | uses == log :: View() == Run(settings, uses)
    }

    ghost method Note(e: Event)
      requires View() == Step(settings, Run(settings, log), e)
      modifies this`log
      ensures Valid() && log == old(log) + [e]
    {
      assert Front(log + [e]) == log;
      log := log + [e];
    }

    method IsOpen(now: real) returns (open: bool)
      requires Valid()
      modifies this`state, this`log
      ensures Valid() && log == old(log) + [Probe(now)]
      ensures open == Blocks(settings, old(View()), now)
      ensures View() == AfterProbe(settings, old(View()), now)
    {
      open := false;
      if state == Open {
        if openedAt.None? {
          open := false;
        } else if now - openedAt.value >= settings.recoveryTimeout {
          state := HalfOpen;
          open := false;
        } else {
          open := true;
        }
      }
      Note(Probe(now));
    }

    function GetRetryAfter(now: real): real
      reads this
    {
      RetryAfter(settings, View(), now)
    }

    method RecordFailure(now: real)
      requires Valid()
      modifies this
      ensures Valid() && log == old(log) + [Failure(now)]
      ensures View() == AfterFailure(settings, old(View()), now)
    {
      failures := failures + [now];
      failures := Recent(failures, now, settings.window);
      if |failures| >= settings.failureThreshold {
        state := Open;
        openedAt := Some(now);
      }
      Note(Failure(now));
    }

    /** `now` is not read; it only dates the entry of the log. */
    method RecordSuccess(ghost now: real)
      requires Valid()
      modifies this
      ensures Valid() && log == old(log) + [Success(now)]
      ensures View() == AfterSuccess(old(View()))
    {
      if state == HalfOpen {
        state := Closed;
        failures := [];
        openedAt := None;
      }
      Note(Success(now));
    }
  }
}
