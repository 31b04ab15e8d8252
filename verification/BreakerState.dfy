/** The circuit breaker's mutable fields and the pure effect of each operation
    on them. */
module BreakerStates {
  import opened Prelude

  datatype State = Closed | Open | HalfOpen

  datatype Settings = Settings(failureThreshold: int, recoveryTimeout: real, window: real)

  /** The values of the mutable fields at one instant. */
  datatype Snapshot = Snapshot(state: State, failures: seq<real>, openedAt: Option<real>)

  const FRESH := Snapshot(Closed, [], None)

  /** The failures that are at most `window` old at time `now`, in order. */
  function Recent(failures: seq<real>, now: real, window: real): seq<real> {
    if failures == [] then []
    else
      var last := failures[|failures| - 1];
      Recent(failures[..|failures| - 1], now, window) + (if now - last <= window then [last] else [])
  }

  predicate RecoveryElapsed(cfg: Settings, b: Snapshot, now: real)
    requires b.openedAt.Some?
  {
    now - b.openedAt.value >= cfg.recoveryTimeout
  }

  /** What `is_open` answers at time `now`. */
  predicate Blocks(cfg: Settings, b: Snapshot, now: real) {
    b.state == Open && b.openedAt.Some? && !RecoveryElapsed(cfg, b, now)
  }

  /** What `get_retry_after` answers at time `now`. */
  function RetryAfter(cfg: Settings, b: Snapshot, now: real): real {
    if b.openedAt.None? then 0.0
    else Max(0.0, cfg.recoveryTimeout - (now - b.openedAt.value))
  }

  function AfterProbe(cfg: Settings, b: Snapshot, now: real): Snapshot {
    if b.state == Open && b.openedAt.Some? && RecoveryElapsed(cfg, b, now) then b.(state := HalfOpen) else b
  }

  function AfterFailure(cfg: Settings, b: Snapshot, now: real): Snapshot {
    var kept := Recent(b.failures + [now], now, cfg.window);
    if |kept| >= cfg.failureThreshold then Snapshot(Open, kept, Some(now)) else b.(failures := kept)
  }

  function AfterSuccess(b: Snapshot): Snapshot {
    if b.state == HalfOpen then FRESH else b
  }
}
