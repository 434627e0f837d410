/** The four shared cache keys of the circuit breaker, each with its own expiry time. */
module BreakerCache {

  /** Seconds, as `time.time()` gives them. */
  type Time = real

  datatype State = Closed | Open | HalfOpen

  datatype Slot<+T> = Empty | Held(value: T, expires: Time) {
    predicate Live(now: Time) { Held? && now < expires }
  }

  /** `cache.get(key, default)`: an expired key reads as a missing one. */
  function Get<T>(s: Slot<T>, now: Time, default: T): T {
    if s.Live(now) then s.value else default
  }

  datatype Cache = Cache(state: Slot<State>, failures: Slot<int>, openedAt: Slot<Time>, trials: Slot<int>)

  datatype Config = Config(threshold: int, recovery: Time, maxTrials: int, ttl: Time)

  const EMPTY: Cache := Cache(Empty, Empty, Empty, Empty)
}
