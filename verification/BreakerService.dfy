/** The circuit breaker as it runs: a class whose methods read and write the four keys one after the other,
    each proved to leave the keys as `Breaker` says. */
module BreakerService {
  import opened BreakerCache
  import B = Breaker

  class CircuitBreaker {
    const cfg: Config
    var state: Slot<State>
    var failures: Slot<int>
    var openedAt: Slot<Time>
    var trials: Slot<int>
    ghost var log: seq<B.Entry>

    function Keys(): Cache
      reads this
    {
      Cache(state, failures, openedAt, trials)
    }

    predicate Reads(s: State, now: Time)
      reads this
    {
      Get(state, now, Closed) == s
    }

    /** The keys with what happened so far, as `Breaker` watches them. */
    ghost function Watched(now: Time): B.World
      reads this
    {
      B.World(Keys(), now, log)
    }

    /** The log obeys the admission rules, and the keys are such that it will go on obeying them. */
    ghost predicate Valid(now: Time)
      reads this
    {
      0.0 <= cfg.recovery <= cfg.ttl && B.Inv(cfg, Watched(now))
    }

    /** Keys expire, but never too early. */
    lemma ValidLater(now: Time, later: Time)
      requires Valid(now) && now <= later
      ensures Valid(later)
    {
      B.StepKeeps(cfg, Watched(now), B.Wait(later - now));
    }

    constructor (threshold: int, recovery: Time, maxTrials: int, ttl: Time)
      ensures Keys() == EMPTY && cfg == Config(threshold, recovery, maxTrials, ttl) && log == []
      ensures 0.0 <= recovery <= ttl ==> forall now :: Valid(now)
    {
      cfg := Config(threshold, recovery, maxTrials, ttl);
      state, failures, openedAt, trials := Empty, Empty, Empty, Empty;
      log := [];
    }

    method SetState(s: State, now: Time)
      modifies this`state
      ensures state == Held(s, now + cfg.ttl)
    {
      state := Held(s, now + cfg.ttl);
    }

    method IncrementFailures(now: Time) returns (n: int)
      modifies this`failures
      ensures failures == B.Bumped(old(failures), now, cfg.ttl) && n == failures.value
    {
      if failures.Live(now) {
        failures := failures.(value := failures.value + 1);
      } else {
        failures := Held(1, now + cfg.ttl);
      }
      n := failures.value;
    }

    method IncrementTrials(now: Time)
      modifies this`trials
      ensures trials == B.Bumped(old(trials), now, cfg.ttl)
    {
      if trials.Live(now) {
        trials := trials.(value := trials.value + 1);
      } else {
        trials := Held(1, now + cfg.ttl);
      }
    }

    method OpenCircuit(now: Time)
      modifies this`state, this`openedAt
      ensures Keys() == B.Opened(cfg, old(Keys()), now)
    {
      SetState(Open, now);
      openedAt := Held(now, now + cfg.ttl);
    }

    method IsAvailable(now: Time) returns (available: bool)
      modifies this
      ensures (Keys(), available) == B.IsAvailable(cfg, old(Keys()), now)
      ensures Watched(now) == B.Step(cfg, old(Watched(now)), B.Ask) && (old(Valid(now)) ==> Valid(now))
      ensures old(Valid(now)) && available && B.LatestOpening(log).At? ==>
                now >= B.LatestOpening(log).at + cfg.recovery
      ensures |log| > |old(log)| && log[..|old(log)|] == old(log)
      ensures log[|log| - 1] == if available then B.Admitted(now, !old(Reads(Closed, now))) else B.Refused(now)
      ensures old(Reads(Closed, now)) ==> available && Keys() == old(Keys())
      ensures old(Reads(HalfOpen, now)) ==>
                && (available <==> old(Get(trials, now, 0)) < cfg.maxTrials)
                && (state, failures, openedAt) == old((state, failures, openedAt))
                && (cfg.ttl > 0.0 ==> Get(trials, now, 0) == old(Get(trials, now, 0)) + if available then 1 else 0)
      ensures old(Reads(Open, now)) ==>
                && (available <==> old(openedAt.Live(now)) && old(openedAt).value != 0.0
                                   && now >= old(openedAt).value + cfg.recovery)
                && (failures, openedAt) == old((failures, openedAt))
                && (available && cfg.ttl > 0.0 ==> Reads(HalfOpen, now) && Get(trials, now, 0) == 1)
                && (!available ==> Keys() == old(Keys()))
    {
      if Valid(now) {
        B.AskKeeps(cfg, Watched(now));
        B.AskIsTimely(cfg, Watched(now));
      }
      log := B.Step(cfg, Watched(now), B.Ask).log;
      var current := Get(state, now, Closed);
      if current == Closed { return true; }
      if current == Open {
        var stamp := Get(openedAt, now, 0.0);
        if stamp != 0.0 && now - stamp >= cfg.recovery {
          SetState(HalfOpen, now);
          trials := Held(0, now + cfg.ttl);
          IncrementTrials(now);
          return true;
        }
        return false;
      }
      var calls := Get(trials, now, 0);
      if calls < cfg.maxTrials {
        IncrementTrials(now);
        return true;
      }
      return false;
    }

    method RecordSuccess(now: Time)
      modifies this
      ensures Keys() == B.RecordSuccess(cfg, old(Keys()), now)
      ensures Watched(now) == B.Step(cfg, old(Watched(now)), B.Succeed) && (old(Valid(now)) ==> Valid(now))
      ensures state == if old(Reads(HalfOpen, now)) then Held(Closed, now + cfg.ttl) else old(state)
      ensures failures == Held(0, now + cfg.ttl) && (openedAt, trials) == old((openedAt, trials)) && log == old(log)
    {
      if Valid(now) {
        B.StepKeeps(cfg, Watched(now), B.Succeed);
      }
      var current := Get(state, now, Closed);
      if current == HalfOpen {
        SetState(Closed, now);
      }
      failures := Held(0, now + cfg.ttl);
    }

    method RecordFailure(now: Time)
      modifies this
      ensures Keys() == B.RecordFailure(cfg, old(Keys()), now)
      ensures Watched(now) == B.Step(cfg, old(Watched(now)), B.Fail) && (old(Valid(now)) ==> Valid(now))
      ensures var opens := old(Reads(HalfOpen, now)) || old(Get(failures, now, 0)) + 1 >= cfg.threshold;
              && state == (if opens then Held(Open, now + cfg.ttl) else old(state))
              && openedAt == (if opens then Held(now, now + cfg.ttl) else old(openedAt))
              && log == if opens then old(log) + [B.Opening(now)] else old(log)
      ensures trials == old(trials) && (old(Reads(HalfOpen, now)) ==> failures == old(failures))
      ensures !old(Reads(HalfOpen, now)) && cfg.ttl > 0.0 ==> Get(failures, now, 0) == old(Get(failures, now, 0)) + 1
    {
      if Valid(now) {
        B.FailKeeps(cfg, Watched(now));
      }
      log := B.Step(cfg, Watched(now), B.Fail).log;
      var current := Get(state, now, Closed);
      if current == HalfOpen {
        OpenCircuit(now);
        return;
      }
      var n := IncrementFailures(now);
      if n >= cfg.threshold {
        OpenCircuit(now);
      }
    }

    /** Any call of a run, or the passing of time, on the object: so every run of `Breaker.Run` is a sequence of these,
        and its theorems hold of the keys. */
    method Handle(a: B.Action, now: Time) returns (later: Time)
      requires Valid(now)
      modifies this
      ensures Valid(later) && Watched(later) == B.Step(cfg, old(Watched(now)), a)
    {
      later := now;
      match a
      case Ask => var available := IsAvailable(now);
      case Succeed => RecordSuccess(now);
      case Fail => RecordFailure(now);
      case Clear => Reset(now);
      case Wait(seconds) =>
        if seconds >= 0.0 {
          later := now + seconds;
          ValidLater(now, later);
        }
    }

    method Reset(now: Time)
      modifies this
      ensures Keys() == B.Reset(cfg, old(Keys()), now)
      ensures Watched(now) == B.Step(cfg, old(Watched(now)), B.Clear) && (old(Valid(now)) ==> Valid(now))
      ensures state == Held(Closed, now + cfg.ttl) && failures == trials == Held(0, now + cfg.ttl)
      ensures openedAt == old(openedAt) && log == old(log) + [B.Resetting(now)]
    {
      if Valid(now) {
        B.ClearKeeps(cfg, Watched(now));
      }
      log := B.Step(cfg, Watched(now), B.Clear).log;
      SetState(Closed, now);
      failures := Held(0, now + cfg.ttl);
      trials := Held(0, now + cfg.ttl);
    }
  }
}
