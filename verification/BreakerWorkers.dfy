/** The circuit breaker as many workers run it at once: every cache access is a step of its own, keys expire
    by themselves, and workers are anywhere inside the methods. */
module BreakerWorkers {
  import opened BreakerCache

  /** Where a worker is: the name says which cache access comes next. */
  datatype Place =
    | Idle
    | AvailReadState | AvailReadOpenedAt | AvailSetHalfOpen | AvailZeroTrials | AvailReadTrials | AvailCountTrial
        | AvailFirstTrial
    | SuccessReadState | SuccessSetClosed | SuccessZeroAfterClose | SuccessZero
    | FailureReadState | FailureReopen | FailureCount | FailureFirst | FailureWeigh(failures: int) | FailureOpen
        | StampOpenedAt
    | ResetSetClosed | ResetZeroFailures | ResetZeroTrials

  datatype Method = IsAvailable | RecordSuccess | RecordFailure | Reset

  datatype World = World(cache: Cache, places: map<nat, Place>, now: Time)

  datatype Action = Start(worker: nat, call: Method) | Move(worker: nat) | Wait(seconds: Time)

  function Entry(call: Method): Place {
    match call
    case IsAvailable => AvailReadState
    case RecordSuccess => SuccessReadState
    case RecordFailure => FailureReadState
    case Reset => ResetSetClosed
  }

  /** One cache access (or one comparison of a value read before), and where it leads. */
  function Access(cfg: Config, c: Cache, now: Time, p: Place): (Cache, Place) {
    var later := now + cfg.ttl;
    match p
    case Idle => (c, Idle)
    case AvailReadState =>
      (match Get(c.state, now, Closed)
       case Closed => (c, Idle)
       case Open => (c, AvailReadOpenedAt)
       case HalfOpen => (c, AvailReadTrials))
    case AvailReadOpenedAt =>
      if c.openedAt.Live(now) && c.openedAt.value != 0.0 && now - c.openedAt.value >= cfg.recovery
      then (c, AvailSetHalfOpen) else (c, Idle)
    case AvailSetHalfOpen => (c.(state := Held(HalfOpen, later)), AvailZeroTrials)
    case AvailZeroTrials => (c.(trials := Held(0, later)), AvailCountTrial)
    case AvailReadTrials => if Get(c.trials, now, 0) < cfg.maxTrials then (c, AvailCountTrial) else (c, Idle)
    case AvailCountTrial =>
      if c.trials.Live(now) then (c.(trials := c.trials.(value := c.trials.value + 1)), Idle) else (c, AvailFirstTrial)
    case AvailFirstTrial => (c.(trials := Held(1, later)), Idle)
    case SuccessReadState => if Get(c.state, now, Closed).HalfOpen? then (c, SuccessSetClosed) else (c, SuccessZero)
    case SuccessSetClosed => (c.(state := Held(Closed, later)), SuccessZeroAfterClose)
    case SuccessZeroAfterClose => (c.(failures := Held(0, later)), Idle)
    case SuccessZero => (c.(failures := Held(0, later)), Idle)
    case FailureReadState => if Get(c.state, now, Closed).HalfOpen? then (c, FailureReopen) else (c, FailureCount)
    case FailureReopen => (c.(state := Held(Open, later)), StampOpenedAt)
    case FailureCount =>
      if c.failures.Live(now) then
          (c.(failures := c.failures.(value := c.failures.value + 1)), FailureWeigh(c.failures.value + 1))
      else (c, FailureFirst)
    case FailureFirst => (c.(failures := Held(1, later)), FailureWeigh(1))
    case FailureWeigh(n) => if n >= cfg.threshold then (c, FailureOpen) else (c, Idle)
    case FailureOpen => (c.(state := Held(Open, later)), StampOpenedAt)
    case StampOpenedAt => (c.(openedAt := Held(now, later)), Idle)
    case ResetSetClosed => (c.(state := Held(Closed, later)), ResetZeroFailures)
    case ResetZeroFailures => (c.(failures := Held(0, later)), ResetZeroTrials)
    case ResetZeroTrials => (c.(trials := Held(0, later)), Idle)
  }

  function Step(cfg: Config, w: World, a: Action): World {
    match a
    case Start(k, call) => if k in w.places && w.places[k].Idle? then w.(places := w.places[k := Entry(call)]) else w
    case Move(k) =>
      if k in w.places then
        var (c, p) := Access(cfg, w.cache, w.now, w.places[k]);
        w.(cache := c, places := w.places[k := p])
      else w
    case Wait(seconds) => if seconds >= 0.0 then w.(now := w.now + seconds) else w
  }

  function Run(cfg: Config, w: World, actions: seq<Action>): World {
    if actions == [] then w else Step(cfg, Run(cfg, w, actions[..|actions| - 1]), actions[|actions| - 1])
  }

  ghost predicate Fresh(w: World) {
    w.cache == EMPTY && forall k :: k in w.places ==> w.places[k].Idle?
  }

  /** Between counting the threshold-reaching failure and opening, or between closing and forgetting failures. */
  predicate MidRecord(cfg: Config, p: Place) {
    || (p.FailureWeigh? && p.failures >= cfg.threshold)
    || p.FailureOpen?
    || p.SuccessZeroAfterClose?
    || p.ResetZeroFailures?
  }

  predicate Overdue(cfg: Config, c: Cache, now: Time) {
    c.failures.Live(now) && c.failures.value >= cfg.threshold
  }

  /** An unclosed state key that will outlive the failure count. */
  predicate Covered(c: Cache, now: Time) {
    c.state.Live(now) && !c.state.value.Closed? && c.failures.Held? && c.failures.expires <= c.state.expires
  }

  ghost predicate Inv(cfg: Config, w: World) {
    && (w.cache.failures.Held? ==> w.cache.failures.expires <= w.now + cfg.ttl)
    && (Overdue(cfg, w.cache, w.now) ==> Covered(w.cache, w.now) || exists k ::
        k in w.places && MidRecord(cfg, w.places[k]))
  }

  lemma MoveKeeps(cfg: Config, w: World, k: nat)
    requires Inv(cfg, w) && k in w.places && cfg.threshold >= 1 && cfg.ttl >= 0.0
    ensures Inv(cfg, Step(cfg, w, Move(k)))
  {
    var d := Step(cfg, w, Move(k));
    var p, q := w.places[k], d.places[k];
    if Overdue(cfg, d.cache, d.now) && !Covered(d.cache, d.now) {
      if MidRecord(cfg, q) {
        assert k in d.places && MidRecord(cfg, d.places[k]);
      } else {
        assert d.cache.failures == w.cache.failures;
        assert !MidRecord(cfg, p);
        assert !Covered(w.cache, w.now);
        var other :| other in w.places && MidRecord(cfg, w.places[other]);
        assert other in d.places && MidRecord(cfg, d.places[other]);
      }
    }
  }

  lemma StepKeeps(cfg: Config, w: World, a: Action)
    requires Inv(cfg, w) && cfg.threshold >= 1 && cfg.ttl >= 0.0
    ensures Inv(cfg, Step(cfg, w, a))
  {
    var d := Step(cfg, w, a);
    match a
    case Move(k) => if k in w.places { MoveKeeps(cfg, w, k); }
    case Start(k, call) =>
      if Overdue(cfg, w.cache, w.now) && !Covered(w.cache, w.now) {
        var other :| other in w.places && MidRecord(cfg, w.places[other]);
        assert other in d.places && MidRecord(cfg, d.places[other]);
      }
    case Wait(seconds) =>
  }

  lemma {:induction false} RunKeeps(cfg: Config, w: World, actions: seq<Action>)
    requires Fresh(w) && cfg.threshold >= 1 && cfg.ttl >= 0.0
    ensures Inv(cfg, Run(cfg, w, actions))
  {
    if actions != [] {
      RunKeeps(cfg, w, actions[..|actions| - 1]);
      StepKeeps(cfg, Run(cfg, w, actions[..|actions| - 1]), actions[|actions| - 1]);
    }
  }

  /** Any number of workers, any interleaving, keys expiring at any moment: if the circuit reads CLOSED while the
      live failure count has reached the threshold, some worker is in the middle of recording. With nobody in
      the middle, CLOSED means fewer failures than the threshold, even when CLOSED is read from an expired key. */
  lemma ClosedMeansBelowThreshold(cfg: Config, w: World, actions: seq<Action>)
    requires Fresh(w) && cfg.threshold >= 1 && cfg.ttl >= 0.0
    ensures var d := Run(cfg, w, actions);
            Get(d.cache.state, d.now, Closed).Closed? && Get(d.cache.failures, d.now, 0) >= cfg.threshold ==>
              exists k :: k in d.places && MidRecord(cfg, d.places[k])
  {
    RunKeeps(cfg, w, actions);
  }

  lemma RunStep(cfg: Config, w: World, actions: seq<Action>, i: nat)
    requires i < |actions|
    ensures Run(cfg, w, actions[..i + 1]) == Step(cfg, Run(cfg, w, actions[..i]), actions[i])
  {
    assert actions[..i + 1][..i] == actions[..i];
  }

  lemma {:induction false} RunJoin(cfg: Config, w: World, first: seq<Action>, second: seq<Action>)
    ensures Run(cfg, w, first + second) == Run(cfg, Run(cfg, w, first), second)
  {
    if second == [] {
      assert first + second == first;
    } else {
      var n := |second| - 1;
      assert (first + second)[..|first + second| - 1] == first + second[..n];
      RunJoin(cfg, w, first, second[..n]);
    }
  }
}
