/** The circuit breaker with each method taken as one step: how soon after an opening a call may pass, and how
    many trial calls one recovery attempt lets through. */
module Breaker {
  import opened Base
  import opened BreakerCache

  // ---------------------------------------------------------------------------------- the methods as functions

  function Bumped(s: Slot<int>, now: Time, ttl: Time): Slot<int> {
    if s.Live(now) then s.(value := s.value + 1) else Held(1, now + ttl)
  }

  function Opened(cfg: Config, c: Cache, now: Time): Cache {
    c.(state := Held(Open, now + cfg.ttl), openedAt := Held(now, now + cfg.ttl))
  }

  /** `if opened_at and elapsed >= recovery_timeout`: a stamp of zero counts as none. */
  predicate Recovered(cfg: Config, c: Cache, now: Time) {
    c.openedAt.Live(now) && c.openedAt.value != 0.0 && now - c.openedAt.value >= cfg.recovery
  }

  function IsAvailable(cfg: Config, c: Cache, now: Time): (Cache, bool) {
    match Get(c.state, now, Closed)
    case Closed => (c, true)
    case Open =>
      if Recovered(cfg, c, now)
      then (c.(state := Held(HalfOpen, now + cfg.ttl), trials := Bumped(Held(0, now + cfg.ttl), now, cfg.ttl)), true)
      else (c, false)
    case HalfOpen =>
      if Get(c.trials, now, 0) < cfg.maxTrials then (c.(trials := Bumped(c.trials, now, cfg.ttl)), true) else (c, false)
  }

  function RecordSuccess(cfg: Config, c: Cache, now: Time): Cache {
    var d := if Get(c.state, now, Closed).HalfOpen? then c.(state := Held(Closed, now + cfg.ttl)) else c;
    d.(failures := Held(0, now + cfg.ttl))
  }

  predicate Opens(cfg: Config, c: Cache, now: Time) {
    Get(c.state, now, Closed).HalfOpen? || Bumped(c.failures, now, cfg.ttl).value >= cfg.threshold
  }

  function RecordFailure(cfg: Config, c: Cache, now: Time): Cache {
    var d := if Get(c.state, now, Closed).HalfOpen? then c else c.(failures := Bumped(c.failures, now, cfg.ttl));
    if Opens(cfg, c, now) then Opened(cfg, d, now) else d
  }

  function Reset(cfg: Config, c: Cache, now: Time): Cache {
    c.(state := Held(Closed, now + cfg.ttl), failures := Held(0, now + cfg.ttl), trials := Held(0, now + cfg.ttl))
  }

  // ---------------------------------------------------------------------------------- runs with a log

  /** What an observer writes down. `trial` marks calls admitted by a half-open circuit. */
  datatype Entry =
    | Opening(at: Time) | Probing(at: Time) | Resetting(at: Time) | Admitted(at: Time, trial: bool) | Refused(at: Time)

  datatype World = World(cache: Cache, now: Time, log: seq<Entry>)

  datatype Action = Ask | Succeed | Fail | Clear | Wait(seconds: Time)

  function Step(cfg: Config, w: World, a: Action): World {
    match a
    case Ask =>
      var (c, ok) := IsAvailable(cfg, w.cache, w.now);
      var before := Get(w.cache.state, w.now, Closed);
      var probing := if before.Open? && ok then [Probing(w.now)] else [];
      World(c, w.now, w.log + probing + [if ok then Admitted(w.now, !before.Closed?) else Refused(w.now)])
    case Succeed => w.(cache := RecordSuccess(cfg, w.cache, w.now))
    case Fail =>
      World(RecordFailure(cfg, w.cache, w.now), w.now, if Opens(cfg, w.cache, w.now) then w.log + [Opening(w.now)]
          else w.log)
    case Clear => World(Reset(cfg, w.cache, w.now), w.now, w.log + [Resetting(w.now)])
    case Wait(seconds) => if seconds >= 0.0 then w.(now := w.now + seconds) else w
  }

  function Run(cfg: Config, w: World, actions: seq<Action>): World {
    if actions == [] then w else Step(cfg, Run(cfg, w, actions[..|actions| - 1]), actions[|actions| - 1])
  }

  datatype Moment = Never | At(at: Time)

  /** The latest opening with no reset after it. */
  function LatestOpening(log: seq<Entry>): Moment {
    if log == [] then Never
    else match log[|log| - 1]
      case Opening(t) => At(t)
      case Resetting(_) => Never
      case _ => LatestOpening(log[..|log| - 1])
  }

  /** Trial calls admitted since the circuit last went half-open. */
  function TrialsSoFar(log: seq<Entry>): nat {
    if log == [] then 0
    else match log[|log| - 1]
      case Probing(_) => 0
      case Admitted(_, true) => TrialsSoFar(log[..|log| - 1]) + 1
      case _ => TrialsSoFar(log[..|log| - 1])
  }

  predicate Timely(cfg: Config, log: seq<Entry>, k: nat)
    requires k < |log|
  {
    var opening := LatestOpening(log[..k]);
    log[k].Admitted? && opening.At? ==> log[k].at >= opening.at + cfg.recovery
  }

  function TrialLimit(cfg: Config): int {
    if cfg.maxTrials > 1 then cfg.maxTrials else 1
  }

  /** The log up to entry k obeys both limits. */
  predicate Lawful(cfg: Config, log: seq<Entry>, k: nat)
    requires k < |log|
  {
    Timely(cfg, log, k) && TrialsSoFar(log[..k + 1]) <= TrialLimit(cfg)
  }

  ghost predicate LogOk(cfg: Config, log: seq<Entry>) {
    && (forall k :: 0 <= k < |log| ==> Lawful(cfg, log, k))
    && TrialsSoFar(log) <= TrialLimit(cfg)
  }

  ghost predicate Inv(cfg: Config, w: World) {
    var c, opening := w.cache, LatestOpening(w.log);
    && LogOk(cfg, w.log)
    // a live OPEN state has a live stamp, namely the latest opening's, and both expire together
    && (c.state.Live(w.now) && c.state.value.Open? ==>
          opening.At? && c.openedAt == Held(opening.at, c.state.expires) && c.state.expires == opening.at + cfg.ttl)
    // whatever else the state says, the recovery time has passed
    && (opening.At? && !(c.state.Live(w.now) && c.state.value.Open?) ==> w.now >= opening.at + cfg.recovery)
    // in a half-open circuit the counter is the number of trials of this attempt
    && (c.state.Live(w.now) && c.state.value.HalfOpen? ==>
          c.trials == Held(TrialsSoFar(w.log), c.state.expires) && 1 <= TrialsSoFar(w.log))
  }

  lemma LogGrows(cfg: Config, log: seq<Entry>, e: Entry)
    requires LogOk(cfg, log)
    requires e.Admitted? && LatestOpening(log).At? ==> e.at >= LatestOpening(log).at + cfg.recovery
    requires e == Admitted(e.at, true) ==> TrialsSoFar(log) < TrialLimit(cfg)
    ensures LogOk(cfg, log + [e])
    ensures TrialsSoFar(log + [e]) == if e.Probing? then 0 else if e == Admitted(e.at, true) then TrialsSoFar(log) + 1
          else TrialsSoFar(log)
    ensures LatestOpening(log + [e]) == if e.Opening? then At(e.at) else if e.Resetting? then Never
          else LatestOpening(log)
  {
    var grown := log + [e];
    assert grown[..|log|] == log && grown[..|grown|] == grown;
    forall k | 0 <= k < |grown| ensures Lawful(cfg, grown, k) {
      if k < |log| {
        assert Lawful(cfg, log, k);
        assert grown[..k] == log[..k] && grown[..k + 1] == log[..k + 1];
      }
    }
  }

  lemma AskKeeps(cfg: Config, w: World)
    requires Inv(cfg, w) && 0.0 <= cfg.recovery <= cfg.ttl
    ensures Inv(cfg, Step(cfg, w, Ask))
  {
    var (c, ok) := IsAvailable(cfg, w.cache, w.now);
    var before := Get(w.cache.state, w.now, Closed);
    var last := if ok then Admitted(w.now, !before.Closed?) else Refused(w.now);
    if before.Open? && ok {
      LogGrows(cfg, w.log, Probing(w.now));
      LogGrows(cfg, w.log + [Probing(w.now)], last);
      assert w.log + [Probing(w.now)] + [last] == Step(cfg, w, Ask).log;
    } else {
      LogGrows(cfg, w.log, last);
      assert w.log + [] + [last] == w.log + [last];
    }
  }

  /** An admission leaves the latest opening what it was, at least the recovery time ago. */
  lemma AskIsTimely(cfg: Config, w: World)
    requires Inv(cfg, w) && 0.0 <= cfg.recovery <= cfg.ttl
    ensures var d := Step(cfg, w, Ask);
            && LatestOpening(d.log) == LatestOpening(w.log)
            && (IsAvailable(cfg, w.cache, w.now).1 && LatestOpening(d.log).At? ==>
                  w.now >= LatestOpening(d.log).at + cfg.recovery)
  {
    var (c, ok) := IsAvailable(cfg, w.cache, w.now);
    var before := Get(w.cache.state, w.now, Closed);
    var probing := if before.Open? && ok then [Probing(w.now)] else [];
    var last := if ok then Admitted(w.now, !before.Closed?) else Refused(w.now);
    var d := Step(cfg, w, Ask);
    var before_last := w.log + probing;
    assert d.log == before_last + [last] && d.log[..|d.log| - 1] == before_last;
    if probing == [] {
      assert before_last == w.log;
    } else {
      assert before_last[..|before_last| - 1] == w.log;
    }
  }

  lemma FailKeeps(cfg: Config, w: World)
    requires Inv(cfg, w) && 0.0 <= cfg.recovery <= cfg.ttl
    ensures Inv(cfg, Step(cfg, w, Fail))
  {
    if Opens(cfg, w.cache, w.now) {
      LogGrows(cfg, w.log, Opening(w.now));
    }
  }

  lemma ClearKeeps(cfg: Config, w: World)
    requires Inv(cfg, w) && 0.0 <= cfg.recovery <= cfg.ttl
    ensures Inv(cfg, Step(cfg, w, Clear))
  {
    LogGrows(cfg, w.log, Resetting(w.now));
  }

  lemma StepKeeps(cfg: Config, w: World, a: Action)
    requires Inv(cfg, w) && 0.0 <= cfg.recovery <= cfg.ttl
    ensures Inv(cfg, Step(cfg, w, a))
  {
    match a
    case Ask => AskKeeps(cfg, w);
    case Fail => FailKeeps(cfg, w);
    case Clear => ClearKeeps(cfg, w);
    case Succeed =>
    case Wait(_) =>
  }

  /** Over every run from an empty cache, with keys expiring at any time: no call is admitted earlier than the
      recovery time after the latest opening that was not reset, no half-open attempt admits more trials than
      allowed (or one, if none is allowed), and a live OPEN state always has its live stamp. */
  lemma {:induction false} AdmissionRules(cfg: Config, start: Time, actions: seq<Action>)
    requires 0.0 <= cfg.recovery <= cfg.ttl
    ensures Inv(cfg, Run(cfg, World(EMPTY, start, []), actions))
  {
    if actions != [] {
      AdmissionRules(cfg, start, actions[..|actions| - 1]);
      StepKeeps(cfg, Run(cfg, World(EMPTY, start, []), actions[..|actions| - 1]), actions[|actions| - 1]);
    }
  }

  /** The same, said of two entries of the log: an opening, and an admission after it with no reset between. */
  lemma NoEarlyAdmission(cfg: Config, start: Time, actions: seq<Action>, i: nat, j: nat)
    requires 0.0 <= cfg.recovery <= cfg.ttl
    requires var log := Run(cfg, World(EMPTY, start, []), actions).log;
             i < j < |log| && log[i].Opening? && log[j].Admitted? && forall k :: i < k < j ==> !log[k].Resetting?
    ensures var log := Run(cfg, World(EMPTY, start, []), actions).log;
            log[j].at >= log[i].at + cfg.recovery
  {
    AdmissionRules(cfg, start, actions);
    var log := Run(cfg, World(EMPTY, start, []), actions).log;
    assert Lawful(cfg, log, j);
    LogInOrder(cfg, start, actions);
    OpeningRemembered(log, i, j);
  }

  ghost predicate InOrder(log: seq<Entry>) {
    forall i, j :: 0 <= i < j < |log| ==> log[i].at <= log[j].at
  }

  lemma {:induction false} LogInOrder(cfg: Config, start: Time, actions: seq<Action>)
    ensures var w := Run(cfg, World(EMPTY, start, []), actions);
            InOrder(w.log) && forall k :: 0 <= k < |w.log| ==> w.log[k].at <= w.now
  {
    if actions != [] {
      LogInOrder(cfg, start, actions[..|actions| - 1]);
    }
  }

  lemma {:induction false} OpeningRemembered(log: seq<Entry>, i: nat, j: nat)
    requires InOrder(log) && i < j <= |log| && log[i].Opening? && forall k :: i < k < j ==> !log[k].Resetting?
    ensures LatestOpening(log[..j]).At? && LatestOpening(log[..j]).at >= log[i].at
  {
    assert log[..j][..j - 1] == log[..j - 1];
    if i < j - 1 {
      OpeningRemembered(log, i, j - 1);
    }
  }

  /** The other half: a circuit that is open, with its stamp (not zero) past the recovery time, lets the next
      call through and goes half-open. */
  lemma RecoversInTime(cfg: Config, w: World)
    requires Inv(cfg, w) && w.cache.state.Live(w.now) && w.cache.state.value.Open?
    ensures var opening := LatestOpening(w.log).at;
            var (c, ok) := IsAvailable(cfg, w.cache, w.now);
            ok <==> opening != 0.0 && w.now >= opening + cfg.recovery
  {
  }

  /** A success on trial closes the circuit and forgets the failures; a failure on trial opens it at once. */
  lemma TrialOutcome(cfg: Config, c: Cache, now: Time)
    requires c.state.Live(now) && c.state.value.HalfOpen? && cfg.ttl > 0.0
    ensures var d := RecordSuccess(cfg, c, now); Get(d.state, now, Open).Closed? && Get(d.failures, now, -1) == 0
    ensures var d := RecordFailure(cfg, c, now);
        Get(d.state, now, Closed).Open? && Get(d.openedAt, now, now - 1.0) == now
  {
  }

  // ---------------------------------------------------------------------------------- how a circuit closes

  predicate ReadsClosed(w: World) {
    Get(w.cache.state, w.now, Closed).Closed?
  }

  /** The three ways: a success on trial, a reset, and the state key expiring. */
  predicate Closes(w: World, a: Action) {
    match a
    case Succeed => Get(w.cache.state, w.now, Closed).HalfOpen?
    case Clear => true
    case Wait(seconds) => seconds >= 0.0 && w.cache.state.Held? && w.now + seconds >= w.cache.state.expires
    case _ => false
  }

  lemma ClosesExactly(cfg: Config, w: World, a: Action)
    requires !ReadsClosed(w) && cfg.ttl > 0.0
    ensures ReadsClosed(Step(cfg, w, a)) <==> Closes(w, a)
  {
  }

  /** Over any run, a circuit that is not closed stays so at every step exactly when no step is one of the three. */
  lemma StaysUnclosedExactly(cfg: Config, w: World, actions: seq<Action>)
    requires !ReadsClosed(w) && cfg.ttl > 0.0
    ensures (forall k :: 0 <= k <= |actions| ==> !ReadsClosed(Run(cfg, w, actions[..k]))) <==>
            (forall k :: 0 <= k < |actions| ==> !Closes(Run(cfg, w, actions[..k]), actions[k]))
  {
    var good := (k: nat) => k <= |actions| && !ReadsClosed(Run(cfg, w, actions[..k]));
    var safe := (k: nat) => k < |actions| && !Closes(Run(cfg, w, actions[..k]), actions[k]);
    assert actions[..0] == [];
    forall k | 0 <= k < |actions| && good(k) ensures good(k + 1) <==> safe(k) {
      assert actions[..k + 1][..k] == actions[..k];
      ClosesExactly(cfg, Run(cfg, w, actions[..k]), actions[k]);
    }
    Throughout(good, safe, |actions|);
    assert forall k :: 0 <= k <= |actions| ==> good(k) == !ReadsClosed(Run(cfg, w, actions[..k]));
    assert forall k :: 0 <= k < |actions| ==> safe(k) == !Closes(Run(cfg, w, actions[..k]), actions[k]);
  }

  /** So an opening is followed by CLOSED, with no reset between, only after the recovery time. */
  lemma NoEarlyClosing(cfg: Config, start: Time, actions: seq<Action>)
    requires 0.0 <= cfg.recovery <= cfg.ttl
    ensures var w := Run(cfg, World(EMPTY, start, []), actions);
            LatestOpening(w.log).At? && ReadsClosed(w) ==> w.now >= LatestOpening(w.log).at + cfg.recovery
  {
    AdmissionRules(cfg, start, actions);
  }

  // ---------------------------------------------------------------------------------- no refusal without a cause

  /** Outside CLOSED there is an opening that was not reset. */
  ghost predicate Caused(w: World) {
    !ReadsClosed(w) ==> LatestOpening(w.log).At?
  }

  /** A refusal has such an opening before it. */
  ghost predicate RefusalsCaused(log: seq<Entry>) {
    forall k :: 0 <= k < |log| && log[k].Refused? ==> LatestOpening(log[..k]).At?
  }

  lemma RefusalsGrow(log: seq<Entry>, e: Entry)
    requires RefusalsCaused(log) && (e.Refused? ==> LatestOpening(log).At?)
    ensures RefusalsCaused(log + [e])
    ensures LatestOpening(log + [e]) ==
            if e.Opening? then At(e.at) else if e.Resetting? then Never else LatestOpening(log)
  {
    var grown := log + [e];
    assert grown[..|log|] == log;
    forall k | 0 <= k < |grown| && grown[k].Refused? ensures LatestOpening(grown[..k]).At? {
      assert grown[..k] == log[..k];
      assert k == |log| ==> log[..k] == log;
    }
  }

  lemma CausedStep(cfg: Config, w: World, a: Action)
    requires Caused(w) && RefusalsCaused(w.log)
    ensures Caused(Step(cfg, w, a)) && RefusalsCaused(Step(cfg, w, a).log)
  {
    match a
    case Ask =>
      var (c, ok) := IsAvailable(cfg, w.cache, w.now);
      var before := Get(w.cache.state, w.now, Closed);
      var last := if ok then Admitted(w.now, !before.Closed?) else Refused(w.now);
      if before.Open? && ok {
        RefusalsGrow(w.log, Probing(w.now));
        RefusalsGrow(w.log + [Probing(w.now)], last);
        assert Step(cfg, w, Ask).log == w.log + [Probing(w.now)] + [last];
      } else {
        RefusalsGrow(w.log, last);
        assert w.log + [] + [last] == w.log + [last];
      }
    case Fail => if Opens(cfg, w.cache, w.now) { RefusalsGrow(w.log, Opening(w.now)); }
    case Clear => RefusalsGrow(w.log, Resetting(w.now));
    case _ =>
  }

  /** Over every run: a call is refused only after an opening that was not reset. A service that never fails is never
      refused. */
  lemma {:induction false} RefusedOnlyAfterOpening(cfg: Config, start: Time, actions: seq<Action>)
    ensures var w := Run(cfg, World(EMPTY, start, []), actions); Caused(w) && RefusalsCaused(w.log)
  {
    if actions != [] {
      RefusedOnlyAfterOpening(cfg, start, actions[..|actions| - 1]);
      CausedStep(cfg, Run(cfg, World(EMPTY, start, []), actions[..|actions| - 1]), actions[|actions| - 1]);
    }
  }

  // ---------------------------------------------------------------------------------- no opening without failures

  /** Failures reported since the last success or reset. */
  function Streak(actions: seq<Action>): nat {
    if actions == [] then 0
    else match actions[|actions| - 1]
      case Fail => Streak(actions[..|actions| - 1]) + 1
      case Succeed => 0
      case Clear => 0
      case _ => Streak(actions[..|actions| - 1])
  }

  lemma {:induction false} CountedFailures(cfg: Config, start: Time, actions: seq<Action>)
    ensures var w := Run(cfg, World(EMPTY, start, []), actions); Get(w.cache.failures, w.now, 0) <= Streak(actions)
  {
    if actions != [] {
      CountedFailures(cfg, start, actions[..|actions| - 1]);
    }
  }

  /** Over every run: outside a trial the circuit opens only at the threshold, that is when this many failures in a
      row, or more, have been reported. */
  lemma OpensOnlyAtThreshold(cfg: Config, start: Time, actions: seq<Action>)
    requires var w := Run(cfg, World(EMPTY, start, []), actions);
             !Get(w.cache.state, w.now, Closed).HalfOpen? && Opens(cfg, w.cache, w.now)
    ensures Streak(actions + [Fail]) >= cfg.threshold
  {
    CountedFailures(cfg, start, actions);
    assert (actions + [Fail])[..|actions|] == actions;
  }

  /** And it does open then: with failures only, and no time for the count to expire, the threshold is enough. */
  lemma {:induction false} FailuresInARow(cfg: Config, w: World, n: nat)
    requires cfg.ttl > 0.0 && ReadsClosed(w) && cfg.threshold >= 1
    ensures var d := Run(cfg, w, seq(n, _ => Fail));
            && d.now == w.now
            && (Get(w.cache.failures, w.now, 0) + n < cfg.threshold || n == 0 ==>
                  ReadsClosed(d) && Get(d.cache.failures, d.now, 0) == Get(w.cache.failures, w.now, 0) + n)
            && (Get(w.cache.failures, w.now, 0) + n >= cfg.threshold && n > 0 ==>
                  Get(d.cache.state, d.now, Closed).Open? && LatestOpening(d.log) == At(w.now))
  {
    var fails := seq(n, _ => Fail);
    if n > 0 {
      FailuresInARow(cfg, w, n - 1);
      assert fails[..n - 1] == seq(n - 1, _ => Fail);
      var before := Run(cfg, w, fails[..n - 1]);
      var d := Step(cfg, before, Fail);
      if Opens(cfg, before.cache, before.now) {
        assert d.log[..|before.log|] == before.log;
      }
    }
  }
}
