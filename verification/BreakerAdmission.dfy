/** When a call may pass after an opening, with any number of workers interleaved: never before the recovery time is
    over, unless some worker acts on what it read before the opening, or between its two writes. */
module BreakerAdmission {
  import opened BreakerCache
  import opened BreakerWorkers

  /** The worker of this step is about to write OPEN. */
  predicate Opening(w: World, a: Action) {
    a.Move? && a.worker in w.places && (w.places[a.worker].FailureReopen? || w.places[a.worker].FailureOpen?)
  }

  predicate StandsAt(w: World, k: nat, p: Place) {
    k in w.places && w.places[k] == p
  }

  /** Some worker has written OPEN and not yet its stamp. */
  ghost predicate Unstamped(w: World) {
    exists k :: StandsAt(w, k, StampOpenedAt)
  }

  /** Worker k reads the stamp and finds the recovery time over. */
  predicate PassesStamp(cfg: Config, w: World, a: Action, k: nat) {
    a == Move(k) && StandsAt(w, k, AvailReadOpenedAt) && StandsAt(Step(cfg, w, a), k, AvailSetHalfOpen)
  }

  /** Worker k, let through from OPEN, is about to write HALF_OPEN. */
  predicate GoesHalfOpen(w: World, a: Action, k: nat) {
    a == Move(k) && StandsAt(w, k, AvailSetHalfOpen)
  }

  lemma {:induction false} ClockGoesOn(cfg: Config, w: World, actions: seq<Action>, i: nat, j: nat)
    requires i <= j <= |actions|
    ensures Run(cfg, w, actions[..i]).now <= Run(cfg, w, actions[..j]).now
  {
    if i < j {
      ClockGoesOn(cfg, w, actions, i, j - 1);
      RunStep(cfg, w, actions, j - 1);
    }
  }

  /** The stamp is at least t, or somebody is about to write one that is. */
  ghost predicate StampedSince(w: World, t: Time) {
    Unstamped(w) || (w.cache.openedAt.Held? && w.cache.openedAt.value >= t)
  }

  lemma StampStays(cfg: Config, w: World, a: Action, t: Time)
    requires StampedSince(w, t) && w.now >= t
    ensures StampedSince(Step(cfg, w, a), t)
  {
    var d := Step(cfg, w, a);
    if Unstamped(w) {
      var k :| StandsAt(w, k, StampOpenedAt);
      assert a == Move(k) || StandsAt(d, k, StampOpenedAt);
    }
  }

  /** After an opening written at time t, nobody being between the two writes means that the stamp is not older. */
  lemma {:induction false} OpeningIsStamped(cfg: Config, w: World, actions: seq<Action>, o: nat, i: nat)
    requires o < i <= |actions| && Opening(Run(cfg, w, actions[..o]), actions[o])
    ensures StampedSince(Run(cfg, w, actions[..i]), Run(cfg, w, actions[..o]).now)
  {
    RunStep(cfg, w, actions, i - 1);
    if o == i - 1 {
      assert StandsAt(Run(cfg, w, actions[..i]), actions[o].worker, StampOpenedAt);
    } else {
      OpeningIsStamped(cfg, w, actions, o, i - 1);
      ClockGoesOn(cfg, w, actions, o, i - 1);
      StampStays(cfg, Run(cfg, w, actions[..i - 1]), actions[i - 1], Run(cfg, w, actions[..o]).now);
    }
  }

  /** A worker about to write HALF_OPEN has been waiting to do so since it read a stamp it could pass. */
  lemma {:induction false} StampWasRead(cfg: Config, w: World, actions: seq<Action>, j: nat, k: nat) returns (i: nat)
    requires Fresh(w) && j <= |actions| && StandsAt(Run(cfg, w, actions[..j]), k, AvailSetHalfOpen)
    ensures i < j && PassesStamp(cfg, Run(cfg, w, actions[..i]), actions[i], k)
    ensures forall m :: i < m <= j ==> StandsAt(Run(cfg, w, actions[..m]), k, AvailSetHalfOpen)
    decreases j
  {
    assert actions[..0] == [];
    if j == 0 {
      assert false;
    } else {
      RunStep(cfg, w, actions, j - 1);
      var before := Run(cfg, w, actions[..j - 1]);
      if StandsAt(before, k, AvailSetHalfOpen) {
        i := StampWasRead(cfg, w, actions, j - 1, k);
      } else {
        CameFromStamp(cfg, before, actions[j - 1], k);
        i := j - 1;
      }
    }
  }

  lemma CameFromStamp(cfg: Config, w: World, a: Action, k: nat)
    requires StandsAt(Step(cfg, w, a), k, AvailSetHalfOpen) && !StandsAt(w, k, AvailSetHalfOpen)
    ensures PassesStamp(cfg, w, a, k)
  {
  }

  /** A pass over a stamp written by every opening so far is at least the recovery time after each of them. */
  lemma PassIsTimely(cfg: Config, w: World, actions: seq<Action>, o: nat, i: nat, k: nat)
    requires o < i < |actions| && Opening(Run(cfg, w, actions[..o]), actions[o])
    requires PassesStamp(cfg, Run(cfg, w, actions[..i]), actions[i], k) && !Unstamped(Run(cfg, w, actions[..i]))
    ensures Run(cfg, w, actions[..i]).now >= Run(cfg, w, actions[..o]).now + cfg.recovery
  {
    OpeningIsStamped(cfg, w, actions, o, i);
  }

  /** The recovery bound for those let through from OPEN. Whoever is, at step j, has read the stamp
      at an earlier step i and then waited to write HALF_OPEN. If nobody stood between the two writes of an opening
      at that read, and no opening was written since, then step j is at least the recovery time after every
      opening before it. */
  lemma LetThroughAfterOpening(cfg: Config, w: World, actions: seq<Action>, j: nat, k: nat) returns (i: nat)
    requires Fresh(w) && j < |actions| && GoesHalfOpen(Run(cfg, w, actions[..j]), actions[j], k)
    ensures i < j && PassesStamp(cfg, Run(cfg, w, actions[..i]), actions[i], k)
    ensures forall m :: i < m <= j ==> StandsAt(Run(cfg, w, actions[..m]), k, AvailSetHalfOpen)
    ensures !Unstamped(Run(cfg, w, actions[..i])) &&
            (forall m :: i < m < j ==> !Opening(Run(cfg, w, actions[..m]), actions[m])) ==>
              forall o :: 0 <= o < j && Opening(Run(cfg, w, actions[..o]), actions[o]) ==>
                Run(cfg, w, actions[..j]).now >= Run(cfg, w, actions[..o]).now + cfg.recovery
  {
    i := StampWasRead(cfg, w, actions, j, k);
    if !Unstamped(Run(cfg, w, actions[..i])) &&
       forall m :: i < m < j ==> !Opening(Run(cfg, w, actions[..m]), actions[m])
    {
      forall o | 0 <= o < j && Opening(Run(cfg, w, actions[..o]), actions[o])
        ensures Run(cfg, w, actions[..j]).now >= Run(cfg, w, actions[..o]).now + cfg.recovery
      {
        assert o != i && o < i;
        PassIsTimely(cfg, w, actions, o, i, k);
        ClockGoesOn(cfg, w, actions, i, j);
      }
    }
  }

  // ---------------------------------------------------------------------------------- every admission

  /** `is_available` returns True at this step: CLOSED is read, or a trial is counted. */
  predicate Admits(w: World, a: Action) {
    && a.Move? && a.worker in w.places
    && match w.places[a.worker]
       case AvailReadState => Get(w.cache.state, w.now, Closed).Closed?
       case AvailCountTrial => w.cache.trials.Live(w.now)
       case AvailFirstTrial => true
       case _ => false
  }

  predicate Moves(w: World, a: Action, p: Place) {
    a.Move? && StandsAt(w, a.worker, p)
  }

  /** Inside `is_available` with HALF_OPEN read, or let through from OPEN, and the trial not counted yet. */
  const ON_TRIAL: set<Place> := {AvailReadTrials, AvailZeroTrials, AvailCountTrial, AvailFirstTrial}

  /** From step n to step m worker k does not get beyond these places. */
  ghost predicate Still(cfg: Config, w: World, actions: seq<Action>, n: nat, m: nat, k: nat, places: set<Place>)
    requires m <= |actions|
  {
    forall i :: n <= i <= m ==> IsIn(Run(cfg, w, actions[..i]), k, places)
  }

  predicate IsIn(w: World, k: nat, places: set<Place>) {
    k in w.places && w.places[k] in places
  }

  /** Worker k read and passed the stamp after step 0, while somebody was between the two writes of an opening. */
  ghost predicate PassedUnstamped(cfg: Config, w: World, actions: seq<Action>, n: nat, k: nat)
    requires n <= |actions|
  {
    exists i :: 0 < i < n && ReadUnstamped(cfg, Run(cfg, w, actions[..i]), actions[i], k)
                && Still(cfg, w, actions, i + 1, n, k, {AvailSetHalfOpen})
  }

  ghost predicate ReadUnstamped(cfg: Config, w: World, a: Action, k: nat) {
    PassesStamp(cfg, w, a, k) && Unstamped(w)
  }

  /** HALF_OPEN is written by a worker that passed the stamp before step 0. */
  ghost predicate LatePass(cfg: Config, w: World, actions: seq<Action>, m: nat)
    requires m < |actions|
  {
    Moves(Run(cfg, w, actions[..m]), actions[m], AvailSetHalfOpen)
    && Still(cfg, w, actions, 0, m, actions[m].worker, {AvailSetHalfOpen})
  }

  /** HALF_OPEN is written by a worker that passed a stamp about to be replaced. */
  ghost predicate UnstampedPass(cfg: Config, w: World, actions: seq<Action>, m: nat)
    requires m < |actions|
  {
    Moves(Run(cfg, w, actions[..m]), actions[m], AvailSetHalfOpen)
    && PassedUnstamped(cfg, w, actions, m, actions[m].worker)
  }

  /** CLOSED is written for a success whose worker read HALF_OPEN before step 0. */
  ghost predicate LateClose(cfg: Config, w: World, actions: seq<Action>, m: nat)
    requires m < |actions|
  {
    Moves(Run(cfg, w, actions[..m]), actions[m], SuccessSetClosed)
    && Still(cfg, w, actions, 0, m, actions[m].worker, {SuccessSetClosed})
  }

  /** The call admitted here had read HALF_OPEN, or been let through, before step 0, and only counts its trial now. */
  ghost predicate LateTrial(cfg: Config, w: World, actions: seq<Action>, j: nat)
    requires j < |actions|
  {
    actions[j].Move? && Still(cfg, w, actions, 0, j, actions[j].worker, ON_TRIAL)
  }

  /** A step that acts on something read before the opening of step 0, or between the two writes of an opening. */
  ghost predicate Disturbs(cfg: Config, w: World, actions: seq<Action>, m: nat)
    requires m < |actions|
  {
    LatePass(cfg, w, actions, m) || UnstampedPass(cfg, w, actions, m) || LateClose(cfg, w, actions, m)
  }

  ghost predicate ResetsAt(cfg: Config, w: World, actions: seq<Action>, m: nat)
    requires m < |actions|
  {
    Moves(Run(cfg, w, actions[..m]), actions[m], ResetSetClosed)
  }

  /** While the recovery time t runs, the state is OPEN and stays so. */
  predicate HoldsOpen(c: Cache, t: Time) {
    c.state.Held? && c.state.value.Open? && c.state.expires >= t
  }

  /** Worker k stands before a write or an admission only if it is one of the disturbances. */
  ghost predicate Accounted(cfg: Config, w: World, actions: seq<Action>, n: nat, k: nat)
    requires n <= |actions|
  {
    var d := Run(cfg, w, actions[..n]);
    && (IsIn(d, k, {AvailSetHalfOpen}) ==>
          Still(cfg, w, actions, 0, n, k, {AvailSetHalfOpen}) || PassedUnstamped(cfg, w, actions, n, k))
    && (IsIn(d, k, {SuccessSetClosed}) ==> Still(cfg, w, actions, 0, n, k, {SuccessSetClosed}))
    && (IsIn(d, k, ON_TRIAL) ==> Still(cfg, w, actions, 0, n, k, ON_TRIAL))
  }

  ghost predicate Guarded(cfg: Config, w: World, actions: seq<Action>, n: nat)
    requires n <= |actions|
  {
    var d := Run(cfg, w, actions[..n]);
    && StampedSince(d, w.now) && d.now >= w.now
    && (d.now < w.now + cfg.recovery ==>
          HoldsOpen(d.cache, w.now + cfg.recovery) && forall k :: Accounted(cfg, w, actions, n, k))
  }

  /** One step while the recovery time runs: the state stays OPEN, and a worker comes before a write or a trial only
      by a read between the two writes of an opening. */
  lemma WindowStep(cfg: Config, d: World, a: Action, since: Time)
    requires cfg.recovery <= cfg.ttl && StampedSince(d, since) && d.now >= since
    requires HoldsOpen(d.cache, since + cfg.recovery) && Step(cfg, d, a).now < since + cfg.recovery
    requires !Moves(d, a, ResetSetClosed) && !Moves(d, a, SuccessSetClosed) && !Moves(d, a, AvailSetHalfOpen)
    ensures HoldsOpen(Step(cfg, d, a).cache, since + cfg.recovery)
    ensures forall k :: IsIn(Step(cfg, d, a), k, {AvailSetHalfOpen}) ==>
              IsIn(d, k, {AvailSetHalfOpen}) || ReadUnstamped(cfg, d, a, k)
    ensures forall k :: IsIn(Step(cfg, d, a), k, {SuccessSetClosed}) ==> IsIn(d, k, {SuccessSetClosed})
    ensures forall k :: IsIn(Step(cfg, d, a), k, ON_TRIAL) ==> IsIn(d, k, ON_TRIAL)
  {
  }

  lemma StillOn(cfg: Config, w: World, actions: seq<Action>, i: nat, n: nat, k: nat, places: set<Place>)
    requires i <= n + 1 && n < |actions| && (i <= n ==> Still(cfg, w, actions, i, n, k, places))
    requires IsIn(Run(cfg, w, actions[..n + 1]), k, places)
    ensures Still(cfg, w, actions, i, n + 1, k, places)
  {
  }

  lemma AccountedOn(cfg: Config, w: World, actions: seq<Action>, n: nat, k: nat)
    requires 0 < n < |actions| && Accounted(cfg, w, actions, n, k)
    requires var d, e := Run(cfg, w, actions[..n]), Run(cfg, w, actions[..n + 1]);
             && (IsIn(e, k, {AvailSetHalfOpen}) ==>
                   IsIn(d, k, {AvailSetHalfOpen}) || ReadUnstamped(cfg, d, actions[n], k))
             && (IsIn(e, k, {SuccessSetClosed}) ==> IsIn(d, k, {SuccessSetClosed}))
             && (IsIn(e, k, ON_TRIAL) ==> IsIn(d, k, ON_TRIAL))
    ensures Accounted(cfg, w, actions, n + 1, k)
  {
    var d, e := Run(cfg, w, actions[..n]), Run(cfg, w, actions[..n + 1]);
    if IsIn(e, k, {SuccessSetClosed}) {
      StillOn(cfg, w, actions, 0, n, k, {SuccessSetClosed});
    }
    if IsIn(e, k, ON_TRIAL) {
      StillOn(cfg, w, actions, 0, n, k, ON_TRIAL);
    }
    if IsIn(e, k, {AvailSetHalfOpen}) {
      if !IsIn(d, k, {AvailSetHalfOpen}) {
        StillOn(cfg, w, actions, n + 1, n, k, {AvailSetHalfOpen});
        assert ReadUnstamped(cfg, Run(cfg, w, actions[..n]), actions[n], k);
      } else if Still(cfg, w, actions, 0, n, k, {AvailSetHalfOpen}) {
        StillOn(cfg, w, actions, 0, n, k, {AvailSetHalfOpen});
      } else {
        var i :| 0 < i < n && ReadUnstamped(cfg, Run(cfg, w, actions[..i]), actions[i], k)
                 && Still(cfg, w, actions, i + 1, n, k, {AvailSetHalfOpen});
        StillOn(cfg, w, actions, i + 1, n, k, {AvailSetHalfOpen});
      }
    }
  }

  lemma GuardedOn(cfg: Config, w: World, actions: seq<Action>, n: nat)
    requires cfg.recovery <= cfg.ttl && 0 < n < |actions| && Guarded(cfg, w, actions, n)
    requires !ResetsAt(cfg, w, actions, n) && !Disturbs(cfg, w, actions, n)
    ensures Guarded(cfg, w, actions, n + 1)
  {
    var d, a := Run(cfg, w, actions[..n]), actions[n];
    RunStep(cfg, w, actions, n);
    StampStays(cfg, d, a, w.now);
    if Step(cfg, d, a).now < w.now + cfg.recovery {
      if a.Move? {
        assert Accounted(cfg, w, actions, n, a.worker);
      }
      WindowStep(cfg, d, a, w.now);
      var next := n + 1;
      forall k ensures Accounted(cfg, w, actions, next, k) {
        assert Accounted(cfg, w, actions, n, k);
        AccountedOn(cfg, w, actions, n, k);
      }
    }
  }

  lemma GuardedAtFirst(cfg: Config, w: World, actions: seq<Action>)
    requires cfg.recovery <= cfg.ttl && |actions| > 0 && Opening(w, actions[0])
    ensures Guarded(cfg, w, actions, 1)
  {
    RunStep(cfg, w, actions, 0);
    assert actions[..0] == [];
    var d := Step(cfg, w, actions[0]);
    assert Run(cfg, w, actions[..1]) == d;
    assert StandsAt(d, actions[0].worker, StampOpenedAt);
    forall k ensures Accounted(cfg, w, actions, 1, k) {
      assert k != actions[0].worker && k in w.places ==> d.places[k] == w.places[k];
      if IsIn(d, k, {AvailSetHalfOpen}) { StillOn(cfg, w, actions, 0, 0, k, {AvailSetHalfOpen}); }
      if IsIn(d, k, {SuccessSetClosed}) { StillOn(cfg, w, actions, 0, 0, k, {SuccessSetClosed}); }
      if IsIn(d, k, ON_TRIAL) { StillOn(cfg, w, actions, 0, 0, k, ON_TRIAL); }
    }
  }

  lemma {:induction false} GuardedUntil(cfg: Config, w: World, actions: seq<Action>, n: nat)
    requires cfg.recovery <= cfg.ttl && 0 < n <= |actions| && Opening(w, actions[0])
    requires forall m :: 0 < m < n ==> !ResetsAt(cfg, w, actions, m) && !Disturbs(cfg, w, actions, m)
    ensures Guarded(cfg, w, actions, n)
  {
    if n == 1 {
      GuardedAtFirst(cfg, w, actions);
    } else {
      GuardedUntil(cfg, w, actions, n - 1);
      GuardedOn(cfg, w, actions, n - 1);
    }
  }

  /** The recovery bound, for every admission of every worker. Whatever the workers were doing when step 0 opens the
      circuit: a call is admitted only when the recovery time is over, unless the circuit was reset since, or a
      worker wrote HALF_OPEN or CLOSED on what it had read before the opening, or HALF_OPEN on a stamp read between
      the two writes of an opening, or this very call had read HALF_OPEN, or been let through, before the opening. */
  lemma AdmissionInTime(cfg: Config, w: World, actions: seq<Action>, j: nat)
    requires cfg.recovery <= cfg.ttl && 0 < j < |actions| && Opening(w, actions[0])
    requires Admits(Run(cfg, w, actions[..j]), actions[j])
    ensures || Run(cfg, w, actions[..j]).now >= w.now + cfg.recovery
            || (exists m :: 0 < m < j && ResetsAt(cfg, w, actions, m))
            || (exists m :: 0 < m < j && Disturbs(cfg, w, actions, m))
            || LateTrial(cfg, w, actions, j)
  {
    if !(exists m :: 0 < m < j && ResetsAt(cfg, w, actions, m)) &&
       !(exists m :: 0 < m < j && Disturbs(cfg, w, actions, m))
    {
      GuardedUntil(cfg, w, actions, j);
      assert Accounted(cfg, w, actions, j, actions[j].worker) || Run(cfg, w, actions[..j]).now >= w.now + cfg.recovery;
    }
  }

  // ---------------------------------------------------------------------------------- trials, interleaved

  /** The workers that have found room for a trial and not counted it yet. */
  function Counting(w: World): set<nat> {
    set k | k in w.places && (w.places[k].AvailCountTrial? || w.places[k].AvailFirstTrial?)
  }

  function TrialLimit(cfg: Config): int {
    if cfg.maxTrials > 1 then cfg.maxTrials else 1
  }

  ghost predicate TrialsInv(cfg: Config, w: World) {
    w.cache.trials.Live(w.now) ==> w.cache.trials.value + |Counting(w)| <= TrialLimit(cfg) + |w.places| - 1
  }

  lemma CountingSize(w: World)
    ensures |Counting(w)| <= |w.places|
    ensures forall k :: k in w.places && k !in Counting(w) ==> |Counting(w)| <= |w.places| - 1
  {
    Fits(Counting(w), w.places.Keys);
    forall k | k in w.places && k !in Counting(w) ensures |Counting(w)| <= |w.places| - 1 {
      Fits(Counting(w), w.places.Keys - {k});
    }
  }

  lemma {:induction false} Fits(a: set<nat>, b: set<nat>)
    requires a <= b
    ensures |a| <= |b|
  {
    if a != {} {
      var x :| x in a;
      Fits(a - {x}, b - {x});
    }
  }

  /** Where a worker goes decides alone whether it is counted among them. */
  lemma CountingMoves(w: World, d: World, k: nat)
    requires k in w.places && k in d.places && d.places == w.places[k := d.places[k]]
    ensures |d.places| == |w.places|
    ensures |Counting(d)| - (if k in Counting(d) then 1 else 0) == |Counting(w)| - (if k in Counting(w) then 1 else 0)
  {
    assert d.places.Keys == w.places.Keys;
    forall j | j in Counting(d) - {k} ensures j in Counting(w) { assert d.places[j] == w.places[j]; }
    forall j | j in Counting(w) - {k} ensures j in Counting(d) { assert d.places[j] == w.places[j]; }
    assert Counting(d) - {k} == Counting(w) - {k};
    assert |Counting(d) - {k}| == |Counting(d)| - (if k in Counting(d) then 1 else 0);
  }

  lemma TrialsMove(cfg: Config, w: World, k: nat)
    requires TrialsInv(cfg, w) && k in w.places
    ensures TrialsInv(cfg, Step(cfg, w, Move(k)))
  {
    var d := Step(cfg, w, Move(k));
    CountingMoves(w, d, k);
    CountingSize(w);
    CountingSize(d);
    assert k in Counting(w) ==> |Counting(w)| >= 1;
  }

  lemma TrialsStep(cfg: Config, w: World, a: Action)
    requires TrialsInv(cfg, w)
    ensures TrialsInv(cfg, Step(cfg, w, a)) && |Step(cfg, w, a).places| == |w.places|
  {
    var d := Step(cfg, w, a);
    if a.Wait? {
      assert Counting(d) == Counting(w);
    } else if a.worker in w.places {
      CountingMoves(w, d, a.worker);
      if a.Move? { TrialsMove(cfg, w, a.worker); }
    }
  }

  /** How far interleaved workers can overrun the limit of a half-open circuit: its counter stays within the limit
      plus one trial for every worker but one. With a single worker, that is the limit. */
  lemma {:induction false} TrialsBounded(cfg: Config, w: World, actions: seq<Action>)
    requires Fresh(w)
    ensures var d := Run(cfg, w, actions);
            && TrialsInv(cfg, d) && |d.places| == |w.places|
            && Get(d.cache.trials, d.now, 0) <= TrialLimit(cfg) + (if |w.places| == 0 then 0 else |w.places| - 1)
  {
    if actions != [] {
      TrialsBounded(cfg, w, actions[..|actions| - 1]);
      TrialsStep(cfg, Run(cfg, w, actions[..|actions| - 1]), actions[|actions| - 1]);
    }
  }
}
