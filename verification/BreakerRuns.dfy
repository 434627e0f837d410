/** Runs in which a call passes too early: one for each of the causes that `AdmissionInTime` allows. All of them
    start with two idle workers and an empty cache, and in none of them is the circuit reset. */
module BreakerRuns {
  import opened BreakerCache
  import opened BreakerWorkers
  import opened BreakerAdmission

  const DEMO: Config := Config(1, 1.0, 2, 10.0)

  /** A world of two workers. */
  function Two(c: Cache, zero: Place, one: Place, now: Time): World {
    World(c, map[0 := zero, 1 := one], now)
  }

  lemma ZeroMoves(c: Cache, zero: Place, one: Place, now: Time)
    ensures var (d, p) := Access(DEMO, c, now, zero);
            Step(DEMO, Two(c, zero, one, now), Move(0)) == Two(d, p, one, now)
  {
    var (d, p) := Access(DEMO, c, now, zero);
    assert map[0 := zero, 1 := one][0 := p] == map[0 := p, 1 := one];
  }

  lemma OneMoves(c: Cache, zero: Place, one: Place, now: Time)
    ensures var (d, p) := Access(DEMO, c, now, one);
            Step(DEMO, Two(c, zero, one, now), Move(1)) == Two(d, zero, p, now)
  {
    var (d, p) := Access(DEMO, c, now, one);
    assert map[0 := zero, 1 := one][1 := p] == map[0 := zero, 1 := p];
  }

  lemma BothStart(c: Cache, zero: Place, one: Place, now: Time, call: Method)
    ensures zero.Idle? ==> Step(DEMO, Two(c, zero, one, now), Start(0, call)) == Two(c, Entry(call), one, now)
    ensures one.Idle? ==> Step(DEMO, Two(c, zero, one, now), Start(1, call)) == Two(c, zero, Entry(call), now)
  {
    assert map[0 := zero, 1 := one][0 := Entry(call)] == map[0 := Entry(call), 1 := one];
    assert map[0 := zero, 1 := one][1 := Entry(call)] == map[0 := zero, 1 := Entry(call)];
  }

  /** Worker 0 records a failure: in an empty cache the count misses and starts at one. */
  lemma DemoCounts(c: Cache)
    requires c == EMPTY
    ensures Run(DEMO, Two(c, Idle, Idle, 1.0), [Start(0, RecordFailure), Move(0), Move(0), Move(0)]) ==
            Two(c.(failures := Held(1, 11.0)), FailureWeigh(1), Idle, 1.0)
  {
    BothStart(c, Idle, Idle, 1.0, RecordFailure);
    ZeroMoves(c, FailureReadState, Idle, 1.0);
    ZeroMoves(c, FailureCount, Idle, 1.0);
    ZeroMoves(c, FailureFirst, Idle, 1.0);
    Path([Two(c, Idle, Idle, 1.0), Two(c, FailureReadState, Idle, 1.0), Two(c, FailureCount, Idle, 1.0),
          Two(c, FailureFirst, Idle, 1.0), Two(c.(failures := Held(1, 11.0)), FailureWeigh(1), Idle, 1.0)],
         [Start(0, RecordFailure), Move(0), Move(0), Move(0)]);
  }

  /** One failure is enough here: it opens the circuit. */
  lemma DemoOpens(c: Cache)
    requires c == EMPTY.(failures := Held(1, 11.0))
    ensures Run(DEMO, Two(c, FailureWeigh(1), Idle, 1.0), [Move(0), Move(0), Move(0)]) ==
            Two(Cache(Held(Open, 11.0), Held(1, 11.0), Held(1.0, 11.0), Empty), Idle, Idle, 1.0)
  {
    ZeroMoves(c, FailureWeigh(1), Idle, 1.0);
    ZeroMoves(c, FailureOpen, Idle, 1.0);
    ZeroMoves(c.(state := Held(Open, 11.0)), StampOpenedAt, Idle, 1.0);
    Path([Two(c, FailureWeigh(1), Idle, 1.0), Two(c, FailureOpen, Idle, 1.0),
          Two(c.(state := Held(Open, 11.0)), StampOpenedAt, Idle, 1.0),
          Two(Cache(Held(Open, 11.0), Held(1, 11.0), Held(1.0, 11.0), Empty), Idle, Idle, 1.0)],
         [Move(0), Move(0), Move(0)]);
  }

  /** A run of one call after the other, given world by world. */
  lemma {:induction false} Path(worlds: seq<World>, actions: seq<Action>)
    requires |worlds| == |actions| + 1
    requires forall k :: 0 <= k < |actions| ==> Step(DEMO, worlds[k], actions[k]) == worlds[k + 1]
    ensures Run(DEMO, worlds[0], actions) == worlds[|actions|]
  {
    if actions != [] {
      Path(worlds[..|actions|], actions[..|actions| - 1]);
    }
  }

  /** Two seconds pass. */
  lemma DemoWaits(c: Cache)
    ensures Run(DEMO, Two(c, Idle, Idle, 1.0), [Wait(2.0)]) == Two(c, Idle, Idle, 3.0)
  {
    Path([Two(c, Idle, Idle, 1.0), Two(c, Idle, Idle, 3.0)], [Wait(2.0)]);
  }

  /** Worker 1 reads the old stamp and passes it; it has not written HALF_OPEN yet. */
  lemma DemoPasses(c: Cache, zero: Place)
    requires c.state.Live(3.0) && c.state.value.Open? && c.openedAt == Held(1.0, 11.0)
    ensures Run(DEMO, Two(c, zero, Idle, 3.0), [Start(1, IsAvailable), Move(1), Move(1)]) ==
            Two(c, zero, AvailSetHalfOpen, 3.0)
  {
    BothStart(c, zero, Idle, 3.0, IsAvailable);
    OneMoves(c, zero, AvailReadState, 3.0);
    OneMoves(c, zero, AvailReadOpenedAt, 3.0);
    Path([Two(c, zero, Idle, 3.0), Two(c, zero, AvailReadState, 3.0), Two(c, zero, AvailReadOpenedAt, 3.0),
          Two(c, zero, AvailSetHalfOpen, 3.0)],
         [Start(1, IsAvailable), Move(1), Move(1)]);
  }

  /** Worker 0 probes: the circuit is half-open with one trial taken. */
  lemma DemoProbes(c: Cache, one: Place)
    requires c == Cache(Held(Open, 11.0), Held(1, 11.0), Held(1.0, 11.0), Empty)
    ensures Run(DEMO, Two(c, Idle, one, 3.0), [Start(0, IsAvailable), Move(0), Move(0), Move(0), Move(0), Move(0)]) ==
            Two(c.(state := Held(HalfOpen, 13.0), trials := Held(1, 13.0)), Idle, one, 3.0)
  {
    var half := c.(state := Held(HalfOpen, 13.0));
    BothStart(c, Idle, one, 3.0, IsAvailable);
    ZeroMoves(c, AvailReadState, one, 3.0);
    ZeroMoves(c, AvailReadOpenedAt, one, 3.0);
    ZeroMoves(c, AvailSetHalfOpen, one, 3.0);
    ZeroMoves(half, AvailZeroTrials, one, 3.0);
    ZeroMoves(half.(trials := Held(0, 13.0)), AvailCountTrial, one, 3.0);
    Path([Two(c, Idle, one, 3.0), Two(c, AvailReadState, one, 3.0), Two(c, AvailReadOpenedAt, one, 3.0),
          Two(c, AvailSetHalfOpen, one, 3.0), Two(half, AvailZeroTrials, one, 3.0),
          Two(half.(trials := Held(0, 13.0)), AvailCountTrial, one, 3.0),
          Two(half.(trials := Held(1, 13.0)), Idle, one, 3.0)],
         [Start(0, IsAvailable), Move(0), Move(0), Move(0), Move(0), Move(0)]);
  }

  const OPENED: Cache := Cache(Held(Open, 11.0), Held(1, 11.0), Held(1.0, 11.0), Empty)

  /** One failure opens the circuit at time 1; two seconds pass. */
  lemma DemoBegins() returns (actions: seq<Action>)
    ensures Run(DEMO, Two(EMPTY, Idle, Idle, 1.0), actions) == Two(OPENED, Idle, Idle, 3.0)
  {
    var start := Two(EMPTY, Idle, Idle, 1.0);
    var counting := [Start(0, RecordFailure), Move(0), Move(0), Move(0)];
    var opening := [Move(0), Move(0), Move(0)];
    DemoCounts(EMPTY);
    DemoOpens(Run(DEMO, start, counting).cache);
    RunJoin(DEMO, start, counting, opening);
    DemoWaits(OPENED);
    RunJoin(DEMO, start, counting + opening, [Wait(2.0)]);
    actions := counting + opening + [Wait(2.0)];
  }

  lemma Onward(actions: seq<Action>, w: World, more: seq<Action>, d: World) returns (all: seq<Action>)
    requires Run(DEMO, Two(EMPTY, Idle, Idle, 1.0), actions) == w && Run(DEMO, w, more) == d
    ensures Run(DEMO, Two(EMPTY, Idle, Idle, 1.0), all) == d
  {
    RunJoin(DEMO, Two(EMPTY, Idle, Idle, 1.0), actions, more);
    all := actions + more;
  }

  const HALF: Cache := OPENED.(state := Held(HalfOpen, 13.0), trials := Held(1, 13.0))

  ghost predicate Reachable(w: World) {
    exists actions :: Run(DEMO, Two(EMPTY, Idle, Idle, 1.0), actions) == w
  }

  lemma Reaches(w: World, more: seq<Action>, d: World)
    requires Reachable(w) && Run(DEMO, w, more) == d
    ensures Reachable(d)
  {
    var actions :| Run(DEMO, Two(EMPTY, Idle, Idle, 1.0), actions) == w;
    var all := Onward(actions, w, more, d);
  }

  /** Worker 0 has probed: the circuit is half-open, worker 1 wherever it was at the time. */
  lemma HalfOpenReached()
    ensures Reachable(Two(OPENED, Idle, Idle, 3.0)) && Reachable(Two(HALF, Idle, Idle, 3.0))
    ensures Reachable(Two(HALF, Idle, AvailSetHalfOpen, 3.0))
  {
    var begun := DemoBegins();
    assert Reachable(Two(OPENED, Idle, Idle, 3.0));
    var probing := [Start(0, IsAvailable), Move(0), Move(0), Move(0), Move(0), Move(0)];
    DemoProbes(OPENED, Idle);
    Reaches(Two(OPENED, Idle, Idle, 3.0), probing, Two(HALF, Idle, Idle, 3.0));
    DemoPasses(OPENED, Idle);
    Reaches(Two(OPENED, Idle, Idle, 3.0), [Start(1, IsAvailable), Move(1), Move(1)],
            Two(OPENED, Idle, AvailSetHalfOpen, 3.0));
    DemoProbes(OPENED, AvailSetHalfOpen);
    Reaches(Two(OPENED, Idle, AvailSetHalfOpen, 3.0), probing, Two(HALF, Idle, AvailSetHalfOpen, 3.0));
  }

  /** A failure reported while the circuit is half-open is about to reopen it. */
  lemma AboutToReopen(zero: Place, one: Place)
    requires Reachable(Two(HALF, zero, one, 3.0))
    ensures zero.Idle? ==> Reachable(Two(HALF, FailureReopen, one, 3.0))
    ensures one.Idle? ==> Reachable(Two(HALF, zero, FailureReopen, 3.0))
  {
    BothStart(HALF, zero, one, 3.0, RecordFailure);
    if zero.Idle? {
      ZeroMoves(HALF, FailureReadState, one, 3.0);
      Path([Two(HALF, zero, one, 3.0), Two(HALF, FailureReadState, one, 3.0), Two(HALF, FailureReopen, one, 3.0)],
           [Start(0, RecordFailure), Move(0)]);
      Reaches(Two(HALF, zero, one, 3.0), [Start(0, RecordFailure), Move(0)], Two(HALF, FailureReopen, one, 3.0));
    }
    if one.Idle? {
      OneMoves(HALF, zero, FailureReadState, 3.0);
      Path([Two(HALF, zero, one, 3.0), Two(HALF, zero, FailureReadState, 3.0), Two(HALF, zero, FailureReopen, 3.0)],
           [Start(1, RecordFailure), Move(1)]);
      Reaches(Two(HALF, zero, one, 3.0), [Start(1, RecordFailure), Move(1)], Two(HALF, zero, FailureReopen, 3.0));
    }
  }

  /** The run begins with an opening and ends with an admission, the recovery time not over and no reset between. */
  ghost predicate Early(w: World, actions: seq<Action>) {
    && |actions| > 1 && Reachable(w) && Opening(w, actions[0])
    && Admits(Run(DEMO, w, actions[..|actions| - 1]), actions[|actions| - 1])
    && Run(DEMO, w, actions[..|actions| - 1]).now < w.now + DEMO.recovery
    && (forall m :: 0 < m < |actions| - 1 ==> !ResetsAt(DEMO, w, actions, m))
  }

  // ---------------------------------------------------------------------------------- tapes

  /** A run of the two workers at time 3, written down: the cache and the places before each action. */
  datatype Tape = Tape(actions: seq<Action>, zeros: seq<Place>, ones: seq<Place>, caches: seq<Cache>)

  predicate Whole(t: Tape) {
    1 < |t.actions| == |t.zeros| == |t.ones| == |t.caches|
  }

  function WorldAt(t: Tape, n: nat): World
    requires Whole(t) && n < |t.actions|
  {
    Two(t.caches[n], t.zeros[n], t.ones[n], 3.0)
  }

  ghost predicate Course(t: Tape) {
    Whole(t) && forall n :: 0 <= n < |t.actions| ==> Run(DEMO, WorldAt(t, 0), t.actions[..n]) == WorldAt(t, n)
  }

  predicate GoesOn(t: Tape, n: nat)
    requires Whole(t) && n + 1 < |t.actions|
  {
    Step(DEMO, WorldAt(t, n), t.actions[n]) == WorldAt(t, n + 1)
  }

  lemma {:induction false} CourseUntil(t: Tape, n: nat)
    requires Whole(t) && n < |t.actions| && forall k :: 0 <= k < |t.actions| - 1 ==> GoesOn(t, k)
    ensures Run(DEMO, WorldAt(t, 0), t.actions[..n]) == WorldAt(t, n)
  {
    if n > 0 {
      CourseUntil(t, n - 1);
      assert GoesOn(t, n - 1);
      RunStep(DEMO, WorldAt(t, 0), t.actions, n - 1);
    }
  }

  lemma CourseOf(t: Tape)
    requires Whole(t) && forall k :: 0 <= k < |t.actions| - 1 ==> GoesOn(t, k)
    ensures Course(t)
  {
    forall n | 0 <= n < |t.actions| ensures Run(DEMO, WorldAt(t, 0), t.actions[..n]) == WorldAt(t, n) {
      CourseUntil(t, n);
    }
  }

  /** Worker k's place before action n. */
  function PlaceAt(t: Tape, n: nat, k: nat): Place
    requires Whole(t) && n < |t.actions|
  {
    if k == 0 then t.zeros[n] else if k == 1 then t.ones[n] else Idle
  }

  predicate Acts(t: Tape, n: nat, p: Place)
    requires Whole(t) && n < |t.actions|
  {
    t.actions[n].Move? && t.actions[n].worker <= 1 && PlaceAt(t, n, t.actions[n].worker) == p
  }

  lemma ActsMeaning(t: Tape, n: nat, p: Place)
    requires Whole(t) && n < |t.actions|
    ensures Moves(WorldAt(t, n), t.actions[n], p) <==> Acts(t, n, p)
  {
  }

  lemma InMeaning(t: Tape, n: nat, k: nat, places: set<Place>)
    requires Whole(t) && n < |t.actions| && k <= 1
    ensures IsIn(WorldAt(t, n), k, places) <==> PlaceAt(t, n, k) in places
  {
  }

  lemma EarlyFrom(t: Tape)
    requires Course(t) && Reachable(WorldAt(t, 0)) && Acts(t, 0, FailureReopen)
    requires Admits(WorldAt(t, |t.actions| - 1), t.actions[|t.actions| - 1])
    requires forall m :: 0 < m < |t.actions| - 1 ==> !Acts(t, m, ResetSetClosed)
    ensures Early(WorldAt(t, 0), t.actions)
  {
    ActsMeaning(t, 0, FailureReopen);
    forall m | 0 < m < |t.actions| - 1 ensures !ResetsAt(DEMO, WorldAt(t, 0), t.actions, m) {
      ActsMeaning(t, m, ResetSetClosed);
    }
  }

  lemma NoPass(t: Tape)
    requires Course(t) && forall m :: 0 < m < |t.actions| - 1 ==> !Acts(t, m, AvailSetHalfOpen)
    ensures forall m :: 0 < m < |t.actions| - 1 ==>
              !LatePass(DEMO, WorldAt(t, 0), t.actions, m) && !UnstampedPass(DEMO, WorldAt(t, 0), t.actions, m)
  {
    forall m | 0 < m < |t.actions| - 1 ensures !Moves(WorldAt(t, m), t.actions[m], AvailSetHalfOpen) {
      ActsMeaning(t, m, AvailSetHalfOpen);
    }
  }

  lemma NoClose(t: Tape)
    requires Course(t) && forall m :: 0 < m < |t.actions| - 1 ==> !Acts(t, m, SuccessSetClosed)
    ensures forall m :: 0 < m < |t.actions| - 1 ==> !LateClose(DEMO, WorldAt(t, 0), t.actions, m)
  {
    forall m | 0 < m < |t.actions| - 1 ensures !Moves(WorldAt(t, m), t.actions[m], SuccessSetClosed) {
      ActsMeaning(t, m, SuccessSetClosed);
    }
  }

  /** Acting on nothing read before the opening: at the opening the worker stood elsewhere. */
  lemma NotStill(t: Tape, m: nat, k: nat, places: set<Place>)
    requires Course(t) && m < |t.actions| && k <= 1 && PlaceAt(t, 0, k) !in places
    ensures !Still(DEMO, WorldAt(t, 0), t.actions, 0, m, k, places)
  {
    InMeaning(t, 0, k, places);
    assert !IsIn(Run(DEMO, WorldAt(t, 0), t.actions[..0]), k, places);
  }

  lemma StillThere(t: Tape, n: nat, m: nat, k: nat, places: set<Place>)
    requires Course(t) && m < |t.actions| && k <= 1 && forall i :: n <= i <= m ==> PlaceAt(t, i, k) in places
    ensures Still(DEMO, WorldAt(t, 0), t.actions, n, m, k, places)
  {
    forall i | n <= i <= m ensures IsIn(Run(DEMO, WorldAt(t, 0), t.actions[..i]), k, places) {
      InMeaning(t, i, k, places);
    }
  }

  lemma NoLatePass(t: Tape)
    requires Course(t) && !t.zeros[0].AvailSetHalfOpen? && !t.ones[0].AvailSetHalfOpen?
    ensures forall m :: 0 < m < |t.actions| - 1 ==> !LatePass(DEMO, WorldAt(t, 0), t.actions, m)
  {
    forall m | 0 < m < |t.actions| - 1 ensures !LatePass(DEMO, WorldAt(t, 0), t.actions, m) {
      ActsMeaning(t, m, AvailSetHalfOpen);
      if Acts(t, m, AvailSetHalfOpen) {
        NotStill(t, m, t.actions[m].worker, {AvailSetHalfOpen});
      }
    }
  }

  lemma NoUnstampedPass(t: Tape)
    requires Course(t) && forall n :: 0 < n < |t.actions| - 1 ==> !Acts(t, n, AvailReadOpenedAt)
    ensures forall m :: 0 < m < |t.actions| - 1 ==> !UnstampedPass(DEMO, WorldAt(t, 0), t.actions, m)
  {
    forall n | 0 < n < |t.actions| - 1 ensures !Moves(WorldAt(t, n), t.actions[n], AvailReadOpenedAt) {
      ActsMeaning(t, n, AvailReadOpenedAt);
    }
  }

  // ---------------------------------------------------------------------------------- single steps at time 3

  function Written(c: Cache, s: State): Cache {
    c.(state := Held(s, 13.0))
  }

  function Stamped(c: Cache): Cache {
    c.(openedAt := Held(3.0, 13.0))
  }

  function Zeroed(c: Cache): Cache {
    c.(trials := Held(0, 13.0))
  }

  /** Where each place leads at time 3, in the caches that occur here. */
  lemma Leads(c: Cache)
    ensures Access(DEMO, c, 3.0, FailureReopen) == (Written(c, Open), StampOpenedAt)
    ensures Access(DEMO, c, 3.0, StampOpenedAt) == (Stamped(c), Idle)
    ensures Access(DEMO, c, 3.0, AvailSetHalfOpen) == (Written(c, HalfOpen), AvailZeroTrials)
    ensures Access(DEMO, c, 3.0, AvailZeroTrials) == (Zeroed(c), AvailCountTrial)
    ensures Access(DEMO, c, 3.0, SuccessSetClosed) == (Written(c, Closed), SuccessZeroAfterClose)
    ensures c.state.Live(3.0) && c.state.value.Open? ==> Access(DEMO, c, 3.0, AvailReadState) == (c, AvailReadOpenedAt)
    ensures c.openedAt == Held(1.0, 11.0) ==> Access(DEMO, c, 3.0, AvailReadOpenedAt) == (c, AvailSetHalfOpen)
    ensures c.trials == Held(1, 13.0) ==> Access(DEMO, c, 3.0, AvailReadTrials) == (c, AvailCountTrial)
  {
  }

  lemma Zero(c: Cache, zero: Place, one: Place, d: Cache, p: Place)
    requires Access(DEMO, c, 3.0, zero) == (d, p)
    ensures Step(DEMO, Two(c, zero, one, 3.0), Move(0)) == Two(d, p, one, 3.0)
  {
    ZeroMoves(c, zero, one, 3.0);
  }

  lemma One(c: Cache, zero: Place, one: Place, d: Cache, p: Place)
    requires Access(DEMO, c, 3.0, one) == (d, p)
    ensures Step(DEMO, Two(c, zero, one, 3.0), Move(1)) == Two(d, zero, p, 3.0)
  {
    OneMoves(c, zero, one, 3.0);
  }

  // ---------------------------------------------------------------------------------- the four causes

  /** A half-open circuit with one trial taken, and the old stamp. */
  predicate Half(c: Cache) {
    c.trials == Held(1, 13.0) && c.openedAt == Held(1.0, 11.0)
  }

  function UnstampedTape(c: Cache): Tape {
    var open := Written(c, Open);
    var half := Written(open, HalfOpen);
    Tape([Move(0), Start(1, IsAvailable), Move(1), Move(1), Move(1), Move(1), Move(1)],
         [FailureReopen, StampOpenedAt, StampOpenedAt, StampOpenedAt, StampOpenedAt, StampOpenedAt, StampOpenedAt],
         [Idle, Idle, AvailReadState, AvailReadOpenedAt, AvailSetHalfOpen, AvailZeroTrials, AvailCountTrial],
         [c, open, open, open, open, half, Zeroed(half)])
  }

  lemma UnstampedCourse(c: Cache)
    requires Half(c)
    ensures Course(UnstampedTape(c))
  {
    var t := UnstampedTape(c);
    var open := Written(c, Open);
    var half := Written(open, HalfOpen);
    Leads(c);
    Leads(open);
    Leads(half);
    forall k | 0 <= k < |t.actions| - 1 ensures GoesOn(t, k) {
      if k == 0 { Zero(c, FailureReopen, Idle, open, StampOpenedAt); }
      if k == 1 { BothStart(open, StampOpenedAt, Idle, 3.0, IsAvailable); }
      if k == 2 { One(open, StampOpenedAt, AvailReadState, open, AvailReadOpenedAt); }
      if k == 3 { One(open, StampOpenedAt, AvailReadOpenedAt, open, AvailSetHalfOpen); }
      if k == 4 { One(open, StampOpenedAt, AvailSetHalfOpen, half, AvailZeroTrials); }
      if k == 5 { One(half, StampOpenedAt, AvailZeroTrials, Zeroed(half), AvailCountTrial); }
    }
    CourseOf(t);
  }

  lemma UnstampedAtFour(c: Cache)
    requires Half(c)
    ensures UnstampedPass(DEMO, WorldAt(UnstampedTape(c), 0), UnstampedTape(c).actions, 4)
  {
    var t := UnstampedTape(c);
    var w := WorldAt(t, 0);
    UnstampedCourse(c);
    ActsMeaning(t, 4, AvailSetHalfOpen);
    StillThere(t, 4, 4, 1, {AvailSetHalfOpen});
    InMeaning(t, 3, 0, {StampOpenedAt});
    InMeaning(t, 3, 1, {AvailReadOpenedAt});
    InMeaning(t, 4, 1, {AvailSetHalfOpen});
    RunStep(DEMO, w, t.actions, 3);
    assert StandsAt(WorldAt(t, 3), 0, StampOpenedAt);
    assert ReadUnstamped(DEMO, Run(DEMO, w, t.actions[..3]), t.actions[3], 1);
  }

  /** A stamp read between the two writes of the opening. */
  lemma EarlyByUnstampedPass() returns (w: World, actions: seq<Action>)
    ensures Early(w, actions)
    ensures exists m :: 0 < m < |actions| - 1 && UnstampedPass(DEMO, w, actions, m)
    ensures forall m :: 0 < m < |actions| - 1 ==> !LatePass(DEMO, w, actions, m) && !LateClose(DEMO, w, actions, m)
    ensures !LateTrial(DEMO, w, actions, |actions| - 1)
  {
    HalfOpenReached();
    AboutToReopen(Idle, Idle);
    w, actions := UnstampedEarly(HALF);
  }

  lemma UnstampedEarly(c: Cache) returns (w: World, actions: seq<Action>)
    requires Half(c) && Reachable(Two(c, FailureReopen, Idle, 3.0))
    ensures Early(w, actions)
    ensures exists m :: 0 < m < |actions| - 1 && UnstampedPass(DEMO, w, actions, m)
    ensures forall m :: 0 < m < |actions| - 1 ==> !LatePass(DEMO, w, actions, m) && !LateClose(DEMO, w, actions, m)
    ensures !LateTrial(DEMO, w, actions, |actions| - 1)
  {
    var t := UnstampedTape(c);
    w, actions := WorldAt(t, 0), t.actions;
    UnstampedCourse(c);
    EarlyFrom(t);
    NoLatePass(t);
    NoClose(t);
    NotStill(t, 6, 1, ON_TRIAL);
    UnstampedAtFour(c);
  }

  function LatePassTape(c: Cache): Tape {
    var open := Written(c, Open);
    var half := Written(Stamped(open), HalfOpen);
    Tape([Move(0), Move(0), Move(1), Move(1), Move(1)],
         [FailureReopen, StampOpenedAt, Idle, Idle, Idle],
         [AvailSetHalfOpen, AvailSetHalfOpen, AvailSetHalfOpen, AvailZeroTrials, AvailCountTrial],
         [c, open, Stamped(open), half, Zeroed(half)])
  }

  lemma LatePassCourse(c: Cache)
    ensures Course(LatePassTape(c))
  {
    var t := LatePassTape(c);
    var open := Written(c, Open);
    var half := Written(Stamped(open), HalfOpen);
    Leads(c);
    Leads(open);
    Leads(Stamped(open));
    Leads(half);
    forall k | 0 <= k < |t.actions| - 1 ensures GoesOn(t, k) {
      if k == 0 { Zero(c, FailureReopen, AvailSetHalfOpen, open, StampOpenedAt); }
      if k == 1 { Zero(open, StampOpenedAt, AvailSetHalfOpen, Stamped(open), Idle); }
      if k == 2 { One(Stamped(open), Idle, AvailSetHalfOpen, half, AvailZeroTrials); }
      if k == 3 { One(half, Idle, AvailZeroTrials, Zeroed(half), AvailCountTrial); }
    }
    CourseOf(t);
  }

  /** HALF_OPEN written, after both writes of the opening, by a worker that had passed the old stamp. */
  lemma EarlyByLatePass() returns (w: World, actions: seq<Action>)
    ensures Early(w, actions)
    ensures exists m :: 0 < m < |actions| - 1 && LatePass(DEMO, w, actions, m)
    ensures forall m :: 0 < m < |actions| - 1 ==> !UnstampedPass(DEMO, w, actions, m) && !LateClose(DEMO, w, actions, m)
    ensures !LateTrial(DEMO, w, actions, |actions| - 1)
  {
    HalfOpenReached();
    AboutToReopen(Idle, AvailSetHalfOpen);
    w, actions := LatePassEarly(HALF);
  }

  lemma LatePassEarly(c: Cache) returns (w: World, actions: seq<Action>)
    requires Reachable(Two(c, FailureReopen, AvailSetHalfOpen, 3.0))
    ensures Early(w, actions)
    ensures exists m :: 0 < m < |actions| - 1 && LatePass(DEMO, w, actions, m)
    ensures forall m :: 0 < m < |actions| - 1 ==> !UnstampedPass(DEMO, w, actions, m) && !LateClose(DEMO, w, actions, m)
    ensures !LateTrial(DEMO, w, actions, |actions| - 1)
  {
    var t := LatePassTape(c);
    w, actions := WorldAt(t, 0), t.actions;
    LatePassCourse(c);
    EarlyFrom(t);
    NoUnstampedPass(t);
    NoClose(t);
    NotStill(t, 4, 1, ON_TRIAL);
    StillThere(t, 0, 2, 1, {AvailSetHalfOpen});
    ActsMeaning(t, 2, AvailSetHalfOpen);
    assert LatePass(DEMO, w, actions, 2);
  }

  function LateCloseTape(c: Cache): Tape {
    var open := Written(c, Open);
    var closed := Written(Stamped(open), Closed);
    Tape([Move(1), Move(1), Move(0), Start(1, IsAvailable), Move(1)],
         [SuccessSetClosed, SuccessSetClosed, SuccessSetClosed, SuccessZeroAfterClose, SuccessZeroAfterClose],
         [FailureReopen, StampOpenedAt, Idle, Idle, AvailReadState],
         [c, open, Stamped(open), closed, closed])
  }

  lemma LateCloseCourse(c: Cache)
    ensures Course(LateCloseTape(c))
  {
    var t := LateCloseTape(c);
    var open := Written(c, Open);
    var closed := Written(Stamped(open), Closed);
    Leads(c);
    Leads(open);
    Leads(Stamped(open));
    forall k | 0 <= k < |t.actions| - 1 ensures GoesOn(t, k) {
      if k == 0 { One(c, SuccessSetClosed, FailureReopen, open, StampOpenedAt); }
      if k == 1 { One(open, SuccessSetClosed, StampOpenedAt, Stamped(open), Idle); }
      if k == 2 { Zero(Stamped(open), SuccessSetClosed, Idle, closed, SuccessZeroAfterClose); }
      if k == 3 { BothStart(closed, SuccessZeroAfterClose, Idle, 3.0, IsAvailable); }
    }
    CourseOf(t);
  }

  /** CLOSED written over the opening by a success whose worker had read HALF_OPEN; the next call reads CLOSED. */
  lemma EarlyByLateClose() returns (w: World, actions: seq<Action>)
    ensures Early(w, actions)
    ensures exists m :: 0 < m < |actions| - 1 && LateClose(DEMO, w, actions, m)
    ensures forall m :: 0 < m < |actions| - 1 ==> !LatePass(DEMO, w, actions, m) && !UnstampedPass(DEMO, w, actions, m)
    ensures !LateTrial(DEMO, w, actions, |actions| - 1)
  {
    HalfOpenReached();
    HalfOpenRead(RecordSuccess, SuccessReadState, SuccessSetClosed);
    AboutToReopen(SuccessSetClosed, Idle);
    w, actions := LateCloseEarly(HALF);
  }

  /** Worker 0 starts a call and reads HALF_OPEN. */
  lemma HalfOpenRead(call: Method, start: Place, next: Place)
    requires start == Entry(call) && Access(DEMO, HALF, 3.0, start) == (HALF, next)
    requires Reachable(Two(HALF, Idle, Idle, 3.0))
    ensures Reachable(Two(HALF, next, Idle, 3.0))
  {
    BothStart(HALF, Idle, Idle, 3.0, call);
    Zero(HALF, start, Idle, HALF, next);
    Path([Two(HALF, Idle, Idle, 3.0), Two(HALF, start, Idle, 3.0), Two(HALF, next, Idle, 3.0)],
         [Start(0, call), Move(0)]);
    Reaches(Two(HALF, Idle, Idle, 3.0), [Start(0, call), Move(0)], Two(HALF, next, Idle, 3.0));
  }

  lemma LateCloseEarly(c: Cache) returns (w: World, actions: seq<Action>)
    requires Reachable(Two(c, SuccessSetClosed, FailureReopen, 3.0))
    ensures Early(w, actions)
    ensures exists m :: 0 < m < |actions| - 1 && LateClose(DEMO, w, actions, m)
    ensures forall m :: 0 < m < |actions| - 1 ==> !LatePass(DEMO, w, actions, m) && !UnstampedPass(DEMO, w, actions, m)
    ensures !LateTrial(DEMO, w, actions, |actions| - 1)
  {
    var t := LateCloseTape(c);
    w, actions := WorldAt(t, 0), t.actions;
    LateCloseCourse(c);
    EarlyFrom(t);
    NoPass(t);
    NotStill(t, 4, 1, ON_TRIAL);
    StillThere(t, 0, 2, 0, {SuccessSetClosed});
    ActsMeaning(t, 2, SuccessSetClosed);
    assert LateClose(DEMO, w, actions, 2);
  }

  function LateTrialTape(c: Cache): Tape {
    var open := Written(c, Open);
    Tape([Move(1), Move(1), Move(0), Move(0)],
         [AvailReadTrials, AvailReadTrials, AvailReadTrials, AvailCountTrial],
         [FailureReopen, StampOpenedAt, Idle, Idle],
         [c, open, Stamped(open), Stamped(open)])
  }

  lemma LateTrialCourse(c: Cache)
    requires Half(c)
    ensures Course(LateTrialTape(c))
  {
    var t := LateTrialTape(c);
    var open := Written(c, Open);
    Leads(c);
    Leads(open);
    Leads(Stamped(open));
    forall k | 0 <= k < |t.actions| - 1 ensures GoesOn(t, k) {
      if k == 0 { One(c, AvailReadTrials, FailureReopen, open, StampOpenedAt); }
      if k == 1 { One(open, AvailReadTrials, StampOpenedAt, Stamped(open), Idle); }
      if k == 2 { Zero(Stamped(open), AvailReadTrials, Idle, Stamped(open), AvailCountTrial); }
    }
    CourseOf(t);
  }

  /** A trial counted, and admitted, in an OPEN circuit by a call that had read HALF_OPEN. */
  lemma EarlyByLateTrial() returns (w: World, actions: seq<Action>)
    ensures Early(w, actions)
    ensures LateTrial(DEMO, w, actions, |actions| - 1)
    ensures Run(DEMO, w, actions[..|actions| - 1]).cache.state == Held(Open, w.now + DEMO.ttl)
    ensures forall m :: 0 < m < |actions| - 1 ==> !Disturbs(DEMO, w, actions, m)
  {
    HalfOpenReached();
    HalfOpenRead(IsAvailable, AvailReadState, AvailReadTrials);
    AboutToReopen(AvailReadTrials, Idle);
    w, actions := LateTrialEarly(HALF);
  }

  lemma LateTrialEarly(c: Cache) returns (w: World, actions: seq<Action>)
    requires Half(c) && Reachable(Two(c, AvailReadTrials, FailureReopen, 3.0))
    ensures Early(w, actions)
    ensures LateTrial(DEMO, w, actions, |actions| - 1)
    ensures Run(DEMO, w, actions[..|actions| - 1]).cache.state == Held(Open, w.now + DEMO.ttl)
    ensures forall m :: 0 < m < |actions| - 1 ==> !Disturbs(DEMO, w, actions, m)
  {
    var t := LateTrialTape(c);
    w, actions := WorldAt(t, 0), t.actions;
    LateTrialCourse(c);
    EarlyFrom(t);
    NoPass(t);
    NoClose(t);
    StillThere(t, 0, 3, 0, ON_TRIAL);
  }

  // ---------------------------------------------------------------------------------- more trials than allowed

  /** Two workers both find one trial taken where two are allowed, and both count theirs: three, which is as many
      as `TrialsBounded` admits. */
  lemma TrialsOverrun()
    ensures DEMO.maxTrials == 2 && Reachable(Two(HALF.(trials := Held(3, 13.0)), Idle, Idle, 3.0))
  {
    HalfOpenReached();
    ThreeTrials(HALF);
  }

  lemma ThreeTrials(c: Cache)
    requires c.state == Held(HalfOpen, 13.0) && c.trials == Held(1, 13.0) && Reachable(Two(c, Idle, Idle, 3.0))
    ensures Reachable(Two(c.(trials := Held(3, 13.0)), Idle, Idle, 3.0))
  {
    var two, three := c.(trials := Held(2, 13.0)), c.(trials := Held(3, 13.0));
    var worlds := [Two(c, Idle, Idle, 3.0), Two(c, AvailReadState, Idle, 3.0), Two(c, AvailReadTrials, Idle, 3.0),
                   Two(c, AvailCountTrial, Idle, 3.0), Two(c, AvailCountTrial, AvailReadState, 3.0),
                   Two(c, AvailCountTrial, AvailReadTrials, 3.0), Two(c, AvailCountTrial, AvailCountTrial, 3.0),
                   Two(two, Idle, AvailCountTrial, 3.0), Two(three, Idle, Idle, 3.0)];
    var actions := [Start(0, IsAvailable), Move(0), Move(0), Start(1, IsAvailable), Move(1), Move(1), Move(0), Move(1)];
    forall k | 0 <= k < |actions| ensures Step(DEMO, worlds[k], actions[k]) == worlds[k + 1] {
      if k == 0 { BothStart(c, Idle, Idle, 3.0, IsAvailable); }
      if k == 1 { Zero(c, AvailReadState, Idle, c, AvailReadTrials); }
      if k == 2 { Zero(c, AvailReadTrials, Idle, c, AvailCountTrial); }
      if k == 3 { BothStart(c, AvailCountTrial, Idle, 3.0, IsAvailable); }
      if k == 4 { One(c, AvailCountTrial, AvailReadState, c, AvailReadTrials); }
      if k == 5 { One(c, AvailCountTrial, AvailReadTrials, c, AvailCountTrial); }
      if k == 6 { Zero(c, AvailCountTrial, AvailCountTrial, two, Idle); }
      if k == 7 { One(two, Idle, AvailCountTrial, three, Idle); }
    }
    Path(worlds, actions);
    Reaches(worlds[0], actions, worlds[8]);
  }
}
