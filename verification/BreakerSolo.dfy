/** A worker left alone through a whole call does in its single steps what the atomic method does at once. */
module BreakerSolo {
  import opened BreakerCache
  import opened BreakerWorkers
  import A = BreakerAdmission
  import B = Breaker

  /** No call takes more cache accesses and comparisons than this. */
  const LONGEST: nat := 6

  function Atomic(cfg: Config, c: Cache, now: Time, call: Method): Cache {
    match call
    case IsAvailable => B.IsAvailable(cfg, c, now).0
    case RecordSuccess => B.RecordSuccess(cfg, c, now)
    case RecordFailure => B.RecordFailure(cfg, c, now)
    case Reset => B.Reset(cfg, c, now)
  }

  /** Cache and place after n accesses. */
  function After(cfg: Config, c: Cache, now: Time, p: Place, n: nat): (Cache, Place) {
    if n == 0 then (c, p)
    else
      var (d, q) := After(cfg, c, now, p, n - 1);
      Access(cfg, d, now, q)
  }

  lemma {:induction false} MovesAlone(cfg: Config, w: World, k: nat, n: nat)
    requires k in w.places
    ensures var (d, q) := After(cfg, w.cache, w.now, w.places[k], n);
            Run(cfg, w, seq(n, _ => Move(k))) == World(d, w.places[k := q], w.now)
  {
    var moves := seq(n, _ => Move(k));
    if n == 0 {
      assert w.places[k := w.places[k]] == w.places;
    } else {
      MovesAlone(cfg, w, k, n - 1);
      assert moves[..n - 1] == seq(n - 1, _ => Move(k));
    }
  }

  lemma Six(cfg: Config, c: Cache, now: Time, p: Place)
    ensures var (c1, p1) := Access(cfg, c, now, p);
            var (c2, p2) := Access(cfg, c1, now, p1);
            var (c3, p3) := Access(cfg, c2, now, p2);
            var (c4, p4) := Access(cfg, c3, now, p3);
            var (c5, p5) := Access(cfg, c4, now, p4);
            && After(cfg, c, now, p, 1) == (c1, p1) && After(cfg, c, now, p, 2) == (c2, p2)
            && After(cfg, c, now, p, 3) == (c3, p3) && After(cfg, c, now, p, 4) == (c4, p4)
            && After(cfg, c, now, p, 5) == (c5, p5) && After(cfg, c, now, p, 6) == Access(cfg, c5, now, p5)
  {
    assert After(cfg, c, now, p, 0) == (c, p);
    assert After(cfg, c, now, p, 1) == Access(cfg, c, now, p);
    assert After(cfg, c, now, p, 2) == (var (d, q) := After(cfg, c, now, p, 1); Access(cfg, d, now, q));
    assert After(cfg, c, now, p, 3) == (var (d, q) := After(cfg, c, now, p, 2); Access(cfg, d, now, q));
    assert After(cfg, c, now, p, 4) == (var (d, q) := After(cfg, c, now, p, 3); Access(cfg, d, now, q));
    assert After(cfg, c, now, p, 5) == (var (d, q) := After(cfg, c, now, p, 4); Access(cfg, d, now, q));
  }

  lemma CallAlone(cfg: Config, c: Cache, now: Time, call: Method)
    ensures After(cfg, c, now, Entry(call), LONGEST) == (Atomic(cfg, c, now, call), Idle)
  {
    Six(cfg, c, now, Entry(call));
  }

  /** Any call of any worker, run without interference, leaves the cache the atomic method leaves, and the worker idle:
      so the two models of the breaker are one, apart from the interleaving. */
  lemma SoloIsAtomic(cfg: Config, w: World, k: nat, call: Method)
    requires k in w.places && w.places[k].Idle?
    ensures Run(cfg, w, [Start(k, call)] + seq(LONGEST, _ => Move(k))) ==
            w.(cache := Atomic(cfg, w.cache, w.now, call))
  {
    var started := w.(places := w.places[k := Entry(call)]);
    var moves := seq(LONGEST, _ => Move(k));
    assert Run(cfg, w, [Start(k, call)]) == started by {
      assert [Start(k, call)][..0] == [];
    }
    RunJoin(cfg, w, [Start(k, call)], moves);
    MovesAlone(cfg, started, k, LONGEST);
    CallAlone(cfg, w.cache, w.now, call);
    assert w.places[k := Entry(call)][k := Idle] == w.places;
  }

  /** `is_available` returns True at the m-th step of worker k's moves. */
  ghost predicate AdmitsInRun(cfg: Config, w: World, k: nat, m: nat) {
    A.Admits(Run(cfg, w, seq(m, _ => Move(k))), Move(k))
  }

  /** And it admits the call at one of its steps exactly when the atomic method answers yes. */
  lemma SoloAnswers(cfg: Config, w: World, k: nat)
    requires A.StandsAt(w, k, AvailReadState)
    ensures B.IsAvailable(cfg, w.cache, w.now).1 <==> exists m :: 0 <= m < LONGEST && AdmitsInRun(cfg, w, k, m)
  {
    forall m | 0 <= m < LONGEST ensures AdmitsInRun(cfg, w, k, m) <==> AdmitsAfter(cfg, w.cache, w.now, m) {
      MovesAlone(cfg, w, k, m);
    }
    AnswersAlone(cfg, w.cache, w.now);
  }

  predicate AdmitsAt(c: Cache, now: Time, p: Place) {
    match p
    case AvailReadState => Get(c.state, now, Closed).Closed?
    case AvailCountTrial => c.trials.Live(now)
    case AvailFirstTrial => true
    case _ => false
  }

  predicate AdmitsAfter(cfg: Config, c: Cache, now: Time, m: nat) {
    var (d, q) := After(cfg, c, now, AvailReadState, m); AdmitsAt(d, now, q)
  }

  lemma AnswersAlone(cfg: Config, c: Cache, now: Time)
    ensures B.IsAvailable(cfg, c, now).1 <==> exists m :: 0 <= m < LONGEST && AdmitsAfter(cfg, c, now, m)
  {
    Six(cfg, c, now, AvailReadState);
    assert After(cfg, c, now, AvailReadState, 0) == (c, AvailReadState);
    if B.IsAvailable(cfg, c, now).1 {
      assert AdmitsAfter(cfg, c, now, 0) || AdmitsAfter(cfg, c, now, 2) || AdmitsAfter(cfg, c, now, 3)
             || AdmitsAfter(cfg, c, now, 4) || AdmitsAfter(cfg, c, now, 5);
    } else {
      assert !AdmitsAfter(cfg, c, now, 0) && !AdmitsAfter(cfg, c, now, 1) && !AdmitsAfter(cfg, c, now, 2);
      assert !AdmitsAfter(cfg, c, now, 3) && !AdmitsAfter(cfg, c, now, 4) && !AdmitsAfter(cfg, c, now, 5);
      forall m | 0 <= m < LONGEST ensures !AdmitsAfter(cfg, c, now, m) {
        assert m == 0 || m == 1 || m == 2 || m == 3 || m == 4 || m == 5;
      }
    }
  }
}
