/** The cached resolver with the database read and the cache write of a miss apart: a preference may change between
    the two, after its own invalidation has found nothing to drop. */
module PreferencesRace {
  import opened Base
  import P = Preferences

  /** A resolver that has read the tables and not yet written the cache. */
  datatype Ticket = Ticket(user: P.User, typeId: nat, answer: P.Resolved)

  datatype World = World(store: P.Store, types: P.Types, now: P.Seconds, open: map<nat, Ticket>)

  datatype Action =
    | Look(worker: nat, user: P.User, typeId: nat)
    | Save(worker: nat)
    | SetType(user: P.User, typeId: nat, given: P.Given)
    | Elapse(seconds: P.Seconds)

  function Truth(w: World, u: P.User, id: nat): P.Resolved
    requires id in w.types
  {
    P.ResolveFromDb(w.store.db, u, w.types[id])
  }

  function Step(w: World, a: Action): World {
    match a
    case Look(k, u, id) =>
      if k !in w.open && id in w.types && P.Fetch(w.store.cache, (u, id), w.now).None?
      then w.(open := w.open[k := Ticket(u, id, Truth(w, u, id))]) else w
    case Save(k) =>
      if k in w.open then
        var t := w.open[k];
        var entry := P.Cached(t.answer, w.now + P.PREFERENCE_CACHE_TTL);
        w.(store := w.store.(cache := w.store.cache[(t.user, t.typeId) := entry]), open := w.open - {k})
      else w
    case SetType(u, id, given) =>
      if id in w.types then w.(store := P.SetType(w.store, u, w.types[id], given)) else w
    case Elapse(seconds) => w.(now := w.now + seconds)
  }

  function Run(w: World, actions: seq<Action>): World {
    if actions == [] then w else Step(Run(w, actions[..|actions| - 1]), actions[|actions| - 1])
  }

  /** What `resolve` would answer now. */
  function Answered(w: World, u: P.User, id: nat): P.Resolved
    requires id in w.types
  {
    P.Answer(w.store, u, w.types[id], true, w.now).1
  }

  ghost predicate OwnId(w: World, id: nat) {
    id in w.types && w.types[id].id == id && id != 0
  }

  predicate NoWrites(actions: seq<Action>) {
    forall k :: 0 <= k < |actions| ==> !actions[k].SetType?
  }

  /** Nobody is about to cache anything for this user and type but what the tables say now. */
  ghost predicate TicketsTrue(w: World, u: P.User, id: nat)
    requires id in w.types
  {
    forall k :: k in w.open && w.open[k].user == u && w.open[k].typeId == id ==> w.open[k].answer == Truth(w, u, id)
  }

  ghost predicate EntryTrue(w: World, u: P.User, id: nat)
    requires id in w.types
  {
    (u, id) in w.store.cache ==> w.store.cache[(u, id)].value == Truth(w, u, id)
  }

  lemma {:induction false} StaysTrue(w: World, actions: seq<Action>, u: P.User, id: nat)
    requires OwnId(w, id) && NoWrites(actions) && TicketsTrue(w, u, id) && EntryTrue(w, u, id)
    ensures var d := Run(w, actions);
            d.types == w.types && d.store.db == w.store.db && TicketsTrue(d, u, id) && EntryTrue(d, u, id)
  {
    if actions != [] {
      StaysTrue(w, actions[..|actions| - 1], u, id);
    }
  }

  /** After a type preference has been set, the resolver answers exactly for that user and type, over all that
      follows without a further change, exactly when nobody has an answer open that is no longer true. */
  lemma ExactIffTicketsTrue(before: World, u: P.User, id: nat, given: P.Given)
    requires OwnId(before, id)
    ensures var w := Step(before, SetType(u, id, given));
            (forall actions :: NoWrites(actions) ==>
               Run(w, actions).types == w.types && Answered(Run(w, actions), u, id) == Truth(w, u, id)) <==>
            TicketsTrue(w, u, id)
  {
    var w := Step(before, SetType(u, id, given));
    assert (u, id) !in w.store.cache;
    if TicketsTrue(w, u, id) {
      forall actions | NoWrites(actions)
        ensures Run(w, actions).types == w.types && Answered(Run(w, actions), u, id) == Truth(w, u, id)
      {
        StaysTrue(w, actions, u, id);
      }
    } else {
      var k :| k in w.open && w.open[k].user == u && w.open[k].typeId == id && w.open[k].answer != Truth(w, u, id);
      var actions := [Save(k)];
      assert [Save(k)][..0] == [];
      assert Run(w, actions) == Step(w, Save(k));
      assert NoWrites(actions) && Run(w, actions).types == w.types;
      assert Answered(Run(w, actions), u, id) == w.open[k].answer;
    }
  }

  /** A concrete stale answer: read while the type is on, saved after the user has switched it off. */
  lemma StaleAfterChange()
    ensures var t := P.NotificationType(1, "social", true, false, false);
            var off := P.Given(Some(true), None, None, None);
            var w := World(P.Store(P.Db(map[], map[], map[]), map[]), map[1 := t], 0, map[]);
            var d := Step(Step(Step(w, Look(7, 5, 1)), SetType(5, 1, off)), Save(7));
            1 in d.types && Truth(d, 5, 1).blocked && !Answered(d, 5, 1).blocked
  {
    var t := P.NotificationType(1, "social", true, false, false);
    var off := P.Given(Some(true), None, None, None);
    var w := World(P.Store(P.Db(map[], map[], map[]), map[]), map[1 := t], 0, map[]);
    var looked := Step(w, Look(7, 5, 1));
    assert looked.open[7] == Ticket(5, 1, P.Resolved(true, false, false, false, None));
    var off_now := Step(looked, SetType(5, 1, off));
    assert off_now.store.db.types[(5, 1)].disabled;
  }
}
