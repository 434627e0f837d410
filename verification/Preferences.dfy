/** Notification preferences: the hierarchy global -> category -> type -> channel, its cache, and the bulk path. */
module Preferences {
  import opened Base

  type User = nat
  type Seconds = nat

  const PREFERENCE_CACHE_TTL: nat := 300
  const CATEGORIES: set<string> := {"transactional", "social", "marketing", "system"}

  datatype Channel = Push | Email | Websocket

  datatype NotificationType = NotificationType(id: nat, category: string, supportsPush: bool, supportsEmail: bool,
      supportsWebsocket: bool) {
    predicate Supports(ch: Channel) {
      match ch case Push => supportsPush case Email => supportsEmail case Websocket => supportsWebsocket
    }
  }

  /** A row of the type-level table; `None` in a channel means: inherit from the type. */
  datatype TypePref = TypePref(disabled: bool, push: Option<bool>, email: Option<bool>, websocket: Option<bool>) {
    function Override(ch: Channel): Option<bool> {
      match ch case Push => push case Email => email case Websocket => websocket
    }
  }

  datatype Db = Db(globals: map<User, bool>, categories: map<(User, string), bool>, types: map<(User, nat), TypePref>)

  datatype SkipReason = GlobalDisabled | CategoryDisabled | TypeDisabled | ChannelDisabled | NoEmail | NoConnections

  datatype Resolved = Resolved(push: bool, email: bool, websocket: bool, blocked: bool, reason: Option<SkipReason>) {
    /** `is_channel_enabled`. */
    predicate Enabled(ch: Channel) {
      !blocked && match ch case Push => push case Email => email case Websocket => websocket
    }
  }

  function Blocked(reason: SkipReason): Resolved {
    Resolved(false, false, false, true, Some(reason))
  }

  function ResolveChannel(override: Option<bool>, supported: bool): bool {
    if !supported then false else if override.Some? then override.value else true
  }

  function Lookup<K, V>(m: map<K, V>, k: K): Option<V> {
    if k in m then Some(m[k]) else None
  }

  // ---------------------------------------------------------------------------------- two ways to resolve

  /** `_resolve_from_db`: one lookup after the other, each may end the matter. */
  function ResolveFromDb(db: Db, u: User, t: NotificationType): Resolved {
    if u in db.globals && db.globals[u] then Blocked(GlobalDisabled)
    else if (u, t.category) in db.categories && db.categories[(u, t.category)] then Blocked(CategoryDisabled)
    else if (u, t.id) in db.types then
      var pref := db.types[(u, t.id)];
      if pref.disabled then Blocked(TypeDisabled)
      else Resolved(ResolveChannel(pref.push, t.supportsPush), ResolveChannel(pref.email, t.supportsEmail),
                    ResolveChannel(pref.websocket, t.supportsWebsocket), false, None)
    else Resolved(ResolveChannel(None, t.supportsPush), ResolveChannel(None, t.supportsEmail),
                  ResolveChannel(None, t.supportsWebsocket), false, None)
  }

  /** `_resolve_for_user`, from rows fetched beforehand. */
  function ResolveForUser(t: NotificationType, global: Option<bool>, category: Option<bool>,
      pref: Option<TypePref>): Resolved {
    if global == Some(true) then Blocked(GlobalDisabled)
    else if category == Some(true) then Blocked(CategoryDisabled)
    else if pref.Some? && pref.value.disabled then Blocked(TypeDisabled)
    else
      var push := if pref.Some? then pref.value.push else None;
      var email := if pref.Some? then pref.value.email else None;
      var websocket := if pref.Some? then pref.value.websocket else None;
      Resolved(ResolveChannel(push, t.supportsPush), ResolveChannel(email, t.supportsEmail),
               ResolveChannel(websocket, t.supportsWebsocket), false, None)
  }

  /** Nothing at the level of the type, or of its channels, speaks against the channel. */
  predicate TypeAllows(db: Db, u: User, t: NotificationType, ch: Channel) {
    (u, t.id) in db.types ==> !db.types[(u, t.id)].disabled && db.types[(u, t.id)].Override(ch) != Some(false)
  }

  predicate GlobalAllows(db: Db, u: User) {
    Lookup(db.globals, u) != Some(true)
  }

  predicate CategoryAllows(db: Db, u: User, category: string) {
    Lookup(db.categories, (u, category)) != Some(true)
  }

  /** What the hierarchy means for one channel: on exactly when the type supports it, no level is switched
      off, and the user has not overridden it to off. */
  lemma HierarchyMeaning(db: Db, u: User, t: NotificationType, ch: Channel)
    ensures ResolveFromDb(db, u, t).Enabled(ch) <==>
            && t.Supports(ch)
            && Lookup(db.globals, u) != Some(true)
            && Lookup(db.categories, (u, t.category)) != Some(true)
            && ((u, t.id) in db.types ==>
                !db.types[(u, t.id)].disabled && db.types[(u, t.id)].Override(ch) != Some(false))
    ensures var r := ResolveFromDb(db, u, t);
            && (r.blocked <==> !GlobalAllows(db, u) || !CategoryAllows(db, u, t.category)
                               || ((u, t.id) in db.types && db.types[(u, t.id)].disabled))
            && (r.reason.Some? <==> r.blocked)
            && (r.blocked ==> !r.push && !r.email && !r.websocket)
    ensures var r := ResolveFromDb(db, u, t);
            r.blocked ==> r.reason == Some(if Lookup(db.globals, u) == Some(true) then GlobalDisabled
                                           else if Lookup(db.categories, (u, t.category)) == Some(true)
                                             then CategoryDisabled
                                           else TypeDisabled)
  {
  }

  // ---------------------------------------------------------------------------------- writes

  /** The arguments of `set_type_preference`; `None` means: not given. */
  datatype Given = Given(disabled: Option<bool>, push: Option<bool>, email: Option<bool>, websocket: Option<bool>) {
    function Value(ch: Channel): Option<bool> {
      match ch case Push => push case Email => email case Websocket => websocket
    }
  }

  /** `update_or_create` with only the values that were given, on a missing row from the defaults. */
  function WriteTypePref(row: Option<TypePref>, given: Given): TypePref {
    var was := if row.Some? then row.value else TypePref(false, None, None, None);
    TypePref(if given.disabled.Some? then given.disabled.value else was.disabled,
             if given.push.Some? then given.push else was.push,
             if given.email.Some? then given.email else was.email,
             if given.websocket.Some? then given.websocket else was.websocket)
  }

  /** A given value decides the channel (if nothing blocks the type); a value not given leaves the override as
      it was. So an override, once set, can be flipped but never withdrawn by this call. */
  lemma OverridesStick(db: Db, u: User, t: NotificationType, given: Given, ch: Channel)
    ensures var row := Lookup(db.types, (u, t.id));
            var after := db.(types := db.types[(u, t.id) := WriteTypePref(row, given)]);
            && (given.Value(ch).Some? && !ResolveFromDb(after, u, t).blocked ==>
                  (ResolveFromDb(after, u, t).Enabled(ch) <==> given.Value(ch).value && t.Supports(ch)))
            && (given.Value(ch).None? && row.Some? ==> after.types[(u, t.id)].Override(ch) == row.value.Override(ch))
            && (row.Some? && row.value.Override(ch).Some? ==> after.types[(u, t.id)].Override(ch).Some?)
            && (given.disabled == Some(true) ==> ResolveFromDb(after, u, t).blocked)
            && (given.disabled == Some(false) ==>
                  (ResolveFromDb(after, u, t).blocked <==> !GlobalAllows(db, u) || !CategoryAllows(db, u, t.category)))
            && (given.disabled.None? ==> ResolveFromDb(after, u, t).blocked == ResolveFromDb(db, u, t).blocked)
  {
  }

  // ---------------------------------------------------------------------------------- the cached resolver

  datatype Cached = Cached(value: Resolved, expires: Seconds)

  type Cache = map<(User, nat), Cached>

  datatype Store = Store(db: Db, cache: Cache)

  function Fetch(cache: Cache, key: (User, nat), now: Seconds): Option<Resolved> {
    if key in cache && now < cache[key].expires then Some(cache[key].value) else None
  }

  function Answer(s: Store, u: User, t: NotificationType, useCache: bool, now: Seconds): (Store, Resolved) {
    var hit := Fetch(s.cache, (u, t.id), now);
    if useCache && hit.Some? then (s, hit.value)
    else
      var r := ResolveFromDb(s.db, u, t);
      (if useCache then s.(cache := s.cache[(u, t.id) := Cached(r, now + PREFERENCE_CACHE_TTL)]) else s, r)
  }

  /** `invalidate_cache`: without a type id (or with id 0, which Python takes for none) nothing is dropped. */
  function Invalidate(cache: Cache, u: User, typeId: nat): Cache {
    if typeId != 0 then cache - {(u, typeId)} else cache
  }

  function SetGlobal(s: Store, u: User, allDisabled: bool): Store {
    Store(s.db.(globals := s.db.globals[u := allDisabled]), Invalidate(s.cache, u, 0))
  }

  function SetCategory(s: Store, u: User, category: string, disabled: bool): Store {
    if category !in CATEGORIES then s
    else Store(s.db.(categories := s.db.categories[(u, category) := disabled]), Invalidate(s.cache, u, 0))
  }

  function SetType(s: Store, u: User, t: NotificationType, given: Given): Store {
    var row := WriteTypePref(Lookup(s.db.types, (u, t.id)), given);
    Store(s.db.(types := s.db.types[(u, t.id) := row]), Invalidate(s.cache, u, t.id))
  }

  function ResetAll(s: Store, u: User): Store {
    Store(Db(s.db.globals - {u},
             map k | k in s.db.categories && k.0 != u :: s.db.categories[k],
             map k | k in s.db.types && k.0 != u :: s.db.types[k]),
          Invalidate(s.cache, u, 0))
  }

  class PreferenceService {
    var db: Db
    var cache: Cache

    function State(): Store
      reads this
    {
      Store(db, cache)
    }

    method InvalidateCache(u: User, typeId: nat)
      modifies this`cache
      ensures cache == Invalidate(old(cache), u, typeId)
    {
      if typeId != 0 {
        cache := cache - {(u, typeId)};
      }
    }

    method Resolve(u: User, t: NotificationType, useCache: bool, now: Seconds) returns (r: Resolved)
      modifies this`cache
      ensures (State(), r) == Answer(old(State()), u, t, useCache, now)
      ensures !useCache || Fetch(old(cache), (u, t.id), now).None? ==> r == ResolveFromDb(db, u, t)
      ensures forall key :: key != (u, t.id) ==> Lookup(cache, key) == Lookup(old(cache), key)
      ensures useCache ==> Fetch(cache, (u, t.id), now) == Some(r)
      ensures useCache && Fetch(old(cache), (u, t.id), now).None? ==>
                forall later: Seconds ::
                  Fetch(cache, (u, t.id), later) == if later < now + PREFERENCE_CACHE_TTL then Some(r) else None
      ensures !useCache || Fetch(old(cache), (u, t.id), now).Some? ==> cache == old(cache)
    {
      if useCache {
        if (u, t.id) in cache && now < cache[(u, t.id)].expires {
          return cache[(u, t.id)].value;
        }
      }
      r := ResolveFromDb(db, u, t);
      if useCache {
        cache := cache[(u, t.id) := Cached(r, now + PREFERENCE_CACHE_TTL)];
      }
    }

    method SetGlobalPreference(u: User, allDisabled: bool)
      modifies this
      ensures State() == SetGlobal(old(State()), u, allDisabled)
      ensures allDisabled ==> forall t :: ResolveFromDb(db, u, t) == Blocked(GlobalDisabled)
      ensures forall t: NotificationType, ch ::
                ResolveFromDb(db, u, t).Enabled(ch) <==>
                  && !allDisabled && t.Supports(ch)
                  && CategoryAllows(old(db), u, t.category) && TypeAllows(old(db), u, t, ch)
      ensures db.categories == old(db).categories && db.types == old(db).types && cache == old(cache)
      ensures forall v, t :: v != u ==> ResolveFromDb(db, v, t) == ResolveFromDb(old(db), v, t)
    {
      db := db.(globals := db.globals[u := allDisabled]);
      InvalidateCache(u, 0);
    }

    method SetCategoryPreference(u: User, category: string, disabled: bool) returns (ok: bool)
      modifies this
      ensures ok <==> category in CATEGORIES
      ensures State() == SetCategory(old(State()), u, category, disabled)
      ensures ok && disabled ==> forall t: NotificationType ::
          t.category == category ==> ResolveFromDb(db, u, t).blocked
      ensures ok ==> forall t: NotificationType, ch :: t.category == category ==>
                (ResolveFromDb(db, u, t).Enabled(ch) <==>
                   !disabled && t.Supports(ch) && GlobalAllows(old(db), u) && TypeAllows(old(db), u, t, ch))
      ensures db.globals == old(db).globals && db.types == old(db).types && cache == old(cache)
      ensures !ok ==> db == old(db)
      ensures forall v, t: NotificationType :: v != u || t.category != category ==>
                ResolveFromDb(db, v, t) == ResolveFromDb(old(db), v, t)
    {
      if category !in CATEGORIES {
        return false;
      }
      db := db.(categories := db.categories[(u, category) := disabled]);
      InvalidateCache(u, 0);
      return true;
    }

    method SetTypePreference(u: User, t: NotificationType, given: Given)
      modifies this
      ensures State() == SetType(old(State()), u, t, given)
      ensures forall v, s: NotificationType :: v != u || s.id != t.id ==>
                ResolveFromDb(db, v, s) == ResolveFromDb(old(db), v, s)
      ensures t.id != 0 ==> forall now :: Fetch(cache, (u, t.id), now).None?
      ensures (u, t.id) in db.types && db.globals == old(db).globals && db.categories == old(db).categories
      ensures var row, was := db.types[(u, t.id)], Lookup(old(db).types, (u, t.id));
              && (row.disabled <==>
                    if given.disabled.Some? then given.disabled.value else was.Some? && was.value.disabled)
              && forall ch :: row.Override(ch) == if given.Value(ch).Some? then given.Value(ch)
                                                  else if was.Some? then was.value.Override(ch) else None
      ensures forall ch :: ResolveFromDb(db, u, t).Enabled(ch) <==>
                t.Supports(ch) && GlobalAllows(old(db), u) && CategoryAllows(old(db), u, t.category)
                && TypeAllows(db, u, t, ch)
    {
      var row := WriteTypePref(Lookup(db.types, (u, t.id)), given);
      db := db.(types := db.types[(u, t.id) := row]);
      InvalidateCache(u, t.id);
    }

    method ResetPreferences(u: User)
      modifies this
      ensures State() == ResetAll(old(State()), u)
      ensures forall t: NotificationType, ch :: ResolveFromDb(db, u, t).Enabled(ch) <==> t.Supports(ch)
      ensures forall v, t :: v != u ==> ResolveFromDb(db, v, t) == ResolveFromDb(old(db), v, t)
    {
      db := Db(db.globals - {u},
               map k | k in db.categories && k.0 != u :: db.categories[k],
               map k | k in db.types && k.0 != u :: db.types[k]);
      InvalidateCache(u, 0);
    }
  }

  /** The two resolvers agree when the second is given the rows the first would look up. */
  lemma SameAnswer(db: Db, u: User, t: NotificationType)
    ensures ResolveForUser(t, Lookup(db.globals, u), Lookup(db.categories, (u, t.category)),
          Lookup(db.types, (u, t.id)))
         == ResolveFromDb(db, u, t)
  {
  }

  /** `resolve_bulk`: three fetches, then one loop. Every listed user gets the answer of the uncached single
      path, and nobody else gets one. */
  method ResolveBulk(db: Db, users: seq<User>, t: NotificationType) returns (results: map<User, Resolved>)
    ensures forall u :: u in results <==> u in users
    ensures forall u :: u in results ==> results[u] == ResolveFromDb(db, u, t)
  {
    results := map[];
    if users == [] {
      return;
    }
    var globals, categories, types := FetchRows(db, users, t);
    for k := 0 to |users|
      invariant forall u :: u in results <==> u in users[..k]
      invariant forall u :: u in results ==> results[u] == ResolveFromDb(db, u, t)
    {
      var u := users[k];
      SameAnswer(db, u, t);
      results := results[u := ResolveForUser(t, Lookup(globals, u), Lookup(categories, u), Lookup(types, u))];
      assert users[..k + 1] == users[..k] + [u];
    }
  }

  /** The three `user_id__in` queries, each as a dictionary by user. */
  method FetchRows(db: Db, users: seq<User>, t: NotificationType)
    returns (globals: map<User, bool>, categories: map<User, bool>, types: map<User, TypePref>)
    ensures forall u :: u in users ==> Lookup(globals, u) == Lookup(db.globals, u)
    ensures forall u :: u in users ==> Lookup(categories, u) == Lookup(db.categories, (u, t.category))
    ensures forall u :: u in users ==> Lookup(types, u) == Lookup(db.types, (u, t.id))
  {
    globals := map u | u in users && u in db.globals :: db.globals[u];
    categories := map u | u in users && (u, t.category) in db.categories :: db.categories[(u, t.category)];
    types := map u | u in users && (u, t.id) in db.types :: db.types[(u, t.id)];
  }

  // ---------------------------------------------------------------------------------- how old an answer can be

  datatype Action =
    | Ask(user: User, typeId: nat)
    | Global(user: User, allDisabled: bool)
    | Category(user: User, category: string, off: bool)
    | Type(user: User, typeId: nat, given: Given)
    | Clear(user: User)
    | Wait(seconds: Seconds)
    | Retype(changed: NotificationType)

  type Types = map<nat, NotificationType>

  datatype Moment = Moment(at: Seconds, db: Db, types: Types)

  /** `past` lists the tables after every step, with the time of the step. The notification types are rows as
      well: they are added and changed while answers about them are cached. */
  datatype World = World(store: Store, types: Types, now: Seconds, past: seq<Moment>)

  ghost predicate OwnIds(types: Types) {
    forall id :: id in types ==> types[id].id == id
  }

  function StoreAfter(w: World, a: Action): Store {
    match a
    case Ask(u, id) => if id in w.types then Answer(w.store, u, w.types[id], true, w.now).0 else w.store
    case Global(u, d) => SetGlobal(w.store, u, d)
    case Category(u, c, d) => SetCategory(w.store, u, c, d)
    case Type(u, id, given) => if id in w.types then SetType(w.store, u, w.types[id], given) else w.store
    case Clear(u) => ResetAll(w.store, u)
    case Wait(_) => w.store
    case Retype(_) => w.store
  }

  function Step(w: World, a: Action): World {
    var s := StoreAfter(w, a);
    var types := if a.Retype? then w.types[a.changed.id := a.changed] else w.types;
    var now := if a.Wait? then w.now + a.seconds else w.now;
    World(s, types, now, w.past + [Moment(now, s.db, types)])
  }

  function Run(w: World, actions: seq<Action>): World {
    if actions == [] then w else Step(Run(w, actions[..|actions| - 1]), actions[|actions| - 1])
  }

  /** What each step leaves in the tables: what was asked for, and everything else as it was. */
  lemma StepStores(w: World, a: Action)
    ensures var d := Step(w, a);
            && d.now == (if a.Wait? then w.now + a.seconds else w.now)
            && d.types == (if a.Retype? then w.types[a.changed.id := a.changed] else w.types)
            && (a.Ask? || a.Wait? || a.Retype? ==> d.store.db == w.store.db)
            && (a.Global? ==>
                  d.store.db.globals == w.store.db.globals[a.user := a.allDisabled]
                  && (d.store.db.categories, d.store.db.types) == (w.store.db.categories, w.store.db.types))
            && (a.Category? ==>
                  d.store.db.categories == (if a.category in {"transactional", "social", "marketing", "system"}
                                            then w.store.db.categories[(a.user, a.category) := a.off]
                                            else w.store.db.categories)
                  && (d.store.db.globals, d.store.db.types) == (w.store.db.globals, w.store.db.types))
            && (a.Type? ==>
                  && (d.store.db.globals, d.store.db.categories) == (w.store.db.globals, w.store.db.categories)
                  && (a.typeId in w.types ==> (a.user, w.types[a.typeId].id) in d.store.db.types)
                  && forall k ::
                       k in w.store.db.types && (a.typeId in w.types ==> k != (a.user, w.types[a.typeId].id)) ==>
                         k in d.store.db.types && d.store.db.types[k] == w.store.db.types[k])
            && (a.Clear? ==>
                  forall t :: ResolveFromDb(d.store.db, a.user, t) == ResolveFromDb(Db(map[], map[], map[]), a.user, t))
            && (a.Ask? && a.typeId in w.types && w.types[a.typeId].id == a.typeId ==>
                  Fetch(d.store.cache, (a.user, a.typeId), w.now).Some?)
  {
  }

  /** The answer for a type was the tables' own at a recorded moment. */
  ghost predicate ToldAt(past: seq<Moment>, u: User, id: nat, r: Resolved, at: Seconds) {
    exists k :: 0 <= k < |past| && past[k].at == at && id in past[k].types
                && r == ResolveFromDb(past[k].db, u, past[k].types[id])
  }

  ghost predicate EntryOk(w: World, u: User, id: nat, c: Cached) {
    c.expires >= PREFERENCE_CACHE_TTL && ToldAt(w.past, u, id, c.value, c.expires - PREFERENCE_CACHE_TTL)
  }

  ghost predicate Inv(w: World) {
    && OwnIds(w.types)
    && (forall u, id :: (u, id) in w.store.cache ==> EntryOk(w, u, id, w.store.cache[(u, id)]))
  }

  lemma ToldStays(past: seq<Moment>, m: Moment, u: User, id: nat, r: Resolved, at: Seconds)
    requires ToldAt(past, u, id, r, at)
    ensures ToldAt(past + [m], u, id, r, at)
  {
    var k :| 0 <= k < |past| && past[k].at == at && id in past[k].types
             && r == ResolveFromDb(past[k].db, u, past[k].types[id]);
    assert (past + [m])[k] == past[k];
  }

  lemma StepKeeps(w: World, a: Action)
    requires Inv(w)
    ensures Inv(Step(w, a))
  {
    var d := Step(w, a);
    var m := d.past[|w.past|];
    forall u, id | (u, id) in d.store.cache ensures EntryOk(d, u, id, d.store.cache[(u, id)]) {
      if (u, id) in w.store.cache && w.store.cache[(u, id)] == d.store.cache[(u, id)] {
        var c := w.store.cache[(u, id)];
        assert EntryOk(w, u, id, c);
        ToldStays(w.past, m, u, id, c.value, c.expires - PREFERENCE_CACHE_TTL);
      } else {
        assert a == Ask(u, id) && d.past[|w.past|] == Moment(w.now, w.store.db, w.types);
      }
    }
  }

  lemma {:induction false} RunKeeps(w: World, actions: seq<Action>)
    requires Inv(w)
    ensures Inv(Run(w, actions))
  {
    if actions != [] {
      RunKeeps(w, actions[..|actions| - 1]);
      StepKeeps(Run(w, actions[..|actions| - 1]), actions[|actions| - 1]);
    }
  }

  /** Whatever happened before, to preferences or to the types themselves, a cached answer is what the tables said
      at some recorded moment less than 300 seconds ago (or say now). */
  lemma AnswersAreRecent(start: Db, types: Types, now: Seconds, actions: seq<Action>, u: User, id: nat)
    requires OwnIds(types)
    requires id in Run(World(Store(start, map[]), types, now, []), actions).types
    ensures var w := Run(World(Store(start, map[]), types, now, []), actions);
            var r := Answer(w.store, u, w.types[id], true, w.now).1;
            || r == ResolveFromDb(w.store.db, u, w.types[id])
            || exists at: Seconds :: w.now < at + PREFERENCE_CACHE_TTL && ToldAt(w.past, u, id, r, at)
  {
    RunKeeps(World(Store(start, map[]), types, now, []), actions);
    var w := Run(World(Store(start, map[]), types, now, []), actions);
    if Fetch(w.store.cache, (u, id), w.now).Some? {
      assert EntryOk(w, u, id, w.store.cache[(u, id)]);
    }
  }

  /** Right after a type preference is set, the resolver is exact for that user and type (ids start at 1). */
  lemma ExactAfterTypeChange(s: Store, u: User, t: NotificationType, given: Given, now: Seconds)
    requires t.id != 0
    ensures var after := SetType(s, u, t, given);
            Answer(after, u, t, true, now).1 == ResolveFromDb(after.db, u, t)
  {
  }

  /** After a mute, of everything or of the type's category, it is exact precisely when no live cache entry says
      otherwise: the entries stay, because the invalidation without a type id drops nothing. */
  lemma ExactAfterMute(s: Store, u: User, t: NotificationType, now: Seconds)
    ensures var hit := Fetch(s.cache, (u, t.id), now);
            var all, some := SetGlobal(s, u, true), SetCategory(s, u, t.category, true);
            && (Answer(all, u, t, true, now).1 == ResolveFromDb(all.db, u, t) <==>
                  hit.None? || hit.value == Blocked(GlobalDisabled))
            && (t.category in CATEGORIES ==>
                  (Answer(some, u, t, true, now).1 == ResolveFromDb(some.db, u, t) <==>
                     hit.None? || hit.value == Blocked(if Lookup(s.db.globals, u) == Some(true) then GlobalDisabled
                         else CategoryDisabled)))
  {
    assert t.category in CATEGORIES ==> SetCategory(s, u, t.category, true).db.categories[(u, t.category)];
  }
}
