/** Storage quota: a cached byte total per user that is meant to equal the sizes of the user's live files,
    through uploads, new versions, single and bulk soft deletion and restoring, expiry and recalculation. */
module Quota {
  import opened Base

  type User = nat
  type Id = nat

  /** `group` is the version group: the id of the first version. File sizes are positive by a check constraint. */
  datatype File = File(uploader: User, size: nat, group: Id, deletedAt: Option<nat>) {
    predicate Live() { deletedAt.None? }
  }

  type Files = map<Id, File>

  datatype Profile = Profile(total: int, quota: int)

  type Profiles = map<User, Profile>

  datatype World = World(files: Files, profiles: Profiles, nextId: Id, now: nat)

  // ---------------------------------------------------------------------------------- the profile

  predicate CanUpload(p: Profile, size: nat) {
    p.total + size <= p.quota
  }

  function Plus(ps: Profiles, u: User, bytes: nat): Profiles {
    if u in ps then ps[u := ps[u].(total := ps[u].total + bytes)] else ps
  }

  /** `GREATEST(total - bytes, 0)`. */
  function Minus(ps: Profiles, u: User, bytes: nat): Profiles {
    if u in ps then ps[u := ps[u].(total := if ps[u].total - bytes > 0 then ps[u].total - bytes else 0)] else ps
  }

  // ---------------------------------------------------------------------------------- operations

  predicate Allows(ps: Profiles, u: User, size: nat) {
    u in ps ==> CanUpload(ps[u], size)
  }

  function AddFile(w: World, f: File): World {
    World(w.files[w.nextId := f], Plus(w.profiles, f.uploader, f.size), w.nextId + 1, w.now)
  }

  /** `validate_file` and `create` of the upload serializer. */
  function Upload(w: World, u: User, size: nat): World {
    if size > 0 && Allows(w.profiles, u, size) then AddFile(w, File(u, size, w.nextId, None)) else w
  }

  /** `create_new_version`: by the uploader only, into the same group, charged to the uploader. */
  function NewVersion(w: World, id: Id, u: User, size: nat): World {
    if id in w.files && w.files[id].group in w.files && w.files[id].uploader == u && size > 0
        && Allows(w.profiles, u, size)
    then AddFile(w, File(u, size, w.files[id].group, None))
    else w
  }

  /** `soft_delete` on an instance that carries its own copy of the deletion flag: `known` is that copy. */
  function SoftDeleteAs(w: World, id: Id, known: bool): World
    requires id in w.files
  {
    if known then w
    else w.(profiles := Minus(w.profiles, w.files[id].uploader, w.files[id].size),
            files := w.files[id := w.files[id].(deletedAt := Some(w.now))])
  }

  function RestoreAs(w: World, id: Id, known: bool): World
    requires id in w.files
  {
    if !known then w
    else w.(profiles := Plus(w.profiles, w.files[id].uploader, w.files[id].size),
            files := w.files[id := w.files[id].(deletedAt := None)])
  }

  /** The hooks of a bulk deletion, one instance after the other. */
  function MinusAll(ps: Profiles, files: Files, ids: seq<Id>): Profiles
    requires forall id :: id in ids ==> id in files
  {
    if ids == [] then ps
    else
      var last := ids[|ids| - 1];
      Minus(MinusAll(ps, files, ids[..|ids| - 1]), files[last].uploader, files[last].size)
  }

  function PlusAll(ps: Profiles, files: Files, ids: seq<Id>): Profiles
    requires forall id :: id in ids ==> id in files
  {
    if ids == [] then ps
    else
      var last := ids[|ids| - 1];
      Plus(PlusAll(ps, files, ids[..|ids| - 1]), files[last].uploader, files[last].size)
  }

  function Marked(files: Files, ids: seq<Id>, mark: Option<nat>): Files {
    map id | id in files :: if id in ids then files[id].(deletedAt := mark) else files[id]
  }

  /** The rows of a queryset that pass `is_deleted=deleted`, in its order. */
  function Select(files: Files, ids: seq<Id>, deleted: bool): (r: seq<Id>)
    ensures forall id :: id in r <==> id in ids && id in files && files[id].Live() != deleted
    ensures NoRepeats(ids) ==> NoRepeats(r)
  {
    if ids == [] then []
    else
      var n := |ids| - 1;
      assert forall id :: id in ids <==> id in ids[..n] || id == ids[n];
      Select(files, ids[..n], deleted) + (if ids[n] in files && files[ids[n]].Live() != deleted then [ids[n]] else [])
  }

  predicate NoRepeats(ids: seq<Id>) {
    forall i, j :: 0 <= i < j < |ids| ==> ids[i] != ids[j]
  }

  function BulkDelete(w: World, ids: seq<Id>): World {
    var chosen := Select(w.files, ids, false);
    w.(profiles := MinusAll(w.profiles, w.files, chosen), files := Marked(w.files, chosen, Some(w.now)))
  }

  function BulkRestore(w: World, ids: seq<Id>): World {
    var chosen := Select(w.files, ids, true);
    w.(profiles := PlusAll(w.profiles, w.files, chosen), files := Marked(w.files, chosen, None))
  }

  /** The selection rule of `hard_delete_expired_files`. */
  predicate Expired(w: World, id: Id, retention: nat) {
    id in w.files && w.files[id].deletedAt.Some? && w.files[id].deletedAt.value < w.now - retention
  }

  /** Removed rows: the expired ones and, through the cascade of `version_group`, all later versions of an
      expired first version. */
  predicate Goes(w: World, id: Id, retention: nat) {
    id in w.files && (Expired(w, id, retention) || Expired(w, w.files[id].group, retention))
  }

  function Expire(w: World, retention: nat): World {
    w.(files := map id | id in w.files && !Goes(w, id, retention) :: w.files[id])
  }

  // ---------------------------------------------------------------------------------- summing up

  ghost function Bytes(files: Files, ids: set<Id>): nat
    requires ids <= files.Keys
  {
    if ids == {} then 0
    else
      var x :| x in ids;
      files[x].size + Bytes(files, ids - {x})
  }

  lemma {:induction false} BytesRemove(files: Files, ids: set<Id>, y: Id)
    requires ids <= files.Keys && y in ids
    ensures Bytes(files, ids) == files[y].size + Bytes(files, ids - {y})
    decreases |ids|
  {
    var x :| x in ids && Bytes(files, ids) == files[x].size + Bytes(files, ids - {x});
    if x != y {
      BytesRemove(files, ids - {x}, y);
      BytesRemove(files, ids - {y}, x);
      assert ids - {x} - {y} == ids - {y} - {x};
    }
  }

  /** Only the sizes matter. */
  lemma {:induction false} BytesSame(a: Files, b: Files, ids: set<Id>)
    requires ids <= a.Keys && ids <= b.Keys && forall id :: id in ids ==> a[id].size == b[id].size
    ensures Bytes(a, ids) == Bytes(b, ids)
    decreases |ids|
  {
    if ids != {} {
      var x :| x in ids;
      BytesRemove(a, ids, x);
      BytesRemove(b, ids, x);
      BytesSame(a, b, ids - {x});
    }
  }

  function LiveFiles(files: Files, u: User): set<Id> {
    set id | id in files && files[id].uploader == u && files[id].Live()
  }

  ghost function LiveBytes(files: Files, u: User): nat {
    Bytes(files, LiveFiles(files, u))
  }

  /** The law: each cached total is the sum of the user's live file sizes. */
  ghost predicate Conserved(w: World) {
    forall u :: u in w.profiles ==> w.profiles[u].total == LiveBytes(w.files, u)
  }

  /** Table constraints: positive sizes, ids handed out once, and a version group whose first version is gone
      takes its versions with it. */
  ghost predicate Tables(w: World) {
    && (forall id :: id in w.files ==> id < w.nextId && w.files[id].size > 0)
    && (forall id :: id in w.files ==>
        w.files[id].group in w.files && w.files[w.files[id].group].group == w.files[id].group)
  }

  ghost predicate Inv(w: World) {
    Tables(w) && Conserved(w)
  }

  // ---------------------------------------------------------------------------------- one file changes

  lemma FileAdded(files: Files, id: Id, f: File, u: User)
    requires id !in files && f.Live()
    ensures LiveBytes(files[id := f], u) == LiveBytes(files, u) + (if f.uploader == u then f.size else 0)
  {
    var grown := files[id := f];
    BytesSame(grown, files, LiveFiles(files, u));
    if f.uploader == u {
      assert LiveFiles(grown, u) - {id} == LiveFiles(files, u);
      BytesRemove(grown, LiveFiles(grown, u), id);
    } else {
      assert LiveFiles(grown, u) == LiveFiles(files, u);
    }
  }

  lemma FileDeleted(files: Files, id: Id, mark: nat, u: User)
    requires id in files && files[id].Live()
    ensures LiveBytes(files, u) == LiveBytes(files[id := files[id].(deletedAt := Some(mark))], u)
                                   + (if files[id].uploader == u then files[id].size else 0)
  {
    var after := files[id := files[id].(deletedAt := Some(mark))];
    BytesSame(files, after, LiveFiles(after, u));
    if files[id].uploader == u {
      assert LiveFiles(files, u) - {id} == LiveFiles(after, u);
      BytesRemove(files, LiveFiles(files, u), id);
    } else {
      assert LiveFiles(after, u) == LiveFiles(files, u);
    }
  }

  lemma FileUndeleted(files: Files, id: Id, u: User)
    requires id in files && !files[id].Live()
    ensures LiveBytes(files[id := files[id].(deletedAt := None)], u)
            == LiveBytes(files, u) + (if files[id].uploader == u then files[id].size else 0)
  {
    var after := files[id := files[id].(deletedAt := None)];
    FileDeleted(after, id, files[id].deletedAt.value, u);
    assert after[id := after[id].(deletedAt := Some(files[id].deletedAt.value))] == files;
  }

  /** Marking a deleted file deleted once more, or a live one live, leaves the live set alone. */
  lemma FileRemarked(files: Files, id: Id, mark: Option<nat>, u: User)
    requires id in files && files[id].Live() == mark.None?
    ensures LiveBytes(files[id := files[id].(deletedAt := mark)], u) == LiveBytes(files, u)
  {
    var after := files[id := files[id].(deletedAt := mark)];
    assert LiveFiles(after, u) == LiveFiles(files, u);
    BytesSame(after, files, LiveFiles(files, u));
  }

  lemma SizeWithin(files: Files, id: Id)
    requires id in files && files[id].Live()
    ensures files[id].size <= LiveBytes(files, files[id].uploader)
  {
    BytesRemove(files, LiveFiles(files, files[id].uploader), id);
  }

  // ---------------------------------------------------------------------------------- single operations

  lemma TablesGrow(w: World, f: File)
    requires Tables(w) && f.size > 0
    requires f.group == w.nextId || (f.group in w.files && w.files[f.group].group == f.group)
    ensures Tables(AddFile(w, f)) && w.nextId !in w.files
  {
  }

  lemma AddFileKeeps(w: World, f: File)
    requires Inv(w) && f.Live() && f.size > 0
    requires f.group == w.nextId || (f.group in w.files && w.files[f.group].group == f.group)
    ensures Inv(AddFile(w, f))
  {
    var d := AddFile(w, f);
    TablesGrow(w, f);
    forall u | u in d.profiles ensures d.profiles[u].total == LiveBytes(d.files, u) {
      FileAdded(w.files, w.nextId, f, u);
    }
  }

  /** Soft deletion on an instance whose flag may be stale keeps the law exactly unless the row was deleted behind
      the instance's back; and then the law survives only where the total already was zero. */
  lemma SoftDeleteExactly(w: World, id: Id, known: bool)
    requires Inv(w) && id in w.files && w.files[id].uploader in w.profiles
    ensures Conserved(SoftDeleteAs(w, id, known)) <==>
            known || w.files[id].Live() || LiveBytes(w.files, w.files[id].uploader) == 0
  {
    var d := SoftDeleteAs(w, id, known);
    var owner := w.files[id].uploader;
    if !known {
      forall u ensures LiveBytes(d.files, u) ==
          LiveBytes(w.files, u) - (if w.files[id].Live() && u == owner then w.files[id].size else 0) {
        if w.files[id].Live() {
          FileDeleted(w.files, id, w.now, u);
        } else {
          FileRemarked(w.files, id, Some(w.now), u);
        }
      }
      if w.files[id].Live() {
        SizeWithin(w.files, id);
      } else {
        assert d.profiles[owner].total == w.profiles[owner].total <==> w.profiles[owner].total == 0;
      }
    }
  }

  /** Restoring on an instance that still believes the file deleted counts a live file twice. */
  lemma RestoreExactly(w: World, id: Id, known: bool)
    requires Inv(w) && id in w.files && w.files[id].uploader in w.profiles
    ensures Conserved(RestoreAs(w, id, known)) <==> !known || !w.files[id].Live()
  {
    var d := RestoreAs(w, id, known);
    var owner := w.files[id].uploader;
    if known {
      forall u ensures LiveBytes(d.files, u) ==
          LiveBytes(w.files, u) + (if !w.files[id].Live() && u == owner then w.files[id].size else 0) {
        if w.files[id].Live() {
          FileRemarked(w.files, id, None, u);
        } else {
          FileUndeleted(w.files, id, u);
        }
      }
      if w.files[id].Live() {
        assert d.profiles[owner].total != LiveBytes(d.files, owner);
      }
    }
  }

  // ---------------------------------------------------------------------------------- bulk operations

  /** After the hooks and marks of the first k instances the law holds for the rows so marked, and the clamp
      never acted: this is why one bulk update at the end is enough. */
  lemma {:induction false} BulkDeleteStepwise(w: World, ids: seq<Id>)
    requires Inv(w) && NoRepeats(ids) && forall id :: id in ids ==> id in w.files && w.files[id].Live()
    ensures Inv(w.(profiles := MinusAll(w.profiles, w.files, ids), files := Marked(w.files, ids, Some(w.now))))
  {
    if ids == [] {
      assert Marked(w.files, ids, Some(w.now)) == w.files;
    } else {
      var init, last := ids[..|ids| - 1], ids[|ids| - 1];
      assert forall id :: id in ids <==> id in init || id == last;
      assert last !in init;
      BulkDeleteStepwise(w, init);
      var d := w.(profiles := MinusAll(w.profiles, w.files, init), files := Marked(w.files, init, Some(w.now)));
      assert Marked(w.files, ids, Some(w.now)) == d.files[last := d.files[last].(deletedAt := Some(w.now))];
      OneMoreDeleted(d, last);
    }
  }

  lemma OneMoreDeleted(d: World, id: Id)
    requires Inv(d) && id in d.files && d.files[id].Live()
    ensures Inv(d.(profiles := Minus(d.profiles, d.files[id].uploader, d.files[id].size),
                   files := d.files[id := d.files[id].(deletedAt := Some(d.now))]))
  {
    if d.files[id].uploader in d.profiles {
      SoftDeleteExactly(d, id, false);
    } else {
      forall u ensures u != d.files[id].uploader
          ==> LiveBytes(d.files[id := d.files[id].(deletedAt := Some(d.now))], u) == LiveBytes(d.files, u) {
        FileDeleted(d.files, id, d.now, u);
      }
    }
  }

  lemma {:induction false} BulkRestoreStepwise(w: World, ids: seq<Id>)
    requires Inv(w) && NoRepeats(ids) && forall id :: id in ids ==> id in w.files && !w.files[id].Live()
    ensures Inv(w.(profiles := PlusAll(w.profiles, w.files, ids), files := Marked(w.files, ids, None)))
  {
    if ids == [] {
      assert Marked(w.files, ids, None) == w.files;
    } else {
      var init, last := ids[..|ids| - 1], ids[|ids| - 1];
      assert forall id :: id in ids <==> id in init || id == last;
      assert last !in init;
      BulkRestoreStepwise(w, init);
      var d := w.(profiles := PlusAll(w.profiles, w.files, init), files := Marked(w.files, init, None));
      assert Marked(w.files, ids, None) == d.files[last := d.files[last].(deletedAt := None)];
      OneMoreRestored(d, last);
    }
  }

  lemma OneMoreRestored(d: World, id: Id)
    requires Inv(d) && id in d.files && !d.files[id].Live()
    ensures Inv(d.(profiles := Plus(d.profiles, d.files[id].uploader, d.files[id].size),
                   files := d.files[id := d.files[id].(deletedAt := None)]))
  {
    if d.files[id].uploader in d.profiles {
      RestoreExactly(d, id, true);
    } else {
      forall u ensures u != d.files[id].uploader
          ==> LiveBytes(d.files[id := d.files[id].(deletedAt := None)], u) == LiveBytes(d.files, u) {
        FileUndeleted(d.files, id, u);
      }
    }
  }

  // ---------------------------------------------------------------------------------- expiry

  lemma {:induction false} BytesSubset(a: Files, b: Files, some: set<Id>, all: set<Id>)
    requires some <= all && some <= a.Keys && all <= b.Keys && forall id :: id in some ==> a[id].size == b[id].size
    ensures Bytes(a, some) <= Bytes(b, all)
    decreases |some|
  {
    if some != {} {
      var x :| x in some;
      BytesRemove(a, some, x);
      BytesRemove(b, all, x);
      BytesSubset(a, b, some - {x}, all - {x});
    }
  }

  /** A live file goes with its expired first version. */
  ghost predicate TakesLiveFile(w: World, id: Id, retention: nat) {
    Goes(w, id, retention) && w.files[id].Live()
  }

  lemma ExpireForUser(w: World, retention: nat, u: User)
    requires Tables(w)
    ensures LiveBytes(Expire(w, retention).files, u) == LiveBytes(w.files, u) <==>
            forall id :: id in w.files && w.files[id].uploader == u ==> !TakesLiveFile(w, id, retention)
  {
    var after := Expire(w, retention).files;
    if id :| id in w.files && w.files[id].uploader == u && TakesLiveFile(w, id, retention) {
      BytesRemove(w.files, LiveFiles(w.files, u), id);
      BytesSubset(after, w.files, LiveFiles(after, u), LiveFiles(w.files, u) - {id});
    } else {
      assert LiveFiles(after, u) == LiveFiles(w.files, u);
      BytesSame(after, w.files, LiveFiles(after, u));
    }
  }

  /** Expiry deletes rows without touching the totals. It keeps the law exactly when no live version hangs on an
      expired first version (whose deletion cascades to the whole version group). */
  lemma ExpireExactly(w: World, retention: nat)
    requires Inv(w)
    ensures Tables(Expire(w, retention))
    ensures Conserved(Expire(w, retention)) <==>
            forall id :: id in w.files && TakesLiveFile(w, id, retention) ==> w.files[id].uploader !in w.profiles
  {
    var d := Expire(w, retention);
    forall u ensures LiveBytes(d.files, u) == LiveBytes(w.files, u) <==>
                     forall id :: id in w.files && w.files[id].uploader == u ==> !TakesLiveFile(w, id, retention) {
      ExpireForUser(w, retention, u);
    }
  }

  // ---------------------------------------------------------------------------------- recalculation

  /** `recalculate_user_storage_quota`. */
  ghost function Recalculate(w: World, u: User): World {
    if u in w.profiles then w.(profiles := w.profiles[u := w.profiles[u].(total := LiveBytes(w.files, u))]) else w
  }

  /** The recalculation changes nothing for anybody exactly when the law holds; in any state it restores the law
      for its user and leaves the other totals alone. */
  lemma RecalculationFinds(w: World)
    ensures (forall u :: u in w.profiles ==> Recalculate(w, u) == w) <==> Conserved(w)
    ensures forall u :: u in w.profiles ==> Recalculate(w, u).profiles[u].total == LiveBytes(w.files, u)
    ensures forall u, v ::
        u in w.profiles && v in w.profiles && v != u ==> Recalculate(w, u).profiles[v] == w.profiles[v]
  {
    forall u | u in w.profiles ensures Recalculate(w, u) == w <==> w.profiles[u].total == LiveBytes(w.files, u) {
      assert Recalculate(w, u).profiles[u].total == LiveBytes(w.files, u);
      if w.profiles[u].total == LiveBytes(w.files, u) {
        assert Recalculate(w, u).profiles == w.profiles;
      }
    }
  }

  // ---------------------------------------------------------------------------------- runs

  datatype Action =
    | DoUpload(user: User, size: nat)
    | DoNewVersion(id: Id, user: User, size: nat)
    | DoDelete(id: Id)
    | DoRestore(id: Id)
    | DoBulkDelete(ids: seq<Id>)
    | DoBulkRestore(ids: seq<Id>)
    | DoExpire(retention: nat)
    | DoRecalculate(user: User)
    | Wait(days: nat)

  /** Single deletions and restores here work on freshly loaded instances; a queryset has no repeated rows. */
  ghost function Step(w: World, a: Action): World {
    match a
    case DoUpload(u, size) => Upload(w, u, size)
    case DoNewVersion(id, u, size) => NewVersion(w, id, u, size)
    case DoDelete(id) => if id in w.files then SoftDeleteAs(w, id, !w.files[id].Live()) else w
    case DoRestore(id) => if id in w.files then RestoreAs(w, id, !w.files[id].Live()) else w
    case DoBulkDelete(ids) => if NoRepeats(ids) then BulkDelete(w, ids) else w
    case DoBulkRestore(ids) => if NoRepeats(ids) then BulkRestore(w, ids) else w
    case DoExpire(retention) => Expire(w, retention)
    case DoRecalculate(u) => Recalculate(w, u)
    case Wait(days) => w.(now := w.now + days)
  }

  ghost function Run(w: World, actions: seq<Action>): World {
    if actions == [] then w else Step(Run(w, actions[..|actions| - 1]), actions[|actions| - 1])
  }

  /** An expiry that takes no live file of anybody with a profile; any other operation. */
  ghost predicate Safe(w: World, a: Action) {
    a.DoExpire? ==> forall id ::
        id in w.files && TakesLiveFile(w, id, a.retention) ==> w.files[id].uploader !in w.profiles
  }

  ghost predicate AllSafe(w: World, actions: seq<Action>) {
    forall k :: 0 <= k < |actions| ==> Safe(Run(w, actions[..k]), actions[k])
  }

  ghost predicate LawHolds(w: World, actions: seq<Action>) {
    forall k :: 0 <= k <= |actions| ==> Inv(Run(w, actions[..k]))
  }

  lemma StepKeeps(w: World, a: Action)
    requires Inv(w)
    ensures Inv(Step(w, a)) <==> Safe(w, a)
  {
    match a
    case DoUpload(u, size) =>
      if size > 0 && Allows(w.profiles, u, size) { AddFileKeeps(w, File(u, size, w.nextId, None)); }
    case DoNewVersion(id, u, size) =>
      if id in w.files && Step(w, a) != w { AddFileKeeps(w, File(u, size, w.files[id].group, None)); }
    case DoDelete(id) => if id in w.files && w.files[id].Live() { OneMoreDeleted(w, id); }
    case DoRestore(id) => if id in w.files && !w.files[id].Live() { OneMoreRestored(w, id); }
    case DoBulkDelete(ids) => if NoRepeats(ids) { BulkDeleteStepwise(w, Select(w.files, ids, false)); }
    case DoBulkRestore(ids) => if NoRepeats(ids) { BulkRestoreStepwise(w, Select(w.files, ids, true)); }
    case DoExpire(retention) => ExpireExactly(w, retention);
    case DoRecalculate(u) => RecalculationFinds(w);
    case Wait(_) =>
  }

  /** What becomes of one file in a step, told file by file; `None` means: there is no such file. */
  predicate Removed(w: World, a: Action, id: Id)
    requires id in w.files
  {
    && a.DoExpire?
    && (Aged(w.files, id, w.now, a.retention) || Aged(w.files, w.files[id].group, w.now, a.retention))
  }

  predicate MarksFile(w: World, a: Action, id: Id)
    requires id in w.files
  {
    w.files[id].Live() && ((a.DoDelete? && a.id == id) || (a.DoBulkDelete? && NoRepeats(a.ids) && id in a.ids))
  }

  predicate UnmarksFile(w: World, a: Action, id: Id)
    requires id in w.files
  {
    !w.files[id].Live() && ((a.DoRestore? && a.id == id) || (a.DoBulkRestore? && NoRepeats(a.ids) && id in a.ids))
  }

  /** Deleted longer ago than the retention time. */
  predicate Aged(files: Files, id: Id, now: nat, retention: nat) {
    id in files && files[id].deletedAt.Some? && files[id].deletedAt.value + retention < now
  }

  /** The fate of every file in every step: removed, marked with the time, unmarked, or left as it is. */
  lemma FateOfFiles(w: World, a: Action, id: Id)
    requires id in w.files && w.nextId !in w.files
    ensures id !in Step(w, a).files <==> Removed(w, a, id)
    ensures !Removed(w, a, id) ==>
              Step(w, a).files[id] == if MarksFile(w, a, id) then w.files[id].(deletedAt := Some(w.now))
                                      else if UnmarksFile(w, a, id) then w.files[id].(deletedAt := None)
                                      else w.files[id]
  {
  }

  /** New files come from accepted uploads and versions only, one each, and say whose they are. */
  lemma FilesFromUploads(w: World, a: Action, id: Id)
    requires Inv(w) && id !in w.files
    ensures id in Step(w, a).files <==>
            && id == w.nextId && (a.DoUpload? || a.DoNewVersion?) && a.size > 0
            && (a.user in w.profiles ==> LiveBytes(w.files, a.user) + a.size <= w.profiles[a.user].quota)
            && (a.DoNewVersion? ==> a.id in w.files && w.files[a.id].uploader == a.user)
    ensures id in Step(w, a).files ==>
              Step(w, a).files[id] ==
                File(a.user, a.size, if a.DoNewVersion? then w.files[a.id].group else id, None)
  {
  }

  /** Conservation: the law holds at every step of a run exactly when no expiry of the run takes a live file. */
  lemma QuotaConserved(w: World, actions: seq<Action>)
    requires Inv(w)
    ensures LawHolds(w, actions) <==> AllSafe(w, actions)
  {
    var good := (k: nat) => k <= |actions| && Inv(Run(w, actions[..k]));
    var safe := (k: nat) => k < |actions| && Safe(Run(w, actions[..k]), actions[k]);
    assert actions[..0] == [];
    forall k | 0 <= k < |actions| && good(k) ensures good(k + 1) <==> safe(k) {
      assert actions[..k + 1][..k] == actions[..k];
      StepKeeps(Run(w, actions[..k]), actions[k]);
    }
    Throughout(good, safe, |actions|);
    assert forall k :: 0 <= k <= |actions| ==> good(k) == Inv(Run(w, actions[..k]));
    assert forall k :: 0 <= k < |actions| ==> safe(k) == Safe(Run(w, actions[..k]), actions[k]);
  }

  /** The same from the empty table, where nobody has stored anything. */
  lemma ConservedFromEmpty(profiles: Profiles, now: nat, actions: seq<Action>)
    requires forall u :: u in profiles ==> profiles[u].total == 0
    ensures var start := World(map[], profiles, 0, now); LawHolds(start, actions) <==> AllSafe(start, actions)
  {
    EmptyStart(profiles, now);
    QuotaConserved(World(map[], profiles, 0, now), actions);
  }

  lemma EmptyStart(profiles: Profiles, now: nat)
    requires forall u :: u in profiles ==> profiles[u].total == 0
    ensures Inv(World(map[], profiles, 0, now))
  {
    forall u ensures LiveBytes(map[], u) == 0 {
      assert LiveFiles(map[], u) == {};
    }
  }

  /** Under the law `GREATEST(..., 0)` never clips a live file's deletion. */
  lemma ClampIdle(w: World, id: Id)
    requires Inv(w) && id in w.files && w.files[id].Live() && w.files[id].uploader in w.profiles
    ensures w.profiles[w.files[id].uploader].total - w.files[id].size >= 0
  {
    SizeWithin(w.files, id);
  }

  /** An accepted upload leaves the user's live files within the quota. */
  lemma UploadWithinQuota(w: World, u: User, size: nat)
    requires Inv(w) && u in w.profiles && Upload(w, u, size) != w
    ensures LiveBytes(Upload(w, u, size).files, u) <= w.profiles[u].quota
  {
    AddFileKeeps(w, File(u, size, w.nextId, None));
  }

  /** The failing family, concretely: a first version is deleted while its second version stays; when the first
      expires the second goes with it, and the total still counts its 5 bytes. */
  lemma ExpiredOriginalTakesItsVersion()
    ensures var f := map[0 := File(1, 3, 0, Some(0)), 1 := File(1, 5, 0, None)];
            var w := World(f, map[1 := Profile(5, 100)], 2, 31);
            Inv(w) && Expire(w, 30).files == map[] && Expire(w, 30).profiles[1].total == 5 && !Conserved(Expire(w, 30))
  {
    var f := map[0 := File(1, 3, 0, Some(0)), 1 := File(1, 5, 0, None)];
    var w := World(f, map[1 := Profile(5, 100)], 2, 31);
    assert LiveFiles(f, 1) == {1};
    var none: set<Id> := {};
    BytesRemove(f, {1}, 1);
    assert {1} - {1} == none;
    assert Expired(w, 0, 30) && Goes(w, 0, 30) && Goes(w, 1, 30);
    assert Expire(w, 30).files == map[];
    assert LiveFiles(map[], 1) == {};
  }

  // ---------------------------------------------------------------------------------- the service

  /** Nobody else's profile has changed. */
  predicate OthersKeep(before: Profiles, after: Profiles, u: User) {
    after.Keys == before.Keys && forall v :: v in before && v != u ==> after[v] == before[v]
  }

  predicate SameQuotas(before: Profiles, after: Profiles) {
    after.Keys == before.Keys && forall u :: u in before ==> after[u].quota == before[u].quota
  }

  /** The files of a queryset that are live, or that are deleted. */
  function Among(files: Files, ids: seq<Id>, live: bool): set<Id> {
    set id | id in ids && id in files && files[id].Live() == live
  }

  ghost function BytesOf(files: Files, ids: set<Id>, u: User): nat
    requires ids <= files.Keys
  {
    Bytes(files, set id | id in ids && files[id].uploader == u)
  }

  lemma SelectedOnes(files: Files, ids: seq<Id>, deleted: bool)
    ensures forall id :: id in Select(files, ids, deleted) <==> id in Among(files, ids, !deleted)
    ensures NoRepeats(ids) ==> |Select(files, ids, deleted)| == |Among(files, ids, !deleted)|
  {
    if NoRepeats(ids) {
      DistinctSize(Select(files, ids, deleted), Among(files, ids, !deleted));
    }
  }

  lemma {:induction false} DistinctSize(s: seq<Id>, all: set<Id>)
    requires NoRepeats(s) && forall id :: id in s <==> id in all
    ensures |s| == |all|
  {
    if s == [] {
      assert all == {};
    } else {
      var n := |s| - 1;
      assert forall id :: id in s <==> id in s[..n] || id == s[n];
      assert s[n] !in s[..n];
      DistinctSize(s[..n], all - {s[n]});
      assert s[n] in all;
    }
  }

  lemma {:induction false} MinusAllQuotas(ps: Profiles, files: Files, ids: seq<Id>)
    requires forall id :: id in ids ==> id in files
    ensures SameQuotas(ps, MinusAll(ps, files, ids))
  {
    if ids != [] {
      MinusAllQuotas(ps, files, ids[..|ids| - 1]);
    }
  }

  lemma {:induction false} PlusAllQuotas(ps: Profiles, files: Files, ids: seq<Id>)
    requires forall id :: id in ids ==> id in files
    ensures SameQuotas(ps, PlusAll(ps, files, ids))
  {
    if ids != [] {
      PlusAllQuotas(ps, files, ids[..|ids| - 1]);
    }
  }

  lemma {:induction false} BytesSplit(files: Files, part: set<Id>, all: set<Id>)
    requires part <= all <= files.Keys
    ensures Bytes(files, all) == Bytes(files, part) + Bytes(files, all - part)
    decreases |part|
  {
    if part == {} {
      assert all - part == all;
    } else {
      var x :| x in part;
      BytesRemove(files, all, x);
      BytesRemove(files, part, x);
      BytesSplit(files, part - {x}, all - {x});
      assert (all - {x}) - (part - {x}) == all - part;
    }
  }

  /** What a user's live files lose when the live ones of a queryset are marked. */
  lemma BulkTotals(files: Files, ids: seq<Id>, now: nat)
    ensures forall u :: LiveBytes(Marked(files, Select(files, ids, false), Some(now)), u) ==
                        LiveBytes(files, u) - BytesOf(files, Among(files, ids, true), u)
  {
    var after := Marked(files, Select(files, ids, false), Some(now));
    forall u ensures LiveBytes(after, u) == LiveBytes(files, u) - BytesOf(files, Among(files, ids, true), u) {
      var gone := set id | id in Among(files, ids, true) && files[id].uploader == u;
      BytesSplit(files, gone, LiveFiles(files, u));
      assert LiveFiles(after, u) == LiveFiles(files, u) - gone;
      BytesSame(after, files, LiveFiles(after, u));
    }
  }

  lemma BulkRestored(files: Files, ids: seq<Id>)
    ensures forall u :: LiveBytes(Marked(files, Select(files, ids, true), None), u) ==
                        LiveBytes(files, u) + BytesOf(files, Among(files, ids, false), u)
  {
    var after := Marked(files, Select(files, ids, true), None);
    forall u ensures LiveBytes(after, u) == LiveBytes(files, u) + BytesOf(files, Among(files, ids, false), u) {
      var back := set id | id in Among(files, ids, false) && files[id].uploader == u;
      assert LiveFiles(after, u) == LiveFiles(files, u) + back && LiveFiles(after, u) - back == LiveFiles(files, u);
      BytesSplit(files, back, LiveFiles(after, u));
      BytesSame(after, files, LiveFiles(after, u));
    }
  }

  class MediaStore {
    var files: Files
    var profiles: Profiles
    var nextId: Id
    var now: nat

    function State(): World
      reads this
    {
      World(files, profiles, nextId, now)
    }

    /** Tables in order, and every total the sum of the user's live files. */
    ghost predicate Valid()
      reads this
    {
      Inv(State())
    }

    method AddStorageUsage(u: User, bytes: nat)
      modifies this`profiles
      ensures profiles == Plus(old(profiles), u, bytes)
      ensures OthersKeep(old(profiles), profiles, u)
      ensures u in profiles ==>
                profiles[u].total == old(profiles)[u].total + bytes && profiles[u].quota == old(profiles)[u].quota
    {
      if u in profiles {
        profiles := profiles[u := profiles[u].(total := profiles[u].total + bytes)];
      }
    }

    method SubtractStorageUsage(u: User, bytes: nat)
      modifies this`profiles
      ensures profiles == Minus(old(profiles), u, bytes)
      ensures OthersKeep(old(profiles), profiles, u)
      ensures u in profiles ==>
                && profiles[u].quota == old(profiles)[u].quota && profiles[u].total >= 0
                && (old(profiles)[u].total >= bytes ==> profiles[u].total == old(profiles)[u].total - bytes)
                && (old(profiles)[u].total < bytes ==> profiles[u].total == 0)
    {
      if u in profiles {
        var rest := profiles[u].total - bytes;
        profiles := profiles[u := profiles[u].(total := if rest > 0 then rest else 0)];
      }
    }

    method CreateFromUpload(u: User, size: nat) returns (ok: bool)
      requires Valid()
      modifies this
      ensures Valid() && (ok && u in profiles ==> LiveBytes(files, u) <= profiles[u].quota)
      ensures State() == Upload(old(State()), u, size)
      ensures ok <==> size > 0 && (u in profiles ==> LiveBytes(old(files), u) + size <= old(profiles)[u].quota)
      ensures ok ==> files == old(files)[old(nextId) := File(u, size, old(nextId), None)] && nextId == old(nextId) + 1
      ensures ok && u in profiles ==> profiles[u].total == old(profiles)[u].total + size
      ensures !ok ==> State() == old(State())
    {
      StepKeeps(State(), DoUpload(u, size));
      if size == 0 { return false; }
      if u in profiles && !CanUpload(profiles[u], size) { return false; }
      files := files[nextId := File(u, size, nextId, None)];
      nextId := nextId + 1;
      AddStorageUsage(u, size);
      return true;
    }

    method CreateNewVersion(id: Id, u: User, size: nat) returns (ok: bool)
      requires Valid() && id in files
      modifies this
      ensures Valid() && (ok && u in profiles ==> LiveBytes(files, u) <= profiles[u].quota)
      ensures State() == NewVersion(old(State()), id, u, size)
      ensures ok <==> && u == old(files)[id].uploader && size > 0
                      && (u in profiles ==> LiveBytes(old(files), u) + size <= old(profiles)[u].quota)
      ensures ok ==> files == old(files)[old(nextId) := File(u, size, old(files)[id].group, None)]
      ensures ok && u in profiles ==> profiles[u].total == old(profiles)[u].total + size
      ensures !ok ==> State() == old(State())
    {
      StepKeeps(State(), DoNewVersion(id, u, size));
      if files[id].uploader != u { return false; }
      if u in profiles && !CanUpload(profiles[u], size) { return false; }
      if size == 0 { return false; }
      files := files[nextId := File(u, size, files[id].group, None)];
      nextId := nextId + 1;
      AddStorageUsage(u, size);
      return true;
    }

    /** `known` is the instance's own `is_deleted`, loaded with it. The hook runs before the row is saved. */
    method SoftDelete(id: Id, known: bool)
      requires Valid() && id in files
      modifies this
      ensures State() == SoftDeleteAs(old(State()), id, known)
      ensures known == !old(files)[id].Live() ==> Valid()
      ensures OthersKeep(old(profiles), profiles, files[id].uploader)
      ensures known ==> State() == old(State())
      ensures !known ==> files == old(files)[id := old(files)[id].(deletedAt := Some(now))]
      ensures var u := files[id].uploader;
              !known && old(files)[id].Live() && u in profiles ==>
                profiles[u].total == old(profiles)[u].total - files[id].size
    {
      StepKeeps(State(), DoDelete(id));
      if files[id].Live() { SizeWithin(files, id); }
      if known { return; }
      SubtractStorageUsage(files[id].uploader, files[id].size);
      files := files[id := files[id].(deletedAt := Some(now))];
    }

    method Restore(id: Id, known: bool)
      requires Valid() && id in files
      modifies this
      ensures State() == RestoreAs(old(State()), id, known)
      ensures known == !old(files)[id].Live() ==> Valid()
      ensures OthersKeep(old(profiles), profiles, files[id].uploader)
      ensures !known ==> State() == old(State())
      ensures known ==> files == old(files)[id := old(files)[id].(deletedAt := None)]
      ensures var u := files[id].uploader;
              known && u in profiles ==> profiles[u].total == old(profiles)[u].total + files[id].size
    {
      StepKeeps(State(), DoRestore(id));
      if !known { return; }
      AddStorageUsage(files[id].uploader, files[id].size);
      files := files[id := files[id].(deletedAt := None)];
    }

    /** The deletion hooks, one instance after the other. */
    method ReleaseAll(instances: seq<Id>)
      requires forall id :: id in instances ==> id in files
      modifies this`profiles
      ensures profiles == MinusAll(old(profiles), files, instances)
    {
      for k := 0 to |instances|
        invariant profiles == MinusAll(old(profiles), files, instances[..k])
      {
        assert instances[..k + 1][..k] == instances[..k];
        SubtractStorageUsage(files[instances[k]].uploader, files[instances[k]].size);
      }
      assert instances[..|instances|] == instances;
    }

    method ChargeAll(instances: seq<Id>)
      requires forall id :: id in instances ==> id in files
      modifies this`profiles
      ensures profiles == PlusAll(old(profiles), files, instances)
    {
      for k := 0 to |instances|
        invariant profiles == PlusAll(old(profiles), files, instances[..k])
      {
        assert instances[..k + 1][..k] == instances[..k];
        AddStorageUsage(files[instances[k]].uploader, files[instances[k]].size);
      }
      assert instances[..|instances|] == instances;
    }

    /** `SoftDeleteQuerySet.delete`: the hooks one by one, then one update of all rows. */
    method DeleteQuerySet(ids: seq<Id>) returns (count: nat)
      requires Valid()
      modifies this
      ensures NoRepeats(ids) ==> Valid()
      ensures State() == BulkDelete(old(State()), ids)
      ensures count == |Select(old(files), ids, false)|
      ensures files.Keys == old(files).Keys && now == old(now)
      ensures forall id :: id in files ==>
                files[id] == if id in ids && old(files)[id].Live() then old(files)[id].(deletedAt := Some(now))
                             else old(files)[id]
      ensures SameQuotas(old(profiles), profiles)
      ensures NoRepeats(ids) ==>
                && count == |Among(old(files), ids, true)|
                && forall u :: u in profiles ==>
                     profiles[u].total == old(profiles)[u].total - BytesOf(old(files), Among(old(files), ids, true), u)
    {
      var instances := Select(files, ids, false);
      SelectedOnes(files, ids, false);
      MinusAllQuotas(profiles, files, instances);
      if NoRepeats(ids) {
        BulkDeleteStepwise(State(), instances);
        BulkTotals(files, ids, now);
      }
      ReleaseAll(instances);
      files := Marked(files, instances, Some(now));
      count := |instances|;
    }

    method RestoreQuerySet(ids: seq<Id>) returns (count: nat)
      requires Valid()
      modifies this
      ensures NoRepeats(ids) ==> Valid()
      ensures State() == BulkRestore(old(State()), ids)
      ensures count == |Select(old(files), ids, true)|
      ensures files.Keys == old(files).Keys && now == old(now)
      ensures forall id :: id in files ==>
                files[id] == if id in ids && !old(files)[id].Live() then old(files)[id].(deletedAt := None)
                             else old(files)[id]
      ensures SameQuotas(old(profiles), profiles)
      ensures NoRepeats(ids) ==>
                && count == |Among(old(files), ids, false)|
                && forall u :: u in profiles ==>
                     profiles[u].total == old(profiles)[u].total + BytesOf(old(files), Among(old(files), ids, false), u)
    {
      var instances := Select(files, ids, true);
      SelectedOnes(files, ids, true);
      PlusAllQuotas(profiles, files, instances);
      if NoRepeats(ids) {
        BulkRestoreStepwise(State(), instances);
        BulkRestored(files, ids);
      }
      ChargeAll(instances);
      files := Marked(files, instances, None);
      count := |instances|;
    }

    /** Every expired row is deleted in turn, each with the rows that cascade from it. */
    method DeleteExpiredRows(retention: nat)
      modifies this`files
      ensures State() == Expire(old(State()), retention)
    {
      ghost var start := State();
      var todo := set id | id in files && Expired(World(files, profiles, nextId, now), id, retention);
      ghost var expired := todo;
      while todo != {}
        invariant todo <= expired
        invariant files == map id | id in start.files
                             && id !in expired - todo && start.files[id].group !in expired - todo :: start.files[id]
        decreases todo
      {
        var x :| x in todo;
        files := map id | id in files && id != x && files[id].group != x :: files[id];
        todo := todo - {x};
      }
    }

    /** `hard_delete_expired_files`: totals are not touched, so the law survives exactly a safe expiry. */
    method HardDeleteExpiredFiles(retention: nat)
      requires Valid()
      modifies this`files
      ensures State() == Expire(old(State()), retention)
      ensures Valid() <==> Safe(old(State()), DoExpire(retention))
      ensures files.Keys <= old(files).Keys && forall id :: id in files ==> files[id] == old(files)[id]
      ensures forall id :: id in old(files) ==>
                (id in files <==> && !Aged(old(files), id, now, retention)
                                  && !Aged(old(files), old(files)[id].group, now, retention))
    {
      StepKeeps(State(), DoExpire(retention));
      DeleteExpiredRows(retention);
    }

    method RecalculateUserStorageQuota(u: User) returns (difference: int)
      modifies this`profiles
      ensures State() == Recalculate(old(State()), u)
      ensures OthersKeep(old(profiles), profiles, u) && (u in profiles ==> profiles[u].total == LiveBytes(files, u))
      ensures u in old(profiles) ==> difference == LiveBytes(files, u) - old(profiles)[u].total
    {
      difference := 0;
      if u !in profiles { return; }
      var actual := SumSizes(files, LiveFiles(files, u));
      difference := actual - profiles[u].total;
      if difference != 0 {
        profiles := profiles[u := profiles[u].(total := actual)];
      } else {
        assert profiles[u := profiles[u].(total := actual)] == profiles;
      }
    }
  }

  /** The database's `Sum("file_size")`. */
  method SumSizes(files: Files, ids: set<Id>) returns (total: nat)
    requires ids <= files.Keys
    ensures total == Bytes(files, ids)
  {
    total := 0;
    var todo := ids;
    while todo != {}
      invariant todo <= ids && total + Bytes(files, todo) == Bytes(files, ids)
      decreases todo
    {
      var id :| id in todo;
      BytesRemove(files, todo, id);
      total := total + files[id].size;
      todo := todo - {id};
    }
  }
}
