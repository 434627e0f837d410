/** Theorems about groups: the log tells the whole story, the owner is unique exactly as long as roles are
    declared, and nobody but the owner moves ownership or dissolves the group. */
module OwnerRules {
  import opened Base
  import opened Chat
  import opened ChatInvariants
  import opened ChatRuns

  /** The group as an accepted `create_group` call leaves it. */
  function Created(creator: User, title: string, initial: seq<User>, now: nat): Conv {
    NewGroup(creator, Strip(title), Without(initial, creator), now)
  }

  lemma CreatedOk(creator: User, title: string, initial: seq<User>, now: nat)
    requires CreateGroupCode(creator, title, initial).Success?
    ensures var c := Created(creator, title, initial, now);
            Inv(c) && c.kind.Group? && c.createdBy == Some(creator) && AllDeclared(c.rows)
                && OwnerOf(c.rows) == Some(creator)
  {
    GroupStarts(creator, Strip(title), Without(initial, creator), now);
  }

  /** In every reachable group, replaying the system messages in creation order from `created_by` gives
      the current title, the active members and the owner; the count and the rows agree; and with nobody left
      the group is soft-deleted. No assumption is made about the roles callers ask for. */
  lemma LogTellsEverything(creator: User, title: string, initial: seq<User>, now: nat, actions: seq<Action>)
    requires CreateGroupCode(creator, title, initial).Success?
    ensures var c := Run(Created(creator, title, initial, now), actions);
            && Replay(creator, c.messages) == Some(Story(c.title, Members(c.rows), OwnerOf(c.rows)))
            && c.count == |ActiveAt(c.rows)| && OneRowEach(c.rows) && AtMostOneOwner(c.rows)
            && (c.count == 0 ==> c.deletedAt.Some? && OwnerOf(c.rows).None?)
  {
    var start := Created(creator, title, initial, now);
    CreatedOk(creator, title, initial, now);
    RunKeepsInv(start, actions);
    RunIsLater(start, actions);
    EmptyHasNoOwner(Run(start, actions));
  }

  /** In every reachable group neither the title nor any message text is blank or has white space at an end. */
  lemma NothingBlankEver(creator: User, title: string, initial: seq<User>, now: nat, actions: seq<Action>)
    requires CreateGroupCode(creator, title, initial).Success?
    ensures NothingBlank(Run(Created(creator, title, initial, now), actions))
  {
    StripMeaning(title);
    var members, text := Without(initial, creator), Strip(title);
    var e := EmptyGroup(creator, text, 1 + |members|, now);
    EnrolledSilently(Enrol(e, creator, Owner), members);
    AnnouncedTidy(Say(EnrolAll(Enrol(e, creator, Owner), members), GroupCreated(text)), members, creator);
    RunKeepsTidy(Created(creator, title, initial, now), actions);
  }

  lemma {:induction false} EnrolledSilently(c: Conv, us: seq<User>)
    ensures var d := EnrolAll(c, us); d.messages == c.messages && d.title == c.title
  {
    if us != [] {
      EnrolledSilently(c, us[..|us| - 1]);
    }
  }

  lemma EmptyHasNoOwner(c: Conv)
    requires Inv(c)
    ensures c.count == 0 ==> OwnerOf(c.rows).None? && c.deletedAt.Some?
  {
    assert OwnerOf(c.rows).Some? ==> OwnerAt(c.rows) in ActiveAt(c.rows);
  }

  ghost predicate OnlyOwner(rows: seq<Row>, i: nat) {
    i in ActiveAt(rows) && rows[i].role.Owner? && forall j :: j in ActiveAt(rows) && j != i ==> !rows[j].role.Owner?
  }

  ghost predicate HasOneOwner(rows: seq<Row>) {
    ActiveAt(rows) != {} ==> exists i: nat :: OnlyOwner(rows, i)
  }

  /** From `create_group` on there is exactly one active owner at every step at which anybody is active, exactly
      when no call of the run is an owner's departure without heirs; with declared roles there is no such call. */
  lemma AlwaysOneOwner(creator: User, title: string, initial: seq<User>, now: nat, actions: seq<Action>)
    requires CreateGroupCode(creator, title, initial).Success?
    ensures var start := Created(creator, title, initial, now);
            && ((forall k :: 0 <= k <= |actions| ==> HasOneOwner(Run(start, actions[..k]).rows)) <==>
                (forall k :: 0 <= k < |actions| ==> !Strands(Run(start, actions[..k]), actions[k])))
            && (AllProper(actions) ==> HasOneOwner(Run(start, actions).rows))
  {
    var start := Created(creator, title, initial, now);
    CreatedOk(creator, title, initial, now);
    OwnerlessExactly(start, actions);
    forall k | 0 <= k <= |actions|
      ensures HasOneOwner(Run(start, actions[..k]).rows) == !Ownerless(Run(start, actions[..k]))
    {
      RunKeepsInv(start, actions[..k]);
      RunIsLater(start, actions[..k]);
      OwnerIsOnly(Run(start, actions[..k]));
    }
    if AllProper(actions) {
      OneOwnerRun(start, actions);
      assert actions[..|actions|] == actions;
    }
  }

  lemma OwnerIsOnly(c: Conv)
    requires Inv(c) && c.kind.Group?
    ensures HasOneOwner(c.rows) <==> !Ownerless(c)
  {
    var i := OwnerAt(c.rows);
    if i >= 0 {
      assert OnlyOwner(c.rows, i);
    }
  }

  // ---------------------------------------------------------------------------------- undeclared roles

  lemma {:induction false} RunCons(c: Conv, a: Action, actions: seq<Action>)
    ensures Run(c, [a] + actions) == Run(Step(c, a), actions)
  {
    var all := [a] + actions;
    if actions == [] {
      assert all[..0] == [];
    } else {
      var n := |actions| - 1;
      assert all[..|all| - 1] == [a] + actions[..n];
      RunCons(c, a, actions[..n]);
    }
  }

  /** Someone other than the owner leaves: one active row fewer, the others as before. */
  lemma OneLeaves(c: Conv, k: nat, odd: nat)
    requires Inv(c) && c.kind.Group? && OwnerOf(c.rows).Some?
    requires k < |c.rows| && c.rows[k].Active() && !c.rows[k].role.Owner?
    requires odd < |c.rows| && odd != k
    ensures var d := Step(c, DoLeave(c.rows[k].user));
            && Inv(d) && d.kind.Group? && OwnerOf(d.rows) == OwnerOf(c.rows)
            && |ActiveAt(d.rows)| < |ActiveAt(c.rows)| && |d.rows| == |c.rows| && d.rows[odd] == c.rows[odd]
  {
    var u := c.rows[k].user;
    KeepsLeave(c, u);
    OwnerAfterLeave(c, u);
    RowLeaves(c, k, odd);
  }

  lemma RowLeaves(c: Conv, k: nat, odd: nat)
    requires RowsOk(c) && c.kind.Group? && AtMostOneOwner(c.rows)
    requires k < |c.rows| && c.rows[k].Active() && !c.rows[k].role.Owner?
    requires odd < |c.rows| && odd != k
    ensures var d := Leave(c, c.rows[k].user).conv;
            && d.kind.Group? && |ActiveAt(d.rows)| < |ActiveAt(c.rows)| && |d.rows| == |c.rows|
                && d.rows[odd] == c.rows[odd]
  {
    assert FindActive(c.rows, c.rows[k].user) == k;
    DepartRows(c, k);
  }

  /** With an undeclared role among the active participants, calls that are all proper can strand the group:
      the others leave, the owner last. */
  lemma {:induction false} Strand(c: Conv) returns (actions: seq<Action>)
    requires Inv(c) && c.kind.Group? && OwnerOf(c.rows).Some? && !AllDeclared(c.rows)
    ensures AllProper(actions) && Ownerless(Run(c, actions))
    decreases |ActiveAt(c.rows)|
  {
    var owner := OwnerOf(c.rows).value;
    var odd :| 0 <= odd < |c.rows| && c.rows[odd].Active() && !c.rows[odd].role.Declared();
    assert odd in ActiveAt(c.rows);
    if NoHeir(c.rows, owner) {
      LosesOwnerExactly(c, DoLeave(owner));
      RunCons(c, DoLeave(owner), []);
      actions := [DoLeave(owner)] + [];
    } else {
      var k :| 0 <= k < |c.rows| && c.rows[k].Active() && c.rows[k].user != owner
          && (c.rows[k].role.Admin? || c.rows[k].role.Member?);
      var a := DoLeave(c.rows[k].user);
      OneLeaves(c, k, odd);
      var rest := Strand(Step(c, a));
      RunCons(c, a, rest);
      actions := [a] + rest;
    }
  }

  /** A group keeps an owner under every proper continuation exactly when all its active roles are declared. */
  lemma KeepsOwnerIffDeclared(c: Conv)
    requires Inv(c) && c.kind.Group? && OwnerOf(c.rows).Some?
    ensures (forall actions :: AllProper(actions) ==> !Ownerless(Run(c, actions))) <==> AllDeclared(c.rows)
  {
    if AllDeclared(c.rows) {
      forall actions | AllProper(actions) ensures !Ownerless(Run(c, actions)) {
        OneOwnerRun(c, actions);
      }
    } else {
      var actions := Strand(c);
      assert Ownerless(Run(c, actions));
    }
  }

  /** A group of one. */
  lemma SoloGroup(now: nat)
    ensures var c := NewGroup(1, "team", [], now);
            Inv(c) && c.kind.Group? && c.rows == [NewRow(1, Owner, now)] && c.deletedAt.None?
  {
    GroupStarts(1, "team", [], now);
  }

  /** A concrete stranding: the creator adds someone with the role "guest" and leaves. */
  lemma GuestStrandsTheGroup(now: nat)
    ensures var c := Step(NewGroup(1, "team", [], now), DoAdd(1, 2, Other("guest")));
            Ownerless(Step(c, DoLeave(1))) && Step(c, DoLeave(1)).deletedAt.None?
  {
    SoloGroup(now);
    SoloStrands(NewGroup(1, "team", [], now));
  }

  /** User 1 alone, as owner of an undeleted group. */
  ghost predicate Solo(c: Conv) {
    && Inv(c) && c.kind.Group? && |c.rows| == 1 && OwnerRow(c.rows[0])
    && c.rows[0].user == 1 && c.deletedAt.None?
  }

  /** User 1 as owner, and a guest. */
  ghost predicate WithGuest(c: Conv) {
    && Inv(c) && c.kind.Group? && c.deletedAt.None? && |c.rows| == 2
    && OwnerRow(c.rows[0]) && c.rows[0].user == 1 && c.rows[1].Active() && c.rows[1].role == Other("guest")
  }

  lemma SoloStrands(start: Conv)
    requires Solo(start)
    ensures var c := Step(start, DoAdd(1, 2, Other("guest")));
            Ownerless(Step(c, DoLeave(1))) && Step(c, DoLeave(1)).deletedAt.None?
  {
    var c := GuestJoins(start);
    GuestAlone(c);
  }

  lemma GuestJoins(start: Conv) returns (c: Conv)
    requires Solo(start)
    ensures c == Step(start, DoAdd(1, 2, Other("guest"))) && WithGuest(c)
  {
    c := Step(start, DoAdd(1, 2, Other("guest")));
    StepKeepsInv(start, DoAdd(1, 2, Other("guest")));
    GuestRow(start);
  }

  lemma GuestRow(start: Conv)
    requires start.kind.Group? && |start.rows| == 1 && OwnerRow(start.rows[0]) && start.rows[0].user == 1
    ensures var c := AddParticipant(start, 2, 1, Other("guest")).conv;
            && c.rows == [start.rows[0], NewRow(2, Other("guest"), start.clock)]
            && c.kind == start.kind && c.deletedAt == start.deletedAt
  {
    assert FindActive(start.rows, 1) == 0 && FindActive(start.rows, 2) == -1;
  }

  lemma GuestAlone(c: Conv)
    requires WithGuest(c)
    ensures Ownerless(Step(c, DoLeave(1))) && Step(c, DoLeave(1)).deletedAt.None?
  {
    assert FindActive(c.rows, 1) == 0;
    OwnerAfterLeave(c, 1);
    DepartRows(c, 0);
    assert 1 in ActiveAt(c.rows) - {0};
  }

  // ---------------------------------------------------------------------------------- runs without the owner

  function Admins(rows: seq<Row>): set<User> {
    set k | 0 <= k < |rows| && rows[k].Active() && rows[k].role.Admin? :: rows[k].user
  }

  lemma AdminsAre(rows: seq<Row>, u: User)
    requires OneRowEach(rows)
    ensures u in Admins(rows) <==> FindActive(rows, u) >= 0 && rows[FindActive(rows, u)].role.Admin?
  {
    if u in Admins(rows) {
      var k :| 0 <= k < |rows| && rows[k].Active() && rows[k].role.Admin? && rows[k].user == u;
      assert k == FindActive(rows, u);
    }
  }

  /** A removal by someone with an undeclared role: the case for which `remove_participant` has no guard. */
  predicate OddRemoval(c: Conv, a: Action, x: User) {
    var i := FindActive(c.rows, a.actor);
    a.DoRemove? && a.user == x && a.actor != x && i >= 0 && !c.rows[i].role.Declared()
  }

  /** What one call by somebody who is not the owner can do to the admins: it makes none, and unmakes one exactly
      by that admin leaving, or by such a removal. */
  lemma AdminsAfter(c: Conv, a: Action, x: User)
    requires Inv(c) && c.kind.Group? && OwnerOf(c.rows) != Some(a.actor)
    ensures x in Admins(Step(c, a).rows) <==> x in Admins(c.rows) && a != DoLeave(x) && !OddRemoval(c, a, x)
  {
    match a
    case DoLeave(u) => AdminsAfterLeave(c, u, x);
    case DoAdd(_, _, _) => AdminsAfterAdd(c, a);
    case DoRemove(_, _) => AdminsAfterRemove(c, a, x);
    case DoRead(_) => AdminsAfterRead(c, a.actor, x);
    case DoChangeRole(_, _, _) => OwnerOnly(c, a);
    case DoTransfer(_, _) => OwnerOnly(c, a);
    case _ => TalkKeepsRows(c, a);
  }

  /** Role changes and transfers asked for by anyone but the owner are refused. */
  lemma OwnerOnly(c: Conv, a: Action)
    requires Inv(c) && c.kind.Group? && OwnerOf(c.rows) != Some(a.actor) && (a.DoChangeRole? || a.DoTransfer?)
    ensures Step(c, a) == c
  {
    var i := FindActive(c.rows, a.actor);
    assert i >= 0 ==> !OwnerRow(c.rows[i]);
  }

  /** Closing a row takes its user, and nobody else, out of the admins. */
  lemma AdminsLessOne(c: Conv, j: nat, actor: Option<User>, x: User)
    requires JoinOrder(c.rows, c.clock) && OneRowEach(c.rows) && j < |c.rows| && c.rows[j].Active()
    ensures x in Admins(MarkLeft(c, j, actor).rows) <==> x in Admins(c.rows) && x != c.rows[j].user
  {
    var rows, k := MarkLeft(c, j, actor).rows, FindActive(c.rows, x);
    LeftRow(c, j, actor);
    AdminsAre(c.rows, x);
    AdminsAre(rows, x);
    if k >= 0 && k != j {
      assert rows[k] == c.rows[k] && FindActive(rows, x) == k;
    }
  }

  lemma AdminsAfterLeave(c: Conv, u: User, x: User)
    requires Inv(c) && c.kind.Group? && OwnerOf(c.rows) != Some(u)
    ensures var d := Leave(c, u).conv; x in Admins(d.rows) <==> x in Admins(c.rows) && x != u
  {
    var i := FindActive(c.rows, u);
    AdminsAre(c.rows, x);
    if i >= 0 {
      assert !OwnerRow(c.rows[i]);
      AdminsLessOne(c, i, None, x);
    }
  }

  lemma AdminsGrow(rows: seq<Row>, r: Row)
    requires !r.role.Admin?
    ensures Admins(rows + [r]) == Admins(rows)
  {
    var grown := rows + [r];
    forall v | v in Admins(rows) ensures v in Admins(grown) {
      var k :| 0 <= k < |rows| && rows[k].Active() && rows[k].role.Admin? && rows[k].user == v;
      assert grown[k] == rows[k];
    }
  }

  lemma AdminsAfterAdd(c: Conv, a: Action)
    requires OwnerAt(c.rows) >= 0 ==> c.rows[OwnerAt(c.rows)].user != a.actor
    requires AtMostOneOwner(c.rows) && a.DoAdd?
    ensures Admins(Step(c, a).rows) == Admins(c.rows)
  {
    var i := FindActive(c.rows, a.actor);
    assert i >= 0 ==> !OwnerRow(c.rows[i]);
    AdminsGrow(c.rows, NewRow(a.user, if a.role.Admin? then Member else a.role, c.clock));
  }

  lemma AdminsAfterRemove(c: Conv, a: Action, x: User)
    requires Inv(c) && c.kind.Group? && OwnerOf(c.rows) != Some(a.actor) && a.DoRemove?
    ensures x in Admins(Step(c, a).rows) <==> x in Admins(c.rows) && !OddRemoval(c, a, x)
  {
    var i, j := FindActive(c.rows, a.actor), FindActive(c.rows, a.user);
    assert i >= 0 ==> !OwnerRow(c.rows[i]);
    AdminsAre(c.rows, x);
    if RemoveParticipant(c, a.user, a.actor).code.Success? {
      AdminsLessOne(c, j, Some(a.actor), x);
    }
  }

  lemma AdminsAfterRead(c: Conv, u: User, x: User)
    requires Inv(c)
    ensures x in Admins(MarkAsRead(c, u).conv.rows) <==> x in Admins(c.rows)
  {
    KeepsRead(c, u);
    var d := MarkAsRead(c, u).conv;
    AdminsAre(c.rows, x);
    AdminsAre(d.rows, x);
    var k := FindActive(c.rows, x);
    if k >= 0 {
      assert d.rows[k].user == x && d.rows[k].Active() && FindActive(d.rows, x) == k;
    }
  }

  /** No call by anyone but the owner soft-deletes a group that has an owner. */
  lemma StaysUndeleted(c: Conv, a: Action)
    requires Inv(c) && c.kind.Group? && OwnerOf(c.rows).Some? && OwnerOf(c.rows) != Some(a.actor)
    ensures Step(c, a).deletedAt == c.deletedAt
  {
    var i := FindActive(c.rows, a.actor);
    assert i >= 0 ==> !OwnerRow(c.rows[i]);
    match a
    case DoLeave(u) => LeaveKeepsMark(c, u);
    case _ =>
  }

  lemma LeaveKeepsMark(c: Conv, u: User)
    requires Inv(c) && c.kind.Group? && OwnerOf(c.rows).Some? && OwnerOf(c.rows) != Some(u)
    ensures Leave(c, u).conv.deletedAt == c.deletedAt
  {
    var i := FindActive(c.rows, u);
    if i >= 0 {
      DepartRows(c, i);
      assert OwnerAt(c.rows) in ActiveAt(Depart(c, i).rows);
    }
  }

  /** No call of the run is made by the owner of that moment. */
  ghost predicate OwnerFree(c: Conv, actions: seq<Action>) {
    forall k :: 0 <= k < |actions| ==> OwnerOf(Run(c, actions[..k]).rows) != Some(actions[k].actor)
  }

  lemma OwnerFreePrefix(c: Conv, actions: seq<Action>, n: nat)
    requires OwnerFree(c, actions) && n <= |actions|
    ensures OwnerFree(c, actions[..n])
  {
    forall k | 0 <= k < n ensures OwnerOf(Run(c, actions[..n][..k]).rows) != Some(actions[..n][k].actor) {
      assert actions[..n][..k] == actions[..k];
    }
  }

  /** What a call by somebody else than the owner keeps. */
  ghost predicate Unmoved(c: Conv, d: Conv) {
    OwnerOf(d.rows) == OwnerOf(c.rows) && d.deletedAt == c.deletedAt && Admins(d.rows) <= Admins(c.rows)
  }

  /** Every admin of c who is none in d is among those who left. */
  ghost predicate GoneLeft(c: Conv, d: Conv, actions: seq<Action>) {
    forall x :: x in Admins(c.rows) && x !in Admins(d.rows) ==> DoLeave(x) in actions
  }

  lemma UnmovedStep(d: Conv, a: Action)
    requires Inv(d) && d.kind.Group? && OwnerOf(d.rows).Some? && OwnerOf(d.rows) != Some(a.actor)
    ensures Unmoved(d, Step(d, a))
  {
    OwnerAfter(d, a);
    StaysUndeleted(d, a);
    forall x ensures x in Admins(Step(d, a).rows) ==> x in Admins(d.rows) {
      AdminsAfter(d, a, x);
    }
  }

  lemma GoneLeftStep(d: Conv, a: Action)
    requires Inv(d) && d.kind.Group? && AllDeclared(d.rows) && OwnerOf(d.rows) != Some(a.actor)
    ensures GoneLeft(d, Step(d, a), [a])
  {
    forall x | x in Admins(d.rows) && x !in Admins(Step(d, a).rows) ensures DoLeave(x) in [a] {
      AdminsAfter(d, a, x);
    }
  }

  lemma UnmovedOn(c: Conv, d: Conv, e: Conv)
    requires Unmoved(c, d) && Unmoved(d, e)
    ensures Unmoved(c, e)
  {
  }

  lemma GoneLeftOn(c: Conv, d: Conv, e: Conv, init: seq<Action>, a: Action)
    requires GoneLeft(c, d, init) && GoneLeft(d, e, [a])
    ensures GoneLeft(c, e, init + [a])
  {
    forall x | x in Admins(c.rows) && x !in Admins(e.rows) ensures DoLeave(x) in init + [a] {
      assert x in Admins(d.rows) ==> DoLeave(x) in [a];
    }
  }

  lemma {:induction false} UnmovedRun(c: Conv, actions: seq<Action>)
    requires Inv(c) && c.kind.Group? && OwnerOf(c.rows).Some? && OwnerFree(c, actions)
    ensures Unmoved(c, Run(c, actions))
  {
    if actions != [] {
      var n := |actions| - 1;
      OwnerFreePrefix(c, actions, n);
      UnmovedRun(c, actions[..n]);
      RunKeepsInv(c, actions[..n]);
      RunIsLater(c, actions[..n]);
      UnmovedStep(Run(c, actions[..n]), actions[n]);
      UnmovedOn(c, Run(c, actions[..n]), Run(c, actions));
    }
  }

  lemma DeclaredThere(c: Conv, init: seq<Action>)
    requires Inv(c) && c.kind.Group? && OwnerOf(c.rows).Some? && AllDeclared(c.rows) && AllProper(init)
    ensures var d := Run(c, init); Inv(d) && d.kind.Group? && AllDeclared(d.rows)
  {
    OneOwnerRun(c, init);
  }

  lemma GoneLeftNext(c: Conv, init: seq<Action>, a: Action)
    requires Inv(c) && c.kind.Group? && OwnerOf(c.rows).Some? && AllDeclared(c.rows) && AllProper(init)
    requires OwnerOf(Run(c, init).rows) != Some(a.actor) && GoneLeft(c, Run(c, init), init)
    ensures GoneLeft(c, Run(c, init + [a]), init + [a])
  {
    var d := Run(c, init);
    DeclaredThere(c, init);
    GoneLeftStep(d, a);
    GoneLeftOn(c, d, Step(d, a), init, a);
    assert (init + [a])[..|init|] == init;
  }

  lemma {:induction false} GoneLeftRun(c: Conv, actions: seq<Action>)
    requires Inv(c) && c.kind.Group? && OwnerOf(c.rows).Some? && OwnerFree(c, actions)
    requires AllDeclared(c.rows) && AllProper(actions)
    ensures GoneLeft(c, Run(c, actions), actions)
  {
    if actions == [] {
    } else {
      var n := |actions| - 1;
      var init, a := actions[..n], actions[n];
      assert actions == init + [a];
      OwnerFreePrefix(c, actions, n);
      assert OwnerOf(Run(c, init).rows) != Some(a.actor);
      GoneLeftRun(c, init);
      GoneLeftNext(c, init, a);
    }
  }

  /** Runs without the owner: same owner, same deletion mark, and the set of admins only shrinks; when all roles
      are declared, only by admins leaving. */
  lemma OwnerFreeRun(c: Conv, actions: seq<Action>)
    requires Inv(c) && c.kind.Group? && OwnerOf(c.rows).Some? && OwnerFree(c, actions)
    ensures var d := Run(c, actions);
            && OwnerOf(d.rows) == OwnerOf(c.rows) && d.deletedAt == c.deletedAt
            && Admins(d.rows) <= Admins(c.rows)
            && (AllDeclared(c.rows) && AllProper(actions) ==>
                  forall x :: x in Admins(c.rows) && x !in Admins(d.rows) ==> DoLeave(x) in actions)
  {
    UnmovedRun(c, actions);
    if AllDeclared(c.rows) && AllProper(actions) {
      GoneLeftRun(c, actions);
    }
  }

  // ---------------------------------------------------------------------------------- how admins are lost

  ghost predicate LostByLeaving(c: Conv, a: Action) {
    forall x :: x in Admins(c.rows) && x !in Admins(Step(c, a).rows) ==> a == DoLeave(x)
  }

  /** Every admin lost at a step of the run left at that step. */
  ghost predicate OnlyByLeaving(c: Conv, actions: seq<Action>) {
    forall k :: 0 <= k < |actions| ==> LostByLeaving(Run(c, actions[..k]), actions[k])
  }

  ghost predicate RemovesAdmin(c: Conv, a: Action) {
    a.DoRemove? && a.user in Admins(c.rows) && OddRemoval(c, a, a.user)
  }

  lemma LostByLeavingExactly(c: Conv, a: Action)
    requires Inv(c) && c.kind.Group? && OwnerOf(c.rows) != Some(a.actor)
    ensures LostByLeaving(c, a) <==> !RemovesAdmin(c, a)
  {
    forall x ensures x in Admins(Step(c, a).rows) <==> x in Admins(c.rows) && a != DoLeave(x) && !OddRemoval(c, a, x) {
      AdminsAfter(c, a, x);
    }
  }

  /** In a run without the owner, admins go only by leaving exactly when no step is a removal of an admin by
      someone with an undeclared role. */
  lemma OnlyByLeavingExactly(c: Conv, actions: seq<Action>)
    requires Inv(c) && c.kind.Group? && OwnerFree(c, actions)
    ensures OnlyByLeaving(c, actions) <==>
            forall k :: 0 <= k < |actions| ==> !RemovesAdmin(Run(c, actions[..k]), actions[k])
  {
    forall k | 0 <= k < |actions|
      ensures LostByLeaving(Run(c, actions[..k]), actions[k]) <==> !RemovesAdmin(Run(c, actions[..k]), actions[k])
    {
      RunKeepsInv(c, actions[..k]);
      RunIsLater(c, actions[..k]);
      LostByLeavingExactly(Run(c, actions[..k]), actions[k]);
    }
  }

  ghost predicate NoOddAdmin(c: Conv) {
    Inv(c) && c.kind.Group? && (AllDeclared(c.rows) || Admins(c.rows) == {})
  }

  lemma NoOddAdminStep(c: Conv, a: Action)
    requires NoOddAdmin(c) && OwnerOf(c.rows) != Some(a.actor) && Proper(a)
    ensures NoOddAdmin(Step(c, a)) && !RemovesAdmin(c, a)
  {
    StepKeepsInv(c, a);
    StepIsLater(c, a);
    if AllDeclared(c.rows) {
      StaysDeclared(c, a);
    } else {
      forall x ensures x !in Admins(Step(c, a).rows) {
        AdminsAfter(c, a, x);
      }
    }
  }

  lemma {:induction false} NoOddAdminRun(c: Conv, actions: seq<Action>)
    requires NoOddAdmin(c) && OwnerFree(c, actions) && AllProper(actions)
    ensures NoOddAdmin(Run(c, actions))
  {
    if actions != [] {
      var n := |actions| - 1;
      OwnerFreePrefix(c, actions, n);
      NoOddAdminRun(c, actions[..n]);
      assert Proper(actions[n]);
      NoOddAdminStep(Run(c, actions[..n]), actions[n]);
    }
  }

  /** With declared roles, or without admins, no step of a run without the owner is such a removal. */
  lemma NoAdminRemoved(c: Conv, actions: seq<Action>, k: nat)
    requires NoOddAdmin(c) && OwnerFree(c, actions) && AllProper(actions) && k < |actions|
    ensures !RemovesAdmin(Run(c, actions[..k]), actions[k])
  {
    OwnerFreePrefix(c, actions, k);
    NoOddAdminRun(c, actions[..k]);
    assert Proper(actions[k]);
    NoOddAdminStep(Run(c, actions[..k]), actions[k]);
  }

  /** Over all proper continuations without the owner, admins go only by leaving exactly when no undeclared role
      is active now, or there is no admin to lose. */
  lemma AdminsSafeIffDeclared(c: Conv)
    requires Inv(c) && c.kind.Group?
    ensures (forall actions :: AllProper(actions) && OwnerFree(c, actions) ==> OnlyByLeaving(c, actions)) <==>
            AllDeclared(c.rows) || Admins(c.rows) == {}
  {
    if AllDeclared(c.rows) || Admins(c.rows) == {} {
      forall actions | AllProper(actions) && OwnerFree(c, actions) ensures OnlyByLeaving(c, actions) {
        forall k | 0 <= k < |actions| ensures !RemovesAdmin(Run(c, actions[..k]), actions[k]) {
          NoAdminRemoved(c, actions, k);
        }
        OnlyByLeavingExactly(c, actions);
      }
    } else {
      var odd :| 0 <= odd < |c.rows| && c.rows[odd].Active() && !c.rows[odd].role.Declared();
      var x :| x in Admins(c.rows);
      var actions := [DoRemove(c.rows[odd].user, x)];
      OddActs(c, odd, x);
      assert actions[..0] == [];
      OnlyByLeavingExactly(c, actions);
      assert RemovesAdmin(Run(c, actions[..0]), actions[0]);
      assert AllProper(actions) && OwnerFree(c, actions) && !OnlyByLeaving(c, actions);
    }
  }

  lemma OddActs(c: Conv, odd: nat, x: User)
    requires Inv(c) && c.kind.Group? && x in Admins(c.rows)
    requires odd < |c.rows| && c.rows[odd].Active() && !c.rows[odd].role.Declared()
    ensures var a := DoRemove(c.rows[odd].user, x); RemovesAdmin(c, a) && OwnerOf(c.rows) != Some(a.actor)
  {
    assert FindActive(c.rows, c.rows[odd].user) == odd;
    AdminsAre(c.rows, x);
  }

  /** A concrete loss: in a group created with member 2, the owner makes 2 an admin and adds 3 as a "guest"; the
      guest then removes the admin, without any call by the owner. */
  lemma GuestRemovesAdmin(now: nat)
    ensures CreateGroupCode(1, "team", [2]).Success?
    ensures var c := Step(Step(Created(1, "team", [2], now), DoChangeRole(1, 2, Admin)), DoAdd(1, 3, Other("guest")));
            && Inv(c) && OwnerFree(c, [DoRemove(3, 2)])
            && 2 in Admins(c.rows) && 2 !in Admins(Run(c, [DoRemove(3, 2)]).rows)
  {
    TeamOfTwo(now);
    var g := Created(1, "team", [2], now);
    TwoJoined(g);
    GuestActs(Step(Step(g, DoChangeRole(1, 2, Admin)), DoAdd(1, 3, Other("guest"))));
  }

  lemma TeamOfTwo(now: nat)
    ensures CreateGroupCode(1, "team", [2]).Success?
    ensures var g := Created(1, "team", [2], now);
            Inv(g) && g.kind.Group? && g.rows == [NewRow(1, Owner, now), NewRow(2, Member, now + 1)]
  {
    assert Strip("team") == "team";
    assert Without([2], 1) == [2] + Without([], 1) == [2];
    CreatedOk(1, "team", [2], now);
    OneMember(EmptyGroup(1, "team", 2, now), 1, 2);
    OneAnnounced(Say(EnrolAll(Enrol(EmptyGroup(1, "team", 2, now), 1, Owner), [2]), GroupCreated("team")), 2, 1);
  }

  lemma OneMember(e: Conv, creator: User, u: User)
    ensures EnrolAll(Enrol(e, creator, Owner), [u]).rows ==
          e.rows + [NewRow(creator, Owner, e.clock), NewRow(u, Member, e.clock + 1)]
  {
    var d := Enrol(e, creator, Owner);
    assert [u][..0] == [];
    assert EnrolAll(d, [u]) == Enrol(EnrolAll(d, []), u, Member);
  }

  lemma OneAnnounced(d: Conv, u: User, actor: User)
    ensures AnnounceAll(d, [u], actor).rows == d.rows
  {
    assert [u][..0] == [];
    assert AnnounceAll(d, [u], actor) == Say(AnnounceAll(d, [], actor), ParticipantAdded(u, actor));
  }

  /** User 1 owns, the other one is 2. */
  ghost predicate OneAndTwo(g: Conv, second: Role) {
    && Inv(g) && g.kind.Group? && |g.rows| >= 2
    && OwnerRow(g.rows[0]) && g.rows[0].user == 1
    && g.rows[1].Active() && g.rows[1].role == second && g.rows[1].user == 2
  }

  lemma TwoJoined(g: Conv)
    requires OneAndTwo(g, Member) && |g.rows| == 2
    ensures var c := Step(Step(g, DoChangeRole(1, 2, Admin)), DoAdd(1, 3, Other("guest")));
            && OneAndTwo(c, Admin) && |c.rows| == 3
            && c.rows[2].Active() && c.rows[2].user == 3 && c.rows[2].role == Other("guest")
  {
    MemberPromoted(g);
    GuestAdded(Step(g, DoChangeRole(1, 2, Admin)));
  }

  lemma MemberPromoted(g: Conv)
    requires OneAndTwo(g, Member) && |g.rows| == 2
    ensures var d := Step(g, DoChangeRole(1, 2, Admin)); OneAndTwo(d, Admin) && |d.rows| == 2
  {
    StepKeepsInv(g, DoChangeRole(1, 2, Admin));
    assert FindActive(g.rows, 1) == 0 && FindActive(g.rows, 2) == 1;
  }

  lemma GuestAdded(g: Conv)
    requires OneAndTwo(g, Admin) && |g.rows| == 2
    ensures var d := Step(g, DoAdd(1, 3, Other("guest")));
            && OneAndTwo(d, Admin) && |d.rows| == 3
            && d.rows[2].Active() && d.rows[2].user == 3 && d.rows[2].role == Other("guest")
  {
    StepKeepsInv(g, DoAdd(1, 3, Other("guest")));
    assert FindActive(g.rows, 1) == 0 && FindActive(g.rows, 3) == -1;
  }

  lemma GuestActs(c: Conv)
    requires OneAndTwo(c, Admin) && |c.rows| == 3
    requires c.rows[2].Active() && c.rows[2].user == 3 && c.rows[2].role == Other("guest")
    ensures OwnerFree(c, [DoRemove(3, 2)]) && 2 in Admins(c.rows) && 2 !in Admins(Run(c, [DoRemove(3, 2)]).rows)
  {
    var a := DoRemove(3, 2);
    assert c.rows[1].user in Admins(c.rows);
    OddActs(c, 2, 2);
    AdminsAfter(c, a, 2);
    assert [a][..0] == [];
    assert Run(c, [a]) == Step(Run(c, []), a);
  }
}
