/** Facts about whole runs of service calls: how conversations start, what no run can change, who owns a
    group at any moment, and when a group can lose its owner. */
module ChatRuns {
  import opened Base
  import opened Chat
  import opened ChatInvariants

  // ---------------------------------------------------------------------------------- creation

  function Users(us: seq<User>): set<User> {
    set u | u in us
  }

  lemma UsersSnoc(us: seq<User>)
    requires us != [] && Distinct(us)
    ensures Users(us) == Users(us[..|us| - 1]) + {us[|us| - 1]} && us[|us| - 1] !in Users(us[..|us| - 1])
  {
    assert us == us[..|us| - 1] + [us[|us| - 1]];
  }

  lemma {:induction false} EnrolledAll(c: Conv, us: seq<User>)
    requires JoinOrder(c.rows, c.clock) && OneRowEach(c.rows) && Distinct(us) && Users(us) !! Members(c.rows)
    ensures var d := EnrolAll(c, us);
            && JoinOrder(d.rows, d.clock) && OneRowEach(d.rows)
            && |ActiveAt(d.rows)| == |ActiveAt(c.rows)| + |us| && Members(d.rows) == Members(c.rows) + Users(us)
            && d.(rows := c.rows, clock := c.clock) == c
  {
    if us != [] {
      UsersSnoc(us);
      var init, u := us[..|us| - 1], us[|us| - 1];
      EnrolledAll(c, init);
      Enrolled(EnrolAll(c, init), u, Member);
      assert Members(c.rows) + Users(us) == Members(c.rows) + Users(init) + {u};
    }
  }

  /** The rows added for initial members are plain member rows, after the existing ones. */
  lemma {:induction false} EnrolledPlain(c: Conv, us: seq<User>)
    ensures var d := EnrolAll(c, us);
            && |d.rows| == |c.rows| + |us| && d.rows[..|c.rows|] == c.rows
            && (forall k :: |c.rows| <= k < |d.rows| ==> d.rows[k].role.Member?)
  {
    if us != [] {
      EnrolledPlain(c, us[..|us| - 1]);
      var d := EnrolAll(c, us[..|us| - 1]);
      assert Enrol(d, us[|us| - 1], Member).rows[..|c.rows|] == d.rows[..|c.rows|];
    }
  }

  lemma {:induction false} AnnouncedAll(c: Conv, us: seq<User>, creator: User, s: Story)
    requires Replay(creator, c.messages) == Some(s) && Threads(c.messages)
    requires Distinct(us) && Users(us) !! s.members && creator in s.members
    ensures var d := AnnounceAll(c, us, creator);
            && Replay(creator, d.messages) == Some(s.(members := s.members + Users(us))) && Threads(d.messages)
            && d.(messages := c.messages) == c
  {
    if us == [] {
      assert s.members + Users(us) == s.members;
    } else {
      UsersSnoc(us);
      var init, u := us[..|us| - 1], us[|us| - 1];
      AnnouncedAll(c, init, creator, s);
      var d := AnnounceAll(c, init, creator);
      ThreadsSay(d.messages, ParticipantAdded(u, creator));
      ReplaySay(creator, d.messages, Notice(ParticipantAdded(u, creator)));
      assert s.members + Users(init) + {u} == s.members + Users(us);
    }
  }

  /** `create_group` starts with the creator as the one owner, everybody else a member, and a log that tells so. */
  lemma GroupStarts(creator: User, title: string, members: seq<User>, now: nat)
    requires title != "" && Distinct(members) && creator !in members
    ensures var c := NewGroup(creator, title, members, now);
            && Inv(c) && c.kind.Group? && c.title == title && c.createdBy == Some(creator) && c.deletedAt.None?
            && OwnerOf(c.rows) == Some(creator) && Members(c.rows) == {creator} + Users(members)
            && c.count == 1 + |members| && AllDeclared(c.rows)
  {
    var e := EmptyGroup(creator, title, 1 + |members|, now);
    assert Members(e.rows) == {} && ActiveAt(e.rows) == {};
    Enrolled(e, creator, Owner);
    var o := Enrol(e, creator, Owner);
    assert OwnerRow(o.rows[0]);
    EnrolledAll(o, members);
    EnrolledPlain(o, members);
    var c := EnrolAll(o, members);
    assert c.rows[0] == c.rows[..1][0] == o.rows[0];
    assert OwnerAt(c.rows) == 0;
    ThreadsSay([], GroupCreated(title));
    ReplaySay(creator, [], Notice(GroupCreated(title)));
    assert Say(c, GroupCreated(title)).messages == [] + [Notice(GroupCreated(title))];
    AnnouncedAll(Say(c, GroupCreated(title)), members, creator, Story(title, {creator}, Some(creator)));
  }

  lemma DirectStarts(low: User, high: User, now: nat)
    requires low < high
    ensures var c := NewDirect(low, high, now);
            Inv(c) && c.kind.Direct? && c.deletedAt.None? && c.rows[0].user == low && c.rows[1].user == high
  {
    var e := Conv(Direct, "", None, 2, [], [], None, now);
    assert Members(e.rows) == {} && ActiveAt(e.rows) == {};
    Enrolled(e, low, Unset);
    Enrolled(Enrol(e, low, Unset), high, Unset);
    var c := NewDirect(low, high, now);
    assert 0 in ActiveAt(c.rows);
  }

  // ---------------------------------------------------------------------------------- what no call changes

  /** Rows are never dropped or re-used, and a row with `left_at` set never changes again. */
  ghost predicate Later(c: Conv, d: Conv) {
    && d.kind == c.kind && d.createdBy == c.createdBy && d.clock >= c.clock
    && |d.rows| >= |c.rows| && |d.messages| >= |c.messages|
    && (c.deletedAt.Some? ==> d.deletedAt.Some?)
    && (forall k :: 0 <= k < |c.rows| ==> d.rows[k].user == c.rows[k].user && d.rows[k].joinedAt == c.rows[k].joinedAt)
    && (forall k :: 0 <= k < |c.rows| && !c.rows[k].Active() ==> d.rows[k] == c.rows[k])
    && (forall k :: 0 <= k < |c.messages| ==>
        SameEntry(c.messages[k].body, d.messages[k].body) && d.messages[k].parent == c.messages[k].parent)
  }

  /** A system message never changes, and a text stays a text. */
  predicate SameEntry(before: Body, after: Body) {
    after == before || (before.Text? && after.Text?)
  }

  lemma DepartIsLater(c: Conv, i: nat)
    requires i < |c.rows| && c.rows[i].Active()
    ensures Later(c, Depart(c, i))
  {
  }

  lemma AddIsLater(c: Conv, u: User, actor: User, role: Role)
    ensures Later(c, AddParticipant(c, u, actor, role).conv)
  {
  }

  lemma RemoveIsLater(c: Conv, u: User, actor: User)
    ensures Later(c, RemoveParticipant(c, u, actor).conv)
  {
  }

  lemma RoleIsLater(c: Conv, u: User, role: Role, actor: User)
    ensures Later(c, ChangeRole(c, u, role, actor).conv)
  {
  }

  lemma TransferIsLater(c: Conv, to: User, from: User)
    ensures Later(c, TransferOwnership(c, to, from).conv)
  {
  }

  lemma PostIsLater(c: Conv, u: User, content: string, parent: Option<nat>)
    ensures Later(c, Post(c, u, content, parent))
  {
    var d := Post(c, u, content, parent);
    assert forall k ::
        0 <= k < |c.messages| ==> d.messages[k] == c.messages[k].(replyCount := d.messages[k].replyCount);
  }

  lemma SendIsLater(c: Conv, u: User, content: string, parentId: int)
    ensures Later(c, SendMessage(c, u, content, parentId).conv)
  {
    PostIsLater(c, u, Strip(content), None);
    if KnownId(c, parentId) {
      PostIsLater(c, u, Strip(content), Some(Flatten(c.messages, parentId - 1)));
    }
  }

  lemma StepIsLater(c: Conv, a: Action)
    ensures Later(c, Step(c, a))
  {
    match a
    case DoAdd(actor, u, r) => AddIsLater(c, u, actor, r);
    case DoRemove(actor, u) => RemoveIsLater(c, u, actor);
    case DoChangeRole(actor, u, r) => RoleIsLater(c, u, r, actor);
    case DoTransfer(from, to) => TransferIsLater(c, to, from);
    case DoSend(u, t, p) => SendIsLater(c, u, t, p);
    case DoLeave(u) => if FindActive(c.rows, u) >= 0 { DepartIsLater(c, FindActive(c.rows, u)); }
    case _ =>
  }

  lemma {:induction false} RunIsLater(c: Conv, actions: seq<Action>)
    ensures Later(c, Run(c, actions))
  {
    if actions != [] {
      RunIsLater(c, actions[..|actions| - 1]);
      StepIsLater(Run(c, actions[..|actions| - 1]), actions[|actions| - 1]);
    }
  }

  /** Membership history, for groups and direct conversations: over any run the cached count is the number of
      active rows, a user has at most one of them, and closed rows stay as they were closed. */
  lemma MembershipHistory(c: Conv, actions: seq<Action>)
    requires Inv(c)
    ensures var d := Run(c, actions);
            && d.count == |ActiveAt(d.rows)| && OneRowEach(d.rows) && JoinOrder(d.rows, d.clock)
            && |d.rows| >= |c.rows| && (forall k :: 0 <= k < |c.rows| && !c.rows[k].Active() ==> d.rows[k] == c.rows[k])
  {
    RunKeepsInv(c, actions);
    RunIsLater(c, actions);
  }

  /** Once nobody is active, every call is refused and changes nothing, except that authors, who need not be
      participants for it, may still edit their texts. */
  lemma NobodyActs(c: Conv, a: Action)
    requires ActiveAt(c.rows) == {}
    ensures Step(c, a) == c || (a.DoEdit? && OnlyTexts(c, Step(c, a)))
    ensures Perform(c, a).code.Success? ==> a.DoEdit?
  {
    assert forall k :: 0 <= k < |c.rows| ==> (c.rows[k].Active() ==> k in ActiveAt(c.rows));
    assert FindActive(c.rows, a.actor) == -1;
  }

  /** Nothing is changed but the text of messages, and the number of their edits. */
  ghost predicate OnlyTexts(c: Conv, d: Conv) {
    && d == c.(messages := d.messages, clock := d.clock) && |d.messages| == |c.messages|
    && (forall k :: 0 <= k < |c.messages| ==> Edited(c.messages[k], d.messages[k]))
  }

  predicate Edited(m: Message, n: Message) {
    n == m.(body := n.body, editCount := n.editCount) && (n == m || (m.body.Text? && n.body.Text? && !m.deleted))
  }

  lemma TextsOnward(c: Conv, d: Conv, e: Conv)
    requires OnlyTexts(c, d) && (e == d || OnlyTexts(d, e))
    ensures OnlyTexts(c, e)
  {
    forall k | 0 <= k < |c.messages| ensures Edited(c.messages[k], e.messages[k]) {
      assert Edited(c.messages[k], d.messages[k]);
    }
  }

  lemma {:induction false} EmptyIsFinal(c: Conv, actions: seq<Action>)
    requires Inv(c) && ActiveAt(c.rows) == {}
    ensures OnlyTexts(c, Run(c, actions)) && c.deletedAt.Some?
  {
    if actions != [] {
      var d := Run(c, actions[..|actions| - 1]);
      EmptyIsFinal(c, actions[..|actions| - 1]);
      NobodyActs(d, actions[|actions| - 1]);
      TextsOnward(c, d, Step(d, actions[|actions| - 1]));
    }
  }

  // ---------------------------------------------------------------------------------- nothing blank is stored

  /** Not empty, and without white space at either end. */
  predicate Tidy(s: string) {
    s != "" && !IsSpace(s[0]) && !IsSpace(s[|s| - 1])
  }

  ghost predicate TidyTexts(messages: seq<Message>) {
    forall k :: 0 <= k < |messages| && messages[k].body.Text? ==> Tidy(messages[k].body.content)
  }

  ghost predicate NothingBlank(c: Conv) {
    (c.kind.Group? ==> Tidy(c.title)) && TidyTexts(c.messages)
  }

  lemma PostTidy(c: Conv, sender: User, content: string, parent: Option<nat>)
    requires TidyTexts(c.messages) && Tidy(content)
    ensures TidyTexts(Post(c, sender, content, parent).messages)
  {
    var d := Post(c, sender, content, parent);
    assert forall k :: 0 <= k < |c.messages| ==> d.messages[k].body == c.messages[k].body;
  }

  lemma SendTidy(c: Conv, u: User, content: string, id: int)
    requires NothingBlank(c)
    ensures NothingBlank(SendMessage(c, u, content, id).conv)
  {
    StripMeaning(content);
    if Strip(content) != "" {
      PostTidy(c, u, Strip(content), None);
      if KnownId(c, id) {
        PostTidy(c, u, Strip(content), Some(Flatten(c.messages, id - 1)));
      }
    }
  }

  lemma TitleTidy(c: Conv, u: User, title: string)
    requires NothingBlank(c)
    ensures NothingBlank(UpdateTitle(c, u, title).conv)
  {
    StripMeaning(title);
  }

  lemma EditTidy(c: Conv, k: nat, u: User, content: string, expired: bool)
    requires NothingBlank(c) && k < |c.messages|
    ensures NothingBlank(EditMessage(c, k, u, content, expired).conv)
  {
    StripMeaning(content);
  }

  lemma StepKeepsTidy(c: Conv, a: Action)
    requires NothingBlank(c)
    ensures NothingBlank(Step(c, a))
  {
    match a
    case DoUpdateTitle(u, t) => TitleTidy(c, u, t);
    case DoSend(u, t, id) => SendTidy(c, u, t, id);
    case DoEdit(u, k, t, expired) => if k < |c.messages| { EditTidy(c, k, u, t, expired); }
    case DoLeave(u) => if FindActive(c.rows, u) >= 0 { DepartTidy(c, FindActive(c.rows, u)); }
    case _ =>
  }

  lemma DepartTidy(c: Conv, i: nat)
    requires i < |c.rows| && NothingBlank(c)
    ensures NothingBlank(Depart(c, i))
  {
  }

  /** No run stores a blank title or message, or one with white space at either end. */
  lemma {:induction false} RunKeepsTidy(c: Conv, actions: seq<Action>)
    requires NothingBlank(c)
    ensures NothingBlank(Run(c, actions))
  {
    if actions != [] {
      RunKeepsTidy(c, actions[..|actions| - 1]);
      StepKeepsTidy(Run(c, actions[..|actions| - 1]), actions[|actions| - 1]);
    }
  }

  lemma {:induction false} AnnouncedTidy(c: Conv, us: seq<User>, actor: User)
    requires NothingBlank(c)
    ensures NothingBlank(AnnounceAll(c, us, actor))
  {
    if us != [] {
      AnnouncedTidy(c, us[..|us| - 1], actor);
    }
  }

  // ---------------------------------------------------------------------------------- who owns the group

  /** Who owns a group after a call: ownership moves by a transfer the owner asks for, or by the owner leaving. */
  lemma OwnerAfter(c: Conv, a: Action)
    requires Inv(c) && c.kind.Group?
    ensures OwnerOf(Step(c, a).rows) ==
            if a.DoLeave? && OwnerOf(c.rows) == Some(a.actor) then
              (var j := Successor(c.rows, a.actor); if j < 0 then None else Some(c.rows[j].user))
            else if a.DoTransfer? && OwnerOf(c.rows) == Some(a.actor) && a.user != a.actor
                && a.user in Members(c.rows) then Some(a.user)
            else OwnerOf(c.rows)
  {
    match a
    case DoLeave(u) => OwnerAfterLeave(c, u);
    case DoTransfer(from, to) => OwnerAfterTransfer(c, to, from);
    case DoRemove(actor, u) => OwnerAfterRemove(c, u, actor);
    case DoAdd(actor, u, r) => OwnerAfterAdd(c, u, actor, r);
    case DoChangeRole(actor, u, r) => OwnerAfterRole(c, u, r, actor);
    case DoRead(u) => OwnerAfterRead(c, u);
    case _ => TalkKeepsRows(c, a);
  }

  /** Titles, messages and soft deletion do not touch the participant rows. */
  lemma TalkKeepsRows(c: Conv, a: Action)
    requires a.DoUpdateTitle? || a.DoDelete? || a.DoSend? || a.DoDeleteMessage? || a.DoEdit?
    ensures Step(c, a).rows == c.rows
  {
  }

  lemma OwnerAfterLeave(c: Conv, u: User)
    requires Inv(c) && c.kind.Group?
    ensures OwnerOf(Leave(c, u).conv.rows) ==
            if OwnerOf(c.rows) == Some(u) then
              (var j := Successor(c.rows, u); if j < 0 then None else Some(c.rows[j].user))
            else OwnerOf(c.rows)
  {
    if FindActive(c.rows, u) >= 0 {
      DepartStory(c, FindActive(c.rows, u));
    }
  }

  lemma OwnerAfterTransfer(c: Conv, to: User, from: User)
    requires Inv(c) && c.kind.Group?
    ensures OwnerOf(TransferOwnership(c, to, from).conv.rows) ==
            if OwnerOf(c.rows) == Some(from) && to != from && to in Members(c.rows) then Some(to) else OwnerOf(c.rows)
  {
    ActiveIsMember(c.rows, to);
    KeepsTransfer(c, to, from);
    var d := TransferOwnership(c, to, from);
    if d.code.Success? {
      assert OwnerRow(d.conv.rows[FindActive(c.rows, to)]);
    }
  }

  lemma OwnerAfterRemove(c: Conv, u: User, actor: User)
    requires Inv(c) && c.kind.Group?
    ensures OwnerOf(RemoveParticipant(c, u, actor).conv.rows) == OwnerOf(c.rows)
  {
    var d := RemoveParticipant(c, u, actor);
    if d.code.Success? {
      OwnerStays(c.rows, FindActive(c.rows, u), d.conv.rows[FindActive(c.rows, u)]);
    }
  }

  lemma OwnerAfterAdd(c: Conv, u: User, actor: User, role: Role)
    requires Inv(c) && c.kind.Group?
    ensures OwnerOf(AddParticipant(c, u, actor, role).conv.rows) == OwnerOf(c.rows)
  {
    OwnerSame(c.rows, AddParticipant(c, u, actor, role).conv.rows);
  }

  lemma OwnerAfterRole(c: Conv, u: User, role: Role, actor: User)
    requires Inv(c) && c.kind.Group?
    ensures OwnerOf(ChangeRole(c, u, role, actor).conv.rows) == OwnerOf(c.rows)
  {
    OwnerSame(c.rows, ChangeRole(c, u, role, actor).conv.rows);
  }

  lemma OwnerAfterRead(c: Conv, u: User)
    requires Inv(c) && c.kind.Group?
    ensures OwnerOf(MarkAsRead(c, u).conv.rows) == OwnerOf(c.rows)
  {
    OwnerSame(c.rows, MarkAsRead(c, u).conv.rows);
  }

  ghost predicate Ownerless(c: Conv) {
    ActiveAt(c.rows) != {} && OwnerOf(c.rows).None?
  }

  /** Nobody but `u` could inherit: every other active participant has an undeclared role. */
  ghost predicate NoHeir(rows: seq<Row>, u: User) {
    forall k :: 0 <= k < |rows| && rows[k].Active() && rows[k].user != u ==>
        !rows[k].role.Admin? && !rows[k].role.Member?
  }

  /** The one call that can leave participants behind without an owner: the owner leaving when all the others
      hold undeclared roles. */
  ghost predicate Strands(c: Conv, a: Action) {
    && a.DoLeave? && OwnerOf(c.rows) == Some(a.actor)
    && ActiveAt(c.rows) != {OwnerAt(c.rows)} && NoHeir(c.rows, a.actor)
  }

  lemma LosesOwnerExactly(c: Conv, a: Action)
    requires Inv(c) && c.kind.Group? && !Ownerless(c)
    ensures Ownerless(Step(c, a)) <==> Strands(c, a)
  {
    OwnerAfter(c, a);
    if OwnerOf(c.rows).None? {
      NobodyActs(c, a);
    } else if a.DoLeave? && OwnerOf(c.rows) == Some(a.actor) {
      var i := FindActive(c.rows, a.actor);
      assert i == OwnerAt(c.rows);
      DepartRows(c, i);
      assert i in ActiveAt(c.rows);
      assert ActiveAt(c.rows) == {i} <==> ActiveAt(c.rows) - {i} == {};
    }
  }

  lemma RunStep(c: Conv, actions: seq<Action>, k: nat)
    requires k < |actions|
    ensures Run(c, actions[..k + 1]) == Step(Run(c, actions[..k]), actions[k])
  {
    assert actions[..k + 1][..k] == actions[..k];
  }

  /** The same over runs, whatever roles callers ask for: a group has an owner at every step at which it has
      participants exactly when no call of the run is such a departure. */
  lemma OwnerlessExactly(c: Conv, actions: seq<Action>)
    requires Inv(c) && c.kind.Group? && !Ownerless(c)
    ensures (forall k :: 0 <= k <= |actions| ==> !Ownerless(Run(c, actions[..k]))) <==>
            (forall k :: 0 <= k < |actions| ==> !Strands(Run(c, actions[..k]), actions[k]))
  {
    var good := (k: nat) => k <= |actions| && !Ownerless(Run(c, actions[..k]));
    var safe := (k: nat) => k < |actions| && !Strands(Run(c, actions[..k]), actions[k]);
    assert actions[..0] == [];
    forall k | 0 <= k < |actions| && good(k) ensures good(k + 1) <==> safe(k) {
      RunKeepsInv(c, actions[..k]);
      RunIsLater(c, actions[..k]);
      RunStep(c, actions, k);
      LosesOwnerExactly(Run(c, actions[..k]), actions[k]);
    }
    Throughout(good, safe, |actions|);
    assert forall k :: 0 <= k <= |actions| ==> good(k) == !Ownerless(Run(c, actions[..k]));
    assert forall k :: 0 <= k < |actions| ==> safe(k) == !Strands(Run(c, actions[..k]), actions[k]);
  }

  ghost predicate AllDeclared(rows: seq<Row>) {
    forall k :: 0 <= k < |rows| && rows[k].Active() ==> rows[k].role.Declared()
  }

  /** The guard missing from `add_participant`: the role it is given is one of the declared ones. */
  predicate Proper(a: Action) {
    a.DoAdd? ==> a.role.Declared()
  }

  predicate AllProper(actions: seq<Action>) {
    forall k :: 0 <= k < |actions| ==> Proper(actions[k])
  }

  lemma StaysDeclared(c: Conv, a: Action)
    requires Inv(c) && c.kind.Group? && AllDeclared(c.rows) && Proper(a)
    ensures AllDeclared(Step(c, a).rows)
  {
    match a
    case DoLeave(u) => if FindActive(c.rows, u) >= 0 { DepartsDeclared(c, FindActive(c.rows, u)); }
    case DoTransfer(from, to) => TransfersDeclared(c, to, from);
    case DoAdd(_, _, _) =>
    case DoRemove(_, _) =>
    case DoChangeRole(_, _, _) =>
    case DoRead(_) =>
    case _ => TalkKeepsRows(c, a);
  }

  lemma DepartsDeclared(c: Conv, i: nat)
    requires AllDeclared(c.rows) && i < |c.rows| && c.rows[i].Active()
    ensures AllDeclared(Depart(c, i).rows)
  {
  }

  lemma TransfersDeclared(c: Conv, to: User, from: User)
    requires AllDeclared(c.rows)
    ensures AllDeclared(TransferOwnership(c, to, from).conv.rows)
  {
  }

  /** One owner over every run whose added roles are declared. */
  lemma {:induction false} OneOwnerRun(c: Conv, actions: seq<Action>)
    requires Inv(c) && c.kind.Group? && AllDeclared(c.rows) && !Ownerless(c) && AllProper(actions)
    ensures var d := Run(c, actions);
            Inv(d) && d.kind.Group? && AllDeclared(d.rows) && !Ownerless(d)
  {
    if actions != [] {
      var n := |actions| - 1;
      OneOwnerRun(c, actions[..n]);
      var d, a := Run(c, actions[..n]), actions[n];
      assert Proper(a);
      StepKeepsInv(d, a);
      StepIsLater(d, a);
      StaysDeclared(d, a);
      if OwnerOf(d.rows).Some? {
        LosesOwnerExactly(d, a);
        if ActiveAt(d.rows) != {OwnerAt(d.rows)} {
          var k :| k in ActiveAt(d.rows) && k != OwnerAt(d.rows) by {
            assert OwnerAt(d.rows) in ActiveAt(d.rows);
          }
          assert d.rows[k].user != d.rows[OwnerAt(d.rows)].user && !OwnerRow(d.rows[k]);
        }
      } else {
        NobodyActs(d, a);
      }
    }
  }
}
