/** The rules of a conversation told by roles alone: which calls succeed, who holds which role afterwards, and what the
    log says about roles. An independent account of the calls in `Chat`, which work on rows. */
module RoleMap {
  import opened Base
  import opened Chat
  import opened ChatInvariants
  import opened ChatRuns
  import E = EditHistory

  /** The role of an active participant; `None` for everybody else. */
  function RoleIn(rows: seq<Row>, u: User): Option<Role> {
    var i := FindActive(rows, u);
    if i < 0 then None else Some(rows[i].role)
  }

  /** Who takes over from this owner. */
  function Heir(rows: seq<Row>, departing: User): Option<User> {
    var j := Successor(rows, departing);
    if j < 0 then None else Some(rows[j].user)
  }

  predicate Ranks(r: Option<Role>) {
    r == Some(Owner) || r == Some(Admin)
  }

  // ---------------------------------------------------------------------------------- which calls succeed

  /** What a call needs, by role, content and message. */
  predicate Permitted(c: Conv, a: Action) {
    var mine := RoleIn(c.rows, a.actor);
    match a
    case DoUpdateTitle(_, t) => c.kind.Group? && !Blank(t) && Ranks(mine)
    case DoDelete(_) => c.kind.Group? && mine == Some(Owner)
    case DoAdd(_, u, r) =>
      && c.kind.Group? && RoleIn(c.rows, u).None? && r != Owner
      && mine.Some? && mine != Some(Member) && (r == Admin ==> mine == Some(Owner))
    case DoRemove(actor, u) =>
      && c.kind.Group? && u != actor && mine.Some? && mine != Some(Member)
      && RoleIn(c.rows, u).Some? && RoleIn(c.rows, u) != Some(Owner)
      && !(mine == Some(Admin) && RoleIn(c.rows, u) == Some(Admin))
    case DoLeave(_) => mine.Some?
    case DoChangeRole(_, u, r) =>
      && c.kind.Group? && (r == Admin || r == Member) && mine == Some(Owner)
      && RoleIn(c.rows, u).Some? && RoleIn(c.rows, u) != Some(Owner)
    case DoTransfer(from, to) => c.kind.Group? && to != from && mine == Some(Owner) && RoleIn(c.rows, to).Some?
    case DoRead(_) => mine.Some?
    case DoSend(_, t, id) => c.deletedAt.None? && mine.Some? && !Blank(t) && (id == 0 || 1 <= id <= |c.messages|)
    case DoDeleteMessage(u, k) =>
      && k < |c.messages| && c.messages[k].body.Text? && !c.messages[k].deleted && mine.Some?
      && (c.messages[k].sender == Some(u) || (c.kind.Group? && mine == Some(Owner)))
    case DoEdit(u, k, t, expired) =>
      && k < |c.messages| && c.messages[k].body.Text? && !c.messages[k].deleted && c.messages[k].sender == Some(u)
      && !Blank(t) && !expired && c.messages[k].editCount < E.MAX_EDIT_COUNT
  }

  /** A call succeeds exactly when it has what it needs. */
  lemma PermittedExactly(c: Conv, a: Action)
    ensures Perform(c, a).code.Success? <==> Permitted(c, a)
  {
    match a
    case DoUpdateTitle(_, t) => StripMeaning(t);
    case DoSend(_, t, _) => StripMeaning(t);
    case DoEdit(_, _, t, _) => StripMeaning(t);
    case _ =>
  }

  /** A refusal tells the truth: each code names something that indeed stands in the way. */
  lemma RefusalsAreTrue(c: Conv, a: Action)
    requires a.DoAdd? || a.DoRemove? || a.DoChangeRole? || a.DoTransfer?
    ensures var code, mine, theirs := Perform(c, a).code, RoleIn(c.rows, a.actor), RoleIn(c.rows, a.user);
            && (code.NotGroup? ==> c.kind.Direct?)
            && (code.SameUser? ==> a.DoTransfer? && a.user == a.actor)
            && (code.CannotAddOwner? ==> a.DoAdd? && a.role.Owner?)
            && (code.AlreadyParticipant? ==> a.DoAdd? && theirs.Some?)
            && (code.RemoverNotParticipant? ==> a.DoRemove? && mine.None?)
            && (code.CannotRemoveOwner? ==> a.DoRemove? && theirs == Some(Owner))
            && (code.CannotRemoveSelf? ==> a.DoRemove? && a.user == a.actor)
            && (code.ChangerNotParticipant? ==> a.DoChangeRole? && mine.None?)
            && (code.CannotChangeOwnerRole? ==> a.DoChangeRole? && theirs == Some(Owner))
            && (code.InvalidRole? ==> a.DoChangeRole? && a.role != Admin && a.role != Member)
            && (code.NotOwner? ==> a.DoTransfer? && mine.Some? && mine != Some(Owner))
            && (code.CurrentNotParticipant? ==> a.DoTransfer? && mine.None?)
            && (code.NotParticipant? ==> if a.DoAdd? then mine.None? else theirs.None?)
            && (code.PermissionDenied? ==> mine.Some? && mine != Some(Owner))
  {
  }

  lemma OtherRefusalsAreTrue(c: Conv, a: Action)
    requires a.DoUpdateTitle? || a.DoDelete? || a.DoLeave? || a.DoRead? || a.DoSend? || a.DoDeleteMessage?
    ensures var code, mine := Perform(c, a).code, RoleIn(c.rows, a.actor);
            && (code.NotGroup? ==> c.kind.Direct?)
            && (code.TitleRequired? ==> a.DoUpdateTitle? && Blank(a.title))
            && (code.NotParticipant? ==> mine.None?)
            && (code.PermissionDenied? ==> mine.Some? && (mine != Some(Owner) || c.kind.Direct?))
  {
    match a
    case DoUpdateTitle(_, t) => StripMeaning(t);
    case _ =>
  }

  lemma MessageRefusalsAreTrue(c: Conv, a: Action)
    ensures var code := Perform(c, a).code;
            && (code.EmptyContent? ==> (a.DoSend? || a.DoEdit?) && Blank(a.content))
            && (code.ConversationDeleted? ==> a.DoSend? && c.deletedAt.Some?)
            && (code.InvalidParent? ==> a.DoSend? && a.parentId != 0 && !(1 <= a.parentId <= |c.messages|))
            && (code.NoSuchMessage? ==> (a.DoDeleteMessage? || a.DoEdit?) && a.position >= |c.messages|)
            && (code.SystemMessage? || code.AlreadyDeleted? || code.MessageDeleted? || code.NotAuthor?
                || code.EditTimeExpired? || code.MaxEditsReached? ==>
                  (a.DoDeleteMessage? || a.DoEdit?) && a.position < |c.messages|
                  && var m := c.messages[a.position];
                     && (code.SystemMessage? ==> m.body.System?)
                     && (code.AlreadyDeleted? || code.MessageDeleted? ==> m.deleted)
                     && (code.NotAuthor? ==> m.sender != Some(a.actor))
                     && (code.EditTimeExpired? ==> a.DoEdit? && a.expired)
                     && (code.MaxEditsReached? ==> m.editCount >= E.MAX_EDIT_COUNT))
  {
    match a
    case DoSend(_, t, _) => StripMeaning(t);
    case DoEdit(_, _, t, _) => StripMeaning(t);
    case _ =>
  }

  // ---------------------------------------------------------------------------------- who holds which role

  /** The role of x after the call, from the roles before it. */
  function RoleAfter(c: Conv, a: Action, x: User): Option<Role> {
    var before := RoleIn(c.rows, x);
    if !Permitted(c, a) then before
    else match a
      case DoAdd(_, u, r) => if x == u then Some(r) else before
      case DoRemove(_, u) => if x == u then None else before
      case DoLeave(u) =>
        if x == u then None
        else if c.kind.Group? && RoleIn(c.rows, u) == Some(Owner) && Heir(c.rows, u) == Some(x) then Some(Owner)
        else before
      case DoChangeRole(_, u, r) => if x == u then Some(r) else before
      case DoTransfer(from, to) => if x == to then Some(Owner) else if x == from then Some(Admin) else before
      case _ => before
  }

  /** Rows that differ in no active participant's role give the same roles. */
  lemma SameRoles(a: seq<Row>, b: seq<Row>, x: User)
    requires OneRowEach(a) && OneRowEach(b) && |a| == |b|
    requires forall k :: 0 <= k < |a| ==> a[k].user == b[k].user && a[k].Active() == b[k].Active()
    requires forall k :: 0 <= k < |a| && a[k].user == x ==> a[k].role == b[k].role
    ensures RoleIn(a, x) == RoleIn(b, x)
  {
    var i, j := FindActive(a, x), FindActive(b, x);
    assert i >= 0 ==> b[i].Active() && b[i].user == x;
    assert j >= 0 ==> a[j].Active() && a[j].user == x;
  }

  lemma RoleGiven(rows: seq<Row>, j: nat, role: Role, x: User)
    requires OneRowEach(rows) && j < |rows| && rows[j].Active()
    ensures OneRowEach(rows[j := rows[j].(role := role)])
    ensures RoleIn(rows[j := rows[j].(role := role)], x) == if x == rows[j].user then Some(role) else RoleIn(rows, x)
  {
    var after := rows[j := rows[j].(role := role)];
    assert forall k :: 0 <= k < |rows| ==> after[k].user == rows[k].user && after[k].Active() == rows[k].Active();
    if x == rows[j].user {
      assert after[j].Active() && after[j].user == x;
    } else {
      SameRoles(rows, after, x);
    }
  }

  lemma RoleClosed(c: Conv, j: nat, actor: Option<User>, x: User)
    requires JoinOrder(c.rows, c.clock) && OneRowEach(c.rows) && j < |c.rows| && c.rows[j].Active()
    ensures RoleIn(MarkLeft(c, j, actor).rows, x) == if x == c.rows[j].user then None else RoleIn(c.rows, x)
  {
    var after := MarkLeft(c, j, actor).rows;
    LeftRow(c, j, actor);
    var i, k := FindActive(c.rows, x), FindActive(after, x);
    if x == c.rows[j].user {
      ActiveIsMember(after, x);
    } else {
      assert i >= 0 ==> after[i] == c.rows[i];
      assert k >= 0 ==> k != j && after[k] == c.rows[k];
    }
  }

  lemma RoleEnrolled(c: Conv, u: User, role: Role, x: User)
    requires JoinOrder(c.rows, c.clock) && OneRowEach(c.rows) && RoleIn(c.rows, u).None?
    ensures RoleIn(Enrol(c, u, role).rows, x) == if x == u then Some(role) else RoleIn(c.rows, x)
  {
    var after := Enrol(c, u, role).rows;
    ActiveIsMember(c.rows, u);
    Enrolled(c, u, role);
    var n, i, k := |c.rows|, FindActive(c.rows, x), FindActive(after, x);
    assert after[n].Active() && after[n].user == u && after[n].role == role;
    assert i >= 0 ==> after[i] == c.rows[i];
    assert 0 <= k < n ==> after[k] == c.rows[k];
  }

  lemma RoleDeparted(c: Conv, i: nat, x: User)
    requires Inv(c) && c.kind.Group? && i < |c.rows| && c.rows[i].Active()
    ensures var u := c.rows[i].user;
            RoleIn(Depart(c, i).rows, x) ==
              if x == u then None
              else if c.rows[i].role.Owner? && Heir(c.rows, u) == Some(x) then Some(Owner)
              else RoleIn(c.rows, x)
  {
    var u := c.rows[i].user;
    var j := Successor(c.rows, u);
    if c.rows[i].role.Owner? && j >= 0 {
      var h := HandOver(c, u);
      RoleGiven(c.rows, j, Owner, x);
      SameSeats(c.rows, h.rows, c.clock, h.clock);
      RoleClosed(h, i, None, x);
    } else {
      RoleClosed(c, i, None, x);
    }
  }

  lemma LeaveRows(c: Conv, u: User)
    ensures var i := FindActive(c.rows, u); Leave(c, u).conv.rows == if i < 0 then c.rows else Depart(c, i).rows
  {
  }

  lemma RoleTransferred(c: Conv, to: User, from: User, x: User)
    requires Inv(c) && Permitted(c, DoTransfer(from, to))
    ensures RoleIn(TransferOwnership(c, to, from).conv.rows, x) == RoleAfter(c, DoTransfer(from, to), x)
  {
    var i, j := FindActive(c.rows, from), FindActive(c.rows, to);
    RoleGiven(c.rows, i, Admin, x);
    RoleGiven(SetRole(c, i, Admin).rows, j, Owner, x);
  }

  lemma RoleRead(c: Conv, u: User, x: User)
    requires Inv(c)
    ensures RoleIn(MarkAsRead(c, u).conv.rows, x) == RoleIn(c.rows, x)
  {
    KeepsRead(c, u);
    SameRoles(c.rows, MarkAsRead(c, u).conv.rows, x);
  }

  lemma RoleAfterAdd(c: Conv, actor: User, u: User, r: Role, x: User)
    requires Inv(c) && c.kind.Group?
    ensures RoleIn(AddParticipant(c, u, actor, r).conv.rows, x) == RoleAfter(c, DoAdd(actor, u, r), x)
  {
    if Permitted(c, DoAdd(actor, u, r)) {
      RoleEnrolled(c, u, r, x);
    }
  }

  lemma RoleAfterRemove(c: Conv, actor: User, u: User, x: User)
    requires Inv(c) && c.kind.Group?
    ensures RoleIn(RemoveParticipant(c, u, actor).conv.rows, x) == RoleAfter(c, DoRemove(actor, u), x)
  {
    if Permitted(c, DoRemove(actor, u)) {
      RoleClosed(c, FindActive(c.rows, u), Some(actor), x);
    }
  }

  lemma RoleAfterChange(c: Conv, actor: User, u: User, r: Role, x: User)
    requires Inv(c) && c.kind.Group?
    ensures RoleIn(ChangeRole(c, u, r, actor).conv.rows, x) == RoleAfter(c, DoChangeRole(actor, u, r), x)
  {
    if Permitted(c, DoChangeRole(actor, u, r)) {
      RoleGiven(c.rows, FindActive(c.rows, u), r, x);
    }
  }

  /** Who holds which role after any call on a group: exactly what the rules say, and nobody else's role moves. */
  lemma RoleAfterCall(c: Conv, a: Action, x: User)
    requires Inv(c) && c.kind.Group?
    ensures RoleIn(Step(c, a).rows, x) == RoleAfter(c, a, x)
  {
    match a
    case DoAdd(actor, u, r) => RoleAfterAdd(c, actor, u, r, x);
    case DoRemove(actor, u) => RoleAfterRemove(c, actor, u, x);
    case DoChangeRole(actor, u, r) => RoleAfterChange(c, actor, u, r, x);
    case DoLeave(u) =>
      LeaveRows(c, u);
      if Permitted(c, a) { RoleDeparted(c, FindActive(c.rows, u), x); }
    case DoTransfer(from, to) =>
      PermittedExactly(c, a);
      if Permitted(c, a) { RoleTransferred(c, to, from, x); }
    case DoRead(u) => RoleRead(c, u, x);
    case _ => TalkKeepsRows(c, a);
  }

  // ---------------------------------------------------------------------------------- what the log says of roles

  /** What one event says of u's role, given what was said before; `None` means: nothing that still holds. */
  function Word(e: Event, u: User, before: Option<Role>): Option<Role> {
    match e
    case GroupCreated(_) => before
    case ParticipantAdded(v, _) => if u == v then None else before
    case ParticipantRemoved(v, _, _) => if u == v then None else before
    case RoleChanged(v, _, after, _) => if u == v then Some(after) else before
    case OwnershipTransferred(from, to, manual) =>
      if u == to then Some(Owner) else if u == from && manual then Some(Admin) else before
    case TitleChanged(_, _, _) => before
  }

  /** The last word of the log on u's role, starting from the creator as owner. */
  function RoleTold(creator: User, messages: seq<Message>, u: User): Option<Role> {
    if messages == [] then (if u == creator then Some(Owner) else None)
    else
      var before := RoleTold(creator, messages[..|messages| - 1], u);
      var m := messages[|messages| - 1];
      if m.body.System? then Word(m.body.event, u, before) else before
  }

  lemma ToldSay(creator: User, messages: seq<Message>, m: Message, u: User)
    ensures RoleTold(creator, messages + [m], u) ==
            var before := RoleTold(creator, messages, u);
            if m.body.System? then Word(m.body.event, u, before) else before
  {
    assert (messages + [m])[..|messages|] == messages;
  }

  /** Texts do not matter to it. */
  lemma {:induction false} ToldBodies(creator: User, a: seq<Message>, b: seq<Message>, u: User)
    requires |a| == |b|
    requires forall k :: 0 <= k < |a| ==> a[k].body == b[k].body || (a[k].body.Text? && b[k].body.Text?)
    ensures RoleTold(creator, a, u) == RoleTold(creator, b, u)
  {
    if a != [] {
      ToldBodies(creator, a[..|a| - 1], b[..|b| - 1], u);
    }
  }

  /** Whatever the log last said of somebody's role is the role of that participant's row. */
  ghost predicate ToldTrue(c: Conv, u: User) {
    c.createdBy.Some? &&
    (RoleTold(c.createdBy.value, c.messages, u).Some? ==>
       RoleIn(c.rows, u) == RoleTold(c.createdBy.value, c.messages, u))
  }

  /** The messages a call leaves, as far as the log is concerned: the old ones, up to texts, and the events told. */
  function Events(c: Conv, a: Action): seq<Event> {
    if !Permitted(c, a) then []
    else match a
      case DoUpdateTitle(u, t) => [TitleChanged(c.title, Strip(t), u)]
      case DoAdd(actor, u, _) => [ParticipantAdded(u, actor)]
      case DoRemove(actor, u) => [ParticipantRemoved(u, Some(actor), false)]
      case DoLeave(u) =>
        var heir := Heir(c.rows, u);
        (if c.kind.Group? && RoleIn(c.rows, u) == Some(Owner) && heir.Some?
         then [OwnershipTransferred(u, heir.value, false)] else [])
        + [ParticipantRemoved(u, None, true)]
      case DoChangeRole(actor, u, r) =>
        var before := RoleIn(c.rows, u).value;
        if before == r then [] else [RoleChanged(u, before, r, actor)]
      case DoTransfer(from, to) => [OwnershipTransferred(from, to, true)]
      case _ => []
  }

  function Notices(events: seq<Event>): (r: seq<Message>)
    ensures |r| == |events| && forall k :: 0 <= k < |r| ==> r[k] == Notice(events[k])
  {
    if events == [] then [] else Notices(events[..|events| - 1]) + [Notice(events[|events| - 1])]
  }

  /** Every call but sending, deleting and editing a message appends exactly these events, in this order. */
  lemma EventsTold(c: Conv, a: Action)
    requires !a.DoSend? && !a.DoDeleteMessage? && !a.DoEdit?
    ensures Step(c, a).messages == c.messages + Notices(Events(c, a))
  {
    PermittedExactly(c, a);
    if a.DoLeave? {
      if Permitted(c, a) { LeaveMessages(c, a.actor); }
    } else {
      OneNotice(c, a);
    }
  }

  lemma OneNotice(c: Conv, a: Action)
    requires !a.DoSend? && !a.DoDeleteMessage? && !a.DoEdit? && !a.DoLeave?
    requires Perform(c, a).code.Success? <==> Permitted(c, a)
    ensures Step(c, a).messages == c.messages + Notices(Events(c, a))
  {
    var e := Events(c, a);
    if e == [] {
      assert Step(c, a).messages == c.messages;
    } else {
      assert Notices(e) == [Notice(e[0])];
    }
  }

  lemma Noticed(e: Event, f: Event)
    ensures Notices([e]) == [Notice(e)] && Notices([e, f]) == [Notice(e), Notice(f)]
  {
    assert [e][..0] == [] && [e, f][..1] == [e];
    assert Notices([e]) == Notices([]) + [Notice(e)];
    assert Notices([e, f]) == Notices([e]) + [Notice(f)];
  }

  lemma DepartMessages(c: Conv, i: nat)
    requires i < |c.rows|
    ensures var u := c.rows[i].user;
            var heir, last := Heir(c.rows, u), Notice(ParticipantRemoved(u, None, true));
            Depart(c, i).messages ==
              if c.kind.Group? && c.rows[i].role.Owner? && heir.Some?
              then c.messages + [Notice(OwnershipTransferred(u, heir.value, false))] + [last]
              else c.messages + [last]
  {
  }

  lemma LeaveMessages(c: Conv, u: User)
    requires Permitted(c, DoLeave(u))
    ensures Leave(c, u).conv.messages == c.messages + Notices(Events(c, DoLeave(u)))
  {
    var heir, last := Heir(c.rows, u), ParticipantRemoved(u, None, true);
    var first := if heir.Some? then OwnershipTransferred(u, heir.value, false) else last;
    DepartMessages(c, FindActive(c.rows, u));
    LeftMessages(c, u);
    Noticed(first, last);
    Noticed(last, last);
    assert c.messages + [Notice(first)] + [Notice(last)] == c.messages + [Notice(first), Notice(last)];
  }

  lemma LeftMessages(c: Conv, u: User)
    requires FindActive(c.rows, u) >= 0
    ensures Leave(c, u).conv.messages == Depart(c, FindActive(c.rows, u)).messages
  {
  }

  /** What a sequence of events makes of the word on u. */
  function Words(events: seq<Event>, u: User, before: Option<Role>): Option<Role> {
    if events == [] then before
    else Word(events[|events| - 1], u, Words(events[..|events| - 1], u, before))
  }

  lemma {:induction false} ToldNotices(creator: User, messages: seq<Message>, events: seq<Event>, u: User)
    ensures RoleTold(creator, messages + Notices(events), u) == Words(events, u, RoleTold(creator, messages, u))
  {
    if events == [] {
      assert messages + Notices(events) == messages;
    } else {
      var n := |events| - 1;
      ToldNotices(creator, messages, events[..n], u);
      assert messages + Notices(events) == (messages + Notices(events[..n])) + [Notice(events[n])];
      ToldSay(creator, messages + Notices(events[..n]), Notice(events[n]), u);
    }
  }

  lemma OneWord(e: Event, u: User, before: Option<Role>)
    ensures Words([e], u, before) == Word(e, u, before)
  {
    assert [e][..0] == [];
  }

  lemma TwoWords(e: Event, f: Event, u: User, before: Option<Role>)
    ensures Words([e, f], u, before) == Word(f, u, Word(e, u, before))
  {
    assert [e, f][..1] == [e];
    OneWord(e, u, before);
  }

  lemma LeaveWords(c: Conv, v: User, u: User, before: Option<Role>)
    requires Permitted(c, DoLeave(v)) && (before.Some? ==> before == RoleIn(c.rows, u))
    ensures var told := Words(Events(c, DoLeave(v)), u, before); told.Some? ==> told == RoleAfter(c, DoLeave(v), u)
  {
    var heir, last := Heir(c.rows, v), ParticipantRemoved(v, None, true);
    OneWord(last, u, before);
    if heir.Some? {
      TwoWords(OwnershipTransferred(v, heir.value, false), last, u, before);
    }
  }

  /** The events of a call say of each role what the call made of it. */
  lemma WordsAreTrue(c: Conv, a: Action, u: User, before: Option<Role>)
    requires before.Some? ==> before == RoleIn(c.rows, u)
    ensures var told := Words(Events(c, a), u, before); told.Some? ==> told == RoleAfter(c, a, u)
  {
    if Permitted(c, a) {
      match a
      case DoLeave(v) => LeaveWords(c, v, u, before);
      case DoAdd(actor, v, _) => OneWord(ParticipantAdded(v, actor), u, before);
      case DoRemove(actor, v) => OneWord(ParticipantRemoved(v, Some(actor), false), u, before);
      case DoChangeRole(actor, v, r) => OneWord(RoleChanged(v, RoleIn(c.rows, v).value, r, actor), u, before);
      case DoTransfer(from, to) => OneWord(OwnershipTransferred(from, to, true), u, before);
      case DoUpdateTitle(v, t) => OneWord(TitleChanged(c.title, Strip(t), v), u, before);
      case _ =>
    }
  }

  lemma TalkAppends(c: Conv, a: Action)
    requires a.DoSend? || a.DoDeleteMessage? || a.DoEdit?
    ensures var before, after := c.messages, Step(c, a).messages;
            |after| == |before| || (|after| == |before| + 1 && after[|before|].body.Text?)
  {
  }

  lemma TextTold(creator: User, before: seq<Message>, after: seq<Message>, u: User)
    requires |after| == |before| || (|after| == |before| + 1 && after[|before|].body.Text?)
    requires forall k :: 0 <= k < |before| ==> SameEntry(before[k].body, after[k].body)
    ensures RoleTold(creator, after, u) == RoleTold(creator, before, u)
  {
    ToldBodies(creator, before, after[..|before|], u);
    if |after| == |before| {
      assert after[..|before|] == after;
    } else {
      assert after == after[..|before|] + [after[|before|]];
      ToldSay(creator, after[..|before|], after[|before|], u);
    }
  }

  lemma TalkTold(creator: User, c: Conv, a: Action, u: User)
    requires a.DoSend? || a.DoDeleteMessage? || a.DoEdit?
    ensures RoleTold(creator, Step(c, a).messages, u) == RoleTold(creator, c.messages, u)
  {
    StepIsLater(c, a);
    TalkAppends(c, a);
    TextTold(creator, c.messages, Step(c, a).messages, u);
  }

  lemma StepTellsTrue(c: Conv, a: Action, u: User)
    requires Inv(c) && c.kind.Group? && ToldTrue(c, u)
    ensures ToldTrue(Step(c, a), u)
  {
    var creator := c.createdBy.value;
    StepIsLater(c, a);
    RoleAfterCall(c, a, u);
    if a.DoSend? || a.DoDeleteMessage? || a.DoEdit? {
      TalkTold(creator, c, a, u);
    } else {
      EventsTold(c, a);
      ToldNotices(creator, c.messages, Events(c, a), u);
      WordsAreTrue(c, a, u, RoleTold(creator, c.messages, u));
    }
  }

  lemma {:induction false} RunTellsTrue(c: Conv, actions: seq<Action>, u: User)
    requires Inv(c) && c.kind.Group? && ToldTrue(c, u)
    ensures ToldTrue(Run(c, actions), u)
  {
    if actions != [] {
      var init, a := actions[..|actions| - 1], actions[|actions| - 1];
      RunTellsTrue(c, init, u);
      RunKeepsInv(c, init);
      RunIsLater(c, init);
      StepTellsTrue(Run(c, init), a, u);
    }
  }

  lemma {:induction false} AnnouncedTells(c: Conv, us: seq<User>, creator: User, u: User)
    ensures RoleTold(creator, AnnounceAll(c, us, creator).messages, u) ==
            if u in us then None else RoleTold(creator, c.messages, u)
  {
    if us != [] {
      var n := |us| - 1;
      AnnouncedTells(c, us[..n], creator, u);
      var d := AnnounceAll(c, us[..n], creator);
      ToldSay(creator, d.messages, Notice(ParticipantAdded(us[n], creator)), u);
      assert u in us <==> u in us[..n] || u == us[n];
    }
  }

  lemma Apart(us: seq<User>, u: User, others: set<User>)
    requires Distinct(us + [u]) && Users(us + [u]) !! others
    ensures Distinct(us) && Users(us) !! others && u !in us && u !in Users(us) && u !in others
  {
    var all := us + [u];
    assert all[..|us|] == us && all[|us|] == u;
    assert forall i :: 0 <= i < |us| ==> all[i] == us[i];
    assert forall v :: v in Users(us) ==> v in Users(all);
    assert u in Users(all);
  }

  lemma {:induction false} EnrolledRoles(c: Conv, us: seq<User>, x: User)
    requires JoinOrder(c.rows, c.clock) && OneRowEach(c.rows) && Distinct(us) && Users(us) !! Members(c.rows)
    ensures RoleIn(EnrolAll(c, us).rows, x) == if x in us then Some(Member) else RoleIn(c.rows, x)
  {
    if us == [] {
    } else {
      var init, u := us[..|us| - 1], us[|us| - 1];
      assert us == init + [u];
      Apart(init, u, Members(c.rows));
      EnrolledRoles(c, init, x);
      OneMoreMember(c, init, u, x);
    }
  }

  lemma OneMoreMember(c: Conv, us: seq<User>, u: User, x: User)
    requires JoinOrder(c.rows, c.clock) && OneRowEach(c.rows) && Distinct(us) && Users(us) !! Members(c.rows)
    requires u !in Users(us) && u !in Members(c.rows)
    ensures RoleIn(EnrolAll(c, us + [u]).rows, x) ==
            if x == u then Some(Member) else RoleIn(EnrolAll(c, us).rows, x)
  {
    assert (us + [u])[..|us|] == us;
    EnrolledAll(c, us);
    ActiveIsMember(EnrolAll(c, us).rows, u);
    RoleEnrolled(EnrolAll(c, us), u, Member, x);
  }

  /** The first row of a group. */
  lemma OwnerEnrolled(e: Conv, creator: User, x: User)
    requires e.rows == []
    ensures var o := Enrol(e, creator, Owner);
            && JoinOrder(o.rows, o.clock) && OneRowEach(o.rows) && Members(o.rows) == {creator}
            && RoleIn(o.rows, x) == (if x == creator then Some(Owner) else None)
  {
    assert Members(e.rows) == {} && ActiveAt(e.rows) == {};
    Enrolled(e, creator, Owner);
    RoleEnrolled(e, creator, Owner, x);
  }

  /** A new group: its creator owns it, the others given are members, and nobody else takes part. */
  lemma FirstRoles(creator: User, title: string, members: seq<User>, now: nat, x: User)
    requires Distinct(members) && creator !in members
    ensures RoleIn(NewGroup(creator, title, members, now).rows, x) ==
            if x == creator then Some(Owner) else if x in members then Some(Member) else None
  {
    var o := Enrol(EmptyGroup(creator, title, 1 + |members|, now), creator, Owner);
    OwnerEnrolled(EmptyGroup(creator, title, 1 + |members|, now), creator, x);
    EnrolledRoles(o, members, x);
    AnnouncedRows(Say(EnrolAll(o, members), GroupCreated(title)), members, creator);
  }

  /** Its log speaks of the creator's role only. */
  lemma FirstWords(creator: User, title: string, members: seq<User>, now: nat, x: User)
    requires creator !in members
    ensures RoleTold(creator, NewGroup(creator, title, members, now).messages, x) ==
            if x == creator then Some(Owner) else None
  {
    var c := EnrolAll(Enrol(EmptyGroup(creator, title, 1 + |members|, now), creator, Owner), members);
    EnrolledQuietly(Enrol(EmptyGroup(creator, title, 1 + |members|, now), creator, Owner), members);
    ToldSay(creator, c.messages, Notice(GroupCreated(title)), x);
    AnnouncedTells(Say(c, GroupCreated(title)), members, creator, x);
  }

  lemma {:induction false} EnrolledQuietly(c: Conv, us: seq<User>)
    ensures EnrolAll(c, us).messages == c.messages
  {
    if us != [] {
      EnrolledQuietly(c, us[..|us| - 1]);
    }
  }

  lemma {:induction false} AnnouncedRows(c: Conv, us: seq<User>, creator: User)
    ensures var d := AnnounceAll(c, us, creator); d.rows == c.rows && d.createdBy == c.createdBy
  {
    if us != [] {
      AnnouncedRows(c, us[..|us| - 1], creator);
    }
  }

  /** In every reachable group the last word of the log on an active participant's role is that role: the last
      `RoleChanged` about somebody names the role of the row, unless a later event moved it or closed the row. */
  lemma LogTellsRoles(creator: User, title: string, initial: seq<User>, now: nat, actions: seq<Action>, u: User)
    requires CreateGroupCode(creator, title, initial).Success?
    ensures var c := Run(NewGroup(creator, Strip(title), Without(initial, creator), now), actions);
            var told := RoleTold(creator, c.messages, u);
            told.Some? ==> RoleIn(c.rows, u) == told
  {
    var members := Without(initial, creator);
    var start := NewGroup(creator, Strip(title), members, now);
    GroupStarts(creator, Strip(title), members, now);
    FirstRoles(creator, Strip(title), members, now, u);
    FirstWords(creator, Strip(title), members, now, u);
    RunTellsTrue(start, actions, u);
    RunIsLater(start, actions);
  }

  // ---------------------------------------------------------------------------------- how rows are closed

  /** Only a departure or a removal closes a row. */
  lemma OnlyThoseClose(c: Conv, a: Action, k: nat)
    requires k < |c.rows| && c.rows[k].Active() && !a.DoLeave? && !a.DoRemove?
    ensures k < |Step(c, a).rows| && Step(c, a).rows[k].Active()
  {
    StepIsLater(c, a);
    match a
    case DoTransfer(_, _) =>
    case DoChangeRole(_, _, _) =>
    case DoRead(_) =>
    case DoAdd(_, _, _) =>
    case _ => TalkKeepsRows(c, a);
  }

  lemma RemovedAlone(c: Conv, u: User, actor: User, k: nat)
    requires k < |c.rows| && c.rows[k].Active() && !RemoveParticipant(c, u, actor).conv.rows[k].Active()
    ensures RemoveParticipant(c, u, actor).code.Success? && c.rows[k].user == u
    ensures RemoveParticipant(c, u, actor).conv.rows[k] ==
            c.rows[k].(leftAt := Some(c.clock), leftVoluntarily := Some(false), removedBy := Some(actor))
  {
  }

  /** The row a call closes, if it does: with the moment, and with the remover if it was not the user's own doing. */
  lemma ClosedBy(c: Conv, a: Action, k: nat)
    requires Inv(c) && k < |c.rows| && c.rows[k].Active()
    requires k < |Step(c, a).rows| && !Step(c, a).rows[k].Active()
    ensures var r := Step(c, a).rows[k];
            && Perform(c, a).code.Success? && r.leftAt == Some(c.clock) && r.leftVoluntarily == Some(a.DoLeave?)
            && (a.DoLeave? ==> r.user == a.actor && r.removedBy.None?)
            && (!a.DoLeave? ==> a.DoRemove? && r.user == a.user && r.removedBy == Some(a.actor))
            && r.joinedAt == c.rows[k].joinedAt && r.user == c.rows[k].user
  {
    match a
    case DoLeave(u) => LeftAlone(c, u, k);
    case DoRemove(actor, u) => RemovedAlone(c, u, actor, k);
    case _ => OnlyThoseClose(c, a, k);
  }

  lemma LeftAlone(c: Conv, u: User, k: nat)
    requires Inv(c) && k < |c.rows| && c.rows[k].Active() && !Leave(c, u).conv.rows[k].Active()
    ensures var r := Leave(c, u).conv.rows[k];
            && k == FindActive(c.rows, u) && r.user == u && r.joinedAt == c.rows[k].joinedAt
            && r.leftAt == Some(c.clock) && r.leftVoluntarily == Some(true) && r.removedBy.None?
  {
    LeaveRows(c, u);
    var i := FindActive(c.rows, u);
    if i >= 0 {
      var d := if c.kind.Group? && c.rows[i].role.Owner? then HandOver(c, u) else c;
      assert d.clock == c.clock && forall m :: 0 <= m < |c.rows| ==> d.rows[m] == c.rows[m].(role := d.rows[m].role);
      assert Depart(c, i).rows == MarkLeft(d, i, None).rows;
    }
  }

  /** An open row carries no mark of leaving; a closed one says when, after it was opened, and by whom. */
  predicate Signed(r: Row, clock: nat) {
    if r.Active() then r.leftVoluntarily.None? && r.removedBy.None?
    else r.joinedAt < r.leftAt.value < clock && r.leftVoluntarily == Some(r.removedBy.None?)
         && r.removedBy != Some(r.user)
  }

  ghost predicate AllSigned(c: Conv) {
    forall k :: 0 <= k < |c.rows| ==> Signed(c.rows[k], c.clock)
  }

  lemma OpenRowKept(c: Conv, a: Action, k: nat)
    requires k < |c.rows| && c.rows[k].Active() && k < |Step(c, a).rows| && Step(c, a).rows[k].Active()
    ensures Step(c, a).rows[k].leftVoluntarily == c.rows[k].leftVoluntarily
    ensures Step(c, a).rows[k].removedBy == c.rows[k].removedBy
  {
    match a
    case DoLeave(u) => LeaveOthersKept(c, u, k);
    case DoTransfer(_, _) =>
    case DoChangeRole(_, _, _) =>
    case DoRead(_) =>
    case DoAdd(_, _, _) =>
    case DoRemove(_, _) =>
    case _ => TalkKeepsRows(c, a);
  }

  lemma LeaveOthersKept(c: Conv, u: User, k: nat)
    requires k < |c.rows| && c.rows[k].Active() && k < |Leave(c, u).conv.rows| && Leave(c, u).conv.rows[k].Active()
    ensures Leave(c, u).conv.rows[k].leftVoluntarily == c.rows[k].leftVoluntarily
    ensures Leave(c, u).conv.rows[k].removedBy == c.rows[k].removedBy
  {
    LeaveRows(c, u);
  }

  lemma NewRowSigned(c: Conv, a: Action, k: nat)
    requires |c.rows| <= k < |Step(c, a).rows|
    ensures var r := Step(c, a).rows[k]; r.Active() && r.leftVoluntarily.None? && r.removedBy.None?
    ensures a.DoAdd? && Step(c, a).rows[k] == NewRow(a.user, a.role, c.clock) && k == |c.rows|
  {
    match a
    case DoAdd(_, _, _) =>
    case DoLeave(u) => LeaveRows(c, u);
    case DoTransfer(_, _) =>
    case DoChangeRole(_, _, _) =>
    case DoRead(_) =>
    case DoRemove(_, _) =>
    case _ => TalkKeepsRows(c, a);
  }

  lemma ClosingMovesClock(c: Conv, a: Action)
    requires a.DoLeave? || a.DoRemove?
    ensures Step(c, a).rows != c.rows ==> Step(c, a).clock > c.clock
  {
    if a.DoLeave? { LeaveRows(c, a.actor); }
  }

  lemma StepSigns(c: Conv, a: Action)
    requires Inv(c) && AllSigned(c)
    ensures AllSigned(Step(c, a))
  {
    var d := Step(c, a);
    StepIsLater(c, a);
    forall k | 0 <= k < |d.rows| ensures Signed(d.rows[k], d.clock) {
      if k >= |c.rows| {
        NewRowSigned(c, a, k);
      } else if !c.rows[k].Active() {
        assert Signed(c.rows[k], c.clock);
      } else if d.rows[k].Active() {
        assert Signed(c.rows[k], c.clock);
        OpenRowKept(c, a, k);
      } else {
        ClosedBy(c, a, k);
        ClosingMovesClock(c, a);
        if a.DoRemove? { PermittedExactly(c, a); }
      }
    }
  }

  /** Over every run, each closed row says when it was closed, after it was opened, and by whom: by its own user if
      and only if it names no remover, who is never that user. */
  lemma {:induction false} RunSigns(c: Conv, actions: seq<Action>)
    requires Inv(c) && AllSigned(c)
    ensures AllSigned(Run(c, actions))
  {
    if actions != [] {
      RunSigns(c, actions[..|actions| - 1]);
      RunKeepsInv(c, actions[..|actions| - 1]);
      StepSigns(Run(c, actions[..|actions| - 1]), actions[|actions| - 1]);
    }
  }
}
