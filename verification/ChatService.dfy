/** The services as they run: methods that set fields of the conversation and its rows one after the other.
    Each is proved to leave exactly the state, and return exactly the code, that `Chat` describes. */
module ChatService {
  import opened Base
  import opened Chat
  import opened ChatInvariants
  import opened ChatRuns
  import D = DirectPairs
  import E = EditHistory
  import opened RoleMap

  lemma PrefixUsers(members: seq<User>, k: nat, others: set<User>)
    requires k < |members| && Users(members) !! others
    ensures Users(members[..k]) !! others && members[k] !in others
    ensures members[k] in Users(members[..k]) <==> members[k] in members[..k]
    ensures Distinct(members[..k]) && members[k] !in members[..k] ==> Distinct(members[..k + 1])
  {
    assert members[k] in Users(members);
    assert forall u :: u in Users(members[..k]) ==> u in Users(members);
    assert forall j :: 0 <= j < k ==> members[..k][j] == members[j] && members[..k + 1][j] == members[j];
  }

  /** One plain row for each member, in order, one moment after the other. */
  function MemberRows(members: seq<User>, now: nat): seq<Row> {
    seq(|members|, k requires 0 <= k < |members| => NewRow(members[k], Member, now + k))
  }

  lemma {:induction false} EnrolledRows(c: Conv, us: seq<User>)
    ensures EnrolAll(c, us).rows == c.rows + MemberRows(us, c.clock) && EnrolAll(c, us).clock == c.clock + |us|
  {
    if us == [] {
      assert MemberRows(us, c.clock) == [];
    } else {
      var n := |us| - 1;
      EnrolledRows(c, us[..n]);
      assert MemberRows(us, c.clock) == MemberRows(us[..n], c.clock) + [NewRow(us[n], Member, c.clock + n)];
    }
  }

  /** A member is refused by the unique constraint exactly when it came up before. */
  lemma NextMember(start: Conv, members: seq<User>, k: nat)
    requires JoinOrder(start.rows, start.clock) && OneRowEach(start.rows) && Users(members) !! Members(start.rows)
    requires k < |members| && Distinct(members[..k])
    ensures FindActive(EnrolAll(start, members[..k]).rows, members[k]) >= 0 <==> members[k] in members[..k]
  {
    PrefixUsers(members, k, Members(start.rows));
    EnrolledAll(start, members[..k]);
    ActiveIsMember(EnrolAll(start, members[..k]).rows, members[k]);
  }

  // ---------------------------------------------------------------------------------- edits, in both modules

  /** A message of a conversation and the row of `EditHistory` are the same message. */
  predicate SameMessage(m: Message, r: E.Row) {
    && r.sender == m.sender && r.system == m.body.System? && r.deletedAt.Some? == m.deleted
    && r.editCount == m.editCount && (m.body.Text? ==> m.body.content == r.content)
  }

  function CodeOf(code: E.Code): Code {
    match code
    case Success => Success
    case EmptyContent => EmptyContent
    case SystemMessage => SystemMessage
    case MessageDeleted => MessageDeleted
    case NotAuthor => NotAuthor
    case EditTimeExpired => EditTimeExpired
    case MaxEditsReached => MaxEditsReached
    case AlreadyDeleted => AlreadyDeleted
    case Refused => PermissionDenied
  }

  /** An edit within a run is the uninterrupted edit of `EditHistory`: check, then commit. */
  lemma EditIsUninterrupted(c: Conv, k: nat, u: User, text: string, r: E.Row, now: nat)
    requires k < |c.messages| && SameMessage(c.messages[k], r)
    ensures var expired := now - r.createdAt > E.EDIT_TIME_LIMIT_SECONDS;
            var e := EditMessage(c, k, u, text, expired);
            var checked := E.CheckEdit(r, u, text, now);
            && e.code == CodeOf(if checked.Success? then E.CommitCode(r) else checked)
            && SameMessage(e.conv.messages[k], if checked.Success? then E.CommitEdit(r, Strip(text), now) else r)
  {
  }

  // ---------------------------------------------------------------------------------- what the calls achieve

  /** All rows but one are as they were. */
  predicate OthersAs(before: seq<Row>, after: seq<Row>, i: int) {
    |after| == |before| && forall k :: 0 <= k < |before| && k != i ==> after[k] == before[k]
  }

  /** One message more; if it is a reply, it hangs on a root, whose count alone has grown, by one. */
  predicate Replied(before: seq<Message>, after: seq<Message>) {
    && |after| == |before| + 1
    && var m := after[|before|];
       match m.parent
       case None => after[..|before|] == before
       case Some(p) =>
         && p < |before| && before[p].parent.None?
         && after[p] == before[p].(replyCount := before[p].replyCount + 1)
         && forall j :: 0 <= j < |before| && j != p ==> after[j] == before[j]
  }

  /** What a sent message is: the sender's, the content without the white space around it, hanging on the root of the
      message named, if one is. */
  ghost predicate Sent(before: seq<Message>, after: seq<Message>, sender: User, content: string, parentId: int) {
    && |after| == |before| + 1
    && var m := after[|before|];
       && m.sender == Some(sender) && m.body.Text? && Trimmed(content, m.body.content) && !m.deleted
       && m.body.content != "" && !IsSpace(m.body.content[0]) && !IsSpace(m.body.content[|m.body.content| - 1])
       && m.replyCount == 0 && m.editCount == 0
       && (m.parent.None? <==> parentId == 0)
       && (parentId != 0 ==>
             && 1 <= parentId <= |before| && m.parent.value < |before| && before[m.parent.value].parent.None?
             && (m.parent.value == parentId - 1 || before[parentId - 1].parent == m.parent))
  }

  lemma LeaveMarks(c: Conv, u: User)
    requires Inv(c)
    ensures var d, i := Leave(c, u).conv, FindActive(c.rows, u);
            && (i >= 0 ==>
                  && i < |d.rows|
                  && d.rows[i] == c.rows[i].(leftAt := Some(c.clock), leftVoluntarily := Some(true), removedBy := None))
            && (Members(d.rows) != {} ==> d.deletedAt == c.deletedAt)
  {
    LeaveRows(c, u);
    var i := FindActive(c.rows, u);
    if i >= 0 {
      DepartRows(c, i);
      LastMark(c, i);
    }
  }

  lemma LastMark(c: Conv, i: nat)
    requires Inv(c) && i < |c.rows| && c.rows[i].Active() && FindActive(c.rows, c.rows[i].user) == i
    requires |ActiveAt(Depart(c, i).rows)| == |ActiveAt(c.rows)| - 1
    ensures var d := Leave(c, c.rows[i].user).conv; Members(d.rows) != {} ==> d.deletedAt == c.deletedAt
  {
    var rows := Depart(c, i).rows;
    if v :| v in Members(rows) {
      var k :| 0 <= k < |rows| && rows[k].Active() && rows[k].user == v;
      assert k in ActiveAt(rows);
    }
  }

  lemma GroupIsReady(creator: User, title: string, initial: seq<User>, now: nat)
    requires title != "" && Distinct(Without(initial, creator))
    ensures var c := NewGroup(creator, title, Without(initial, creator), now);
            && Inv(c) && OwnerOf(c.rows) == Some(creator) && Members(c.rows) == {creator} + Users(initial)
  {
    GroupStarts(creator, title, Without(initial, creator), now);
    assert {creator} + Users(Without(initial, creator)) == {creator} + Users(initial);
  }

  /** Somebody but the creator is named twice. */
  predicate Repeats(initial: seq<User>, creator: User) {
    exists i, j :: 0 <= i < j < |initial| && initial[i] == initial[j] != creator
  }

  lemma {:induction false} WithoutRepeats(us: seq<User>, u: User)
    ensures Distinct(Without(us, u)) <==> !Repeats(us, u)
  {
    if us == [] {
    } else {
      var rest := Without(us[1..], u);
      WithoutRepeats(us[1..], u);
      FirstOrRest(us, u);
      if us[0] != u {
        HeadDistinct(us[0], rest);
        assert Without(us, u) == [us[0]] + rest;
        assert us[0] in rest <==> us[0] in us[1..];
      } else {
        assert Without(us, u) == [] + rest == rest;
      }
    }
  }

  lemma HeadDistinct(v: User, rest: seq<User>)
    ensures Distinct([v] + rest) <==> v !in rest && Distinct(rest)
  {
    var all := [v] + rest;
    if Distinct(all) {
      assert forall i :: 0 <= i < |rest| ==> all[i + 1] == rest[i];
      forall i, j | 0 <= i < j < |rest| ensures rest[i] != rest[j] {
        assert all[i + 1] != all[j + 1];
      }
      forall k | 0 <= k < |rest| ensures rest[k] != v {
        assert all[0] != all[k + 1];
      }
    }
  }

  lemma FirstOrRest(us: seq<User>, u: User)
    requires us != []
    ensures Repeats(us, u) <==> Repeats(us[1..], u) || (us[0] != u && us[0] in us[1..])
  {
    var rest := us[1..];
    if i, j :| 0 <= i < j < |us| && us[i] == us[j] != u {
      assert us[j] == rest[j - 1];
      if i > 0 { assert us[i] == rest[i - 1]; }
    }
    if i, j :| 0 <= i < j < |rest| && rest[i] == rest[j] != u {
      assert us[i + 1] == us[j + 1] != u;
    }
    if us[0] != u && us[0] in rest {
      var j :| 0 <= j < |rest| && rest[j] == us[0];
      assert us[j + 1] == us[0];
    }
  }

  predicate NobodyEligible(rows: seq<Row>, departing: User) {
    forall k :: 0 <= k < |rows| ==> !Candidate(rows[k], Admin, departing) && !Candidate(rows[k], Member, departing)
  }

  predicate Eldest(rows: seq<Row>, j: nat, role: Role, departing: User)
    requires j < |rows|
  {
    && Candidate(rows[j], role, departing)
    && (forall k :: 0 <= k < |rows| && Candidate(rows[k], role, departing) ==> rows[j].joinedAt <= rows[k].joinedAt)
  }

  /** The admin who joined first, or with no admin the member who did. */
  predicate FirstInLine(rows: seq<Row>, j: nat, departing: User)
    requires j < |rows|
  {
    || Eldest(rows, j, Admin, departing)
    || (Eldest(rows, j, Member, departing) && forall k :: 0 <= k < |rows| ==> !Candidate(rows[k], Admin, departing))
  }

  lemma OwnerIsActor(c: Conv, u: User)
    requires Inv(c) && c.kind.Group?
    ensures OwnerOf(c.rows) == Some(u) <==> FindActive(c.rows, u) >= 0 && c.rows[FindActive(c.rows, u)].role.Owner?
  {
    var i := FindActive(c.rows, u);
    assert i >= 0 && c.rows[i].role.Owner? ==> OwnerRow(c.rows[i]);
    if OwnerOf(c.rows) == Some(u) {
      assert OwnerAt(c.rows) == i;
    }
  }

  lemma AddEffect(c: Conv, u: User, actor: User, role: Role)
    requires Inv(c)
    ensures var r := AddParticipant(c, u, actor, role);
            && OwnerOf(r.conv.rows) == OwnerOf(c.rows)
            && (r.code.Success? ==> u !in Members(c.rows))
            && Members(r.conv.rows) == (if r.code.Success? then Members(c.rows) + {u} else Members(c.rows))
            && |r.conv.rows| >= |c.rows| && r.conv.rows[..|c.rows|] == c.rows
  {
    if AddParticipant(c, u, actor, role).code.Success? {
      ActiveIsMember(c.rows, u);
      AddedRows(c, AddParticipant(c, u, actor, role).conv, u, role);
    }
  }

  lemma RemovedRows(c: Conv, j: nat, actor: User)
    requires JoinOrder(c.rows, c.clock) && OneRowEach(c.rows) && AtMostOneOwner(c.rows)
    requires j < |c.rows| && c.rows[j].Active() && !c.rows[j].role.Owner?
    ensures var rows := MarkLeft(c, j, Some(actor)).rows;
            && Members(rows) == Members(c.rows) - {c.rows[j].user} && OwnerOf(rows) == OwnerOf(c.rows)
            && c.rows[j].user in Members(c.rows) && OwnerOf(c.rows) != Some(c.rows[j].user)
            && OthersAs(c.rows, rows, j)
  {
    LeftRow(c, j, Some(actor));
    OwnerStays(c.rows, j, MarkLeft(c, j, Some(actor)).rows[j]);
  }

  lemma RemoveEffect(c: Conv, u: User, actor: User)
    requires Inv(c)
    ensures var r := RemoveParticipant(c, u, actor);
            && OwnerOf(r.conv.rows) == OwnerOf(c.rows)
            && (r.code.Success? ==> u in Members(c.rows) && OwnerOf(c.rows) != Some(u))
            && Members(r.conv.rows) == (if r.code.Success? then Members(c.rows) - {u} else Members(c.rows))
            && OthersAs(c.rows, r.conv.rows, FindActive(c.rows, u))
  {
    if RemoveParticipant(c, u, actor).code.Success? {
      RemovedRows(c, FindActive(c.rows, u), actor);
    }
  }

  lemma LeaveEffect(c: Conv, u: User)
    requires Inv(c)
    ensures var r := Leave(c, u);
            && Inv(r.conv) && (r.code.Success? <==> u in Members(c.rows))
            && Members(r.conv.rows) == Members(c.rows) - {u}
            && (c.kind.Group? && OwnerOf(c.rows) != Some(u) ==> OwnerOf(r.conv.rows) == OwnerOf(c.rows))
            && (r.code.Success? && Members(r.conv.rows) == {} ==> r.conv.deletedAt.Some?)
  {
    KeepsLeave(c, u);
    ActiveIsMember(c.rows, u);
    if FindActive(c.rows, u) >= 0 {
      DepartRows(c, FindActive(c.rows, u));
    }
    if c.kind.Group? {
      OwnerAfterLeave(c, u);
    }
    NobodyIsNobody(Leave(c, u).conv);
  }

  lemma NobodyIsNobody(c: Conv)
    requires Inv(c)
    ensures Members(c.rows) == {} ==> c.deletedAt.Some?
  {
    if k :| k in ActiveAt(c.rows) {
      assert c.rows[k].user in Members(c.rows);
    }
  }

  lemma RoleRows(c: Conv, j: nat, role: Role)
    requires JoinOrder(c.rows, c.clock) && OneRowEach(c.rows) && AtMostOneOwner(c.rows) && j < |c.rows|
    requires !c.rows[j].role.Owner? && !role.Owner?
    ensures var rows := SetRole(c, j, role).rows;
            Members(rows) == Members(c.rows) && OwnerOf(rows) == OwnerOf(c.rows) && OthersAs(c.rows, rows, j)
  {
    var rows := SetRole(c, j, role).rows;
    SameSeats(c.rows, rows, c.clock, c.clock);
    OwnerSame(c.rows, rows);
  }

  lemma RoleEffect(c: Conv, u: User, role: Role, actor: User)
    requires Inv(c)
    ensures var r := ChangeRole(c, u, role, actor);
            && Members(r.conv.rows) == Members(c.rows) && OwnerOf(r.conv.rows) == OwnerOf(c.rows)
            && (r.code.Success? ==> OwnerOf(c.rows) == Some(actor))
            && OthersAs(c.rows, r.conv.rows, FindActive(c.rows, u))
  {
    if ChangeRole(c, u, role, actor).code.Success? {
      OwnerIsActor(c, actor);
      RoleRows(c, FindActive(c.rows, u), role);
    }
  }

  lemma TransferredRows(c: Conv, i: nat, j: nat)
    requires JoinOrder(c.rows, c.clock) && OneRowEach(c.rows) && AtMostOneOwner(c.rows)
    requires i < |c.rows| && j < |c.rows| && i != j && OwnerRow(c.rows[i]) && c.rows[j].Active()
    ensures var rows := SetRole(SetRole(c, i, Admin), j, Owner).rows;
            Members(rows) == Members(c.rows) && OwnerOf(rows) == Some(c.rows[j].user)
  {
    SameSeats(c.rows, SetRole(SetRole(c, i, Admin), j, Owner).rows, c.clock, c.clock);
    OwnerMoves(c.rows, i, j);
  }

  lemma TransferEffect(c: Conv, to: User, from: User)
    requires Inv(c)
    ensures var r := TransferOwnership(c, to, from);
            && Members(r.conv.rows) == Members(c.rows)
            && (r.code.Success? <==>
                  c.kind.Group? && OwnerOf(c.rows) == Some(from) && to != from && to in Members(c.rows))
            && OwnerOf(r.conv.rows) == (if r.code.Success? then Some(to) else OwnerOf(c.rows))
  {
    ActiveIsMember(c.rows, to);
    if c.kind.Group? {
      OwnerIsActor(c, from);
    }
    if TransferOwnership(c, to, from).code.Success? {
      TransferredRows(c, FindActive(c.rows, from), FindActive(c.rows, to));
    }
  }

  lemma PostEffect(c: Conv, u: User, text: string, parent: Option<nat>)
    requires Threads(c.messages)
    requires parent.Some? ==> parent.value < |c.messages| && c.messages[parent.value].parent.None?
    ensures var after := Post(c, u, text, parent).messages;
            Replied(c.messages, after) && after[|c.messages|] == Message(Some(u), Text(text), parent, 0, false, 0)
  {
  }

  lemma SendEffect(c: Conv, u: User, content: string, parentId: int)
    requires Threads(c.messages)
    ensures var r := SendMessage(c, u, content, parentId);
            r.code.Success? ==>
              Replied(c.messages, r.conv.messages) && Sent(c.messages, r.conv.messages, u, content, parentId)
  {
    if SendMessage(c, u, content, parentId).code.Success? {
      StripMeaning(content);
      if parentId == 0 {
        PostEffect(c, u, Strip(content), None);
      } else {
        FlattenIsRoot(c.messages, parentId - 1);
        PostEffect(c, u, Strip(content), Some(Flatten(c.messages, parentId - 1)));
      }
    }
  }

  lemma ReadEffect(c: Conv, u: User)
    requires Inv(c)
    ensures var r := MarkAsRead(c, u);
            && Inv(r.conv) && Members(r.conv.rows) == Members(c.rows) && (r.code.Success? <==> u in Members(c.rows))
            && OthersAs(c.rows, r.conv.rows, FindActive(c.rows, u))
  {
    KeepsRead(c, u);
    ActiveIsMember(c.rows, u);
    if u in Members(c.rows) {
      SameSeats(c.rows, MarkAsRead(c, u).conv.rows, c.clock, c.clock);
    }
  }

  class Conversation {
    const kind: Kind
    const createdBy: Option<User>
    var title: string
    var count: int
    var rows: seq<Row>
    var messages: seq<Message>
    var deletedAt: Option<nat>
    var clock: nat

    function State(): Conv
      reads this
    {
      Conv(kind, title, createdBy, count, rows, messages, deletedAt, clock)
    }

    /** Rows, threads and log agree: `ChatInvariants.Inv`. Every service call starts and ends with it. */
    ghost predicate Valid()
      reads this
    {
      Inv(State())
    }

    constructor (kind: Kind, title: string, createdBy: Option<User>, count: int, now: nat)
      ensures State() == Conv(kind, title, createdBy, count, [], [], None, now)
    {
      this.kind, this.title, this.createdBy, this.count := kind, title, createdBy, count;
      rows, messages, deletedAt, clock := [], [], None, now;
    }

    // -------------------------------------------------------------------------------- row writes

    method Now() returns (now: nat)
      modifies this`clock
      ensures now == old(clock) && clock == now + 1
    {
      now := clock;
      clock := clock + 1;
    }

    method CreateRow(u: User, role: Role)
      modifies this`rows, this`clock
      ensures State() == Enrol(old(State()), u, role)
    {
      var now := Now();
      rows := rows + [NewRow(u, role, now)];
    }

    method CreateSystemMessage(e: Event)
      modifies this`messages
      ensures State() == Say(old(State()), e)
    {
      messages := messages + [Notice(e)];
    }

    method SaveRole(i: nat, role: Role)
      requires i < |rows|
      modifies this`rows
      ensures State() == SetRole(old(State()), i, role)
    {
      rows := rows[i := rows[i].(role := role)];
    }

    method SaveLeft(i: nat, remover: Option<User>)
      requires i < |rows|
      modifies this`rows, this`clock, this`count
      ensures State() == MarkLeft(old(State()), i, remover)
    {
      var now := Now();
      rows := rows[i := rows[i].(leftAt := Some(now), leftVoluntarily := Some(remover.None?), removedBy := remover)];
      count := count - 1;
    }

    method SaveDeleted()
      modifies this`deletedAt, this`clock
      ensures State() == SoftDelete(old(State()))
    {
      var now := Now();
      deletedAt := Some(now);
    }

    // -------------------------------------------------------------------------------- ConversationService

    /** The loop of `create_group` over the initial members; a repeated one stops it with a constraint violation. */
    method CreateMemberRows(members: seq<User>) returns (ok: bool)
      requires JoinOrder(rows, clock) && OneRowEach(rows) && Users(members) !! Members(rows)
      modifies this`rows, this`clock
      ensures ok <==> Distinct(members)
      ensures ok ==> State() == EnrolAll(old(State()), members)
      ensures ok ==> rows == old(rows) + MemberRows(members, old(clock))
    {
      ghost var start := State();
      for k := 0 to |members|
        invariant Distinct(members[..k]) && State() == EnrolAll(start, members[..k])
      {
        NextMember(start, members, k);
        PrefixUsers(members, k, Members(start.rows));
        assert members[..k + 1][..k] == members[..k];
        if FindActive(rows, members[k]) >= 0 {
          assert members[k] in members[..k];
          return false;
        }
        CreateRow(members[k], Member);
      }
      assert members[..|members|] == members;
      EnrolledRows(start, members);
      return true;
    }

    method AnnounceMembers(members: seq<User>, creator: User)
      modifies this`messages
      ensures State() == AnnounceAll(old(State()), members, creator)
      ensures messages == old(messages) + seq(|members|, k requires 0 <= k < |members| =>
                                                Notice(ParticipantAdded(members[k], creator)))
    {
      ghost var start := State();
      for k := 0 to |members|
        invariant State() == AnnounceAll(start, members[..k], creator)
        invariant |messages| == |start.messages| + k && messages[..|start.messages|] == start.messages
        invariant forall j :: 0 <= j < k ==>
          messages[|start.messages| + j] == Notice(ParticipantAdded(members[j], creator))
      {
        assert members[..k + 1][..k] == members[..k];
        CreateSystemMessage(ParticipantAdded(members[k], creator));
      }
      assert members[..|members|] == members;
    }

    /** The conversation of `create_group` with its owner's row. */
    static method OpenGroup(creator: User, title: string, size: nat, now: nat) returns (c: Conversation)
      ensures fresh(c) && c.State() == Enrol(EmptyGroup(creator, title, size, now), creator, Owner)
      ensures JoinOrder(c.rows, c.clock) && OneRowEach(c.rows) && Members(c.rows) == {creator}
    {
      c := new Conversation(Group, title, Some(creator), size, now);
      ghost var empty := c.State();
      assert Members(empty.rows) == {} && ActiveAt(empty.rows) == {};
      Enrolled(empty, creator, Owner);
      c.CreateRow(creator, Owner);
    }

    static method CreateGroup(creator: User, title: string, initial: seq<User>, now: nat)
        returns (c: Conversation?, code: Code)
      ensures code == CreateGroupCode(creator, title, initial)
      ensures code.Success? <==> c != null
      ensures code.Success? <==> !Blank(title) && !Repeats(initial, creator)
      ensures c != null ==> fresh(c) && c.State() == NewGroup(creator, Strip(title), Without(initial, creator), now)
      ensures c != null ==>
          c.Valid() && OwnerOf(c.rows) == Some(creator) && Members(c.rows) == {creator} + Users(initial)
      ensures c != null ==>
                c.title == Strip(title) && c.kind.Group? && c.createdBy == Some(creator) && c.deletedAt.None?
      ensures c != null ==>
                forall x :: RoleIn(c.rows, x) == if x == creator then Some(Owner)
                                                 else if x in initial then Some(Member) else None
    {
      StripMeaning(title);
      WithoutRepeats(initial, creator);
      var stripped := Strip(title);
      if stripped == "" {
        return null, TitleRequired;
      }
      var members := Without(initial, creator);
      var group := OpenGroup(creator, stripped, 1 + |members|, now);
      var ok := group.CreateMemberRows(members);
      if !ok {
        return null, UniqueViolation;
      }
      group.CreateSystemMessage(GroupCreated(stripped));
      group.AnnounceMembers(members, creator);
      GroupIsReady(creator, stripped, initial, now);
      forall x ensures RoleIn(group.rows, x) ==
        if x == creator then Some(Owner) else if x in initial then Some(Member) else None
      {
        FirstRoles(creator, stripped, members, now, x);
      }
      c, code := group, Success;
    }

    static method CreateDirect(low: User, high: User, now: nat) returns (c: Conversation)
      requires low < high
      ensures fresh(c) && c.State() == NewDirect(low, high, now) && c.Valid()
      ensures c.kind.Direct? && c.rows == [NewRow(low, Unset, now), NewRow(high, Unset, now + 1)]
      ensures c.messages == [] && c.deletedAt.None?
    {
      c := new Conversation(Direct, "", None, 2, now);
      c.CreateRow(low, Unset);
      c.CreateRow(high, Unset);
      DirectStarts(low, high, now);
    }

    method UpdateTitle(user: User, newTitle: string) returns (code: Code)
      requires Valid()
      modifies this
      ensures Valid()
      ensures Result(State(), code) == Chat.UpdateTitle(old(State()), user, newTitle)
      ensures rows == old(rows) && (code.Success? ==> user in Members(rows) && title == Strip(newTitle) != "")
      ensures !code.Success? ==> State() == old(State())
      ensures code.Success? <==> kind.Group? && !Blank(newTitle) && Ranks(RoleIn(rows, user))
      ensures code.Success? ==> messages == old(messages) + [Notice(TitleChanged(old(title), title, user))]
    {
      KeepsTitle(State(), user, newTitle);
      PermittedExactly(State(), DoUpdateTitle(user, newTitle));
      ActiveIsMember(rows, user);
      if kind.Direct? { return NotGroup; }
      var stripped := Strip(newTitle);
      if stripped == "" { return TitleRequired; }
      var i := FindActive(rows, user);
      if i < 0 { return NotParticipant; }
      if !(rows[i].role.Owner? || rows[i].role.Admin?) { return PermissionDenied; }
      var oldTitle := title;
      title := stripped;
      CreateSystemMessage(TitleChanged(oldTitle, stripped, user));
      return Success;
    }

    method DeleteConversation(user: User) returns (code: Code)
      requires Valid()
      modifies this
      ensures Valid()
      ensures Result(State(), code) == Chat.DeleteConversation(old(State()), user)
      ensures code.Success? <==> kind.Group? && OwnerOf(rows) == Some(user)
      ensures rows == old(rows) && messages == old(messages) && title == old(title)
      ensures deletedAt == if code.Success? then Some(old(clock)) else old(deletedAt)
    {
      if kind.Group? {
        OwnerIsActor(State(), user);
      }
      if kind.Direct? { return NotGroup; }
      var i := FindActive(rows, user);
      if i < 0 { return NotParticipant; }
      if !rows[i].role.Owner? { return PermissionDenied; }
      SaveDeleted();
      return Success;
    }

    // -------------------------------------------------------------------------------- ParticipantService

    /** The writes of `add_participant`. */
    method Admit(userToAdd: User, addedBy: User, role: Role)
      modifies this
      ensures State() == Say(Enrol(old(State()).(count := old(count) + 1), userToAdd, role),
                             ParticipantAdded(userToAdd, addedBy))
    {
      CreateRow(userToAdd, role);
      count := count + 1;
      CreateSystemMessage(ParticipantAdded(userToAdd, addedBy));
    }

    method AddParticipant(userToAdd: User, addedBy: User, role: Role) returns (code: Code)
      requires Valid()
      modifies this
      ensures Valid()
      ensures Result(State(), code) == Chat.AddParticipant(old(State()), userToAdd, addedBy, role)
      ensures code.Success? ==> userToAdd !in old(Members(rows))
      ensures Members(rows) == if code.Success? then old(Members(rows)) + {userToAdd} else old(Members(rows))
      ensures OwnerOf(rows) == old(OwnerOf(rows)) && |rows| >= |old(rows)| && rows[..|old(rows)|] == old(rows)
      ensures code.Success? <==> Permitted(old(State()), DoAdd(addedBy, userToAdd, role))
      ensures code.Success? ==> rows == old(rows) + [NewRow(userToAdd, role, old(clock))]
      ensures code.Success? ==> messages == old(messages) + [Notice(ParticipantAdded(userToAdd, addedBy))]
    {
      PermittedExactly(State(), DoAdd(addedBy, userToAdd, role));
      KeepsAdd(State(), userToAdd, addedBy, role);
      AddEffect(State(), userToAdd, addedBy, role);
      if kind.Direct? { return NotGroup; }
      if role.Owner? { return CannotAddOwner; }
      var adder := FindActive(rows, addedBy);
      if adder < 0 { return NotParticipant; }
      if rows[adder].role.Member? { return PermissionDenied; }
      if role.Admin? && !rows[adder].role.Owner? { return PermissionDenied; }
      if FindActive(rows, userToAdd) >= 0 { return AlreadyParticipant; }
      Admit(userToAdd, addedBy, role);
      return Success;
    }

    method RemoveParticipant(userToRemove: User, removedBy: User) returns (code: Code)
      requires Valid()
      modifies this
      ensures Valid()
      ensures Result(State(), code) == Chat.RemoveParticipant(old(State()), userToRemove, removedBy)
      ensures code.Success? ==> userToRemove in old(Members(rows)) && OwnerOf(rows) != Some(userToRemove)
      ensures Members(rows) == if code.Success? then old(Members(rows)) - {userToRemove} else old(Members(rows))
      ensures OwnerOf(rows) == old(OwnerOf(rows))
      ensures OthersAs(old(rows), rows, FindActive(old(rows), userToRemove))
      ensures code.Success? <==> Permitted(old(State()), DoRemove(removedBy, userToRemove))
      ensures code.Success? ==>
                var j := FindActive(old(rows), userToRemove);
                rows[j] == old(rows)[j].(leftAt := Some(old(clock)), leftVoluntarily := Some(false),
                                         removedBy := Some(removedBy))
      ensures code.Success? ==>
                messages == old(messages) + [Notice(ParticipantRemoved(userToRemove, Some(removedBy), false))]
    {
      PermittedExactly(State(), DoRemove(removedBy, userToRemove));
      KeepsRemove(State(), userToRemove, removedBy);
      RemoveEffect(State(), userToRemove, removedBy);
      if kind.Direct? { return NotGroup; }
      if userToRemove == removedBy { return CannotRemoveSelf; }
      var remover := FindActive(rows, removedBy);
      if remover < 0 { return RemoverNotParticipant; }
      var target := FindActive(rows, userToRemove);
      if target < 0 { return NotParticipant; }
      if rows[target].role.Owner? { return CannotRemoveOwner; }
      if rows[remover].role.Member? { return PermissionDenied; }
      if rows[remover].role.Admin? && rows[target].role.Admin? { return PermissionDenied; }
      SaveLeft(target, Some(removedBy));
      CreateSystemMessage(ParticipantRemoved(userToRemove, Some(removedBy), false));
      return Success;
    }

    /** The new owner, if anybody is eligible. */
    method TransferOwnershipOnDeparture(departingOwner: User) returns (newOwner: Option<User>)
      modifies this
      ensures State() == HandOver(old(State()), departingOwner)
      ensures newOwner.None? <==> NobodyEligible(old(rows), departingOwner)
      ensures newOwner.None? ==> State() == old(State())
      ensures newOwner.Some? ==>
                exists j :: 0 <= j < |rows| && FirstInLine(old(rows), j, departingOwner)
                            && rows == old(rows)[j := old(rows)[j].(role := Owner)] && rows[j].user == newOwner.value
      ensures newOwner.Some? ==>
                messages == old(messages) + [Notice(OwnershipTransferred(departingOwner, newOwner.value, false))]
    {
      var candidate := Oldest(rows, Admin, departingOwner);
      if candidate >= 0 {
        assert FirstInLine(rows, candidate, departingOwner);
        SaveRole(candidate, Owner);
        CreateSystemMessage(OwnershipTransferred(departingOwner, rows[candidate].user, false));
        return Some(rows[candidate].user);
      }
      candidate := Oldest(rows, Member, departingOwner);
      if candidate >= 0 {
        assert FirstInLine(rows, candidate, departingOwner);
        SaveRole(candidate, Owner);
        CreateSystemMessage(OwnershipTransferred(departingOwner, rows[candidate].user, false));
        return Some(rows[candidate].user);
      }
      return None;
    }

    /** The writes of `leave` up to the decision whether the conversation is now empty. */
    method CloseRow(i: nat)
      requires i < |rows|
      modifies this
      ensures State() == Depart(old(State()), i)
    {
      var user := rows[i].user;
      if kind.Group? && rows[i].role.Owner? {
        var newOwner := TransferOwnershipOnDeparture(user);
      }
      SaveLeft(i, None);
      CreateSystemMessage(ParticipantRemoved(user, None, true));
    }

    /** `leave` as it runs; what it achieves is said below. */
    method WriteLeave(user: User) returns (code: Code)
      modifies this
      ensures Result(State(), code) == Chat.Leave(old(State()), user)
    {
      var i := FindActive(rows, user);
      if i < 0 { return NotParticipant; }
      CloseRow(i);
      var shouldDelete := if kind.Direct? then |ActiveAt(rows)| == 0 else count <= 0;
      if shouldDelete {
        SaveDeleted();
      }
      return Success;
    }

    method Leave(user: User) returns (code: Code)
      requires Valid()
      modifies this
      ensures Valid()
      ensures Result(State(), code) == Chat.Leave(old(State()), user)
      ensures code.Success? <==> user in old(Members(rows))
      ensures Members(rows) == old(Members(rows)) - {user}
      ensures kind.Group? && old(OwnerOf(rows)) != Some(user) ==> OwnerOf(rows) == old(OwnerOf(rows))
      ensures code.Success? && Members(rows) == {} ==> deletedAt.Some?
      ensures Members(rows) != {} ==> deletedAt == old(deletedAt)
      ensures code.Success? ==>
                var i := FindActive(old(rows), user);
                rows[i] == old(rows)[i].(leftAt := Some(old(clock)), leftVoluntarily := Some(true), removedBy := None)
      ensures messages == old(messages) + Notices(Events(old(State()), DoLeave(user)))
    {
      EventsTold(State(), DoLeave(user));
      LeaveMarks(State(), user);
      LeaveEffect(State(), user);
      code := WriteLeave(user);
    }

    method ChangeRole(userToChange: User, newRole: Role, changedBy: User) returns (code: Code)
      requires Valid()
      modifies this
      ensures Valid()
      ensures Result(State(), code) == Chat.ChangeRole(old(State()), userToChange, newRole, changedBy)
      ensures code.Success? ==> OwnerOf(rows) == Some(changedBy)
      ensures Members(rows) == old(Members(rows)) && OwnerOf(rows) == old(OwnerOf(rows))
      ensures OthersAs(old(rows), rows, FindActive(old(rows), userToChange))
      ensures code.Success? <==> Permitted(old(State()), DoChangeRole(changedBy, userToChange, newRole))
      ensures code.Success? ==>
                var j := FindActive(old(rows), userToChange); rows[j] == old(rows)[j].(role := newRole)
      ensures !code.Success? ==> State() == old(State())
      ensures messages == old(messages) + Notices(Events(old(State()), DoChangeRole(changedBy, userToChange, newRole)))
    {
      EventsTold(State(), DoChangeRole(changedBy, userToChange, newRole));
      PermittedExactly(State(), DoChangeRole(changedBy, userToChange, newRole));
      KeepsRole(State(), userToChange, newRole, changedBy);
      RoleEffect(State(), userToChange, newRole, changedBy);
      if kind.Direct? { return NotGroup; }
      if newRole.Owner? { return InvalidRole; }
      if !(newRole.Admin? || newRole.Member?) { return InvalidRole; }
      var changer := FindActive(rows, changedBy);
      if changer < 0 { return ChangerNotParticipant; }
      var target := FindActive(rows, userToChange);
      if target < 0 { return NotParticipant; }
      if !rows[changer].role.Owner? { return PermissionDenied; }
      if rows[target].role.Owner? { return CannotChangeOwnerRole; }
      var oldRole := rows[target].role;
      if oldRole == newRole { return Success; }
      SaveRole(target, newRole);
      CreateSystemMessage(RoleChanged(userToChange, oldRole, newRole, changedBy));
      return Success;
    }

    method TransferOwnership(newOwner: User, currentOwner: User) returns (code: Code)
      requires Valid()
      modifies this
      ensures Valid()
      ensures Result(State(), code) == Chat.TransferOwnership(old(State()), newOwner, currentOwner)
      ensures code.Success? <==> kind.Group? && old(OwnerOf(rows)) == Some(currentOwner) && newOwner != currentOwner
                                 && newOwner in old(Members(rows))
      ensures Members(rows) == old(Members(rows))
      ensures OwnerOf(rows) == if code.Success? then Some(newOwner) else old(OwnerOf(rows))
      ensures code.Success? ==>
                var i, j := FindActive(old(rows), currentOwner), FindActive(old(rows), newOwner);
                rows == old(rows)[i := old(rows)[i].(role := Admin)][j := old(rows)[j].(role := Owner)]
      ensures code.Success? ==> messages == old(messages) + [Notice(OwnershipTransferred(currentOwner, newOwner, true))]
    {
      KeepsTransfer(State(), newOwner, currentOwner);
      TransferEffect(State(), newOwner, currentOwner);
      if kind.Direct? { return NotGroup; }
      if newOwner == currentOwner { return SameUser; }
      var current := FindActive(rows, currentOwner);
      if current < 0 { return CurrentNotParticipant; }
      if !rows[current].role.Owner? { return NotOwner; }
      var target := FindActive(rows, newOwner);
      if target < 0 { return NotParticipant; }
      SaveRole(current, Admin);
      SaveRole(target, Owner);
      CreateSystemMessage(OwnershipTransferred(currentOwner, newOwner, true));
      return Success;
    }

    // -------------------------------------------------------------------------------- MessageService

    /** Creates the message row and counts it at its parent. */
    method CreateMessage(sender: User, text: string, parent: Option<nat>)
      modifies this`messages
      ensures State() == Post(old(State()), sender, text, parent)
    {
      messages := messages + [Message(Some(sender), Text(text), parent, 0, false, 0)];
      if parent.Some? && parent.value < |messages| {
        messages := messages[parent.value :=
            messages[parent.value].(replyCount := messages[parent.value].replyCount + 1)];
      }
    }

    method SendMessage(sender: User, content: string, parentId: int) returns (code: Code)
      requires Valid()
      modifies this
      ensures Valid()
      ensures Result(State(), code) == Chat.SendMessage(old(State()), sender, content, parentId)
      ensures rows == old(rows) && title == old(title)
      ensures code.Success? ==> Replied(old(messages), messages)
      ensures !code.Success? ==> State() == old(State())
      ensures code.Success? <==> Permitted(old(State()), DoSend(sender, content, parentId))
      ensures code.Success? ==> Sent(old(messages), messages, sender, content, parentId)
    {
      PermittedExactly(State(), DoSend(sender, content, parentId));
      KeepsSend(State(), sender, content, parentId);
      SendEffect(State(), sender, content, parentId);
      if deletedAt.Some? { return ConversationDeleted; }
      if FindActive(rows, sender) < 0 { return NotParticipant; }
      var text := Strip(content);
      if text == "" { return EmptyContent; }
      var parent: Option<nat> := None;
      if parentId != 0 {
        if !(1 <= parentId <= |messages|) { return InvalidParent; }
        parent := Some(parentId - 1);
        if messages[parentId - 1].parent.Some? {
          parent := messages[parentId - 1].parent;
        }
      }
      CreateMessage(sender, text, parent);
      return Success;
    }

    method DeleteMessage(k: nat, user: User) returns (code: Code)
      requires Valid()
      requires k < |messages|
      modifies this
      ensures Valid()
      ensures Result(State(), code) == Chat.DeleteMessage(old(State()), k, user)
      ensures rows == old(rows) && |messages| == |old(messages)|
      ensures forall j :: 0 <= j < |messages| && j != k ==> messages[j] == old(messages)[j]
      ensures messages[k] == if code.Success? then old(messages)[k].(deleted := true) else old(messages)[k]
      ensures code.Success? <==> Permitted(old(State()), DoDeleteMessage(user, k))
    {
      PermittedExactly(State(), DoDeleteMessage(user, k));
      KeepsDeleteMessage(State(), k, user);
      if messages[k].body.System? { return SystemMessage; }
      if messages[k].deleted { return AlreadyDeleted; }
      var i := FindActive(rows, user);
      if i < 0 { return NotParticipant; }
      var isOwnMessage := messages[k].sender == Some(user);
      var isGroupOwner := kind.Group? && rows[i].role.Owner?;
      if !(isOwnMessage || isGroupOwner) { return PermissionDenied; }
      var now := Now();
      messages := messages[k := messages[k].(deleted := true)];
      return Success;
    }

    method EditMessage(user: User, k: nat, newContent: string, expired: bool) returns (code: Code)
      requires Valid()
      requires k < |messages|
      modifies this
      ensures Valid()
      ensures Result(State(), code) == Chat.EditMessage(old(State()), k, user, newContent, expired)
      ensures rows == old(rows) && |messages| == |old(messages)|
      ensures forall j :: 0 <= j < |messages| && j != k ==> messages[j] == old(messages)[j]
      ensures code.Success? ==> messages[k].sender == Some(user) && messages[k].body == Text(Strip(newContent))
      ensures code.Success? ==>
                messages[k] == old(messages)[k].(body := messages[k].body, editCount := old(messages)[k].editCount + 1)
      ensures code.Success? <==> Permitted(old(State()), DoEdit(user, k, newContent, expired))
      ensures !code.Success? ==> State() == old(State())
    {
      PermittedExactly(State(), DoEdit(user, k, newContent, expired));
      KeepsEdit(State(), k, user, newContent, expired);
      var text := Strip(newContent);
      if text == "" { return EmptyContent; }
      if messages[k].body.System? { return SystemMessage; }
      if messages[k].deleted { return MessageDeleted; }
      if messages[k].sender != Some(user) { return NotAuthor; }
      if expired { return EditTimeExpired; }
      if messages[k].editCount >= E.MAX_EDIT_COUNT { return MaxEditsReached; }
      var now := Now();
      messages := messages[k := messages[k].(body := Text(text), editCount := messages[k].editCount + 1)];
      return Success;
    }

    method MarkAsRead(user: User) returns (code: Code)
      requires Valid()
      modifies this
      ensures Valid()
      ensures Result(State(), code) == Chat.MarkAsRead(old(State()), user)
      ensures code.Success? <==> user in Members(rows)
      ensures messages == old(messages) && Members(rows) == old(Members(rows))
      ensures OthersAs(old(rows), rows, FindActive(old(rows), user))
      ensures code.Success? ==>
                var i := FindActive(old(rows), user); rows[i] == old(rows)[i].(lastReadAt := Some(old(clock)))
    {
      ReadEffect(State(), user);
      var i := FindActive(rows, user);
      if i < 0 { return NotParticipant; }
      var now := Now();
      rows := rows[i := rows[i].(lastReadAt := Some(now))];
      return Success;
    }

    /** Any call of a run, on the object: so each run of `Chat.Run` is a sequence of these, and all its theorems
        hold of the object's state. */
    method Handle(a: Action) returns (code: Code)
      requires Valid()
      modifies this
      ensures Valid()
      ensures Result(State(), code) == Perform(old(State()), a)
    {
      match a
      case DoUpdateTitle(u, t) => code := UpdateTitle(u, t);
      case DoDelete(u) => code := DeleteConversation(u);
      case DoAdd(actor, u, r) => code := AddParticipant(u, actor, r);
      case DoRemove(actor, u) => code := RemoveParticipant(u, actor);
      case DoLeave(u) => code := Leave(u);
      case DoChangeRole(actor, u, r) => code := ChangeRole(u, r, actor);
      case DoTransfer(from, to) => code := TransferOwnership(to, from);
      case DoRead(u) => code := MarkAsRead(u);
      case DoSend(u, t, p) => code := SendMessage(u, t, p);
      case DoDeleteMessage(u, k) => if k < |messages| { code := DeleteMessage(k, u); } else { code := NoSuchMessage; }
      case DoEdit(u, k, t, expired) =>
        if k < |messages| { code := EditMessage(u, k, t, expired); } else { code := NoSuchMessage; }
    }
  }

  lemma Opens(s: D.Directory, user1: User, user2: User)
    requires D.Consistent(s)
    ensures D.Consistent(D.CreateDirect(s, user1, user2).dir)
    ensures var known := D.CreateDirect(s, user1, user2);
            known.conv.Some? ==> known.conv.value < |known.dir.convs| && known.dir.convs[known.conv.value].kind.Direct?
                                 && Inv(known.dir.convs[known.conv.value])
  {
    D.AfterKeeps(s, D.OpenDirect(user1, user2));
    var known := D.CreateDirect(s, user1, user2);
    if known.conv.Some? {
      assert D.Entry(known.dir, D.Canonical(user1, user2)) && D.Listed(known.dir, known.conv.value);
    }
  }

  /** The table of direct conversations with its uniqueness lookup. */
  class DirectPairTable {
    var convs: seq<Conversation>
    var pairs: map<(User, User), nat>
    var clock: nat

    function Dir(): D.Directory
      reads this, convs
    {
      D.Directory(seq(|convs|, i requires 0 <= i < |convs| reads this, convs => convs[i].State()), pairs, clock)
    }

    ghost predicate Valid()
      reads this, convs
    {
      D.Consistent(Dir())
    }

    /** Enters a conversation under its pair. */
    method Enter(direct: Conversation, low: User, high: User)
      modifies this
      ensures convs == old(convs) + [direct]
      ensures Dir() == D.Directory(old(Dir()).convs + [direct.State()], old(pairs)[(low, high) := |old(convs)|],
                                   old(clock) + 2)
    {
      ghost var before := Dir();
      pairs := pairs[(low, high) := |convs|];
      convs := convs + [direct];
      clock := clock + 2;
      assert Dir().convs == before.convs + [direct.State()];
    }

    /** The conversation itself comes back, not a copy: the one at the position the table names. */
    method CreateDirect(user1: User, user2: User) returns (c: Conversation?, code: Code)
      requires Valid()
      modifies this
      ensures Valid()
      ensures var known := D.CreateDirect(old(Dir()), user1, user2);
              && Dir() == known.dir && code == known.code && (c != null <==> known.conv.Some?)
              && (known.conv.Some? ==> known.conv.value < |convs| && c == convs[known.conv.value])
      ensures |convs| >= |old(convs)| && convs[..|old(convs)|] == old(convs)
      ensures c != null ==> c.Valid() && c.kind.Direct? && (c in old(convs) || fresh(c))
    {
      Opens(Dir(), user1, user2);
      if user1 == user2 {
        return null, SameUser;
      }
      var low, high := user1, user2;
      if user2 < user1 {
        low, high := user2, user1;
      }
      if (low, high) in pairs {
        assert Dir().convs[pairs[(low, high)]] == convs[pairs[(low, high)]].State();
        return convs[pairs[(low, high)]], Success;
      }
      var direct := Conversation.CreateDirect(low, high, clock);
      Enter(direct, low, high);
      return direct, Success;
    }
  }
}
