/** What every service call keeps, for group and direct conversations alike, and what the system-message
    log tells about a group: replaying it gives the current title, members and owner. */
module ChatInvariants {
  import opened Base
  import opened Chat

  // ---------------------------------------------------------------------------------- rows

  predicate OwnerRow(r: Row) { r.Active() && r.role.Owner? }

  /** The position of the active owner's row, or -1. */
  function OwnerAt(rows: seq<Row>): (i: int)
    ensures -1 <= i < |rows|
    ensures i >= 0 ==> OwnerRow(rows[i])
    ensures i == -1 ==> forall k :: 0 <= k < |rows| ==> !OwnerRow(rows[k])
  {
    if rows == [] then -1
    else
      var i := OwnerAt(rows[..|rows| - 1]);
      if i >= 0 then i else if OwnerRow(rows[|rows| - 1]) then |rows| - 1 else -1
  }

  function OwnerOf(rows: seq<Row>): Option<User> {
    var i := OwnerAt(rows);
    if i < 0 then None else Some(rows[i].user)
  }

  function Members(rows: seq<Row>): set<User> {
    set k | 0 <= k < |rows| && rows[k].Active() :: rows[k].user
  }

  /** `unique_active_participation`. */
  ghost predicate OneRowEach(rows: seq<Row>) {
    forall i, j :: 0 <= i < j < |rows| && rows[i].Active() && rows[j].Active() ==> rows[i].user != rows[j].user
  }

  ghost predicate AtMostOneOwner(rows: seq<Row>) {
    forall i, j :: 0 <= i < j < |rows| && OwnerRow(rows[i]) ==> !OwnerRow(rows[j])
  }

  ghost predicate JoinOrder(rows: seq<Row>, clock: nat) {
    && (forall i, j :: 0 <= i < j < |rows| ==> rows[i].joinedAt < rows[j].joinedAt)
    && (forall i :: 0 <= i < |rows| ==> rows[i].joinedAt < clock)
  }

  ghost predicate RowsOk(c: Conv) {
    && JoinOrder(c.rows, c.clock)
    && OneRowEach(c.rows)
    && c.count == |ActiveAt(c.rows)|
    && (ActiveAt(c.rows) == {} ==> c.deletedAt.Some?)
  }

  // ---------------------------------------------------------------------------------- threads

  function Replies(messages: seq<Message>, k: nat): set<nat> {
    set j: nat | j < |messages| && messages[j].parent == Some(k)
  }

  ghost predicate ThreadOk(messages: seq<Message>, k: nat)
    requires k < |messages|
  {
    && messages[k].replyCount == |Replies(messages, k)|
    && (messages[k].parent.Some? ==> messages[k].parent.value < k && messages[messages[k].parent.value].parent.None?)
    && (messages[k].body.System? ==> messages[k].parent.None? && messages[k].sender.None? && !messages[k].deleted)
  }

  /** Every parent is an earlier root, and every cached reply count is the number of messages pointing here. */
  ghost predicate Threads(messages: seq<Message>) {
    forall k :: 0 <= k < |messages| ==> ThreadOk(messages, k)
  }

  // ---------------------------------------------------------------------------------- log replay

  /** What the log has told so far. */
  datatype Story = Story(title: string, members: set<User>, owner: Option<User>)

  /** One event, refused when it does not fit the story: `None` means an inconsistent log. */
  function Tell(s: Story, e: Event): Option<Story> {
    match e
    case GroupCreated(t) =>
      if s.title == "" && t != "" then Some(s.(title := t)) else None
    case ParticipantAdded(u, actor) =>
      if u !in s.members && actor in s.members then Some(s.(members := s.members + {u})) else None
    case ParticipantRemoved(u, remover, left) =>
      if u !in s.members || left != remover.None? then None
      else if left then Some(s.(members := s.members - {u}, owner := if s.owner == Some(u) then None else s.owner))
      else if remover.value in s.members && remover.value != u && s.owner != Some(u)
      then Some(s.(members := s.members - {u})) else None
    case RoleChanged(u, before, after, actor) =>
      if s.owner == Some(actor) && u in s.members && u != actor && before != after
          && (after.Admin? || after.Member?) then Some(s) else None
    case OwnershipTransferred(from, to, _) =>
      if s.owner == Some(from) && to in s.members && to != from then Some(s.(owner := Some(to))) else None
    case TitleChanged(before, after, actor) =>
      if s.title == before && after != "" && actor in s.members then Some(s.(title := after)) else None
  }

  /** Folds the system messages in creation order, starting from the creator alone. */
  function Replay(creator: User, messages: seq<Message>): Option<Story> {
    if messages == [] then Some(Story("", {creator}, Some(creator)))
    else
      var s := Replay(creator, messages[..|messages| - 1]);
      var m := messages[|messages| - 1];
      if s.Some? && m.body.System? then Tell(s.value, m.body.event) else s
  }

  ghost predicate LogOk(c: Conv) {
    c.createdBy.Some? && Replay(c.createdBy.value, c.messages) == Some(Story(c.title, Members(c.rows), OwnerOf(c.rows)))
  }

  ghost predicate PairRows(rows: seq<Row>) {
    && |rows| == 2
    && rows[0].user < rows[1].user
    && rows[0].role.Unset? && rows[1].role.Unset?
  }

  ghost predicate Inv(c: Conv) {
    && RowsOk(c)
    && Threads(c.messages)
    && (c.kind.Group? ==> c.title != "" && AtMostOneOwner(c.rows) && LogOk(c))
    && (c.kind.Direct? ==> c.title == "" && PairRows(c.rows) && (c.deletedAt.Some? ==> ActiveAt(c.rows) == {}))
  }

  // ---------------------------------------------------------------------------------- message lemmas

  lemma {:induction false} ReplaySay(creator: User, messages: seq<Message>, m: Message)
    ensures Replay(creator, messages + [m]) ==
            var s := Replay(creator, messages);
            if s.Some? && m.body.System? then Tell(s.value, m.body.event) else s
  {
    assert (messages + [m])[..|messages|] == messages;
  }

  /** The replay reads the bodies of system messages only. */
  lemma {:induction false} ReplayBodies(creator: User, a: seq<Message>, b: seq<Message>)
    requires |a| == |b|
    requires forall k :: 0 <= k < |a| ==> a[k].body == b[k].body || (a[k].body.Text? && b[k].body.Text?)
    ensures Replay(creator, a) == Replay(creator, b)
  {
    if a != [] {
      ReplayBodies(creator, a[..|a| - 1], b[..|b| - 1]);
    }
  }

  /** One hop is enough to reach a root. */
  lemma FlattenIsRoot(messages: seq<Message>, k: nat)
    requires Threads(messages) && k < |messages|
    ensures Flatten(messages, k) <= k && messages[Flatten(messages, k)].parent.None?
  {
    assert ThreadOk(messages, k);
  }

  /** Nobody points at a message that is not there yet. */
  lemma NoRepliesYet(messages: seq<Message>)
    requires Threads(messages)
    ensures Replies(messages, |messages|) == {}
  {
    forall j | 0 <= j < |messages| ensures messages[j].parent != Some(|messages|) {
      assert ThreadOk(messages, j);
    }
  }

  /** Appending a message adds one reply to its parent and none to any other message. */
  lemma RepliesGrow(messages: seq<Message>, m: Message, k: nat)
    ensures Replies(messages + [m], k) == Replies(messages, k) + (if m.parent == Some(k) then {|messages|} else {})
  {
  }

  /** Appending a root keeps a thread forest. */
  lemma ThreadsRoot(messages: seq<Message>, m: Message)
    requires Threads(messages) && m.parent.None? && m.replyCount == 0
    requires m.body.System? ==> m.sender.None? && !m.deleted
    ensures Threads(messages + [m])
  {
    NoRepliesYet(messages);
    forall k | 0 <= k < |messages| + 1 ensures ThreadOk(messages + [m], k) {
      RepliesGrow(messages, m, k);
      assert k < |messages| ==> ThreadOk(messages, k);
    }
  }

  lemma ThreadsSay(messages: seq<Message>, e: Event)
    requires Threads(messages)
    ensures Threads(messages + [Notice(e)])
  {
    ThreadsRoot(messages, Notice(e));
  }

  /** So does appending a reply to a root and counting it there. */
  lemma ThreadsReply(messages: seq<Message>, m: Message, p: nat)
    requires Threads(messages) && m.parent == Some(p) && m.replyCount == 0 && m.body.Text?
    requires p < |messages| && messages[p].parent.None?
    ensures Threads(messages[p := messages[p].(replyCount := messages[p].replyCount + 1)] + [m])
  {
    var n := |messages|;
    var after := messages[p := messages[p].(replyCount := messages[p].replyCount + 1)] + [m];
    NoRepliesYet(messages);
    forall k | 0 <= k < |after| ensures ThreadOk(after, k) {
      RepliesGrow(messages, m, k);
      assert Replies(after, k) == Replies(messages + [m], k);
      assert k < n ==> ThreadOk(messages, k);
    }
  }

  lemma ThreadsPost(c: Conv, sender: User, content: string, parent: Option<nat>)
    requires Threads(c.messages)
    requires parent.Some? ==> parent.value < |c.messages| && c.messages[parent.value].parent.None?
    ensures Threads(Post(c, sender, content, parent).messages)
  {
    var m := Message(Some(sender), Text(content), parent, 0, false, 0);
    match parent
    case None => ThreadsRoot(c.messages, m);
    case Some(p) =>
      ThreadsReply(c.messages, m, p);
      assert Post(c, sender, content, parent).messages ==
          c.messages[p := c.messages[p].(replyCount := c.messages[p].replyCount + 1)] + [m];
  }

  lemma ThreadsDelete(messages: seq<Message>, k: nat)
    requires Threads(messages) && k < |messages| && !messages[k].body.System?
    ensures Threads(messages[k := messages[k].(deleted := true)])
  {
    var after := messages[k := messages[k].(deleted := true)];
    forall j | 0 <= j < |after| ensures ThreadOk(after, j) {
      assert ThreadOk(messages, j);
      assert Replies(after, j) == Replies(messages, j);
    }
  }

  lemma ThreadsEdit(messages: seq<Message>, k: nat, m: Message)
    requires Threads(messages) && k < |messages| && messages[k].body.Text? && m.body.Text?
    requires m.parent == messages[k].parent && m.replyCount == messages[k].replyCount
    ensures Threads(messages[k := m])
  {
    var after := messages[k := m];
    forall j | 0 <= j < |after| ensures ThreadOk(after, j) {
      assert ThreadOk(messages, j);
      assert Replies(after, j) == Replies(messages, j);
    }
  }

  // ---------------------------------------------------------------------------------- row lemmas

  lemma MembersGrow(rows: seq<Row>, r: Row)
    requires r.Active()
    ensures ActiveAt(rows + [r]) == ActiveAt(rows) + {|rows|}
    ensures Members(rows + [r]) == Members(rows) + {r.user}
  {
    var grown := rows + [r];
    assert grown[|rows|] == r;
    forall v | v in Members(rows) ensures v in Members(grown) {
      var k :| 0 <= k < |rows| && rows[k].Active() && rows[k].user == v;
      assert grown[k] == rows[k];
    }
  }

  lemma MembersLeave(rows: seq<Row>, i: nat, r: Row)
    requires OneRowEach(rows) && i < |rows| && rows[i].Active() && !r.Active()
    ensures ActiveAt(rows[i := r]) == ActiveAt(rows) - {i}
    ensures Members(rows[i := r]) == Members(rows) - {rows[i].user}
  {
    var after := rows[i := r];
    assert forall k :: 0 <= k < |rows| && k != i ==> after[k] == rows[k];
    forall v | v in Members(rows) - {rows[i].user} ensures v in Members(after) {
      var k :| 0 <= k < |rows| && rows[k].Active() && rows[k].user == v;
      assert after[k] == rows[k];
    }
  }

  lemma Enrolled(c: Conv, u: User, role: Role)
    requires JoinOrder(c.rows, c.clock) && OneRowEach(c.rows) && u !in Members(c.rows)
    ensures var d := Enrol(c, u, role);
            && JoinOrder(d.rows, d.clock) && OneRowEach(d.rows)
            && |ActiveAt(d.rows)| == |ActiveAt(c.rows)| + 1
            && Members(d.rows) == Members(c.rows) + {u}
  {
    MembersGrow(c.rows, NewRow(u, role, c.clock));
    RowAppended(c.rows, c.clock, NewRow(u, role, c.clock));
    assert |c.rows| !in ActiveAt(c.rows);
  }

  lemma RowAppended(rows: seq<Row>, clock: nat, r: Row)
    requires JoinOrder(rows, clock) && OneRowEach(rows) && r.joinedAt == clock && r.user !in Members(rows)
    ensures JoinOrder(rows + [r], clock + 1) && OneRowEach(rows + [r])
  {
    assert forall k :: 0 <= k < |rows| && rows[k].Active() ==> rows[k].user in Members(rows);
  }

  lemma LeftRow(c: Conv, i: nat, actor: Option<User>)
    requires JoinOrder(c.rows, c.clock) && OneRowEach(c.rows)
    requires i < |c.rows| && c.rows[i].Active()
    ensures var d := MarkLeft(c, i, actor);
            && JoinOrder(d.rows, d.clock) && OneRowEach(d.rows)
            && ActiveAt(d.rows) == ActiveAt(c.rows) - {i} && |ActiveAt(d.rows)| == |ActiveAt(c.rows)| - 1
            && Members(d.rows) == Members(c.rows) - {c.rows[i].user}
  {
    MembersLeave(c.rows, i, MarkLeft(c, i, actor).rows[i]);
    assert i in ActiveAt(c.rows);
  }

  /** Closing a row that is not the owner's leaves the owner where it was. */
  lemma OwnerStays(rows: seq<Row>, i: nat, r: Row)
    requires AtMostOneOwner(rows) && i < |rows| && !OwnerRow(rows[i]) && !OwnerRow(r)
    ensures AtMostOneOwner(rows[i := r]) && OwnerAt(rows[i := r]) == OwnerAt(rows)
  {
    var after := rows[i := r];
    assert forall k :: 0 <= k < |rows| && k != i ==> after[k] == rows[k];
  }

  /** Changing roles or read marks moves nobody in or out. */
  lemma SameSeats(a: seq<Row>, b: seq<Row>, clock: nat, later: nat)
    requires JoinOrder(a, clock) && OneRowEach(a) && clock <= later && |a| == |b|
    requires forall k :: 0 <= k < |a| ==>
        a[k].user == b[k].user && a[k].joinedAt == b[k].joinedAt && a[k].leftAt == b[k].leftAt
    ensures JoinOrder(b, later) && OneRowEach(b) && ActiveAt(a) == ActiveAt(b) && Members(a) == Members(b)
  {
    assert ActiveAt(a) == ActiveAt(b);
    assert forall k :: 0 <= k < |a| ==> a[k].Active() == b[k].Active();
    forall v | v in Members(a) ensures v in Members(b) {
      var k :| 0 <= k < |a| && a[k].Active() && a[k].user == v;
      assert b[k].user == v;
    }
    forall v | v in Members(b) ensures v in Members(a) {
      var k :| 0 <= k < |b| && b[k].Active() && b[k].user == v;
      assert a[k].user == v;
    }
  }

  lemma ActiveIsMember(rows: seq<Row>, u: User)
    ensures FindActive(rows, u) >= 0 <==> u in Members(rows)
  {
    var i := FindActive(rows, u);
    if u in Members(rows) {
      var k :| 0 <= k < |rows| && rows[k].Active() && rows[k].user == u;
      assert rows[k].user == u;
    }
  }

  // ---------------------------------------------------------------------------------- calls keep the invariant

  /** Announcing a call that the event tells faithfully keeps threads and log. */
  lemma Told(c: Conv, d: Conv, e: Event)
    requires Threads(c.messages) && LogOk(c) && d.createdBy == c.createdBy
    requires d.messages == c.messages + [Notice(e)]
    requires Tell(Story(c.title, Members(c.rows), OwnerOf(c.rows)), e) ==
          Some(Story(d.title, Members(d.rows), OwnerOf(d.rows)))
    ensures Threads(d.messages) && LogOk(d)
  {
    ReplaySay(c.createdBy.value, c.messages, Notice(e));
    ThreadsSay(c.messages, e);
  }

  /** Rows that gain no owner row keep their owner. */
  lemma OwnerSame(a: seq<Row>, b: seq<Row>)
    requires AtMostOneOwner(a) && |a| <= |b|
    requires forall k :: 0 <= k < |a| ==> OwnerRow(a[k]) == OwnerRow(b[k]) && a[k].user == b[k].user
    requires forall k :: |a| <= k < |b| ==> !OwnerRow(b[k])
    ensures AtMostOneOwner(b) && OwnerAt(b) == OwnerAt(a) && OwnerOf(b) == OwnerOf(a)
  {
    assert AtMostOneOwner(b) by {
      forall i, j | 0 <= i < j < |b| && OwnerRow(b[i]) ensures !OwnerRow(b[j]) {
        assert i < |a| && OwnerRow(a[i]);
      }
    }
    var i := OwnerAt(a);
    assert i >= 0 ==> OwnerRow(b[i]);
  }

  /** Ownership moves between two different active rows. */
  lemma OwnerMoves(rows: seq<Row>, i: nat, j: nat)
    requires AtMostOneOwner(rows) && i < |rows| && j < |rows| && i != j && OwnerRow(rows[i]) && rows[j].Active()
    ensures var after := rows[i := rows[i].(role := Admin)][j := rows[j].(role := Owner)];
            AtMostOneOwner(after) && OwnerAt(after) == j
  {
    var after := rows[i := rows[i].(role := Admin)][j := rows[j].(role := Owner)];
    assert forall k :: 0 <= k < |rows| && k != i && k != j ==> after[k] == rows[k] && !OwnerRow(rows[k]);
    assert OwnerRow(after[j]);
  }

  lemma KeepsTitle(c: Conv, u: User, t: string)
    requires Inv(c)
    ensures Inv(UpdateTitle(c, u, t).conv)
  {
    var d := UpdateTitle(c, u, t);
    if d.code.Success? {
      ActiveIsMember(c.rows, u);
      Told(c, d.conv, TitleChanged(c.title, Strip(t), u));
    }
  }

  lemma StillOwned(c: Conv, u: User, role: Role)
    requires AtMostOneOwner(c.rows) && !role.Owner?
    ensures var rows := Enrol(c, u, role).rows; AtMostOneOwner(rows) && OwnerOf(rows) == OwnerOf(c.rows)
  {
    OwnerSame(c.rows, Enrol(c, u, role).rows);
  }

  lemma AddedRows(c: Conv, d: Conv, u: User, role: Role)
    requires RowsOk(c) && AtMostOneOwner(c.rows) && !role.Owner? && u !in Members(c.rows)
    requires d.rows == Enrol(c, u, role).rows && d.clock == c.clock + 1 && d.count == c.count + 1
    ensures RowsOk(d) && AtMostOneOwner(d.rows)
    ensures OwnerOf(d.rows) == OwnerOf(c.rows) && Members(d.rows) == Members(c.rows) + {u}
  {
    Enrolled(c, u, role);
    StillOwned(c, u, role);
    assert ActiveAt(d.rows) != {};
  }

  lemma KeepsAdd(c: Conv, u: User, actor: User, role: Role)
    requires Inv(c)
    ensures Inv(AddParticipant(c, u, actor, role).conv)
  {
    var d := AddParticipant(c, u, actor, role);
    if d.code.Success? {
      ActiveIsMember(c.rows, u);
      ActiveIsMember(c.rows, actor);
      AddedRows(c, d.conv, u, role);
      Told(c, d.conv, ParticipantAdded(u, actor));
    }
  }

  lemma KeepsRemove(c: Conv, u: User, actor: User)
    requires Inv(c)
    ensures Inv(RemoveParticipant(c, u, actor).conv)
  {
    var d := RemoveParticipant(c, u, actor);
    if d.code.Success? {
      ActiveIsMember(c.rows, u);
      ActiveIsMember(c.rows, actor);
      var i, j := FindActive(c.rows, actor), FindActive(c.rows, u);
      LeftRow(c, j, Some(actor));
      assert i in ActiveAt(c.rows) - {j};
      OwnerStays(c.rows, j, d.conv.rows[j]);
      assert OwnerOf(c.rows) != Some(u);
      Told(c, d.conv, ParticipantRemoved(u, Some(actor), false));
    }
  }

  lemma KeepsRole(c: Conv, u: User, role: Role, actor: User)
    requires Inv(c)
    ensures Inv(ChangeRole(c, u, role, actor).conv)
  {
    var d := ChangeRole(c, u, role, actor).conv;
    if d != c {
      ActiveIsMember(c.rows, u);
      var i, j := FindActive(c.rows, actor), FindActive(c.rows, u);
      assert OwnerAt(c.rows) == i != j;
      SameSeats(c.rows, d.rows, c.clock, d.clock);
      OwnerSame(c.rows, d.rows);
      Told(c, d, RoleChanged(u, c.rows[j].role, role, actor));
    }
  }

  lemma KeepsTransfer(c: Conv, to: User, from: User)
    requires Inv(c)
    ensures Inv(TransferOwnership(c, to, from).conv)
  {
    var d := TransferOwnership(c, to, from);
    if d.code.Success? {
      ActiveIsMember(c.rows, to);
      var i, j := FindActive(c.rows, from), FindActive(c.rows, to);
      assert OwnerAt(c.rows) == i;
      SameSeats(c.rows, d.conv.rows, c.clock, d.conv.clock);
      OwnerMoves(c.rows, i, j);
      Told(c, d.conv, OwnershipTransferred(from, to, true));
    }
  }

  /** The owner's row closes and row j, if any, is promoted: j becomes the only owner. */
  lemma Crowned(rows: seq<Row>, i: nat, j: int, r: Row)
    requires AtMostOneOwner(rows) && i < |rows| && OwnerRow(rows[i]) && !r.Active()
    requires -1 <= j < |rows| && j != i && (j >= 0 ==> rows[j].Active())
    ensures var h := if j >= 0 then rows[j := rows[j].(role := Owner)] else rows;
            AtMostOneOwner(h[i := r]) && OwnerAt(h[i := r]) == j
  {
    var h := if j >= 0 then rows[j := rows[j].(role := Owner)] else rows;
    var after := h[i := r];
    assert forall k :: 0 <= k < |after| && k != i && k != j ==> after[k] == rows[k] && !OwnerRow(rows[k]);
    assert j >= 0 ==> OwnerRow(after[j]);
  }

  /** After a departure the owner is the successor's row if there is one, and nobody if the owner left
      without one; a departure of anybody else does not move ownership. */
  lemma DepartRows(c: Conv, i: nat)
    requires c.kind.Group? ==> AtMostOneOwner(c.rows)
    requires JoinOrder(c.rows, c.clock) && OneRowEach(c.rows) && i < |c.rows| && c.rows[i].Active()
    ensures var d := Depart(c, i);
            && JoinOrder(d.rows, d.clock) && OneRowEach(d.rows)
            && ActiveAt(d.rows) == ActiveAt(c.rows) - {i} && |ActiveAt(d.rows)| == |ActiveAt(c.rows)| - 1
            && Members(d.rows) == Members(c.rows) - {c.rows[i].user}
            && (c.kind.Group? ==> AtMostOneOwner(d.rows))
            && (c.kind.Group? ==> OwnerAt(d.rows) == if c.rows[i].role.Owner? then Successor(c.rows, c.rows[i].user)
                else OwnerAt(c.rows))
  {
    var u := c.rows[i].user;
    if c.kind.Group? && c.rows[i].role.Owner? {
      var h := HandOver(c, u);
      SameSeats(c.rows, h.rows, c.clock, h.clock);
      LeftRow(h, i, None);
      Crowned(c.rows, i, Successor(c.rows, u), MarkLeft(h, i, None).rows[i]);
    } else {
      LeftRow(c, i, None);
      if c.kind.Group? {
        OwnerStays(c.rows, i, Depart(c, i).rows[i]);
      }
    }
  }

  /** The log of a departure: the transfer, told while the owner is still a member, comes before the removal. */
  lemma DepartLog(c: Conv, i: nat)
    requires Inv(c) && i < |c.rows| && c.rows[i].Active()
    ensures var d := Depart(c, i);
            Threads(d.messages) && d.createdBy == c.createdBy && d.title == c.title && (c.kind.Group? ==> LogOk(d))
  {
    var u := c.rows[i].user;
    DepartRows(c, i);
    var j := Successor(c.rows, u);
    var handed := c.kind.Group? && c.rows[i].role.Owner? && j >= 0;
    var told := if handed then Say(c, OwnershipTransferred(u, c.rows[j].user, false)) else c;
    var gone := ParticipantRemoved(u, None, true);
    assert u in Members(c.rows);
    if handed {
      var e := OwnershipTransferred(u, c.rows[j].user, false);
      ThreadsSay(c.messages, e);
      ReplaySay(c.createdBy.value, c.messages, Notice(e));
      assert c.rows[j].user in Members(c.rows);
    }
    ThreadsSay(told.messages, gone);
    assert Depart(c, i).messages == told.messages + [Notice(gone)];
    if c.kind.Group? {
      assert OwnerRow(c.rows[i]) ==> OwnerAt(c.rows) == i;
      ReplaySay(c.createdBy.value, told.messages, Notice(gone));
      DepartStory(c, i);
    }
  }

  /** What the removal event must leave as owner agrees with the rows. */
  lemma DepartStory(c: Conv, i: nat)
    requires Inv(c) && c.kind.Group? && i < |c.rows| && c.rows[i].Active()
    ensures OwnerOf(Depart(c, i).rows) ==
            if !c.rows[i].role.Owner? then OwnerOf(c.rows)
            else if Successor(c.rows, c.rows[i].user) < 0 then None
            else Some(c.rows[Successor(c.rows, c.rows[i].user)].user)
    ensures !c.rows[i].role.Owner? ==> OwnerOf(c.rows) != Some(c.rows[i].user)
  {
    DepartRows(c, i);
  }

  lemma KeepsLeave(c: Conv, u: User)
    requires Inv(c)
    ensures Inv(Leave(c, u).conv)
  {
    var i := FindActive(c.rows, u);
    if i >= 0 {
      DepartRows(c, i);
      DepartLog(c, i);
      var d := Depart(c, i);
      assert i in ActiveAt(c.rows);
      assert |ActiveAt(d.rows)| == 0 <==> ActiveAt(d.rows) == {};
    }
  }

  lemma KeepsRead(c: Conv, u: User)
    requires Inv(c)
    ensures Inv(MarkAsRead(c, u).conv)
  {
    var d := MarkAsRead(c, u);
    if d.code.Success? {
      SameSeats(c.rows, d.conv.rows, c.clock, d.conv.clock);
      if c.kind.Group? {
        OwnerSame(c.rows, d.conv.rows);
      }
    }
  }

  lemma KeepsSend(c: Conv, u: User, content: string, parentId: int)
    requires Inv(c)
    ensures Inv(SendMessage(c, u, content, parentId).conv)
  {
    var d := SendMessage(c, u, content, parentId);
    if d.code.Success? {
      var parent: Option<nat> := if parentId == 0 then None else Some(Flatten(c.messages, parentId - 1));
      if parentId != 0 {
        FlattenIsRoot(c.messages, parentId - 1);
      }
      ThreadsPost(c, u, Strip(content), parent);
      if c.kind.Group? {
        var m := Message(Some(u), Text(Strip(content)), parent, 0, false, 0);
        ReplaySay(c.createdBy.value, c.messages, m);
        ReplayBodies(c.createdBy.value, c.messages + [m], d.conv.messages);
      }
    }
  }

  lemma KeepsDeleteMessage(c: Conv, k: nat, u: User)
    requires Inv(c) && k < |c.messages|
    ensures Inv(DeleteMessage(c, k, u).conv)
  {
    var d := DeleteMessage(c, k, u);
    if d.code.Success? {
      ThreadsDelete(c.messages, k);
      if c.kind.Group? {
        ReplayBodies(c.createdBy.value, c.messages, d.conv.messages);
      }
    }
  }

  lemma KeepsEdit(c: Conv, k: nat, u: User, content: string, expired: bool)
    requires Inv(c) && k < |c.messages|
    ensures Inv(EditMessage(c, k, u, content, expired).conv)
  {
    var d := EditMessage(c, k, u, content, expired);
    if d.code.Success? {
      ThreadsEdit(c.messages, k, d.conv.messages[k]);
      if c.kind.Group? {
        ReplayBodies(c.createdBy.value, c.messages, d.conv.messages);
      }
    }
  }

  lemma StepKeepsInv(c: Conv, a: Action)
    requires Inv(c)
    ensures Inv(Step(c, a))
  {
    if a.DoAdd? || a.DoRemove? || a.DoLeave? || a.DoChangeRole? || a.DoTransfer? {
      MembershipKeepsInv(c, a);
    } else {
      TalkKeepsInv(c, a);
    }
  }

  lemma MembershipKeepsInv(c: Conv, a: Action)
    requires Inv(c) && (a.DoAdd? || a.DoRemove? || a.DoLeave? || a.DoChangeRole? || a.DoTransfer?)
    ensures Inv(Step(c, a))
  {
    match a
    case DoAdd(actor, u, r) => KeepsAdd(c, u, actor, r);
    case DoRemove(actor, u) => KeepsRemove(c, u, actor);
    case DoLeave(u) => KeepsLeave(c, u);
    case DoChangeRole(actor, u, r) => KeepsRole(c, u, r, actor);
    case DoTransfer(from, to) => KeepsTransfer(c, to, from);
  }

  lemma TalkKeepsInv(c: Conv, a: Action)
    requires Inv(c) && !(a.DoAdd? || a.DoRemove? || a.DoLeave? || a.DoChangeRole? || a.DoTransfer?)
    ensures Inv(Step(c, a))
  {
    match a
    case DoUpdateTitle(u, t) => KeepsTitle(c, u, t);
    case DoDelete(u) =>
    case DoRead(u) => KeepsRead(c, u);
    case DoSend(u, t, p) => KeepsSend(c, u, t, p);
    case DoDeleteMessage(u, k) => if k < |c.messages| { KeepsDeleteMessage(c, k, u); }
    case DoEdit(u, k, t, expired) => if k < |c.messages| { KeepsEdit(c, k, u, t, expired); }
  }

  lemma {:induction false} RunKeepsInv(c: Conv, actions: seq<Action>)
    requires Inv(c)
    ensures Inv(Run(c, actions))
  {
    if actions != [] {
      RunKeepsInv(c, actions[..|actions| - 1]);
      StepKeepsInv(Run(c, actions[..|actions| - 1]), actions[|actions| - 1]);
    }
  }

  // ---------------------------------------------------------------------------------- counting threads

  function Roots(messages: seq<Message>): nat {
    if messages == [] then 0
    else Roots(messages[..|messages| - 1]) + (if messages[|messages| - 1].parent.None? then 1 else 0)
  }

  function TotalReplies(messages: seq<Message>): nat {
    if messages == [] then 0 else TotalReplies(messages[..|messages| - 1]) + messages[|messages| - 1].replyCount
  }

  function Uncount(messages: seq<Message>, p: nat): seq<Message>
    requires p < |messages| && messages[p].replyCount > 0
  {
    messages[p := messages[p].(replyCount := messages[p].replyCount - 1)]
  }

  lemma {:induction false} OneReplyLess(messages: seq<Message>, p: nat)
    requires p < |messages| && messages[p].replyCount > 0
    ensures var fewer := Uncount(messages, p);
            TotalReplies(fewer) == TotalReplies(messages) - 1 && Roots(fewer) == Roots(messages)
  {
    var n := |messages| - 1;
    if p < n {
      OneReplyLess(messages[..n], p);
      assert Uncount(messages, p)[..n] == Uncount(messages[..n], p);
    } else {
      assert Uncount(messages, p)[..n] == messages[..n];
    }
  }

  /** Without its last message, a root, a thread forest is again one. */
  lemma WithoutLastRoot(messages: seq<Message>)
    requires Threads(messages) && messages != [] && messages[|messages| - 1].parent.None?
    ensures Threads(messages[..|messages| - 1])
  {
    var init := messages[..|messages| - 1];
    forall k | 0 <= k < |init| ensures ThreadOk(init, k) {
      assert ThreadOk(messages, k);
      assert Replies(init, k) == Replies(messages, k);
    }
  }

  /** Without its last message, a reply, it is one once that reply is no longer counted. */
  lemma WithoutLastReply(messages: seq<Message>, p: nat)
    requires Threads(messages) && messages != [] && messages[|messages| - 1].parent == Some(p)
    ensures p < |messages| - 1 && messages[p].replyCount > 0 && Threads(Uncount(messages[..|messages| - 1], p))
  {
    var n := |messages| - 1;
    assert ThreadOk(messages, n) && ThreadOk(messages, p);
    assert n in Replies(messages, p);
    var fewer := Uncount(messages[..n], p);
    forall k | 0 <= k < n ensures ThreadOk(fewer, k) {
      assert ThreadOk(messages, k);
      assert Replies(fewer, k) == Replies(messages, k) - (if k == p then {n} else {});
    }
  }

  lemma NoSelfReplies(messages: seq<Message>, n: nat)
    requires Threads(messages) && n == |messages| - 1
    ensures Replies(messages, n) == {}
  {
    forall j | 0 <= j < |messages| ensures messages[j].parent != Some(n) {
      assert ThreadOk(messages, j);
    }
  }

  /** Every message is a root or counted once in its root's reply count, deleted ones included. */
  lemma {:induction false} ThreadsPartition(messages: seq<Message>)
    requires Threads(messages)
    ensures |messages| == Roots(messages) + TotalReplies(messages)
    decreases |messages|
  {
    if messages != [] {
      var n := |messages| - 1;
      assert ThreadOk(messages, n);
      NoSelfReplies(messages, n);
      match messages[n].parent
      case None =>
        WithoutLastRoot(messages);
        ThreadsPartition(messages[..n]);
      case Some(p) =>
        WithoutLastReply(messages, p);
        ThreadsPartition(Uncount(messages[..n], p));
        OneReplyLess(messages[..n], p);
    }
  }
}
