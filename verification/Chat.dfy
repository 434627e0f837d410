/** The rows of one conversation and, for each service call, the rows it leaves behind and the
    error code it returns. `ChatService` proves the imperative services against these functions. */
module Chat {
  import opened Base
  import E = EditHistory

  type User = nat

  type OtherText = t: string | t != "owner" && t != "admin" && t != "member" witness ""

  /** The role column holds any text: `Unset` is NULL, `Other` a value outside the three declared roles. */
  datatype Role = Unset | Owner | Admin | Member | Other(text: OtherText) {
    predicate Declared() { Owner? || Admin? || Member? }
  }

  datatype Kind = Direct | Group

  datatype Row = Row(user: User, role: Role, joinedAt: nat, leftAt: Option<nat>, leftVoluntarily: Option<bool>,
                     removedBy: Option<User>, lastReadAt: Option<nat>) {
    predicate Active() { leftAt.None? }
  }

  datatype Event =
    | GroupCreated(title: string)
    | ParticipantAdded(user: User, addedBy: User)
    | ParticipantRemoved(user: User, removedBy: Option<User>, left: bool)
    | RoleChanged(user: User, oldRole: Role, newRole: Role, changedBy: User)
    | OwnershipTransferred(from: User, to: User, manual: bool)
    | TitleChanged(oldTitle: string, newTitle: string, changedBy: User)

  datatype Body = Text(content: string) | System(event: Event)

  /** The message at position k of a conversation has id k + 1; `parent` is a position. */
  datatype Message = Message(sender: Option<User>, body: Body, parent: Option<nat>, replyCount: nat, deleted: bool,
                             editCount: nat)

  datatype Conv = Conv(kind: Kind, title: string, createdBy: Option<User>, count: int, rows: seq<Row>,
                       messages: seq<Message>, deletedAt: Option<nat>, clock: nat)

  datatype Code =
    | Success | SameUser | TitleRequired | NotGroup | NotParticipant | PermissionDenied | AlreadyParticipant
    | CannotAddOwner | RemoverNotParticipant | CannotRemoveOwner | CannotRemoveSelf | ChangerNotParticipant
    | CannotChangeOwnerRole | InvalidRole | NotOwner | CurrentNotParticipant | EmptyContent | InvalidParent
    | ConversationDeleted | SystemMessage | AlreadyDeleted | MessageDeleted | NotAuthor
    | EditTimeExpired | MaxEditsReached | NoSuchMessage | UniqueViolation

  datatype Result = Result(conv: Conv, code: Code)

  // ---------------------------------------------------------------------------------- lookups

  /** The position of the user's active row, or -1. */
  function FindActive(rows: seq<Row>, u: User): (i: int)
    ensures -1 <= i < |rows|
    ensures i >= 0 ==> rows[i].Active() && rows[i].user == u
    ensures i == -1 ==> forall k :: 0 <= k < |rows| && rows[k].Active() ==> rows[k].user != u
  {
    if rows == [] then -1
    else
      var n := |rows| - 1;
      var i := FindActive(rows[..n], u);
      if i >= 0 then i else if rows[n].Active() && rows[n].user == u then n else -1
  }

  predicate Candidate(r: Row, role: Role, departing: User) {
    r.Active() && r.role == role && r.user != departing
  }

  /** The candidate with the least `joined_at`, or -1: `order_by("joined_at").first()`. */
  function Oldest(rows: seq<Row>, role: Role, departing: User): (i: int)
    ensures -1 <= i < |rows|
    ensures i >= 0 ==> Candidate(rows[i], role, departing)
    ensures i >= 0 ==> forall k ::
        0 <= k < |rows| && Candidate(rows[k], role, departing) ==> rows[i].joinedAt <= rows[k].joinedAt
    ensures i == -1 ==> forall k :: 0 <= k < |rows| ==> !Candidate(rows[k], role, departing)
  {
    if rows == [] then -1
    else
      var n := |rows| - 1;
      var i := Oldest(rows[..n], role, departing);
      if Candidate(rows[n], role, departing) && (i < 0 || rows[n].joinedAt < rows[i].joinedAt) then n else i
  }

  /** The departing owner's successor: the oldest admin, else the oldest member, else -1. */
  function Successor(rows: seq<Row>, departing: User): (i: int)
    ensures -1 <= i < |rows|
    ensures i >= 0 ==> rows[i].Active() && rows[i].user != departing && (rows[i].role.Admin? || rows[i].role.Member?)
  {
    var i := Oldest(rows, Admin, departing);
    if i >= 0 then i else Oldest(rows, Member, departing)
  }

  function ActiveAt(rows: seq<Row>): set<nat> {
    set k: nat | k < |rows| && rows[k].Active()
  }

  // ---------------------------------------------------------------------------------- row edits

  function NewRow(u: User, role: Role, now: nat): Row {
    Row(u, role, now, None, None, None, None)
  }

  function Notice(e: Event): Message {
    Message(None, System(e), None, 0, false, 0)
  }

  function Say(c: Conv, e: Event): Conv {
    c.(messages := c.messages + [Notice(e)])
  }

  function Enrol(c: Conv, u: User, role: Role): Conv {
    c.(rows := c.rows + [NewRow(u, role, c.clock)], clock := c.clock + 1)
  }

  function SetRole(c: Conv, i: nat, role: Role): Conv
    requires i < |c.rows|
  {
    c.(rows := c.rows[i := c.rows[i].(role := role)])
  }

  function MarkLeft(c: Conv, i: nat, actor: Option<User>): Conv
    requires i < |c.rows|
  {
    c.(rows := c.rows[i :=
        c.rows[i].(leftAt := Some(c.clock), leftVoluntarily := Some(actor.None?), removedBy := actor)],
       count := c.count - 1, clock := c.clock + 1)
  }

  function SoftDelete(c: Conv): Conv {
    c.(deletedAt := Some(c.clock), clock := c.clock + 1)
  }

  // ---------------------------------------------------------------------------------- creation

  function NewDirect(low: User, high: User, now: nat): Conv {
    Enrol(Enrol(Conv(Direct, "", None, 2, [], [], None, now), low, Unset), high, Unset)
  }

  function Without(us: seq<User>, u: User): (r: seq<User>)
    ensures u !in r
    ensures forall v :: v in r <==> v in us && v != u
  {
    if us == [] then []
    else (if us[0] == u then [] else [us[0]]) + Without(us[1..], u)
  }

  predicate Distinct(us: seq<User>) {
    forall i, j :: 0 <= i < j < |us| ==> us[i] != us[j]
  }

  function EnrolAll(c: Conv, us: seq<User>): Conv {
    if us == [] then c else Enrol(EnrolAll(c, us[..|us| - 1]), us[|us| - 1], Member)
  }

  function AnnounceAll(c: Conv, us: seq<User>, actor: User): Conv {
    if us == [] then c else Say(AnnounceAll(c, us[..|us| - 1], actor), ParticipantAdded(us[|us| - 1], actor))
  }

  function EmptyGroup(creator: User, title: string, size: nat, now: nat): Conv {
    Conv(Group, title, Some(creator), size, [], [], None, now)
  }

  /** `create_group` once its arguments have been accepted. */
  function NewGroup(creator: User, title: string, members: seq<User>, now: nat): Conv {
    var c := EnrolAll(Enrol(EmptyGroup(creator, title, 1 + |members|, now), creator, Owner), members);
    AnnounceAll(Say(c, GroupCreated(title)), members, creator)
  }

  /** A repeated initial member violates `unique_active_participation`, which undoes the transaction. */
  function CreateGroupCode(creator: User, title: string, initial: seq<User>): Code {
    if Strip(title) == "" then TitleRequired
    else if !Distinct(Without(initial, creator)) then UniqueViolation
    else Success
  }

  // ---------------------------------------------------------------------------------- conversation calls

  function UpdateTitle(c: Conv, u: User, newTitle: string): Result {
    var title := Strip(newTitle);
    var i := FindActive(c.rows, u);
    if c.kind.Direct? then Result(c, NotGroup)
    else if title == "" then Result(c, TitleRequired)
    else if i < 0 then Result(c, NotParticipant)
    else if !(c.rows[i].role.Owner? || c.rows[i].role.Admin?) then Result(c, PermissionDenied)
    else Result(Say(c.(title := title), TitleChanged(c.title, title, u)), Success)
  }

  function DeleteConversation(c: Conv, u: User): Result {
    var i := FindActive(c.rows, u);
    if c.kind.Direct? then Result(c, NotGroup)
    else if i < 0 then Result(c, NotParticipant)
    else if !c.rows[i].role.Owner? then Result(c, PermissionDenied)
    else Result(SoftDelete(c), Success)
  }

  // ---------------------------------------------------------------------------------- participant calls

  function AddParticipant(c: Conv, u: User, actor: User, role: Role): Result {
    var i := FindActive(c.rows, actor);
    if c.kind.Direct? then Result(c, NotGroup)
    else if role.Owner? then Result(c, CannotAddOwner)
    else if i < 0 then Result(c, NotParticipant)
    else if c.rows[i].role.Member? then Result(c, PermissionDenied)
    else if role.Admin? && !c.rows[i].role.Owner? then Result(c, PermissionDenied)
    else if FindActive(c.rows, u) >= 0 then Result(c, AlreadyParticipant)
    else Result(Say(Enrol(c.(count := c.count + 1), u, role), ParticipantAdded(u, actor)), Success)
  }

  function RemoveParticipant(c: Conv, u: User, actor: User): Result {
    var i := FindActive(c.rows, actor);
    var j := FindActive(c.rows, u);
    if c.kind.Direct? then Result(c, NotGroup)
    else if u == actor then Result(c, CannotRemoveSelf)
    else if i < 0 then Result(c, RemoverNotParticipant)
    else if j < 0 then Result(c, NotParticipant)
    else if c.rows[j].role.Owner? then Result(c, CannotRemoveOwner)
    else if c.rows[i].role.Member? then Result(c, PermissionDenied)
    else if c.rows[i].role.Admin? && c.rows[j].role.Admin? then Result(c, PermissionDenied)
    else Result(Say(MarkLeft(c, j, Some(actor)), ParticipantRemoved(u, Some(actor), false)), Success)
  }

  /** `_transfer_ownership_on_departure`: the departing owner's own row keeps its role. */
  function HandOver(c: Conv, departing: User): (r: Conv)
    ensures |r.rows| == |c.rows|
  {
    var j := Successor(c.rows, departing);
    if j < 0 then c
    else Say(SetRole(c, j, Owner), OwnershipTransferred(departing, c.rows[j].user, false))
  }

  /** `leave` up to the decision whether the conversation is now empty. */
  function Depart(c: Conv, i: nat): Conv
    requires i < |c.rows|
  {
    var u := c.rows[i].user;
    var d := if c.kind.Group? && c.rows[i].role.Owner? then HandOver(c, u) else c;
    Say(MarkLeft(d, i, None), ParticipantRemoved(u, None, true))
  }

  function Leave(c: Conv, u: User): Result {
    var i := FindActive(c.rows, u);
    if i < 0 then Result(c, NotParticipant)
    else
      var d := Depart(c, i);
      var empty := if c.kind.Direct? then |ActiveAt(d.rows)| == 0 else d.count <= 0;
      Result(if empty then SoftDelete(d) else d, Success)
  }

  function ChangeRole(c: Conv, u: User, role: Role, actor: User): Result {
    var i := FindActive(c.rows, actor);
    var j := FindActive(c.rows, u);
    if c.kind.Direct? then Result(c, NotGroup)
    else if !(role.Admin? || role.Member?) then Result(c, InvalidRole)
    else if i < 0 then Result(c, ChangerNotParticipant)
    else if j < 0 then Result(c, NotParticipant)
    else if !c.rows[i].role.Owner? then Result(c, PermissionDenied)
    else if c.rows[j].role.Owner? then Result(c, CannotChangeOwnerRole)
    else if c.rows[j].role == role then Result(c, Success)
    else Result(Say(SetRole(c, j, role), RoleChanged(u, c.rows[j].role, role, actor)), Success)
  }

  function TransferOwnership(c: Conv, to: User, from: User): Result {
    var i := FindActive(c.rows, from);
    var j := FindActive(c.rows, to);
    if c.kind.Direct? then Result(c, NotGroup)
    else if to == from then Result(c, SameUser)
    else if i < 0 then Result(c, CurrentNotParticipant)
    else if !c.rows[i].role.Owner? then Result(c, NotOwner)
    else if j < 0 then Result(c, NotParticipant)
    else Result(Say(SetRole(SetRole(c, i, Admin), j, Owner), OwnershipTransferred(from, to, true)), Success)
  }

  // ---------------------------------------------------------------------------------- message calls

  function MarkAsRead(c: Conv, u: User): Result {
    var i := FindActive(c.rows, u);
    if i < 0 then Result(c, NotParticipant)
    else Result(c.(rows := c.rows[i := c.rows[i].(lastReadAt := Some(c.clock))], clock := c.clock + 1), Success)
  }

  /** The root a reply is attached to: one hop up, because a parent is already a root. */
  function Flatten(messages: seq<Message>, k: nat): nat
    requires k < |messages|
  {
    if messages[k].parent.Some? then messages[k].parent.value else k
  }

  /** Whether a given parent id names a message of this conversation (ids start at 1; 0 means no parent). */
  predicate KnownId(c: Conv, id: int) {
    1 <= id <= |c.messages|
  }

  function Post(c: Conv, sender: User, content: string, parent: Option<nat>): Conv {
    var grown := c.messages + [Message(Some(sender), Text(content), parent, 0, false, 0)];
    match parent
    case Some(p) =>
      if p < |grown| then c.(messages := grown[p := grown[p].(replyCount := grown[p].replyCount + 1)])
          else c.(messages := grown)
    case None => c.(messages := grown)
  }

  function SendMessage(c: Conv, sender: User, content: string, parentId: int): Result {
    var text := Strip(content);
    if c.deletedAt.Some? then Result(c, ConversationDeleted)
    else if FindActive(c.rows, sender) < 0 then Result(c, NotParticipant)
    else if text == "" then Result(c, EmptyContent)
    else if parentId == 0 then Result(Post(c, sender, text, None), Success)
    else if !KnownId(c, parentId) then Result(c, InvalidParent)
    else Result(Post(c, sender, text, Some(Flatten(c.messages, parentId - 1))), Success)
  }

  function DeleteMessage(c: Conv, k: nat, u: User): Result
    requires k < |c.messages|
  {
    var m := c.messages[k];
    var i := FindActive(c.rows, u);
    if m.body.System? then Result(c, SystemMessage)
    else if m.deleted then Result(c, AlreadyDeleted)
    else if i < 0 then Result(c, NotParticipant)
    else if !(m.sender == Some(u) || (c.kind.Group? && c.rows[i].role.Owner?)) then Result(c, PermissionDenied)
    else Result(c.(messages := c.messages[k := m.(deleted := true)], clock := c.clock + 1), Success)
  }

  /** `edit_message` without interference; `expired` is what the clock says of the time limit. The caller need not
      be a participant any more. */
  function EditMessage(c: Conv, k: nat, u: User, newContent: string, expired: bool): Result
    requires k < |c.messages|
  {
    var text, m := Strip(newContent), c.messages[k];
    if text == "" then Result(c, EmptyContent)
    else if m.body.System? then Result(c, SystemMessage)
    else if m.deleted then Result(c, MessageDeleted)
    else if m.sender != Some(u) then Result(c, NotAuthor)
    else if expired then Result(c, EditTimeExpired)
    else if m.editCount >= E.MAX_EDIT_COUNT then Result(c, MaxEditsReached)
    else Result(c.(messages := c.messages[k := m.(body := Text(text), editCount := m.editCount + 1)],
                   clock := c.clock + 1), Success)
  }

  // ---------------------------------------------------------------------------------- runs

  /** One service call. Every call is made by some user, its `actor`. */
  datatype Action =
    | DoUpdateTitle(actor: User, title: string)
    | DoDelete(actor: User)
    | DoAdd(actor: User, user: User, role: Role)
    | DoRemove(actor: User, user: User)
    | DoLeave(actor: User)
    | DoChangeRole(actor: User, user: User, role: Role)
    | DoTransfer(actor: User, user: User)
    | DoRead(actor: User)
    | DoSend(actor: User, content: string, parentId: int)
    | DoDeleteMessage(actor: User, position: nat)
    | DoEdit(actor: User, position: nat, content: string, expired: bool)

  function Perform(c: Conv, a: Action): Result {
    match a
    case DoUpdateTitle(u, t) => UpdateTitle(c, u, t)
    case DoDelete(u) => DeleteConversation(c, u)
    case DoAdd(actor, u, r) => AddParticipant(c, u, actor, r)
    case DoRemove(actor, u) => RemoveParticipant(c, u, actor)
    case DoLeave(u) => Leave(c, u)
    case DoChangeRole(actor, u, r) => ChangeRole(c, u, r, actor)
    case DoTransfer(from, to) => TransferOwnership(c, to, from)
    case DoRead(u) => MarkAsRead(c, u)
    case DoSend(u, t, p) => SendMessage(c, u, t, p)
    case DoDeleteMessage(u, k) => if k < |c.messages| then DeleteMessage(c, k, u) else Result(c, NoSuchMessage)
    case DoEdit(u, k, t, expired) =>
      if k < |c.messages| then EditMessage(c, k, u, t, expired) else Result(c, NoSuchMessage)
  }

  function Step(c: Conv, a: Action): Conv {
    Perform(c, a).conv
  }

  function Run(c: Conv, actions: seq<Action>): Conv {
    if actions == [] then c else Step(Run(c, actions[..|actions| - 1]), actions[|actions| - 1])
  }
}
