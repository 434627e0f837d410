/** The API's permission classes state the role rules a second time. Where exactly do the two agree? */
module RoleRules {
  import opened Base
  import opened Chat
  import opened ChatInvariants

  /** `CanManageParticipants` on a POST to the conversation. */
  predicate MayAdd(c: Conv, actor: User, requested: Role) {
    var i := FindActive(c.rows, actor);
    if i < 0 then false
    else if c.rows[i].role.Owner? then requested.Admin? || requested.Member?
    else if c.rows[i].role.Admin? then requested.Member?
    else false
  }

  /** `CanManageParticipants` on a DELETE of a participant row. */
  predicate MayRemove(c: Conv, actor: User, target: Row) {
    var i := FindActive(c.rows, actor);
    if i < 0 then false
    else if target.user == actor then false
    else if c.rows[i].role.Owner? then true
    else if c.rows[i].role.Admin? then target.role.Member?
    else false
  }

  /** `CanManageParticipants` on a PATCH of a participant row. */
  predicate MayChangeRole(c: Conv, actor: User) {
    var i := FindActive(c.rows, actor);
    i >= 0 && c.rows[i].role.Owner?
  }

  /** `CanModifyMessage`. */
  predicate MayModify(m: Message, u: User) {
    if m.body.System? then false else m.sender == Some(u)
  }

  predicate RefusesAdd(code: Code) {
    code.CannotAddOwner? || code.NotParticipant? || code.PermissionDenied?
  }

  predicate RefusesRemoval(code: Code) {
    code.CannotRemoveSelf? || code.RemoverNotParticipant? || code.CannotRemoveOwner? || code.PermissionDenied?
  }

  /** The permission class and the service agree on an addition exactly when no undeclared role is involved:
      neither requested from someone who is not a plain member, nor held by the one who adds a member. */
  lemma AddAgreesExactly(c: Conv, actor: User, u: User, requested: Role)
    requires Inv(c) && c.kind.Group?
    ensures var i := FindActive(c.rows, actor);
            (MayAdd(c, actor, requested) <==> !RefusesAdd(AddParticipant(c, u, actor, requested).code)) <==>
            !(i >= 0 && if requested.Declared() then requested.Member? && !c.rows[i].role.Declared()
                else !c.rows[i].role.Member?)
  {
  }

  /** On removals of an active participant they agree exactly when neither an admin faces an undeclared role nor
      an undeclared role faces anyone but the owner. That the class lets the owner remove "anyone" needs the
      one-owner invariant. */
  lemma RemovalAgreesExactly(c: Conv, actor: User, j: nat)
    requires Inv(c) && c.kind.Group? && j < |c.rows| && c.rows[j].Active()
    ensures var i := FindActive(c.rows, actor);
            (MayRemove(c, actor, c.rows[j]) <==> !RefusesRemoval(RemoveParticipant(c, c.rows[j].user, actor).code)) <==>
            !(i >= 0 && i != j && ((c.rows[i].role.Admin? && !c.rows[j].role.Declared())
                                || (!c.rows[i].role.Declared() && !c.rows[j].role.Owner?)))
  {
    assert FindActive(c.rows, c.rows[j].user) == j;
    var i := FindActive(c.rows, actor);
    assert i >= 0 && OwnerRow(c.rows[i]) && i != j ==> !OwnerRow(c.rows[j]);
  }

  /** In a group whose roles are all declared the two statements of the add and remove rules are one. */
  lemma DeclaredRolesAgree(c: Conv, actor: User, u: User, requested: Role)
    requires Inv(c) && c.kind.Group? && requested.Declared()
    requires forall k :: 0 <= k < |c.rows| && c.rows[k].Active() ==> c.rows[k].role.Declared()
    ensures MayAdd(c, actor, requested) <==> !RefusesAdd(AddParticipant(c, u, actor, requested).code)
    ensures forall j: nat :: j < |c.rows| && c.rows[j].Active() ==>
              (MayRemove(c, actor, c.rows[j]) <==> !RefusesRemoval(RemoveParticipant(c, c.rows[j].user, actor).code))
  {
    AddAgreesExactly(c, actor, u, requested);
    forall j: nat | j < |c.rows| && c.rows[j].Active()
      ensures MayRemove(c, actor, c.rows[j]) <==> !RefusesRemoval(RemoveParticipant(c, c.rows[j].user, actor).code)
    {
      RemovalAgreesExactly(c, actor, j);
    }
  }

  /** Of a text that is not blank and a message that is not deleted, `CanModifyMessage` allows the edit exactly when
      `edit_message` does not refuse it on author or kind. Neither asks whether the author still participates. */
  lemma EditAgreesExactly(c: Conv, k: nat, u: User, text: string, expired: bool, rows: seq<Row>)
    requires k < |c.messages| && Strip(text) != "" && !c.messages[k].deleted
    ensures var code := EditMessage(c, k, u, text, expired).code;
            && (MayModify(c.messages[k], u) <==> !code.SystemMessage? && !code.NotAuthor?)
            && EditMessage(c.(rows := rows), k, u, text, expired).code == code
  {
  }

  /** On role changes the class is laxer: what it allows, the service may still refuse only for reasons other
      than the changer's rank. */
  lemma RoleChangeAgrees(c: Conv, actor: User, u: User, role: Role)
    requires Inv(c) && c.kind.Group? && (role.Admin? || role.Member?) && FindActive(c.rows, u) >= 0
    ensures var code := ChangeRole(c, u, role, actor).code;
            MayChangeRole(c, actor) <==> !(code.ChangerNotParticipant? || code.PermissionDenied?)
    ensures MayChangeRole(c, actor) ==> (ChangeRole(c, u, role, actor).code.CannotChangeOwnerRole? <==> u == actor)
  {
    var i, j := FindActive(c.rows, actor), FindActive(c.rows, u);
    assert i >= 0 && OwnerRow(c.rows[i]) && OwnerRow(c.rows[j]) ==> i == j;
  }

  /** What `CanModifyMessage` allows, `delete_message` never refuses on rank or kind; what the service deletes
      beyond that is somebody else's message in a group its owner cleans up. */
  lemma DeleteAgrees(c: Conv, k: nat, u: User)
    requires Inv(c) && k < |c.messages|
    ensures var code := DeleteMessage(c, k, u).code;
            && (MayModify(c.messages[k], u) ==> !code.PermissionDenied? && !code.SystemMessage?)
            && (code.Success? && !MayModify(c.messages[k], u) ==>
                  c.kind.Group? && OwnerOf(c.rows) == Some(u) && c.messages[k].sender != Some(u))
  {
    var i := FindActive(c.rows, u);
    assert c.kind.Group? && i >= 0 && c.rows[i].role.Owner? ==> OwnerAt(c.rows) == i;
  }
}
