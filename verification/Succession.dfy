/** The order in which ownership passes when each owner leaves in turn. */
module Succession {
  import opened Base
  import opened Chat
  import opened ChatInvariants
  import opened ChatRuns

  predicate Holds(r: Row, role: Role) { r.Active() && r.role == role }

  /** The active holders of a role in row order, which by `JoinOrder` is the order of `joined_at`. */
  function HoldersOf(rows: seq<Row>, role: Role): seq<User> {
    if rows == [] then []
    else
      var last := rows[|rows| - 1];
      HoldersOf(rows[..|rows| - 1], role) + (if Holds(last, role) then [last.user] else [])
  }

  /** All admins by `joined_at`, then all members by `joined_at`. */
  function Heirs(rows: seq<Row>): seq<User> {
    HoldersOf(rows, Admin) + HoldersOf(rows, Member)
  }

  lemma {:induction false} NoHolders(rows: seq<Row>, role: Role)
    ensures HoldersOf(rows, role) == [] <==> forall k :: 0 <= k < |rows| ==> !Holds(rows[k], role)
  {
    if rows != [] {
      NoHolders(rows[..|rows| - 1], role);
    }
  }

  lemma {:induction false} HoldersUnmoved(rows: seq<Row>, role: Role, i: nat, r: Row)
    requires i < |rows| && !Holds(rows[i], role) && !Holds(r, role)
    ensures HoldersOf(rows[i := r], role) == HoldersOf(rows, role)
  {
    var n := |rows| - 1;
    if i < n {
      HoldersUnmoved(rows[..n], role, i, r);
      assert rows[i := r][..n] == rows[..n][i := r];
    } else {
      assert rows[i := r][..n] == rows[..n];
    }
  }

  /** Taking the role from its first holder drops the head of the list. */
  lemma {:induction false} FirstHolder(rows: seq<Row>, role: Role, j: nat, r: Row)
    requires j < |rows| && Holds(rows[j], role) && !Holds(r, role)
    requires forall k :: 0 <= k < j ==> !Holds(rows[k], role)
    ensures HoldersOf(rows, role) == [rows[j].user] + HoldersOf(rows[j := r], role)
  {
    var n := |rows| - 1;
    if j < n {
      FirstHolder(rows[..n], role, j, r);
      assert rows[j := r][..n] == rows[..n][j := r];
    } else {
      NoHolders(rows[..n], role);
      assert rows[j := r][..n] == rows[..n];
    }
  }

  /** The least `joined_at` among the candidates belongs to the first holder. */
  lemma OldestIsFirst(c: Conv, role: Role, i: nat)
    requires RowsOk(c) && i < |c.rows| && c.rows[i].Active() && c.rows[i].role != role
    ensures var j := Oldest(c.rows, role, c.rows[i].user);
            if j < 0 then HoldersOf(c.rows, role) == []
            else Holds(c.rows[j], role) && forall k :: 0 <= k < j ==> !Holds(c.rows[k], role)
  {
    var u := c.rows[i].user;
    assert forall k :: 0 <= k < |c.rows| ==> Holds(c.rows[k], role) == Candidate(c.rows[k], role, u);
    NoHolders(c.rows, role);
  }

  function OwnerLeaves(c: Conv): Conv
    requires OwnerOf(c.rows).Some?
  {
    Step(c, DoLeave(OwnerOf(c.rows).value))
  }

  /** The owner's departure consumes the first heir. */
  lemma HeirsAdvance(c: Conv)
    requires Inv(c) && c.kind.Group? && OwnerOf(c.rows).Some?
    ensures var d := OwnerLeaves(c);
            if Heirs(c.rows) == [] then OwnerOf(d.rows).None?
            else OwnerOf(d.rows) == Some(Heirs(c.rows)[0]) && Heirs(d.rows) == Heirs(c.rows)[1..]
  {
    var i := OwnerAt(c.rows);
    var u := c.rows[i].user;
    assert FindActive(c.rows, u) == i;
    OwnerAfterLeave(c, u);
    OldestIsFirst(c, Admin, i);
    OldestIsFirst(c, Member, i);
    var j := Successor(c.rows, u);
    if j >= 0 {
      PromotedHeirs(c, i, j);
    }
  }

  lemma PromotedHeirs(c: Conv, i: nat, j: nat)
    requires RowsOk(c) && c.kind.Group? && i < |c.rows| && OwnerRow(c.rows[i]) && j == Successor(c.rows, c.rows[i].user)
    ensures Heirs(c.rows) == [c.rows[j].user] + Heirs(Depart(c, i).rows)
  {
    OldestIsFirst(c, Admin, i);
    OldestIsFirst(c, Member, i);
    var closed := MarkLeft(c, i, None).rows[i];
    DepartedRows(c, i, j);
    PromotedList(c.rows, i, j, closed);
  }

  lemma DepartedRows(c: Conv, i: nat, j: nat)
    requires c.kind.Group? && i < |c.rows| && OwnerRow(c.rows[i]) && j == Successor(c.rows, c.rows[i].user)
    ensures Depart(c, i).rows == c.rows[j := c.rows[j].(role := Owner)][i := MarkLeft(c, i, None).rows[i]]
  {
  }

  /** Promoting the first admin (or, with no admin, the first member) and closing the owner's row removes
      just the head of the succession. */
  lemma PromotedList(rows: seq<Row>, i: nat, j: nat, closed: Row)
    requires i < |rows| && j < |rows| && i != j && OwnerRow(rows[i]) && !closed.Active()
    requires Holds(rows[j], Admin) || (Holds(rows[j], Member) && HoldersOf(rows, Admin) == [])
    requires forall k :: 0 <= k < j ==> !Holds(rows[k], rows[j].role)
    ensures Heirs(rows) == [rows[j].user] + Heirs(rows[j := rows[j].(role := Owner)][i := closed])
  {
    var promoted := rows[j].(role := Owner);
    var after := rows[j := promoted];
    FirstHolder(rows, rows[j].role, j, promoted);
    HoldersUnmoved(rows, if rows[j].role.Admin? then Member else Admin, j, promoted);
    HoldersUnmoved(after, Admin, i, closed);
    HoldersUnmoved(after, Member, i, closed);
  }

  /** The owners met while n owners leave one after the other. */
  function Reigns(c: Conv, n: nat): seq<User>
    decreases n
  {
    if n == 0 || OwnerOf(c.rows).None? then []
    else [OwnerOf(c.rows).value] + Reigns(OwnerLeaves(c), n - 1)
  }

  function AfterReigns(c: Conv, n: nat): Conv
    decreases n
  {
    if n == 0 || OwnerOf(c.rows).None? then c else AfterReigns(OwnerLeaves(c), n - 1)
  }

  /** A group with an owner, whatever the roles of the others. */
  ghost predicate Led(c: Conv) {
    Inv(c) && c.kind.Group? && OwnerOf(c.rows).Some?
  }

  lemma LeaveIsDepart(c: Conv, i: nat)
    requires c.kind.Group? && i < |c.rows| && FindActive(c.rows, c.rows[i].user) == i
    ensures var d := Depart(c, i);
            Leave(c, c.rows[i].user).conv == (if d.count <= 0 then SoftDelete(d) else d) && d.count == c.count - 1
  {
  }

  lemma OwnerFound(c: Conv)
    requires Led(c)
    ensures var i := OwnerAt(c.rows);
        OwnerLeaves(c) == Leave(c, c.rows[i].user).conv && FindActive(c.rows, c.rows[i].user) == i
  {
  }

  lemma OneReign(c: Conv)
    requires Led(c)
    ensures var d := OwnerLeaves(c);
            && Inv(d) && d.kind.Group?
            && |ActiveAt(d.rows)| == |ActiveAt(c.rows)| - 1
            && (ActiveAt(d.rows) != {} ==> d.deletedAt == c.deletedAt)
  {
    var i := OwnerAt(c.rows);
    OwnerFound(c);
    LeaveIsDepart(c, i);
    DepartRows(c, i);
    KeepsLeave(c, c.rows[i].user);
    Marked(c, Depart(c, i));
  }

  /** The mark moves only when the count says nobody is left. */
  lemma Marked(c: Conv, d: Conv)
    requires d.count == |ActiveAt(d.rows)| && d.deletedAt == c.deletedAt
    ensures ActiveAt(d.rows) != {} ==> (if d.count <= 0 then SoftDelete(d) else d).deletedAt == c.deletedAt
  {
  }

  /** Of the roles of the active rows, a departure of the owner takes away one that is declared, and turns at
      most one declared role into another. */
  lemma DeclaredAsBefore(c: Conv)
    requires Led(c)
    ensures AllDeclared(OwnerLeaves(c).rows) <==> AllDeclared(c.rows)
  {
    var i := OwnerAt(c.rows);
    var u := c.rows[i].user;
    assert FindActive(c.rows, u) == i;
    RolesAfter(c, i, Successor(c.rows, u));
  }

  lemma RolesAfter(c: Conv, i: nat, j: int)
    requires c.kind.Group? && i < |c.rows| && OwnerRow(c.rows[i]) && j == Successor(c.rows, c.rows[i].user)
    ensures AllDeclared(Depart(c, i).rows) <==> AllDeclared(c.rows)
  {
    var rows := Depart(c, i).rows;
    assert |rows| == |c.rows| && !rows[i].Active() && c.rows[i].role.Declared();
    assert forall k :: 0 <= k < |rows| && k != i && k != j ==> rows[k] == c.rows[k];
    assert j >= 0 ==> j != i && rows[j].role.Declared() && c.rows[j].role.Declared();
  }

  /** An owner without heirs is alone exactly when all roles are declared. */
  lemma EndOfLine(c: Conv)
    requires Led(c) && Heirs(c.rows) == []
    ensures |ActiveAt(c.rows)| == 1 <==> AllDeclared(c.rows)
  {
    var i := OwnerAt(c.rows);
    NoHolders(c.rows, Admin);
    NoHolders(c.rows, Member);
    assert i in ActiveAt(c.rows);
    if AllDeclared(c.rows) {
      forall k | k in ActiveAt(c.rows) ensures k == i {
        assert !Holds(c.rows[k], Admin) && !Holds(c.rows[k], Member);
      }
      assert ActiveAt(c.rows) == {i};
    } else {
      var k :| 0 <= k < |c.rows| && c.rows[k].Active() && !c.rows[k].role.Declared();
      TwoElements(ActiveAt(c.rows), i, k);
    }
  }

  /** Those whom an owner without heirs leaves behind all hold undeclared roles. */
  lemma LeftBehind(c: Conv)
    requires Led(c) && Heirs(c.rows) == []
    ensures NoneDeclared(OwnerLeaves(c).rows)
  {
    var i := OwnerAt(c.rows);
    OwnerFound(c);
    LeaveIsDepart(c, i);
    NoHolders(c.rows, Admin);
    NoHolders(c.rows, Member);
    assert forall k :: 0 <= k < |c.rows| ==> !Holds(c.rows[k], Admin) && !Holds(c.rows[k], Member);
    OnlyOthers(c, i);
  }

  lemma OnlyOthers(c: Conv, i: nat)
    requires c.kind.Group? && AtMostOneOwner(c.rows) && i < |c.rows| && OwnerRow(c.rows[i])
    requires forall k :: 0 <= k < |c.rows| ==> !Holds(c.rows[k], Admin) && !Holds(c.rows[k], Member)
    ensures NoneDeclared(Depart(c, i).rows)
  {
    var rows := Depart(c, i).rows;
    assert Successor(c.rows, c.rows[i].user) < 0;
    assert |rows| == |c.rows| && !rows[i].Active();
    assert forall k :: 0 <= k < |rows| && k != i ==> rows[k] == c.rows[k] && !OwnerRow(c.rows[k]);
  }

  lemma TwoElements(s: set<nat>, a: nat, b: nat)
    requires a in s && b in s && a != b
    ensures |s| >= 2
  {
    assert |s - {a}| == |s| - 1 && b in s - {a};
  }

  /** The reigns in c are its owner's and then those in d. */
  ghost predicate Precedes(c: Conv, d: Conv) {
    && OwnerOf(c.rows).Some?
    && (forall n: nat :: n > 0 ==> Reigns(c, n) == [OwnerOf(c.rows).value] + Reigns(d, n - 1))
    && (forall n: nat :: n > 0 ==> AfterReigns(c, n) == AfterReigns(d, n - 1))
  }

  lemma ReignsOn(c: Conv)
    requires OwnerOf(c.rows).Some?
    ensures Precedes(c, OwnerLeaves(c))
  {
  }

  /** During the first n departures the group has an owner and its deletion mark does not move. */
  ghost predicate Undisturbed(c: Conv, n: nat) {
    forall k :: 0 <= k < n ==> AfterReigns(c, k).deletedAt == c.deletedAt && OwnerOf(AfterReigns(c, k).rows).Some?
  }

  lemma UndisturbedOn(c: Conv, d: Conv, n: nat)
    requires n > 0 && Precedes(c, d) && Undisturbed(d, n - 1) && (n > 1 ==> d.deletedAt == c.deletedAt)
    ensures Undisturbed(c, n)
  {
    forall k | 0 <= k < n
      ensures AfterReigns(c, k).deletedAt == c.deletedAt && OwnerOf(AfterReigns(c, k).rows).Some?
    {
      if k > 0 {
        assert AfterReigns(c, k) == AfterReigns(d, k - 1);
      }
    }
  }

  /** From the n-th departure on nobody is left to depart as owner. */
  ghost predicate Over(c: Conv, n: nat) {
    forall m: nat :: m >= n ==> AfterReigns(c, m) == AfterReigns(c, n)
  }

  lemma OverAtOnce(c: Conv)
    requires OwnerOf(c.rows).None?
    ensures Over(c, 0)
  {
  }

  lemma OverOn(c: Conv, d: Conv, n: nat)
    requires n > 0 && Precedes(c, d) && Over(d, n - 1)
    ensures Over(c, n)
  {
    forall m: nat | m >= n ensures AfterReigns(c, m) == AfterReigns(c, n) {
      assert AfterReigns(c, m) == AfterReigns(d, m - 1);
    }
  }

  ghost predicate NoneDeclared(rows: seq<Row>) {
    forall k :: 0 <= k < |rows| && rows[k].Active() ==> !rows[k].role.Declared()
  }

  /** What is left when the last heir has left: nobody owns it, and `rest` participants remain, all with
      undeclared roles. */
  ghost predicate Ends(c: Conv, end: Conv, rest: int) {
    && NoneDeclared(end.rows) && OwnerOf(end.rows).None? && end.count == |ActiveAt(end.rows)| == rest
    && (rest == 0 ==> end.deletedAt.Some?) && (rest > 0 ==> end.deletedAt == c.deletedAt)
    && (rest == 0 <==> AllDeclared(c.rows))
  }

  /** The reigns, their course and their end, for one group. */
  ghost predicate Succeeds(c: Conv)
    requires OwnerOf(c.rows).Some?
  {
    var n := |Heirs(c.rows)| + 1;
    && Reigns(c, n) == [OwnerOf(c.rows).value] + Heirs(c.rows)
    && Undisturbed(c, n) && Over(c, n)
    && Ends(c, AfterReigns(c, n), |ActiveAt(c.rows)| - n)
  }

  lemma LastReign(c: Conv)
    requires Led(c) && Heirs(c.rows) == []
    ensures Succeeds(c)
  {
    var d := OwnerLeaves(c);
    OneReign(c);
    HeirsAdvance(c);
    EndOfLine(c);
    LeftBehind(c);
    ReignsOn(c);
    assert Reigns(c, 1) == [OwnerOf(c.rows).value] + Reigns(d, 0) && AfterReigns(c, 1) == AfterReigns(d, 0) == d;
    UndisturbedOn(c, d, 1);
    OverAtOnce(d);
    OverOn(c, d, 1);
  }

  lemma ReignsJoin(c: Conv, d: Conv, n: nat)
    requires Precedes(c, d) && n > 0 && Heirs(c.rows) != []
    requires Reigns(d, n - 1) == [Heirs(c.rows)[0]] + Heirs(c.rows)[1..]
    ensures Reigns(c, n) == [OwnerOf(c.rows).value] + Heirs(c.rows) && AfterReigns(c, n) == AfterReigns(d, n - 1)
  {
    assert [Heirs(c.rows)[0]] + Heirs(c.rows)[1..] == Heirs(c.rows);
  }

  lemma EndsOn(c: Conv, d: Conv, end: Conv, rest: int)
    requires Ends(d, end, rest) && d.deletedAt == c.deletedAt && (AllDeclared(d.rows) <==> AllDeclared(c.rows))
    ensures Ends(c, end, rest)
  {
  }

  lemma NextReigns(c: Conv, d: Conv)
    requires Precedes(c, d) && d.deletedAt == c.deletedAt
    requires Heirs(c.rows) != [] && OwnerOf(d.rows) == Some(Heirs(c.rows)[0]) && Heirs(d.rows) == Heirs(c.rows)[1..]
    requires |ActiveAt(d.rows)| == |ActiveAt(c.rows)| - 1 && (AllDeclared(d.rows) <==> AllDeclared(c.rows))
    requires Succeeds(d)
    ensures Succeeds(c)
  {
    var n := |Heirs(c.rows)| + 1;
    ReignsJoin(c, d, n);
    UndisturbedOn(c, d, n);
    OverOn(c, d, n);
    EndsOn(c, d, AfterReigns(d, n - 1), |ActiveAt(c.rows)| - n);
  }

  /** Letting the owner leave again and again hands any group through all admins and then all members, each by
      `joined_at`, and through nobody else. All who remain then hold undeclared roles: so the group is soft-deleted
      at that moment if all roles were declared, and otherwise goes on without an owner, its mark unmoved. */
  lemma {:induction false} SuccessionOrder(c: Conv)
    requires Led(c)
    ensures var n := |Heirs(c.rows)| + 1;
            && Reigns(c, n) == [OwnerOf(c.rows).value] + Heirs(c.rows)
            && Undisturbed(c, n) && Over(c, n)
            && Ends(c, AfterReigns(c, n), |ActiveAt(c.rows)| - n)
    decreases |Heirs(c.rows)|
  {
    if Heirs(c.rows) == [] {
      LastReign(c);
    } else {
      var d := OwnerLeaves(c);
      OneReign(c);
      HeirsAdvance(c);
      DeclaredAsBefore(c);
      OwnerIsActive(d);
      SuccessionOrder(d);
      ReignsOn(c);
      NextReigns(c, d);
    }
  }

  lemma OwnerIsActive(c: Conv)
    ensures ActiveAt(c.rows) == {} ==> OwnerOf(c.rows).None?
  {
    assert OwnerOf(c.rows).Some? ==> OwnerAt(c.rows) in ActiveAt(c.rows);
  }

  /** After as many departures of owners as the group had participants, nobody is left exactly when all roles
      were declared; and then not before. */
  lemma DeletedExactly(c: Conv)
    requires Led(c)
    ensures AfterReigns(c, |ActiveAt(c.rows)|).count == 0 <==> AllDeclared(c.rows)
    ensures AllDeclared(c.rows) ==> Undisturbed(c, |ActiveAt(c.rows)|)
    ensures AllDeclared(c.rows) ==> AfterReigns(c, |ActiveAt(c.rows)|).deletedAt.Some?
  {
    SuccessionOrder(c);
  }
}
