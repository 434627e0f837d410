/** One message row under concurrent edits and deletions. A call first checks the row without a lock; an edit
    then re-reads it under a row lock and commits, a deletion writes its mark unconditionally. */
module EditHistory {
  import opened Base

  type User = nat

  const EDIT_TIME_LIMIT_SECONDS: nat := 900
  const MAX_EDIT_COUNT: nat := 10

  datatype Entry = Entry(number: nat, content: string)

  datatype Row = Row(sender: Option<User>, system: bool, createdAt: nat, content: string, original: string,
                     editCount: nat, editedAt: Option<nat>, history: seq<Entry>, deletedAt: Option<nat>)

  datatype Code =
    | Success | EmptyContent | SystemMessage | MessageDeleted | NotAuthor | EditTimeExpired | MaxEditsReached
    | AlreadyDeleted | Refused

  /** The unlocked checks of `edit_message`. */
  function CheckEdit(r: Row, user: User, newContent: string, now: nat): Code {
    if Strip(newContent) == "" then EmptyContent
    else if r.system then SystemMessage
    else if r.deletedAt.Some? then MessageDeleted
    else if r.sender != Some(user) then NotAuthor
    else if now - r.createdAt > EDIT_TIME_LIMIT_SECONDS then EditTimeExpired
    else Success
  }

  /** The checks repeated under the row lock. */
  function CommitCode(r: Row): Code {
    if r.deletedAt.Some? then MessageDeleted
    else if r.editCount >= MAX_EDIT_COUNT then MaxEditsReached
    else Success
  }

  /** The writes under the row lock. */
  function CommitEdit(r: Row, text: string, now: nat): Row {
    if !CommitCode(r).Success? then r
    else r.(original := if r.editCount == 0 then r.content else r.original,
            history := r.history + [Entry(r.editCount + 1, r.content)],
            content := text, editCount := r.editCount + 1, editedAt := Some(now))
  }

  /** The unlocked checks of `delete_message`; `permitted` is the outcome of its participant and role checks. */
  function CheckDelete(r: Row, permitted: bool): Code {
    if r.system then SystemMessage
    else if r.deletedAt.Some? then AlreadyDeleted
    else if !permitted then Refused
    else Success
  }

  function CommitDelete(r: Row, now: nat): Row {
    r.(deletedAt := Some(now))
  }

  // ---------------------------------------------------------------------------------- the service

  class MessageRow {
    const sender: Option<User>
    const system: bool
    const createdAt: nat
    var content: string
    var original: string
    var editCount: nat
    var editedAt: Option<nat>
    var history: seq<Entry>
    var deletedAt: Option<nat>
    ghost var versions: seq<string>

    function State(): Row
      reads this
    {
      Row(sender, system, createdAt, content, original, editCount, editedAt, history, deletedAt)
    }

    /** The history and the content are all versions in order, numbered from 1, the original being the first. */
    ghost predicate Valid()
      reads this
    {
      Contents(history) + [content] == versions && Numbered(State(), versions[0])
    }

    constructor (sender: Option<User>, system: bool, content: string, now: nat)
      ensures State() == Row(sender, system, now, content, "", 0, None, [], None)
      ensures Valid() && versions == [content]
    {
      this.sender, this.system, this.createdAt, this.content := sender, system, now, content;
      original, editCount, editedAt, history, deletedAt, versions := "", 0, None, [], None, [content];
    }

    /** The writes of a commit. */
    method WriteVersion(text: string, now: nat)
      requires CommitCode(State()).Success?
      modifies this`original, this`history, this`content, this`editCount, this`editedAt
      ensures State() == CommitEdit(old(State()), text, now)
    {
      if editCount == 0 {
        original := content;
      }
      history := history + [Entry(editCount + 1, content)];
      content := text;
      editCount := editCount + 1;
      editedAt := Some(now);
    }

    method CommitLocked(text: string, now: nat) returns (code: Code)
      requires Valid()
      modifies this
      ensures Valid()
      ensures code == CommitCode(old(State())) && State() == CommitEdit(old(State()), text, now)
      ensures versions == if code.Success? then old(versions) + [text] else old(versions)
      ensures code.Success? <==> old(deletedAt).None? && old(editCount) < MAX_EDIT_COUNT
      ensures code.Success? ==>
                && content == text && editCount == old(editCount) + 1 && editedAt == Some(now) && deletedAt.None?
                && history == old(history) + [Entry(editCount, old(content))]
      ensures !code.Success? ==> State() == old(State())
    {
      CommitAppended(State(), text, now);
      if deletedAt.Some? { return MessageDeleted; }
      if editCount >= MAX_EDIT_COUNT { return MaxEditsReached; }
      WriteVersion(text, now);
      versions := versions + [text];
      return Success;
    }

    /** An edit nobody interferes with; the clock may advance between the check and the commit. */
    method EditMessage(user: User, newContent: string, checkedAt: nat, now: nat) returns (code: Code)
      requires Valid()
      modifies this
      ensures Valid()
      ensures versions == if code.Success? then old(versions) + [Strip(newContent)] else old(versions)
      ensures var checked := CheckEdit(old(State()), user, newContent, checkedAt);
              if checked.Success? then code == CommitCode(old(State()))
                  && State() == CommitEdit(old(State()), Strip(newContent), now)
              else code == checked && State() == old(State())
      ensures code.Success? <==> && !Blank(newContent) && !system && old(deletedAt).None? && sender == Some(user)
                                 && checkedAt <= createdAt + EDIT_TIME_LIMIT_SECONDS && old(editCount) < MAX_EDIT_COUNT
      ensures code.Success? ==> content == Strip(newContent) && editedAt == Some(now) && editCount == old(editCount) + 1
    {
      StripMeaning(newContent);
      var text := Strip(newContent);
      if text == "" { return EmptyContent; }
      if system { return SystemMessage; }
      if deletedAt.Some? { return MessageDeleted; }
      if sender != Some(user) { return NotAuthor; }
      if checkedAt - createdAt > EDIT_TIME_LIMIT_SECONDS { return EditTimeExpired; }
      code := CommitLocked(text, now);
    }
  }

  // ---------------------------------------------------------------------------------- interleavings

  /** A call between its check and its commit. */
  datatype Ticket = EditTicket(user: User, text: string, checkedAt: nat) | DeleteTicket

  /** `edits` records, for the statements below only, the tickets whose commit went through. */
  datatype World = World(row: Row, open: map<nat, Ticket>, edits: seq<Ticket>, first: string, now: nat)

  datatype Action =
    | BeginEdit(call: nat, user: User, newContent: string)
    | FinishEdit(call: nat)
    | BeginDelete(call: nat, permitted: bool)
    | FinishDelete(call: nat)
    | Tick(seconds: nat)

  function Step(w: World, a: Action): World {
    match a
    case BeginEdit(call, user, content) =>
      if call !in w.open && CheckEdit(w.row, user, content, w.now).Success?
      then w.(open := w.open[call := EditTicket(user, Strip(content), w.now)])
      else w
    case FinishEdit(call) =>
      if call in w.open && w.open[call].EditTicket? then
        var t := w.open[call];
        w.(row := CommitEdit(w.row, t.text, w.now), open := w.open - {call},
           edits := if CommitCode(w.row).Success? then w.edits + [t] else w.edits)
      else w
    case BeginDelete(call, permitted) =>
      if call !in w.open && CheckDelete(w.row, permitted).Success? then w.(open := w.open[call := DeleteTicket]) else w
    case FinishDelete(call) =>
      if call in w.open && w.open[call].DeleteTicket? then
          w.(row := CommitDelete(w.row, w.now), open := w.open - {call}) else w
    case Tick(seconds) => w.(now := w.now + seconds)
  }

  function Run(w: World, actions: seq<Action>): World {
    if actions == [] then w else Step(Run(w, actions[..|actions| - 1]), actions[|actions| - 1])
  }

  function Sent(sender: User, content: string, now: nat): World {
    World(Row(Some(sender), false, now, content, "", 0, None, [], None), map[], [], content, now)
  }

  /** Every content the message ever had, in order. */
  function Versions(w: World): seq<string> {
    [w.first] + Texts(w.edits)
  }

  function Texts(edits: seq<Ticket>): (r: seq<string>)
    ensures |r| == |edits|
  {
    if edits == [] then []
    else
      var last := edits[|edits| - 1];
      Texts(edits[..|edits| - 1]) + [if last.EditTicket? then last.text else ""]
  }

  function Contents(history: seq<Entry>): (r: seq<string>)
    ensures |r| == |history|
  {
    if history == [] then [] else Contents(history[..|history| - 1]) + [history[|history| - 1].content]
  }

  /** The author asked for it, in time, and the text is not blank. */
  ghost predicate Granted(r: Row, t: Ticket) {
    t.EditTicket? ==> r.sender == Some(t.user) && t.checkedAt <= r.createdAt + EDIT_TIME_LIMIT_SECONDS && t.text != ""
  }

  ghost predicate Numbered(r: Row, first: string) {
    && r.editCount == |r.history| <= MAX_EDIT_COUNT
    && (forall k :: 0 <= k < |r.history| ==> r.history[k].number == k + 1)
    && r.original == (if r.editCount == 0 then "" else first)
    && (r.editedAt.Some? <==> r.editCount > 0)
  }

  ghost predicate AllGranted(r: Row, edits: seq<Ticket>) {
    forall k :: 0 <= k < |edits| ==> edits[k].EditTicket? && Granted(r, edits[k])
  }

  ghost predicate Inv(w: World) {
    && Numbered(w.row, w.first) && |w.row.history| == |w.edits|
    && Contents(w.row.history) + [w.row.content] == Versions(w)
    && AllGranted(w.row, w.edits)
    && (forall call :: call in w.open ==> Granted(w.row, w.open[call]))
  }

  /** A commit appends the content it replaces to the history and its own text to the versions. */
  lemma CommitAppends(r: Row, text: string, now: nat)
    requires CommitCode(r).Success?
    ensures Contents(CommitEdit(r, text, now).history) == Contents(r.history) + [r.content]
  {
    assert CommitEdit(r, text, now).history[..|r.history|] == r.history;
  }

  lemma CommitAppended(r: Row, text: string, now: nat)
    requires Numbered(r, (Contents(r.history) + [r.content])[0])
    ensures var d, versions := CommitEdit(r, text, now), Contents(r.history) + [r.content];
            && Numbered(d, versions[0])
            && Contents(d.history) + [d.content] == if CommitCode(r).Success? then versions + [text] else versions
  {
    if CommitCode(r).Success? {
      CommitAppends(r, text, now);
      CommitNumbers(r, (Contents(r.history) + [r.content])[0], text, now);
    }
  }

  lemma VersionsAppend(w: World, d: World, t: Ticket)
    requires t.EditTicket? && d.edits == w.edits + [t] && d.first == w.first
    ensures Versions(d) == Versions(w) + [t.text]
  {
    assert d.edits[..|w.edits|] == w.edits;
  }

  lemma FirstVersion(w: World)
    requires Contents(w.row.history) + [w.row.content] == Versions(w) && w.row.history == []
    ensures w.row.content == w.first
  {
    assert (Contents(w.row.history) + [w.row.content])[0] == w.row.content;
  }

  lemma CommitNumbers(r: Row, first: string, text: string, now: nat)
    requires Numbered(r, first) && CommitCode(r).Success? && (r.editCount == 0 ==> r.content == first)
    ensures Numbered(CommitEdit(r, text, now), first)
  {
  }

  lemma CommitGrants(r: Row, d: Row, edits: seq<Ticket>, t: Ticket)
    requires AllGranted(r, edits) && t.EditTicket? && Granted(r, t) && d.sender == r.sender
          && d.createdAt == r.createdAt
    ensures AllGranted(d, edits + [t])
  {
  }

  lemma CommitKeeps(w: World, call: nat)
    requires Inv(w) && call in w.open && w.open[call].EditTicket? && CommitCode(w.row).Success?
    ensures Inv(Step(w, FinishEdit(call)))
  {
    var t := w.open[call];
    var d := Step(w, FinishEdit(call));
    CommitAppends(w.row, t.text, w.now);
    VersionsAppend(w, d, t);
    if w.row.editCount == 0 {
      FirstVersion(w);
    }
    CommitNumbers(w.row, w.first, t.text, w.now);
    CommitGrants(w.row, d.row, w.edits, t);
    assert forall c :: c in d.open ==> Granted(d.row, d.open[c]) by {
      forall c | c in d.open ensures Granted(d.row, d.open[c]) { assert d.open[c] == w.open[c]; }
    }
  }

  lemma OpenKeeps(w: World, call: nat, t: Ticket)
    requires Inv(w) && Granted(w.row, t)
    ensures Inv(w.(open := w.open[call := t]))
  {
    assert Versions(w.(open := w.open[call := t])) == Versions(w);
  }

  lemma StepKeeps(w: World, a: Action)
    requires Inv(w)
    ensures Inv(Step(w, a))
  {
    match a
    case BeginEdit(call, user, content) =>
      if CheckEdit(w.row, user, content, w.now).Success? {
        OpenKeeps(w, call, EditTicket(user, Strip(content), w.now));
      }
    case FinishEdit(call) =>
      if call in w.open && w.open[call].EditTicket? && CommitCode(w.row).Success? { CommitKeeps(w, call); }
    case _ => assert Versions(Step(w, a)) == Versions(w);
  }

  /** For any interleaving of checks, locked commits and deletions: history numbers are 1..edit_count, history
      contents followed by the current content are all versions in order, the original is the first version
      once edited, at most ten edits went through, and each was asked for by the author within the window. */
  lemma {:induction false} HistoryIsComplete(sender: User, content: string, now: nat, actions: seq<Action>)
    ensures Inv(Run(Sent(sender, content, now), actions))
    ensures var w := Run(Sent(sender, content, now), actions); w.first == content && w.row.sender == Some(sender)
  {
    if actions == [] {
    } else {
      HistoryIsComplete(sender, content, now, actions[..|actions| - 1]);
      StepKeeps(Run(Sent(sender, content, now), actions[..|actions| - 1]), actions[|actions| - 1]);
    }
  }

  /** Once deleted, no commit, not even of an edit whose check came first, changes the text or its history. */
  lemma {:induction false} FrozenAfterDeletion(w: World, actions: seq<Action>)
    requires w.row.deletedAt.Some?
    ensures var d := Run(w, actions);
            d.row.deletedAt.Some? && d.row.(deletedAt := w.row.deletedAt) == w.row && d.edits == w.edits
  {
    if actions != [] {
      FrozenAfterDeletion(w, actions[..|actions| - 1]);
    }
  }

  /** What opens a call, and what a deletion does: the check passes exactly for the author in time, or with permission,
      on a message that is a text and not deleted; the deletion then marks the row and changes nothing else. */
  lemma ChecksAndMarks(w: World, call: nat, user: User, content: string, permitted: bool)
    requires call !in w.open
    ensures var d := Step(w, BeginEdit(call, user, content));
            d.row == w.row &&
            (d.open == w.open[call := EditTicket(user, Strip(content), w.now)] <==>
               && !Blank(content) && !w.row.system && w.row.deletedAt.None? && w.row.sender == Some(user)
               && w.now <= w.row.createdAt + EDIT_TIME_LIMIT_SECONDS)
    ensures var d := Step(w, BeginDelete(call, permitted));
            && d.row == w.row
            && (d.open == w.open[call := DeleteTicket] <==> permitted && !w.row.system && w.row.deletedAt.None?)
    ensures var d := Step(w.(open := w.open[call := DeleteTicket]), FinishDelete(call));
            d.row == w.row.(deletedAt := Some(w.now)) && call !in d.open
  {
    StripMeaning(content);
    assert call in w.open[call := DeleteTicket] && call in w.open[call := EditTicket(user, Strip(content), w.now)];
  }

  /** A deleted message stays deleted and a refused commit leaves the row alone, so the outcome of a commit is
      told by the row: it grew the history by one or did nothing. */
  lemma CommitOutcome(w: World, call: nat)
    requires Inv(w) && call in w.open && w.open[call].EditTicket?
    ensures var d := Step(w, FinishEdit(call));
            if w.row.deletedAt.None? && |w.edits| < MAX_EDIT_COUNT
            then Versions(d) == Versions(w) + [w.open[call].text] && d.row.content == w.open[call].text
            else d.row == w.row && Versions(d) == Versions(w)
  {
    if CommitCode(w.row).Success? {
      assert Step(w, FinishEdit(call)).edits[..|w.edits|] == w.edits;
    }
  }
}
