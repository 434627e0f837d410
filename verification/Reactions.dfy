/** Reactions to one message: the rows, and the per-emoji counts cached on the message. */
module Reactions {
  import opened Base

  type User = nat
  type Emoji = string

  const MAX_USER_REACTIONS_PER_MESSAGE: nat := 5
  const MAX_EMOJI_LENGTH: nat := 8

  /** The reaction table of one message: the unique key (user, emoji) and the row's primary key. */
  type Rows = map<(User, Emoji), nat>

  datatype Board = Board(rows: Rows, nextKey: nat, counts: map<Emoji, nat>, deleted: bool, participants: set<User>)

  datatype Code =
    | Success | InvalidEmoji | MessageDeleted | NotParticipant | MaxReactionsExceeded | ReactionNotFound
        | UniqueViolation

  function OfEmoji(rows: Rows, e: Emoji): set<(User, Emoji)> {
    set k | k in rows && k.1 == e
  }

  function OfUser(rows: Rows, u: User): set<(User, Emoji)> {
    set k | k in rows && k.0 == u
  }

  /** What `get_message_reactions` reports: emoji -> number of rows. */
  function Tally(rows: Rows): map<Emoji, nat> {
    map e | e in (set k | k in rows :: k.1) :: |OfEmoji(rows, e)|
  }

  predicate ValidEmoji(e: Emoji) {
    var s := Strip(e);
    s != "" && |s| <= MAX_EMOJI_LENGTH
  }

  /** An emoji is acceptable when it is not blank and, without the white space around it, not too long. */
  predicate Acceptable(e: Emoji) {
    !Blank(e) && |Strip(e)| <= MAX_EMOJI_LENGTH
  }

  function Cached(counts: map<Emoji, nat>, e: Emoji): nat {
    if e in counts then counts[e] else 0
  }

  /** `_update_reaction_count`: clamped at zero, with the key dropped at zero. */
  function Bump(counts: map<Emoji, nat>, e: Emoji, delta: int): map<Emoji, nat> {
    var n := Cached(counts, e) + delta;
    if n <= 0 then counts - {e} else counts[e := n]
  }

  // ---------------------------------------------------------------------------------- row changes

  function InsertRow(b: Board, u: User, e: Emoji): Board {
    b.(rows := b.rows[(u, e) := b.nextKey], nextKey := b.nextKey + 1, counts := Bump(b.counts, e, 1))
  }

  /** Deletes the row with this primary key, if it is still there, and lowers the count in any case. */
  function DeleteRow(b: Board, u: User, e: Emoji, key: nat): Board {
    b.(rows := if (u, e) in b.rows && b.rows[(u, e)] == key then b.rows - {(u, e)} else b.rows,
       counts := Bump(b.counts, e, -1))
  }

  // ---------------------------------------------------------------------------------- serial calls

  datatype Result = Result(board: Board, code: Code)

  function Add(b: Board, u: User, e: Emoji): Result {
    if !ValidEmoji(e) then Result(b, InvalidEmoji)
    else if b.deleted then Result(b, MessageDeleted)
    else if u !in b.participants then Result(b, NotParticipant)
    else if |OfUser(b.rows, u)| >= MAX_USER_REACTIONS_PER_MESSAGE then Result(b, MaxReactionsExceeded)
    else if (u, e) in b.rows then Result(b, Success)
    else Result(InsertRow(b, u, e), Success)
  }

  function Remove(b: Board, u: User, e: Emoji): Result {
    if u !in b.participants then Result(b, NotParticipant)
    else if (u, e) !in b.rows then Result(b, ReactionNotFound)
    else Result(DeleteRow(b, u, e, b.rows[(u, e)]), Success)
  }

  function Toggle(b: Board, u: User, e: Emoji): Result {
    if !ValidEmoji(e) then Result(b, InvalidEmoji) else ToggleValid(b, u, e)
  }

  function ToggleValid(b: Board, u: User, e: Emoji): Result {
    if b.deleted then Result(b, MessageDeleted)
    else if u !in b.participants then Result(b, NotParticipant)
    else if (u, e) in b.rows then Result(DeleteRow(b, u, e, b.rows[(u, e)]), Success)
    else if |OfUser(b.rows, u)| >= MAX_USER_REACTIONS_PER_MESSAGE then Result(b, MaxReactionsExceeded)
    else Result(InsertRow(b, u, e), Success)
  }

  // ---------------------------------------------------------------------------------- the service

  class Message {
    var rows: Rows
    var nextKey: nat
    var counts: map<Emoji, nat>
    var deleted: bool
    var participants: set<User>

    function State(): Board
      reads this
    {
      Board(rows, nextKey, counts, deleted, participants)
    }

    /** The cache is exact and nobody is over the limit. */
    ghost predicate Valid()
      reads this
    {
      SerialInv(State())
    }

    method UpdateReactionCount(e: Emoji, delta: int)
      modifies this`counts
      ensures counts == Bump(old(counts), e, delta)
      ensures forall f :: f != e ==> Cached(counts, f) == Cached(old(counts), f)
      ensures e in counts ==> counts[e] > 0
    {
      var currentCount := if e in counts then counts[e] else 0;
      var newCount := if currentCount + delta < 0 then 0 else currentCount + delta;
      if newCount == 0 {
        counts := counts - {e};
      } else {
        counts := counts[e := newCount];
      }
    }

    method CreateReaction(u: User, e: Emoji)
      modifies this`rows, this`nextKey, this`counts
      ensures State() == InsertRow(old(State()), u, e)
    {
      rows := rows[(u, e) := nextKey];
      nextKey := nextKey + 1;
      UpdateReactionCount(e, 1);
    }

    method DeleteReaction(u: User, e: Emoji, key: nat)
      modifies this`rows, this`counts
      ensures State() == DeleteRow(old(State()), u, e, key)
    {
      if (u, e) in rows && rows[(u, e)] == key {
        rows := rows - {(u, e)};
      }
      UpdateReactionCount(e, -1);
    }

    method AddReaction(u: User, e: Emoji) returns (code: Code)
      requires Valid()
      modifies this
      ensures Valid()
      ensures Result(State(), code) == Add(old(State()), u, e)
      ensures rows.Keys == if code.Success? then old(rows).Keys + {(u, e)} else old(rows).Keys
      ensures code.Success? <==> Acceptable(e) && !deleted && u in participants
                                 && |OfUser(old(rows), u)| < MAX_USER_REACTIONS_PER_MESSAGE
      ensures deleted == old(deleted) && participants == old(participants)
      ensures forall k :: k in old(rows) ==> k in rows && rows[k] == old(rows)[k]
    {
      CallKeeps(State(), CallAdd(u, e));
      StripMeaning(e);
      if !ValidEmoji(e) { return InvalidEmoji; }
      if deleted { return MessageDeleted; }
      if u !in participants { return NotParticipant; }
      var userReactionCount := |OfUser(rows, u)|;
      if userReactionCount >= MAX_USER_REACTIONS_PER_MESSAGE { return MaxReactionsExceeded; }
      if (u, e) in rows { return Success; }
      CreateReaction(u, e);
      return Success;
    }

    method RemoveReaction(u: User, e: Emoji) returns (code: Code)
      requires Valid()
      modifies this
      ensures Valid()
      ensures Result(State(), code) == Remove(old(State()), u, e)
      ensures rows.Keys == if code.Success? then old(rows).Keys - {(u, e)} else old(rows).Keys
      ensures code.Success? <==> u in participants && (u, e) in old(rows)
      ensures deleted == old(deleted) && participants == old(participants)
    {
      CallKeeps(State(), CallRemove(u, e));
      if u !in participants { return NotParticipant; }
      if (u, e) !in rows { return ReactionNotFound; }
      DeleteReaction(u, e, rows[(u, e)]);
      return Success;
    }

    method ToggleReaction(u: User, e: Emoji) returns (code: Code)
      requires Valid()
      modifies this
      ensures Valid()
      ensures Result(State(), code) == Toggle(old(State()), u, e)
      ensures code.Success? ==> ((u, e) in rows <==> (u, e) !in old(rows))
      ensures code.Success? <==> Acceptable(e) && !deleted && u in participants
                                 && ((u, e) in old(rows) || |OfUser(old(rows), u)| < MAX_USER_REACTIONS_PER_MESSAGE)
      ensures !code.Success? ==> rows == old(rows)
      ensures deleted == old(deleted) && participants == old(participants)
      ensures rows.Keys - {(u, e)} == old(rows).Keys - {(u, e)}
    {
      CallKeeps(State(), CallToggle(u, e));
      StripMeaning(e);
      if !ValidEmoji(e) { return InvalidEmoji; }
      if deleted { return MessageDeleted; }
      if u !in participants { return NotParticipant; }
      if (u, e) in rows {
        DeleteReaction(u, e, rows[(u, e)]);
        return Success;
      }
      var userReactionCount := |OfUser(rows, u)|;
      if userReactionCount >= MAX_USER_REACTIONS_PER_MESSAGE { return MaxReactionsExceeded; }
      CreateReaction(u, e);
      return Success;
    }
  }

  /** The grouping loop of `get_message_reactions`, over the rows in any order. */
  method GetMessageReactions(rows: Rows) returns (result: map<Emoji, nat>)
    ensures result == Tally(rows)
  {
    result := map[];
    var todo := rows.Keys;
    ghost var done: Rows := map[];
    while todo != {}
      invariant todo <= rows.Keys && done == rows - todo
      invariant result == Tally(done)
      decreases todo
    {
      var k :| k in todo;
      GrowTally(done, k, rows[k]);
      if k.1 !in result {
        result := result[k.1 := 0];
      }
      result := result[k.1 := result[k.1] + 1];
      done := done[k := rows[k]];
      todo := todo - {k};
    }
    assert done == rows;
  }

  lemma GrowTally(rows: Rows, k: (User, Emoji), key: nat)
    requires k !in rows
    ensures Tally(rows[k := key]) == Tally(rows)[k.1 := Cached(Tally(rows), k.1) + 1]
  {
    var grown := rows[k := key];
    EmojiGrows(rows, k, key, k.1);
    NoRows(rows, k.1);
    forall e | e in Tally(grown) && e != k.1 ensures e in Tally(rows) && Tally(grown)[e] == Tally(rows)[e] {
      EmojiGrows(rows, k, key, e);
    }
    assert Tally(grown).Keys == Tally(rows).Keys + {k.1};
  }

  lemma EmojiGrows(rows: Rows, k: (User, Emoji), key: nat, e: Emoji)
    requires k !in rows
    ensures |OfEmoji(rows[k := key], e)| == |OfEmoji(rows, e)| + (if e == k.1 then 1 else 0)
  {
    assert OfEmoji(rows[k := key], e) == OfEmoji(rows, e) + (if e == k.1 then {k} else {});
  }

  lemma NoRows(rows: Rows, e: Emoji)
    ensures Cached(Tally(rows), e) == |OfEmoji(rows, e)|
  {
    if e !in Tally(rows) {
      assert OfEmoji(rows, e) == {};
    }
  }

  // ---------------------------------------------------------------------------------- serial runs

  ghost predicate Exact(b: Board) {
    b.counts == Tally(b.rows)
  }

  ghost predicate SerialInv(b: Board) {
    && Exact(b)
    && (forall u :: |OfUser(b.rows, u)| <= MAX_USER_REACTIONS_PER_MESSAGE)
  }

  lemma ExactInsert(b: Board, u: User, e: Emoji)
    requires Exact(b) && (u, e) !in b.rows
    ensures Exact(InsertRow(b, u, e))
  {
    GrowTally(b.rows, (u, e), b.nextKey);
  }

  /** Deleting a row that is there keeps the cache exact, and the clamp is not needed for it. */
  lemma ExactDelete(b: Board, u: User, e: Emoji)
    requires Exact(b) && (u, e) in b.rows
    ensures Exact(DeleteRow(b, u, e, b.rows[(u, e)]))
    ensures Cached(b.counts, e) - 1 >= 0
  {
    var fewer := b.rows - {(u, e)};
    assert fewer[(u, e) := b.rows[(u, e)]] == b.rows;
    GrowTally(fewer, (u, e), b.rows[(u, e)]);
    NoRows(fewer, e);
    assert e !in Tally(fewer) <==> OfEmoji(fewer, e) == {} by {
      assert e in Tally(fewer) ==> exists k :: k in fewer && k.1 == e;
    }
    assert Bump(b.counts, e, -1) == Tally(fewer);
  }

  lemma LimitInsert(b: Board, u: User, e: Emoji, v: User)
    requires (u, e) !in b.rows
    ensures |OfUser(InsertRow(b, u, e).rows, v)| == |OfUser(b.rows, v)| + (if v == u then 1 else 0)
  {
    assert OfUser(InsertRow(b, u, e).rows, v) == OfUser(b.rows, v) + (if v == u then {(u, e)} else {});
  }

  lemma LimitDelete(b: Board, u: User, e: Emoji, v: User)
    requires (u, e) in b.rows
    ensures |OfUser(DeleteRow(b, u, e, b.rows[(u, e)]).rows, v)| == |OfUser(b.rows, v)| - (if v == u then 1 else 0)
  {
    assert OfUser(DeleteRow(b, u, e, b.rows[(u, e)]).rows, v) == OfUser(b.rows, v) - (if v == u then {(u, e)} else {});
  }

  /** What else happens around the message: it is deleted, and participants come and go. */
  datatype Change = MessageGone | Joins(user: User) | Leaves(user: User)

  function Around(b: Board, change: Change): Board {
    match change
    case MessageGone => b.(deleted := true)
    case Joins(u) => b.(participants := b.participants + {u})
    case Leaves(u) => b.(participants := b.participants - {u})
  }

  datatype Call =
    | CallAdd(user: User, emoji: Emoji)
    | CallRemove(user: User, emoji: Emoji)
    | CallToggle(user: User, emoji: Emoji)
    | CallAround(change: Change)

  function Perform(b: Board, c: Call): Result {
    match c
    case CallAdd(u, e) => Add(b, u, e)
    case CallRemove(u, e) => Remove(b, u, e)
    case CallToggle(u, e) => Toggle(b, u, e)
    case CallAround(change) => Result(Around(b, change), Success)
  }

  function RunSerial(b: Board, calls: seq<Call>): Board {
    if calls == [] then b else Perform(RunSerial(b, calls[..|calls| - 1]), calls[|calls| - 1]).board
  }

  /** What each call does to the reactions: exactly the one named is added, removed or flipped, by an active
      participant, within the limit; and the world around moves as told. */
  lemma CallsExactly(b: Board, c: Call)
    ensures var d := Perform(b, c).board;
            match c
            case CallAdd(u, e) =>
              d.rows.Keys == b.rows.Keys +
                (if Acceptable(e) && !b.deleted && u in b.participants
                    && |OfUser(b.rows, u)| < MAX_USER_REACTIONS_PER_MESSAGE
                 then {(u, e)} else {})
            case CallRemove(u, e) => d.rows.Keys == b.rows.Keys - (if u in b.participants then {(u, e)} else {})
            case CallToggle(u, e) =>
              var may := Acceptable(e) && !b.deleted && u in b.participants;
              d.rows.Keys ==
                if may && (u, e) in b.rows then b.rows.Keys - {(u, e)}
                else if may && |OfUser(b.rows, u)| < MAX_USER_REACTIONS_PER_MESSAGE then b.rows.Keys + {(u, e)}
                else b.rows.Keys
            case CallAround(change) =>
              && d.rows == b.rows && d.counts == b.counts && d.deleted == (b.deleted || change.MessageGone?)
              && d.participants == if change.Joins? then b.participants + {change.user}
                                   else if change.Leaves? then b.participants - {change.user} else b.participants
  {
    if !c.CallAround? { StripMeaning(c.emoji); }
  }

  lemma CallKeeps(b: Board, c: Call)
    requires SerialInv(b)
    ensures SerialInv(Perform(b, c).board)
  {
    var d := Perform(b, c).board;
    if d.rows != b.rows {
      var u, e := c.user, c.emoji;
      if (u, e) in b.rows {
        DeleteKeeps(b, u, e);
      } else {
        InsertKeeps(b, u, e);
      }
    }
  }

  lemma DeleteKeeps(b: Board, u: User, e: Emoji)
    requires SerialInv(b) && (u, e) in b.rows
    ensures SerialInv(DeleteRow(b, u, e, b.rows[(u, e)]))
  {
    ExactDelete(b, u, e);
    forall v ensures |OfUser(DeleteRow(b, u, e, b.rows[(u, e)]).rows, v)| <= MAX_USER_REACTIONS_PER_MESSAGE {
      LimitDelete(b, u, e, v);
    }
  }

  lemma InsertKeeps(b: Board, u: User, e: Emoji)
    requires SerialInv(b) && (u, e) !in b.rows && |OfUser(b.rows, u)| < MAX_USER_REACTIONS_PER_MESSAGE
    ensures SerialInv(InsertRow(b, u, e))
  {
    ExactInsert(b, u, e);
    forall v ensures |OfUser(InsertRow(b, u, e).rows, v)| <= MAX_USER_REACTIONS_PER_MESSAGE {
      LimitInsert(b, u, e, v);
    }
  }

  /** In serial runs the cached map is exactly the reported one, without zero entries, nobody holds more than
      five reactions, and (by `ExactDelete`) the clamp at zero never acts. */
  lemma {:induction false} SerialCacheExact(b: Board, calls: seq<Call>)
    requires SerialInv(b)
    ensures SerialInv(RunSerial(b, calls))
    ensures forall e :: e in RunSerial(b, calls).counts ==> RunSerial(b, calls).counts[e] > 0
  {
    if calls != [] {
      SerialCacheExact(b, calls[..|calls| - 1]);
      CallKeeps(RunSerial(b, calls[..|calls| - 1]), calls[|calls| - 1]);
    }
    var d := RunSerial(b, calls);
    forall e | e in d.counts ensures d.counts[e] > 0 {
      var k :| k in d.rows && k.1 == e;
      assert k in OfEmoji(d.rows, e);
    }
  }

  /** Adding twice is not always idempotent: the limit is tested before the existing row is looked up, so the
      repeat succeeds, changing nothing, exactly when the user is still below the limit. */
  lemma AddAgain(b: Board, u: User, e: Emoji)
    requires Add(b, u, e).code.Success?
    ensures var once := Add(b, u, e).board;
            && Add(once, u, e).board == once
            && (Add(once, u, e).code.Success? <==> |OfUser(once.rows, u)| < MAX_USER_REACTIONS_PER_MESSAGE)
  {
    var valid := ValidEmoji(e);
    assert valid;
    var once := Add(b, u, e).board;
    assert (u, e) in once.rows && once.deleted == b.deleted && once.participants == b.participants;
  }

  /** Toggling twice undoes itself: same reactions, same cached counts. */
  lemma ToggleUndoes(b: Board, u: User, e: Emoji)
    requires SerialInv(b) && Toggle(b, u, e).code.Success?
    ensures var back := Toggle(Toggle(b, u, e).board, u, e);
            back.code.Success? && back.board.rows.Keys == b.rows.Keys && back.board.counts == b.counts
  {
    ToggleValidUndoes(b, u, e);
  }

  lemma ToggleValidUndoes(b: Board, u: User, e: Emoji)
    requires SerialInv(b) && ToggleValid(b, u, e).code.Success?
    ensures var back := ToggleValid(ToggleValid(b, u, e).board, u, e);
            back.code.Success? && back.board.rows.Keys == b.rows.Keys && back.board.counts == b.counts
  {
    var once := ToggleValid(b, u, e).board;
    if (u, e) in b.rows {
      ExactDelete(b, u, e);
      LimitDelete(b, u, e, u);
      ExactInsert(once, u, e);
      SameKeysSameTally(InsertRow(once, u, e).rows, b.rows);
    } else {
      ExactInsert(b, u, e);
      ExactDelete(once, u, e);
      SameKeysSameTally(DeleteRow(once, u, e, once.rows[(u, e)]).rows, b.rows);
    }
  }

  lemma SameKeysSameTally(a: Rows, b: Rows)
    requires a.Keys == b.Keys
    ensures Tally(a) == Tally(b)
  {
    assert forall e :: OfEmoji(a, e) == OfEmoji(b, e);
  }

  // ---------------------------------------------------------------------------------- interleaved calls

  /** A call that has looked the reaction up and not yet committed. */
  datatype Ticket = AddTicket(user: User, emoji: Emoji) | RemoveTicket(user: User, emoji: Emoji, key: nat)

  datatype World = World(board: Board, open: map<nat, Ticket>)

  datatype Action =
    | LookupToAdd(call: nat, user: User, emoji: Emoji)
    | LookupToRemove(call: nat, user: User, emoji: Emoji)
    | Commit(call: nat)
    | Meanwhile(change: Change)

  /** A commit that would repeat (user, emoji) violates the unique constraint and is rolled back. */
  function CommitTicket(b: Board, t: Ticket): Board {
    match t
    case AddTicket(u, e) => if (u, e) in b.rows then b else InsertRow(b, u, e)
    case RemoveTicket(u, e, key) => DeleteRow(b, u, e, key)
  }

  function Step(w: World, a: Action): World {
    match a
    case LookupToAdd(call, u, e) =>
      if call !in w.open && Add(w.board, u, e).code.Success? && (u, e) !in w.board.rows
      then w.(open := w.open[call := AddTicket(u, e)]) else w
    case LookupToRemove(call, u, e) =>
      if call !in w.open && Remove(w.board, u, e).code.Success?
      then w.(open := w.open[call := RemoveTicket(u, e, w.board.rows[(u, e)])]) else w
    case Commit(call) =>
      if call in w.open then World(CommitTicket(w.board, w.open[call]), w.open - {call}) else w
    case Meanwhile(change) => w.(board := Around(w.board, change))
  }

  function Run(w: World, actions: seq<Action>): World {
    if actions == [] then w else Step(Run(w, actions[..|actions| - 1]), actions[|actions| - 1])
  }

  /** The cache never claims more reactions than there are. */
  ghost predicate NeverOver(b: Board) {
    && (forall e :: Cached(b.counts, e) <= |OfEmoji(b.rows, e)|)
    && (forall e :: e in b.counts ==> b.counts[e] > 0)
  }

  lemma CommitNeverOver(b: Board, t: Ticket)
    requires NeverOver(b)
    ensures NeverOver(CommitTicket(b, t))
  {
    var d := CommitTicket(b, t);
    forall e ensures Cached(d.counts, e) <= |OfEmoji(d.rows, e)| {
      assert Cached(b.counts, e) <= |OfEmoji(b.rows, e)|;
      match t {
        case AddTicket(u, f) =>
          if (u, f) !in b.rows { EmojiGrows(b.rows, (u, f), b.nextKey, e); }
        case RemoveTicket(u, f, key) =>
          if (u, f) in b.rows && b.rows[(u, f)] == key {
            var fewer := b.rows - {(u, f)};
            assert fewer[(u, f) := key] == b.rows;
            EmojiGrows(fewer, (u, f), key, e);
          }
      }
    }
  }

  /** Whatever the interleaving, even when two removals find the same row, the cached count stays at or below
      the true one. */
  lemma {:induction false} InterleavedNeverOver(w: World, actions: seq<Action>)
    requires NeverOver(w.board)
    ensures NeverOver(Run(w, actions).board)
  {
    if actions != [] {
      var d, a := Run(w, actions[..|actions| - 1]), actions[|actions| - 1];
      InterleavedNeverOver(w, actions[..|actions| - 1]);
      if a.Commit? && a.call in d.open {
        CommitNeverOver(d.board, d.open[a.call]);
      }
    }
  }

  /** A removal that commits against a row already gone. */
  predicate Phantom(b: Board, t: Ticket) {
    t.RemoveTicket? && !((t.user, t.emoji) in b.rows && b.rows[(t.user, t.emoji)] == t.key)
  }

  /** A commit on an exact board leaves it exact unless it is a phantom removal of an emoji somebody still uses;
      and then, and only then, the cache falls behind. */
  lemma ExactCommit(b: Board, t: Ticket)
    requires Exact(b)
    ensures Exact(CommitTicket(b, t)) <==> !(Phantom(b, t) && OfEmoji(b.rows, t.emoji) != {})
  {
    var e := t.emoji;
    NoRows(b.rows, e);
    if Phantom(b, t) {
      if OfEmoji(b.rows, e) == {} {
        assert e in Tally(b.rows) ==> exists k :: k in b.rows && k.1 == e && k in OfEmoji(b.rows, e);
        assert b.counts - {e} == b.counts;
      } else {
        var d := CommitTicket(b, t);
        assert Cached(d.counts, e) == Cached(b.counts, e) - 1;
      }
    } else if t.RemoveTicket? {
      ExactDelete(b, t.user, e);
    } else if (t.user, e) !in b.rows {
      ExactInsert(b, t.user, e);
    }
  }

  /** No commit of the run is a phantom removal of an emoji still in use. */
  ghost predicate NoDrift(w: World, actions: seq<Action>) {
    forall k :: 0 <= k < |actions| ==> Harmless(Run(w, actions[..k]), actions[k])
  }

  ghost predicate Harmless(w: World, a: Action) {
    a.Commit? && a.call in w.open ==>
      !(Phantom(w.board, w.open[a.call]) && OfEmoji(w.board.rows, w.open[a.call].emoji) != {})
  }

  ghost predicate ExactThroughout(w: World, actions: seq<Action>) {
    forall k :: 0 <= k <= |actions| ==> Exact(Run(w, actions[..k]).board)
  }

  /** An interleaved run keeps the cache exact at every step exactly when it makes no such commit. */
  lemma InterleavedExact(w: World, actions: seq<Action>)
    requires Exact(w.board)
    ensures ExactThroughout(w, actions) <==> NoDrift(w, actions)
  {
    var good := (k: nat) => k <= |actions| && Exact(Run(w, actions[..k]).board);
    var safe := (k: nat) => k < |actions| && Harmless(Run(w, actions[..k]), actions[k]);
    assert actions[..0] == [];
    forall k | 0 <= k < |actions| && good(k) ensures good(k + 1) <==> safe(k) {
      assert actions[..k + 1][..k] == actions[..k];
      ExactStep(Run(w, actions[..k]), actions[k]);
    }
    Throughout(good, safe, |actions|);
    assert forall k :: 0 <= k <= |actions| ==> good(k) == Exact(Run(w, actions[..k]).board);
    assert forall k :: 0 <= k < |actions| ==> safe(k) == Harmless(Run(w, actions[..k]), actions[k]);
  }

  lemma ExactStep(w: World, a: Action)
    requires Exact(w.board)
    ensures Exact(Step(w, a).board) <==> Harmless(w, a)
  {
    if a.Commit? && a.call in w.open {
      ExactCommit(w.board, w.open[a.call]);
    }
  }

  // ---------------------------------------------------------------------------------- the limit, interleaved

  ghost predicate WithinLimit(b: Board) {
    forall u :: |OfUser(b.rows, u)| <= MAX_USER_REACTIONS_PER_MESSAGE
  }

  /** An addition that commits when its user, below the limit at the lookup, has reached it since. */
  ghost predicate Overfills(w: World, a: Action) {
    && a.Commit? && a.call in w.open && w.open[a.call].AddTicket?
    && (w.open[a.call].user, w.open[a.call].emoji) !in w.board.rows
    && |OfUser(w.board.rows, w.open[a.call].user)| >= MAX_USER_REACTIONS_PER_MESSAGE
  }

  lemma LimitStep(w: World, a: Action)
    requires WithinLimit(w.board)
    ensures WithinLimit(Step(w, a).board) <==> !Overfills(w, a)
  {
    var b, d := w.board, Step(w, a).board;
    if d.rows != b.rows {
      var t := w.open[a.call];
      forall v ensures |OfUser(d.rows, v)| ==
        |OfUser(b.rows, v)| + (if t.user != v then 0 else if t.AddTicket? then 1 else -1)
      {
        if t.AddTicket? { LimitInsert(b, t.user, t.emoji, v); } else { LimitDelete(b, t.user, t.emoji, v); }
      }
      assert |OfUser(b.rows, t.user)| <= MAX_USER_REACTIONS_PER_MESSAGE;
    }
  }

  /** In an interleaved run nobody exceeds five reactions at any step exactly when no addition commits after its
      user has reached the limit. */
  lemma LimitExactly(w: World, actions: seq<Action>)
    requires WithinLimit(w.board)
    ensures (forall k :: 0 <= k <= |actions| ==> WithinLimit(Run(w, actions[..k]).board)) <==>
            (forall k :: 0 <= k < |actions| ==> !Overfills(Run(w, actions[..k]), actions[k]))
  {
    var good := (k: nat) => k <= |actions| && WithinLimit(Run(w, actions[..k]).board);
    var safe := (k: nat) => k < |actions| && !Overfills(Run(w, actions[..k]), actions[k]);
    assert actions[..0] == [];
    forall k | 0 <= k < |actions| && good(k) ensures good(k + 1) <==> safe(k) {
      assert actions[..k + 1][..k] == actions[..k];
      LimitStep(Run(w, actions[..k]), actions[k]);
    }
    Throughout(good, safe, |actions|);
    assert forall k :: 0 <= k <= |actions| ==> good(k) == WithinLimit(Run(w, actions[..k]).board);
    assert forall k :: 0 <= k < |actions| ==> safe(k) == !Overfills(Run(w, actions[..k]), actions[k]);
  }

  /** The reactions a user has, or will have once the additions looked up so far have committed. */
  function Claims(w: World, u: User): set<(User, Emoji)> {
    OfUser(w.board.rows, u) + set k | k in w.open && Adding(w.open[k], u) :: (u, w.open[k].emoji)
  }

  predicate Adding(t: Ticket, u: User) {
    t.AddTicket? && t.user == u
  }

  ghost predicate Room(w: World) {
    forall u :: |Claims(w, u)| <= MAX_USER_REACTIONS_PER_MESSAGE
  }

  predicate Looks(a: Action) {
    a.LookupToAdd? || a.LookupToRemove?
  }

  predicate NoLookups(actions: seq<Action>) {
    forall k :: 0 <= k < |actions| ==> !Looks(actions[k])
  }

  lemma ClaimsShrink(w: World, a: Action, u: User)
    requires !Looks(a)
    ensures Claims(Step(w, a), u) <= Claims(w, u)
  {
    var d := Step(w, a);
    forall x | x in Claims(d, u) ensures x in Claims(w, u) {
      if x !in OfUser(w.board.rows, u) {
        if x in OfUser(d.board.rows, u) {
          assert a.call in w.open && Adding(w.open[a.call], u);
        } else {
          var k :| k in d.open && Adding(d.open[k], u) && x == (u, d.open[k].emoji);
          assert k in w.open && Adding(w.open[k], u);
        }
      }
    }
  }

  lemma Subset<T>(a: set<T>, b: set<T>)
    requires a <= b
    ensures |a| <= |b|
  {
    if a != {} {
      var x :| x in a;
      Subset(a - {x}, b - {x});
    }
  }

  lemma {:induction false} RoomStays(w: World, actions: seq<Action>)
    requires Room(w) && NoLookups(actions)
    ensures Room(Run(w, actions))
  {
    if actions != [] {
      var n := |actions| - 1;
      RoomStays(w, actions[..n]);
      forall u ensures |Claims(Run(w, actions), u)| <= MAX_USER_REACTIONS_PER_MESSAGE {
        ClaimsShrink(Run(w, actions[..n]), actions[n], u);
        Subset(Claims(Run(w, actions), u), Claims(Run(w, actions[..n]), u));
      }
    }
  }

  lemma {:induction false} RunCons(w: World, a: Action, actions: seq<Action>)
    ensures Run(w, [a] + actions) == Run(Step(w, a), actions)
  {
    var all := [a] + actions;
    if actions == [] {
      assert all[..0] == [];
    } else {
      var n := |actions| - 1;
      assert all[..|all| - 1] == [a] + actions[..n];
      RunCons(w, a, actions[..n]);
    }
  }

  /** Committing an addition of u turns a claim into a row. */
  lemma ClaimKept(w: World, k: nat, u: User)
    requires k in w.open && Adding(w.open[k], u)
    ensures Claims(w, u) <= Claims(Step(w, Commit(k)), u)
  {
    var d := Step(w, Commit(k));
    forall x | x in Claims(w, u) ensures x in Claims(d, u) {
      if x !in OfUser(d.board.rows, u) {
        var j :| j in w.open && Adding(w.open[j], u) && x == (u, w.open[j].emoji);
        assert j != k && j in d.open && Adding(d.open[j], u);
      }
    }
  }

  /** All additions of u commit, one after the other. */
  lemma {:induction false} CommitAll(w: World, u: User) returns (actions: seq<Action>)
    ensures NoLookups(actions) && Claims(w, u) <= OfUser(Run(w, actions).board.rows, u)
    decreases |w.open|
  {
    if k :| k in w.open && Adding(w.open[k], u) {
      ClaimKept(w, k, u);
      var rest := CommitAll(Step(w, Commit(k)), u);
      RunCons(w, Commit(k), rest);
      actions := [Commit(k)] + rest;
    } else {
      actions := [];
    }
  }

  /** With no further lookups, nobody ever exceeds five reactions, in whatever order the open calls commit, exactly
      when for each user the reactions there and the additions open now are five at most. */
  lemma LimitIffRoom(w: World)
    ensures (forall actions :: NoLookups(actions) ==> WithinLimit(Run(w, actions).board)) <==> Room(w)
  {
    if Room(w) {
      forall actions | NoLookups(actions) ensures WithinLimit(Run(w, actions).board) {
        RoomStays(w, actions);
        var d := Run(w, actions);
        forall u ensures |OfUser(d.board.rows, u)| <= MAX_USER_REACTIONS_PER_MESSAGE {
          Subset(OfUser(d.board.rows, u), Claims(d, u));
        }
      }
    } else {
      var u :| |Claims(w, u)| > MAX_USER_REACTIONS_PER_MESSAGE;
      var actions := CommitAll(w, u);
      Subset(Claims(w, u), OfUser(Run(w, actions).board.rows, u));
      assert !WithinLimit(Run(w, actions).board);
    }
  }

  /** Two lookups at four reactions both pass, and both commit. */
  lemma TwoLookupsOverfill(w: World, u: User, e: Emoji, f: Emoji)
    requires w.open == map[] && |OfUser(w.board.rows, u)| == MAX_USER_REACTIONS_PER_MESSAGE - 1
    requires Add(w.board, u, e).code.Success? && Add(w.board, u, f).code.Success? && e != f
    requires (u, e) !in w.board.rows && (u, f) !in w.board.rows
    ensures var d := Run(w, [LookupToAdd(0, u, e), LookupToAdd(1, u, f), Commit(0), Commit(1)]);
            |OfUser(d.board.rows, u)| == MAX_USER_REACTIONS_PER_MESSAGE + 1
  {
    FourSteps(w, LookupToAdd(0, u, e), LookupToAdd(1, u, f), Commit(0), Commit(1));
    var looked := World(w.board, map[0 := AddTicket(u, e), 1 := AddTicket(u, f)]);
    assert Step(Step(w, LookupToAdd(0, u, e)), LookupToAdd(1, u, f)) == looked;
    LimitInsert(w.board, u, e, u);
    LimitInsert(InsertRow(w.board, u, e), u, f, u);
  }

  /** Two removals that both find user 1's row: user 2's reaction stays, but the cache no longer shows it. */
  lemma DoubleRemovalDrifts()
    ensures var rows: Rows := map[(1, "+") := 0, (2, "+") := 1];
            var w := World(Board(rows, 2, map["+" := 2], false, {1, 2}), map[]);
            var d := Run(w, [LookupToRemove(0, 1, "+"), LookupToRemove(1, 1, "+"), Commit(0), Commit(1)]);
            Exact(w.board) && (2, "+") in d.board.rows && Cached(d.board.counts, "+") == 0
  {
    var rows: Rows := map[(1, "+") := 0, (2, "+") := 1];
    var w := World(Board(rows, 2, map["+" := 2], false, {1, 2}), map[]);
    TwoReactions(w.board);
    var t := RemoveTicket(1, "+", 0);
    var looked := World(w.board, map[0 := t, 1 := t]);
    FourSteps(w, LookupToRemove(0, 1, "+"), LookupToRemove(1, 1, "+"), Commit(0), Commit(1));
    assert Step(Step(w, LookupToRemove(0, 1, "+")), LookupToRemove(1, 1, "+")) == looked;
    TwoPhantoms(looked, t);
  }

  lemma TwoReactions(b: Board)
    requires b.rows == map[(1, "+") := 0, (2, "+") := 1] && b.counts == map["+" := 2]
    ensures Exact(b)
  {
    assert OfEmoji(b.rows, "+") == {(1, "+"), (2, "+")};
    assert (1, "+") in b.rows;
    assert Tally(b.rows).Keys == {"+"};
  }

  lemma FourSteps(w: World, a: Action, b: Action, c: Action, d: Action)
    ensures Run(w, [a, b, c, d]) == Step(Step(Step(Step(w, a), b), c), d)
  {
    assert [a, b, c, d][..3] == [a, b, c] && [a, b, c][..2] == [a, b] && [a, b][..1] == [a] && [a][..0] == [];
    assert Run(w, [a]) == Step(w, a);
    assert Run(w, [a, b]) == Step(Step(w, a), b);
  }

  lemma TwoPhantoms(w: World, t: Ticket)
    requires t == RemoveTicket(1, "+", 0) && w.open == map[0 := t, 1 := t]
    requires w.board.rows == map[(1, "+") := 0, (2, "+") := 1] && w.board.counts == map["+" := 2]
    ensures var d := Step(Step(w, Commit(0)), Commit(1));
            (2, "+") in d.board.rows && Cached(d.board.counts, "+") == 0
  {
    var once := Step(w, Commit(0));
    assert once.board.counts == map["+" := 1] && once.open == map[1 := t];
  }
}
