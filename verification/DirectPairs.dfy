/** All conversations together: direct conversations are unique per unordered pair of users, for ever. */
module DirectPairs {
  import opened Base
  import opened Chat
  import opened ChatInvariants
  import opened ChatRuns

  /** `pairs` is the DirectConversationPair table: lower id, higher id -> position of the conversation. */
  datatype Directory = Directory(convs: seq<Conv>, pairs: map<(User, User), nat>, clock: nat)

  function Canonical(a: User, b: User): (User, User) {
    if a < b then (a, b) else (b, a)
  }

  datatype Opened = Opened(dir: Directory, conv: Option<nat>, code: Code)

  /** `create_direct`. */
  function CreateDirect(s: Directory, a: User, b: User): Opened {
    var pair := Canonical(a, b);
    if a == b then Opened(s, None, SameUser)
    else if pair in s.pairs then Opened(s, Some(s.pairs[pair]), Success)
    else
      var id := |s.convs|;
      Opened(Directory(s.convs + [NewDirect(pair.0, pair.1, s.clock)], s.pairs[pair := id], s.clock + 2), Some(id),
          Success)
  }

  function CreateGroup(s: Directory, creator: User, title: string, initial: seq<User>): Opened {
    var code := CreateGroupCode(creator, title, initial);
    if !code.Success? then Opened(s, None, code)
    else
      var c := NewGroup(creator, Strip(title), Without(initial, creator), s.clock);
      Opened(s.(convs := s.convs + [c], clock := c.clock), Some(|s.convs|), Success)
  }

  datatype Call =
    | OpenDirect(a: User, b: User)
    | OpenGroup(creator: User, title: string, initial: seq<User>)
    | Within(id: nat, action: Action)

  function After(s: Directory, call: Call): Directory {
    match call
    case OpenDirect(a, b) => CreateDirect(s, a, b).dir
    case OpenGroup(creator, title, initial) => CreateGroup(s, creator, title, initial).dir
    case Within(id, action) => if id < |s.convs| then s.(convs := s.convs[id := Step(s.convs[id], action)]) else s
  }

  function AfterAll(s: Directory, calls: seq<Call>): Directory {
    if calls == [] then s else After(AfterAll(s, calls[..|calls| - 1]), calls[|calls| - 1])
  }

  const EMPTY := Directory([], map[], 0)

  function PairOf(c: Conv): (User, User)
    requires |c.rows| >= 2
  {
    (c.rows[0].user, c.rows[1].user)
  }

  ghost predicate Listed(s: Directory, id: nat)
    requires id < |s.convs|
  {
    var c := s.convs[id];
    && Inv(c)
    && (c.kind.Direct? ==> PairOf(c) in s.pairs && s.pairs[PairOf(c)] == id)
  }

  ghost predicate Entry(s: Directory, pair: (User, User))
    requires pair in s.pairs
  {
    var id := s.pairs[pair];
    id < |s.convs| && s.convs[id].kind.Direct? && |s.convs[id].rows| == 2 && PairOf(s.convs[id]) == pair
  }

  /** The pair table lists exactly the direct conversations, each under its own two users. */
  ghost predicate Consistent(s: Directory) {
    && (forall id :: 0 <= id < |s.convs| ==> Listed(s, id))
    && (forall pair :: pair in s.pairs ==> Entry(s, pair))
  }

  lemma AppendKeeps(s: Directory, c: Conv, pairs: map<(User, User), nat>, clock: nat)
    requires Consistent(s) && Inv(c)
    requires if c.kind.Direct? then PairOf(c) !in s.pairs && pairs == s.pairs[PairOf(c) := |s.convs|]
          else pairs == s.pairs
    ensures Consistent(Directory(s.convs + [c], pairs, clock))
  {
    var t := Directory(s.convs + [c], pairs, clock);
    forall id | 0 <= id < |t.convs| ensures Listed(t, id) {
      assert id < |s.convs| ==> Listed(s, id);
    }
    forall pair | pair in t.pairs ensures Entry(t, pair) {
      assert pair in s.pairs ==> Entry(s, pair);
    }
  }

  lemma PairStays(c: Conv, action: Action)
    requires Inv(c)
    ensures var d := Step(c, action);
            Inv(d) && d.kind == c.kind && |d.rows| >= |c.rows|
                && (c.kind.Direct? ==> |d.rows| == 2 && PairOf(d) == PairOf(c))
  {
    StepKeepsInv(c, action);
    StepIsLater(c, action);
  }

  lemma WithinListed(s: Directory, id: nat, action: Action, k: nat)
    requires id < |s.convs| && k < |s.convs| && Listed(s, k)
    ensures Listed(After(s, Within(id, action)), k)
  {
    PairStays(s.convs[k], action);
  }

  lemma WithinEntry(s: Directory, id: nat, action: Action, pair: (User, User))
    requires id < |s.convs| && Listed(s, id) && pair in s.pairs && Entry(s, pair)
    ensures Entry(After(s, Within(id, action)), pair)
  {
    PairStays(s.convs[id], action);
  }

  lemma WithinKeeps(s: Directory, id: nat, action: Action)
    requires Consistent(s) && id < |s.convs|
    ensures Consistent(After(s, Within(id, action)))
  {
    var t := After(s, Within(id, action));
    forall k | 0 <= k < |t.convs| ensures Listed(t, k) {
      WithinListed(s, id, action, k);
    }
    forall pair | pair in t.pairs ensures Entry(t, pair) {
      assert Listed(s, id);
      WithinEntry(s, id, action, pair);
    }
  }

  lemma AfterKeeps(s: Directory, call: Call)
    requires Consistent(s)
    ensures Consistent(After(s, call))
  {
    match call
    case OpenDirect(a, b) =>
      var pair := Canonical(a, b);
      if a != b && pair !in s.pairs {
        DirectStarts(pair.0, pair.1, s.clock);
        AppendKeeps(s, NewDirect(pair.0, pair.1, s.clock), s.pairs[pair := |s.convs|], s.clock + 2);
      }
    case OpenGroup(creator, title, initial) =>
      if CreateGroupCode(creator, title, initial).Success? {
        var c := NewGroup(creator, Strip(title), Without(initial, creator), s.clock);
        GroupStarts(creator, Strip(title), Without(initial, creator), s.clock);
        AppendKeeps(s, c, s.pairs, c.clock);
      }
    case Within(id, action) =>
      if id < |s.convs| { WithinKeeps(s, id, action); }
  }

  lemma {:induction false} AfterAllKeeps(s: Directory, calls: seq<Call>)
    requires Consistent(s)
    ensures Consistent(AfterAll(s, calls))
  {
    if calls != [] {
      AfterAllKeeps(s, calls[..|calls| - 1]);
      AfterKeeps(AfterAll(s, calls[..|calls| - 1]), calls[|calls| - 1]);
    }
  }

  /** At most one direct conversation per unordered pair, in every run from the empty database. */
  lemma OnePerPair(calls: seq<Call>, i: nat, j: nat)
    requires var s := AfterAll(EMPTY, calls);
             && i < |s.convs| && j < |s.convs| && s.convs[i].kind.Direct? && s.convs[j].kind.Direct?
             && |s.convs[i].rows| >= 2 && |s.convs[j].rows| >= 2
             && {PairOf(s.convs[i]).0, PairOf(s.convs[i]).1} == {PairOf(s.convs[j]).0, PairOf(s.convs[j]).1}
    ensures i == j
  {
    var s := AfterAll(EMPTY, calls);
    AfterAllKeeps(EMPTY, calls);
    assert Listed(s, i) && Listed(s, j);
    var p, q := PairOf(s.convs[i]), PairOf(s.convs[j]);
    assert p.0 in {q.0, q.1} && p.1 in {q.0, q.1};
  }

  lemma LaterOn(c: Conv, d: Conv, e: Conv)
    requires Later(c, d) && (e == d || Later(d, e))
    ensures Later(c, e)
  {
  }

  lemma AfterStep(s: Directory, calls: seq<Call>, n: nat)
    requires n < |calls|
    ensures AfterAll(s, calls[..n + 1]) == After(AfterAll(s, calls[..n]), calls[n])
  {
    assert calls[..n + 1][..n] == calls[..n];
  }

  ghost predicate SameOrLater(s: Directory, t: Directory, id: nat)
    requires id < |s.convs|
  {
    id < |t.convs| && (t.convs[id] == s.convs[id] || Later(s.convs[id], t.convs[id]))
  }

  lemma SameOrLaterOn(s: Directory, t: Directory, u: Directory, id: nat)
    requires id < |s.convs| && SameOrLater(s, t, id) && SameOrLater(t, u, id)
    ensures SameOrLater(s, u, id)
  {
    if t.convs[id] != s.convs[id] {
      LaterOn(s.convs[id], t.convs[id], u.convs[id]);
    }
  }

  /** From any moment of a run to any later one a conversation stays in its place, its rows the same users' rows. */
  lemma {:induction false} StaysInPlace(s: Directory, calls: seq<Call>, k: nat, n: nat, id: nat)
    requires k <= n <= |calls| && id < |AfterAll(s, calls[..k]).convs|
    ensures SameOrLater(AfterAll(s, calls[..k]), AfterAll(s, calls[..n]), id)
  {
    if n > k {
      var from, before, after := AfterAll(s, calls[..k]), AfterAll(s, calls[..n - 1]), AfterAll(s, calls[..n]);
      StaysInPlace(s, calls, k, n - 1, id);
      AfterStep(s, calls, n - 1);
      OneCallLater(before, calls[n - 1], id);
      SameOrLaterOn(from, before, after, id);
    }
  }

  lemma OneCallLater(s: Directory, call: Call, id: nat)
    requires id < |s.convs|
    ensures id < |After(s, call).convs| && Later(s.convs[id], After(s, call).convs[id])
  {
    if call.Within? {
      StepIsLater(s.convs[id], call.action);
    }
  }

  /** A direct conversation keeps, from the call that opens it on, exactly its two original rows (same users, same
      `joined_at`), and is soft-deleted exactly when both users have left. */
  lemma DirectForLife(calls: seq<Call>, id: nat, k: nat)
    requires var s := AfterAll(EMPTY, calls); id < |s.convs| && s.convs[id].kind.Direct?
    requires k <= |calls| && id < |AfterAll(EMPTY, calls[..k]).convs|
    ensures var c, first := AfterAll(EMPTY, calls).convs[id], AfterAll(EMPTY, calls[..k]).convs[id];
            && |c.rows| == |first.rows| == 2 && PairOf(c) == PairOf(first) && c.rows[0].user < c.rows[1].user
            && (forall i :: 0 <= i < 2 ==> c.rows[i].joinedAt == first.rows[i].joinedAt)
            && (c.deletedAt.Some? <==> !c.rows[0].Active() && !c.rows[1].Active())
            && c.count == (if c.rows[0].Active() then 1 else 0) + (if c.rows[1].Active() then 1 else 0)
  {
    ListedInv(calls, id);
    ListedInv(calls[..k], id);
    StaysInPlace(EMPTY, calls, k, |calls|, id);
    assert calls[..|calls|] == calls;
    SameRows(AfterAll(EMPTY, calls[..k]).convs[id], AfterAll(EMPTY, calls).convs[id]);
  }

  lemma ListedInv(calls: seq<Call>, id: nat)
    requires id < |AfterAll(EMPTY, calls).convs|
    ensures Inv(AfterAll(EMPTY, calls).convs[id])
  {
    AfterAllKeeps(EMPTY, calls);
    assert Listed(AfterAll(EMPTY, calls), id);
  }

  lemma SameRows(first: Conv, c: Conv)
    requires Inv(first) && Inv(c) && c.kind.Direct? && (c == first || Later(first, c))
    ensures |c.rows| == |first.rows| == 2 && PairOf(c) == PairOf(first) && c.rows[0].user < c.rows[1].user
    ensures forall i :: 0 <= i < 2 ==> c.rows[i].joinedAt == first.rows[i].joinedAt
    ensures c.deletedAt.Some? <==> !c.rows[0].Active() && !c.rows[1].Active()
    ensures c.count == (if c.rows[0].Active() then 1 else 0) + (if c.rows[1].Active() then 1 else 0)
  {
    TwoRows(c);
  }

  lemma TwoRows(c: Conv)
    requires Inv(c) && c.kind.Direct?
    ensures |c.rows| == 2 && c.rows[0].user < c.rows[1].user
    ensures c.deletedAt.Some? <==> !c.rows[0].Active() && !c.rows[1].Active()
    ensures c.count == (if c.rows[0].Active() then 1 else 0) + (if c.rows[1].Active() then 1 else 0)
  {
    assert ActiveAt(c.rows) == (if c.rows[0].Active() then {0} else {}) + (if c.rows[1].Active() then {1} else {});
    assert c.rows[0].Active() ==> 0 in ActiveAt(c.rows);
    assert c.rows[1].Active() ==> 1 in ActiveAt(c.rows);
  }

  lemma {:induction false} PairsStay(s: Directory, calls: seq<Call>, pair: (User, User))
    requires pair in s.pairs
    ensures pair in AfterAll(s, calls).pairs && AfterAll(s, calls).pairs[pair] == s.pairs[pair]
  {
    if calls != [] {
      PairsStay(s, calls[..|calls| - 1], pair);
    }
  }

  /** Once opened, both users get the same conversation back for ever, whoever asks and whatever happened. */
  lemma SameConversationForever(s: Directory, a: User, b: User, calls: seq<Call>)
    requires a != b
    ensures var first := CreateDirect(s, a, b);
            var later := AfterAll(first.dir, calls);
            && first.conv.Some?
            && CreateDirect(later, a, b) == Opened(later, first.conv, Success)
            && CreateDirect(later, b, a) == Opened(later, first.conv, Success)
  {
    var first := CreateDirect(s, a, b);
    PairsStay(first.dir, calls, Canonical(a, b));
  }

  /** What each call does to the directory: opening gives the pair its conversation, a group is one more, and a call
      within a conversation is a step of that one and of no other. */
  lemma AfterExactly(s: Directory, call: Call)
    requires Consistent(s)
    ensures call.OpenDirect? && call.a != call.b ==>
              var d := After(s, call);
              && |d.convs| == |s.convs| + (if Canonical(call.a, call.b) in s.pairs then 0 else 1)
              && d.convs[..|s.convs|] == s.convs && Canonical(call.a, call.b) in d.pairs
              && var id := d.pairs[Canonical(call.a, call.b)];
                 id < |d.convs| && d.convs[id].kind.Direct? && |d.convs[id].rows| == 2
                 && {d.convs[id].rows[0].user, d.convs[id].rows[1].user} == {call.a, call.b}
    ensures call.OpenDirect? && call.a == call.b ==> After(s, call) == s
    ensures call.OpenGroup? ==>
              && After(s, call).pairs == s.pairs
              && if CreateGroupCode(call.creator, call.title, call.initial).Success?
                 then After(s, call).convs ==
                        s.convs + [NewGroup(call.creator, Strip(call.title), Without(call.initial, call.creator),
                                            s.clock)]
                 else After(s, call) == s
    ensures call.Within? && call.id < |s.convs| ==>
              && After(s, call).convs == s.convs[call.id := Step(s.convs[call.id], call.action)]
              && After(s, call).pairs == s.pairs
  {
    if call.OpenDirect? && call.a != call.b {
      AfterKeeps(s, call);
      OpenedPair(s, call.a, call.b);
    }
  }

  lemma OpenedPair(s: Directory, a: User, b: User)
    requires Consistent(s) && Consistent(CreateDirect(s, a, b).dir) && a != b
    ensures var d, pair := CreateDirect(s, a, b).dir, Canonical(a, b);
            && |d.convs| == |s.convs| + (if pair in s.pairs then 0 else 1) && d.convs[..|s.convs|] == s.convs
            && pair in d.pairs && d.pairs[pair] < |d.convs|
            && var c := d.convs[d.pairs[pair]];
               c.kind.Direct? && |c.rows| == 2 && {c.rows[0].user, c.rows[1].user} == {a, b}
  {
    assert Entry(CreateDirect(s, a, b).dir, Canonical(a, b));
  }
}
