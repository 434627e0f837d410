/** Following `next_cursor` through the search results of a fixed set of messages. */
module SearchWalk {
  import opened Base

  const SEARCH_MAX_RESULTS: nat := 100

  /** A matching message; `rank` stands for whatever relevance the database computes. */
  datatype Hit = Hit(rank: real, createdAt: int, id: nat)

  /** `order_by("-rank", "-created_at", "-id")`. */
  predicate Before(a: Hit, b: Hit) {
    || a.rank > b.rank
    || (a.rank == b.rank && a.createdAt > b.createdAt)
    || (a.rank == b.rank && a.createdAt == b.createdAt && a.id > b.id)
  }

  ghost predicate Sorted(s: seq<Hit>) {
    forall i, j :: 0 <= i < j < |s| ==> Before(s[i], s[j])
  }

  ghost predicate IsFirst(h: Hit, hits: set<Hit>) {
    h in hits && forall k :: k in hits && k != h ==> Before(h, k)
  }

  lemma {:induction false} FirstExists(hits: set<Hit>)
    requires hits != {}
    ensures exists h :: IsFirst(h, hits)
    decreases |hits|
  {
    var x :| x in hits;
    var rest := hits - {x};
    assert forall k :: k in hits && k != x ==> k in rest;
    if rest == {} {
      assert IsFirst(x, hits);
    } else {
      FirstExists(rest);
      var y :| IsFirst(y, rest);
      var h := if Before(x, y) then x else y;
      forall k | k in hits && k != h ensures Before(h, k) {
        if k in rest && k != y {
          FirstBefore(x, y, k);
        }
      }
      assert IsFirst(h, hits);
    }
  }

  lemma FirstBefore(x: Hit, y: Hit, k: Hit)
    requires Before(y, k)
    ensures Before(x, y) ==> Before(x, k)
  {
  }

  /** The result set in database order. */
  ghost function OrderBy(hits: set<Hit>): (s: seq<Hit>)
    ensures forall h :: h in s <==> h in hits
    ensures Sorted(s)
    decreases |hits|
  {
    if hits == {} then []
    else
      FirstExists(hits);
      var h :| IsFirst(h, hits);
      var rest := OrderBy(hits - {h});
      assert forall k :: k in rest ==> Before(h, k);
      [h] + rest
  }

  /** A sorted listing of a set is unique. */
  lemma {:induction false} SortedUnique(s: seq<Hit>, t: seq<Hit>)
    requires Sorted(s) && Sorted(t) && forall h :: h in s <==> h in t
    ensures s == t
  {
    assert s != [] ==> s[0] in t;
    assert t != [] ==> t[0] in s;
    if s != [] && t != [] {
      assert s[0] == t[0];
      assert forall h :: h in s[1..] <==> h in s && h != s[0];
      assert forall h :: h in t[1..] <==> h in t && h != t[0];
      SortedUnique(s[1..], t[1..]);
    }
  }

  datatype Page = Page(results: seq<Hit>, nextCursor: Option<nat>, hasMore: bool)

  function Below(hits: set<Hit>, cursor: Option<nat>): set<Hit> {
    match cursor
    case None => hits
    case Some(c) => set h | h in hits && h.id < c
  }

  function PageSize(requested: nat): nat {
    if requested < SEARCH_MAX_RESULTS then requested else SEARCH_MAX_RESULTS
  }

  /** One call of `search` over the messages that match the query. */
  ghost function Search(hits: set<Hit>, cursor: Option<nat>, requested: nat): (p: Page)
    ensures |p.results| <= requested
  {
    var size := PageSize(requested);
    var ordered := OrderBy(Below(hits, cursor));
    var hasMore := |ordered| > size;
    var results := if hasMore then ordered[..size] else ordered;
    Page(results, if hasMore && results != [] then Some(results[|results| - 1].id) else None, hasMore)
  }

  /** What one page is: the best matches below the cursor, as many as asked for but at most 100, best rank first, among
      equal ranks the newest first, and among those the highest id first; more is announced exactly when there is
      more, and then, unless the page is empty, with the id of its last result. */
  lemma PageMeaning(hits: set<Hit>, cursor: Option<nat>, requested: nat)
    ensures var p, size := Search(hits, cursor, requested), if requested < 100 then requested else 100;
            && |p.results| == (if |Below(hits, cursor)| < size then |Below(hits, cursor)| else size)
            && (p.hasMore <==> |Below(hits, cursor)| > size)
            && (p.nextCursor.Some? <==> p.hasMore && size > 0)
            && (p.nextCursor.Some? ==> p.nextCursor.value == p.results[|p.results| - 1].id)
            && (forall i :: 0 <= i < |p.results| ==> p.results[i] in Below(hits, cursor))
            && (forall i, h :: 0 <= i < |p.results| && h in Below(hits, cursor) && h !in p.results ==>
                  Better(p.results[i], h))
            && (forall i, j :: 0 <= i < j < |p.results| ==> Better(p.results[i], p.results[j]))
  {
    var ordered := OrderBy(Below(hits, cursor));
    SameSize(ordered, Below(hits, cursor));
    var p := Search(hits, cursor, requested);
    forall i | 0 <= i < |p.results| ensures p.results[i] in Below(hits, cursor) {
      assert p.results[i] == ordered[i] && ordered[i] in ordered;
    }
    forall i, h | 0 <= i < |p.results| && h in Below(hits, cursor) && h !in p.results ensures Better(p.results[i], h) {
      assert h in ordered;
      assert forall k :: 0 <= k < |p.results| ==> p.results[k] == ordered[k];
      var j :| 0 <= j < |ordered| && ordered[j] == h;
    }
  }

  /** The order by relevance, recency and id, said in words of its three keys. */
  predicate Better(a: Hit, b: Hit) {
    && a.rank >= b.rank
    && (a.rank == b.rank ==> a.createdAt >= b.createdAt)
    && (a.rank == b.rank && a.createdAt == b.createdAt ==> a.id > b.id)
  }

  lemma {:induction false} SameSize(s: seq<Hit>, hits: set<Hit>)
    requires Sorted(s) && forall h :: h in s <==> h in hits
    ensures |s| == |hits|
  {
    if s == [] {
      assert hits == {};
    } else {
      assert s[0] in hits;
      assert forall h :: h in s <==> h == s[0] || h in s[1..];
      assert s[0] !in s[1..];
      SameSize(s[1..], hits - {s[0]});
    }
  }

  // ---------------------------------------------------------------------------------- the walk ends

  /** The next cursor is the id of a result of this page, so below the cursor this page was asked for. */
  lemma CursorDecreases(hits: set<Hit>, cursor: Option<nat>, requested: nat)
    ensures var next := Search(hits, cursor, requested).nextCursor;
            next.Some? ==> (exists h :: h in hits && h.id == next.value) && (cursor.Some? ==> next.value < cursor.value)
  {
    var p := Search(hits, cursor, requested);
    if p.nextCursor.Some? {
      var h := p.results[|p.results| - 1];
      assert h in OrderBy(Below(hits, cursor));
    }
  }

  ghost function IdsBound(hits: set<Hit>): nat
    decreases |hits|
  {
    if hits == {} then 0
    else
      var h :| h in hits;
      var rest := IdsBound(hits - {h});
      if rest > h.id then rest else h.id + 1
  }

  lemma {:induction false} BoundsIds(hits: set<Hit>, h: Hit)
    requires h in hits
    ensures h.id < IdsBound(hits)
    decreases |hits|
  {
    var g :| g in hits && IdsBound(hits) == (var rest := IdsBound(hits - {g}); if rest > g.id then rest else g.id + 1);
    if g != h {
      BoundsIds(hits - {g}, h);
    }
  }

  /** All pages from a cursor on, one after the other. */
  ghost function Walk(hits: set<Hit>, cursor: Option<nat>, requested: nat): seq<Hit>
    decreases if cursor.Some? then cursor.value else IdsBound(hits) + 1
  {
    var p := Search(hits, cursor, requested);
    CursorDecreases(hits, cursor, requested);
    if p.nextCursor.None? then p.results
    else
      var h :| h in hits && h.id == p.nextCursor.value;
      BoundsIds(hits, h);
      p.results + Walk(hits, p.nextCursor, requested)
  }

  // ---------------------------------------------------------------------------------- what the walk shows

  /** Everything on the page has an id at least its last one's, everything after it a smaller one. */
  ghost predicate SplitHere(ordered: seq<Hit>, size: nat)
    requires 0 < size < |ordered|
  {
    && (forall i :: 0 <= i < size ==> ordered[i].id >= ordered[size - 1].id)
    && (forall i :: size <= i < |ordered| ==> ordered[i].id < ordered[size - 1].id)
  }

  /** The ids split at every page boundary. */
  ghost predicate SplitsAtPages(ordered: seq<Hit>, size: nat)
    decreases |ordered|
  {
    |ordered| <= size || size == 0 || (SplitHere(ordered, size) && SplitsAtPages(ordered[size..], size))
  }

  lemma SearchFirst(hits: set<Hit>, cursor: Option<nat>, requested: nat)
    requires Below(hits, cursor) != {} && requested > 0
    ensures Walk(hits, cursor, requested) != [] && Walk(hits, cursor, requested)[0] == OrderBy(Below(hits, cursor))[0]
  {
    var h :| h in Below(hits, cursor);
    assert h in OrderBy(Below(hits, cursor));
  }

  lemma {:induction false} WalkStaysBelow(hits: set<Hit>, cursor: Option<nat>, requested: nat, h: Hit)
    requires h in Walk(hits, cursor, requested)
    ensures h in Below(hits, cursor)
    decreases if cursor.Some? then cursor.value else IdsBound(hits) + 1
  {
    var p := Search(hits, cursor, requested);
    CursorDecreases(hits, cursor, requested);
    var ordered := OrderBy(Below(hits, cursor));
    if h in p.results {
      assert h in ordered;
    } else {
      var g :| g in hits && g.id == p.nextCursor.value;
      BoundsIds(hits, g);
      WalkStaysBelow(hits, p.nextCursor, requested, h);
    }
  }

  /** Where the ids split, a smaller id is the same as a later position. */
  lemma SuffixById(ordered: seq<Hit>, size: nat, h: Hit)
    requires 0 < size < |ordered| && SplitHere(ordered, size)
    ensures h in ordered[size..] <==> h in ordered && h.id < ordered[size - 1].id
  {
    if h in ordered && h.id < ordered[size - 1].id {
      var i :| 0 <= i < |ordered| && ordered[i] == h;
      assert ordered[size..][i - size] == h;
    }
  }

  /** If the ids split at this page, the next query selects exactly the results after it. */
  lemma NextPageSplit(hits: set<Hit>, cursor: Option<nat>, size: nat)
    requires 0 < size < |OrderBy(Below(hits, cursor))| && SplitHere(OrderBy(Below(hits, cursor)), size)
    ensures var ordered := OrderBy(Below(hits, cursor));
            OrderBy(Below(hits, Some(ordered[size - 1].id))) == ordered[size..]
  {
    var ordered := OrderBy(Below(hits, cursor));
    var c := ordered[size - 1].id;
    assert ordered[size - 1] in ordered;
    var next := OrderBy(Below(hits, Some(c)));
    forall h ensures h in next <==> h in ordered[size..] {
      SuffixById(ordered, size, h);
      assert h in next <==> h in hits && h.id < c;
      assert h in ordered <==> h in Below(hits, cursor);
    }
    SortedUnique(next, ordered[size..]);
  }

  /** If the later pages show exactly the results after this page, the ids split at this page: a result of
      this page that the next query selects again would come first there. */
  lemma NextPageForced(hits: set<Hit>, cursor: Option<nat>, requested: nat)
    requires 0 < PageSize(requested) < |OrderBy(Below(hits, cursor))|
    requires var ordered := OrderBy(Below(hits, cursor));
             Walk(hits, Some(ordered[PageSize(requested) - 1].id), requested) == ordered[PageSize(requested)..]
    ensures SplitHere(OrderBy(Below(hits, cursor)), PageSize(requested))
  {
    var ordered, size := OrderBy(Below(hits, cursor)), PageSize(requested);
    var c := ordered[size - 1].id;
    forall i | size <= i < |ordered| ensures ordered[i].id < c {
      assert ordered[i] == ordered[size..][i - size];
      WalkStaysBelow(hits, Some(c), requested, ordered[i]);
    }
    forall i | 0 <= i < size ensures ordered[i].id >= c {
      if ordered[i].id < c {
        assert ordered[i] in ordered;
        ShownAgain(hits, c, requested, ordered[i], ordered[size]);
      }
    }
  }

  /** A match below the cursor is shown by the walk no later than anything it precedes. */
  lemma ShownAgain(hits: set<Hit>, c: nat, requested: nat, seen: Hit, next: Hit)
    requires requested > 0 && seen in Below(hits, Some(c)) && Before(seen, next)
    ensures Walk(hits, Some(c), requested) != [] && Walk(hits, Some(c), requested)[0] != next
  {
    SearchFirst(hits, Some(c), requested);
    assert seen in OrderBy(Below(hits, Some(c)));
  }

  /** More than one page: this page is followed by the walk from its last id. */
  lemma WalkUnfolds(hits: set<Hit>, cursor: Option<nat>, requested: nat)
    requires 0 < PageSize(requested) < |OrderBy(Below(hits, cursor))|
    ensures var ordered := OrderBy(Below(hits, cursor));
            var c := ordered[PageSize(requested) - 1].id;
            && Walk(hits, cursor, requested) == ordered[..PageSize(requested)] + Walk(hits, Some(c), requested)
            && c < IdsBound(hits) && (cursor.Some? ==> c < cursor.value)
  {
    var last := OrderBy(Below(hits, cursor))[PageSize(requested) - 1];
    assert last in OrderBy(Below(hits, cursor));
    BoundsIds(hits, last);
    assert Search(hits, cursor, requested).nextCursor == Some(last.id);
  }

  /** One page boundary: the walk is complete from here exactly when the ids split here and the rest is complete. */
  lemma BoundaryExactly(hits: set<Hit>, cursor: Option<nat>, requested: nat)
    requires 0 < PageSize(requested) < |OrderBy(Below(hits, cursor))|
    ensures var ordered, size := OrderBy(Below(hits, cursor)), PageSize(requested);
            var next := Below(hits, Some(ordered[size - 1].id));
            && (SplitHere(ordered, size) ==> OrderBy(next) == ordered[size..])
            && (Walk(hits, cursor, requested) == ordered <==>
                  SplitHere(ordered, size) && Walk(hits, Some(ordered[size - 1].id), requested) == OrderBy(next))
  {
    var ordered, size := OrderBy(Below(hits, cursor)), PageSize(requested);
    var tail := Walk(hits, Some(ordered[size - 1].id), requested);
    WalkUnfolds(hits, cursor, requested);
    CutOff(ordered, tail, size);
    if SplitHere(ordered, size) {
      NextPageSplit(hits, cursor, size);
    } else if tail == ordered[size..] {
      NextPageForced(hits, cursor, requested);
    }
  }

  /** The concatenated pages are the full ordered result, nothing missed or repeated, exactly when the ids split
      at every page boundary. */
  lemma {:induction false} WalkCompleteExactly(hits: set<Hit>, cursor: Option<nat>, requested: nat)
    requires requested > 0
    ensures Walk(hits, cursor, requested) == OrderBy(Below(hits, cursor)) <==>
            SplitsAtPages(OrderBy(Below(hits, cursor)), PageSize(requested))
    decreases if cursor.Some? then cursor.value else IdsBound(hits) + 1
  {
    var ordered, size := OrderBy(Below(hits, cursor)), PageSize(requested);
    if |ordered| > size {
      WalkUnfolds(hits, cursor, requested);
      WalkCompleteExactly(hits, Some(ordered[size - 1].id), requested);
      BoundaryExactly(hits, cursor, requested);
      SplitsUnfold(ordered, size);
    } else {
      LastPage(hits, cursor, requested);
    }
  }

  lemma LastPage(hits: set<Hit>, cursor: Option<nat>, requested: nat)
    requires |OrderBy(Below(hits, cursor))| <= PageSize(requested)
    ensures Walk(hits, cursor, requested) == OrderBy(Below(hits, cursor))
  {
  }

  lemma SplitsUnfold(ordered: seq<Hit>, size: nat)
    requires 0 < size < |ordered|
    ensures SplitsAtPages(ordered, size) <==> SplitHere(ordered, size) && SplitsAtPages(ordered[size..], size)
  {
  }

  lemma CutOff(ordered: seq<Hit>, tail: seq<Hit>, size: nat)
    requires size <= |ordered|
    ensures ordered[..size] + tail == ordered <==> tail == ordered[size..]
  {
    if ordered[..size] + tail == ordered {
      assert tail == (ordered[..size] + tail)[size..];
    } else {
      assert ordered == ordered[..size] + ordered[size..];
    }
  }

  ghost predicate IdOrder(s: seq<Hit>) {
    forall i, j :: 0 <= i < j < |s| ==> s[i].id > s[j].id
  }

  lemma {:induction false} IdOrderSplits(s: seq<Hit>, size: nat)
    requires IdOrder(s)
    ensures SplitsAtPages(s, size)
    decreases |s|
  {
    if |s| > size > 0 {
      IdOrderSplits(s[size..], size);
    }
  }

  /** When relevance and recency never disagree with the ids, a walk from the start shows everything once. */
  lemma WalkComplete(hits: set<Hit>, requested: nat)
    requires requested > 0 && IdOrder(OrderBy(hits))
    ensures Walk(hits, None, requested) == OrderBy(hits)
  {
    IdOrderSplits(OrderBy(hits), PageSize(requested));
    WalkCompleteExactly(hits, None, requested);
  }

  /** A better match with an older id than the page's last result is what breaks the walk: here the newer,
      less relevant message 2 is never shown. */
  lemma RelevantOldMessageHidesNewer()
    ensures var hits := {Hit(9.0, 0, 1), Hit(5.0, 0, 2)};
            Walk(hits, None, 1) != OrderBy(hits)
  {
    var hits := {Hit(9.0, 0, 1), Hit(5.0, 0, 2)};
    var s := [Hit(9.0, 0, 1), Hit(5.0, 0, 2)];
    assert forall h :: h in s <==> h in OrderBy(hits);
    SortedUnique(OrderBy(hits), s);
    assert s[0].id < s[1].id;
    WalkCompleteExactly(hits, None, 1);
  }
}
