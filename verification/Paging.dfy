/** Keyset pagination over a list that may change between two pages. */
module Paging {
  import opened Wrappers
  import opened SortKeys

  const MAX_PAGE_LIMIT: nat := 500

  datatype Page = Page(limit: nat, cursor: Option<SortKey>)

  function Clamped(limit: nat): nat {
    if limit < 1 then 1 else if limit > MAX_PAGE_LIMIT then MAX_PAGE_LIMIT else limit
  }

  predicate PastCursor(cursor: Option<SortKey>, k: SortKey) {
    cursor.None? || KeyLess(cursor.value, k)
  }

  /** What `retain` leaves. */
  function Remaining<T>(items: seq<T>, cursor: Option<SortKey>, key: T -> SortKey): seq<T> {
    if items == [] then []
    else if cursor.None? || KeyLess(cursor.value, key(items[0])) then [items[0]] + Remaining(items[1..], cursor, key)
    else Remaining(items[1..], cursor, key)
  }

  lemma {:induction false} RemainingAppend<T>(a: seq<T>, x: T, cursor: Option<SortKey>, key: T -> SortKey)
    ensures Remaining(a + [x], cursor, key) == Remaining(a, cursor, key) + Remaining([x], cursor, key)
  {
    if a == [] {
      assert a + [x] == [x];
    } else {
      assert (a + [x])[1..] == a[1..] + [x];
      RemainingAppend(a[1..], x, cursor, key);
    }
  }

  function PageItems<T>(items: seq<T>, page: Page, key: T -> SortKey): seq<T> {
    var rest, limit := Remaining(items, page.cursor, key), Clamped(page.limit);
    if |rest| > limit then rest[..limit] else rest
  }

  function PageNext<T>(items: seq<T>, page: Page, key: T -> SortKey): Option<SortKey> {
    var rest, limit := Remaining(items, page.cursor, key), Clamped(page.limit);
    if |rest| > limit then Some(key(rest[limit - 1])) else None
  }

  /** The first `n` of `rest`, and a cursor exactly if there are more. */
  ghost predicate FirstOf<T>(rest: seq<T>, n: nat, key: T -> SortKey, kept: seq<T>, next: Option<SortKey>)
    requires n > 0
  {
    if |rest| <= n then kept == rest && next.None? else kept == rest[..n] && next == Some(key(rest[n - 1]))
  }

  /** A limit of 1 to 500 is the size of the page; 0 counts as 1 and anything larger as 500. */
  method Paginate<T>(items: seq<T>, page: Page, key: T -> SortKey) returns (kept: seq<T>, next: Option<SortKey>)
    ensures kept == PageItems(items, page, key) && next == PageNext(items, page, key)
    ensures var rest := Remaining(items, page.cursor, key);
            && (page.limit == 0 ==> FirstOf(rest, 1, key, kept, next))
            && (1 <= page.limit <= 500 ==> FirstOf(rest, page.limit, key, kept, next))
            && (page.limit > 500 ==> FirstOf(rest, 500, key, kept, next))
  {
    kept := [];
    for i := 0 to |items|
      invariant kept == Remaining(items[..i], page.cursor, key)
    {
      assert items[..i + 1] == items[..i] + [items[i]];
      RemainingAppend(items[..i], items[i], page.cursor, key);
      if PastCursor(page.cursor, key(items[i])) {
        kept := kept + [items[i]];
      }
    }
    assert items[..|items|] == items;
    var limit := Clamped(page.limit);
    next := if |kept| > limit then Some(key(kept[limit - 1])) else None;
    kept := if |kept| > limit then kept[..limit] else kept;
  }

  // ----- a session of page requests -----

  predicate Ascending<T>(items: seq<T>, key: T -> SortKey) {
    forall a, b :: 0 <= a < b < |items| ==> KeyLess(key(items[a]), key(items[b]))
  }

  predicate AllPast<T>(items: seq<T>, cursor: Option<SortKey>, key: T -> SortKey) {
    forall a :: 0 <= a < |items| ==> PastCursor(cursor, key(items[a]))
  }

  /** Everything a client receives that starts at `cursor` and follows the cursors it is handed,
      request `k` being served from `snapshots[k]`. */
  function Received<T>(snapshots: seq<seq<T>>, limits: seq<nat>, cursor: Option<SortKey>, key: T -> SortKey): seq<T>
    requires |limits| == |snapshots|
  {
    if snapshots == [] then []
    else
      var page := Page(limits[0], cursor);
      var next := PageNext(snapshots[0], page, key);
      PageItems(snapshots[0], page, key) +
      (if next.None? then [] else Received(snapshots[1..], limits[1..], next, key))
  }

  /** The client got to the end: some page came without a cursor. */
  predicate Finished<T>(snapshots: seq<seq<T>>, limits: seq<nat>, cursor: Option<SortKey>, key: T -> SortKey)
    requires |limits| == |snapshots|
  {
    snapshots != [] &&
    var next := PageNext(snapshots[0], Page(limits[0], cursor), key);
    next.None? || Finished(snapshots[1..], limits[1..], next, key)
  }

  /** On an ascending list, what `retain` leaves is a suffix. */
  lemma {:induction false} RemainingIsSuffix<T>(items: seq<T>, cursor: Option<SortKey>,
                                                key: T -> SortKey) returns (n: nat)
    requires Ascending(items, key)
    ensures n <= |items| && Remaining(items, cursor, key) == items[n..]
    ensures forall a :: 0 <= a < |items| ==> (PastCursor(cursor, key(items[a])) <==> n <= a)
  {
    if items == [] {
      n := 0;
    } else if PastCursor(cursor, key(items[0])) {
      forall a | 0 <= a < |items|
        ensures PastCursor(cursor, key(items[a]))
      {
        if a > 0 && cursor.Some? { KeyLessTransitive(cursor.value, key(items[0]), key(items[a])); }
      }
      AllRemain(items, cursor, key);
      n := 0;
    } else {
      n := RemainingIsSuffix(items[1..], cursor, key);
      n := n + 1;
      assert forall a :: 1 <= a < |items| ==> items[a] == items[1..][a - 1];
    }
  }

  lemma {:induction false} AllRemain<T>(items: seq<T>, c: Option<SortKey>, key: T -> SortKey)
    requires AllPast(items, c, key)
    ensures Remaining(items, c, key) == items
  {
    if items != [] {
      assert forall a :: 0 <= a < |items[1..]| ==> items[1..][a] == items[a + 1];
      AllRemain(items[1..], c, key);
    }
  }

  /** Keys arrive in strictly ascending order, all past the starting cursor: nothing is returned
      twice, whatever happened to the list between the requests. */
  lemma {:induction false} NothingReturnedTwice<T>(snapshots: seq<seq<T>>, limits: seq<nat>, cursor: Option<SortKey>,
                                                   key: T -> SortKey)
    requires |limits| == |snapshots|
    requires forall n :: 0 <= n < |snapshots| ==> Ascending(snapshots[n], key)
    ensures Ascending(Received(snapshots, limits, cursor, key), key)
    ensures AllPast(Received(snapshots, limits, cursor, key), cursor, key)
  {
    if snapshots != [] {
      var page := Page(limits[0], cursor);
      var first, next := PageItems(snapshots[0], page, key), PageNext(snapshots[0], page, key);
      FirstPage(snapshots[0], page, key);
      if next.Some? {
        var later := Received(snapshots[1..], limits[1..], next, key);
        NothingReturnedTwice(snapshots[1..], limits[1..], next, key);
        JoinPages(first, later, cursor, next, key);
      }
    }
  }

  /** A page is ascending, past the cursor, and ends at the cursor it hands out. */
  lemma FirstPage<T>(items: seq<T>, page: Page, key: T -> SortKey)
    requires Ascending(items, key)
    ensures var first, next := PageItems(items, page, key), PageNext(items, page, key);
            && Ascending(first, key)
            && AllPast(first, page.cursor, key)
            && (next.Some? ==> |first| > 0 && next.value == key(first[|first| - 1]))
  {
    var rest, first := Remaining(items, page.cursor, key), PageItems(items, page, key);
    var n := RemainingIsSuffix(items, page.cursor, key);
  }

  lemma JoinPages<T>(first: seq<T>, later: seq<T>, cursor: Option<SortKey>, next: Option<SortKey>, key: T -> SortKey)
    requires Ascending(first, key) && Ascending(later, key) && |first| > 0
    requires next == Some(key(first[|first| - 1]))
    requires AllPast(first, cursor, key) && AllPast(later, next, key)
    ensures Ascending(first + later, key) && AllPast(first + later, cursor, key)
  {
    var last := |first| - 1;
    assert PastCursor(cursor, key(first[last]));
    forall b | 0 <= b < |later|
      ensures KeyLess(next.value, key(later[b])) && PastCursor(cursor, key(later[b]))
    {
      assert PastCursor(next, key(later[b]));
      if cursor.Some? { KeyLessTransitive(cursor.value, next.value, key(later[b])); }
    }
    forall a, b | 0 <= a < |first| && 0 <= b < |later|
      ensures KeyLess(key(first[a]), key(later[b]))
    {
      if a < last { KeyLessTransitive(key(first[a]), next.value, key(later[b])); }
    }
  }

  predicate HasKey<T>(items: seq<T>, k: SortKey, key: T -> SortKey) {
    exists a :: 0 <= a < |items| && key(items[a]) == k
  }

  /** What is in every snapshot is returned, by the time the cursor is empty. */
  lemma {:induction false} NothingSkipped<T>(snapshots: seq<seq<T>>, limits: seq<nat>, cursor: Option<SortKey>,
                                             key: T -> SortKey, k: SortKey)
    requires |limits| == |snapshots|
    requires forall n :: 0 <= n < |snapshots| ==> Ascending(snapshots[n], key) && HasKey(snapshots[n], k, key)
    requires PastCursor(cursor, k) && Finished(snapshots, limits, cursor, key)
    ensures HasKey(Received(snapshots, limits, cursor, key), k, key)
  {
    var page := Page(limits[0], cursor);
    var first, next := PageItems(snapshots[0], page, key), PageNext(snapshots[0], page, key);
    OnPageOrLater(snapshots[0], page, key, k);
    if next.Some? {
      var later := Received(snapshots[1..], limits[1..], next, key);
      assert Received(snapshots, limits, cursor, key) == first + later;
      if !HasKey(first, k, key) {
        NothingSkipped(snapshots[1..], limits[1..], next, key, k);
      }
      HasKeyJoin(first, later, k, key);
    } else {
      assert Received(snapshots, limits, cursor, key) == first + [] == first;
    }
  }

  lemma HasKeyJoin<T>(a: seq<T>, b: seq<T>, k: SortKey, key: T -> SortKey)
    requires HasKey(a, k, key) || HasKey(b, k, key)
    ensures HasKey(a + b, k, key)
  {
    if HasKey(a, k, key) {
      var x :| 0 <= x < |a| && key(a[x]) == k;
      assert key((a + b)[x]) == k;
    } else {
      var x :| 0 <= x < |b| && key(b[x]) == k;
      assert key((a + b)[|a| + x]) == k;
    }
  }

  /** A key past the cursor is on the page or past the next cursor. */
  lemma OnPageOrLater<T>(items: seq<T>, page: Page, key: T -> SortKey, k: SortKey)
    requires Ascending(items, key) && HasKey(items, k, key) && PastCursor(page.cursor, k)
    ensures HasKey(PageItems(items, page, key), k, key) ||
            (PageNext(items, page, key).Some? && PastCursor(PageNext(items, page, key), k))
  {
    var x :| 0 <= x < |items| && key(items[x]) == k;
    var n := RemainingIsSuffix(items, page.cursor, key);
    var first, next := PageItems(items, page, key), PageNext(items, page, key);
    if x - n < |first| {
      assert key(first[x - n]) == k;
    } else {
      assert next.value == key(items[n + Clamped(page.limit) - 1]);
    }
  }

  predicate OnlyAt<T>(items: seq<T>, k: SortKey, key: T -> SortKey, a: int) {
    && 0 <= a < |items| && key(items[a]) == k
    && forall b :: 0 <= b < |items| && key(items[b]) == k ==> b == a
  }

  ghost predicate HasOnce<T>(items: seq<T>, k: SortKey, key: T -> SortKey) {
    exists a :: OnlyAt(items, k, key, a)
  }

  /** ... and exactly once. */
  lemma ReturnedOnce<T>(snapshots: seq<seq<T>>, limits: seq<nat>, key: T -> SortKey, k: SortKey)
    requires |limits| == |snapshots|
    requires forall n :: 0 <= n < |snapshots| ==> Ascending(snapshots[n], key) && HasKey(snapshots[n], k, key)
    requires Finished(snapshots, limits, None, key)
    ensures HasOnce(Received(snapshots, limits, None, key), k, key)
  {
    NothingReturnedTwice(snapshots, limits, None, key);
    NothingSkipped(snapshots, limits, None, key, k);
    OnceWhenAscending(Received(snapshots, limits, None, key), k, key);
  }

  lemma OnceWhenAscending<T>(items: seq<T>, k: SortKey, key: T -> SortKey)
    requires Ascending(items, key) && HasKey(items, k, key)
    ensures HasOnce(items, k, key)
  {
    var a :| 0 <= a < |items| && key(items[a]) == k;
    KeyLessIrreflexive(k);
    assert OnlyAt(items, k, key, a);
  }

  predicate Unchanging<T(==)>(snapshots: seq<seq<T>>, items: seq<T>) {
    forall k :: 0 <= k < |snapshots| ==> snapshots[k] == items
  }

  /** The first page and the rest. */
  lemma OnePageMore<T>(items: seq<T>, snapshots: seq<seq<T>>, limits: seq<nat>, cursor: Option<SortKey>,
                       key: T -> SortKey)
    requires |limits| == |snapshots| > 0 && snapshots[0] == items
    ensures var page := Page(limits[0], cursor);
            var next := PageNext(items, page, key);
            && Received(snapshots, limits, cursor, key) == PageItems(items, page, key) +
               (if next.None? then [] else Received(snapshots[1..], limits[1..], next, key))
            && (Finished(snapshots, limits, cursor, key) <==>
                next.None? || Finished(snapshots[1..], limits[1..], next, key))
  {
  }

  /** Over a list that stays as it is, the pages put together are the list past the cursor. */
  lemma {:induction false} PagesConcatenate<T>(items: seq<T>, snapshots: seq<seq<T>>, limits: seq<nat>,
                                               cursor: Option<SortKey>, key: T -> SortKey)
    requires |limits| == |snapshots| && Ascending(items, key) && Unchanging(snapshots, items)
    requires |snapshots| > |Remaining(items, cursor, key)|
    ensures Received(snapshots, limits, cursor, key) == Remaining(items, cursor, key)
    ensures Finished(snapshots, limits, cursor, key)
  {
    var next := PageNext(items, Page(limits[0], cursor), key);
    OnePageMore(items, snapshots, limits, cursor, key);
    if next.Some? {
      PageThenRest(items, cursor, key, limits[0]);
      PagesConcatenate(items, snapshots[1..], limits[1..], next, key);
    }
  }

  lemma PageThenRest<T>(items: seq<T>, cursor: Option<SortKey>, key: T -> SortKey, limit: nat)
    requires Ascending(items, key) && PageNext(items, Page(limit, cursor), key).Some?
    ensures var page := Page(limit, cursor);
            var rest := Remaining(items, PageNext(items, page, key), key);
            && PageItems(items, page, key) + rest == Remaining(items, cursor, key)
            && |rest| < |Remaining(items, cursor, key)|
  {
    RemainingAfter(items, cursor, key, Clamped(limit));
  }

  /** A client that starts without a cursor on an unchanging list gets that list, page by page. */
  lemma WholeListIsPaged<T>(items: seq<T>, snapshots: seq<seq<T>>, limits: seq<nat>, key: T -> SortKey)
    requires |limits| == |snapshots| && Ascending(items, key) && |snapshots| > |items|
    requires Unchanging(snapshots, items)
    ensures Received(snapshots, limits, None, key) == items && Finished(snapshots, limits, None, key)
  {
    AllRemain(items, None, key);
    PagesConcatenate(items, snapshots, limits, None, key);
  }

  /** Moving the cursor to the last kept key drops exactly the kept items. */
  lemma RemainingAfter<T>(items: seq<T>, cursor: Option<SortKey>, key: T -> SortKey, limit: nat)
    requires Ascending(items, key) && 1 <= limit < |Remaining(items, cursor, key)|
    ensures var rest := Remaining(items, cursor, key);
            Remaining(items, Some(key(rest[limit - 1])), key) == rest[limit..]
  {
    var n := RemainingIsSuffix(items, cursor, key);
    var k := key(items[n + limit - 1]);
    var m := RemainingIsSuffix(items, Some(k), key);
    KeyLessIrreflexive(k);
    assert !PastCursor(Some(k), key(items[n + limit - 1])) && PastCursor(Some(k), key(items[n + limit]));
    assert m == n + limit;
  }
}
