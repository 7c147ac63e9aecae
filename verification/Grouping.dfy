/** Neighbor rows, one per edge, gathered into one entry per node. */
module Grouping {
  import opened Wrappers
  import opened GraphModel
  import opened SortKeys
  import opened Paging

  /** A joined row: the node on the other end of an edge and where the edge occurs. */
  datatype Neighbor = Neighbor(id: Id, node: Node, site: Option<Site>)

  datatype Group = Group(id: Id, node: Node, sites: seq<Site>)

  function RowKey(n: Neighbor): SortKey {
    KeyOfNode(n.node)
  }

  function GroupKey(g: Group): SortKey {
    KeyOfNode(g.node)
  }

  /** `None` first, then by (uri, line, col). */
  predicate SiteLess(a: Option<Site>, b: Option<Site>) {
    b.Some? &&
    (a.None? ||
     var x, y := a.value, b.value;
     || StringLess(x.uri, y.uri)
     || (x.uri == y.uri && (x.range.startLine < y.range.startLine
                            || (x.range.startLine == y.range.startLine && x.range.startCol < y.range.startCol))))
  }

  predicate RowLess(a: Neighbor, b: Neighbor) {
    KeyLess(RowKey(a), RowKey(b)) || (RowKey(a) == RowKey(b) && SiteLess(a.site, b.site))
  }

  // ----- stable sort by (node key, site key) -----

  function InsertRow(r: Neighbor, rows: seq<Neighbor>): seq<Neighbor> {
    if rows == [] || !RowLess(rows[0], r) then [r] + rows
    else [rows[0]] + InsertRow(r, rows[1..])
  }

  function SortRows(rows: seq<Neighbor>): seq<Neighbor> {
    if rows == [] then [] else InsertRow(rows[0], SortRows(rows[1..]))
  }

  /** Node keys never go down, and rows of one node are ordered by site. */
  predicate RowsSorted(rows: seq<Neighbor>) {
    forall a, b :: 0 <= a < b < |rows| ==> !RowLess(rows[b], rows[a])
  }

  lemma SiteLessAsymmetric(a: Option<Site>, b: Option<Site>)
    ensures !(SiteLess(a, b) && SiteLess(b, a))
  {
    if a.Some? && b.Some? {
      StringLessIrreflexive(a.value.uri);
      if StringLess(a.value.uri, b.value.uri) && StringLess(b.value.uri, a.value.uri) {
        StringLessTransitive(a.value.uri, b.value.uri, a.value.uri);
      }
    }
  }

  lemma RowLessAsymmetric(a: Neighbor, b: Neighbor)
    requires RowLess(a, b)
    ensures !RowLess(b, a)
  {
    KeyLessTotal(RowKey(a), RowKey(b));
    SiteLessAsymmetric(a.site, b.site);
  }

  /** `c` not below `b` and `b` not below `a` put `c` not below `a`. */
  lemma NotLessTransitive(a: Neighbor, b: Neighbor, c: Neighbor)
    requires !RowLess(b, a) && !RowLess(c, b)
    ensures !RowLess(c, a)
  {
    KeyLessTotal(RowKey(a), RowKey(b));
    KeyLessTotal(RowKey(b), RowKey(c));
    KeyLessTotal(RowKey(a), RowKey(c));
    if KeyLess(RowKey(a), RowKey(b)) && KeyLess(RowKey(b), RowKey(c)) {
      KeyLessTransitive(RowKey(a), RowKey(b), RowKey(c));
    }
    if RowKey(a) == RowKey(b) == RowKey(c) { SiteNotLessTransitive(a.site, b.site, c.site); }
  }

  lemma SiteNotLessTransitive(a: Option<Site>, b: Option<Site>, c: Option<Site>)
    requires !SiteLess(b, a) && !SiteLess(c, b)
    ensures !SiteLess(c, a)
  {
    if a.Some? && b.Some? && c.Some? {
      var x, y, z := a.value.uri, b.value.uri, c.value.uri;
      StringLessTotal(x, y);
      StringLessTotal(y, z);
      StringLessIrreflexive(x);
      StringLessIrreflexive(y);
      if StringLess(x, y) && StringLess(y, z) { StringLessTransitive(x, y, z); }
      if StringLess(x, z) && StringLess(z, x) { StringLessTransitive(x, z, x); }
    }
  }

  lemma {:induction false} InsertRowSorts(r: Neighbor, rows: seq<Neighbor>)
    requires RowsSorted(rows)
    ensures RowsSorted(InsertRow(r, rows)) && multiset(InsertRow(r, rows)) == multiset(rows) + multiset{r}
  {
    if rows == [] {
    } else if !RowLess(rows[0], r) {
      assert [r] + rows == InsertRow(r, rows);
      forall b | 0 <= b < |rows|
        ensures !RowLess(rows[b], r)
      {
        if b > 0 { NotLessTransitive(r, rows[0], rows[b]); }
      }
    } else {
      var tail := InsertRow(r, rows[1..]);
      InsertRowSorts(r, rows[1..]);
      assert rows == [rows[0]] + rows[1..];
      RowLessAsymmetric(rows[0], r);
      forall b | 0 <= b < |tail|
        ensures !RowLess(tail[b], rows[0])
      {
        assert tail[b] in multiset(tail);
        if tail[b] != r {
          assert tail[b] in rows[1..];
        }
      }
    }
  }

  lemma {:induction false} SortRowsSorts(rows: seq<Neighbor>)
    ensures RowsSorted(SortRows(rows)) && multiset(SortRows(rows)) == multiset(rows)
  {
    if rows != [] {
      SortRowsSorts(rows[1..]);
      InsertRowSorts(rows[0], SortRows(rows[1..]));
      assert rows == [rows[0]] + rows[1..];
    }
  }

  // ----- grouping -----

  /** The located occurrences of the node with key `k`, in row order. */
  function SitesOf(rows: seq<Neighbor>, k: SortKey): seq<Site> {
    if rows == [] then []
    else
      var last := rows[|rows| - 1];
      SitesOf(rows[..|rows| - 1], k) + (if RowKey(last) == k then Located(last) else [])
  }

  function Located(n: Neighbor): seq<Site> {
    if n.site.Some? then [n.site.value] else []
  }

  predicate GroupsAscending(groups: seq<Group>) {
    forall a, b :: 0 <= a < b < |groups| ==> KeyLess(GroupKey(groups[a]), GroupKey(groups[b]))
  }

  /** `groups` is `rows` gathered: strictly ascending, one entry per node key, every site kept in order. */
  ghost predicate Gathers(rows: seq<Neighbor>, groups: seq<Group>) {
    && GroupsAscending(groups)
    && (forall g :: 0 <= g < |groups| ==> Correct(rows, groups[g]))
    && (forall r :: 0 <= r < |rows| ==> HasGroup(groups, RowKey(rows[r])))
  }

  predicate Correct(rows: seq<Neighbor>, g: Group) {
    FromRow(rows, g) && g.sites == SitesOf(rows, GroupKey(g))
  }

  predicate FromRow(rows: seq<Neighbor>, g: Group) {
    exists r :: 0 <= r < |rows| && rows[r].id == g.id && rows[r].node == g.node
  }

  predicate HasGroup(groups: seq<Group>, k: SortKey) {
    exists g :: 0 <= g < |groups| && GroupKey(groups[g]) == k
  }

  method GroupByNode(neighbors: seq<Neighbor>) returns (groups: seq<Group>)
    ensures Gathers(SortRows(neighbors), groups)
  {
    var rows := SortRows(neighbors);
    SortRowsSorts(neighbors);
    groups := [];
    for r := 0 to |rows|
      invariant Gathers(rows[..r], groups)
      invariant EndsWith(groups, rows[..r])
    {
      var n := rows[r];
      GatherStep(rows, r, groups);
      if groups != [] && GroupKey(groups[|groups| - 1]) == RowKey(n) {
        var last := groups[|groups| - 1];
        groups := groups[|groups| - 1 := last.(sites := last.sites + Located(n))];
      } else {
        groups := groups + [Group(n.id, n.node, Located(n))];
      }
    }
    assert rows[..|rows|] == rows;
  }

  /** The last entry belongs to the last row. */
  predicate EndsWith(groups: seq<Group>, rows: seq<Neighbor>) {
    if rows == [] then groups == []
    else groups != [] && GroupKey(groups[|groups| - 1]) == RowKey(rows[|rows| - 1])
  }

  lemma GatherStep(rows: seq<Neighbor>, r: nat, groups: seq<Group>)
    requires RowsSorted(rows) && r < |rows|
    requires Gathers(rows[..r], groups) && EndsWith(groups, rows[..r])
    ensures var n, last := rows[r], |groups| - 1;
            var after := if groups != [] && GroupKey(groups[last]) == RowKey(n)
                         then groups[last := groups[last].(sites := groups[last].sites + Located(n))]
                         else groups + [Group(n.id, n.node, Located(n))];
            Gathers(rows[..r + 1], after) && EndsWith(after, rows[..r + 1])
  {
    var n := rows[r];
    assert rows[..r + 1] == rows[..r] + [n];
    if groups != [] && GroupKey(groups[|groups| - 1]) == RowKey(n) {
      GatherSame(rows[..r], n, groups);
    } else {
      if r > 0 {
        KeyLessTotal(RowKey(rows[r - 1]), RowKey(n));
        assert !RowLess(rows[r], rows[r - 1]);
      }
      GatherNew(rows[..r], n, groups);
    }
  }

  lemma SitesAppend(rows: seq<Neighbor>, n: Neighbor, k: SortKey)
    ensures SitesOf(rows + [n], k) == SitesOf(rows, k) + (if RowKey(n) == k then Located(n) else [])
  {
    assert (rows + [n])[..|rows + [n]| - 1] == rows;
  }

  lemma FromRowGrows(rows: seq<Neighbor>, n: Neighbor, g: Group)
    requires FromRow(rows, g)
    ensures FromRow(rows + [n], g)
  {
    var r :| 0 <= r < |rows| && rows[r].id == g.id && rows[r].node == g.node;
    assert (rows + [n])[r] == rows[r];
  }

  lemma CorrectGrows(rows: seq<Neighbor>, n: Neighbor, g: Group)
    requires Correct(rows, g)
    ensures GroupKey(g) != RowKey(n) ==> Correct(rows + [n], g)
    ensures GroupKey(g) == RowKey(n) ==> Correct(rows + [n], g.(sites := g.sites + Located(n)))
  {
    SitesAppend(rows, n, GroupKey(g));
    FromRowGrows(rows, n, g);
    FromRowGrows(rows, n, g.(sites := g.sites + Located(n)));
  }

  lemma GatherSame(rows: seq<Neighbor>, n: Neighbor, groups: seq<Group>)
    requires Gathers(rows, groups) && groups != [] && GroupKey(groups[|groups| - 1]) == RowKey(n)
    ensures var last := groups[|groups| - 1];
            Gathers(rows + [n], groups[|groups| - 1 := last.(sites := last.sites + Located(n))])
  {
    var k := |groups| - 1;
    var after := groups[k := groups[k].(sites := groups[k].sites + Located(n))];
    KeyLessIrreflexive(RowKey(n));
    SameKeysAscend(groups, after);
    forall g | 0 <= g < |after|
      ensures Correct(rows + [n], after[g])
    {
      CorrectGrows(rows, n, groups[g]);
    }
    assert GroupKey(after[k]) == RowKey(n);
    HasGroupsKept(rows, n, groups, after);
  }

  lemma SameKeysAscend(groups: seq<Group>, after: seq<Group>)
    requires GroupsAscending(groups) && |after| == |groups|
    requires forall g :: 0 <= g < |groups| ==> GroupKey(after[g]) == GroupKey(groups[g])
    ensures GroupsAscending(after)
  {
  }

  lemma HasGroupsKept(rows: seq<Neighbor>, n: Neighbor, groups: seq<Group>, after: seq<Group>)
    requires forall r :: 0 <= r < |rows| ==> HasGroup(groups, RowKey(rows[r]))
    requires |after| >= |groups| && forall g :: 0 <= g < |groups| ==> GroupKey(after[g]) == GroupKey(groups[g])
    requires HasGroup(after, RowKey(n))
    ensures forall r :: 0 <= r < |rows + [n]| ==> HasGroup(after, RowKey((rows + [n])[r]))
  {
    forall r | 0 <= r < |rows + [n]|
      ensures HasGroup(after, RowKey((rows + [n])[r]))
    {
      if r < |rows| {
        assert HasGroup(groups, RowKey(rows[r]));
        var g :| 0 <= g < |groups| && GroupKey(groups[g]) == RowKey(rows[r]);
        assert GroupKey(after[g]) == RowKey(rows[r]);
      }
    }
  }

  lemma GatherNew(rows: seq<Neighbor>, n: Neighbor, groups: seq<Group>)
    requires Gathers(rows, groups)
    requires groups != [] ==> KeyLess(GroupKey(groups[|groups| - 1]), RowKey(n))
    ensures Gathers(rows + [n], groups + [Group(n.id, n.node, Located(n))])
  {
    var after := groups + [Group(n.id, n.node, Located(n))];
    KeyIsLargest(groups, RowKey(n));
    NoSitesYet(rows, groups, RowKey(n));
    forall g | 0 <= g < |after|
      ensures Correct(rows + [n], after[g])
    {
      if g < |groups| {
        CorrectGrows(rows, n, groups[g]);
      } else {
        SitesAppend(rows, n, RowKey(n));
        assert (rows + [n])[|rows|] == n;
      }
    }
    assert GroupKey(after[|groups|]) == RowKey(n);
    HasGroupsKept(rows, n, groups, after);
  }

  lemma KeyIsLargest(groups: seq<Group>, k: SortKey)
    requires GroupsAscending(groups)
    requires groups != [] ==> KeyLess(GroupKey(groups[|groups| - 1]), k)
    ensures forall g :: 0 <= g < |groups| ==> KeyLess(GroupKey(groups[g]), k) && GroupKey(groups[g]) != k
  {
    KeyLessIrreflexive(k);
    forall g | 0 <= g < |groups|
      ensures KeyLess(GroupKey(groups[g]), k)
    {
      if g < |groups| - 1 { KeyLessTransitive(GroupKey(groups[g]), GroupKey(groups[|groups| - 1]), k); }
    }
  }

  lemma {:induction false} NoSitesYet(rows: seq<Neighbor>, groups: seq<Group>, k: SortKey)
    requires forall r :: 0 <= r < |rows| ==> HasGroup(groups, RowKey(rows[r]))
    requires forall g :: 0 <= g < |groups| ==> GroupKey(groups[g]) != k
    ensures SitesOf(rows, k) == []
  {
    if rows != [] {
      assert HasGroup(groups, RowKey(rows[|rows| - 1]));
      assert forall r :: 0 <= r < |rows| - 1 ==> rows[..|rows| - 1][r] == rows[r];
      NoSitesYet(rows[..|rows| - 1], groups, k);
    }
  }

  // ----- no site is lost by sorting -----

  /** The sites gathered under a key are those of the rows with that key. */
  lemma {:induction false} SitesOfMeans(rows: seq<Neighbor>, k: SortKey, site: Site)
    ensures site in SitesOf(rows, k) <==>
              exists r :: 0 <= r < |rows| && RowKey(rows[r]) == k && rows[r].site == Some(site)
  {
    if rows != [] {
      var n := |rows| - 1;
      SitesOfMeans(rows[..n], k, site);
      assert forall r :: 0 <= r < n ==> rows[..n][r] == rows[r];
    }
  }

  lemma {:induction false} SitesOfJoin(a: seq<Neighbor>, b: seq<Neighbor>, k: SortKey)
    ensures SitesOf(a + b, k) == SitesOf(a, k) + SitesOf(b, k)
  {
    if b == [] {
      assert a + b == a;
    } else {
      assert (a + b)[..|a + b| - 1] == a + b[..|b| - 1];
      SitesOfJoin(a, b[..|b| - 1], k);
    }
  }

  lemma {:induction false} InsertKeepsSites(r: Neighbor, rows: seq<Neighbor>, k: SortKey)
    ensures multiset(SitesOf(InsertRow(r, rows), k)) == multiset(SitesOf([r] + rows, k))
  {
    if rows != [] && RowLess(rows[0], r) {
      var tail := InsertRow(r, rows[1..]);
      InsertKeepsSites(r, rows[1..], k);
      SwapHeads(r, rows[0], rows[1..], tail, k);
      assert rows == [rows[0]] + rows[1..];
    }
  }

  lemma SwapHeads(r: Neighbor, h: Neighbor, rest: seq<Neighbor>, tail: seq<Neighbor>, k: SortKey)
    requires multiset(SitesOf(tail, k)) == multiset(SitesOf([r] + rest, k))
    ensures multiset(SitesOf([h] + tail, k)) == multiset(SitesOf([r] + ([h] + rest), k))
  {
    SitesOfJoin([h], tail, k);
    SitesOfJoin([r], rest, k);
    SitesOfJoin([r], [h] + rest, k);
    SitesOfJoin([h], rest, k);
  }

  lemma {:induction false} SortKeepsSites(rows: seq<Neighbor>, k: SortKey)
    ensures multiset(SitesOf(SortRows(rows), k)) == multiset(SitesOf(rows, k))
  {
    if rows != [] {
      SortKeepsSites(rows[1..], k);
      InsertKeepsSites(rows[0], SortRows(rows[1..]), k);
      SitesOfJoin([rows[0]], SortRows(rows[1..]), k);
      SitesOfJoin([rows[0]], rows[1..], k);
      assert rows == [rows[0]] + rows[1..];
    }
  }

  /** Every neighbor has exactly one entry, and that entry holds exactly its located sites. */
  lemma GroupingLosesNothing(neighbors: seq<Neighbor>, groups: seq<Group>, r: nat)
    requires Gathers(SortRows(neighbors), groups) && r < |neighbors|
    ensures exists g :: && EntryFor(groups, g, RowKey(neighbors[r]))
                        && multiset(groups[g].sites) == multiset(SitesOf(neighbors, RowKey(neighbors[r])))
  {
    var rows, k := SortRows(neighbors), RowKey(neighbors[r]);
    SortRowsSorts(neighbors);
    SortKeepsSites(neighbors, k);
    assert neighbors[r] in multiset(rows);
    var q :| 0 <= q < |rows| && rows[q] == neighbors[r];
    assert HasGroup(groups, RowKey(rows[q]));
    var g :| 0 <= g < |groups| && GroupKey(groups[g]) == k;
    forall h | 0 <= h < |groups| && GroupKey(groups[h]) == k
      ensures h == g
    {
      KeyLessIrreflexive(k);
    }
    assert EntryFor(groups, g, k);
  }

  /** `g` is the one entry with key `k`. */
  predicate EntryFor(groups: seq<Group>, g: int, k: SortKey) {
    && 0 <= g < |groups| && GroupKey(groups[g]) == k
    && forall h :: 0 <= h < |groups| && GroupKey(groups[h]) == k ==> h == g
  }

  predicate SitesSorted(sites: seq<Site>) {
    forall a, b :: 0 <= a < b < |sites| ==> !SiteLess(Some(sites[b]), Some(sites[a]))
  }

  lemma {:induction false} SitesOfOrdered(rows: seq<Neighbor>, k: SortKey)
    requires RowsSorted(rows)
    ensures SitesSorted(SitesOf(rows, k))
  {
    if rows != [] {
      var n, last := |rows| - 1, rows[|rows| - 1];
      SitesOfOrdered(rows[..n], k);
      var sites := SitesOf(rows[..n], k);
      forall a | 0 <= a < |sites| && last.site.Some? && RowKey(last) == k
        ensures !SiteLess(last.site, Some(sites[a]))
      {
        SitesOfMeans(rows[..n], k, sites[a]);
        var r :| 0 <= r < n && RowKey(rows[..n][r]) == k && rows[..n][r].site == Some(sites[a]);
        assert !RowLess(rows[n], rows[r]);
      }
    }
  }

  /** The sites of an entry are in order: by uri, then line, then column. */
  lemma SitesInOrder(neighbors: seq<Neighbor>, groups: seq<Group>, g: nat, a: nat, b: nat)
    requires Gathers(SortRows(neighbors), groups) && g < |groups| && a < b < |groups[g].sites|
    ensures var x, y := groups[g].sites[a], groups[g].sites[b];
            if x.uri != y.uri then Precedes(x.uri, y.uri)
            else || x.range.startLine < y.range.startLine
                 || (x.range.startLine == y.range.startLine && x.range.startCol <= y.range.startCol)
  {
    SortRowsSorts(neighbors);
    SitesOfOrdered(SortRows(neighbors), GroupKey(groups[g]));
    assert Correct(SortRows(neighbors), groups[g]);
    var sites := SitesOf(SortRows(neighbors), GroupKey(groups[g]));
    var x, y := sites[a], sites[b];
    assert !SiteLess(Some(y), Some(x));
    StringLessTotal(x.uri, y.uri);
    StringLessMeans(x.uri, y.uri);
  }

  // ----- listing: group, filter, paginate -----

  function Kept(groups: seq<Group>, filter: Node -> bool): seq<Group> {
    if groups == [] then []
    else (if filter(groups[0].node) then [groups[0]] else []) + Kept(groups[1..], filter)
  }

  lemma {:induction false} KeptAscends(groups: seq<Group>, filter: Node -> bool)
    requires GroupsAscending(groups)
    ensures Ascending(Kept(groups, filter), GroupKey)
    ensures forall x :: x in Kept(groups, filter) <==> x in groups && filter(x.node)
    ensures |Kept(groups, filter)| <= |groups|
  {
    if groups != [] {
      KeptAscends(groups[1..], filter);
      var tail := Kept(groups[1..], filter);
      assert groups == [groups[0]] + groups[1..];
      forall b | 0 <= b < |tail|
        ensures KeyLess(GroupKey(groups[0]), GroupKey(tail[b]))
      {
        assert tail[b] in groups[1..];
      }
    }
  }

  /** Over a fixed neighbor list, the pages put together are the filtered groups, in order. */
  lemma ListingIsPaged(neighbors: seq<Neighbor>, groups: seq<Group>, filter: Node -> bool,
                       snapshots: seq<seq<Group>>, limits: seq<nat>)
    requires Gathers(SortRows(neighbors), groups)
    requires |limits| == |snapshots| && |snapshots| > |groups|
    requires forall k :: 0 <= k < |snapshots| ==> snapshots[k] == Kept(groups, filter)
    ensures Received(snapshots, limits, None, GroupKey) == Kept(groups, filter)
    ensures Finished(snapshots, limits, None, GroupKey)
  {
    KeptAscends(groups, filter);
    WholeListIsPaged(Kept(groups, filter), snapshots, limits, GroupKey);
  }
}
