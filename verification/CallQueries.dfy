/** `find_callees`: bring one symbol's callees up to date if need be, then list them page by page. */
module CallQueries {
  import opened Wrappers
  import opened GraphModel
  import opened GraphStore
  import opened SortKeys
  import opened Grouping
  import opened Paging
  import opened CallRefresh
  import opened CallPath

  ghost predicate CalledAt(nodes: map<Id, Node>, edges: map<Id, Edge>, v: Id, w: Id, site: Site) {
    exists e :: e in edges && CallFrom(nodes, edges, v, e) && edges[e].dst == w && edges[e].site == Some(site)
  }

  ghost predicate SitesAre(nodes: map<Id, Node>, edges: map<Id, Edge>, v: Id, g: Group) {
    forall site :: site in g.sites <==> CalledAt(nodes, edges, v, g.id, site)
  }

  /** What a page of callees is cut from: one entry per callee passing the filter, with all its call
      sites, ascending. */
  ghost predicate CalleeListing(nodes: map<Id, Node>, edges: map<Id, Edge>, v: Id, filter: Node -> bool,
                                listing: seq<Group>) {
    && Ascending(listing, GroupKey)
    && (forall g :: g in listing ==> g.id in nodes && g.node == nodes[g.id] && SitesAre(nodes, edges, v, g))
    && (forall a, b :: 0 <= a < b < |listing| ==> listing[a].id != listing[b].id)
    && (forall w :: HasEntry(listing, w) <==> w in Callees(nodes, edges, v) && w in nodes && filter(nodes[w]))
  }

  ghost predicate HasEntry(listing: seq<Group>, w: Id) {
    exists g :: g in listing && g.id == w
  }

  lemma GroupsCarryNodes(nodes: map<Id, Node>, edges: map<Id, Edge>, v: Id, rows: seq<Neighbor>, groups: seq<Group>)
    requires forall r :: 0 <= r < |rows| ==> NeighborRow(nodes, edges, v, rows[r])
    requires multiset(SortRows(rows)) == multiset(rows)
    requires forall g :: 0 <= g < |groups| ==> Correct(SortRows(rows), groups[g])
    ensures forall g :: g in groups ==> g.id in nodes && g.node == nodes[g.id]
  {
    SortedRowsAreRows(nodes, edges, v, rows, SortRows(rows));
    forall g | g in groups
      ensures g.id in nodes && g.node == nodes[g.id]
    {
      GroupCarriesItsNode(nodes, edges, v, SortRows(rows), g);
    }
  }

  lemma KeptListsCallees(nodes: map<Id, Node>, edges: map<Id, Edge>, v: Id, groups: seq<Group>, ids: seq<Id>,
                         filter: Node -> bool)
    requires GroupsAscending(groups)
    requires forall g :: g in groups ==> g.id in nodes && g.node == nodes[g.id] && SitesAre(nodes, edges, v, g)
    requires |ids| == |groups| && forall g :: 0 <= g < |groups| ==> ids[g] == groups[g].id
    requires forall w :: w in ids <==> w in Callees(nodes, edges, v)
    ensures CalleeListing(nodes, edges, v, filter, Kept(groups, filter))
  {
    var listing := Kept(groups, filter);
    KeptAscends(groups, filter);
    EntriesOfKept(nodes, groups, ids, filter, listing);
    DistinctKeysDistinctIds(nodes, listing);
  }

  lemma EntriesOfKept(nodes: map<Id, Node>, groups: seq<Group>, ids: seq<Id>, filter: Node -> bool, listing: seq<Group>)
    requires |ids| == |groups| && forall g :: 0 <= g < |groups| ==> ids[g] == groups[g].id
    requires forall g :: g in groups ==> g.id in nodes && g.node == nodes[g.id]
    requires forall g :: g in listing <==> g in groups && filter(g.node)
    ensures forall w :: HasEntry(listing, w) <==> w in ids && w in nodes && filter(nodes[w])
  {
    forall w | w in ids && w in nodes && filter(nodes[w])
      ensures HasEntry(listing, w)
    {
      var g :| 0 <= g < |ids| && ids[g] == w;
      assert groups[g] in groups && groups[g] in listing;
    }
    forall w | HasEntry(listing, w)
      ensures w in ids && w in nodes && filter(nodes[w])
    {
      var g :| g in listing && g.id == w;
      var k :| 0 <= k < |groups| && groups[k] == g;
      assert ids[k] == w;
    }
  }

  lemma GroupCarriesItsSites(nodes: map<Id, Node>, edges: map<Id, Edge>, v: Id, rows: seq<Neighbor>, g: Group)
    requires UniqueNodes(nodes) && g.id in nodes && g.node == nodes[g.id]
    requires forall r :: 0 <= r < |rows| ==> NeighborRow(nodes, edges, v, rows[r])
    requires forall e :: e in edges && CallFrom(nodes, edges, v, e) ==> HasRow(nodes, edges, rows, e)
    requires multiset(SortRows(rows)) == multiset(rows) && g.sites == SitesOf(SortRows(rows), GroupKey(g))
    ensures SitesAre(nodes, edges, v, g)
  {
    var sorted := SortRows(rows);
    SortedRowsAreRows(nodes, edges, v, rows, sorted);
    forall site
      ensures site in g.sites <==> CalledAt(nodes, edges, v, g.id, site)
    {
      SitesOfMeans(sorted, GroupKey(g), site);
      if site in g.sites {
        var r :| 0 <= r < |sorted| && RowKey(sorted[r]) == GroupKey(g) && sorted[r].site == Some(site);
        assert NeighborRow(nodes, edges, v, sorted[r]);
        assert Fits(nodes, g.id, nodes[g.id]);
      }
      if CalledAt(nodes, edges, v, g.id, site) {
        var e :| e in edges && CallFrom(nodes, edges, v, e) && edges[e].dst == g.id && edges[e].site == Some(site);
        assert HasRow(nodes, edges, rows, e);
        var p :| 0 <= p < |rows| && rows[p] == RowFor(nodes, edges[e]);
        assert rows[p] in multiset(sorted);
        var r :| 0 <= r < |sorted| && sorted[r] == rows[p];
      }
    }
  }

  lemma GroupCarriesItsNode(nodes: map<Id, Node>, edges: map<Id, Edge>, v: Id, sorted: seq<Neighbor>, g: Group)
    requires Correct(sorted, g)
    requires forall r :: 0 <= r < |sorted| ==> NeighborRow(nodes, edges, v, sorted[r])
    ensures g.id in nodes && g.node == nodes[g.id]
  {
    var r :| 0 <= r < |sorted| && sorted[r].id == g.id && sorted[r].node == g.node;
    assert NeighborRow(nodes, edges, v, sorted[r]);
  }

  lemma DistinctKeysDistinctIds(nodes: map<Id, Node>, listing: seq<Group>)
    requires Ascending(listing, GroupKey) && forall g :: g in listing ==> g.id in nodes && g.node == nodes[g.id]
    ensures forall a, b :: 0 <= a < b < |listing| ==> listing[a].id != listing[b].id
  {
    forall a, b | 0 <= a < b < |listing|
      ensures listing[a].id != listing[b].id
    {
      assert KeyLess(GroupKey(listing[a]), GroupKey(listing[b]));
      assert listing[a] in listing && listing[b] in listing;
      KeyLessIrreflexive(GroupKey(listing[a]));
    }
  }

  method FilterGroups(groups: seq<Group>, filter: Node -> bool) returns (kept: seq<Group>)
    ensures kept == Kept(groups, filter)
  {
    kept := [];
    ghost var all := Kept(groups, filter);
    assert groups[0..] == groups;
    for i := 0 to |groups|
      invariant kept + Kept(groups[i..], filter) == all
    {
      var g, rest := groups[i], groups[i + 1..];
      assert groups[i..] == [g] + rest;
      assert Kept([g] + rest, filter) == (if filter(g.node) then [g] else []) + Kept(rest, filter);
      if filter(g.node) {
        assert kept + ([g] + Kept(rest, filter)) == (kept + [g]) + Kept(rest, filter);
        kept := kept + [g];
      }
    }
  }

  method ReadCallsPage(engine: QueryEngine, anchor: Id, filter: Node -> bool, page: Page)
    returns (items: seq<Group>, next: Option<SortKey>, ghost listing: seq<Group>)
    requires engine.db.Valid()
    ensures CalleeListing(engine.db.nodes, engine.db.edges, anchor, filter, listing)
    ensures items == PageItems(listing, page, GroupKey) && next == PageNext(listing, page, GroupKey)
    ensures next.Some? ==> && items != []
                           && var last := items[|items| - 1].node;
                              next.value == SortKey(last.fqn, last.uri, last.range.startLine, last.range.startCol)
  {
    var rows := CallRows(engine.db, anchor);
    var groups := GroupByNode(rows);
    var kept := FilterGroups(groups, filter);
    listing := kept;
    SortRowsSorts(rows);
    ghost var ids := seq(|groups|, g requires 0 <= g < |groups| => groups[g].id);
    GroupsCarryNodes(engine.db.nodes, engine.db.edges, anchor, rows, groups);
    forall g | g in groups
      ensures SitesAre(engine.db.nodes, engine.db.edges, anchor, g)
    {
      GroupCarriesItsSites(engine.db.nodes, engine.db.edges, anchor, rows, g);
    }
    GroupsAreCallees(engine.db.nodes, engine.db.edges, anchor, rows, groups, ids);
    KeptListsCallees(engine.db.nodes, engine.db.edges, anchor, groups, ids, filter);
    items, next := Paginate(kept, page, GroupKey);
    CursorIsLast(listing, page);
  }

  lemma CursorIsLast(listing: seq<Group>, page: Page)
    ensures var items, next := PageItems(listing, page, GroupKey), PageNext(listing, page, GroupKey);
            next.Some? ==> items != [] && next.value == GroupKey(items[|items| - 1])
  {
  }

  /** A resolved anchor's callees are refreshed as one expansion with budget to spare would refresh them, then paged;
      an unresolved anchor has none. */
  method FindCallees(engine: QueryEngine, anchor: Option<Id>, filter: Node -> bool, page: Page, world: Option<World>)
    returns (items: seq<Group>, next: Option<SortKey>, timedOut: bool, ghost listing: seq<Group>)
    requires engine.db.Valid() && Resolved(anchor, engine.db.nodes)
    modifies engine.db`edges, engine.db`nextEdge, engine.db`calleesCache
    ensures engine.db.Valid()
    ensures anchor.None? ==> items == [] && next.None? && !timedOut && engine.db.View() == old(engine.db.View())
    ensures anchor.Some? ==>
              && CalleeListing(engine.db.nodes, engine.db.edges, anchor.value, filter, listing)
              && items == PageItems(listing, page, GroupKey) && next == PageNext(listing, page, GroupKey)
              && exists left: nat :: Expanded(old(engine.db.View()), engine.db.View(), anchor.value, world,
                                              engine.contentHash, 1, left, world.Some?)
    ensures anchor.Some? && world.Some?
            && Unvouched(old(engine.db.View()), anchor.value, world.value, engine.contentHash) ==>
              Callees(engine.db.nodes, engine.db.edges, anchor.value) ==
              AnsweredCallees(engine.db.nodes, anchor.value, world.value.server)
    ensures timedOut <==> && anchor.Some? && world.Some?
                          && Unvouched(old(engine.db.View()), anchor.value, world.value, engine.contentHash)
                          && RefreshTimedOut(engine.db.nodes, anchor.value, world.value.server)
  {
    timedOut := false;
    if anchor.None? {
      return [], None, false, [];
    }
    var db, v := engine.db, anchor.value;
    ghost var before := db.View();
    ghost var left: nat := 1;
    if world.Some? {
      var text := world.value.readText(db.nodes[v].uri);
      if !CacheIsFresh(db.View(), v, text, engine.contentHash) {
        left := 0;
        timedOut := RefreshCallees(engine, v, world.value, text);
      }
    }
    assert Expanded(before, db.View(), v, world, engine.contentHash, 1, left, world.Some?);
    items, next, listing := ReadCallsPage(engine, v, filter, page);
  }

  /** Callees are listed by fqn. */
  lemma CalleesListedByName(nodes: map<Id, Node>, edges: map<Id, Edge>, v: Id, filter: Node -> bool,
                            listing: seq<Group>, a: nat, b: nat)
    requires UniqueNodes(nodes) && CalleeListing(nodes, edges, v, filter, listing) && a < b < |listing|
    ensures Precedes(listing[a].node.fqn, listing[b].node.fqn)
  {
    var x, y := listing[a], listing[b];
    assert x in listing && y in listing;
    assert Fits(nodes, x.id, nodes[x.id]);
    assert KeyLess(GroupKey(x), GroupKey(y));
    KeyLessMeans(GroupKey(x), GroupKey(y));
  }

  /** Asked page after page while nothing changes, the tool hands out every callee that passes the
      filter, once. */
  lemma CalleesArriveOnce(nodes: map<Id, Node>, edges: map<Id, Edge>, v: Id, filter: Node -> bool, listing: seq<Group>,
                          snapshots: seq<seq<Group>>, limits: seq<nat>)
    requires CalleeListing(nodes, edges, v, filter, listing)
    requires |limits| == |snapshots| && |snapshots| > |listing|
    requires forall k :: 0 <= k < |snapshots| ==> snapshots[k] == listing
    ensures Finished(snapshots, limits, None, GroupKey)
    ensures var got := Received(snapshots, limits, None, GroupKey);
            && (forall w :: HasEntry(got, w) <==> w in Callees(nodes, edges, v) && w in nodes && filter(nodes[w]))
            && (forall a, b :: 0 <= a < b < |got| ==> got[a].id != got[b].id)
  {
    WholeListIsPaged(listing, snapshots, limits, GroupKey);
  }
}
