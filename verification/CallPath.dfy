/** Bounded breadth-first search for a call path, over a graph that the search itself
    refreshes node by node. */
module CallPath {
  import opened Wrappers
  import opened GraphModel
  import opened GraphStore
  import opened Grouping
  import opened SortKeys
  import opened CallRefresh

  /** The outside world during one expansion: the language server and the files. */
  datatype World = World(server: Server, readText: string -> Option<string>)

  ghost function Callees(nodes: map<Id, Node>, edges: map<Id, Edge>, v: Id): set<Id> {
    set e | e in edges && CallFrom(nodes, edges, v, e) :: edges[e].dst
  }

  /** The stored call graph. */
  ghost function CallGraph(nodes: map<Id, Node>, edges: map<Id, Edge>): map<Id, set<Id>> {
    map v | v in nodes :: Callees(nodes, edges, v)
  }

  // ----- expanding one node -----

  /** What the code takes for a cache hit. */
  predicate CacheIsFresh(db: Db, anchor: Id, text: Option<string>, hash: string -> string) {
    text.Some? && anchor in db.calleesCache && db.calleesCache[anchor] == hash(text.value)
  }

  /** What a language server's answer makes the callees of `v`. */
  ghost function AnsweredCallees(nodes: map<Id, Node>, v: Id, server: Server): set<Id>
    requires v in nodes
  {
    set k | k in AllCallKeys(nodes, v, server, Answered(nodes[v], server)) && k.dst in nodes && nodes[k.dst].valid ::
        k.dst
  }

  /** The callees of `v`, and of no other node, became what the server answered, and the hash of the file
      they were computed from was remembered if the file could be read. */
  ghost predicate CalleesRefreshed(before: Db, after: Db, v: Id, world: World, hash: string -> string)
    requires v in before.nodes
  {
    && after == before.(edges := after.edges, nextEdge := after.nextEdge, calleesCache := after.calleesCache)
    && Callees(after.nodes, after.edges, v) == AnsweredCallees(after.nodes, v, world.server)
    && (forall w :: w != v ==> Callees(after.nodes, after.edges, w) == Callees(before.nodes, before.edges, w))
    && after.calleesCache == (match world.readText(before.nodes[v].uri)
                              case None => before.calleesCache
                              case Some(text) => before.calleesCache[v := hash(text)])
  }

  /** Invalidate, materialize, and remember the file's hash if it could be read. */
  method RefreshCallees(engine: QueryEngine, v: Id, world: World, text: Option<string>) returns (timedOut: bool)
    requires engine.db.Valid() && v in engine.db.nodes && text == world.readText(engine.db.nodes[v].uri)
    modifies engine.db`edges, engine.db`nextEdge, engine.db`calleesCache
    ensures engine.db.Valid()
    ensures CalleesRefreshed(old(engine.db.View()), engine.db.View(), v, world, engine.contentHash)
    ensures timedOut <==> RefreshTimedOut(engine.db.nodes, v, world.server)
  {
    var db := engine.db;
    ghost var before, firstNew := db.edges, db.nextEdge;
    db.InvalidateOutgoingCalls(v);
    timedOut := engine.MaterializeCallEdges(v, world.server);
    OthersKeepTheirCallees(db.nodes, v, world.server, before, firstNew, db.edges, db.nextEdge);
    RefreshedCallees(db.nodes, v, world.server, before, firstNew, db.edges, db.nextEdge);
    if text.Some? {
      db.SetCalleesCacheHash(v, engine.contentHash(text.value));
    }
  }

  /** The cache cannot answer for `v`: its file cannot be read, or there is no cache row, or the row was computed from
      another text. */
  ghost predicate Unvouched(db: Db, v: Id, world: World, hash: string -> string)
    requires v in db.nodes
  {
    match world.readText(db.nodes[v].uri)
    case None => true
    case Some(text) => v !in db.calleesCache || db.calleesCache[v] != hash(text)
  }

  /** One expansion took `before` to `after`: it cost a unit, and changed something, only when the cache
      could not vouch for the file. */
  ghost predicate Expanded(before: Db, after: Db, v: Id, world: Option<World>, hash: string -> string,
                           remaining: nat, left: nat, usable: bool)
    requires v in before.nodes
  {
    && (world.None? ==> !usable && left == remaining)
    && (world.Some? ==>
          var cached := !Unvouched(before, v, world.value, hash);
          && (usable <==> cached || remaining > 0)
          && left == (if !cached && remaining > 0 then remaining - 1 else remaining))
    && (left == remaining ==> after == before)
    && (left != remaining ==> CalleesRefreshed(before, after, v, world.value, hash))
  }

  method ExpandOutgoingCalls(engine: QueryEngine, anchor: Id, world: Option<World>, remaining: nat)
    returns (usable: bool, timedOut: bool, left: nat)
    requires engine.db.Valid() && anchor in engine.db.nodes
    modifies engine.db`edges, engine.db`nextEdge, engine.db`calleesCache
    ensures engine.db.Valid()
    ensures Expanded(old(engine.db.View()), engine.db.View(), anchor, world, engine.contentHash, remaining, left,
                     usable)
    ensures timedOut <==> left != remaining && RefreshTimedOut(engine.db.nodes, anchor, world.value.server)
    ensures world.Some? && remaining > 0
            && Unvouched(old(engine.db.View()), anchor, world.value, engine.contentHash) ==>
              && usable && left == remaining - 1
              && Callees(engine.db.nodes, engine.db.edges, anchor) ==
                 AnsweredCallees(engine.db.nodes, anchor, world.value.server)
  {
    left, timedOut := remaining, false;
    if world.None? {
      return false, false, left;
    }
    var text := world.value.readText(engine.db.nodes[anchor].uri);
    if CacheIsFresh(engine.db.View(), anchor, text, engine.contentHash) {
      return true, false, left;
    }
    if remaining == 0 {
      return false, false, left;
    }
    left := remaining - 1;
    timedOut := RefreshCallees(engine, anchor, world.value, text);
    usable := true;
  }

  /** A cache row computed from `old` does not answer for a file that now reads `new`: the server is asked, its answer
      replaces the callees, and the row is computed anew. */
  lemma ChangedFileIsAskedAgain(before: Db, after: Db, v: Id, world: World, hash: string -> string, remaining: nat,
                                left: nat, usable: bool)
    requires v in before.nodes && remaining > 0 && hash("old") != hash("new")
    requires v in before.calleesCache && before.calleesCache[v] == hash("old")
    requires world.readText(before.nodes[v].uri) == Some("new")
    requires Expanded(before, after, v, Some(world), hash, remaining, left, usable)
    ensures usable && left == remaining - 1
    ensures Callees(after.nodes, after.edges, v) == AnsweredCallees(after.nodes, v, world.server)
    ensures v in after.calleesCache && after.calleesCache[v] == hash("new")
  {
    assert CalleesRefreshed(before, after, v, world, hash);
  }

  /** What a refresh at line 41, column 4 of `a.ts` leaves: the one callee of the server that knows only that place. */
  lemma RefreshFindsTheCallee(before: Db, after: Db, v: Id, callee: Id, call: OutgoingCall,
                              readText: string -> Option<string>, hash: string -> string)
    requires v in before.nodes && before.nodes[v].uri == "a.ts"
    requires before.nodes[v].sel.startLine == 41 && before.nodes[v].sel.startCol == 4
    requires Find(before.nodes, call.to) == Some(callee) && callee in before.nodes && before.nodes[callee].valid
    requires |call.fromRanges| == 1
    requires CalleesRefreshed(before, after, v, World(OneCallServer(call), readText), hash)
    ensures Callees(after.nodes, after.edges, v) == {callee}
  {
    OneCallIsFound(before.nodes, v, callee, call);
  }

  /** After a refresh the stored callees are the answered ones, no more and no fewer. */
  lemma RefreshedCallees(nodes: map<Id, Node>, anchor: Id, server: Server, before: map<Id, Edge>, firstNew: Id,
                         after: map<Id, Edge>, next: Id)
    requires anchor in nodes
    requires var calls := Answered(nodes[anchor], server);
             Tracked(CallsInvalidated(before, anchor), firstNew, KeysFor(nodes, anchor, server, calls), after, next)
    ensures Callees(nodes, after, anchor) == AnsweredCallees(nodes, anchor, server)
  {
    var wanted := AllCallKeys(nodes, anchor, server, Answered(nodes[anchor], server));
    forall w | w in Callees(nodes, after, anchor)
      ensures w in AnsweredCallees(nodes, anchor, server)
    {
      var e :| e in after && CallFrom(nodes, after, anchor, e) && after[e].dst == w;
      RefreshReplaces(nodes, anchor, server, before, firstNew, after, next, e);
      assert KeyOf(after[e]) in wanted;
    }
    forall w | w in AnsweredCallees(nodes, anchor, server)
      ensures w in Callees(nodes, after, anchor)
    {
      var k :| k in wanted && k.dst == w && w in nodes && nodes[w].valid;
      RefreshReplaces(nodes, anchor, server, before, firstNew, after, next, 0);
      var e :| e in after && KeyOf(after[e]) == k && after[e].valid;
      assert CallFrom(nodes, after, anchor, e);
    }
  }

  lemma OthersKeepTheirCallees(nodes: map<Id, Node>, anchor: Id, server: Server, before: map<Id, Edge>, firstNew: Id,
                               after: map<Id, Edge>, next: Id)
    requires anchor in nodes
    requires var calls := Answered(nodes[anchor], server);
             Tracked(CallsInvalidated(before, anchor), firstNew, KeysFor(nodes, anchor, server, calls), after, next)
    ensures forall v :: v != anchor ==> Callees(nodes, after, v) == Callees(nodes, before, v)
  {
    forall v | v != anchor
      ensures Callees(nodes, after, v) == Callees(nodes, before, v)
    {
      forall e
        ensures (e in after && CallFrom(nodes, after, v, e)) <==> (e in before && CallFrom(nodes, before, v, e))
        ensures e in before && e in after && CallFrom(nodes, before, v, e) ==> after[e].dst == before[e].dst
      {
        RefreshReplaces(nodes, anchor, server, before, firstNew, after, next, e);
      }
    }
  }

  /** The neighbor rows, as far as grouping cares. */
  method CallRows(db: Store, v: Id) returns (rows: seq<Neighbor>)
    requires db.Valid()
    ensures forall r :: 0 <= r < |rows| ==> NeighborRow(db.nodes, db.edges, v, rows[r])
    ensures forall e :: e in db.edges && CallFrom(db.nodes, db.edges, v, e) ==> HasRow(db.nodes, db.edges, rows, e)
  {
    ghost var from;
    rows, from := db.OutgoingCalls(v);
  }

  /** The distinct callees of a node, in listing order. */
  method CalleeList(engine: QueryEngine, v: Id) returns (callees: seq<Id>)
    requires engine.db.Valid()
    ensures forall w :: w in callees <==> w in Callees(engine.db.nodes, engine.db.edges, v)
    ensures forall w :: w in callees ==> w in engine.db.nodes
  {
    var db := engine.db;
    var rows := CallRows(db, v);
    var groups := GroupByNode(rows);
    SortRowsSorts(rows);
    callees := seq(|groups|, g requires 0 <= g < |groups| => groups[g].id);
    GroupsAreCallees(db.nodes, db.edges, v, rows, groups, callees);
  }

  lemma GroupsAreCallees(nodes: map<Id, Node>, edges: map<Id, Edge>, v: Id, rows: seq<Neighbor>, groups: seq<Group>,
                         callees: seq<Id>)
    requires UniqueNodes(nodes)
    requires forall r :: 0 <= r < |rows| ==> NeighborRow(nodes, edges, v, rows[r])
    requires forall e :: e in edges && CallFrom(nodes, edges, v, e) ==> HasRow(nodes, edges, rows, e)
    requires Gathers(SortRows(rows), groups) && multiset(SortRows(rows)) == multiset(rows)
    requires |callees| == |groups| && forall g :: 0 <= g < |groups| ==> callees[g] == groups[g].id
    ensures forall w :: w in callees <==> w in Callees(nodes, edges, v)
  {
    var sorted := SortRows(rows);
    SortedRowsAreRows(nodes, edges, v, rows, sorted);
    forall w | w in callees
      ensures w in Callees(nodes, edges, v)
    {
      var g :| 0 <= g < |groups| && callees[g] == w;
      GroupIsCallee(nodes, edges, v, sorted, groups[g]);
    }
    forall w | w in Callees(nodes, edges, v)
      ensures w in callees
    {
      var r := RowOfCallee(nodes, edges, v, rows, sorted, w);
      assert HasGroup(groups, RowKey(sorted[r]));
      var g :| 0 <= g < |groups| && GroupKey(groups[g]) == RowKey(sorted[r]);
      GroupOfNode(nodes, edges, v, sorted, groups[g], w);
    }
  }

  lemma GroupIsCallee(nodes: map<Id, Node>, edges: map<Id, Edge>, v: Id, sorted: seq<Neighbor>, g: Group)
    requires Correct(sorted, g)
    requires forall r :: 0 <= r < |sorted| ==> NeighborRow(nodes, edges, v, sorted[r])
    ensures g.id in Callees(nodes, edges, v)
  {
    var r :| 0 <= r < |sorted| && sorted[r].id == g.id && sorted[r].node == g.node;
    assert NeighborRow(nodes, edges, v, sorted[r]);
  }

  lemma SortedRowsAreRows(nodes: map<Id, Node>, edges: map<Id, Edge>, v: Id, rows: seq<Neighbor>, sorted: seq<Neighbor>)
    requires forall r :: 0 <= r < |rows| ==> NeighborRow(nodes, edges, v, rows[r])
    requires multiset(sorted) == multiset(rows)
    ensures forall r :: 0 <= r < |sorted| ==> NeighborRow(nodes, edges, v, sorted[r])
  {
    forall r | 0 <= r < |sorted|
      ensures NeighborRow(nodes, edges, v, sorted[r])
    {
      assert sorted[r] in multiset(sorted);
      assert sorted[r] in rows;
    }
  }

  lemma RowOfCallee(nodes: map<Id, Node>, edges: map<Id, Edge>, v: Id, rows: seq<Neighbor>, sorted: seq<Neighbor>,
                    w: Id) returns (r: nat)
    requires forall e :: e in edges && CallFrom(nodes, edges, v, e) ==> HasRow(nodes, edges, rows, e)
    requires multiset(sorted) == multiset(rows) && w in Callees(nodes, edges, v)
    ensures r < |sorted| && w in nodes && RowKey(sorted[r]) == KeyOfNode(nodes[w])
  {
    var e :| e in edges && CallFrom(nodes, edges, v, e) && edges[e].dst == w;
    assert HasRow(nodes, edges, rows, e);
    var q :| 0 <= q < |rows| && rows[q] == RowFor(nodes, edges[e]);
    assert rows[q] in multiset(sorted);
    r :| 0 <= r < |sorted| && sorted[r] == rows[q];
  }

  /** Equal keys mean equal fqns, and an fqn belongs to one row. */
  lemma GroupOfNode(nodes: map<Id, Node>, edges: map<Id, Edge>, v: Id, rows: seq<Neighbor>, g: Group, w: Id)
    requires UniqueNodes(nodes) && Correct(rows, g)
    requires forall r :: 0 <= r < |rows| ==> NeighborRow(nodes, edges, v, rows[r])
    requires w in nodes && GroupKey(g) == KeyOfNode(nodes[w])
    ensures g.id == w
  {
    var r :| 0 <= r < |rows| && rows[r].id == g.id && rows[r].node == g.node;
    assert NeighborRow(nodes, edges, v, rows[r]);
    assert Fits(nodes, w, nodes[w]);
  }

  // ----- paths -----

  type Graph = map<Id, set<Id>>

  ghost predicate Edge2(g: Graph, v: Id, w: Id) {
    v in g && w in g[v]
  }

  ghost predicate IsPath(g: Graph, path: seq<Id>, from: Id, to: Id) {
    && |path| > 0 && path[0] == from && path[|path| - 1] == to
    && (forall i :: 0 <= i < |path| - 1 ==> Edge2(g, path[i], path[i + 1]))
  }

  /** `from` reaches `to` in at most `hops` steps. */
  ghost predicate ReachableWithin(g: Graph, from: Id, to: Id, hops: nat) {
    exists path :: IsPath(g, path, from, to) && |path| - 1 <= hops
  }

  ghost predicate Reachable(g: Graph, from: Id, to: Id) {
    exists path :: IsPath(g, path, from, to)
  }

  ghost predicate IsShortest(g: Graph, path: seq<Id>, from: Id, to: Id) {
    IsPath(g, path, from, to) && forall other :: IsPath(g, other, from, to) ==> |path| <= |other|
  }

  // ----- the state of the search -----

  datatype Entry = Entry(id: Id, path: seq<Id>)

  /** Ghost account of the search: how far each visited node is, which nodes were expanded (`done`),
      which were set aside at the depth cap, and the entry last set aside. */
  datatype Search = Search(dist: map<Id, nat>, done: set<Id>, capped: set<Id>, far: Option<Entry>)

  ghost predicate Waiting(queue: seq<Entry>, v: Id) {
    exists q :: 0 <= q < |queue| && queue[q].id == v
  }

  /** The path of an entry is made of edges of expanded nodes, so later expansions cannot break it. */
  ghost predicate GoodEntry(s: Search, g: Graph, from: Id, cur: set<Id>, e: Entry) {
    && e.id in s.dist && IsPath(g, e.path, from, e.id) && |e.path| == s.dist[e.id] + 1
    && (forall i :: 0 <= i < |e.path| - 1 ==> e.path[i] in s.done + cur)
  }

  ghost predicate QueueOk(s: Search, g: Graph, from: Id, cur: set<Id>, queue: seq<Entry>, h: nat) {
    && (forall q :: 0 <= q < |queue| ==> GoodEntry(s, g, from, cur, queue[q]))
    && (forall q :: 0 <= q < |queue| ==> queue[q].id !in s.done && queue[q].id !in s.capped && queue[q].id !in cur)
    && (forall q :: 0 <= q < |queue| ==> h <= s.dist[queue[q].id] <= h + 1)
    && (forall a, b :: 0 <= a < b < |queue| ==>
        s.dist[queue[a].id] <= s.dist[queue[b].id] && queue[a].id != queue[b].id)
  }

  /** An expanded node's callees have all been visited, none is the goal, none is further than one step on. */
  ghost predicate Closed(s: Search, g: Graph, to: Id, v: Id)
    requires v in s.dist
  {
    v in g && forall w :: w in g[v] ==> w != to && w in s.dist && s.dist[w] <= s.dist[v] + 1
  }

  ghost predicate Sound(s: Search, g: Graph, from: Id, to: Id, depth: nat, cur: set<Id>, queue: seq<Entry>, h: nat) {
    && from in s.dist && s.dist[from] == 0 && to !in s.dist
    && s.dist.Keys <= g.Keys
    && QueueOk(s, g, from, cur, queue, h)
    && cur <= s.dist.Keys && s.done <= s.dist.Keys && s.capped <= s.dist.Keys && cur !! s.done
    && (forall v :: v in s.done ==> s.dist[v] <= h && s.dist[v] < depth && Closed(s, g, to, v))
    && (forall v :: v in s.capped ==> depth <= s.dist[v] <= h)
    && (forall v :: v in s.dist ==> v in s.done || v in s.capped || v in cur || Waiting(queue, v))
    && (forall v :: v in cur ==> s.dist[v] == h)
    && (forall v :: v in s.dist ==> s.dist[v] <= depth)
  }

  ghost function SetAside(s: Search, e: Entry): Search {
    s.(capped := s.capped + {e.id}, far := Some(e))
  }

  /** The entry last set aside still shows a node exactly at the cap. */
  ghost predicate FarEntry(s: Search, g: Graph, from: Id, depth: nat) {
    s.far.Some? ==> GoodEntry(s, g, from, {}, s.far.value) && |s.far.value.path| == depth + 1
  }

  lemma NotWaitingBelow(s: Search, queue: seq<Entry>, h: nat, v: Id)
    requires forall q :: 0 <= q < |queue| ==> queue[q].id in s.dist && h <= s.dist[queue[q].id]
    requires v in s.dist && s.dist[v] < h
    ensures !Waiting(queue, v)
  {
  }

  /** Along any path from the start, each node up to the frontier has been expanded on time. */
  lemma {:induction false} PathStaysInside(s: Search, g: Graph, from: Id, to: Id, depth: nat, cur: set<Id>,
                                           queue: seq<Entry>, h: nat,
                                           path: seq<Id>, goal: Id, k: nat)
    requires Sound(s, g, from, to, depth, cur, queue, h) && h <= depth
    requires IsPath(g, path, from, goal) && k < |path|
    requires k <= h || (queue == [] && cur == {} && (k <= depth || s.capped == {}))
    ensures path[k] in s.dist && s.dist[path[k]] <= k
  {
    if k > 0 {
      PathStaysInside(s, g, from, to, depth, cur, queue, h, path, goal, k - 1);
      var v := path[k - 1];
      assert Edge2(g, v, path[k]);
      if k <= h {
        NotWaitingBelow(s, queue, h, v);
      }
      assert v in s.done;
      assert Closed(s, g, to, v);
    }
  }

  lemma NotReachedSoFar(s: Search, g: Graph, from: Id, to: Id, depth: nat, cur: set<Id>, queue: seq<Entry>, h: nat,
                        path: seq<Id>)
    requires Sound(s, g, from, to, depth, cur, queue, h) && h <= depth
    requires IsPath(g, path, from, to)
    ensures |path| - 1 > h
  {
    if |path| - 1 <= h {
      PathStaysInside(s, g, from, to, depth, cur, queue, h, path, to, |path| - 1);
    }
  }

  /** The queue ran dry: nothing within the depth cap, and nothing at all if no node was set aside. */
  lemma SearchExhausted(s: Search, g: Graph, from: Id, to: Id, depth: nat, h: nat)
    requires Sound(s, g, from, to, depth, {}, [], h) && h <= depth
    ensures !ReachableWithin(g, from, to, depth)
    ensures s.capped == {} ==> !Reachable(g, from, to) && forall v :: Reachable(g, from, v) ==> v in s.done
  {
    if path :| IsPath(g, path, from, to) && |path| - 1 <= depth {
      PathStaysInside(s, g, from, to, depth, {}, [], h, path, to, |path| - 1);
    }
    if s.capped == {} {
      forall v | Reachable(g, from, v)
        ensures v in s.done
      {
        var path :| IsPath(g, path, from, v);
        PathStaysInside(s, g, from, to, depth, {}, [], h, path, v, |path| - 1);
      }
    }
  }

  lemma SearchStarts(g: Graph, from: Id, to: Id, depth: nat)
    requires from in g && from != to
    ensures Sound(Search(map[from := 0], {}, {}, None), g, from, to, depth, {}, [Entry(from, [from])], 0)
  {
    assert Waiting([Entry(from, [from])], from);
  }

  /** Take the head of the queue; the frontier moves up to its distance. */
  lemma SearchPops(s: Search, g: Graph, from: Id, to: Id, depth: nat, queue: seq<Entry>, h: nat)
    requires Sound(s, g, from, to, depth, {}, queue, h) && |queue| > 0
    ensures GoodEntry(s, g, from, {}, queue[0])
    ensures forall q :: 0 <= q < |queue| - 1 ==> GoodEntry(s, g, from, {}, queue[1..][q])
    ensures var v := queue[0].id;
            v in g.Keys - s.done - s.capped && s.dist[v] <= depth
            && Sound(s, g, from, to, depth, {v}, queue[1..], s.dist[v])
  {
    var v, rest := queue[0].id, queue[1..];
    assert GoodEntry(s, g, from, {}, queue[0]);
    forall q | 0 <= q < |rest|
      ensures GoodEntry(s, g, from, {}, rest[q]) && GoodEntry(s, g, from, {v}, rest[q]) && rest[q].id != v
    {
      assert GoodEntry(s, g, from, {}, queue[q + 1]);
    }
    forall w | w in s.dist && !(w in s.done || w in s.capped || w == v)
      ensures Waiting(rest, w)
    {
      var q :| 0 <= q < |queue| && queue[q].id == w;
      assert rest[q - 1].id == w;
    }
  }

  /** At the depth cap the node is set aside. */
  lemma SearchCaps(s: Search, g: Graph, from: Id, to: Id, depth: nat, queue: seq<Entry>, e: Entry)
    requires e.id in s.dist && s.dist[e.id] >= depth
    requires Sound(s, g, from, to, depth, {e.id}, queue, s.dist[e.id])
    requires forall q :: 0 <= q < |queue| ==> GoodEntry(s, g, from, {}, queue[q])
    ensures Sound(SetAside(s, e), g, from, to, depth, {}, queue, s.dist[e.id])
  {
    var s' := SetAside(s, e);
    forall q | 0 <= q < |queue|
      ensures GoodEntry(s', g, from, {}, queue[q]) && queue[q].id !in s'.capped
    {
    }
  }

  /** Expanding the current node changes no edge the search has relied on. */
  lemma SearchSurvivesExpansion(s: Search, g: Graph, g': Graph, from: Id, to: Id, depth: nat, queue: seq<Entry>,
                                v: Id, head: Entry)
    requires v in s.dist && v !in s.done && Sound(s, g, from, to, depth, {v}, queue, s.dist[v])
    requires forall q :: 0 <= q < |queue| ==> GoodEntry(s, g, from, {}, queue[q])
    requires GoodEntry(s, g, from, {}, head)
    requires g'.Keys == g.Keys && forall w :: w in g && w != v ==> g'[w] == g[w]
    ensures Sound(s, g', from, to, depth, {v}, queue, s.dist[v])
    ensures GoodEntry(s, g', from, {}, head)
  {
    forall q | 0 <= q < |queue|
      ensures GoodEntry(s, g', from, {v}, queue[q])
    {
      EntrySurvives(s, g, g', from, v, queue[q]);
    }
    EntrySurvives(s, g, g', from, v, head);
    forall w | w in s.done
      ensures Closed(s, g', to, w)
    {
      assert Closed(s, g, to, w);
    }
  }

  lemma EntrySurvives(s: Search, g: Graph, g': Graph, from: Id, v: Id, e: Entry)
    requires v !in s.done && GoodEntry(s, g, from, {}, e)
    requires g'.Keys == g.Keys && forall w :: w in g && w != v ==> g'[w] == g[w]
    ensures GoodEntry(s, g', from, {}, e) && GoodEntry(s, g', from, {v}, e)
  {
    forall i | 0 <= i < |e.path| - 1
      ensures Edge2(g', e.path[i], e.path[i + 1])
    {
      assert Edge2(g, e.path[i], e.path[i + 1]);
    }
  }

  /** `v` is being expanded and its first `k` callees have been looked at. */
  ghost predicate Visiting(s: Search, g: Graph, from: Id, to: Id, depth: nat, head: Entry, callees: seq<Id>, k: nat,
                           queue: seq<Entry>) {
    && k <= |callees|
    && GoodEntry(s, g, from, {}, head) && head.id in g && head.id !in s.done && s.dist[head.id] < depth
    && Sound(s, g, from, to, depth, {head.id}, queue, s.dist[head.id])
    && (forall w :: w in callees <==> w in g[head.id]) && (forall w :: w in callees ==> w in g)
    && (forall j :: 0 <= j < k ==> && callees[j] != to && callees[j] in s.dist
                                   && s.dist[callees[j]] <= s.dist[head.id] + 1)
  }

  function Push(queue: seq<Entry>, head: Entry, w: Id): seq<Entry> {
    queue + [Entry(w, head.path + [w])]
  }

  lemma PushKeepsQueue(s: Search, g: Graph, from: Id, head: Entry, w: Id, queue: seq<Entry>, h: nat)
    requires GoodEntry(s, g, from, {}, head) && Edge2(g, head.id, w) && w !in s.dist && s.dist[head.id] == h
    requires s.done <= s.dist.Keys && s.capped <= s.dist.Keys
    requires QueueOk(s, g, from, {head.id}, queue, h)
    ensures QueueOk(s.(dist := s.dist[w := h + 1]), g, from, {head.id}, Push(queue, head, w), h)
  {
    var v, s', queue' := head.id, s.(dist := s.dist[w := h + 1]), Push(queue, head, w);
    NewEntryIsGood(s, g, from, v, head, w);
    forall q | 0 <= q < |queue'|
      ensures GoodEntry(s', g, from, {v}, queue'[q])
      ensures queue'[q].id !in s'.done && queue'[q].id !in s'.capped && queue'[q].id != v
      ensures h <= s'.dist[queue'[q].id] <= h + 1
    {
      if q < |queue| {
        assert GoodEntry(s, g, from, {v}, queue[q]) && queue'[q] == queue[q];
      }
    }
  }

  lemma VisitStep(s: Search, g: Graph, from: Id, to: Id, depth: nat, head: Entry, callees: seq<Id>, k: nat,
                  queue: seq<Entry>)
    requires Visiting(s, g, from, to, depth, head, callees, k, queue) && k < |callees| && callees[k] != to
    ensures var w := callees[k];
            if w in s.dist then Visiting(s, g, from, to, depth, head, callees, k + 1, queue)
            else Visiting(s.(dist := s.dist[w := s.dist[head.id] + 1]), g, from, to, depth, head, callees, k + 1,
                          Push(queue, head, w))
  {
    if callees[k] in s.dist {
      SeenBefore(s, g, from, to, depth, head, callees, k, queue);
    } else {
      SeenFirst(s, g, from, to, depth, head, callees, k, queue);
    }
  }

  lemma SeenBefore(s: Search, g: Graph, from: Id, to: Id, depth: nat, head: Entry, callees: seq<Id>, k: nat,
                   queue: seq<Entry>)
    requires Visiting(s, g, from, to, depth, head, callees, k, queue) && k < |callees| && callees[k] != to
    requires callees[k] in s.dist
    ensures Visiting(s, g, from, to, depth, head, callees, k + 1, queue)
  {
    assert Edge2(g, head.id, callees[k]);
  }

  lemma SeenFirst(s: Search, g: Graph, from: Id, to: Id, depth: nat, head: Entry, callees: seq<Id>, k: nat,
                  queue: seq<Entry>)
    requires Visiting(s, g, from, to, depth, head, callees, k, queue) && k < |callees| && callees[k] != to
    requires callees[k] !in s.dist
    ensures Visiting(s.(dist := s.dist[callees[k] := s.dist[head.id] + 1]), g, from, to, depth, head, callees, k + 1,
                     Push(queue, head, callees[k]))
  {
    var w, h := callees[k], s.dist[head.id];
    assert Edge2(g, head.id, w);
    PushKeepsQueue(s, g, from, head, w, queue, h);
    PushKeepsReached(s, head, w, queue);
    PushKeepsClosed(s, g, to, w, h);
  }

  /** Whoever is waiting keeps waiting, and the new node waits. */
  lemma PushKeepsReached(s: Search, head: Entry, w: Id, queue: seq<Entry>)
    requires forall u :: u in s.dist ==> u in s.done || u in s.capped || u == head.id || Waiting(queue, u)
    ensures forall u :: u in s.dist || u == w ==>
                          u in s.done || u in s.capped || u == head.id || Waiting(Push(queue, head, w), u)
  {
    var queue' := Push(queue, head, w);
    assert queue'[|queue|].id == w;
    forall u | Waiting(queue, u)
      ensures Waiting(queue', u)
    {
      var q :| 0 <= q < |queue| && queue[q].id == u;
      assert queue'[q].id == u;
    }
  }

  lemma PushKeepsClosed(s: Search, g: Graph, to: Id, w: Id, h: nat)
    requires w !in s.dist && s.done <= s.dist.Keys && forall u :: u in s.done ==> Closed(s, g, to, u)
    ensures forall u :: u in s.done ==> Closed(s.(dist := s.dist[w := h + 1]), g, to, u)
  {
    forall u | u in s.done
      ensures Closed(s.(dist := s.dist[w := h + 1]), g, to, u)
    {
      assert Closed(s, g, to, u);
    }
  }

  lemma NewEntryIsGood(s: Search, g: Graph, from: Id, v: Id, head: Entry, w: Id)
    requires GoodEntry(s, g, from, {}, head) && head.id == v && Edge2(g, v, w) && w !in s.dist
    ensures GoodEntry(s.(dist := s.dist[w := s.dist[v] + 1]), g, from, {v}, Entry(w, head.path + [w]))
    ensures IsPath(g, head.path + [w], from, w)
  {
    var path := head.path + [w];
    forall i | 0 <= i < |path| - 1
      ensures Edge2(g, path[i], path[i + 1]) && path[i] in s.done + {v}
    {
      if i < |head.path| - 1 {
        assert Edge2(g, head.path[i], head.path[i + 1]);
      }
    }
  }

  /** All callees looked at: the node is done. */
  lemma SearchFinishes(s: Search, g: Graph, from: Id, to: Id, depth: nat, head: Entry, callees: seq<Id>,
                       queue: seq<Entry>)
    requires Visiting(s, g, from, to, depth, head, callees, |callees|, queue)
    ensures Sound(s.(done := s.done + {head.id}), g, from, to, depth, {}, queue, s.dist[head.id])
  {
    var s' := s.(done := s.done + {head.id});
    forall q | 0 <= q < |queue|
      ensures GoodEntry(s', g, from, {}, queue[q]) && queue[q].id !in s'.done
    {
      assert GoodEntry(s, g, from, {head.id}, queue[q]);
    }
    forall u | u in s'.done
      ensures Closed(s', g, to, u) && s'.dist[u] <= s.dist[head.id] && s'.dist[u] < depth
    {
      if u == head.id {
        assert forall w :: w in g[u] ==> w in callees;
      } else {
        assert Closed(s, g, to, u);
      }
    }
  }

  // ----- what the search spent and what vouches for it -----

  /** Which nodes were asked about again, and the turn at which each usable expansion happened. */
  datatype Ledger = Ledger(refreshed: set<Id>, usedAt: map<Id, nat>)

  /** The expansion of `v` can be relied on: its callees are the server's answer of that turn, or
      its file was, at that turn, the file its stored callees were computed from. */
  ghost predicate Vouched(was: Db, now: Db, hash: string -> string, client: nat -> World, led: Ledger, v: Id)
    requires v in led.usedAt && v in now.nodes
  {
    var world := client(led.usedAt[v]);
    if v in led.refreshed then Callees(now.nodes, now.edges, v) == AnsweredCallees(now.nodes, v, world.server)
    else
      var text := world.readText(now.nodes[v].uri);
      text.Some? && v in was.calleesCache && was.calleesCache[v] == hash(text.value)
  }

  /** Nodes not asked about again have the callees and the cache entry they had. */
  ghost predicate OthersUntouched(was: Db, now: Db, refreshed: set<Id>) {
    forall v :: v !in refreshed ==>
                  && Callees(now.nodes, now.edges, v) == Callees(was.nodes, was.edges, v)
                  && (v in now.calleesCache <==> v in was.calleesCache)
                  && (v in was.calleesCache ==> now.calleesCache[v] == was.calleesCache[v])
  }

  function WorldAt(client: Option<nat -> World>, turn: nat): Option<World> {
    if client.Some? then Some(client.value(turn)) else None
  }

  lemma OthersStep(was: Db, before: Db, after: Db, refreshed: set<Id>, v: Id, world: Option<World>,
                   hash: string -> string, remaining: nat, left: nat, usable: bool)
    requires OthersUntouched(was, before, refreshed) && v in before.nodes
    requires Expanded(before, after, v, world, hash, remaining, left, usable)
    ensures OthersUntouched(was, after, if left != remaining then refreshed + {v} else refreshed)
  {
    if left != remaining {
      forall w | w !in refreshed + {v}
        ensures Callees(after.nodes, after.edges, w) == Callees(was.nodes, was.edges, w)
        ensures w in after.calleesCache <==> w in was.calleesCache
        ensures w in was.calleesCache ==> after.calleesCache[w] == was.calleesCache[w]
      {
      }
    }
  }

  ghost predicate Accounted(was: Db, now: Db, hash: string -> string, client: Option<nat -> World>, led: Ledger,
                            budget: nat, remaining: nat, timedOut: bool) {
    && |led.refreshed| + remaining == budget
    && now == was.(edges := now.edges, nextEdge := now.nextEdge, calleesCache := now.calleesCache)
    && led.refreshed <= led.usedAt.Keys <= now.nodes.Keys
    && (client.None? ==> led.usedAt.Keys == {})
    && OthersUntouched(was, now, led.refreshed)
    && (client.Some? ==> forall v :: v in led.usedAt ==> Vouched(was, now, hash, client.value, led, v))
    && (timedOut <==> client.Some? && SomeoneLate(now.nodes, client.value, led))
  }

  function Entered(led: Ledger, v: Id, turn: nat, paid: bool, usable: bool): Ledger {
    Ledger(if paid then led.refreshed + {v} else led.refreshed, if usable then led.usedAt[v := turn] else led.usedAt)
  }

  lemma AccountStep(was: Db, before: Db, after: Db, hash: string -> string, client: Option<nat -> World>, led: Ledger,
                    budget: nat, remaining: nat, timedOut: bool, v: Id, turn: nat, left: nat, usable: bool, late: bool)
    requires Accounted(was, before, hash, client, led, budget, remaining, timedOut)
    requires v in before.nodes && v !in led.usedAt
    requires Expanded(before, after, v, WorldAt(client, turn), hash, remaining, left, usable)
    requires late <==> left != remaining && RefreshTimedOut(after.nodes, v, client.value(turn).server)
    ensures Accounted(was, after, hash, client, Entered(led, v, turn, left != remaining, usable), budget, left,
                      timedOut || late)
  {
    OthersStep(was, before, after, led.refreshed, v, WorldAt(client, turn), hash, remaining, left, usable);
    if client.Some? {
      VouchStep(was, before, after, hash, client.value, led, remaining, v, turn, left, usable);
      if left != remaining {
        TimeoutStep(after.nodes, client.value, led, v, turn, timedOut, late);
      }
    }
  }

  lemma VouchStep(was: Db, before: Db, after: Db, hash: string -> string, client: nat -> World, led: Ledger,
                  remaining: nat, v: Id, turn: nat, left: nat, usable: bool)
    requires before.nodes == was.nodes && led.refreshed <= led.usedAt.Keys <= before.nodes.Keys
    requires v in before.nodes && v !in led.usedAt
    requires v in before.calleesCache <==> v in was.calleesCache
    requires v in was.calleesCache ==> before.calleesCache[v] == was.calleesCache[v]
    requires forall w :: w in led.usedAt ==> Vouched(was, before, hash, client, led, w)
    requires Expanded(before, after, v, Some(client(turn)), hash, remaining, left, usable)
    ensures var led' := Entered(led, v, turn, left != remaining, usable);
            forall w :: w in led'.usedAt ==> Vouched(was, after, hash, client, led', w)
  {
    var led' := Entered(led, v, turn, left != remaining, usable);
    forall w | w in led'.usedAt
      ensures Vouched(was, after, hash, client, led', w)
    {
      if w != v {
        assert Vouched(was, before, hash, client, led, w);
      }
    }
  }

  ghost predicate SomeoneLate(nodes: map<Id, Node>, client: nat -> World, led: Ledger)
    requires led.refreshed <= led.usedAt.Keys <= nodes.Keys
  {
    exists v :: v in led.refreshed && RefreshTimedOut(nodes, v, client(led.usedAt[v]).server)
  }

  lemma TimeoutStep(nodes: map<Id, Node>, client: nat -> World, led: Ledger, v: Id, turn: nat, timedOut: bool,
                    late: bool)
    requires led.refreshed <= led.usedAt.Keys <= nodes.Keys && v in nodes && v !in led.usedAt
    requires timedOut <==> SomeoneLate(nodes, client, led)
    requires late <==> RefreshTimedOut(nodes, v, client(turn).server)
    ensures timedOut || late <==> SomeoneLate(nodes, client, Entered(led, v, turn, true, true))
  {
    var led' := Entered(led, v, turn, true, true);
    assert v in led'.refreshed && led'.usedAt[v] == turn;
    if timedOut {
      var w :| w in led.refreshed && RefreshTimedOut(nodes, w, client(led.usedAt[w]).server);
      assert w in led'.refreshed && led'.usedAt[w] == led.usedAt[w];
    }
  }

  datatype Goal = Goal(from: Id, to: Id, depth: nat)

  /** The search's local variables. */
  datatype Turn = Turn(visited: set<Id>, queue: seq<Entry>, remaining: nat, turn: nat, limitReached: bool,
                       timedOut: bool)

  datatype PathResult = PathResult(reachable: bool, path: seq<Id>, limitReached: bool)

  ghost predicate Extends(s0: Search, s: Search) {
    && s.done == s0.done && s.capped == s0.capped && s.far == s0.far
    && forall v :: v in s0.dist ==> v in s.dist && s.dist[v] == s0.dist[v]
  }

  /** Look at the callees of the entry just expanded, stopping at the goal. */
  method VisitCallees(callees: seq<Id>, head: Entry, to: Id, visited0: set<Id>, queue0: seq<Entry>,
                      ghost s0: Search, ghost g: Graph, ghost from: Id, ghost depth: nat)
    returns (found: bool, visited: set<Id>, queue: seq<Entry>, ghost s: Search)
    requires Visiting(s0, g, from, to, depth, head, callees, 0, queue0) && visited0 == s0.dist.Keys
    ensures found <==> to in callees
    ensures !found ==> Visiting(s, g, from, to, depth, head, callees, |callees|, queue)
    ensures visited == s.dist.Keys && Extends(s0, s)
  {
    visited, queue, s := visited0, queue0, s0;
    for k := 0 to |callees|
      invariant Visiting(s, g, from, to, depth, head, callees, k, queue)
      invariant visited == s.dist.Keys && Extends(s0, s)
    {
      var w := callees[k];
      if w == to {
        return true, visited, queue, s;
      }
      VisitStep(s, g, from, to, depth, head, callees, k, queue);
      if w !in visited {
        s := s.(dist := s.dist[w := s.dist[head.id] + 1]);
        visited, queue := visited + {w}, Push(queue, head, w);
      }
    }
    found := false;
  }

  /** The goal is a callee of the entry just expanded: its path is shortest. */
  lemma FoundIsShortest(s: Search, g: Graph, from: Id, to: Id, depth: nat, head: Entry, callees: seq<Id>,
                        queue: seq<Entry>)
    requires Visiting(s, g, from, to, depth, head, callees, 0, queue) && to in callees
    ensures IsShortest(g, head.path + [to], from, to)
    ensures ReachableWithin(g, from, to, depth)
  {
    assert Edge2(g, head.id, to);
    NewEntryIsGood(s, g, from, head.id, head, to);
    var path := head.path + [to];
    forall other | IsPath(g, other, from, to)
      ensures |path| <= |other|
    {
      NotReachedSoFar(s, g, from, to, depth, {head.id}, queue, s.dist[head.id], other);
    }
  }

  /** One turn of the search past the depth check. */
  method ExpandAndVisit(engine: QueryEngine, head: Entry, goal: Id, visited0: set<Id>, queue0: seq<Entry>,
                        world: Option<World>,
                        remaining: nat, ghost s0: Search, ghost start: Id, ghost maxDepth: nat)
    returns (found: bool, visited: set<Id>, queue: seq<Entry>, usable: bool, late: bool, left: nat, ghost s: Search)
    requires engine.db.Valid() && head.id in engine.db.nodes.Keys - s0.done && head.id in s0.dist
    requires s0.dist[head.id] < maxDepth
    requires visited0 == s0.dist.Keys
    requires GoodEntry(s0, CallGraph(engine.db.nodes, engine.db.edges), start, {}, head)
    requires forall q :: 0 <= q < |queue0| ==>
               GoodEntry(s0, CallGraph(engine.db.nodes, engine.db.edges), start, {}, queue0[q])
    requires Sound(s0, CallGraph(engine.db.nodes, engine.db.edges), start, goal, maxDepth, {head.id}, queue0,
                   s0.dist[head.id])
    requires FarEntry(s0, CallGraph(engine.db.nodes, engine.db.edges), start, maxDepth)
    modifies engine.db`edges, engine.db`nextEdge, engine.db`calleesCache
    ensures engine.db.Valid()
    ensures Expanded(old(engine.db.View()), engine.db.View(), head.id, world, engine.contentHash, remaining, left,
                     usable)
    ensures late <==> left != remaining && RefreshTimedOut(engine.db.nodes, head.id, world.value.server)
    ensures var g := CallGraph(engine.db.nodes, engine.db.edges);
            if found then IsShortest(g, head.path + [goal], start, goal) && ReachableWithin(g, start, goal, maxDepth)
            else && Sound(s, g, start, goal, maxDepth, {}, queue, s0.dist[head.id]) && visited == s.dist.Keys
                 && s.done == s0.done + {head.id} && s.capped == s0.capped
                 && s.far == s0.far && FarEntry(s, g, start, maxDepth)
  {
    ghost var g0 := CallGraph(engine.db.nodes, engine.db.edges);
    usable, late, left := ExpandOutgoingCalls(engine, head.id, world, remaining);
    ghost var g := CallGraph(engine.db.nodes, engine.db.edges);
    SearchSurvivesExpansion(s0, g0, g, start, goal, maxDepth, queue0, head.id, head);
    if s0.far.Some? {
      EntrySurvives(s0, g0, g, start, head.id, s0.far.value);
    }
    var callees := CalleeList(engine, head.id);
    found, visited, queue, s := VisitCallees(callees, head, goal, visited0, queue0, s0, g, start, maxDepth);
    if found {
      FoundIsShortest(s0, g, start, goal, maxDepth, head, callees, queue0);
    } else {
      SearchFinishes(s, g, start, goal, maxDepth, head, callees, queue);
      s := s.(done := s.done + {head.id});
    }
  }

  ghost predicate Resolved(end: Option<Id>, nodes: map<Id, Node>) {
    end.Some? ==> end.value in nodes
  }

  /** What every turn of the search keeps. */
  ghost predicate Searching(g: Graph, goal: Goal, t: Turn, s: Search, h: nat) {
    && h <= goal.depth && Sound(s, g, goal.from, goal.to, goal.depth, {}, t.queue, h)
    && t.visited == s.dist.Keys
    && (!t.limitReached ==> s.capped == {})
    && FarEntry(s, g, goal.from, goal.depth)
  }

  /** Why the search may have to leave the question open. */
  ghost predicate LimitIsReal(t: Turn, client: Option<nat -> World>, s: Search) {
    t.limitReached ==> client.None? || t.remaining == 0 || s.far.Some?
  }

  /** The nodes expanded so far, and that all of them were usable unless a limit was met. */
  ghost predicate Booked(t: Turn, s: Search, led: Ledger) {
    led.usedAt.Keys <= s.done && (!t.limitReached ==> s.done <= led.usedAt.Keys)
  }

  ghost predicate SomethingAtTheCap(g: Graph, goal: Goal) {
    exists v, path :: IsShortest(g, path, goal.from, v) && |path| == goal.depth + 1
  }

  lemma FarMeansCap(s: Search, g: Graph, goal: Goal, h: nat)
    requires Sound(s, g, goal.from, goal.to, goal.depth, {}, [], h) && h <= goal.depth
    requires FarEntry(s, g, goal.from, goal.depth) && s.far.Some?
    ensures SomethingAtTheCap(g, goal)
  {
    var e := s.far.value;
    forall other | IsPath(g, other, goal.from, e.id)
      ensures |e.path| <= |other|
    {
      if |other| <= goal.depth {
        PathStaysInside(s, g, goal.from, goal.to, goal.depth, {}, [], h, other, e.id, |other| - 1);
      }
    }
    assert IsShortest(g, e.path, goal.from, e.id);
  }

  /** What the search answers, judged by the graph stored when it ends. */
  ghost predicate RightAnswer(g: Graph, goal: Goal, client: Option<nat -> World>, led: Ledger, unspent: nat,
                              r: PathResult) {
    && (r.reachable <==> ReachableWithin(g, goal.from, goal.to, goal.depth))
    && (r.reachable ==> IsShortest(g, r.path, goal.from, goal.to) && !r.limitReached)
    && (!r.reachable && !r.limitReached ==>
          !Reachable(g, goal.from, goal.to) && forall v :: Reachable(g, goal.from, v) ==> v in led.usedAt)
    && (r.limitReached ==> client.None? || unspent == 0 || SomethingAtTheCap(g, goal))
  }

  lemma OneFewer(all: set<Id>, done: set<Id>, capped: set<Id>, v: Id)
    requires v in all && v !in done && v !in capped
    ensures all - (done + {v}) - capped < all - done - capped
    ensures all - done - (capped + {v}) < all - done - capped
  {
    assert v in all - done - capped;
    assert v !in all - (done + {v}) - capped && v !in all - done - (capped + {v});
  }

  lemma TurnCaps(g: Graph, goal: Goal, t: Turn, s: Search, h: nat)
    requires Searching(g, goal, t, s, h) && |t.queue| > 0
    requires t.queue[0].id in s.dist && goal.depth <= s.dist[t.queue[0].id]
    ensures Searching(g, goal, t.(queue := t.queue[1..], limitReached := true), SetAside(s, t.queue[0]),
                      s.dist[t.queue[0].id])
  {
    SearchPops(s, g, goal.from, goal.to, goal.depth, t.queue, h);
    SearchCaps(s, g, goal.from, goal.to, goal.depth, t.queue[1..], t.queue[0]);
  }

  /** An expansion made during a turn. */
  datatype Expansion = Expansion(v: Id, usable: bool, late: bool)

  /** How a turn from `t` to `t'` changed the database. */
  ghost predicate TurnEffect(before: Db, after: Db, hash: string -> string, client: Option<nat -> World>,
                             t: Turn, t': Turn, did: Option<Expansion>) {
    match did
    case None => after == before && t'.remaining == t.remaining && t'.timedOut == t.timedOut && t'.limitReached
    case Some(x) =>
      && x.v in before.nodes
      && Expanded(before, after, x.v, WorldAt(client, t.turn), hash, t.remaining, t'.remaining, x.usable)
      && (x.late <==> t'.remaining != t.remaining && RefreshTimedOut(after.nodes, x.v, client.value(t.turn).server))
      && t'.timedOut == (t.timedOut || x.late) && t'.limitReached == (t.limitReached || !x.usable)
  }

  /** Pop one entry and deal with it. */
  method SearchTurn(engine: QueryEngine, goal: Goal, client: Option<nat -> World>, t: Turn, ghost s0: Search,
                    ghost h0: nat)
    returns (t': Turn, r: Option<PathResult>, ghost s: Search, ghost h: nat, ghost did: Option<Expansion>)
    requires engine.db.Valid() && |t.queue| > 0
    requires Searching(CallGraph(engine.db.nodes, engine.db.edges), goal, t, s0, h0)
    modifies engine.db`edges, engine.db`nextEdge, engine.db`calleesCache
    ensures engine.db.Valid()
    ensures TurnEffect(old(engine.db.View()), engine.db.View(), engine.contentHash, client, t, t', did)
    ensures did.Some? ==> did.value.v !in s0.done
    ensures r.None? ==> && Searching(CallGraph(engine.db.nodes, engine.db.edges), goal, t', s, h)
                        && (did.None? ==> s.far.Some?) && (did.Some? ==> s.far == s0.far)
                        && s.done == (if did.Some? then s0.done + {did.value.v} else s0.done)
                        && engine.db.nodes.Keys - s.done - s.capped < engine.db.nodes.Keys - s0.done - s0.capped
    ensures r.Some? ==> && r.value.reachable && !r.value.limitReached
                        && IsShortest(CallGraph(engine.db.nodes, engine.db.edges), r.value.path, goal.from, goal.to)
                        && ReachableWithin(CallGraph(engine.db.nodes, engine.db.edges), goal.from, goal.to, goal.depth)
  {
    var db := engine.db;
    var head, queue := t.queue[0], t.queue[1..];
    SearchPops(s0, CallGraph(db.nodes, db.edges), goal.from, goal.to, goal.depth, t.queue, h0);
    h, s, r, did := s0.dist[head.id], s0, None, None;
    OneFewer(db.nodes.Keys, s0.done, s0.capped, head.id);
    if |head.path| > goal.depth {
      TurnCaps(CallGraph(db.nodes, db.edges), goal, t, s0, h0);
      s := SetAside(s, head);
      t' := t.(queue := queue, limitReached := true);
      return;
    }
    var found, visited, usable, late, left;
    found, visited, queue, usable, late, left, s :=
      ExpandAndVisit(engine, head, goal.to, t.visited, queue, WorldAt(client, t.turn),
                     t.remaining, s, goal.from, goal.depth);
    t' := Turn(visited, queue, left, t.turn + 1, t.limitReached || !usable, t.timedOut || late);
    did := Some(Expansion(head.id, usable, late));
    if found {
      r := Some(PathResult(true, head.path + [goal.to], false));
    }
  }

  ghost function Enter(led: Ledger, t: Turn, t': Turn, did: Option<Expansion>): Ledger {
    match did
    case None => led
    case Some(x) => Entered(led, x.v, t.turn, t'.remaining != t.remaining, x.usable)
  }

  lemma AccountTurn(was: Db, before: Db, after: Db, hash: string -> string, client: Option<nat -> World>, led: Ledger,
                    budget: nat, t: Turn, t': Turn, did: Option<Expansion>)
    requires Accounted(was, before, hash, client, led, budget, t.remaining, t.timedOut)
    requires TurnEffect(before, after, hash, client, t, t', did)
    requires did.Some? ==> did.value.v !in led.usedAt
    ensures Accounted(was, after, hash, client, Enter(led, t, t', did), budget, t'.remaining, t'.timedOut)
  {
    if did.Some? {
      var x := did.value;
      AccountStep(was, before, after, hash, client, led, budget, t.remaining, t.timedOut, x.v, t.turn, t'.remaining,
                  x.usable, x.late);
    }
  }

  lemma SearchBegins(g: Graph, goal: Goal, client: Option<nat -> World>, t: Turn, s: Search, led: Ledger)
    requires goal.from in g && goal.from != goal.to && led.usedAt == map[] && !t.limitReached
    requires t.visited == {goal.from} && t.queue == [Entry(goal.from, [goal.from])]
    requires s == Search(map[goal.from := 0], {}, {}, None)
    ensures Searching(g, goal, t, s, 0) && Booked(t, s, led) && LimitIsReal(t, client, s)
  {
    SearchStarts(g, goal.from, goal.to, goal.depth);
  }

  lemma SearchEnds(g: Graph, goal: Goal, client: Option<nat -> World>, t: Turn, s: Search, h: nat, led: Ledger)
    requires Searching(g, goal, t, s, h) && Booked(t, s, led) && LimitIsReal(t, client, s) && |t.queue| == 0
    ensures RightAnswer(g, goal, client, led, t.remaining, PathResult(false, [], t.limitReached))
  {
    SearchExhausted(s, g, goal.from, goal.to, goal.depth, h);
    if s.far.Some? {
      FarMeansCap(s, g, goal, h);
    }
  }

  /** One turn, with the books kept: the search goes on, nearer to its end, or it has the right answer. */
  method AccountedTurn(engine: QueryEngine, goal: Goal, client: Option<nat -> World>, t: Turn, ghost s0: Search,
                       ghost h0: nat, ghost was: Db, ghost budget: nat, ghost led0: Ledger)
    returns (t': Turn, r: Option<PathResult>, ghost s: Search, ghost h: nat, ghost led: Ledger)
    requires engine.db.Valid() && |t.queue| > 0
    requires Searching(CallGraph(engine.db.nodes, engine.db.edges), goal, t, s0, h0) && Booked(t, s0, led0)
    requires LimitIsReal(t, client, s0)
    requires Accounted(was, engine.db.View(), engine.contentHash, client, led0, budget, t.remaining, t.timedOut)
    modifies engine.db`edges, engine.db`nextEdge, engine.db`calleesCache
    ensures engine.db.Valid()
    ensures Accounted(was, engine.db.View(), engine.contentHash, client, led, budget, t'.remaining, t'.timedOut)
    ensures r.None? ==> && Searching(CallGraph(engine.db.nodes, engine.db.edges), goal, t', s, h)
                        && Booked(t', s, led) && LimitIsReal(t', client, s)
                        && engine.db.nodes.Keys - s.done - s.capped < engine.db.nodes.Keys - s0.done - s0.capped
    ensures r.Some? ==>
              RightAnswer(CallGraph(engine.db.nodes, engine.db.edges), goal, client, led, t'.remaining, r.value)
  {
    ghost var before, did := engine.db.View(), None;
    t', r, s, h, did := SearchTurn(engine, goal, client, t, s0, h0);
    ghost var g := CallGraph(engine.db.nodes, engine.db.edges);
    AccountTurn(was, before, engine.db.View(), engine.contentHash, client, led0, budget, t, t', did);
    led := Enter(led0, t, t', did);
    if r.None? {
      BooksKept(before, engine.db.View(), engine.contentHash, client, t, t', s0, s, led0, did);
    } else {
      FoundIsRight(g, goal, client, led, t'.remaining, r.value);
    }
  }

  lemma BooksKept(before: Db, after: Db, hash: string -> string, client: Option<nat -> World>, t: Turn, t': Turn,
                  s0: Search, s: Search, led: Ledger, did: Option<Expansion>)
    requires TurnEffect(before, after, hash, client, t, t', did) && Booked(t, s0, led) && LimitIsReal(t, client, s0)
    requires did.None? ==> s.far.Some? && s.done == s0.done
    requires did.Some? ==> s.far == s0.far && s.done == s0.done + {did.value.v}
    ensures Booked(t', s, Enter(led, t, t', did)) && LimitIsReal(t', client, s)
  {
  }

  lemma FoundIsRight(g: Graph, goal: Goal, client: Option<nat -> World>, led: Ledger, unspent: nat, r: PathResult)
    requires r.reachable && !r.limitReached && IsShortest(g, r.path, goal.from, goal.to)
    requires ReachableWithin(g, goal.from, goal.to, goal.depth)
    ensures RightAnswer(g, goal, client, led, unspent, r)
  {
  }

  /** Breadth-first search from `from` to `to`; `client(k)` is the world the k-th expansion meets. */
  method FindCallPath(engine: QueryEngine, from: Option<Id>, to: Option<Id>, maxDepth: nat, maxLspCalls: nat,
                      client: Option<nat -> World>)
    returns (r: PathResult, timedOut: bool, ghost led: Ledger, ghost unspent: nat)
    requires engine.db.Valid() && Resolved(from, engine.db.nodes) && Resolved(to, engine.db.nodes)
    modifies engine.db`edges, engine.db`nextEdge, engine.db`calleesCache
    ensures engine.db.Valid()
    ensures from.None? || to.None? ==> r == PathResult(false, [], false) && engine.db.View() == old(engine.db.View())
    ensures Accounted(old(engine.db.View()), engine.db.View(), engine.contentHash, client, led, maxLspCalls, unspent,
                      timedOut)
    ensures from.Some? && to.Some? ==>
              RightAnswer(CallGraph(engine.db.nodes, engine.db.edges), Goal(from.value, to.value, maxDepth), client,
                          led, unspent, r)
  {
    var db := engine.db;
    led, timedOut, unspent := Ledger({}, map[]), false, maxLspCalls;
    ghost var was := db.View();
    if from.None? || to.None? {
      return PathResult(false, [], false), false, led, unspent;
    }
    var goal := Goal(from.value, to.value, maxDepth);
    if goal.from == goal.to {
      EmptyPath(CallGraph(db.nodes, db.edges), goal.from, maxDepth);
      return PathResult(true, [goal.from], false), false, led, unspent;
    }
    var t := Turn({goal.from}, [Entry(goal.from, [goal.from])], maxLspCalls, 0, false, false);
    ghost var s, h: nat := Search(map[goal.from := 0], {}, {}, None), 0;
    SearchBegins(CallGraph(db.nodes, db.edges), goal, client, t, s, led);
    while |t.queue| > 0
      invariant db.Valid()
      invariant Searching(CallGraph(db.nodes, db.edges), goal, t, s, h) && Booked(t, s, led)
      invariant LimitIsReal(t, client, s)
      invariant Accounted(was, db.View(), engine.contentHash, client, led, maxLspCalls, t.remaining, t.timedOut)
      decreases was.nodes.Keys - s.done - s.capped
    {
      var answer;
      t, answer, s, h, led := AccountedTurn(engine, goal, client, t, s, h, was, maxLspCalls, led);
      if answer.Some? {
        return answer.value, t.timedOut, led, t.remaining;
      }
    }
    SearchEnds(CallGraph(db.nodes, db.edges), goal, client, t, s, h, led);
    return PathResult(false, [], t.limitReached), t.timedOut, led, t.remaining;
  }

  lemma EmptyPath(g: Graph, v: Id, depth: nat)
    ensures IsShortest(g, [v], v, v) && ReachableWithin(g, v, v, depth)
  {
    assert IsPath(g, [v], v, v);
  }
}
