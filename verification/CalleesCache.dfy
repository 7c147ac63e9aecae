/** How long a remembered content hash vouches for the stored callees of a symbol: what commands on the
    database leave of them until the next refresh of the symbol or reconcile of its file. */
module CalleesCache {
  import opened Wrappers
  import opened GraphModel
  import opened RenameMatching
  import opened ReconcileModel
  import opened ReconcileReplay
  import opened ReconcileForecast
  import opened ReconcileTheorems
  import opened ReconcileConvergence
  import opened GraphStore
  import opened CallRefresh
  import opened CallPath
  import opened CallQueries
  import opened Grouping
  import opened DbActor

  /** A valid `calls` edge leads from `v` to `w`. */
  ghost predicate CallsTo(edges: map<Id, Edge>, v: Id, w: Id) {
    exists e :: e in edges && CallEdge(edges[e], v, w)
  }

  predicate CallEdge(e: Edge, v: Id, w: Id) {
    e.src == v && e.dst == w && e.edgeType == Calls && e.valid
  }

  predicate ValidRow(nodes: map<Id, Node>, w: Id) {
    w in nodes && nodes[w].valid
  }

  lemma CalleeMeans(nodes: map<Id, Node>, edges: map<Id, Edge>, v: Id, w: Id)
    ensures w in Callees(nodes, edges, v) <==> CallsTo(edges, v, w) && ValidRow(nodes, w)
  {
    if w in Callees(nodes, edges, v) {
      var e :| e in edges && CallFrom(nodes, edges, v, e) && edges[e].dst == w;
      assert CallEdge(edges[e], v, w);
    }
    if CallsTo(edges, v, w) && ValidRow(nodes, w) {
      var e :| e in edges && CallEdge(edges[e], v, w);
      assert CallFrom(nodes, edges, v, e);
    }
  }

  // ----- one reconcile of another file -----

  /** The commit cut the edges to `w`: the row was renamed or updated, or deleted. */
  ghost predicate Cuts(p: Plan, w: Id)
    requires |p.syms| == |p.matched|
  {
    w in Dirty(p) || w in Gone(p)
  }

  lemma OwnRowsOnly(p: Plan, db: Db, v: Id)
    requires Planned(p, db) && v in db.nodes && db.nodes[v].uri != p.uri
    ensures !Cuts(p, v)
  {
  }

  lemma CommitOnCalls(p: Plan, db: Db, ids: seq<Id>, db': Db, v: Id, w: Id)
    requires Planned(p, db) && Reconciled(p, db, ids, db')
    requires v in db.nodes && db.nodes[v].uri != p.uri
    ensures CallsTo(db'.edges, v, w) <==> CallsTo(db.edges, v, w) && !Cuts(p, w)
  {
    var base, keys := Pruned(Invalidated(db.edges, Dirty(p)), Gone(p)), LinkKeys(p.syms, ids, |ids|);
    OwnRowsOnly(p, db, v);
    assert Linked(base, db.nextEdge, keys, db'.edges);
    if CallsTo(db.edges, v, w) && !Cuts(p, w) {
      var e :| e in db.edges && CallEdge(db.edges[e], v, w);
      assert e in base && db'.edges[e] == Revived(base[e], keys);
      assert CallEdge(db'.edges[e], v, w);
    }
    if CallsTo(db'.edges, v, w) {
      var e :| e in db'.edges && CallEdge(db'.edges[e], v, w);
      assert KeyOf(db'.edges[e]).edgeType != Contains;
      assert e in base && db'.edges[e] == Revived(base[e], keys);
      assert CallEdge(db.edges[e], v, w);
    }
  }

  lemma AnchorStays(p: Plan, db: Db, ids: seq<Id>, db': Db, v: Id)
    requires Planned(p, db) && IdsBelow(db.nodes, db.nextNode) && Reconciled(p, db, ids, db')
    requires v in db.nodes && db.nodes[v].uri != p.uri
    ensures v in db'.nodes && (v in db'.calleesCache <==> v in db.calleesCache)
    ensures v in db.calleesCache ==> db'.calleesCache[v] == db.calleesCache[v]
  {
    RowOfOtherFile(p, db, ids, db', v);
  }

  /** A committed reconcile of another file leaves the cache row of `v` as it was, and of the callees it
      leaves those it neither renamed nor updated and whose rows are valid afterwards. */
  lemma CommitOnCallees(p: Plan, db: Db, ids: seq<Id>, db': Db, v: Id, w: Id)
    requires Planned(p, db) && Integrity(db) && Reconciled(p, db, ids, db')
    requires v in db.nodes && db.nodes[v].uri != p.uri
    ensures v in db'.nodes && (v in db'.calleesCache <==> v in db.calleesCache)
    ensures v in db.calleesCache ==> db'.calleesCache[v] == db.calleesCache[v]
    ensures w in Callees(db'.nodes, db'.edges, v) <==>
              CallsTo(db.edges, v, w) && w !in Dirty(p) && ValidRow(db'.nodes, w)
  {
    AnchorStays(p, db, ids, db', v);
    CommitOnCalls(p, db, ids, db', v, w);
    CalleeMeans(db'.nodes, db'.edges, v, w);
  }

  /** Exactly: the callees are the same ones if and only if every target of a valid call edge was a valid row exactly
      when it is one afterwards and was neither renamed nor updated. */
  lemma CalleesKeptExactly(p: Plan, db: Db, ids: seq<Id>, db': Db, v: Id)
    requires Planned(p, db) && Integrity(db) && Reconciled(p, db, ids, db')
    requires v in db.nodes && db.nodes[v].uri != p.uri
    ensures Callees(db'.nodes, db'.edges, v) == Callees(db.nodes, db.edges, v) <==>
              forall w :: CallsTo(db.edges, v, w) ==>
                            (ValidRow(db.nodes, w) <==> w !in Dirty(p) && ValidRow(db'.nodes, w))
  {
    forall w
      ensures w in Callees(db.nodes, db.edges, v) <==> CallsTo(db.edges, v, w) && ValidRow(db.nodes, w)
      ensures w in Callees(db'.nodes, db'.edges, v) <==>
                CallsTo(db.edges, v, w) && w !in Dirty(p) && ValidRow(db'.nodes, w)
    {
      CalleeMeans(db.nodes, db.edges, v, w);
      CommitOnCallees(p, db, ids, db', v, w);
    }
  }

  // ----- whole runs -----

  /** Command `k` is not one of those that make up a refresh of `v`, and no committed reconcile of its file. */
  ghost predicate Spares(dbs: seq<Db>, cs: seq<Command>, plans: seq<Plan>, k: nat, v: Id)
    requires |dbs| == |cs| + 1 && |plans| == |cs| && k < |cs|
  {
    match cs[k]
    case UpsertEdge(e) => !(e.src == v && e.edgeType == Calls)
    case SetCalleesCacheHash(anchor, _) => anchor != v
    case InvalidateOutgoingCalls(anchor) => anchor != v
    case ReconcileFileSymbols(uri, _, _, _) =>
      v in dbs[k].nodes && CommitsAt(dbs, cs, plans, k, uri) ==> dbs[k].nodes[v].uri != uri
    case _ => true
  }

  /** Command `k` is a committed reconcile that cuts the edges to `w`. */
  ghost predicate CutsAt(dbs: seq<Db>, cs: seq<Command>, plans: seq<Plan>, k: nat, w: Id)
    requires |dbs| == |cs| + 1 && |plans| == |cs| && k < |cs|
  {
    && cs[k].ReconcileFileSymbols? && CommitsAt(dbs, cs, plans, k, cs[k].uri)
    && |plans[k].syms| == |plans[k].matched| && Cuts(plans[k], w)
  }

  lemma StepOnCalls(fp: Fingerprint, dbs: seq<Db>, cs: seq<Command>, plans: seq<Plan>, k: nat, v: Id, w: Id)
    requires Run(fp, dbs, cs, plans) && k < |cs| && v in dbs[k].nodes && Spares(dbs, cs, plans, k, v)
    ensures v in dbs[k + 1].nodes && (v in dbs[k + 1].calleesCache <==> v in dbs[k].calleesCache)
    ensures v in dbs[k].calleesCache ==> dbs[k + 1].calleesCache[v] == dbs[k].calleesCache[v]
    ensures CallsTo(dbs[k + 1].edges, v, w) <==> CallsTo(dbs[k].edges, v, w) && !CutsAt(dbs, cs, plans, k, w)
  {
    RunsStaySound(fp, dbs, cs, plans, k);
    assert StepAt(fp, dbs, cs, plans, k);
    match cs[k] {
      case UpsertNode(n) => NodeStepOnCalls(dbs[k], n, dbs[k + 1], v);
      case UpsertEdge(e) => EdgeStepOnCalls(dbs[k], e, dbs[k + 1], v, w);
      case ReconcileFileSymbols(uri, _, _, _) =>
        if Replay(plans[k], dbs[k]).Some? {
          StableIsPlanned(fp, plans[k], dbs[k]);
          CommitReconciles(plans[k], dbs[k]);
          var ids := Replay(plans[k], dbs[k]).value.ids;
          CommitOnCalls(plans[k], dbs[k], ids, dbs[k + 1], v, w);
          AnchorStays(plans[k], dbs[k], ids, dbs[k + 1], v);
        }
      case _ => UpdateOnCalls(cs[k], dbs[k], v, w);
    }
  }

  lemma NodeStepOnCalls(db: Db, n: Node, db': Db, v: Id)
    requires NodeStep(db, n, db') && v in db.nodes
    ensures v in db'.nodes && db'.edges == db.edges && db'.calleesCache == db.calleesCache
  {
  }

  lemma EdgeStepOnCalls(db: Db, e: Edge, db': Db, v: Id, w: Id)
    requires EdgeStep(db, e, db') && !(e.src == v && e.edgeType == Calls)
    ensures db'.nodes == db.nodes && db'.calleesCache == db.calleesCache
    ensures CallsTo(db'.edges, v, w) <==> CallsTo(db.edges, v, w)
  {
    if t :| AcceptsEdge(db, e, t) && db' == EdgePut(db, e, t) {
      if x :| x in db.edges && CallEdge(db.edges[x], v, w) {
        assert x != t;
        assert x in db'.edges && CallEdge(db'.edges[x], v, w);
      }
      if x :| x in db'.edges && CallEdge(db'.edges[x], v, w) {
        assert x in db.edges && CallEdge(db.edges[x], v, w);
      }
    }
  }

  lemma UpdateOnCalls(c: Command, db: Db, v: Id, w: Id)
    requires !(c.SetCalleesCacheHash? && c.anchor == v) && !(c.InvalidateOutgoingCalls? && c.anchor == v)
    requires v in db.nodes
    ensures var db' := AfterUpdate(c, db);
            && v in db'.nodes && (v in db'.calleesCache <==> v in db.calleesCache)
            && (v in db.calleesCache ==> db'.calleesCache[v] == db.calleesCache[v])
            && (CallsTo(db'.edges, v, w) <==> CallsTo(db.edges, v, w))
  {
    match c
    case InvalidateOutgoingCalls(anchor) =>
      var edges' := CallsInvalidated(db.edges, anchor);
      if e :| e in db.edges && CallEdge(db.edges[e], v, w) { assert CallEdge(edges'[e], v, w); }
      if e :| e in edges' && CallEdge(edges'[e], v, w) { assert CallEdge(db.edges[e], v, w); }
    case _ => assert AfterUpdate(c, db).edges == db.edges;
  }

  /** From state `m` to state `n` nothing refreshes `v` or reconciles its file. */
  ghost predicate Spared(dbs: seq<Db>, cs: seq<Command>, plans: seq<Plan>, m: nat, n: nat, v: Id)
    requires |dbs| == |cs| + 1 && |plans| == |cs| && n < |dbs|
  {
    forall k: nat :: m <= k < n ==> Spares(dbs, cs, plans, k, v)
  }

  ghost predicate NeverCut(dbs: seq<Db>, cs: seq<Command>, plans: seq<Plan>, m: nat, n: nat, w: Id)
    requires |dbs| == |cs| + 1 && |plans| == |cs| && n < |dbs|
  {
    forall k: nat :: m <= k < n ==> !CutsAt(dbs, cs, plans, k, w)
  }

  lemma {:induction false} CacheRowOverRun(fp: Fingerprint, dbs: seq<Db>, cs: seq<Command>, plans: seq<Plan>,
                                           m: nat, n: nat, v: Id)
    requires Run(fp, dbs, cs, plans) && m <= n < |dbs| && v in dbs[m].nodes && Spared(dbs, cs, plans, m, n, v)
    ensures v in dbs[n].nodes && (v in dbs[n].calleesCache <==> v in dbs[m].calleesCache)
    ensures v in dbs[m].calleesCache ==> dbs[n].calleesCache[v] == dbs[m].calleesCache[v]
    decreases n
  {
    if m < n {
      CacheRowOverRun(fp, dbs, cs, plans, m, n - 1, v);
      assert Spares(dbs, cs, plans, n - 1, v);
      StepOnCalls(fp, dbs, cs, plans, n - 1, v, v);
    }
  }

  /** One step more of a stretch that has kept its account of the edge. */
  lemma CallsOneStep(fp: Fingerprint, dbs: seq<Db>, cs: seq<Command>, plans: seq<Plan>, m: nat, k: nat, v: Id, w: Id,
                     called: bool)
    requires Run(fp, dbs, cs, plans) && m <= k < |cs| && v in dbs[k].nodes && Spared(dbs, cs, plans, m, k + 1, v)
    requires CallsTo(dbs[k].edges, v, w) <==> called && NeverCut(dbs, cs, plans, m, k, w)
    ensures CallsTo(dbs[k + 1].edges, v, w) <==> called && NeverCut(dbs, cs, plans, m, k + 1, w)
  {
    assert Spares(dbs, cs, plans, k, v);
    StepOnCalls(fp, dbs, cs, plans, k, v, w);
    NeverCutStep(dbs, cs, plans, m, k, w);
  }

  lemma {:induction false} CallsOverRun(fp: Fingerprint, dbs: seq<Db>, cs: seq<Command>, plans: seq<Plan>,
                                        m: nat, n: nat, v: Id, w: Id)
    requires Run(fp, dbs, cs, plans) && m <= n < |dbs| && v in dbs[m].nodes && Spared(dbs, cs, plans, m, n, v)
    ensures CallsTo(dbs[n].edges, v, w) <==> CallsTo(dbs[m].edges, v, w) && NeverCut(dbs, cs, plans, m, n, w)
    decreases n
  {
    if m < n {
      CacheRowOverRun(fp, dbs, cs, plans, m, n - 1, v);
      CallsOverRun(fp, dbs, cs, plans, m, n - 1, v, w);
      CallsOneStep(fp, dbs, cs, plans, m, n - 1, v, w, CallsTo(dbs[m].edges, v, w));
    }
  }

  lemma NeverCutStep(dbs: seq<Db>, cs: seq<Command>, plans: seq<Plan>, m: nat, n: nat, w: Id)
    requires |dbs| == |cs| + 1 && |plans| == |cs| && m <= n < |cs|
    ensures NeverCut(dbs, cs, plans, m, n + 1, w) <==>
              NeverCut(dbs, cs, plans, m, n, w) && !CutsAt(dbs, cs, plans, n, w)
  {
  }

  /** What a target of a valid call edge at state `m` must have gone through to be a callee at state `n`. */
  ghost predicate StillCalled(dbs: seq<Db>, cs: seq<Command>, plans: seq<Plan>, m: nat, n: nat, w: Id)
    requires |dbs| == |cs| + 1 && |plans| == |cs| && n < |dbs|
  {
    NeverCut(dbs, cs, plans, m, n, w) && ValidRow(dbs[n].nodes, w)
  }

  /** Over any stretch of a run without a refresh of `v` and without a reconcile of its file, the cache row stays,
      and the callees are the targets of the first state's valid call edges that were never renamed, updated or
      deleted in a commit and are valid rows at the end. */
  lemma CalleesOverRun(fp: Fingerprint, dbs: seq<Db>, cs: seq<Command>, plans: seq<Plan>, m: nat, n: nat, v: Id, w: Id)
    requires Run(fp, dbs, cs, plans) && m <= n < |dbs| && v in dbs[m].nodes && Spared(dbs, cs, plans, m, n, v)
    ensures v in dbs[n].nodes && (v in dbs[n].calleesCache <==> v in dbs[m].calleesCache)
    ensures v in dbs[m].calleesCache ==> dbs[n].calleesCache[v] == dbs[m].calleesCache[v]
    ensures w in Callees(dbs[n].nodes, dbs[n].edges, v) <==>
              CallsTo(dbs[m].edges, v, w) && StillCalled(dbs, cs, plans, m, n, w)
  {
    CacheRowOverRun(fp, dbs, cs, plans, m, n, v);
    CallsOverRun(fp, dbs, cs, plans, m, n, v, w);
    CalleeMeans(dbs[n].nodes, dbs[n].edges, v, w);
  }

  /** Each target of a valid call edge was a valid row at the start exactly if it is still called at the end. */
  ghost predicate TargetsHeld(dbs: seq<Db>, cs: seq<Command>, plans: seq<Plan>, m: nat, n: nat, v: Id)
    requires |dbs| == |cs| + 1 && |plans| == |cs| && m < |dbs| && n < |dbs|
  {
    forall w :: CallsTo(dbs[m].edges, v, w) ==> (ValidRow(dbs[m].nodes, w) <==> StillCalled(dbs, cs, plans, m, n, w))
  }

  lemma CalleesKeptOverRun(fp: Fingerprint, dbs: seq<Db>, cs: seq<Command>, plans: seq<Plan>, m: nat, n: nat, v: Id)
    requires Run(fp, dbs, cs, plans) && m <= n < |dbs| && v in dbs[m].nodes && Spared(dbs, cs, plans, m, n, v)
    ensures Callees(dbs[n].nodes, dbs[n].edges, v) == Callees(dbs[m].nodes, dbs[m].edges, v) <==>
              TargetsHeld(dbs, cs, plans, m, n, v)
  {
    forall w
      ensures w in Callees(dbs[m].nodes, dbs[m].edges, v) <==> CallsTo(dbs[m].edges, v, w) && ValidRow(dbs[m].nodes, w)
      ensures w in Callees(dbs[n].nodes, dbs[n].edges, v) <==>
                CallsTo(dbs[m].edges, v, w) && StillCalled(dbs, cs, plans, m, n, w)
    {
      CalleeMeans(dbs[m].nodes, dbs[m].edges, v, w);
      CalleesOverRun(fp, dbs, cs, plans, m, n, v, w);
    }
  }

  /** When "a matching hash means the cached graph is exact" holds. `dbs[m]` is the state a refresh of `v` left, `n` a
      later one before any further refresh or reconcile of its file, and the file's text is the same: the cache
      answers for `v`, with what the language server said, if and only if the targets have held. */
  lemma CacheIsExactExactly(fp: Fingerprint, dbs: seq<Db>, cs: seq<Command>, plans: seq<Plan>, m: nat, n: nat, v: Id,
                            before: Db, world: World, text: string, hash: string -> string)
    requires Run(fp, dbs, cs, plans) && m <= n < |dbs| && v in before.nodes && Spared(dbs, cs, plans, m, n, v)
    requires CalleesRefreshed(before, dbs[m], v, world, hash) && world.readText(before.nodes[v].uri) == Some(text)
    ensures v in dbs[n].calleesCache && dbs[n].calleesCache[v] == hash(text)
    ensures Callees(dbs[n].nodes, dbs[n].edges, v) == AnsweredCallees(dbs[m].nodes, v, world.server) <==>
              TargetsHeld(dbs, cs, plans, m, n, v)
  {
    CalleesKeptOverRun(fp, dbs, cs, plans, m, n, v);
    CacheRowOverRun(fp, dbs, cs, plans, m, n, v);
  }

  // ----- inputs -----

  /** `caller`, in one file, calls `callee`, in another; the caller's cache row holds `h`. */
  function OneCall(caller: Node, callee: Node, site: Site, h: string): Db {
    Db(map[1 := caller, 2 := callee], map[1 := Edge(1, 2, Calls, Some(site), true)], 3, 2, map[1 := h], {}, map[])
  }

  predicate Apart(caller: Node, callee: Node) {
    && caller.uri != callee.uri && caller.fqn != callee.fqn && caller.containerId.None? && callee.containerId.None?
    && caller.range.startLine >= 0 && callee.range.startLine >= 0
  }

  lemma OneCallIsSound(caller: Node, callee: Node, site: Site, h: string)
    requires Apart(caller, callee)
    ensures Integrity(OneCall(caller, callee, site, h)) && RealLines(OneCall(caller, callee, site, h).nodes)
  {
    var nodes := OneCall(caller, callee, site, h).nodes;
    assert nodes[1] == caller && nodes[2] == callee;
    forall k | k in nodes
      ensures Fits(nodes, k, nodes[k])
    {
    }
  }

  /** Reconciling the callee's file with the callee alone commits, and claims its row. */
  lemma OneCallCommits(fp: Fingerprint, p: Plan, caller: Node, callee: Node, site: Site, h: string) returns (j: nat)
    requires Apart(caller, callee) && p.uri == callee.uri
    requires |p.syms| == 1 && p.syms[0].fqn == callee.fqn && p.syms[0].parent.None? && p.syms[0].range.startLine >= 0
    requires PlanOn(fp, p, OneCall(caller, callee, site, h))
    ensures var db := OneCall(caller, callee, site, h);
            && Planned(p, db) && Integrity(db) && Replay(p, db).Some?
            && Reconciled(p, db, Replay(p, db).value.ids, Replay(p, db).value.db)
    ensures j < |p.olds| && p.olds[j] == OldRow(2, callee) && p.matched[0] == Some(j)
  {
    var db := OneCall(caller, callee, site, h);
    OneCallIsSound(caller, callee, site, h);
    StableIsPlanned(fp, p, db);
    j := OneCallMatches(p, db, caller, callee);
    AdmissibleFailsExactly(p, db);
    CommitReconciles(p, db);
  }

  lemma OneCallMatches(p: Plan, db: Db, caller: Node, callee: Node) returns (j: nat)
    requires Planned(p, db) && db.nodes == map[1 := caller, 2 := callee] && Apart(caller, callee) && p.uri == callee.uri
    requires |p.syms| == 1 && p.syms[0].fqn == callee.fqn
    ensures j < |p.olds| && p.olds[j] == OldRow(2, callee) && p.matched[0] == Some(j)
    ensures !Collision(p) && !NameTaken(p, db)
  {
    assert db.nodes[2] == callee && db.nodes[1] == caller;
    j :| j < |p.olds| && p.olds[j].id == 2;
    assert Exact(p.olds, p.syms, 0, j);
    forall k | 0 <= k < |p.olds|
      ensures OldTaken(p.matched, k)
    {
      assert p.olds[k].id in db.nodes && p.olds[k].id == p.olds[j].id;
      assert Pairs(p.matched, 0, k);
    }
  }

  /** The cached set can shrink: the callee's body changes, its file is reconciled, and a matching hash now
      vouches for no callees at all. */
  lemma ChangedCalleeIsLost(fp: Fingerprint, p: Plan, caller: Node, callee: Node, site: Site, h: string)
    requires Apart(caller, callee) && p.uri == callee.uri && callee.valid
    requires |p.syms| == 1 && p.syms[0].fqn == callee.fqn && p.syms[0].parent.None? && p.syms[0].range.startLine >= 0
    requires callee.signatureHash != Some(p.syms[0].signatureHash)
    requires PlanOn(fp, p, OneCall(caller, callee, site, h))
    ensures var db := OneCall(caller, callee, site, h);
            && 2 in Callees(db.nodes, db.edges, 1) && Replay(p, db).Some?
            && var db' := Replay(p, db).value.db;
               1 in db'.calleesCache && db'.calleesCache[1] == h && 2 !in Callees(db'.nodes, db'.edges, 1)
  {
    var db := OneCall(caller, callee, site, h);
    var j := OneCallCommits(fp, p, caller, callee, site, h);
    ChangedIsDirty(p, j);
    OneCallIsCalled(caller, callee, site, h);
    CommitOnCallees(p, db, Replay(p, db).value.ids, Replay(p, db).value.db, 1, 2);
  }

  lemma ChangedIsDirty(p: Plan, j: nat)
    requires |p.syms| == |p.matched| == 1 && p.matched[0] == Some(j) && j < |p.olds|
    requires p.olds[j].node.fqn == p.syms[0].fqn && p.olds[j].node.signatureHash != Some(p.syms[0].signatureHash)
    ensures p.olds[j].id in Dirty(p)
  {
    assert Matched(p, 0) && FateOf(p, 0) == Updated;
  }

  lemma OneCallIsCalled(caller: Node, callee: Node, site: Site, h: string)
    ensures var db := OneCall(caller, callee, site, h);
            CallsTo(db.edges, 1, 2) && (2 in Callees(db.nodes, db.edges, 1) <==> callee.valid)
  {
    var db := OneCall(caller, callee, site, h);
    assert CallEdge(db.edges[1], 1, 2);
    CalleeMeans(db.nodes, db.edges, 1, 2);
  }

  /** And it can grow: an orphaned callee is found again, unchanged, and is a callee once more. */
  lemma RevivedCalleeComesBack(fp: Fingerprint, p: Plan, caller: Node, callee: Node, site: Site, h: string)
    requires Apart(caller, callee) && p.uri == callee.uri && !callee.valid
    requires |p.syms| == 1 && p.syms[0].fqn == callee.fqn && p.syms[0].parent.None? && p.syms[0].range.startLine >= 0
    requires callee.signatureHash == Some(p.syms[0].signatureHash)
    requires PlanOn(fp, p, OneCall(caller, callee, site, h))
    ensures var db := OneCall(caller, callee, site, h);
            && 2 !in Callees(db.nodes, db.edges, 1) && Replay(p, db).Some?
            && var db' := Replay(p, db).value.db;
               1 in db'.calleesCache && db'.calleesCache[1] == h && 2 in Callees(db'.nodes, db'.edges, 1)
  {
    var db := OneCall(caller, callee, site, h);
    var j := OneCallCommits(fp, p, caller, callee, site, h);
    assert Matched(p, 0) && FateOf(p, 0) == Unchanged;
    var ids, db' := Replay(p, db).value.ids, Replay(p, db).value.db;
    assert 2 !in Dirty(p);
    assert Placed(p, db, ids, 0, db'.nextNode);
    var i := WrittenRowShows(p, db, ids, db', ids[0]);
    OneCallIsCalled(caller, callee, site, h);
    CommitOnCallees(p, db, ids, db', 1, 2);
  }

  lemma ListedIsCallee(nodes: map<Id, Node>, edges: map<Id, Edge>, v: Id, filter: Node -> bool, listing: seq<Group>,
                       k: nat)
    requires CalleeListing(nodes, edges, v, filter, listing) && k < |listing|
    ensures listing[k].id in Callees(nodes, edges, v)
  {
    assert HasEntry(listing, listing[k].id);
  }

  /** A refresh whose first request times out, or fails otherwise, leaves no callees and the hash of the file; the
      next query for the same text asks nobody and lists nothing. */
  lemma FailedRefreshSticks(before: Db, after: Db, later: Db, v: Id, world: World, next: World, text: string,
                            hash: string -> string, left: nat, usable: bool, filter: Node -> bool, listing: seq<Group>)
    requires v in before.nodes && CalleesRefreshed(before, after, v, world, hash)
    requires world.readText(before.nodes[v].uri) == Some(text) && next.readText(before.nodes[v].uri) == Some(text)
    requires world.server.prepare(SelStart(before.nodes[v])).Failed?
    requires Expanded(after, later, v, Some(next), hash, 1, left, usable)
    requires CalleeListing(later.nodes, later.edges, v, filter, listing)
    ensures v in after.calleesCache && after.calleesCache[v] == hash(text) && Callees(after.nodes, after.edges, v) == {}
    ensures usable && left == 1 && later == after && listing == []
  {
    assert Answered(after.nodes[v], world.server) == [];
    assert AllCallKeys(after.nodes, v, world.server, []) == {};
    if |listing| > 0 {
      ListedIsCallee(later.nodes, later.edges, v, filter, listing, 0);
    }
  }
}
