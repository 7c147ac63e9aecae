/** The thread that owns the database: commands from all over the daemon arrive on one channel and are
    executed one after the other. What holds over every run of it, in whatever order commands arrive. */
module DbActor {
  import opened GraphModel
  import opened RenameMatching
  import opened ReconcileModel
  import opened ReconcileReplay
  import opened ReconcileTheorems
  import opened ReconcileConvergence
  import opened GraphStore

  /** The commands that write; `Read` stands for those that do not. */
  datatype Command =
    | UpsertNode(node: Node)
    | UpsertEdge(edge: Edge)
    | SetMeta(key: string, value: string)
    | ReconcileFileSymbols(uri: string, language: string, isExternal: bool, syms: seq<ReconcileSymbol>)
    | UpdateNodeConstruct(id: Id, construct: string)
    | UpdateNodeSignature(id: Id, signature: string)
    | UpdateNodeSignatureByFqn(fqn: string, signature: string)
    | SetCalleesCacheHash(anchor: Id, hash: string)
    | MarkMaterialized(anchor: Id, edgeType: EdgeType)
    | InvalidateOutgoingCalls(anchor: Id)
    | Read

  /** Callers upsert live rows only, and positions arrive as unsigned numbers. */
  predicate Real(c: Command) {
    match c
    case UpsertNode(n) => Sane(n) && !n.orphan
    case ReconcileFileSymbols(_, _, _, syms) => LinesReal(syms)
    case _ => true
  }

  // ----- what one command does -----

  ghost predicate AcceptsNode(db: Db, n: Node, t: Id) {
    TakesSlot(db.nodes, db.nextNode, n, t) && (n.containerId.Some? ==> n.containerId.value in db.nodes)
  }

  function NodePut(db: Db, n: Node, t: Id): Db {
    db.(nodes := db.nodes[t := n], nextNode := db.nextNode + 1)
  }

  ghost predicate AcceptsEdge(db: Db, e: Edge, t: Id) {
    TakesEdge(db.edges, db.nextEdge, e, t) && e.src in db.nodes && e.dst in db.nodes
  }

  /** A node upsert puts the row in its one slot, or is refused and changes nothing. */
  ghost predicate NodeStep(db: Db, n: Node, db': Db) {
    if t :| AcceptsNode(db, n, t) then db' == NodePut(db, n, t) else db' == db
  }

  ghost predicate EdgeStep(db: Db, e: Edge, db': Db) {
    if t :| AcceptsEdge(db, e, t) then db' == EdgePut(db, e, t) else db' == db
  }

  /** A reconcile with plan `p` commits its replay or is rolled back. */
  ghost predicate ReconcileStep(fp: Fingerprint, db: Db, c: Command, p: Plan, db': Db)
    requires c.ReconcileFileSymbols?
  {
    && PlanFor(p, c.uri, c.language, c.isExternal, c.syms) && PlanOn(fp, p, db)
    && db' == (match Replay(p, db) case None => db case Some(w) => w.db)
  }

  /** The tables after any other command. */
  function AfterUpdate(c: Command, db: Db): Db {
    match c
    case SetMeta(key, value) => db.(meta := db.meta[key := value])
    case UpdateNodeConstruct(id, text) => db.(nodes := WithConstruct(db.nodes, id, text))
    case UpdateNodeSignature(id, text) => db.(nodes := WithSignature(db.nodes, id, text))
    case UpdateNodeSignatureByFqn(fqn, text) => db.(nodes := WithSignatureByFqn(db.nodes, fqn, text))
    case SetCalleesCacheHash(anchor, hash) =>
      if anchor in db.nodes then db.(calleesCache := db.calleesCache[anchor := hash]) else db
    case MarkMaterialized(anchor, edgeType) =>
      if anchor in db.nodes then db.(materialized := db.materialized + {(anchor, edgeType)}) else db
    case InvalidateOutgoingCalls(anchor) => db.(edges := CallsInvalidated(db.edges, anchor))
    case _ => db
  }

  ghost predicate Step(fp: Fingerprint, db: Db, c: Command, p: Plan, db': Db) {
    && Real(c)
    && match c
       case UpsertNode(n) => NodeStep(db, n, db')
       case UpsertEdge(e) => EdgeStep(db, e, db')
       case ReconcileFileSymbols(_, _, _, _) => ReconcileStep(fp, db, c, p, db')
       case _ => db' == AfterUpdate(c, db)
  }

  ghost predicate StepAt(fp: Fingerprint, dbs: seq<Db>, cs: seq<Command>, plans: seq<Plan>, k: nat)
    requires |dbs| == |cs| + 1 && |plans| == |cs| && k < |cs|
  {
    Step(fp, dbs[k], cs[k], plans[k], dbs[k + 1])
  }

  ghost predicate Run(fp: Fingerprint, dbs: seq<Db>, cs: seq<Command>, plans: seq<Plan>) {
    && |dbs| == |cs| + 1 && |plans| == |cs|
    && Integrity(dbs[0]) && AllSane(dbs[0].nodes)
    && (forall k: nat :: k < |cs| ==> StepAt(fp, dbs, cs, plans, k))
  }

  // ----- the thread -----

  lemma SlotsAgree(nodes: map<Id, Node>, next: Id, n: Node, t: Id, t': Id)
    requires TakesSlot(nodes, next, n, t) && TakesSlot(nodes, next, n, t')
    ensures t == t'
  {
  }

  lemma NodeSlotIsOne(db: Db, n: Node, t: Id)
    requires AcceptsNode(db, n, t)
    ensures NodeStep(db, n, NodePut(db, n, t))
  {
    forall t' | AcceptsNode(db, n, t')
      ensures t' == t
    {
      SlotsAgree(db.nodes, db.nextNode, n, t, t');
    }
  }

  lemma NoNodeSlot(db: Db, n: Node)
    requires UniqueNodes(db.nodes)
    requires || (n.containerId.Some? && n.containerId.value !in db.nodes)
             || (exists f, g :: && f in db.nodes && g in db.nodes && f != g
                                && db.nodes[f].fqn == n.fqn && Phys(db.nodes[g]) == Phys(n))
    ensures NodeStep(db, n, db)
  {
    forall t
      ensures !AcceptsNode(db, n, t)
    {
      if f, g :| f in db.nodes && g in db.nodes && f != g && db.nodes[f].fqn == n.fqn && Phys(db.nodes[g]) == Phys(n) {
        assert t != f || t != g;
      }
    }
  }

  lemma EdgeSlotIsOne(db: Db, e: Edge, t: Id)
    requires UniqueEdges(db.edges) && AcceptsEdge(db, e, t)
    ensures EdgeStep(db, e, EdgePut(db, e, t))
  {
  }

  method HandleNode(store: Store, n: Node)
    requires store.Valid()
    modifies store
    ensures store.Valid() && NodeStep(old(store.View()), n, store.View())
  {
    ghost var before := store.View();
    var r := store.UpsertNode(n);
    if r.Success? {
      NodeSlotIsOne(before, n, r.value);
    } else {
      NoNodeSlot(before, n);
    }
  }

  method HandleEdge(store: Store, e: Edge)
    requires store.Valid()
    modifies store
    ensures store.Valid() && EdgeStep(old(store.View()), e, store.View())
  {
    ghost var before := store.View();
    var r := store.UpsertEdge(e);
    if r.Success? {
      EdgeSlotIsOne(before, e, r.value);
    }
  }

  method HandleReconcile(store: Store, c: Command) returns (ghost p: Plan)
    requires store.Valid() && RealLines(store.nodes) && c.ReconcileFileSymbols? && Real(c)
    modifies store
    ensures store.Valid() && Step(store.bodyFingerprint, old(store.View()), c, p, store.View())
  {
    var r;
    ghost var ids;
    r, p, ids := store.ReconcileFileSymbols(c.uri, c.language, c.isExternal, c.syms);
  }

  method HandleUpdate(store: Store, c: Command)
    requires store.Valid() && !c.UpsertNode? && !c.UpsertEdge? && !c.ReconcileFileSymbols?
    modifies store
    ensures store.Valid() && store.View() == AfterUpdate(c, old(store.View()))
  {
    match c {
      case SetMeta(key, value) => store.SetMeta(key, value);
      case UpdateNodeConstruct(id, text) => store.UpdateNodeConstruct(id, text);
      case UpdateNodeSignature(id, text) => store.UpdateNodeSignature(id, text);
      case UpdateNodeSignatureByFqn(fqn, text) => store.UpdateNodeSignatureByFqn(fqn, text);
      case SetCalleesCacheHash(anchor, hash) =>
        if anchor in store.nodes { store.SetCalleesCacheHash(anchor, hash); }
      case MarkMaterialized(anchor, edgeType) =>
        if anchor in store.nodes { store.MarkMaterialized(anchor, edgeType); }
      case InvalidateOutgoingCalls(anchor) => store.InvalidateOutgoingCalls(anchor);
      case Read =>
    }
  }

  method Handle(store: Store, c: Command) returns (ghost p: Plan)
    requires store.Valid() && AllSane(store.nodes) && Real(c)
    modifies store
    ensures store.Valid() && Step(store.bodyFingerprint, old(store.View()), c, p, store.View())
  {
    p := Plan("", "", false, [], [], []);
    match c {
      case UpsertNode(n) => HandleNode(store, n);
      case UpsertEdge(e) => HandleEdge(store, e);
      case ReconcileFileSymbols(_, _, _, _) => p := HandleReconcile(store, c);
      case _ => HandleUpdate(store, c);
    }
  }

  /** The receive loop: every sequence of commands is a run. */
  method Serve(store: Store, commands: seq<Command>) returns (ghost dbs: seq<Db>, ghost plans: seq<Plan>)
    requires store.Valid() && AllSane(store.nodes) && forall c :: c in commands ==> Real(c)
    modifies store
    ensures Run(store.bodyFingerprint, dbs, commands, plans)
    ensures dbs[0] == old(store.View()) && dbs[|commands|] == store.View()
    ensures store.Valid() && AllSane(store.nodes)
  {
    dbs, plans := [store.View()], [];
    for i := 0 to |commands|
      invariant |dbs| == i + 1 && |plans| == i && Run(store.bodyFingerprint, dbs, commands[..i], plans)
      invariant dbs[0] == old(store.View()) && dbs[i] == store.View()
      invariant store.Valid() && AllSane(store.nodes)
    {
      assert commands[i] in commands;
      ghost var before := store.View();
      ghost var p := Handle(store, commands[i]);
      StepKeepsSound(store.bodyFingerprint, before, commands[i], p, store.View());
      RunGrows(store.bodyFingerprint, dbs, commands[..i], plans, commands[i], p, store.View());
      assert commands[..i + 1] == commands[..i] + [commands[i]];
      dbs, plans := dbs + [store.View()], plans + [p];
    }
    assert commands[..|commands|] == commands;
  }

  lemma RunGrows(fp: Fingerprint, dbs: seq<Db>, cs: seq<Command>, plans: seq<Plan>, c: Command, p: Plan, db': Db)
    requires Run(fp, dbs, cs, plans) && Step(fp, dbs[|cs|], c, p, db')
    ensures Run(fp, dbs + [db'], cs + [c], plans + [p])
  {
    var dbs', cs', plans' := dbs + [db'], cs + [c], plans + [p];
    forall k: nat | k < |cs'|
      ensures StepAt(fp, dbs', cs', plans', k)
    {
      if k < |cs| { assert StepAt(fp, dbs, cs, plans, k); }
    }
  }

  // ----- every state of every run -----

  lemma NodeStepKeepsIntegrity(db: Db, n: Node, db': Db)
    requires Integrity(db) && NodeStep(db, n, db')
    ensures Integrity(db')
  {
    if t :| AcceptsNode(db, n, t) && db' == NodePut(db, n, t) {
      RowChangeKeepsIntegrity(db, t, n, db'.nextNode);
    }
  }

  lemma EdgeStepKeepsIntegrity(db: Db, e: Edge, db': Db)
    requires Integrity(db) && EdgeStep(db, e, db')
    ensures Integrity(db')
  {
    if t :| AcceptsEdge(db, e, t) && db' == EdgePut(db, e, t) {
      EdgePutKeepsIntegrity(db, e, t);
    }
  }

  lemma CallsInvalidatedKeepIntegrity(db: Db, anchor: Id)
    requires Integrity(db)
    ensures Integrity(db.(edges := CallsInvalidated(db.edges, anchor)))
  {
  }

  lemma CacheKeepsIntegrity(db: Db, anchor: Id, hash: string, edgeType: EdgeType)
    requires Integrity(db) && anchor in db.nodes
    ensures Integrity(db.(calleesCache := db.calleesCache[anchor := hash]))
    ensures Integrity(db.(materialized := db.materialized + {(anchor, edgeType)}))
  {
  }

  lemma UpdateKeepsIntegrity(c: Command, db: Db)
    requires Integrity(db)
    ensures Integrity(AfterUpdate(c, db))
  {
    match c {
      case UpdateNodeConstruct(id, text) => ConstructKeepsIntegrity(db, id, text);
      case UpdateNodeSignature(id, text) => SignatureKeepsIntegrity(db, id, text);
      case UpdateNodeSignatureByFqn(fqn, text) => SignatureByFqnKeepsIntegrity(db, fqn, text);
      case InvalidateOutgoingCalls(anchor) => CallsInvalidatedKeepIntegrity(db, anchor);
      case SetCalleesCacheHash(anchor, hash) =>
        if anchor in db.nodes { CacheKeepsIntegrity(db, anchor, hash, Calls); }
      case MarkMaterialized(anchor, edgeType) =>
        if anchor in db.nodes { CacheKeepsIntegrity(db, anchor, "", edgeType); }
      case SetMeta(key, value) => assert Integrity(db.(meta := db.meta[key := value]));
      case _ => assert AfterUpdate(c, db) == db;
    }
  }

  /** Row `id` is still there, and is either a new live row or as it was but for its annotations. */
  ghost predicate RowKept(db: Db, db': Db, id: Id) {
    && (id in db.nodes ==> id in db'.nodes)
    && (id in db'.nodes ==>
          var n := db'.nodes[id];
          || (Sane(n) && !n.orphan)
          || (id in db.nodes && n == db.nodes[id].(construct := n.construct, signature := n.signature)))
  }

  /** A command other than a reconcile deletes no row, and leaves the file and the mark of a row it does not replace. */
  lemma OtherCommandKeepsRows(fp: Fingerprint, db: Db, c: Command, p: Plan, db': Db, id: Id)
    requires Step(fp, db, c, p, db') && !c.ReconcileFileSymbols?
    ensures RowKept(db, db', id)
  {
    match c
    case UpsertNode(n) => NodeStepOnRow(db, n, db', id);
    case UpsertEdge(e) => assert db'.nodes == db.nodes;
    case _ => UpdateOnRow(c, db, id);
  }

  lemma NodeStepOnRow(db: Db, n: Node, db': Db, id: Id)
    requires NodeStep(db, n, db') && Sane(n) && !n.orphan
    ensures RowKept(db, db', id)
  {
  }

  lemma UpdateOnRow(c: Command, db: Db, id: Id)
    ensures RowKept(db, AfterUpdate(c, db), id)
  {
    match c
    case UpdateNodeConstruct(k, text) => ConstructOnRow(db, k, text, id);
    case UpdateNodeSignature(k, text) => SignatureOnRow(db, k, text, id);
    case UpdateNodeSignatureByFqn(fqn, text) => SignatureByFqnOnRow(db, fqn, text, id);
    case _ => assert AfterUpdate(c, db).nodes == db.nodes;
  }

  lemma ConstructOnRow(db: Db, k: Id, text: string, id: Id)
    ensures RowKept(db, db.(nodes := WithConstruct(db.nodes, k, text)), id)
  {
  }

  lemma SignatureOnRow(db: Db, k: Id, text: string, id: Id)
    ensures RowKept(db, db.(nodes := WithSignature(db.nodes, k, text)), id)
  {
  }

  lemma SignatureByFqnOnRow(db: Db, fqn: string, text: string, id: Id)
    ensures RowKept(db, db.(nodes := WithSignatureByFqn(db.nodes, fqn, text)), id)
  {
  }

  lemma StepKeepsSound(fp: Fingerprint, db: Db, c: Command, p: Plan, db': Db)
    requires Integrity(db) && AllSane(db.nodes) && Step(fp, db, c, p, db')
    ensures Integrity(db') && AllSane(db'.nodes)
  {
    match c
    case ReconcileFileSymbols(_, _, _, _) => ReconcileKeepsSound(fp, db, c, p, db');
    case _ =>
      OtherCommandKeepsIntegrity(fp, db, c, p, db');
      forall id | id in db'.nodes
        ensures Sane(db'.nodes[id])
      {
        OtherCommandKeepsRows(fp, db, c, p, db', id);
      }
  }

  lemma OtherCommandKeepsIntegrity(fp: Fingerprint, db: Db, c: Command, p: Plan, db': Db)
    requires Integrity(db) && Step(fp, db, c, p, db') && !c.ReconcileFileSymbols?
    ensures Integrity(db')
  {
    match c
    case UpsertNode(n) => NodeStepKeepsIntegrity(db, n, db');
    case UpsertEdge(e) => EdgeStepKeepsIntegrity(db, e, db');
    case _ => UpdateKeepsIntegrity(c, db);
  }

  lemma ReconcileKeepsSound(fp: Fingerprint, db: Db, c: Command, p: Plan, db': Db)
    requires Integrity(db) && AllSane(db.nodes) && c.ReconcileFileSymbols? && LinesReal(c.syms)
    requires ReconcileStep(fp, db, c, p, db')
    ensures Integrity(db') && AllSane(db'.nodes)
  {
    if Replay(p, db).Some? {
      StableIsPlanned(fp, p, db);
      CommitReconciles(p, db);
      CommitKeepsSane(p, db, Replay(p, db).value.ids, db');
    }
  }

  /** Whatever commands arrive, both unique indexes, every reference and the AUTOINCREMENT bounds hold in every
      state, no parking line survives, and `valid` is the opposite of `orphan`. */
  lemma {:induction false} RunsStaySound(fp: Fingerprint, dbs: seq<Db>, cs: seq<Command>, plans: seq<Plan>, k: nat)
    requires Run(fp, dbs, cs, plans) && k < |dbs|
    ensures Integrity(dbs[k]) && AllSane(dbs[k].nodes)
  {
    if k > 0 {
      RunsStaySound(fp, dbs, cs, plans, k - 1);
      assert StepAt(fp, dbs, cs, plans, k - 1);
      StepKeepsSound(fp, dbs[k - 1], cs[k - 1], plans[k - 1], dbs[k]);
    }
  }

  // ----- two strikes -----

  /** Command `k` is a reconcile of `uri` that commits. */
  ghost predicate CommitsAt(dbs: seq<Db>, cs: seq<Command>, plans: seq<Plan>, k: int, uri: string)
    requires |dbs| == |cs| + 1 && |plans| == |cs|
  {
    0 <= k < |cs| && cs[k].ReconcileFileSymbols? && cs[k].uri == uri && Replay(plans[k], dbs[k]).Some?
  }

  /** What one step does to rows. */
  lemma StepOnRows(fp: Fingerprint, dbs: seq<Db>, cs: seq<Command>, plans: seq<Plan>, n: nat, id: Id)
    requires Run(fp, dbs, cs, plans) && n < |cs|
    ensures id in dbs[n].nodes && id !in dbs[n + 1].nodes ==>
              && dbs[n].nodes[id].orphan && Unclaimed(plans[n], id)
              && CommitsAt(dbs, cs, plans, n, dbs[n].nodes[id].uri)
    ensures id in dbs[n + 1].nodes && dbs[n + 1].nodes[id].orphan ==>
              if CommitsAt(dbs, cs, plans, n, dbs[n + 1].nodes[id].uri) then Unclaimed(plans[n], id)
              else id in dbs[n].nodes && dbs[n].nodes[id].orphan && dbs[n].nodes[id].uri == dbs[n + 1].nodes[id].uri
  {
    RunsStaySound(fp, dbs, cs, plans, n);
    assert StepAt(fp, dbs, cs, plans, n);
    if !cs[n].ReconcileFileSymbols? {
      OtherCommandKeepsRows(fp, dbs[n], cs[n], plans[n], dbs[n + 1], id);
    } else if Replay(plans[n], dbs[n]).Some? {
      CommitOnRow(fp, plans[n], dbs[n], dbs[n + 1], id);
    }
  }

  lemma CommitOnRow(fp: Fingerprint, p: Plan, db: Db, db': Db, id: Id)
    requires Integrity(db) && LinesReal(p.syms) && Commits(fp, p, db, db')
    ensures id in db.nodes && id !in db'.nodes ==> db.nodes[id].uri == p.uri && db.nodes[id].orphan && Unclaimed(p, id)
    ensures id in db'.nodes && db'.nodes[id].orphan && db'.nodes[id].uri == p.uri ==> Unclaimed(p, id)
    ensures id in db'.nodes && db'.nodes[id].uri != p.uri ==>
              id in db.nodes && db.nodes[id].uri == db'.nodes[id].uri && db.nodes[id].orphan == db'.nodes[id].orphan
  {
    StableIsPlanned(fp, p, db);
    CommitOnRows(p, db);
    CommitReconciles(p, db);
    if id in db'.nodes && db'.nodes[id].uri != p.uri {
      NoStrayRows(p, db, Replay(p, db).value.ids, db', id);
    }
  }

  /** Command `k` is the last committed reconcile of `uri` before state `n`; no symbol claims row `id` in it,
      and the row has been an orphan of `uri` since. */
  ghost predicate LastStrike(dbs: seq<Db>, cs: seq<Command>, plans: seq<Plan>, uri: string, id: Id, k: int, n: int)
    requires |dbs| == |cs| + 1 && |plans| == |cs| && n < |dbs|
  {
    && 0 <= k < n && CommitsAt(dbs, cs, plans, k, uri) && Unclaimed(plans[k], id)
    && (forall m :: k < m < n ==> !CommitsAt(dbs, cs, plans, m, uri))
    && (forall m :: k < m <= n ==> OrphanOf(dbs[m], id, uri))
  }

  predicate OrphanOf(db: Db, id: Id, uri: string) {
    id in db.nodes && db.nodes[id].orphan && db.nodes[id].uri == uri
  }

  /** An orphan got its mark in the latest committed reconcile of its file. */
  lemma {:induction false} OrphanHasStrike(fp: Fingerprint, dbs: seq<Db>, cs: seq<Command>, plans: seq<Plan>,
                                           n: nat, id: Id) returns (k: int)
    requires Run(fp, dbs, cs, plans) && n < |dbs|
    requires id in dbs[n].nodes && dbs[n].nodes[id].orphan
    requires id in dbs[0].nodes ==> !dbs[0].nodes[id].orphan
    ensures LastStrike(dbs, cs, plans, dbs[n].nodes[id].uri, id, k, n)
  {
    k := n - 1;
    if n > 0 {
      StepOnRows(fp, dbs, cs, plans, n - 1, id);
      if !CommitsAt(dbs, cs, plans, n - 1, dbs[n].nodes[id].uri) {
        k := OrphanHasStrike(fp, dbs, cs, plans, n - 1, id);
        StrikeStays(dbs, cs, plans, dbs[n].nodes[id].uri, id, k, n - 1);
      }
    }
  }

  lemma StrikeStays(dbs: seq<Db>, cs: seq<Command>, plans: seq<Plan>, uri: string, id: Id, k: int, n: nat)
    requires |dbs| == |cs| + 1 && |plans| == |cs| && n < |cs|
    requires LastStrike(dbs, cs, plans, uri, id, k, n)
    requires !CommitsAt(dbs, cs, plans, n, uri) && OrphanOf(dbs[n + 1], id, uri)
    ensures LastStrike(dbs, cs, plans, uri, id, k, n + 1)
  {
  }

  /** Two strikes: over any run, a row goes away only in a committed reconcile of the file it is in that leaves it
      unclaimed, right after another committed reconcile of that file did the same, and it was an orphan of
      that file all the time in between. */
  lemma DeletionTakesTwoStrikes(fp: Fingerprint, dbs: seq<Db>, cs: seq<Command>, plans: seq<Plan>, n: nat, id: Id)
      returns (k: int)
    requires Run(fp, dbs, cs, plans) && n < |cs|
    requires id in dbs[0].nodes ==> !dbs[0].nodes[id].orphan
    requires id in dbs[n].nodes && id !in dbs[n + 1].nodes
    ensures CommitsAt(dbs, cs, plans, n, dbs[n].nodes[id].uri) && Unclaimed(plans[n], id)
    ensures LastStrike(dbs, cs, plans, dbs[n].nodes[id].uri, id, k, n)
  {
    StepOnRows(fp, dbs, cs, plans, n, id);
    k := OrphanHasStrike(fp, dbs, cs, plans, n, id);
  }
}
