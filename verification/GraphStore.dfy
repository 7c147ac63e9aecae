/** The database as the one connection sees it, statement by statement, and the
    reconcile transaction built from those statements. */
module GraphStore {
  import opened Wrappers
  import opened GraphModel
  import opened RenameMatching
  import opened ReconcileModel
  import opened ReconcileReplay
  import opened ReconcileForecast
  import opened Innermost
  import opened SortKeys
  import opened Grouping

  class Store {
    var nodes: map<Id, Node>
    var edges: map<Id, Edge>
    var nextNode: Id
    var nextEdge: Id
    var calleesCache: map<Id, string>
    var materialized: set<(Id, EdgeType)>
    var meta: map<string, string>
    const bodyFingerprint: Fingerprint

    function View(): Db
      reads this
    {
      Db(nodes, edges, nextNode, nextEdge, calleesCache, materialized, meta)
    }

    ghost predicate Valid()
      reads this
    {
      Integrity(View())
    }

    constructor (bodyFingerprint: Fingerprint)
      ensures Valid()
      ensures nodes == map[] && edges == map[] && meta == map[]
      ensures this.bodyFingerprint == bodyFingerprint
    {
      nodes, edges, nextNode, nextEdge := map[], map[], 1, 1;
      calleesCache, materialized, meta := map[], {}, map[];
      this.bodyFingerprint := bodyFingerprint;
    }

    /** Write `row` under an existing id, unless a UNIQUE index or the container's
        foreign key forbids it. */
    method WriteRow(id: Id, row: Node) returns (r: Result<(), DbError>)
      requires Valid() && id in nodes
      modifies this`nodes
      ensures Valid()
      ensures r != Failure(ParentNotProcessed)
      ensures r.Success? <==>
                && (forall k :: k in old(nodes) && k != id ==>
                    old(nodes)[k].fqn != row.fqn && !SameStart(old(nodes)[k], row))
                && (row.containerId.Some? ==> row.containerId.value in old(nodes))
      ensures nodes == if r.Success? then old(nodes)[id := row] else old(nodes)
    {
      if !Fits(nodes, id, row) {
        return Failure(UniqueViolation);
      }
      if row.containerId.Some? && row.containerId.value !in nodes {
        return Failure(ForeignKeyViolation);
      }
      RowChangeKeepsIntegrity(View(), id, row, nextNode);
      nodes := nodes[id := row];
      return Success(());
    }

    /** INSERT ... ON CONFLICT(fqn) ... ON CONFLICT(uri, line, col, name): either way a
        conflicting row takes over every column and keeps its id. AUTOINCREMENT uses up an id in each case. */
    method UpsertNode(n: Node) returns (r: Result<Id, DbError>)
      requires Valid()
      modifies this`nodes, this`nextNode
      ensures Valid()
      ensures r != Failure(ParentNotProcessed)
      ensures r.Success? ==> && TakesSlot(old(nodes), old(nextNode), n, r.value) && nodes == old(nodes)[r.value := n]
                             && nextNode == old(nextNode) + 1
      ensures r.Failure? ==> nodes == old(nodes) && nextNode == old(nextNode)
      ensures r.Failure? <==> || (n.containerId.Some? && n.containerId.value !in old(nodes))
                              || (exists f, g :: && f in old(nodes) && g in old(nodes) && f != g
                                                 && old(nodes)[f].fqn == n.fqn && SameStart(old(nodes)[g], n))
    {
      if n.containerId.Some? && n.containerId.value !in nodes {
        return Failure(ForeignKeyViolation);
      }
      var id := nextNode;
      if f :| f in nodes && nodes[f].fqn == n.fqn {
        assert Fits(nodes, f, nodes[f]);
        if !Fits(nodes, f, n) {
          return Failure(UniqueViolation);
        }
        id := f;
      } else if g :| g in nodes && Phys(nodes[g]) == Phys(n) {
        assert Fits(nodes, g, nodes[g]);
        id := g;
      }
      nextNode := nextNode + 1;
      RowChangeKeepsIntegrity(old(View()), id, n, nextNode);
      nodes := nodes[id := n];
      return Success(id);
    }

    method InvalidateEdges(id: Id)
      requires Valid()
      modifies this`edges
      ensures Valid()
      ensures edges == Invalidated(old(edges), {id})
    {
      edges := Invalidated(edges, {id});
    }

    method DeleteNode(id: Id)
      requires Valid()
      modifies this`nodes, this`edges, this`calleesCache, this`materialized
      ensures Valid()
      ensures View() == NodeDeleted(old(View()), id)
    {
      DeleteKeepsIntegrity(View(), id);
      nodes, edges := WithoutNode(nodes, id), Pruned(edges, {id});
      calleesCache, materialized := WithoutAnchors(calleesCache, {id}), WithoutMarks(materialized, {id});
    }

    /** Look up by the NULL-safe key, refresh the row found, else insert. */
    method UpsertEdge(e: Edge) returns (r: Result<Id, DbError>)
      requires Valid()
      modifies this`edges, this`nextEdge
      ensures Valid()
      ensures r != Failure(ParentNotProcessed)
      ensures r.Success? <==> e.src in nodes && e.dst in nodes
      ensures r.Success? ==> EdgeUpserted(old(edges), old(nextEdge), e, edges, nextEdge, r.value)
      ensures r.Failure? ==> edges == old(edges) && nextEdge == old(nextEdge)
    {
      if k :| k in edges && KeyOf(edges[k]) == KeyOf(e) {
        edges := edges[k := e];
        return Success(k);
      }
      if e.src !in nodes || e.dst !in nodes {
        return Failure(ForeignKeyViolation);
      }
      edges := edges[nextEdge := e];
      nextEdge := nextEdge + 1;
      return Success(nextEdge - 1);
    }

    // ----- what queries use -----

    /** Scan for the tightest valid row around a position. */
    method FindNodeByPosition(uri: string, line: int, col: int) returns (found: Option<Id>)
      requires Valid()
      ensures Finds(nodes, uri, line, col, found)
      ensures found.Some? ==> found.value in nodes && Around(nodes[found.value], uri, line, col)
      ensures forall k :: k in nodes && Around(nodes[k], uri, line, col) ==>
                            found.Some? && NoWider(nodes[found.value].range, nodes[k].range)
    {
      found := None;
      for id := 1 to nextNode
        invariant BestBelow(nodes, uri, line, col, id, found)
      {
        if Hit(nodes, uri, line, col, id) && (found.None? || Tighter(nodes[id].range, nodes[found.value].range)) {
          found := Some(id);
        }
      }
      assert forall k :: k in nodes && Around(nodes[k], uri, line, col) ==> Hit(nodes, uri, line, col, k);
    }

    method InvalidateOutgoingCalls(anchor: Id)
      requires Valid()
      modifies this`edges
      ensures Valid()
      ensures edges == CallsInvalidated(old(edges), anchor)
    {
      edges := CallsInvalidated(edges, anchor);
    }

    /** The other ends of the valid `calls` edges leaving `id`, one row per edge, in node order. */
    method OutgoingCalls(id: Id) returns (rows: seq<Neighbor>, ghost from: seq<Id>)
      requires Valid()
      ensures OneRowPerCall(nodes, edges, id, nextEdge, rows, from) && KeysInOrder(rows)
      ensures forall r :: 0 <= r < |rows| ==> NeighborRow(nodes, edges, id, rows[r])
      ensures forall e :: e in edges && CallFrom(nodes, edges, id, e) ==> HasRow(nodes, edges, rows, e)
    {
      rows, from := [], [];
      for e := 1 to nextEdge
        invariant OneRowPerCall(nodes, edges, id, e, rows, from) && KeysInOrder(rows)
      {
        if e in edges && CallFrom(nodes, edges, id, e) {
          var at := PlaceFor(rows, RowFor(nodes, edges[e]));
          CallAdded(nodes, edges, id, e, rows, from, at);
          rows, from := PutIn(rows, at, RowFor(nodes, edges[e])), PutIn(from, at, e);
        }
      }
      RowsCoverCalls(nodes, edges, id, nextEdge, rows, from);
    }

    method SetCalleesCacheHash(anchor: Id, hash: string)
      requires Valid() && anchor in nodes
      modifies this`calleesCache
      ensures Valid()
      ensures calleesCache == old(calleesCache)[anchor := hash]
    {
      calleesCache := calleesCache[anchor := hash];
    }

    method MarkMaterialized(anchor: Id, edgeType: EdgeType)
      requires Valid() && anchor in nodes
      modifies this`materialized
      ensures Valid()
      ensures materialized == old(materialized) + {(anchor, edgeType)}
    {
      materialized := materialized + {(anchor, edgeType)};
    }

    method UpdateNodeConstruct(id: Id, text: string)
      requires Valid()
      modifies this`nodes
      ensures Valid()
      ensures nodes == WithConstruct(old(nodes), id, text)
      ensures forall k :: k in nodes ==>
                            nodes[k] == if k == id then old(nodes)[k].(construct := Some(text)) else old(nodes)[k]
    {
      ConstructKeepsIntegrity(View(), id, text);
      nodes := WithConstruct(nodes, id, text);
    }

    method UpdateNodeSignature(id: Id, text: string)
      requires Valid()
      modifies this`nodes
      ensures Valid()
      ensures nodes == WithSignature(old(nodes), id, text)
      ensures forall k :: k in nodes ==>
                            nodes[k] == if k == id then old(nodes)[k].(signature := Some(text)) else old(nodes)[k]
    {
      SignatureKeepsIntegrity(View(), id, text);
      nodes := WithSignature(nodes, id, text);
    }

    method UpdateNodeSignatureByFqn(fqn: string, text: string)
      requires Valid()
      modifies this`nodes
      ensures Valid()
      ensures nodes == WithSignatureByFqn(old(nodes), fqn, text)
      ensures forall k :: k in nodes ==>
                            nodes[k] == if old(nodes)[k].fqn == fqn then old(nodes)[k].(signature := Some(text))
                                        else old(nodes)[k]
    {
      SignatureByFqnKeepsIntegrity(View(), fqn, text);
      nodes := WithSignatureByFqn(nodes, fqn, text);
    }

    // ----- what the startup pass asks -----

    /** The files the graph believes exist: those with a row that is not an orphan. */
    method KnownUris() returns (uris: seq<string>)
      requires Valid()
      ensures forall u :: u in uris <==> exists id :: id in nodes && nodes[id].uri == u && !nodes[id].orphan
      ensures forall a, b :: 0 <= a < b < |uris| ==> uris[a] != uris[b]
    {
      uris := [];
      for id := 1 to nextNode
        invariant forall a, b :: 0 <= a < b < |uris| ==> uris[a] != uris[b]
        invariant forall u :: u in uris <==> exists k :: k in nodes && nodes[k].uri == u && !nodes[k].orphan && k < id
      {
        if id in nodes && !nodes[id].orphan && nodes[id].uri !in uris {
          uris := uris + [nodes[id].uri];
        }
      }
    }

    /** Rows of `uri` besides its module root, orphans included. */
    method CountRealNodes(uri: string, moduleFqn: string) returns (count: nat)
      requires Valid()
      ensures count == |RealRows(nodes, uri, moduleFqn)|
      ensures count > 0 <==> exists id :: id in RealRows(nodes, uri, moduleFqn)
    {
      count := 0;
      ghost var seen: set<Id> := {};
      for id := 1 to nextNode
        invariant seen == (set k | k in RealRows(nodes, uri, moduleFqn) && k < id) && count == |seen|
        invariant count > 0 <==> exists k :: k in seen
      {
        if id in nodes && nodes[id].uri == uri && nodes[id].fqn != moduleFqn {
          seen := seen + {id};
          count := count + 1;
        }
      }
      assert seen == RealRows(nodes, uri, moduleFqn);
    }

    method SetMeta(key: string, value: string)
      requires Valid()
      modifies this`meta
      ensures Valid() && meta == old(meta)[key := value]
    {
      meta := meta[key := value];
    }

    // ----- reconcile -----

    /** Every row of `uri`, orphans included. The query has no ORDER BY, so no order is promised. */
    method NodesByUri(uri: string) returns (olds: seq<OldRow>)
      requires Valid()
      ensures Enumerates(olds, nodes, uri) && DistinctFqns(olds)
    {
      olds := [];
      for id := 1 to nextNode
        invariant forall j :: 0 <= j < |olds| ==> && olds[j].id in nodes && olds[j].id < id
                                                  && nodes[olds[j].id] == olds[j].node && olds[j].node.uri == uri
        invariant forall a, b :: 0 <= a < |olds| && 0 <= b < |olds| && olds[a].id == olds[b].id ==> a == b
        invariant forall k :: k in nodes && nodes[k].uri == uri && k < id ==> Listed(olds, k)
      {
        if id in nodes && nodes[id].uri == uri {
          ghost var before := olds;
          olds := olds + [OldRow(id, nodes[id])];
          assert olds[|before|].id == id;
          assert forall j :: 0 <= j < |before| ==> olds[j] == before[j];
        }
      }
      forall a, b | 0 <= a < |olds| && 0 <= b < |olds| && olds[a].node.fqn == olds[b].node.fqn
        ensures a == b
      {
        assert Fits(nodes, olds[a].id, nodes[olds[a].id]);
      }
    }

    /** Move every row of the file to the line `-id`, one row at a time as SQLite does. */
    method Park(olds: seq<OldRow>, uri: string) returns (r: Result<(), DbError>)
      requires Valid() && Enumerates(olds, nodes, uri)
      modifies this`nodes
      ensures Valid() && nodes.Keys == old(nodes.Keys)
      ensures r != Failure(ParentNotProcessed)
      ensures RealLines(old(nodes)) ==> r.Success?
      ensures r.Success? ==>
                forall id :: id in nodes ==>
                               var was := old(nodes)[id];
                               nodes[id] == if was.uri == uri then was.(range := was.range.(startLine := -id)) else was
    {
      ghost var before := View();
      for k := 0 to |olds|
        invariant Valid() && nodes.Keys == before.nodes.Keys
        invariant View() == before.(nodes := nodes)
        invariant ParkedUpTo(olds, before.nodes, nodes, k)
      {
        r := ParkRow(olds, k, uri, before);
        if r.Failure? { return; }
      }
      r := Success(());
    }

    method ParkRow(olds: seq<OldRow>, k: nat, uri: string, ghost before: Db) returns (r: Result<(), DbError>)
      requires Valid() && k < |olds| && Enumerates(olds, before.nodes, uri) && Integrity(before)
      requires nodes.Keys == before.nodes.Keys && ParkedUpTo(olds, before.nodes, nodes, k)
      modifies this`nodes
      ensures Valid() && nodes.Keys == old(nodes.Keys)
      ensures r != Failure(ParentNotProcessed)
      ensures RealLines(before.nodes) ==> r.Success?
      ensures r.Success? ==> ParkedUpTo(olds, before.nodes, nodes, k + 1)
    {
      var id := olds[k].id;
      assert RowIs(nodes, id, before.nodes[id]);
      if RealLines(before.nodes) { ParkFits(olds, before, nodes, k, uri); }
      assert nodes[id].containerId.Some? ==> nodes[id].containerId.value in before.nodes;
      r := WriteRow(id, Parked(nodes[id], id));
    }

    /** The turn of a claimed symbol: UPDATE its row, and invalidate its edges if it was renamed or has changed. */
    method UpdateClaimed(p: Plan, ids: seq<Id>, container: Option<Id>, j: nat, out0: Outcome)
      returns (r: Result<Id, DbError>, out: Outcome)
      requires Valid() && |ids| < |p.syms| == |p.matched| && container == Container(p.syms, ids, |ids|)
      requires p.syms[|ids|].parent.Some? ==> p.syms[|ids|].parent.value < |ids|
      requires p.matched[|ids|] == Some(j) && j < |p.olds| && p.olds[j].id in nodes
      modifies this`nodes, this`edges
      ensures Valid() && nodes.Keys == old(nodes).Keys
      ensures r != Failure(ParentNotProcessed)
      ensures match WriteNext(p, Writing(old(View()), ids))
              case None => r.Failure?
              case Some(w) =>
                && r.Success? && w == Writing(View(), ids + [r.value])
                && out == Tally(out0, FateOf(p, |ids|))
    {
      var sym, id, prior := p.syms[|ids|], p.olds[j].id, p.olds[j].node;
      ghost var w := Writing(View(), ids);
      InvalidatedNone(edges);
      var written := WriteRow(id, UpdatedRow(nodes[id], sym, container));
      if written.Failure? {
        return Failure(written.error), out0;
      }
      if prior.fqn != sym.fqn {
        out := out0.(renamed := out0.renamed + 1);
        InvalidateEdges(id);
      } else if prior.signatureHash != Some(sym.signatureHash) {
        out := out0.(updated := out0.updated + 1);
        InvalidateEdges(id);
      } else {
        out := out0.(kept := out0.kept + 1);
      }
      WriteIsNext(p, w, id);
      r := Success(id);
    }

    /** The turn of an unclaimed symbol. */
    method InsertFresh(p: Plan, ids: seq<Id>, container: Option<Id>, out0: Outcome)
      returns (r: Result<Id, DbError>, out: Outcome)
      requires Valid() && |ids| < |p.syms| == |p.matched| && container == Container(p.syms, ids, |ids|)
      requires p.syms[|ids|].parent.Some? ==> p.syms[|ids|].parent.value < |ids|
      requires p.matched[|ids|].None?
      modifies this`nodes, this`nextNode
      ensures Valid() && forall id :: id in old(nodes) ==> id in nodes
      ensures r != Failure(ParentNotProcessed)
      ensures match WriteNext(p, Writing(old(View()), ids))
              case None => r.Failure?
              case Some(w) =>
                && r.Success? && w == Writing(View(), ids + [r.value])
                && out == Tally(out0, FateOf(p, |ids|))
    {
      ghost var w := Writing(View(), ids);
      InvalidatedNone(edges);
      r := UpsertNode(FreshRow(p.uri, p.language, p.isExternal, p.syms[|ids|], container));
      out := out0.(inserted := out0.inserted + 1);
      if r.Success? { WriteIsNext(p, w, r.value); }
    }

    /** The turn of one symbol: its parent must have been written. */
    method ApplyNext(p: Plan, ids: seq<Id>, out0: Outcome) returns (r: Result<Id, DbError>, out: Outcome)
      requires Valid() && |ids| < |p.syms| == |p.matched| && RowsStored(p, nodes)
      modifies this`nodes, this`nextNode, this`edges
      ensures Valid() && RowsStored(p, nodes) && forall id :: id in old(nodes) ==> id in nodes
      ensures r == Failure(ParentNotProcessed) ==> p.syms[|ids|].parent.Some? && p.syms[|ids|].parent.value >= |ids|
      ensures match WriteNext(p, Writing(old(View()), ids))
              case None => r.Failure?
              case Some(w) =>
                && r.Success? && w == Writing(View(), ids + [r.value])
                && out == Tally(out0, FateOf(p, |ids|))
    {
      var parent := p.syms[|ids|].parent;
      if parent.Some? && parent.value >= |ids| {
        LateParentStops(p, Writing(View(), ids));
        return Failure(ParentNotProcessed), out0;
      }
      var container := if parent.Some? then Some(ids[parent.value]) else None;
      match p.matched[|ids|] {
        case Some(j) => r, out := UpdateClaimed(p, ids, container, j, out0);
        case None => r, out := InsertFresh(p, ids, container, out0);
      }
    }

    /** ... as one more turn of the replay. */
    method ApplyTurn(p: Plan, ids: seq<Id>, out0: Outcome, ghost start: Writing)
      returns (r: Result<Id, DbError>, out: Outcome)
      requires Valid() && |ids| < |p.syms| == |p.matched| && RowsStored(p, nodes)
      requires WrittenSoFar(p, start, Writing(View(), ids)) && out0 == FateCounts(p, |ids|)
      modifies this`nodes, this`nextNode, this`edges
      ensures Valid() && RowsStored(p, nodes) && forall id :: id in old(nodes) ==> id in nodes
      ensures r == Failure(ParentNotProcessed) ==> !ParentsFirst(p.syms)
      ensures r.Success? ==> && WrittenSoFar(p, start, Writing(View(), ids + [r.value]))
                             && out == FateCounts(p, |ids| + 1)
      ensures r.Failure? ==> Fold(WriteStep(p), start, |p.syms|).None?
    {
      WriteTurn(p, start, Writing(View(), ids));
      r, out := ApplyNext(p, ids, out0);
    }

    /** Pass 3: write every symbol, parents first. */
    method ApplySymbols(p: Plan) returns (r: Result<seq<Id>, DbError>, out: Outcome)
      requires Valid() && |p.matched| == |p.syms| && RowsStored(p, nodes)
      modifies this`nodes, this`nextNode, this`edges
      ensures Valid() && forall id :: id in old(nodes) ==> id in nodes
      ensures ParentsFirst(p.syms) ==> r != Failure(ParentNotProcessed)
      ensures match Fold(WriteStep(p), Writing(old(View()), []), |p.syms|)
              case None => r.Failure?
              case Some(w) => r.Success? && w == Writing(View(), r.value) && out == FateCounts(p, |p.syms|)
      ensures r.Success? ==> |r.value| == |p.syms|
    {
      var ids: seq<Id> := [];
      out := Outcome(0, 0, 0, 0, 0, 0);
      ghost var start := Writing(View(), []);
      while |ids| < |p.syms|
        invariant Valid() && RowsStored(p, nodes)
        invariant forall id :: id in old(nodes) ==> id in nodes
        invariant |ids| <= |p.syms| && out == FateCounts(p, |ids|)
        invariant WrittenSoFar(p, start, Writing(View(), ids))
      {
        var written;
        written, out := ApplyTurn(p, ids, out, start);
        if written.Failure? {
          return Failure(written.error), out;
        }
        ids := ids + [written.value];
      }
      r := Success(ids);
    }

    /** Pass 4 on one unclaimed row: delete an orphan, orphan anything else. */
    method StrikeRow(row: OldRow) returns (r: Result<(), DbError>)
      requires Valid() && row.id in nodes
      modifies this`nodes, this`edges, this`calleesCache, this`materialized
      ensures Valid() && forall id :: id in old(nodes) && id != row.id ==> id in nodes
      ensures r != Failure(ParentNotProcessed)
      ensures row.node.orphan ==> r.Success? && View() == NodeDeleted(old(View()), row.id)
      ensures !row.node.orphan ==>
                var struck := Struck(WithLine(old(nodes)[row.id], row.node.range.startLine));
                && (r.Success? <==> Fits(old(nodes), row.id, struck))
                && (r.Success? ==> View() == old(View()).(nodes := old(nodes)[row.id := struck]))
    {
      if row.node.orphan {
        DeleteNode(row.id);
        r := Success(());
      } else {
        r := WriteRow(row.id, Struck(WithLine(nodes[row.id], row.node.range.startLine)));
      }
    }

    method SweepRow(p: Plan, j: nat, used: bool, out0: Outcome) returns (r: Result<(), DbError>, out: Outcome)
      requires Valid() && j < |p.olds| && p.olds[j].id in nodes && (used <==> OldTaken(p.matched, j))
      modifies this`nodes, this`edges, this`calleesCache, this`materialized
      ensures Valid() && forall id :: id in old(nodes) && id != p.olds[j].id ==> id in nodes
      ensures r != Failure(ParentNotProcessed)
      ensures match SweepNext(p, j, old(View()))
              case None => r.Failure?
              case Some(db) => r.Success? && db == View()
      ensures out == TallyOld(out0, OldFateOf(p, j))
    {
      if used {
        r, out := Success(()), out0;
      } else {
        r := StrikeRow(p.olds[j]);
        out := if p.olds[j].node.orphan then out0.(deleted := out0.deleted + 1)
               else out0.(orphaned := out0.orphaned + 1);
      }
    }

    /** Pass 4: two strikes for the rows no symbol claimed. */
    method SweepUnclaimed(p: Plan, oldUsed: seq<bool>, out0: Outcome) returns (r: Result<(), DbError>, out: Outcome)
      requires Valid() && |p.syms| == |p.matched| && OldsMarked(p, oldUsed) && OldsStored(p, nodes)
      requires out0 == FateCounts(p, |p.syms|)
      modifies this`nodes, this`edges, this`calleesCache, this`materialized
      ensures Valid()
      ensures r != Failure(ParentNotProcessed)
      ensures match Replay4(p, old(View()), |p.olds|)
              case None => r.Failure?
              case Some(db) => r.Success? && db == View() && out == OutcomeOf(p)
    {
      out := out0;
      ghost var start := View();
      for j := 0 to |p.olds|
        invariant Valid()
        invariant forall k :: j <= k < |p.olds| ==> p.olds[k].id in nodes
        invariant Replay4(p, start, j) == Some(View()) && out == SweepCounts(p, j)
      {
        FoldMonotone(SweepStep(p), start, j + 1, |p.olds|);
        r, out := SweepRow(p, j, oldUsed[j], out);
        if r.Failure? { return; }
      }
      r := Success(());
    }

    /** Pass 5: one valid `contains` edge per parent link. */
    method LinkContainers(p: Plan, ids: seq<Id>) returns (r: Result<(), DbError>)
      requires Valid() && |ids| == |p.syms| && ParentsFirst(p.syms)
      modifies this`edges, this`nextEdge
      ensures Valid()
      ensures r != Failure(ParentNotProcessed)
      ensures match Replay5(p, ids, old(View()), |p.syms|)
              case None => r.Failure?
              case Some(db) => r.Success? && db == View()
    {
      ghost var start := View();
      for i := 0 to |p.syms|
        invariant Valid()
        invariant Replay5(p, ids, start, i) == Some(View())
      {
        FoldMonotone(LinkStepOf(p, ids), start, i + 1, |p.syms|);
        ghost var now := View();
        if p.syms[i].parent.Some? {
          var w := UpsertEdge(ContainsEdge(p, ids, i));
          if w.Failure? {
            return Failure(w.error);
          }
          LinkIsNext(p, ids, i, now, w.value);
        }
      }
      r := Success(());
    }

    method DropCalleesCache(uri: string)
      requires Valid()
      modifies this`calleesCache
      ensures Valid()
      ensures calleesCache == CacheDropped(old(View()), uri)
    {
      calleesCache := map id | id in calleesCache && !(id in nodes && nodes[id].uri == uri) :: calleesCache[id];
    }

    /** Read the file's rows, match them (passes 1 and 2) and park them. */
    method PrepareTx(uri: string, language: string, isExternal: bool, syms: seq<ReconcileSymbol>)
      returns (p: Plan, oldUsed: seq<bool>, parked: Result<(), DbError>)
      requires Valid()
      modifies this`nodes, this`calleesCache
      ensures Valid() && nodes.Keys == old(nodes).Keys
      ensures parked != Failure(ParentNotProcessed)
      ensures PlanFor(p, uri, language, isExternal, syms) && Enumerates(p.olds, old(nodes), uri)
      ensures StableMatching(bodyFingerprint, p.olds, syms, p.matched)
      ensures OldsMarked(p, oldUsed) && RowsStored(p, nodes) && OldsStored(p, nodes)
      ensures RealLines(old(nodes)) ==> parked.Success?
      ensures parked.Success? ==> View() == ParkedDb(p, old(View()))
    {
      DropCalleesCache(uri);
      var olds := NodesByUri(uri);
      var used, claims := ClaimExact(olds, syms);
      var matched;
      oldUsed, matched := MatchRenames(bodyFingerprint, olds, syms, used, claims);
      p := Plan(uri, language, isExternal, olds, syms, matched);
      StableIsPlanned(bodyFingerprint, p, View());
      PlannedRowsStored(p, View());
      parked := Park(olds, uri);
      if parked.Success? { ParkedTable(p, old(View()), nodes); }
    }

    /** Passes 4 and 5. */
    method FinishTx(p: Plan, oldUsed: seq<bool>, ids: seq<Id>, out0: Outcome) returns (r: Result<Outcome, DbError>)
      requires Valid() && |p.matched| == |p.syms| == |ids| && OldsMarked(p, oldUsed) && OldsStored(p, nodes)
      requires ParentsFirst(p.syms) && out0 == FateCounts(p, |p.syms|)
      modifies this`nodes, this`edges, this`nextEdge, this`calleesCache, this`materialized
      ensures Valid()
      ensures r != Failure(ParentNotProcessed)
      ensures match Finish(p, Writing(old(View()), ids))
              case None => r.Failure?
              case Some(w) => r == Success(OutcomeOf(p)) && w == Writing(View(), ids)
    {
      var swept, out := SweepUnclaimed(p, oldUsed, out0);
      if swept.Failure? {
        return Failure(swept.error);
      }
      var linked := LinkContainers(p, ids);
      if linked.Failure? {
        return Failure(linked.error);
      }
      r := Success(out);
    }

    /** Passes 3 to 5. */
    method WriteTx(p: Plan, oldUsed: seq<bool>, ghost db: Db) returns (r: Result<Outcome, DbError>, ghost ids: seq<Id>)
      requires Valid() && |p.matched| == |p.syms| && OldsMarked(p, oldUsed)
      requires RowsStored(p, nodes) && OldsStored(p, nodes) && View() == ParkedDb(p, db)
      modifies this`nodes, this`edges, this`nextNode, this`nextEdge, this`calleesCache, this`materialized
      ensures Valid()
      ensures ParentsFirst(p.syms) ==> r != Failure(ParentNotProcessed)
      ensures match Replay(p, db)
              case None => r.Failure?
              case Some(w) => r == Success(OutcomeOf(p)) && w == Writing(View(), ids)
    {
      ids := [];
      var applied, out := ApplySymbols(p);
      if applied.Failure? {
        return Failure(applied.error), ids;
      }
      ids := applied.value;
      WrittenMeansParentsFirst(p, Writing(ParkedDb(p, db), []));
      r := FinishTx(p, oldUsed, applied.value, out);
    }

    /** The transaction body; what it leaves behind on failure is discarded by the caller. */
    method ReconcileTx(uri: string, language: string, isExternal: bool, syms: seq<ReconcileSymbol>)
      returns (r: Result<Outcome, DbError>, ghost p: Plan, ghost ids: seq<Id>)
      requires Valid()
      modifies this`nodes, this`edges, this`nextNode, this`nextEdge, this`calleesCache, this`materialized
      ensures Valid()
      ensures ParentsFirst(syms) ==> r != Failure(ParentNotProcessed)
      ensures PlanFor(p, uri, language, isExternal, syms) && Enumerates(p.olds, old(nodes), uri)
      ensures StableMatching(bodyFingerprint, p.olds, syms, p.matched)
      ensures r.Success? ==> Replay(p, old(View())) == Some(Writing(View(), ids)) && r.value == OutcomeOf(p)
      ensures RealLines(old(nodes)) && r.Failure? ==> Replay(p, old(View())).None?
    {
      ghost var db := View();
      var plan, oldUsed, parked := PrepareTx(uri, language, isExternal, syms);
      p, ids := plan, [];
      if parked.Failure? {
        return Failure(parked.error), p, ids;
      }
      r, ids := WriteTx(plan, oldUsed, db);
    }

    /** The transaction, rolled back if it fails. */
    method RunTransaction(uri: string, language: string, isExternal: bool, syms: seq<ReconcileSymbol>)
      returns (r: Result<Outcome, DbError>, ghost p: Plan, ghost ids: seq<Id>)
      requires Valid()
      modifies this
      ensures Valid()
      ensures ParentsFirst(syms) ==> r != Failure(ParentNotProcessed)
      ensures PlanFor(p, uri, language, isExternal, syms) && Enumerates(p.olds, old(nodes), uri)
      ensures StableMatching(bodyFingerprint, p.olds, syms, p.matched)
      ensures r.Failure? ==> View() == old(View())
      ensures r.Success? ==> Replay(p, old(View())) == Some(Writing(View(), ids)) && r.value == OutcomeOf(p)
      ensures RealLines(old(nodes)) ==> (r.Failure? <==> Replay(p, old(View())).None?)
      ensures meta == old(meta)
    {
      var saved := View();
      r, p, ids := ReconcileTx(uri, language, isExternal, syms);
      if r.Failure? {
        nodes, edges, nextNode, nextEdge := saved.nodes, saved.edges, saved.nextNode, saved.nextEdge;
        calleesCache, materialized, meta := saved.calleesCache, saved.materialized, saved.meta;
      }
    }

    /** `reconcile_file_symbols`: all or nothing. */
    method ReconcileFileSymbols(uri: string, language: string, isExternal: bool, syms: seq<ReconcileSymbol>)
      returns (r: Result<Outcome, DbError>, ghost p: Plan, ghost ids: seq<Id>)
      requires Valid()
      modifies this
      ensures Valid()
      ensures ParentsFirst(syms) ==> r != Failure(ParentNotProcessed)
      ensures PlanFor(p, uri, language, isExternal, syms) && Enumerates(p.olds, old(nodes), uri)
      ensures StableMatching(bodyFingerprint, p.olds, syms, p.matched)
      ensures meta == old(meta)
      ensures r.Failure? ==> View() == old(View())
      ensures r.Success? ==> Replay(p, old(View())) == Some(Writing(View(), ids)) && r.value == OutcomeOf(p)
      ensures RealLines(old(nodes)) ==> (r.Failure? <==> Replay(p, old(View())).None?)
      ensures r.Success? ==> RowsAfterPass3(p, old(View()), View())
      ensures r.Success? && LinesReal(syms) ==> Reconciled(p, old(View()), ids, View())
      ensures RealLines(old(nodes)) && LinesReal(syms) ==> (r.Failure? <==> Foretold(p, old(View())))
      ensures Admissible(old(View()), syms) ==> (r.Failure? <==> Collision(p) || NameTaken(p, old(View())))
    {
      ghost var before := View();
      r, p, ids := RunTransaction(uri, language, isExternal, syms);
      TransactionMeans(bodyFingerprint, p, before);
    }
  }

  /** The two rows agree on file, start and name. */
  ghost predicate SameStart(a: Node, b: Node) {
    && a.uri == b.uri && a.range.startLine == b.range.startLine && a.range.startCol == b.range.startCol
    && a.name == b.name
  }

  /** `found` is the pick among the rows with ids below `n`. */
  ghost predicate BestBelow(nodes: map<Id, Node>, uri: string, line: int, col: int, n: Id, found: Option<Id>) {
    match found
    case None => forall k :: Hit(nodes, uri, line, col, k) ==> n <= k || k < 1
    case Some(id) =>
      && Hit(nodes, uri, line, col, id) && id < n
      && (forall k :: Hit(nodes, uri, line, col, k) && 1 <= k < n ==> !Tighter(nodes[k].range, nodes[id].range))
      && (forall k :: Hit(nodes, uri, line, col, k) && 1 <= k < id ==> Tighter(nodes[id].range, nodes[k].range))
  }

  ghost function RealRows(nodes: map<Id, Node>, uri: string, moduleFqn: string): set<Id> {
    set k | k in nodes && nodes[k].uri == uri && nodes[k].fqn != moduleFqn
  }

  predicate CallFrom(nodes: map<Id, Node>, edges: map<Id, Edge>, src: Id, e: Id)
    requires e in edges
  {
    && edges[e].src == src && edges[e].edgeType == Calls && edges[e].valid
    && edges[e].dst in nodes && nodes[edges[e].dst].valid
  }

  function RowFor(nodes: map<Id, Node>, e: Edge): Neighbor
    requires e.dst in nodes
  {
    Neighbor(e.dst, nodes[e.dst], e.site)
  }

  ghost predicate NeighborRow(nodes: map<Id, Node>, edges: map<Id, Edge>, src: Id, row: Neighbor) {
    exists e :: e in edges && CallFrom(nodes, edges, src, e) && row == RowFor(nodes, edges[e])
  }

  ghost predicate HasRow(nodes: map<Id, Node>, edges: map<Id, Edge>, rows: seq<Neighbor>, e: Id)
    requires e in edges && edges[e].dst in nodes
  {
    exists r :: 0 <= r < |rows| && rows[r] == RowFor(nodes, edges[e])
  }

  /** Row `r` stands for the edge `from[r]`; every call edge below `n` is there, once. */
  ghost predicate OneRowPerCall(nodes: map<Id, Node>, edges: map<Id, Edge>, src: Id, n: Id, rows: seq<Neighbor>,
                                from: seq<Id>) {
    && |from| == |rows|
    && (forall r :: 0 <= r < |rows| ==> && from[r] in edges && from[r] < n && CallFrom(nodes, edges, src, from[r])
                                        && rows[r] == RowFor(nodes, edges[from[r]]))
    && (forall a, b :: 0 <= a < b < |from| ==> from[a] != from[b])
    && (forall e :: e in edges && 1 <= e < n && CallFrom(nodes, edges, src, e) ==> e in from)
  }

  predicate KeysInOrder(rows: seq<Neighbor>) {
    forall a, b :: 0 <= a < b < |rows| ==> !KeyLess(RowKey(rows[b]), RowKey(rows[a]))
  }

  /** Behind every row that does not come after `row`. */
  method PlaceFor(rows: seq<Neighbor>, row: Neighbor) returns (at: nat)
    requires KeysInOrder(rows)
    ensures at <= |rows| && KeysInOrder(PutIn(rows, at, row))
  {
    at := 0;
    while at < |rows| && !KeyLess(RowKey(row), RowKey(rows[at]))
      invariant 0 <= at <= |rows|
      invariant forall k :: 0 <= k < at ==> !KeyLess(RowKey(row), RowKey(rows[k]))
    {
      at := at + 1;
    }
    forall k | at <= k < |rows|
      ensures !KeyLess(RowKey(rows[k]), RowKey(row))
    {
      KeyLessTotal(RowKey(rows[k]), RowKey(rows[at]));
      KeyLessTotal(RowKey(rows[k]), RowKey(row));
      if KeyLess(RowKey(rows[k]), RowKey(row)) {
        KeyLessTransitive(RowKey(rows[k]), RowKey(row), RowKey(rows[at]));
      }
    }
  }

  function PutIn<T>(s: seq<T>, at: nat, x: T): seq<T>
    requires at <= |s|
  {
    s[..at] + [x] + s[at..]
  }

  lemma PutInAt<T>(s: seq<T>, at: nat, x: T)
    requires at <= |s|
    ensures |PutIn(s, at, x)| == |s| + 1 && PutIn(s, at, x)[at] == x
    ensures forall r :: 0 <= r < at ==> PutIn(s, at, x)[r] == s[r]
    ensures forall r :: at < r <= |s| ==> PutIn(s, at, x)[r] == s[r - 1]
    ensures forall y :: y in s ==> y in PutIn(s, at, x)
  {
    forall y | y in s
      ensures y in PutIn(s, at, x)
    {
      var r :| 0 <= r < |s| && s[r] == y;
      assert PutIn(s, at, x)[if r < at then r else r + 1] == y;
    }
  }

  lemma CallAdded(nodes: map<Id, Node>, edges: map<Id, Edge>, src: Id, e: Id, rows: seq<Neighbor>, from: seq<Id>,
                  at: nat)
    requires OneRowPerCall(nodes, edges, src, e, rows, from) && at <= |rows|
    requires 1 <= e && e in edges && CallFrom(nodes, edges, src, e)
    ensures OneRowPerCall(nodes, edges, src, e + 1, PutIn(rows, at, RowFor(nodes, edges[e])), PutIn(from, at, e))
  {
    PutInAt(rows, at, RowFor(nodes, edges[e]));
    PutInAt(from, at, e);
    var rows', from' := PutIn(rows, at, RowFor(nodes, edges[e])), PutIn(from, at, e);
    forall r | 0 <= r < |rows'|
      ensures from'[r] in edges && from'[r] < e + 1 && CallFrom(nodes, edges, src, from'[r])
      ensures rows'[r] == RowFor(nodes, edges[from'[r]])
    {
      var q := if r < at then r else r - 1;
      assert r != at ==> from'[r] == from[q] && rows'[r] == rows[q];
    }
    forall a, b | 0 <= a < b < |from'|
      ensures from'[a] != from'[b]
    {
    }
  }

  lemma RowsCoverCalls(nodes: map<Id, Node>, edges: map<Id, Edge>, src: Id, n: Id, rows: seq<Neighbor>, from: seq<Id>)
    requires IdsBelow(edges, n) && OneRowPerCall(nodes, edges, src, n, rows, from)
    ensures forall r :: 0 <= r < |rows| ==> NeighborRow(nodes, edges, src, rows[r])
    ensures forall e :: e in edges && CallFrom(nodes, edges, src, e) ==> HasRow(nodes, edges, rows, e)
  {
    forall e | e in edges && CallFrom(nodes, edges, src, e)
      ensures HasRow(nodes, edges, rows, e)
    {
      var r :| 0 <= r < |from| && from[r] == e;
      assert rows[r] == RowFor(nodes, edges[e]);
    }
  }

  function WithConstruct(nodes: map<Id, Node>, id: Id, text: string): map<Id, Node> {
    map k | k in nodes :: if k == id then nodes[k].(construct := Some(text)) else nodes[k]
  }

  function WithSignature(nodes: map<Id, Node>, id: Id, text: string): map<Id, Node> {
    map k | k in nodes :: if k == id then nodes[k].(signature := Some(text)) else nodes[k]
  }

  function WithSignatureByFqn(nodes: map<Id, Node>, fqn: string, text: string): map<Id, Node> {
    map k | k in nodes :: if nodes[k].fqn == fqn then nodes[k].(signature := Some(text)) else nodes[k]
  }

  lemma ConstructKeepsIntegrity(db: Db, id: Id, text: string)
    requires Integrity(db)
    ensures Integrity(db.(nodes := WithConstruct(db.nodes, id, text)))
  {
    AnnotationKeepsIntegrity(db, WithConstruct(db.nodes, id, text));
  }

  lemma SignatureKeepsIntegrity(db: Db, id: Id, text: string)
    requires Integrity(db)
    ensures Integrity(db.(nodes := WithSignature(db.nodes, id, text)))
  {
    AnnotationKeepsIntegrity(db, WithSignature(db.nodes, id, text));
  }

  lemma SignatureByFqnKeepsIntegrity(db: Db, fqn: string, text: string)
    requires Integrity(db)
    ensures Integrity(db.(nodes := WithSignatureByFqn(db.nodes, fqn, text)))
  {
    AnnotationKeepsIntegrity(db, WithSignatureByFqn(db.nodes, fqn, text));
  }

  function CallsInvalidated(edges: map<Id, Edge>, anchor: Id): map<Id, Edge> {
    map e | e in edges ::
      if edges[e].src == anchor && edges[e].edgeType == Calls then edges[e].(valid := false) else edges[e]
  }

  ghost predicate Listed(olds: seq<OldRow>, id: Id) {
    exists j :: 0 <= j < |olds| && olds[j].id == id
  }

  ghost predicate ParkedUpTo(olds: seq<OldRow>, before: map<Id, Node>, nodes: map<Id, Node>, k: nat)
    requires k <= |olds| && nodes.Keys == before.Keys
  {
    && (forall j :: 0 <= j < k ==> RowIs(nodes, olds[j].id, Parked(olds[j].node, olds[j].id)))
    && (forall id :: id in before && (forall j :: 0 <= j < k ==> olds[j].id != id) ==> RowIs(nodes, id, before[id]))
  }

  lemma ParkFits(olds: seq<OldRow>, before: Db, nodes: map<Id, Node>, k: nat, uri: string)
    requires Integrity(before) && RealLines(before.nodes) && Enumerates(olds, before.nodes, uri)
    requires nodes.Keys == before.nodes.Keys && k < |olds| && ParkedUpTo(olds, before.nodes, nodes, k)
    ensures Fits(nodes, olds[k].id, Parked(olds[k].node, olds[k].id))
  {
    var t := olds[k].id;
    assert Fits(before.nodes, t, before.nodes[t]);
    forall id | id in nodes && id != t
      ensures nodes[id].fqn != olds[k].node.fqn && Phys(nodes[id]) != Phys(Parked(olds[k].node, t))
    {
      if j :| 0 <= j < k && olds[j].id == id {
        assert RowIs(nodes, olds[j].id, Parked(olds[j].node, olds[j].id));
      } else {
        assert RowIs(nodes, id, before.nodes[id]);
      }
    }
  }

  lemma ParkedTable(p: Plan, db: Db, nodes: map<Id, Node>)
    requires nodes.Keys == db.nodes.Keys
    requires forall id :: id in nodes ==>
               nodes[id] == if db.nodes[id].uri == p.uri then Parked(db.nodes[id], id) else db.nodes[id]
    ensures nodes == ParkedDb(p, db).nodes
  {
    var parked := ParkedDb(p, db).nodes;
    assert forall id :: id in nodes <==> id in parked;
    assert forall id :: id in nodes ==> nodes[id] == parked[id];
  }

  ghost predicate RowsStored(p: Plan, nodes: map<Id, Node>) {
    forall i :: 0 <= i < |p.matched| && p.matched[i].Some? ==>
                  p.matched[i].value < |p.olds| && p.olds[p.matched[i].value].id in nodes
  }

  /** The old rows are stored, each once. */
  ghost predicate OldsStored(p: Plan, nodes: map<Id, Node>) {
    && (forall j :: 0 <= j < |p.olds| ==> p.olds[j].id in nodes)
    && (forall a, b :: 0 <= a < |p.olds| && 0 <= b < |p.olds| && p.olds[a].id == p.olds[b].id ==> a == b)
  }

  ghost predicate OldsMarked(p: Plan, oldUsed: seq<bool>) {
    |oldUsed| == |p.olds| && forall j :: 0 <= j < |p.olds| ==> (oldUsed[j] <==> OldTaken(p.matched, j))
  }

  // ----- the counters -----

  function FateCounts(p: Plan, k: nat): Outcome
    requires k <= |p.syms| == |p.matched|
  {
    Outcome(CountFate(p, Unchanged, k), CountFate(p, Updated, k), CountFate(p, Renamed, k), CountFate(p, Inserted, k),
            0, 0)
  }

  function Tally(out: Outcome, fate: Fate): Outcome {
    match fate
    case Unchanged => out.(kept := out.kept + 1)
    case Updated => out.(updated := out.updated + 1)
    case Renamed => out.(renamed := out.renamed + 1)
    case Inserted => out.(inserted := out.inserted + 1)
  }

  function TallyOld(out: Outcome, fate: OldFate): Outcome {
    match fate
    case Claimed => out
    case Orphaned => out.(orphaned := out.orphaned + 1)
    case Deleted => out.(deleted := out.deleted + 1)
  }

  ghost function SweepCounts(p: Plan, k: nat): Outcome
    requires k <= |p.olds| && |p.syms| == |p.matched|
  {
    FateCounts(p, |p.syms|).(orphaned := CountOldFate(p, Orphaned, k), deleted := CountOldFate(p, Deleted, k))
  }

  // ----- statements and the replay -----

  /** A row the symbol may be written to is the one the replay writes. */
  lemma WriteIsNext(p: Plan, w: Writing, t: Id)
    requires |w.ids| < |p.syms| == |p.matched| && ParentReady(p, w) && MayWrite(p, w, t)
    ensures WriteNext(p, w) == Some(Wrote(p, w, t))
  {
    var t' :| MayWrite(p, w, t') && WriteNext(p, w) == Some(Wrote(p, w, t'));
    OneSlot(p, w, t, t');
  }

  /** Pass 3 has come as far as `w`. */
  ghost predicate WrittenSoFar(p: Plan, start: Writing, w: Writing) {
    |w.ids| <= |p.syms| == |p.matched| && Fold(WriteStep(p), start, |w.ids|) == Some(w)
  }

  lemma WriteTurn(p: Plan, start: Writing, w: Writing)
    requires WrittenSoFar(p, start, w) && |w.ids| < |p.syms|
    ensures WriteNext(p, w).Some? ==> WrittenSoFar(p, start, WriteNext(p, w).value)
    ensures WriteNext(p, w).None? ==> Fold(WriteStep(p), start, |p.syms|).None?
  {
    FoldMonotone(WriteStep(p), start, |w.ids| + 1, |p.syms|);
  }

  lemma LateParentStops(p: Plan, w: Writing)
    requires |w.ids| < |p.syms| == |p.matched|
    requires p.syms[|w.ids|].parent.Some? && p.syms[|w.ids|].parent.value >= |w.ids|
    ensures WriteNext(p, w).None?
  {
  }

  lemma LinkIsNext(p: Plan, ids: seq<Id>, i: nat, now: Db, t: Id)
    requires i < |p.syms| == |ids| && p.syms[i].parent.Some? && p.syms[i].parent.value < |ids| && UniqueEdges(now.edges)
    requires var e := ContainsEdge(p, ids, i);
             TakesEdge(now.edges, now.nextEdge, e, t) && e.src in now.nodes && e.dst in now.nodes
    ensures LinkNext(p, ids, i, now) == Some(EdgePut(now, ContainsEdge(p, ids, i), t))
  {
  }

  // ----- the plan -----

  ghost predicate PlanFor(p: Plan, uri: string, language: string, isExternal: bool, syms: seq<ReconcileSymbol>) {
    p.uri == uri && p.language == language && p.isExternal == isExternal && p.syms == syms
  }

  lemma PlannedRowsStored(p: Plan, db: Db)
    requires Planned(p, db)
    ensures RowsStored(p, db.nodes)
  {
  }

  /** The replay read back: the tables it leaves and when it fails. */
  lemma TransactionMeans(fp: Fingerprint, p: Plan, db: Db)
    requires Integrity(db) && Enumerates(p.olds, db.nodes, p.uri) && StableMatching(fp, p.olds, p.syms, p.matched)
    ensures Replay(p, db).Some? ==> RowsAfterPass3(p, db, Replay(p, db).value.db)
    ensures Replay(p, db).Some? && LinesReal(p.syms) ==>
              Reconciled(p, db, Replay(p, db).value.ids, Replay(p, db).value.db)
    ensures RealLines(db.nodes) && LinesReal(p.syms) ==> (Replay(p, db).None? <==> Foretold(p, db))
    ensures Admissible(db, p.syms) ==> (Replay(p, db).None? <==> Collision(p) || NameTaken(p, db))
  {
    StableIsPlanned(fp, p, db);
    if RealLines(db.nodes) && LinesReal(p.syms) { ForetoldExactly(p, db); }
    if Replay(p, db).Some? {
      CommitOnRows(p, db);
      if LinesReal(p.syms) { CommitReconciles(p, db); }
    }
    if Admissible(db, p.syms) { AdmissibleFailsExactly(p, db); }
  }
}
