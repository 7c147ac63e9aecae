/** What a committed reconcile leaves in the tables, column by column. */
module ReconcileColumns {
  import opened Wrappers
  import opened GraphModel
  import opened RenameMatching
  import opened ReconcileModel
  import opened ReconcileTheorems

  /** No later symbol was put in symbol `i`'s row. */
  ghost predicate Stays(ids: seq<Id>, i: nat)
    requires i < |ids|
  {
    forall m :: i < m < |ids| ==> ids[m] != ids[i]
  }

  /** The row lies in the row of the symbol's parent, and in none if the symbol has no parent. */
  ghost predicate InParent(p: Plan, ids: seq<Id>, i: nat, n: Node)
    requires i < |p.syms| == |ids|
  {
    match p.syms[i].parent
    case None => n.containerId.None?
    case Some(q) => q < i && n.containerId == Some(ids[q])
  }

  /** A symbol no later one displaced is shown by its row, in the row of its parent. */
  lemma WrittenRow(p: Plan, db: Db, ids: seq<Id>, db': Db, i: nat)
    requires Planned(p, db) && Reconciled(p, db, ids, db') && i < |p.syms| && Stays(ids, i)
    ensures ids[i] in db'.nodes
    ensures var n, s := db'.nodes[ids[i]], p.syms[i];
            && n.uri == p.uri && n.fqn == s.fqn && n.name == s.name && n.kind == s.kind && n.nodeKind == s.nodeKind
            && n.range == s.range && n.sel == s.sel && n.detail == s.detail
            && n.signatureHash == Some(s.signatureHash) && n.valid && !n.orphan && InParent(p, ids, i, n)
  {
    assert Standing(ids, i) && RowIs(db'.nodes, ids[i], RowOf(p, ids, i));
  }

  /** If no stored row was claimed for it, the row is otherwise blank: the language and the external flag of the
      request, generation zero, and NULLs. */
  lemma InsertedRowIsBlank(p: Plan, db: Db, ids: seq<Id>, db': Db, i: nat)
    requires Planned(p, db) && Reconciled(p, db, ids, db')
    requires i < |p.syms| && p.matched[i].None? && Stays(ids, i)
    ensures ids[i] in db'.nodes
    ensures var n := db'.nodes[ids[i]];
            && n.language == p.language && n.isExternal == p.isExternal && n.generation == 0
            && n.construct.None? && n.signature.None? && n.documentation.None?
  {
    assert Standing(ids, i) && RowIs(db'.nodes, ids[i], RowOf(p, ids, i));
  }

  /** The first reconcile of an empty database with one symbol at the top stores exactly that row. */
  lemma FirstRow(p: Plan, db: Db, ids: seq<Id>, db': Db, s: ReconcileSymbol)
    requires Planned(p, db) && IdsBelow(db.nodes, db.nextNode) && Reconciled(p, db, ids, db')
    requires db.nodes == map[] && p.syms == [s]
    ensures s.parent.None? && |ids| == 1
    ensures db'.nodes == map[ids[0] := Node(s.fqn, p.uri, s.name, p.language, s.kind, s.nodeKind, None, None, s.range,
                                            s.sel, None, None, s.detail, Some(s.signatureHash), true, false, 0,
                                            p.isExternal)]
  {
    assert forall j :: 0 <= j < |p.olds| ==> p.olds[j].id in db.nodes;
    assert p.matched[0].None?;
    assert Stays(ids, 0);
    WrittenRow(p, db, ids, db', 0);
    InsertedRowIsBlank(p, db, ids, db', 0);
    assert ids[0] in ids;
    forall id | id in db'.nodes
      ensures id == ids[0]
    {
      assert id in ids;
    }
  }

  /** A row of the file that is an orphan already, and that no symbol claims. */
  ghost predicate Vanishes(p: Plan, id: Id) {
    exists j :: && 0 <= j < |p.olds| && p.olds[j].id == id && p.olds[j].node.orphan
                && (forall i :: 0 <= i < |p.matched| ==> p.matched[i] != Some(j))
  }

  lemma VanishingRows(p: Plan, id: Id)
    ensures Vanishes(p, id) <==> id in Gone(p)
  {
    if j :| && 0 <= j < |p.olds| && p.olds[j].id == id && p.olds[j].node.orphan
            && (forall i :: 0 <= i < |p.matched| ==> p.matched[i] != Some(j)) {
      assert !OldTaken(p.matched, j);
    }
    if id in Gone(p) {
      var j :| 0 <= j < |p.olds| && !OldTaken(p.matched, j) && p.olds[j].node.orphan && p.olds[j].id == id;
      forall i | 0 <= i < |p.matched|
        ensures p.matched[i] != Some(j)
      {
        assert !Pairs(p.matched, i, j);
      }
    }
  }

  /** The container the row had, unless that row goes away. */
  ghost function KeptContainer(p: Plan, n: Node): Option<Id> {
    if n.containerId.Some? && Vanishes(p, n.containerId.value) then None else n.containerId
  }

  /** A row of the file that no symbol claims: an orphan is gone, any other is an orphan now, on its own line and
      otherwise as it was. */
  lemma UnclaimedRow(p: Plan, db: Db, ids: seq<Id>, db': Db, j: nat)
    requires Planned(p, db) && IdsBelow(db.nodes, db.nextNode) && Reconciled(p, db, ids, db')
    requires j < |p.olds| && forall i :: 0 <= i < |p.matched| ==> p.matched[i] != Some(j)
    ensures var id, was := p.olds[j].id, p.olds[j].node;
            if was.orphan then id !in db'.nodes
            else id in db'.nodes && db'.nodes[id] == was.(valid := false, orphan := true,
                                                          containerId := KeptContainer(p, was))
  {
    var id := p.olds[j].id;
    assert !OldTaken(p.matched, j);
    UnclaimedIsNoTarget(p, db, ids, db'.nextNode, j);
    if p.olds[j].node.orphan {
      assert id in Gone(p);
    } else {
      StruckIsNotGone(p, db, j);
      assert RowIs(db'.nodes, id, Remnant(p, j, true, Gone(p)));
      if p.olds[j].node.containerId.Some? { VanishingRows(p, p.olds[j].node.containerId.value); }
    }
  }

  lemma StruckIsNotGone(p: Plan, db: Db, j: nat)
    requires Enumerates(p.olds, db.nodes, p.uri) && j < |p.olds| && !p.olds[j].node.orphan
    ensures p.olds[j].id !in Gone(p)
  {
  }

  /** A row of another file that no symbol was put in. */
  lemma ForeignRow(p: Plan, db: Db, ids: seq<Id>, db': Db, id: Id)
    requires Planned(p, db) && IdsBelow(db.nodes, db.nextNode) && Reconciled(p, db, ids, db')
    requires id in db.nodes && db.nodes[id].uri != p.uri
    requires forall i :: 0 <= i < |p.syms| ==> p.syms[i].fqn != db.nodes[id].fqn
    ensures id in db'.nodes
    ensures db'.nodes[id] == db.nodes[id].(containerId := KeptContainer(p, db.nodes[id]))
  {
    RowOfOtherFile(p, db, ids, db', id);
    if db.nodes[id].containerId.Some? { VanishingRows(p, db.nodes[id].containerId.value); }
  }

  // ----- edges -----

  /** The row was claimed by a symbol with another fqn or another content hash. */
  ghost predicate Restated(p: Plan, id: Id) {
    exists i, j :: && 0 <= i < |p.syms| && i < |p.matched| && 0 <= j < |p.olds| && Pairs(p.matched, i, j)
                   && p.olds[j].id == id
                   && (p.olds[j].node.fqn != p.syms[i].fqn ||
                       p.olds[j].node.signatureHash != Some(p.syms[i].signatureHash))
  }

  lemma RestatedRows(p: Plan, db: Db, id: Id)
    requires Planned(p, db)
    ensures Restated(p, id) <==> id in Dirty(p)
  {
    if Restated(p, id) {
      var i, j :| && 0 <= i < |p.syms| && i < |p.matched| && 0 <= j < |p.olds| && Pairs(p.matched, i, j)
                  && p.olds[j].id == id
                  && (p.olds[j].node.fqn != p.syms[i].fqn ||
                      p.olds[j].node.signatureHash != Some(p.syms[i].signatureHash));
      assert Matched(p, i) && FateOf(p, i) in {Renamed, Updated};
    }
    if id in Dirty(p) {
      var i :| 0 <= i < |p.syms| && Matched(p, i) && FateOf(p, i) in {Renamed, Updated}
               && p.olds[p.matched[i].value].id == id;
      assert Pairs(p.matched, i, p.matched[i].value);
    }
  }

  /** `e` leads from a parent's row to the row of one of its symbols. */
  ghost predicate LinksParent(p: Plan, ids: seq<Id>, i: nat, e: Edge)
    requires i < |p.syms| == |ids|
  {
    && e.edgeType == Contains && e.site.None? && e.dst == ids[i]
    && p.syms[i].parent.Some? && p.syms[i].parent.value < i && e.src == ids[p.syms[i].parent.value]
  }

  ghost predicate LinksSomeParent(p: Plan, ids: seq<Id>, e: Edge)
    requires |p.syms| == |ids|
  {
    exists i :: 0 <= i < |ids| && LinksParent(p, ids, i, e)
  }

  lemma ParentLinks(p: Plan, ids: seq<Id>, e: Edge)
    requires |p.syms| == |ids| && ParentsFirst(p.syms)
    ensures LinksSomeParent(p, ids, e) <==> KeyOf(e) in LinkKeys(p.syms, ids, |ids|)
  {
    if i :| 0 <= i < |ids| && LinksParent(p, ids, i, e) {
      assert KeyOf(e) == LinkKey(p.syms, ids, i);
    }
    if KeyOf(e) in LinkKeys(p.syms, ids, |ids|) {
      var i :| 0 <= i < |ids| && p.syms[i].parent.Some? && LinkKey(p.syms, ids, i) == KeyOf(e);
      assert LinksParent(p, ids, i, e);
    }
  }

  /** What pruning, invalidating and linking leave of an edge row. */
  lemma EdgeAfter(edges: map<Id, Edge>, dirty: set<Id>, gone: set<Id>, firstNew: Id, keys: set<EdgeKey>,
                  edges': map<Id, Edge>, e: Id)
    requires Linked(Pruned(Invalidated(edges, dirty), gone), firstNew, keys, edges')
    requires IdsBelow(edges, firstNew) && e in edges
    ensures e in edges' <==> edges[e].src !in gone && edges[e].dst !in gone
    ensures e in edges' ==>
              edges'[e] == edges[e].(valid := || KeyOf(edges[e]) in keys
                                              || (edges[e].valid && edges[e].src !in dirty && edges[e].dst !in dirty))
  {
    var base := Pruned(Invalidated(edges, dirty), gone);
    if e in base {
      assert edges'[e] == Revived(base[e], keys);
    }
  }

  /** An edge row goes with either of its ends, and with nothing else. */
  lemma EdgeGoesWithItsEnds(p: Plan, db: Db, ids: seq<Id>, db': Db, e: Id)
    requires Planned(p, db) && IdsBelow(db.edges, db.nextEdge) && Reconciled(p, db, ids, db') && e in db.edges
    ensures e in db'.edges <==> !Vanishes(p, db.edges[e].src) && !Vanishes(p, db.edges[e].dst)
  {
    EdgeAfter(db.edges, Dirty(p), Gone(p), db.nextEdge, LinkKeys(p.syms, ids, |ids|), db'.edges, e);
    VanishingRows(p, db.edges[e].src);
    VanishingRows(p, db.edges[e].dst);
  }

  /** Any other keeps everything but its validity, which it keeps exactly if neither end was restated, and which a link
      from a parent to its symbol always has. */
  lemma KeptEdge(p: Plan, db: Db, ids: seq<Id>, db': Db, e: Id)
    requires Planned(p, db) && IdsBelow(db.edges, db.nextEdge) && Reconciled(p, db, ids, db')
    requires e in db.edges && e in db'.edges
    ensures var was, now := db.edges[e], db'.edges[e];
            && now.src == was.src && now.dst == was.dst && now.edgeType == was.edgeType && now.site == was.site
            && (now.valid <==> || LinksSomeParent(p, ids, was)
                               || (was.valid && !Restated(p, was.src) && !Restated(p, was.dst)))
  {
    EdgeAfter(db.edges, Dirty(p), Gone(p), db.nextEdge, LinkKeys(p.syms, ids, |ids|), db'.edges, e);
    RestatedRows(p, db, db.edges[e].src);
    RestatedRows(p, db, db.edges[e].dst);
    ParentLinks(p, ids, db.edges[e]);
  }

  /** Every new edge row is a valid link from a parent to its symbol. */
  lemma NewEdge(p: Plan, db: Db, ids: seq<Id>, db': Db, e: Id)
    requires Planned(p, db) && Reconciled(p, db, ids, db') && e in db'.edges && e !in db.edges
    ensures db'.edges[e].valid && LinksSomeParent(p, ids, db'.edges[e])
  {
    ParentLinks(p, ids, db'.edges[e]);
  }

  /** Each symbol with a parent has its valid link. */
  lemma LinkOfSymbol(p: Plan, db: Db, ids: seq<Id>, db': Db, i: nat) returns (e: Id)
    requires Planned(p, db) && Reconciled(p, db, ids, db') && i < |p.syms| && p.syms[i].parent.Some?
    ensures e in db'.edges && db'.edges[e].valid && LinksParent(p, ids, i, db'.edges[e])
  {
    var key := LinkKey(p.syms, ids, i);
    assert key in LinkKeys(p.syms, ids, |ids|);
    assert HasValid(db'.edges, key);
    e :| e in db'.edges && KeyOf(db'.edges[e]) == key && db'.edges[e].valid;
  }

  // ----- counts -----

  lemma OneMore(before: set<nat>, k: nat, counted: bool, after: set<nat>)
    requires k !in before && after == if counted then before + {k} else before
    ensures |after| == |before| + if counted then 1 else 0
  {
  }

  ghost function WithFate(p: Plan, f: Fate, k: nat): set<nat>
    requires k <= |p.syms| == |p.matched|
  {
    set i | 0 <= i < k && FateOf(p, i) == f
  }

  lemma WithFateStep(p: Plan, f: Fate, k: nat)
    requires k < |p.syms| == |p.matched|
    ensures k !in WithFate(p, f, k)
    ensures WithFate(p, f, k + 1) == if FateOf(p, k) == f then WithFate(p, f, k) + {k} else WithFate(p, f, k)
  {
  }

  lemma {:induction false} FateCounted(p: Plan, f: Fate, k: nat)
    requires k <= |p.syms| == |p.matched|
    ensures CountFate(p, f, k) == |WithFate(p, f, k)|
  {
    if k == 0 {
      assert WithFate(p, f, 0) == {};
    } else {
      FateCounted(p, f, k - 1);
      WithFateStep(p, f, k - 1);
      OneMore(WithFate(p, f, k - 1), k - 1, FateOf(p, k - 1) == f, WithFate(p, f, k));
    }
  }

  ghost function WithOldFate(p: Plan, f: OldFate, k: nat): set<nat>
    requires k <= |p.olds|
  {
    set j | 0 <= j < k && OldFateOf(p, j) == f
  }

  lemma WithOldFateStep(p: Plan, f: OldFate, k: nat)
    requires k < |p.olds|
    ensures k !in WithOldFate(p, f, k)
    ensures WithOldFate(p, f, k + 1) ==
            if OldFateOf(p, k) == f then WithOldFate(p, f, k) + {k} else WithOldFate(p, f, k)
  {
  }

  lemma {:induction false} OldFateCounted(p: Plan, f: OldFate, k: nat)
    requires k <= |p.olds|
    ensures CountOldFate(p, f, k) == |WithOldFate(p, f, k)|
  {
    if k == 0 {
      assert WithOldFate(p, f, 0) == {};
    } else {
      OldFateCounted(p, f, k - 1);
      WithOldFateStep(p, f, k - 1);
      OneMore(WithOldFate(p, f, k - 1), k - 1, OldFateOf(p, k - 1) == f, WithOldFate(p, f, k));
    }
  }

  /** The symbol has a stored row, with the same fqn or not, and the same content hash or not. */
  ghost predicate Claims(p: Plan, i: nat, sameFqn: bool, sameHash: bool)
    requires i < |p.syms| == |p.matched|
  {
    && p.matched[i].Some? && p.matched[i].value < |p.olds|
    && (sameFqn <==> p.olds[p.matched[i].value].node.fqn == p.syms[i].fqn)
    && (sameHash <==> p.olds[p.matched[i].value].node.signatureHash == Some(p.syms[i].signatureHash))
  }

  lemma FateMeans(p: Plan, db: Db, i: nat)
    requires Planned(p, db) && i < |p.syms|
    ensures FateOf(p, i) == Unchanged <==> Claims(p, i, true, true)
    ensures FateOf(p, i) == Updated <==> Claims(p, i, true, false)
    ensures FateOf(p, i) == Renamed <==> Claims(p, i, false, true) || Claims(p, i, false, false)
    ensures FateOf(p, i) == Inserted <==> p.matched[i].None?
  {
  }

  /** What the four counts over the symbols count. */
  lemma SymbolCounts(p: Plan, db: Db)
    requires Planned(p, db)
    ensures OutcomeOf(p).kept == |set i | 0 <= i < |p.syms| && Claims(p, i, true, true)|
    ensures OutcomeOf(p).updated == |set i | 0 <= i < |p.syms| && Claims(p, i, true, false)|
    ensures OutcomeOf(p).renamed ==
            |set i | 0 <= i < |p.syms| && (Claims(p, i, false, true) || Claims(p, i, false, false))|
    ensures OutcomeOf(p).inserted == |set i | 0 <= i < |p.syms| && p.matched[i].None?|
  {
    var n := |p.syms|;
    FateCounted(p, Unchanged, n);
    FateCounted(p, Updated, n);
    FateCounted(p, Renamed, n);
    FateCounted(p, Inserted, n);
    forall i | 0 <= i < n
      ensures FateOf(p, i) == Unchanged <==> Claims(p, i, true, true)
      ensures FateOf(p, i) == Updated <==> Claims(p, i, true, false)
      ensures FateOf(p, i) == Renamed <==> Claims(p, i, false, true) || Claims(p, i, false, false)
      ensures FateOf(p, i) == Inserted <==> p.matched[i].None?
    {
      FateMeans(p, db, i);
    }
    assert (set i | 0 <= i < n && Claims(p, i, true, true)) == WithFate(p, Unchanged, n);
    assert (set i | 0 <= i < n && Claims(p, i, true, false)) == WithFate(p, Updated, n);
    assert (set i | 0 <= i < n && (Claims(p, i, false, true) || Claims(p, i, false, false))) == WithFate(p, Renamed, n);
    assert (set i | 0 <= i < n && p.matched[i].None?) == WithFate(p, Inserted, n);
  }

  /** ... and the two over the stored rows. */
  lemma RowCounts(p: Plan, db: Db)
    requires Planned(p, db)
    ensures OutcomeOf(p).orphaned ==
            |set j | 0 <= j < |p.olds| && Some(j) !in p.matched && !p.olds[j].node.orphan|
    ensures OutcomeOf(p).deleted == |set j | 0 <= j < |p.olds| && Some(j) !in p.matched && p.olds[j].node.orphan|
  {
    var m := |p.olds|;
    OldFateCounted(p, Orphaned, m);
    OldFateCounted(p, Deleted, m);
    forall j | 0 <= j < m
      ensures Some(j) in p.matched <==> OldTaken(p.matched, j)
    {
      if i :| 0 <= i < |p.matched| && p.matched[i] == Some(j) { assert Pairs(p.matched, i, j); }
    }
    assert (set j | 0 <= j < m && Some(j) !in p.matched && !p.olds[j].node.orphan) == WithOldFate(p, Orphaned, m);
    assert (set j | 0 <= j < m && Some(j) !in p.matched && p.olds[j].node.orphan) == WithOldFate(p, Deleted, m);
  }
}
