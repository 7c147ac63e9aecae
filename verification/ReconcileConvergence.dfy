/** Reconciling the same list again: when it changes nothing, and when it fails or never settles. */
module ReconcileConvergence {
  import opened Wrappers
  import opened GraphModel
  import opened RenameMatching
  import opened ReconcileModel
  import opened ReconcileReplay
  import opened ReconcileForecast
  import opened ReconcileTheorems

  // ----- runs of one request -----

  /** `p` is what passes 1 and 2 make of its request on `db`. */
  ghost predicate PlanOn(fp: Fingerprint, p: Plan, db: Db) {
    Enumerates(p.olds, db.nodes, p.uri) && StableMatching(fp, p.olds, p.syms, p.matched)
  }

  /** The request commits on `db` and leaves `db'`. */
  ghost predicate Commits(fp: Fingerprint, p: Plan, db: Db, db': Db) {
    PlanOn(fp, p, db) && Replay(p, db).Some? && Replay(p, db).value.db == db'
  }

  predicate SameRequest(p: Plan, q: Plan) {
    q.uri == p.uri && q.syms == p.syms
  }

  /** The database and the list every reconcile starts from. */
  ghost predicate Sound(p: Plan, db: Db) {
    Integrity(db) && RealLines(db.nodes) && LinesReal(p.syms)
  }

  lemma CommitMeans(fp: Fingerprint, p: Plan, db: Db, db': Db) returns (ids: seq<Id>)
    requires Sound(p, db) && Commits(fp, p, db, db')
    ensures Planned(p, db) && Reconciled(p, db, ids, db') && Sound(p, db')
    ensures Settled(db', p.uri, p.syms, ids) && (NoRivals(p.syms) ==> Distinct(ids))
  {
    StableIsPlanned(fp, p, db);
    CommitReconciles(p, db);
    ids := Replay(p, db).value.ids;
    CommitKeepsRealLines(p, db, ids, db');
    CommitSettles(p, db, ids, db');
  }

  // ----- a settled file -----

  /** The file is settled on a list in which no symbols compete. */
  ghost predicate SettledApart(db: Db, p: Plan, ids: seq<Id>) {
    Planned(p, db) && Settled(db, p.uri, p.syms, ids) && NoRivals(p.syms) && Distinct(ids)
  }

  lemma SettledSymbol(db: Db, p: Plan, ids: seq<Id>, i: nat)
    requires SettledApart(db, p, ids) && i < |p.syms|
    ensures Matched(p, i) && p.olds[p.matched[i].value].id == ids[i] && FateOf(p, i) == Unchanged
    ensures Shows(db, p.uri, p.syms, ids, i) && p.olds[p.matched[i].value].node == db.nodes[ids[i]]
  {
    assert Standing(ids, i) && Shows(db, p.uri, p.syms, ids, i);
    assert db.nodes[ids[i]].uri == p.uri;
    var j :| 0 <= j < |p.olds| && p.olds[j].id == ids[i];
    forall i' | 0 <= i' < i
      ensures p.syms[i'].fqn != p.syms[i].fqn
    {
      assert !Alike(p.syms[i'], p.syms[i]);
    }
    assert Exact(p.olds, p.syms, i, j);
  }

  /** On a settled file every symbol is claimed by its own row, and what is left over is an orphan. */
  lemma SettledMatches(db: Db, p: Plan, ids: seq<Id>)
    requires SettledApart(db, p, ids)
    ensures forall i :: 0 <= i < |p.syms| ==> Matched(p, i) && p.olds[p.matched[i].value].id == ids[i]
    ensures forall i :: 0 <= i < |p.syms| ==> FateOf(p, i) == Unchanged
    ensures forall j :: 0 <= j < |p.olds| ==> (OldTaken(p.matched, j) <==> p.olds[j].id in ids)
    ensures forall j :: 0 <= j < |p.olds| && !OldTaken(p.matched, j) ==> p.olds[j].node.orphan
  {
    forall i | 0 <= i < |p.syms|
      ensures Matched(p, i) && p.olds[p.matched[i].value].id == ids[i] && FateOf(p, i) == Unchanged
    {
      SettledSymbol(db, p, ids, i);
    }
    forall j | 0 <= j < |p.olds|
      ensures OldTaken(p.matched, j) <==> p.olds[j].id in ids
    {
      SettledRow(p, ids, j);
    }
  }

  lemma SettledRow(p: Plan, ids: seq<Id>, j: nat)
    requires j < |p.olds| && |ids| == |p.syms| == |p.matched|
    requires forall a, b :: 0 <= a < |p.olds| && 0 <= b < |p.olds| && p.olds[a].id == p.olds[b].id ==> a == b
    requires forall i :: 0 <= i < |p.syms| ==> Matched(p, i) && p.olds[p.matched[i].value].id == ids[i]
    ensures OldTaken(p.matched, j) <==> p.olds[j].id in ids
  {
    if p.olds[j].id in ids {
      var i :| 0 <= i < |ids| && ids[i] == p.olds[j].id;
      assert Matched(p, i) && Pairs(p.matched, i, j);
    }
    if OldTaken(p.matched, j) {
      var i :| Pairs(p.matched, i, j);
      assert Matched(p, i) && ids[i] == p.olds[j].id;
    }
  }

  /** Nothing stands in the way of a second reconcile with the same list. */
  lemma SettledCommits(db: Db, p: Plan, ids: seq<Id>)
    requires SettledApart(db, p, ids) && Sound(p, db)
    ensures Admissible(db, p.syms) && !Collision(p) && !NameTaken(p, db) && Replay(p, db).Some?
  {
    SettledMatches(db, p, ids);
    forall i, h | 0 <= i < |p.syms|
      ensures !Holder(p, db, h, i)
    {
      SettledSymbol(db, p, ids, i);
      assert Fits(db.nodes, ids[i], db.nodes[ids[i]]);
    }
    AdmissibleFailsExactly(p, db);
  }

  lemma {:induction false} AllUnchanged(p: Plan, k: nat)
    requires k <= |p.syms| == |p.matched|
    requires forall i :: 0 <= i < |p.syms| ==> FateOf(p, i) == Unchanged
    ensures CountFate(p, Unchanged, k) == k
    ensures CountFate(p, Updated, k) == CountFate(p, Renamed, k) == CountFate(p, Inserted, k) == 0
  {
    if k > 0 { AllUnchanged(p, k - 1); }
  }

  lemma {:induction false} NoneOrphaned(p: Plan, k: nat)
    requires k <= |p.olds|
    requires forall j :: 0 <= j < |p.olds| && !OldTaken(p.matched, j) ==> p.olds[j].node.orphan
    ensures CountOldFate(p, Orphaned, k) == 0
  {
    if k > 0 { NoneOrphaned(p, k - 1); }
  }

  predicate NothingNew(p: Plan, o: Outcome) {
    && o.kept == |p.syms| && o.updated == o.renamed == o.inserted == o.orphaned == 0
    && o.deleted + |p.syms| == |p.olds|
  }

  /** It reports every symbol unchanged and at most deletes orphans. */
  lemma SettledOutcome(db: Db, p: Plan, ids: seq<Id>)
    requires SettledApart(db, p, ids)
    ensures NothingNew(p, OutcomeOf(p))
  {
    SettledMatches(db, p, ids);
    AllUnchanged(p, |p.syms|);
    NoneOrphaned(p, |p.olds|);
    CountsBalance(p, db);
  }

  function FileOrphans(db: Db, uri: string): set<Id> {
    set id | id in db.nodes && db.nodes[id].uri == uri && db.nodes[id].orphan
  }

  lemma SettledGone(db: Db, p: Plan, ids: seq<Id>)
    requires SettledApart(db, p, ids)
    ensures Gone(p) == FileOrphans(db, p.uri) && Dirty(p) == {}
  {
    SettledMatches(db, p, ids);
    forall id
      ensures id in Gone(p) <==> id in FileOrphans(db, p.uri)
    {
      if id in Gone(p) {
        var j :| 0 <= j < |p.olds| && !OldTaken(p.matched, j) && p.olds[j].node.orphan && p.olds[j].id == id;
      }
      if id in FileOrphans(db, p.uri) {
        OrphanIsNoSymbols(db, p, ids, id);
        var j :| 0 <= j < |p.olds| && p.olds[j].id == id;
      }
    }
  }

  lemma OrphanIsNoSymbols(db: Db, p: Plan, ids: seq<Id>, id: Id)
    requires SettledApart(db, p, ids) && id in db.nodes && db.nodes[id].orphan
    ensures id !in ids
  {
    forall i | 0 <= i < |ids|
      ensures ids[i] != id
    {
      SettledSymbol(db, p, ids, i);
    }
  }

  /** The rows but `gone`, and no reference to those. */
  function WithoutRows(nodes: map<Id, Node>, gone: set<Id>): map<Id, Node> {
    map id | id in nodes && id !in gone :: Cut(nodes[id], gone)
  }

  lemma SettledIds(db: Db, p: Plan, ids: seq<Id>, ids': seq<Id>, next: Id)
    requires SettledApart(db, p, ids)
    requires IdsAssigned(p, db, ids', next) && |ids'| == |p.syms|
    ensures ids' == ids
  {
    SettledMatches(db, p, ids);
    forall i | 0 <= i < |p.syms|
      ensures ids'[i] == ids[i]
    {
      assert Matched(p, i) && Placed(p, db, ids', i, next);
    }
  }

  /** A settled file is a fixpoint up to its orphans: node rows and edge rows come out identical, except
      that the orphans, the references to them and the edges at them are gone. */
  lemma SettledIsFixpoint(db: Db, p: Plan, ids: seq<Id>, ids': seq<Id>, db': Db)
    requires SettledApart(db, p, ids) && Integrity(db) && Reconciled(p, db, ids', db')
    ensures ids' == ids
    ensures db'.nodes == WithoutRows(db.nodes, FileOrphans(db, p.uri))
    ensures db'.edges == Pruned(db.edges, FileOrphans(db, p.uri))
  {
    SettledIds(db, p, ids, ids', db'.nextNode);
    SettledGone(db, p, ids);
    SettledRows(db, p, ids', db');
    SettledEdges(db, p, ids', db');
  }

  lemma SettledRows(db: Db, p: Plan, ids: seq<Id>, db': Db)
    requires SettledApart(db, p, ids) && Reconciled(p, db, ids, db')
    requires Gone(p) == FileOrphans(db, p.uri)
    ensures db'.nodes == WithoutRows(db.nodes, FileOrphans(db, p.uri))
  {
    forall id | id in db'.nodes
      ensures id in db.nodes && id !in Gone(p) && db'.nodes[id] == Cut(db.nodes[id], Gone(p))
    {
      if id in ids {
        var i := WrittenRowShows(p, db, ids, db', id);
        SettledSymbol(db, p, ids, i);
        OrphanRule(db, p, ids, i);
      } else {
        UnwrittenRowRemains(p, db, ids, db', id);
      }
    }
    var kept := WithoutRows(db.nodes, Gone(p));
    assert forall id :: id in db'.nodes <==> id in kept;
    assert forall id :: id in kept ==> db'.nodes[id] == kept[id];
  }

  /** A symbol's row is not an orphan, and neither is its container. */
  lemma OrphanRule(db: Db, p: Plan, ids: seq<Id>, i: nat)
    requires SettledApart(db, p, ids) && i < |ids|
    ensures ids[i] in db.nodes && ids[i] !in FileOrphans(db, p.uri)
    ensures Cut(RowOf(p, ids, i), FileOrphans(db, p.uri)) == RowOf(p, ids, i) == db.nodes[ids[i]]
  {
    SettledSymbol(db, p, ids, i);
    if p.syms[i].parent.Some? {
      SettledSymbol(db, p, ids, p.syms[i].parent.value);
    }
  }

  lemma SettledEdges(db: Db, p: Plan, ids: seq<Id>, db': Db)
    requires SettledApart(db, p, ids) && Integrity(db) && Reconciled(p, db, ids, db')
    requires Dirty(p) == {} && Gone(p) == FileOrphans(db, p.uri)
    ensures db'.edges == Pruned(db.edges, FileOrphans(db, p.uri))
  {
    var gone, keys := Gone(p), LinkKeys(p.syms, ids, |ids|);
    InvalidatedNone(db.edges);
    var base := Pruned(db.edges, gone);
    assert Linked(base, db.nextEdge, keys, db'.edges);
    forall key | key in keys
      ensures HasValid(base, key)
    {
      var i :| 0 <= i < |ids| && p.syms[i].parent.Some? && key == LinkKey(p.syms, ids, i);
      SettledLinkSurvives(db, p, ids, i);
    }
    LinkedToItself(base, db.nextEdge, keys, db'.edges);
  }

  lemma SettledLinkSurvives(db: Db, p: Plan, ids: seq<Id>, i: nat)
    requires SettledApart(db, p, ids) && i < |ids| && p.syms[i].parent.Some?
    ensures HasValid(Pruned(db.edges, FileOrphans(db, p.uri)), LinkKey(p.syms, ids, i))
  {
    assert HasValid(db.edges, LinkKey(p.syms, ids, i));
    var e :| e in db.edges && KeyOf(db.edges[e]) == LinkKey(p.syms, ids, i) && db.edges[e].valid;
    OrphanRule(db, p, ids, i);
    OrphanRule(db, p, ids, p.syms[i].parent.value);
    assert e in Pruned(db.edges, FileOrphans(db, p.uri));
  }

  /** Adding edges that are all there already, and valid, changes nothing. */
  lemma LinkedToItself(base: map<Id, Edge>, firstNew: Id, keys: set<EdgeKey>, edges: map<Id, Edge>)
    requires Linked(base, firstNew, keys, edges) && UniqueEdges(base)
    requires forall key :: key in keys ==> HasValid(base, key)
    ensures edges == base
  {
    forall e | e in base
      ensures edges[e] == base[e]
    {
      if KeyOf(base[e]) in keys {
        var f :| f in base && KeyOf(base[f]) == KeyOf(base[e]) && base[f].valid;
      }
    }
    forall e | e in edges
      ensures e in base
    {
      if KeyOf(edges[e]) in keys {
        var f :| f in base && KeyOf(base[f]) == KeyOf(edges[e]) && base[f].valid;
        assert KeyOf(edges[f]) == KeyOf(edges[e]);
      }
    }
    assert forall e :: e in edges <==> e in base;
  }

  // ----- convergence -----

  /** The run after a commit, with the same list: it commits, reports nothing new and drops the file's orphans. */
  lemma SecondRun(fp: Fingerprint, p1: Plan, p2: Plan, db0: Db, db1: Db)
    requires Sound(p1, db0) && NoRivals(p1.syms) && Commits(fp, p1, db0, db1)
    requires SameRequest(p1, p2) && PlanOn(fp, p2, db1)
    ensures Replay(p2, db1).Some? && NothingNew(p2, OutcomeOf(p2))
    ensures Admissible(db1, p2.syms) && !Collision(p2) && !NameTaken(p2, db1)
    ensures Replay(p2, db1).value.db.nodes == WithoutRows(db1.nodes, FileOrphans(db1, p1.uri))
    ensures Replay(p2, db1).value.db.edges == Pruned(db1.edges, FileOrphans(db1, p1.uri))
  {
    var ids := CommitMeans(fp, p1, db0, db1);
    StableIsPlanned(fp, p2, db1);
    SettledCommits(db1, p2, ids);
    SettledOutcome(db1, p2, ids);
    CommitReconciles(p2, db1);
    SettledIsFixpoint(db1, p2, ids, Replay(p2, db1).value.ids, Replay(p2, db1).value.db);
  }

  /** Convergence: after a commit, the same list commits again without a change but deleted orphans,
      and from then on a further run commits too and leaves every node and edge row as it is. */
  lemma ReconcileConverges(fp: Fingerprint, p1: Plan, p2: Plan, p3: Plan, db0: Db, db1: Db)
    requires Sound(p1, db0) && NoRivals(p1.syms) && Commits(fp, p1, db0, db1)
    requires SameRequest(p1, p2) && PlanOn(fp, p2, db1)
    requires SameRequest(p1, p3) && (Replay(p2, db1).Some? ==> PlanOn(fp, p3, Replay(p2, db1).value.db))
    ensures Replay(p2, db1).Some? && NothingNew(p2, OutcomeOf(p2))
    ensures var db2 := Replay(p2, db1).value.db;
            && db2.nodes == WithoutRows(db1.nodes, FileOrphans(db1, p1.uri))
            && db2.edges == Pruned(db1.edges, FileOrphans(db1, p1.uri))
            && Replay(p3, db2).Some? && NothingNew(p3, OutcomeOf(p3)) && OutcomeOf(p3).deleted == 0
            && Replay(p3, db2).value.db.nodes == db2.nodes && Replay(p3, db2).value.db.edges == db2.edges
  {
    SecondRun(fp, p1, p2, db0, db1);
    var ids := CommitMeans(fp, p1, db0, db1);
    var db2 := Replay(p2, db1).value.db;
    SecondRun(fp, p2, p3, db1, db2);
    NothingLeftToDrop(fp, p2, p3, db1, db2);
  }

  lemma NothingLeftToDrop(fp: Fingerprint, p2: Plan, p3: Plan, db1: Db, db2: Db)
    requires Sound(p2, db1) && NoRivals(p2.syms) && Commits(fp, p2, db1, db2)
    requires db2.nodes == WithoutRows(db1.nodes, FileOrphans(db1, p2.uri))
    requires SameRequest(p2, p3) && PlanOn(fp, p3, db2)
    ensures FileOrphans(db2, p2.uri) == {} && OutcomeOf(p3).deleted == 0
    ensures WithoutRows(db2.nodes, {}) == db2.nodes && Pruned(db2.edges, {}) == db2.edges
  {
    var ids := CommitMeans(fp, p2, db1, db2);
    StableIsPlanned(fp, p3, db2);
    SettledGone(db2, p3, ids);
    NoOrphansLeft(db1.nodes, db2, p2.uri, FileOrphans(db1, p2.uri));
    NothingDropped(db2);
    NoneDeleted(p3, |p3.olds|);
  }

  lemma NoOrphansLeft(nodes: map<Id, Node>, db: Db, uri: string, gone: set<Id>)
    requires db.nodes == WithoutRows(nodes, gone)
    requires forall id :: id in nodes && nodes[id].uri == uri && nodes[id].orphan ==> id in gone
    ensures FileOrphans(db, uri) == {}
  {
    forall id | id in db.nodes
      ensures id !in FileOrphans(db, uri)
    {
      assert db.nodes[id] == Cut(nodes[id], gone);
    }
  }

  lemma NothingDropped(db: Db)
    ensures WithoutRows(db.nodes, {}) == db.nodes && Pruned(db.edges, {}) == db.edges
  {
    var kept := WithoutRows(db.nodes, {});
    assert forall id :: id in db.nodes <==> id in kept;
    assert forall id :: id in db.nodes ==> kept[id] == db.nodes[id];
  }

  lemma {:induction false} NoneDeleted(p: Plan, k: nat)
    requires k <= |p.olds| && Gone(p) == {}
    ensures CountOldFate(p, Deleted, k) == 0
  {
    if k > 0 {
      NoneDeleted(p, k - 1);
      DeletedStep(p, k - 1);
      assert DeletedIds(p, k) <= Gone(p);
    }
  }

  // ----- when exactly it converges -----

  lemma {:induction false} KeptMeansUnchanged(p: Plan, k: nat)
    requires k <= |p.syms| == |p.matched|
    ensures CountFate(p, Unchanged, k) <= k
    ensures CountFate(p, Unchanged, k) == k ==> forall i :: 0 <= i < k ==> FateOf(p, i) == Unchanged
  {
    if k > 0 { KeptMeansUnchanged(p, k - 1); }
  }

  /** Two symbols with one fqn are never both found unchanged. */
  lemma UnchangedFqnsDiffer(p: Plan, db: Db)
    requires Planned(p, db) && UniqueNodes(db.nodes)
    requires forall i :: 0 <= i < |p.syms| ==> FateOf(p, i) == Unchanged
    ensures DistinctSymFqns(p.syms)
  {
    forall a, b | 0 <= a < b < |p.syms|
      ensures p.syms[a].fqn != p.syms[b].fqn
    {
      assert FateOf(p, a) == FateOf(p, b) == Unchanged;
      var j, k := p.matched[a].value, p.matched[b].value;
      assert Fits(db.nodes, p.olds[j].id, db.nodes[p.olds[j].id]);
      assert Pairs(p.matched, a, j) && Pairs(p.matched, b, k);
    }
  }

  /** A symbol found unchanged is the one its row showed, if fqns are distinct. */
  lemma UnchangedShowsItself(p1: Plan, db0: Db, ids: seq<Id>, p2: Plan, db1: Db, i: nat) returns (id: Id)
    requires Planned(p1, db0) && Reconciled(p1, db0, ids, db1) && SameRequest(p1, p2) && Planned(p2, db1)
    requires DistinctSymFqns(p1.syms) && i < |p1.syms| && FateOf(p2, i) == Unchanged
    ensures id in db1.nodes && db1.nodes[id].fqn == p1.syms[i].fqn && Phys(db1.nodes[id]) == SymKey(p1.uri, p1.syms[i])
  {
    id := p2.olds[p2.matched[i].value].id;
    CarriedFqnIsWritten(p1, db0, ids, db1, id, i);
    var m := WrittenRowShows(p1, db0, ids, db1, id);
    assert m == i;
  }

  /** If a rerun finds every symbol unchanged, no two symbols compete. */
  lemma AllUnchangedMeansNoRivals(p1: Plan, db0: Db, ids: seq<Id>, p2: Plan, db1: Db)
    requires Planned(p1, db0) && Reconciled(p1, db0, ids, db1) && SameRequest(p1, p2) && Planned(p2, db1)
    requires UniqueNodes(db1.nodes) && forall i :: 0 <= i < |p2.syms| ==> FateOf(p2, i) == Unchanged
    ensures NoRivals(p1.syms)
  {
    UnchangedFqnsDiffer(p2, db1);
    forall a, b | 0 <= a < b < |p1.syms|
      ensures !Alike(p1.syms[a], p1.syms[b])
    {
      var r := UnchangedShowsItself(p1, db0, ids, p2, db1, a);
      var q := UnchangedShowsItself(p1, db0, ids, p2, db1, b);
      assert Fits(db1.nodes, r, db1.nodes[r]);
    }
  }

  /** Exactly: after a commit, the same list is found unchanged if and only if its fqns and its physical
      keys are pairwise distinct; and then the run commits. */
  lemma RerunFindsNothingNewExactly(fp: Fingerprint, p1: Plan, p2: Plan, db0: Db, db1: Db)
    requires Sound(p1, db0) && Commits(fp, p1, db0, db1)
    requires SameRequest(p1, p2) && PlanOn(fp, p2, db1)
    ensures OutcomeOf(p2).kept == |p2.syms| <==> NoRivals(p1.syms)
    ensures (Replay(p2, db1).Some? && NothingNew(p2, OutcomeOf(p2))) <==> NoRivals(p1.syms)
  {
    if NoRivals(p1.syms) {
      SecondRun(fp, p1, p2, db0, db1);
    } else {
      var ids := CommitMeans(fp, p1, db0, db1);
      StableIsPlanned(fp, p2, db1);
      KeptMeansUnchanged(p2, |p2.syms|);
      if OutcomeOf(p2).kept == |p2.syms| {
        AllUnchangedMeansNoRivals(p1, db0, ids, p2, db1);
      }
    }
  }

  // ----- overloads: symbols that share an fqn -----

  /** A symbol whose fqn an earlier one has is never found unchanged: it counts as inserted or renamed every time. */
  lemma LaterOverloadIsNeverUnchanged(fp: Fingerprint, p: Plan, a: nat, b: nat)
    requires StableMatching(fp, p.olds, p.syms, p.matched)
    requires a < b < |p.syms| && p.syms[a].fqn == p.syms[b].fqn
    ensures FateOf(p, b) == Inserted || FateOf(p, b) == Renamed
  {
    if Matched(p, b) {
      var j := p.matched[b].value;
      assert Pairs(p.matched, b, j);
      StableMatchingMeaning(fp, p.olds, p.syms, p.matched, b, j);
      if p.olds[j].node.fqn == p.syms[b].fqn {
        var first := FirstWithFqn(p.syms, b);
        assert Exact(p.olds, p.syms, first, j);
      }
    }
  }

  /** When places are distinct, the row of an fqn shows the last symbol that carries it. */
  lemma LastOverloadStands(p: Plan, db: Db, ids: seq<Id>, db': Db, b: nat)
    requires Planned(p, db) && Reconciled(p, db, ids, db') && DistinctPlaces(p.syms)
    requires b < |p.syms| && NoLaterFqn(p.syms, b)
    ensures Standing(ids, b) && RowIs(db'.nodes, ids[b], RowOf(p, ids, b))
  {
    var i := RivalStillStands(p, db, ids, db'.nextNode, b);
    StandsLast(ids, b, i);
  }

  lemma StandsLast(ids: seq<Id>, b: nat, i: nat)
    requires b < |ids| && i < |ids| && ids[i] == ids[b] && Standing(ids, i)
    ensures b <= i
  {
  }

  /** The first symbol of an fqn is claimed by the row that shows the last one. */
  lemma FirstClaimsLast(p1: Plan, db0: Db, ids: seq<Id>, p2: Plan, db1: Db, a: nat, b: nat)
    requires Planned(p1, db0) && Reconciled(p1, db0, ids, db1) && DistinctPlaces(p1.syms)
    requires SameRequest(p1, p2) && Planned(p2, db1) && a < |p1.syms| && b < |p1.syms|
    requires p1.syms[a].fqn == p1.syms[b].fqn && NoEarlierFqn(p1.syms, a) && NoLaterFqn(p1.syms, b)
    ensures Matched(p2, a)
    ensures var prior := p2.olds[p2.matched[a].value].node;
            prior.fqn == p1.syms[a].fqn && prior.signatureHash == Some(p1.syms[b].signatureHash)
  {
    LastOverloadStands(p1, db0, ids, db1, b);
    RowOfIsOwn(p1, db0, ids, b);
    assert db1.nodes[ids[b]].uri == p1.uri;
    var j :| 0 <= j < |p2.olds| && p2.olds[j].id == ids[b];
    assert Exact(p2.olds, p2.syms, a, j);
  }

  predicate NoEarlierFqn(syms: seq<ReconcileSymbol>, a: nat)
    requires a < |syms|
  {
    forall i :: 0 <= i < a ==> syms[i].fqn != syms[a].fqn
  }

  /** Overloads after a commit: the first is claimed by the row that shows the last one, so it counts as updated,
      and its edges are invalidated again, whenever their hashes differ; the last is inserted again, or the
      reconcile fails because a leftover row was matched to it. */
  lemma OverloadsNeverSettle(fp: Fingerprint, p1: Plan, p2: Plan, db0: Db, db1: Db, a: nat, b: nat)
    requires Sound(p1, db0) && Commits(fp, p1, db0, db1) && DistinctPlaces(p1.syms)
    requires SameRequest(p1, p2) && PlanOn(fp, p2, db1)
    requires a < b < |p1.syms| && p1.syms[a].fqn == p1.syms[b].fqn
    requires NoEarlierFqn(p1.syms, a) && NoLaterFqn(p1.syms, b)
    ensures FateOf(p2, a) == if p1.syms[a].signatureHash == p1.syms[b].signatureHash then Unchanged else Updated
    ensures FateOf(p2, a) == Updated ==> p2.olds[p2.matched[a].value].id in Dirty(p2)
    ensures Replay(p2, db1).Some? ==> FateOf(p2, b) == Inserted
  {
    var ids := CommitMeans(fp, p1, db0, db1);
    StableIsPlanned(fp, p2, db1);
    FirstClaimsLast(p1, db0, ids, p2, db1, a, b);
    LaterOverloadIsNeverUnchanged(fp, p2, a, b);
    if Matched(p2, b) {
      ClaimedRivalStopsIt(p2, db1, a, b);
    }
  }

  /** When places are distinct, every fqn of the list is stored in the file. */
  lemma FqnIsStored(p1: Plan, db0: Db, ids: seq<Id>, p2: Plan, db1: Db, k: nat) returns (j: nat)
    requires Planned(p1, db0) && Reconciled(p1, db0, ids, db1) && DistinctPlaces(p1.syms)
    requires SameRequest(p1, p2) && Planned(p2, db1) && k < |p1.syms|
    ensures j < |p2.olds| && p2.olds[j].node.fqn == p1.syms[k].fqn
  {
    var i := RivalStillStands(p1, db0, ids, db1.nextNode, k);
    assert RowIs(db1.nodes, ids[i], RowOf(p1, ids, i));
    RowOfIsOwn(p1, db0, ids, i);
    assert db1.nodes[ids[i]].uri == p2.uri;
    j :| j < |p2.olds| && p2.olds[j].id == ids[i];
  }

  /** A row of the file whose fqn the list does not carry resembles a symbol whose fqn an earlier one has. */
  ghost predicate LeftoverLooksLike(p: Plan, db: Db, id: Id, b: nat) {
    && id in db.nodes && db.nodes[id].uri == p.uri && !Carried(p.syms, db.nodes[id].fqn)
    && b < |p.syms| && HasEarlierFqn(p.syms, b) && Similar(db.nodes[id], p.syms[b])
  }

  lemma LeftoverGoesToOverload(fp: Fingerprint, p1: Plan, db0: Db, ids: seq<Id>, p2: Plan, db1: Db, id: Id, b: nat)
      returns (i: nat)
    requires Planned(p1, db0) && Reconciled(p1, db0, ids, db1) && DistinctPlaces(p1.syms)
    requires SameRequest(p1, p2) && PlanOn(fp, p2, db1) && Planned(p2, db1) && LeftoverLooksLike(p2, db1, id, b)
    ensures i < |p2.syms| && Matched(p2, i) && HasEarlierFqn(p2.syms, i)
  {
    var j := LeftoverIsEligible(p2, db1, id, b);
    i := SomeEligibleTaken(fp, p2, b, j);
    var k := FqnIsStored(p1, db0, ids, p2, db1, i);
    assert Exact(p2.olds, p2.syms, i, k) <==> !HasEarlierFqn(p2.syms, i);
  }

  lemma LeftoverIsEligible(p: Plan, db: Db, id: Id, b: nat) returns (j: nat)
    requires Planned(p, db) && LeftoverLooksLike(p, db, id, b)
    ensures j < |p.olds| && Eligible(p.olds, p.syms, b, j)
  {
    j :| j < |p.olds| && p.olds[j].id == id;
    assert !SymClaims(p.olds, p.syms, b) && !OldClaimed(p.olds, p.syms, j);
  }

  lemma SomeEligibleTaken(fp: Fingerprint, p: Plan, b: nat, j: nat) returns (i: nat)
    requires StableMatching(fp, p.olds, p.syms, p.matched) && Eligible(p.olds, p.syms, b, j)
    ensures i < |p.syms| && Matched(p, i) && !SymClaims(p.olds, p.syms, i)
  {
    StableMatchingMeaning(fp, p.olds, p.syms, p.matched, b, j);
    if Pairs(p.matched, b, j) {
      i := b;
    } else {
      var i', j' :| Pairs(p.matched, i', j') && Eligible(p.olds, p.syms, i', j');
      i := i';
    }
  }

  lemma MatchedOverloadIsLeftover(fp: Fingerprint, p: Plan, db: Db, b: nat)
    requires PlanOn(fp, p, db) && Planned(p, db) && b < |p.syms| && Matched(p, b) && HasEarlierFqn(p.syms, b)
    ensures LeftoverLooksLike(p, db, p.olds[p.matched[b].value].id, b)
  {
    var j := p.matched[b].value;
    assert Pairs(p.matched, b, j);
    StableMatchingMeaning(fp, p.olds, p.syms, p.matched, b, j);
    forall i | 0 <= i < |p.syms|
      ensures p.syms[i].fqn != p.olds[j].node.fqn
    {
      if p.syms[i].fqn == p.olds[j].node.fqn { CarrierClaims(p.olds, p.syms, i, j); }
    }
  }

  lemma CarrierClaims(olds: seq<OldRow>, syms: seq<ReconcileSymbol>, i: nat, j: nat)
    requires i < |syms| && j < |olds| && syms[i].fqn == olds[j].node.fqn
    ensures OldClaimed(olds, syms, j)
  {
    var first := FirstWithFqn(syms, i);
    assert Exact(olds, syms, first, j);
  }

  lemma OnlyRowWithFqn(p: Plan, db: Db, j: nat, h: Id, k: nat)
    requires Planned(p, db) && UniqueNodes(db.nodes) && k < |p.syms|
    requires j < |p.olds| && p.olds[j].node.fqn == p.syms[k].fqn
    ensures !Holder(p, db, h, k)
  {
    assert Fits(db.nodes, p.olds[j].id, db.nodes[p.olds[j].id]);
  }

  lemma RerunNeverCollides(p1: Plan, db0: Db, ids: seq<Id>, p2: Plan, db1: Db)
    requires Planned(p1, db0) && Reconciled(p1, db0, ids, db1) && SameRequest(p1, p2) && Planned(p2, db1)
    requires Settled(db1, p1.uri, p1.syms, ids)
    ensures !Collision(p2)
  {
    forall j, i | 0 <= j < |p2.olds| && 0 <= i < |p2.syms|
      ensures !CollidesAt(p2, j, i)
    {
      var id := p2.olds[j].id;
      if id in ids {
        var m := WrittenRowShows(p1, db0, ids, db1, id);
        var first := CarriedRowIsClaimed(p2, db1, j, m);
      }
    }
  }

  /** Exactly: a list with distinct places that has committed fails when it is run again if and only if a row of the
      file left over from before resembles a symbol whose fqn an earlier symbol has: same kind, same container, at
      most three lines away. */
  lemma OverloadRerunFailsExactly(fp: Fingerprint, p1: Plan, p2: Plan, db0: Db, db1: Db)
    requires Sound(p1, db0) && Commits(fp, p1, db0, db1) && DistinctPlaces(p1.syms)
    requires SameRequest(p1, p2) && PlanOn(fp, p2, db1)
    ensures Replay(p2, db1).None? <==> exists id, b: nat :: LeftoverLooksLike(p2, db1, id, b)
  {
    var ids := CommitMeans(fp, p1, db0, db1);
    StableIsPlanned(fp, p2, db1);
    RerunNeverCollides(p1, db0, ids, p2, db1);
    LeftoverDecides(fp, p1, db0, ids, p2, db1);
  }

  lemma LeftoverDecides(fp: Fingerprint, p1: Plan, db0: Db, ids: seq<Id>, p2: Plan, db1: Db)
    requires Planned(p1, db0) && Reconciled(p1, db0, ids, db1) && DistinctPlaces(p1.syms) && ParentsFirst(p1.syms)
    requires SameRequest(p1, p2) && PlanOn(fp, p2, db1) && OnTrack(p2, db1) && RealLines(db1.nodes) && !Collision(p2)
    ensures Replay(p2, db1).None? <==> exists id, b: nat :: LeftoverLooksLike(p2, db1, id, b)
  {
    if id, b: nat :| LeftoverLooksLike(p2, db1, id, b) {
      var i := LeftoverGoesToOverload(fp, p1, db0, ids, p2, db1, id, b);
    }
    DistinctPlacesFailsExactly(p2, db1);
    if k: nat :| k < |p2.syms| && Matched(p2, k) && (HasEarlierFqn(p2.syms, k) || HasHolder(p2, db1, k)) {
      NoHolderOnRerun(p1, db0, ids, p2, db1, k);
      MatchedOverloadIsLeftover(fp, p2, db1, k);
    }
  }

  lemma NoHolderOnRerun(p1: Plan, db0: Db, ids: seq<Id>, p2: Plan, db1: Db, k: nat)
    requires Planned(p1, db0) && Reconciled(p1, db0, ids, db1) && DistinctPlaces(p1.syms)
    requires SameRequest(p1, p2) && Planned(p2, db1) && UniqueNodes(db1.nodes) && k < |p2.syms|
    ensures !HasHolder(p2, db1, k)
  {
    var j := FqnIsStored(p1, db0, ids, p2, db1, k);
    forall h
      ensures !Holder(p2, db1, h, k)
    {
      OnlyRowWithFqn(p2, db1, j, h, k);
    }
  }

  // ----- symbols that share a place -----

  /** When fqns are distinct, the row at a place shows the last symbol there: the others are in no row at all. */
  lemma SharedPlaceLosesSymbol(fp: Fingerprint, p: Plan, db: Db, db': Db, a: nat, b: nat)
    requires Sound(p, db) && Commits(fp, p, db, db') && DistinctSymFqns(p.syms)
    requires a < b < |p.syms| && SymKey("", p.syms[a]) == SymKey("", p.syms[b])
    ensures forall id :: id in db'.nodes ==> db'.nodes[id].fqn != p.syms[a].fqn
  {
    var ids := CommitMeans(fp, p, db, db');
    var i := RivalStillStands(p, db, ids, db'.nextNode, b);
    StandsLast(ids, b, i);
    var s := WrittenRowShows(p, db, ids, db', ids[i]);
    OneLastWriter(ids, i);
    forall id | id in db'.nodes
      ensures db'.nodes[id].fqn != p.syms[a].fqn
    {
      if db'.nodes[id].fqn == p.syms[a].fqn {
        CarriedFqnIsWritten(p, db, ids, db', id, a);
        var m := WrittenRowShows(p, db, ids, db', id);
        assert m == a;
        TwoRowsOnePlace(db', ids[i], id);
      }
    }
  }

  lemma TwoRowsOnePlace(db: Db, r: Id, q: Id)
    requires UniqueNodes(db.nodes) && r in db.nodes && q in db.nodes && Phys(db.nodes[r]) == Phys(db.nodes[q])
    ensures r == q
  {
    assert Fits(db.nodes, r, db.nodes[r]);
  }

  /** With distinct fqns, a symbol that stands after a commit is claimed on the rerun. */
  lemma StandingIsClaimed(p1: Plan, db0: Db, ids: seq<Id>, p2: Plan, db1: Db, i: nat)
    requires Planned(p1, db0) && Reconciled(p1, db0, ids, db1) && DistinctSymFqns(p1.syms)
    requires SameRequest(p1, p2) && Planned(p2, db1) && i < |ids| && Standing(ids, i)
    ensures Matched(p2, i)
  {
    assert RowIs(db1.nodes, ids[i], RowOf(p1, ids, i));
    RowOfIsOwn(p1, db0, ids, i);
    assert db1.nodes[ids[i]].uri == p2.uri;
    var j :| 0 <= j < |p2.olds| && p2.olds[j].id == ids[i];
    assert Exact(p2.olds, p2.syms, i, j);
  }

  /** ... and the list never commits a second time. */
  lemma SharedPlaceFailsOnRerun(fp: Fingerprint, p1: Plan, p2: Plan, db0: Db, db1: Db, a: nat, b: nat)
    requires Sound(p1, db0) && Commits(fp, p1, db0, db1) && DistinctSymFqns(p1.syms)
    requires SameRequest(p1, p2) && PlanOn(fp, p2, db1)
    requires a < b < |p1.syms| && SymKey("", p1.syms[a]) == SymKey("", p1.syms[b])
    ensures Replay(p2, db1).None?
  {
    var ids := CommitMeans(fp, p1, db0, db1);
    StableIsPlanned(fp, p2, db1);
    var i := RivalStillStands(p1, db0, ids, db1.nextNode, b);
    StandsLast(ids, b, i);
    StandingIsClaimed(p1, db0, ids, p2, db1, i);
    ClaimedRivalStopsIt(p2, db1, a, i);
  }

  /** Exactly: when fqns are distinct, a list that has committed commits again if and only if no two symbols share a
      place. */
  lemma RerunCommitsExactly(fp: Fingerprint, p1: Plan, p2: Plan, db0: Db, db1: Db)
    requires Sound(p1, db0) && Commits(fp, p1, db0, db1) && DistinctSymFqns(p1.syms)
    requires SameRequest(p1, p2) && PlanOn(fp, p2, db1)
    ensures Replay(p2, db1).Some? <==> DistinctPlaces(p1.syms)
  {
    if DistinctPlaces(p1.syms) {
      assert NoRivals(p1.syms);
      SecondRun(fp, p1, p2, db0, db1);
    } else {
      var a, b :| 0 <= a < b < |p1.syms| && SymKey("", p1.syms[a]) == SymKey("", p1.syms[b]);
      SharedPlaceFailsOnRerun(fp, p1, p2, db0, db1, a, b);
    }
  }
}
