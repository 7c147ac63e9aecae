/** What the content hash recorded by the startup pass says about the rows it leaves alone. The live watcher reconciles
    files without recording anything, so a matching hash does not by itself mean that the rows are current. */
module RecordedHash {
  import opened Wrappers
  import opened GraphModel
  import opened RenameMatching
  import opened ReconcileModel
  import opened ReconcileReplay
  import opened ReconcileTheorems
  import opened ReconcileConvergence
  import opened GraphStore
  import opened DocumentBatches
  import opened Flattening
  import opened DbActor
  import opened StartupDrift

  // ----- the watcher -----

  /** A live reconcile of `uri` that met `a`: no guard, no hash; only what was fetched. */
  ghost predicate WatcherRan(fp: Fingerprint, pj: Project, uri: string, a: Probe, before: Db, after: Db, ok: bool) {
    if !pj.supported(uri) || a.fetch == ServerUnavailable then ok && after == before
    else if a.fetch == FetchError || !ok then !ok && after == before
    else exists p :: && PlanFor(p, uri, pj.language(uri), pj.isExternal(uri), SymbolsOf(pj, uri, a.fetch))
                     && Commits(fp, p, before, after)
  }

  /** `reconcile_uri`. */
  method ReconcileOnChange(db: Store, pj: Project, uri: string, a: Probe) returns (ok: bool)
    requires db.Valid()
    modifies db
    ensures db.Valid()
    ensures WatcherRan(db.bodyFingerprint, pj, uri, a, old(db.View()), db.View(), ok)
  {
    if !pj.supported(uri) {
      return true;
    }
    match a.fetch {
      case ServerUnavailable => return true;
      case FetchError => return false;
      case Fetched(fileExists, symbols) =>
        var rows := FlattenDocumentSymbols(symbols, ModulePathOf(pj, uri));
        var syms := Batch(pj.labels(uri), rows, ModulePathOf(pj, uri), fileExists);
        BatchHasParentsFirst(pj.labels(uri), symbols, ModulePathOf(pj, uri), fileExists);
        ghost var p;
        ok, p := ReconcileSymbols(db, pj, uri, syms);
    }
  }

  // ----- a hash that vouches for other rows -----

  /** The text the hash was recorded for was edited, the watcher reconciled the edit, and the edit was undone while
      nothing was watching: the pass accepts the file, and keeps the rows of the edit. */
  lemma UndoneEditIsKept(fp: Fingerprint, pj: Project, uri: string, a: Probe, p: Plan, recorded: Db, edited: Db,
                         after: Db, r: DriftAttempt) returns (ids: seq<Id>)
    requires HashMatches(recorded, uri, a)
    requires p.uri == uri && Sound(p, recorded) && Commits(fp, p, recorded, edited)
    requires AttemptOk(pj, uri, a, edited, after, r)
    ensures r == Committed && after == edited && Settled(after, uri, p.syms, ids)
  {
    ids := CommitMeans(fp, p, recorded, edited);
    assert HashMatches(edited, uri, a);
  }

  // ----- which rows are kept -----

  /** The live rows of `uri` are the rows of the symbols, each showing the last symbol put there. */
  ghost predicate RowsShow(nodes: map<Id, Node>, uri: string, syms: seq<ReconcileSymbol>, ids: seq<Id>) {
    && |ids| == |syms| && ParentsFirst(syms)
    && (forall i :: 0 <= i < |ids| && Standing(ids, i) ==> RowShows(nodes, uri, syms, ids, i))
    && (forall id :: id in nodes && nodes[id].uri == uri && id !in ids ==> nodes[id].orphan && !nodes[id].valid)
  }

  ghost predicate RowShows(nodes: map<Id, Node>, uri: string, syms: seq<ReconcileSymbol>, ids: seq<Id>, i: nat)
    requires i < |syms| == |ids|
  {
    ids[i] in nodes && Mirrors(nodes[ids[i]], uri, syms[i], Container(syms, ids, i))
  }

  /** Command `k` may rewrite rows of `uri`: it upserts a row of the file or with the fqn of one of its rows, or it is
      a committed reconcile of the file or of symbols that carry the fqn of one of its rows. */
  ghost predicate Touches(dbs: seq<Db>, cs: seq<Command>, plans: seq<Plan>, k: nat, uri: string)
    requires |dbs| == |cs| + 1 && |plans| == |cs| && k < |cs|
  {
    match cs[k]
    case UpsertNode(n) =>
      n.uri == uri || exists id :: id in dbs[k].nodes && dbs[k].nodes[id].uri == uri && dbs[k].nodes[id].fqn == n.fqn
    case ReconcileFileSymbols(file, _, _, syms) =>
      CommitsAt(dbs, cs, plans, k, file) && (file == uri || Intrudes(dbs[k], uri, syms))
    case _ => false
  }

  /** A row of the file after a step that does not touch it: as it was, but for annotations and, if it is not
      contained in a row of the file, its container. */
  ghost predicate RowRemains(before: map<Id, Node>, after: map<Id, Node>, uri: string, id: Id) {
    && id in before && id in after
    && after[id] == before[id].(construct := after[id].construct, signature := after[id].signature,
                                containerId := after[id].containerId)
    && (before[id].containerId.Some? && HasFile(before, before[id].containerId.value, uri) ==>
          after[id].containerId == before[id].containerId)
    && (before[id].containerId.None? ==> after[id].containerId.None?)
  }

  predicate HasFile(nodes: map<Id, Node>, id: Id, uri: string) {
    id in nodes && nodes[id].uri == uri
  }

  ghost predicate FileRemains(before: map<Id, Node>, after: map<Id, Node>, uri: string) {
    forall id :: HasFile(before, id, uri) || HasFile(after, id, uri) ==> RowRemains(before, after, uri, id)
  }

  lemma StepBesideFile(fp: Fingerprint, dbs: seq<Db>, cs: seq<Command>, plans: seq<Plan>, k: nat, uri: string)
    requires Run(fp, dbs, cs, plans) && k < |cs| && !Touches(dbs, cs, plans, k, uri)
    ensures FileRemains(dbs[k].nodes, dbs[k + 1].nodes, uri)
  {
    RunsStaySound(fp, dbs, cs, plans, k);
    assert StepAt(fp, dbs, cs, plans, k);
    match cs[k] {
      case UpsertNode(n) => NodeStepBesideFile(dbs[k], n, dbs[k + 1], uri);
      case UpsertEdge(e) => assert dbs[k + 1].nodes == dbs[k].nodes;
      case ReconcileFileSymbols(file, _, _, syms) =>
        if Replay(plans[k], dbs[k]).Some? {
          StableIsPlanned(fp, plans[k], dbs[k]);
          CommitReconciles(plans[k], dbs[k]);
          CommitRemains(plans[k], dbs[k], Replay(plans[k], dbs[k]).value.ids, dbs[k + 1], uri);
        }
      case _ => UpdateRemains(cs[k], dbs[k], uri);
    }
  }

  lemma NodeStepBesideFile(db: Db, n: Node, db': Db, uri: string)
    requires NodeStep(db, n, db') && n.uri != uri
    requires forall id :: HasFile(db.nodes, id, uri) ==> db.nodes[id].fqn != n.fqn
    ensures FileRemains(db.nodes, db'.nodes, uri)
  {
  }

  lemma UpdateRemains(c: Command, db: Db, uri: string)
    ensures FileRemains(db.nodes, AfterUpdate(c, db).nodes, uri)
  {
    match c
    case UpdateNodeConstruct(id, text) =>
    case UpdateNodeSignature(id, text) =>
    case UpdateNodeSignatureByFqn(fqn, text) =>
    case _ => assert AfterUpdate(c, db).nodes == db.nodes;
  }

  lemma CommitRemains(p: Plan, db: Db, ids: seq<Id>, db': Db, uri: string)
    requires Planned(p, db) && Integrity(db) && Reconciled(p, db, ids, db')
    requires uri != p.uri && !Intrudes(db, uri, p.syms)
    ensures FileRemains(db.nodes, db'.nodes, uri)
  {
    forall id | HasFile(db.nodes, id, uri) || HasFile(db'.nodes, id, uri)
      ensures RowRemains(db.nodes, db'.nodes, uri, id)
    {
      if HasFile(db'.nodes, id, uri) { NoStrayRows(p, db, ids, db', id); }
      RowOfOtherFile(p, db, ids, db', id);
    }
  }

  lemma RowsShowRemain(before: map<Id, Node>, after: map<Id, Node>, uri: string, syms: seq<ReconcileSymbol>,
                       ids: seq<Id>)
    requires RowsShow(before, uri, syms, ids) && FileRemains(before, after, uri)
    ensures RowsShow(after, uri, syms, ids)
  {
    forall i | 0 <= i < |ids| && Standing(ids, i)
      ensures RowShows(after, uri, syms, ids, i)
    {
      assert RowShows(before, uri, syms, ids, i) && HasFile(before, ids[i], uri);
      assert RowRemains(before, after, uri, ids[i]);
      if syms[i].parent.Some? {
        var m := LastWriter(ids, syms[i].parent.value);
        assert RowShows(before, uri, syms, ids, m);
        assert HasFile(before, ids[syms[i].parent.value], uri);
      }
    }
    forall id | HasFile(after, id, uri) && id !in ids
      ensures after[id].orphan && !after[id].valid
    {
      assert RowRemains(before, after, uri, id);
    }
  }

  /** As long as no command touches the file it shows what it showed. */
  lemma {:induction false} RowsShowOverRun(fp: Fingerprint, dbs: seq<Db>, cs: seq<Command>, plans: seq<Plan>,
                                           m: nat, n: nat, uri: string, syms: seq<ReconcileSymbol>, ids: seq<Id>)
    requires Run(fp, dbs, cs, plans) && m <= n < |dbs| && RowsShow(dbs[m].nodes, uri, syms, ids)
    requires forall k: nat :: m <= k < n ==> !Touches(dbs, cs, plans, k, uri)
    ensures RowsShow(dbs[n].nodes, uri, syms, ids)
    decreases n
  {
    if m < n {
      RowsShowOverRun(fp, dbs, cs, plans, m, n - 1, uri, syms, ids);
      StepBesideFile(fp, dbs, cs, plans, n - 1, uri);
      RowsShowRemain(dbs[n - 1].nodes, dbs[n].nodes, uri, syms, ids);
    }
  }

  /** Command `k` is the last that touches `uri` before state `n`: it commits a reconcile of the file. */
  ghost predicate LastCommit(dbs: seq<Db>, cs: seq<Command>, plans: seq<Plan>, uri: string, k: nat, n: nat)
    requires |dbs| == |cs| + 1 && |plans| == |cs|
  {
    && k < n < |dbs| && CommitsAt(dbs, cs, plans, k, uri)
    && (forall m: nat :: k < m < n ==> !Touches(dbs, cs, plans, m, uri))
  }

  lemma LastCommitShows(fp: Fingerprint, dbs: seq<Db>, cs: seq<Command>, plans: seq<Plan>, uri: string, k: nat, n: nat)
      returns (ids: seq<Id>)
    requires Run(fp, dbs, cs, plans) && LastCommit(dbs, cs, plans, uri, k, n)
    ensures RowsShow(dbs[n].nodes, uri, cs[k].syms, ids)
    ensures NoRivals(cs[k].syms) ==> Distinct(ids)
  {
    RunsStaySound(fp, dbs, cs, plans, k);
    assert StepAt(fp, dbs, cs, plans, k);
    ids := CommitShows(fp, plans[k], dbs[k], dbs[k + 1]);
    RowsShowOverRun(fp, dbs, cs, plans, k + 1, n, uri, cs[k].syms, ids);
  }

  lemma CommitShows(fp: Fingerprint, p: Plan, db: Db, db': Db) returns (ids: seq<Id>)
    requires Integrity(db) && AllSane(db.nodes) && LinesReal(p.syms) && Commits(fp, p, db, db')
    ensures RowsShow(db'.nodes, p.uri, p.syms, ids) && (NoRivals(p.syms) ==> Distinct(ids))
  {
    assert forall id :: id in db.nodes ==> Sane(db.nodes[id]);
    ids := CommitMeans(fp, p, db, db');
    forall i | 0 <= i < |ids| && Standing(ids, i)
      ensures RowShows(db'.nodes, p.uri, p.syms, ids, i)
    {
      assert Shows(db', p.uri, p.syms, ids, i);
    }
  }

  // ----- two lists, one file -----

  function ParentFqn(syms: seq<ReconcileSymbol>, i: nat): Option<string>
    requires i < |syms|
  {
    match syms[i].parent
    case None => None
    case Some(q) => if q < |syms| then Some(syms[q].fqn) else None
  }

  /** The same symbol, under the same parent. */
  predicate SameSymbol(s: seq<ReconcileSymbol>, i: nat, t: seq<ReconcileSymbol>, j: nat)
    requires i < |s| && j < |t|
  {
    s[i].(parent := None) == t[j].(parent := None) && ParentFqn(s, i) == ParentFqn(t, j)
  }

  predicate Within(s: seq<ReconcileSymbol>, t: seq<ReconcileSymbol>) {
    forall i :: 0 <= i < |s| ==> SymbolIn(s, i, t)
  }

  predicate SymbolIn(s: seq<ReconcileSymbol>, i: nat, t: seq<ReconcileSymbol>)
    requires i < |s|
  {
    exists j :: 0 <= j < |t| && SameSymbol(s, i, t, j)
  }

  /** The same symbols, in whatever order. */
  predicate SameListing(s: seq<ReconcileSymbol>, t: seq<ReconcileSymbol>) {
    Within(s, t) && Within(t, s)
  }

  ghost predicate ShowsApart(nodes: map<Id, Node>, uri: string, syms: seq<ReconcileSymbol>, ids: seq<Id>) {
    RowsShow(nodes, uri, syms, ids) && Distinct(ids)
  }

  /** The file shows the list, each symbol in a row of its own. */
  ghost predicate FileShows(nodes: map<Id, Node>, uri: string, syms: seq<ReconcileSymbol>) {
    exists ids :: ShowsApart(nodes, uri, syms, ids)
  }

  lemma ApartShows(nodes: map<Id, Node>, uri: string, syms: seq<ReconcileSymbol>, ids: seq<Id>, i: nat)
    requires ShowsApart(nodes, uri, syms, ids) && i < |ids|
    ensures RowShows(nodes, uri, syms, ids, i) && HasFile(nodes, ids[i], uri) && !nodes[ids[i]].orphan
  {
    assert Standing(ids, i);
  }

  lemma ShownSymbolIsShown(nodes: map<Id, Node>, uri: string, s: seq<ReconcileSymbol>, a: seq<Id>,
                           t: seq<ReconcileSymbol>, b: seq<Id>, i: nat)
    requires ShowsApart(nodes, uri, s, a) && ShowsApart(nodes, uri, t, b) && i < |s|
    ensures SymbolIn(s, i, t)
  {
    ApartShows(nodes, uri, s, a, i);
    var j :| 0 <= j < |b| && b[j] == a[i];
    ApartShows(nodes, uri, t, b, j);
    if s[i].parent.Some? {
      ApartShows(nodes, uri, s, a, s[i].parent.value);
      ApartShows(nodes, uri, t, b, t[j].parent.value);
    }
    assert SameSymbol(s, i, t, j);
  }

  lemma FqnsAreOne(syms: seq<ReconcileSymbol>, a: nat, b: nat)
    requires NoRivals(syms) && a < |syms| && b < |syms| && syms[a].fqn == syms[b].fqn
    ensures a == b
  {
  }

  ghost function Partner(s: seq<ReconcileSymbol>, t: seq<ReconcileSymbol>, i: nat): (j: nat)
    requires i < |s| && SymbolIn(s, i, t)
    ensures j < |t| && SameSymbol(s, i, t, j)
  {
    var j :| 0 <= j < |t| && SameSymbol(s, i, t, j);
    j
  }

  lemma SameListingIsShown(nodes: map<Id, Node>, uri: string, s: seq<ReconcileSymbol>,
                           t: seq<ReconcileSymbol>, b: seq<Id>)
    requires ShowsApart(nodes, uri, t, b) && SameListing(s, t) && NoRivals(s) && NoRivals(t) && ParentsFirst(s)
    ensures FileShows(nodes, uri, s)
  {
    var a := seq(|s|, i requires 0 <= i < |s| && SymbolIn(s, i, t) => b[Partner(s, t, i)]);
    forall i | 0 <= i < |s|
      ensures RowShows(nodes, uri, s, a, i)
    {
      PartnerShows(nodes, uri, s, t, a, b, i);
    }
    forall i, j | 0 <= i < |a| && 0 <= j < |a| && a[i] == a[j]
      ensures i == j
    {
      FqnsAreOne(s, i, j);
    }
    forall id | id in b
      ensures id in a
    {
      var j :| 0 <= j < |b| && b[j] == id;
      assert SymbolIn(t, j, s);
      var i := Partner(t, s, j);
      FqnsAreOne(t, j, Partner(s, t, i));
      assert a[i] == id;
    }
    assert ShowsApart(nodes, uri, s, a);
  }

  lemma PartnerShows(nodes: map<Id, Node>, uri: string, s: seq<ReconcileSymbol>, t: seq<ReconcileSymbol>, a: seq<Id>,
                     b: seq<Id>, i: nat)
    requires ShowsApart(nodes, uri, t, b) && Within(s, t) && NoRivals(t) && ParentsFirst(s) && i < |s| == |a|
    requires forall k :: 0 <= k < |s| ==> SymbolIn(s, k, t) && a[k] == b[Partner(s, t, k)]
    ensures RowShows(nodes, uri, s, a, i)
  {
    var j := Partner(s, t, i);
    ApartShows(nodes, uri, t, b, j);
    if s[i].parent.Some? {
      var q := s[i].parent.value;
      FqnsAreOne(t, Partner(s, t, q), t[j].parent.value);
    }
  }

  /** Exactly: the rows a matching hash leaves alone are those of the recorded list if and only if the list committed
      last is the recorded one, up to order. */
  lemma AcceptedRowsExactly(fp: Fingerprint, dbs: seq<Db>, cs: seq<Command>, plans: seq<Plan>, k: nat, n: nat,
                            pj: Project, uri: string, a: Probe, after: Db, r: DriftAttempt,
                            recorded: seq<ReconcileSymbol>)
    requires Run(fp, dbs, cs, plans) && LastCommit(dbs, cs, plans, uri, k, n)
    requires NoRivals(cs[k].syms) && NoRivals(recorded) && ParentsFirst(recorded)
    requires HashMatches(dbs[n], uri, a) && AttemptOk(pj, uri, a, dbs[n], after, r)
    ensures r == Committed && after == dbs[n]
    ensures FileShows(after.nodes, uri, recorded) <==> SameListing(recorded, cs[k].syms)
  {
    var ids := LastCommitShows(fp, dbs, cs, plans, uri, k, n);
    var nodes, last := dbs[n].nodes, cs[k].syms;
    assert ShowsApart(nodes, uri, last, ids);
    if b :| ShowsApart(nodes, uri, recorded, b) {
      forall i | 0 <= i < |recorded|
        ensures SymbolIn(recorded, i, last)
      {
        ShownSymbolIsShown(nodes, uri, recorded, b, last, ids, i);
      }
      forall i | 0 <= i < |last|
        ensures SymbolIn(last, i, recorded)
      {
        ShownSymbolIsShown(nodes, uri, last, ids, recorded, b, i);
      }
    }
    if SameListing(recorded, last) {
      SameListingIsShown(nodes, uri, recorded, last, ids);
    }
  }

  /** In particular the rows are those of the recorded list, whatever it is, if nothing has touched the
      file since the commit that recorded it. */
  lemma UntouchedRowsAreRecorded(fp: Fingerprint, dbs: seq<Db>, cs: seq<Command>, plans: seq<Plan>, k: nat, n: nat,
                                 pj: Project, uri: string, a: Probe, after: Db, r: DriftAttempt) returns (ids: seq<Id>)
    requires Run(fp, dbs, cs, plans) && LastCommit(dbs, cs, plans, uri, k, n)
    requires HashMatches(dbs[n], uri, a) && AttemptOk(pj, uri, a, dbs[n], after, r)
    ensures r == Committed && after == dbs[n] && RowsShow(after.nodes, uri, cs[k].syms, ids)
  {
    ids := LastCommitShows(fp, dbs, cs, plans, uri, k, n);
  }
}
