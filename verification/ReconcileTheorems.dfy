/** What the documentation promises of one committed reconcile, derived from `Reconciled`, for any list of symbols. */
module ReconcileTheorems {
  import opened Wrappers
  import opened GraphModel
  import opened RenameMatching
  import opened ReconcileModel

  // ----- the committed contents -----

  /** `n` carries symbol `s`, field for field, as a live row of `uri` inside `container`. */
  predicate Mirrors(n: Node, uri: string, s: ReconcileSymbol, container: Option<Id>) {
    && n.uri == uri && n.fqn == s.fqn && n.name == s.name && n.kind == s.kind && n.nodeKind == s.nodeKind
    && n.range == s.range && n.sel == s.sel && n.detail == s.detail && n.signatureHash == Some(s.signatureHash)
    && n.containerId == container && n.valid && !n.orphan
  }

  predicate Distinct(ids: seq<Id>) {
    forall a, b :: 0 <= a < |ids| && 0 <= b < |ids| && ids[a] == ids[b] ==> a == b
  }

  /** The live rows of `uri` are exactly the rows of the symbols, each showing the last symbol put there,
      and each parent link has its `contains` edge. */
  ghost predicate Settled(db: Db, uri: string, syms: seq<ReconcileSymbol>, ids: seq<Id>) {
    && |ids| == |syms| && ParentsFirst(syms)
    && (forall i :: 0 <= i < |ids| && Standing(ids, i) ==> Shows(db, uri, syms, ids, i))
    && (forall id :: id in db.nodes && db.nodes[id].uri == uri && id !in ids ==>
        db.nodes[id].orphan && !db.nodes[id].valid)
    && (forall i :: 0 <= i < |ids| && syms[i].parent.Some? ==> HasValid(db.edges, LinkKey(syms, ids, i)))
  }

  /** Symbol `i` is what its row shows. */
  ghost predicate Shows(db: Db, uri: string, syms: seq<ReconcileSymbol>, ids: seq<Id>, i: nat)
    requires i < |syms| == |ids|
  {
    ids[i] in db.nodes && Mirrors(db.nodes[ids[i]], uri, syms[i], Container(syms, ids, i))
  }

  lemma CommitSettles(p: Plan, db: Db, ids: seq<Id>, db': Db)
    requires Planned(p, db) && IdsBelow(db.nodes, db.nextNode) && Reconciled(p, db, ids, db')
    ensures Settled(db', p.uri, p.syms, ids)
    ensures NoRivals(p.syms) ==> Distinct(ids)
  {
    forall i | 0 <= i < |ids| && Standing(ids, i)
      ensures Shows(db', p.uri, p.syms, ids, i)
    {
      assert RowIs(db'.nodes, ids[i], RowOf(p, ids, i));
    }
    forall id | id in db'.nodes && db'.nodes[id].uri == p.uri && id !in ids
      ensures db'.nodes[id].orphan && !db'.nodes[id].valid
    {
      UnwrittenRowRemains(p, db, ids, db', id);
    }
    forall i | 0 <= i < |ids| && p.syms[i].parent.Some?
      ensures HasValid(db'.edges, LinkKey(p.syms, ids, i))
    {
      assert LinkKey(p.syms, ids, i) in LinkKeys(p.syms, ids, |ids|);
    }
    if NoRivals(p.syms) { NoRivalsNoRepeats(p, db, ids, db'.nextNode); }
  }

  /** A surviving row no symbol was put in: in the file it has just received its first strike, elsewhere it
      lost at most its container. */
  lemma UnwrittenRowRemains(p: Plan, db: Db, ids: seq<Id>, db': Db, id: Id)
    requires Planned(p, db) && Reconciled(p, db, ids, db') && id in db'.nodes && id !in ids
    ensures id in db.nodes && db'.nodes[id].uri == db.nodes[id].uri && db'.nodes[id].fqn == db.nodes[id].fqn
    ensures db.nodes[id].uri == p.uri ==> && !db.nodes[id].orphan && Unclaimed(p, id)
                                          && db'.nodes[id] == Cut(Struck(db.nodes[id]), Gone(p))
    ensures db.nodes[id].uri != p.uri ==> db'.nodes[id] == Cut(db.nodes[id], Gone(p))
  {
    assert db.nodes[id].uri != p.uri ==> RowIs(db'.nodes, id, Cut(db.nodes[id], Gone(p)));
    if db.nodes[id].uri == p.uri {
      var j :| 0 <= j < |p.olds| && p.olds[j].id == id;
      TakenIsTarget(p, db, ids, db'.nextNode, j);
      assert RowIs(db'.nodes, id, Remnant(p, j, true, Gone(p)));
    }
  }

  /** Every symbol's row is there and shows some symbol of the list. */
  lemma WrittenRowShows(p: Plan, db: Db, ids: seq<Id>, db': Db, id: Id) returns (i: nat)
    requires Planned(p, db) && Reconciled(p, db, ids, db') && id in ids
    ensures i < |ids| && ids[i] == id && Standing(ids, i) && RowIs(db'.nodes, id, RowOf(p, ids, i))
    ensures RowOf(p, ids, i).uri == p.uri && RowOf(p, ids, i).fqn == p.syms[i].fqn
    ensures Phys(RowOf(p, ids, i)) == SymKey(p.uri, p.syms[i])
    ensures RowOf(p, ids, i).valid && !RowOf(p, ids, i).orphan
  {
    var a :| 0 <= a < |ids| && ids[a] == id;
    i := LastWriter(ids, a);
    assert RowIs(db'.nodes, ids[i], RowOf(p, ids, i));
    RowOfIsOwn(p, db, ids, i);
  }

  lemma CarriedIsClaimed(p: Plan, db: Db, id: Id, i: nat)
    requires Planned(p, db) && id in db.nodes && i < |p.syms| && db.nodes[id].fqn == p.syms[i].fqn
    ensures !Unclaimed(p, id)
  {
    forall j | 0 <= j < |p.olds| && p.olds[j].id == id
      ensures OldTaken(p.matched, j)
    {
      var first := CarriedRowIsClaimed(p, db, j, i);
    }
  }

  lemma HolderIsWritten(p: Plan, db: Db, ids: seq<Id>, next: Id, h: Id, i: nat)
    requires IdsAssigned(p, db, ids, next) && i < |ids|
    requires h in db.nodes && db.nodes[h].uri != p.uri && db.nodes[h].fqn == p.syms[i].fqn
    ensures h in ids
  {
    assert Holder(p, db, h, i);
  }

  /** A row that shows the fqn of one of the symbols is a symbol's row. */
  lemma CarriedFqnIsWritten(p: Plan, db: Db, ids: seq<Id>, db': Db, id: Id, i: nat)
    requires Planned(p, db) && Reconciled(p, db, ids, db')
    requires id in db'.nodes && i < |p.syms| && db'.nodes[id].fqn == p.syms[i].fqn
    ensures id in ids
  {
    if id !in ids {
      UnwrittenRowRemains(p, db, ids, db', id);
      if db.nodes[id].uri == p.uri {
        CarriedIsClaimed(p, db, id, i);
      } else {
        HolderIsWritten(p, db, ids, db'.nextNode, id, i);
      }
    }
  }

  // ----- rows of other files -----

  predicate Carried(syms: seq<ReconcileSymbol>, fqn: string) {
    exists i :: 0 <= i < |syms| && syms[i].fqn == fqn
  }

  /** A row of another file never goes away. It is taken over, moving to this file, if and only if a symbol
      carries its fqn; otherwise it stays as it is, save a container that is deleted. */
  lemma RowOfOtherFile(p: Plan, db: Db, ids: seq<Id>, db': Db, id: Id)
    requires Planned(p, db) && IdsBelow(db.nodes, db.nextNode) && Reconciled(p, db, ids, db')
    requires id in db.nodes && db.nodes[id].uri != p.uri
    ensures id in db'.nodes
    ensures if Carried(p.syms, db.nodes[id].fqn) then db'.nodes[id].uri == p.uri && id in ids
            else db'.nodes[id] == Cut(db.nodes[id], Gone(p)) && id !in ids
  {
    assert id !in Gone(p);
    if id in ids {
      var i := WrittenRowShows(p, db, ids, db', id);
      var c := TakenOverForItsFqn(p, db, ids, db'.nextNode, i);
    } else {
      assert RowIs(db'.nodes, id, Cut(db.nodes[id], Gone(p)));
      if i :| 0 <= i < |p.syms| && p.syms[i].fqn == db.nodes[id].fqn {
        HolderIsWritten(p, db, ids, db'.nextNode, id, i);
      }
    }
  }

  ghost predicate SameRow(a: map<Id, Node>, b: map<Id, Node>, id: Id) {
    id in a && id in b && a[id] == b[id]
  }

  /** The row's container is an orphan of the file that no symbol claims. */
  ghost predicate LosesContainer(p: Plan, n: Node) {
    n.containerId.Some? && n.containerId.value in Gone(p)
  }

  /** A row of another file is unchanged if and only if no symbol carries its fqn and its container is not deleted. */
  lemma OtherFilesUntouched(p: Plan, db: Db, ids: seq<Id>, db': Db, id: Id)
    requires Planned(p, db) && IdsBelow(db.nodes, db.nextNode) && Reconciled(p, db, ids, db')
    requires id in db.nodes && db.nodes[id].uri != p.uri
    ensures SameRow(db.nodes, db'.nodes, id) <==> !Carried(p.syms, db.nodes[id].fqn) && !LosesContainer(p, db.nodes[id])
  {
    RowOfOtherFile(p, db, ids, db', id);
  }

  /** No row appears in another file. */
  lemma NoStrayRows(p: Plan, db: Db, ids: seq<Id>, db': Db, id: Id)
    requires Planned(p, db) && Reconciled(p, db, ids, db')
    requires id in db'.nodes && db'.nodes[id].uri != p.uri
    ensures id in db.nodes && db.nodes[id].uri == db'.nodes[id].uri && db.nodes[id].fqn == db'.nodes[id].fqn
    ensures db'.nodes[id] == Cut(db.nodes[id], Gone(p))
  {
    if id in ids {
      var i := WrittenRowShows(p, db, ids, db', id);
    } else {
      UnwrittenRowRemains(p, db, ids, db', id);
    }
  }

  /** The rows of `uri` are the same ones, with the same contents. */
  ghost predicate SameFile(db: Db, db': Db, uri: string) {
    forall id :: (id in db.nodes && db.nodes[id].uri == uri) || (id in db'.nodes && db'.nodes[id].uri == uri) ==>
                   SameRow(db.nodes, db'.nodes, id)
  }

  /** Some symbol carries the fqn of a row of `uri`. */
  ghost predicate Intrudes(db: Db, uri: string, syms: seq<ReconcileSymbol>) {
    exists id :: id in db.nodes && db.nodes[id].uri == uri && Carried(syms, db.nodes[id].fqn)
  }

  /** The commit deletes the container of a row of `uri`. */
  ghost predicate Uncontains(p: Plan, db: Db, uri: string) {
    exists id :: id in db.nodes && db.nodes[id].uri == uri && LosesContainer(p, db.nodes[id])
  }

  /** Another file keeps exactly its rows if and only if no symbol carries the fqn of one of them and the container of
      none of them is deleted. */
  lemma OtherFileUntouchedExactly(p: Plan, db: Db, ids: seq<Id>, db': Db, uri: string)
    requires Planned(p, db) && IdsBelow(db.nodes, db.nextNode) && Reconciled(p, db, ids, db') && uri != p.uri
    ensures SameFile(db, db', uri) <==> !Intrudes(db, uri, p.syms) && !Uncontains(p, db, uri)
  {
    forall id | id in db.nodes && db.nodes[id].uri == uri
      ensures SameRow(db.nodes, db'.nodes, id) <==>
                !Carried(p.syms, db.nodes[id].fqn) && !LosesContainer(p, db.nodes[id])
    {
      OtherFilesUntouched(p, db, ids, db', id);
    }
    forall id | id in db'.nodes && db'.nodes[id].uri == uri
      ensures id in db.nodes && db.nodes[id].uri == uri
    {
      NoStrayRows(p, db, ids, db', id);
    }
  }

  // ----- what survives -----

  /** A claimed or revived row keeps its id, and everything the indexer does not own unless a competing
      symbol is put there later. */
  lemma ClaimedRowKeepsIdentity(p: Plan, db: Db, ids: seq<Id>, db': Db, i: nat, j: nat)
    requires Planned(p, db) && Reconciled(p, db, ids, db')
    requires i < |p.syms| && p.matched[i] == Some(j)
    ensures ids[i] == p.olds[j].id && ids[i] in db.nodes && ids[i] in db'.nodes && db'.nodes[ids[i]].uri == p.uri
    ensures var before, after := db.nodes[ids[i]], db'.nodes[ids[i]];
            Standing(ids, i) ==>
              && after.language == before.language && after.construct == before.construct
              && after.signature == before.signature && after.documentation == before.documentation
              && after.generation == before.generation && after.isExternal == before.isExternal
  {
    assert Matched(p, i) && Placed(p, db, ids, i, db'.nextNode);
    var m := WrittenRowShows(p, db, ids, db', ids[i]);
    if Standing(ids, i) { assert RowIs(db'.nodes, ids[i], RowOf(p, ids, i)); }
  }

  /** Edge rows survive with their rows; they lose validity only when an end was renamed or updated. */
  lemma EdgesOfSurvivorsStay(p: Plan, db: Db, ids: seq<Id>, db': Db, e: Id)
    requires Planned(p, db) && EdgesAnchored(db.nodes, db.edges) && Reconciled(p, db, ids, db')
    requires e in db.edges && db.edges[e].src in db'.nodes && db.edges[e].dst in db'.nodes
    ensures e in db'.edges && db'.edges[e].(valid := true) == db.edges[e].(valid := true)
    ensures db.edges[e].edgeType != Contains ==>
              (db'.edges[e].valid <==>
               db.edges[e].valid && db.edges[e].src !in Dirty(p) && db.edges[e].dst !in Dirty(p))
  {
    var base := Pruned(Invalidated(db.edges, Dirty(p)), Gone(p));
    assert e in base;
    assert db'.edges[e] == Revived(base[e], LinkKeys(p.syms, ids, |ids|));
  }

  // ----- the counts balance -----

  lemma {:induction false} FatesPartition(p: Plan, k: nat)
    requires k <= |p.syms| == |p.matched|
    ensures k == CountFate(p, Unchanged, k) + CountFate(p, Updated, k)
                 + CountFate(p, Renamed, k) + CountFate(p, Inserted, k)
  {
    if k > 0 { FatesPartition(p, k - 1); }
  }

  lemma {:induction false} OldFatesPartition(p: Plan, k: nat)
    requires k <= |p.olds|
    ensures CountOldFate(p, Claimed, k) + CountOldFate(p, Orphaned, k) + CountOldFate(p, Deleted, k) == k
  {
    if k > 0 { OldFatesPartition(p, k - 1); }
  }

  ghost function ClaimedSet(p: Plan, k: nat): set<nat>
    requires k <= |p.olds|
  {
    set j: nat | j < k && OldTaken(p.matched, j)
  }

  ghost function MatchedRows(p: Plan, k: nat): set<nat>
    requires k <= |p.syms| == |p.matched|
  {
    set i | 0 <= i < k && Matched(p, i) :: p.matched[i].value
  }

  lemma {:induction false} ClaimedCount(p: Plan, k: nat)
    requires k <= |p.olds|
    ensures |ClaimedSet(p, k)| == CountOldFate(p, Claimed, k)
  {
    if k == 0 {
      assert ClaimedSet(p, 0) == {};
    } else {
      ClaimedCount(p, k - 1);
      assert ClaimedSet(p, k) == ClaimedSet(p, k - 1) + (if OldTaken(p.matched, k - 1) then {k - 1} else {});
    }
  }

  lemma {:induction false} MatchedCount(p: Plan, k: nat)
    requires k <= |p.syms| == |p.matched| && Injective(p.matched)
    ensures |MatchedRows(p, k)| == k - CountFate(p, Inserted, k)
  {
    if k == 0 {
      assert MatchedRows(p, 0) == {};
    } else {
      MatchedCount(p, k - 1);
      if Matched(p, k - 1) {
        var j := p.matched[k - 1].value;
        assert MatchedRows(p, k) == MatchedRows(p, k - 1) + {j};
        assert Pairs(p.matched, k - 1, j);
        assert forall i :: 0 <= i < k - 1 && Matched(p, i) ==> Pairs(p.matched, i, p.matched[i].value);
        assert j !in MatchedRows(p, k - 1);
      } else {
        assert MatchedRows(p, k) == MatchedRows(p, k - 1);
      }
    }
  }

  /** Every symbol and every stored row is counted exactly once. */
  lemma CountsBalance(p: Plan, db: Db)
    requires Planned(p, db)
    ensures var o := OutcomeOf(p); o.kept + o.updated + o.renamed + o.inserted == |p.syms|
    ensures var o := OutcomeOf(p); o.kept + o.updated + o.renamed + o.orphaned + o.deleted == |p.olds|
  {
    FatesPartition(p, |p.syms|);
    OldFatesPartition(p, |p.olds|);
    ClaimedCount(p, |p.olds|);
    MatchedCount(p, |p.syms|);
    forall j: nat
      ensures j in ClaimedSet(p, |p.olds|) <==> j in MatchedRows(p, |p.syms|)
    {
      if OldTaken(p.matched, j) {
        var i :| Pairs(p.matched, i, j);
        assert Matched(p, i) && p.matched[i].value == j;
      }
      if j in MatchedRows(p, |p.syms|) {
        var i :| 0 <= i < |p.syms| && Matched(p, i) && p.matched[i].value == j;
        assert Pairs(p.matched, i, j);
      }
    }
    assert ClaimedSet(p, |p.olds|) == MatchedRows(p, |p.syms|);
  }

  // ----- what every commit keeps -----

  /** Real lines only, no parking line survives, and `valid` is the opposite of `orphan`. */
  lemma CommitKeepsSane(p: Plan, db: Db, ids: seq<Id>, db': Db)
    requires Planned(p, db) && Reconciled(p, db, ids, db') && LinesReal(p.syms) && AllSane(db.nodes)
    ensures AllSane(db'.nodes)
  {
    forall id | id in db'.nodes
      ensures Sane(db'.nodes[id])
    {
      if id in ids {
        var i := WrittenRowShows(p, db, ids, db', id);
      } else {
        UnwrittenRowRemains(p, db, ids, db', id);
      }
    }
  }

  lemma CommitKeepsRealLines(p: Plan, db: Db, ids: seq<Id>, db': Db)
    requires Planned(p, db) && Reconciled(p, db, ids, db') && LinesReal(p.syms) && RealLines(db.nodes)
    ensures RealLines(db'.nodes)
  {
    forall id | id in db'.nodes
      ensures db'.nodes[id].range.startLine >= 0
    {
      if id in ids {
        var i := WrittenRowShows(p, db, ids, db', id);
      } else {
        UnwrittenRowRemains(p, db, ids, db', id);
      }
    }
  }

  ghost predicate AllAtHome(nodes: map<Id, Node>) {
    forall id :: id in nodes ==> AtHome(nodes, id)
  }

  /** Containers stay inside their files as long as no symbol carries an fqn of another file. */
  lemma CommitKeepsHomes(p: Plan, db: Db, ids: seq<Id>, db': Db)
    requires Planned(p, db) && IdsBelow(db.nodes, db.nextNode) && Reconciled(p, db, ids, db')
    requires AllAtHome(db.nodes) && ContainersExist(db'.nodes)
    requires forall i, h :: 0 <= i < |p.syms| ==> !Holder(p, db, h, i)
    ensures AllAtHome(db'.nodes)
  {
    forall id | id in db'.nodes && db'.nodes[id].containerId.Some?
      ensures AtHome(db'.nodes, id)
    {
      var c := db'.nodes[id].containerId.value;
      if id in ids {
        WrittenRowAtHome(p, db, ids, db', id);
      } else if db'.nodes[id].uri == p.uri {
        UnwrittenRowRemains(p, db, ids, db', id);
        assert AtHome(db.nodes, id);
        if db'.nodes[c].uri != p.uri { NoStrayRows(p, db, ids, db', c); }
      } else {
        NoStrayRows(p, db, ids, db', id);
        assert AtHome(db.nodes, id);
        RowOfOtherFile(p, db, ids, db', c);
        if i :| 0 <= i < |p.syms| && p.syms[i].fqn == db.nodes[c].fqn { assert Holder(p, db, c, i); }
      }
    }
  }

  lemma WrittenRowAtHome(p: Plan, db: Db, ids: seq<Id>, db': Db, id: Id)
    requires Planned(p, db) && Reconciled(p, db, ids, db') && id in ids
    ensures id in db'.nodes && AtHome(db'.nodes, id)
  {
    var i := WrittenRowShows(p, db, ids, db', id);
    if p.syms[i].parent.Some? {
      var m := WrittenRowShows(p, db, ids, db', ids[p.syms[i].parent.value]);
    }
  }
}
