/** What a reconcile of one file does to the database, pass by pass, and the
    proofs that each pass moves the state from one stage to the next. */
module ReconcileModel {
  import opened Wrappers
  import opened GraphModel
  import opened RenameMatching

  /** Everything that is fixed once passes 1 and 2 are done. */
  datatype Plan = Plan(uri: string, language: string, isExternal: bool,
                       olds: seq<OldRow>, syms: seq<ReconcileSymbol>, matched: Assignment)

  datatype Outcome = Outcome(kept: nat, updated: nat, renamed: nat, inserted: nat, orphaned: nat, deleted: nat)

  // ----- hypotheses -----

  /** `olds` lists every stored row of `uri` once, in whatever order the query returned them. */
  ghost predicate Enumerates(olds: seq<OldRow>, nodes: map<Id, Node>, uri: string) {
    && (forall j :: 0 <= j < |olds| ==>
        olds[j].id in nodes && nodes[olds[j].id] == olds[j].node && olds[j].node.uri == uri)
    && (forall a, b :: 0 <= a < |olds| && 0 <= b < |olds| && olds[a].id == olds[b].id ==> a == b)
    && (forall id :: id in nodes && nodes[id].uri == uri ==> exists j :: 0 <= j < |olds| && olds[j].id == id)
  }

  function SymKey(uri: string, s: ReconcileSymbol): PhysKey {
    PhysKey(uri, s.range.startLine, s.range.startCol, s.name)
  }

  ghost predicate ParentsFirst(syms: seq<ReconcileSymbol>) {
    forall i :: 0 <= i < |syms| && syms[i].parent.Some? ==> syms[i].parent.value < i
  }

  predicate LinesReal(syms: seq<ReconcileSymbol>) {
    forall i :: 0 <= i < |syms| ==> syms[i].range.startLine >= 0
  }

  /** The two symbols compete for one row: same fqn, or same physical key. */
  predicate Alike(s: ReconcileSymbol, t: ReconcileSymbol) {
    s.fqn == t.fqn || SymKey("", s) == SymKey("", t)
  }

  /** No two symbols compete. The indexer does hand over lists with competing symbols: overloads
      share an fqn, and a symbol at the top of a file may share the module root's key. */
  predicate NoRivals(syms: seq<ReconcileSymbol>) {
    forall a, b :: 0 <= a < b < |syms| ==> !Alike(syms[a], syms[b])
  }

  ghost predicate WellFormedBatch(syms: seq<ReconcileSymbol>) {
    LinesReal(syms) && ParentsFirst(syms) && NoRivals(syms)
  }

  ghost predicate Admissible(db: Db, syms: seq<ReconcileSymbol>) {
    Integrity(db) && RealLines(db.nodes) && WellFormedBatch(syms)
  }

  /** The assignment is well-shaped: the part of stability that passes 3 to 5 rely on. */
  ghost predicate Planned(p: Plan, db: Db) {
    && Enumerates(p.olds, db.nodes, p.uri)
    && |p.matched| == |p.syms|
    && Injective(p.matched)
    && (forall i :: 0 <= i < |p.syms| && p.matched[i].Some? ==> p.matched[i].value < |p.olds|)
    && (forall i, j :: Exact(p.olds, p.syms, i, j) ==> p.matched[i] == Some(j))
  }

  /** A row whose fqn some symbol carries is claimed by the first symbol that does. */
  lemma CarriedRowIsClaimed(p: Plan, db: Db, j: nat, i: nat) returns (first: nat)
    requires Planned(p, db) && j < |p.olds| && i < |p.syms| && p.olds[j].node.fqn == p.syms[i].fqn
    ensures first <= i && p.syms[first].fqn == p.syms[i].fqn && p.matched[first] == Some(j)
    ensures OldTaken(p.matched, j)
  {
    first := FirstWithFqn(p.syms, i);
    assert Exact(p.olds, p.syms, first, j);
    assert Pairs(p.matched, first, j);
  }

  lemma StableIsPlanned(fp: Fingerprint, p: Plan, db: Db)
    requires Enumerates(p.olds, db.nodes, p.uri)
    requires StableMatching(fp, p.olds, p.syms, p.matched)
    ensures Planned(p, db)
  {
    forall i | 0 <= i < |p.syms| && p.matched[i].Some?
      ensures p.matched[i].value < |p.olds|
    {
      assert Pairs(p.matched, i, p.matched[i].value);
      StableMatchingMeaning(fp, p.olds, p.syms, p.matched, i, p.matched[i].value);
    }
    forall i, j | Exact(p.olds, p.syms, i, j)
      ensures p.matched[i] == Some(j)
    {
      StableMatchingMeaning(fp, p.olds, p.syms, p.matched, i, j);
    }
  }

  predicate Matched(p: Plan, i: nat)
    requires i < |p.matched|
  {
    p.matched[i].Some? && p.matched[i].value < |p.olds|
  }

  /** A row losing its first strike would be put back on a line, column and name that an
      incoming symbol now holds. */
  ghost predicate CollidesAt(p: Plan, j: nat, i: nat)
    requires j < |p.olds| && i < |p.syms|
  {
    && !OldTaken(p.matched, j) && !p.olds[j].node.orphan
    && Phys(p.olds[j].node) == SymKey(p.uri, p.syms[i])
  }

  ghost predicate Collision(p: Plan) {
    exists j, i :: 0 <= j < |p.olds| && 0 <= i < |p.syms| && CollidesAt(p, j, i)
  }

  /** A row of another file carries symbol `i`'s fqn. */
  ghost predicate Holder(p: Plan, db: Db, h: Id, i: nat)
    requires i < |p.syms|
  {
    h in db.nodes && db.nodes[h].uri != p.uri && db.nodes[h].fqn == p.syms[i].fqn
  }

  /** A renamed row would get an fqn that a row of another file carries. */
  ghost predicate NameTaken(p: Plan, db: Db)
    requires |p.matched| == |p.syms|
  {
    exists i, h :: 0 <= i < |p.syms| && Matched(p, i) && Holder(p, db, h, i)
  }

  ghost predicate RowIs(nodes: map<Id, Node>, id: Id, row: Node) {
    id in nodes && nodes[id] == row
  }

  // ----- pass 3 -----

  function Container(syms: seq<ReconcileSymbol>, ids: seq<Id>, i: nat): Option<Id>
    requires i < |syms|
  {
    match syms[i].parent
    case None => None
    case Some(q) => if q < |ids| then Some(ids[q]) else None
  }

  /** The row symbol `i` ends up in. */
  function RowOf(p: Plan, ids: seq<Id>, i: nat): Node
    requires i < |p.syms| == |p.matched|
  {
    if Matched(p, i) then UpdatedRow(p.olds[p.matched[i].value].node, p.syms[i], Container(p.syms, ids, i))
    else FreshRow(p.uri, p.language, p.isExternal, p.syms[i], Container(p.syms, ids, i))
  }

  function Parked(n: Node, id: Id): Node {
    WithLine(n, -id)
  }

  datatype Fate = Unchanged | Updated | Renamed | Inserted

  function FateOf(p: Plan, i: nat): Fate
    requires i < |p.syms| == |p.matched|
  {
    if !Matched(p, i) then Inserted
    else
      var prior := p.olds[p.matched[i].value].node;
      if prior.fqn != p.syms[i].fqn then Renamed
      else if prior.signatureHash != Some(p.syms[i].signatureHash) then Updated
      else Unchanged
  }

  function CountFate(p: Plan, f: Fate, k: nat): nat
    requires k <= |p.syms| == |p.matched|
  {
    if k == 0 then 0 else CountFate(p, f, k - 1) + (if FateOf(p, k - 1) == f then 1 else 0)
  }

  /** Old rows whose edges are invalidated by the first `k` symbols. */
  ghost function DirtyIds(p: Plan, k: nat): set<Id>
    requires k <= |p.syms| == |p.matched|
  {
    set i | 0 <= i < k && Matched(p, i) && FateOf(p, i) in {Renamed, Updated} :: p.olds[p.matched[i].value].id
  }

  function Invalidated(edges: map<Id, Edge>, ids: set<Id>): map<Id, Edge> {
    map e | e in edges :: edges[e].(valid := edges[e].valid && edges[e].src !in ids && edges[e].dst !in ids)
  }

  // ----- which row a symbol is written to -----

  /** Symbol `a` is the last of the first `n` symbols written to its row. */
  predicate StandingAt(ids: seq<Id>, a: nat, n: nat)
    requires a < n <= |ids|
  {
    forall m :: a < m < n ==> ids[m] != ids[a]
  }

  predicate Standing(ids: seq<Id>, a: nat)
    requires a < |ids|
  {
    StandingAt(ids, a, |ids|)
  }

  predicate Repeats(ids: seq<Id>, i: nat)
    requires i < |ids|
  {
    exists a :: 0 <= a < i && ids[a] == ids[i]
  }

  /** Symbol `i` takes over the row of a competing symbol that stood there until then. */
  ghost predicate Shares(p: Plan, ids: seq<Id>, i: nat)
    requires i < |ids| <= |p.syms|
  {
    exists a :: 0 <= a < i && ids[a] == ids[i] && StandingAt(ids, a, i) && Alike(p.syms[a], p.syms[i])
  }

  /** A matched symbol keeps its row's id; any other takes over a competing symbol's row, or the row
      of another file that carries its fqn, or gets a new id. */
  ghost predicate Placed(p: Plan, db: Db, ids: seq<Id>, i: nat, next: Id)
    requires i < |ids| <= |p.syms| == |p.matched|
  {
    if Repeats(ids, i) then !Matched(p, i) && Shares(p, ids, i)
    else if Matched(p, i) then ids[i] == p.olds[p.matched[i].value].id
    else Holder(p, db, ids[i], i) || db.nextNode <= ids[i] < next
  }

  ghost predicate IdsAssigned(p: Plan, db: Db, ids: seq<Id>, next: Id) {
    && |ids| <= |p.syms| == |p.matched|
    && db.nextNode <= next
    && (forall i :: 0 <= i < |ids| ==> Placed(p, db, ids, i, next))
    && (forall i, h :: 0 <= i < |ids| && Holder(p, db, h, i) ==> h in ids)
  }

  lemma {:induction false} LastWriter(ids: seq<Id>, i: nat) returns (m: nat)
    requires i < |ids|
    ensures i <= m < |ids| && ids[m] == ids[i] && Standing(ids, m)
    decreases |ids| - i
  {
    m := i;
    if k :| i < k < |ids| && ids[k] == ids[i] {
      m := LastWriter(ids, k);
    }
  }

  /** A row of the file is written to only once a symbol that claims it has been. */
  lemma {:induction false} OwnRowIsClaimed(p: Plan, db: Db, ids: seq<Id>, next: Id, i: nat) returns (m: nat)
    requires IdsAssigned(p, db, ids, next) && IdsBelow(db.nodes, db.nextNode)
    requires i < |ids| && ids[i] in db.nodes && db.nodes[ids[i]].uri == p.uri
    ensures m <= i && Matched(p, m) && ids[m] == ids[i] == p.olds[p.matched[m].value].id
  {
    assert Placed(p, db, ids, i, next);
    if Repeats(ids, i) {
      var a :| 0 <= a < i && ids[a] == ids[i];
      m := OwnRowIsClaimed(p, db, ids, next, a);
    } else {
      m := i;
    }
  }

  /** A row of another file is written to only once a symbol with its fqn has been. */
  lemma {:induction false} TakenOverForItsFqn(p: Plan, db: Db, ids: seq<Id>, next: Id, i: nat) returns (c: nat)
    requires Enumerates(p.olds, db.nodes, p.uri) && IdsAssigned(p, db, ids, next) && IdsBelow(db.nodes, db.nextNode)
    requires i < |ids| && ids[i] in db.nodes && db.nodes[ids[i]].uri != p.uri
    ensures c <= i && p.syms[c].fqn == db.nodes[ids[i]].fqn
  {
    assert Placed(p, db, ids, i, next);
    if Repeats(ids, i) {
      var a :| 0 <= a < i && ids[a] == ids[i];
      c := TakenOverForItsFqn(p, db, ids, next, a);
    } else {
      c := i;
    }
  }

  /** Where a matched symbol goes has not been written to. */
  lemma TargetIsNew(p: Plan, db: Db, ids: seq<Id>, next: Id)
    requires Planned(p, db) && IdsBelow(db.nodes, db.nextNode)
    requires IdsAssigned(p, db, ids, next) && |ids| < |p.syms| && Matched(p, |ids|)
    ensures p.olds[p.matched[|ids|].value].id !in ids
  {
    var k := |ids|;
    var j := p.matched[k].value;
    forall i | 0 <= i < |ids|
      ensures ids[i] != p.olds[j].id
    {
      if ids[i] == p.olds[j].id {
        var m := OwnRowIsClaimed(p, db, ids, next, i);
        assert Pairs(p.matched, m, p.matched[m].value) && Pairs(p.matched, k, j);
      }
    }
  }

  /** Without competing symbols no row is written to twice. */
  lemma NoRivalsNoRepeats(p: Plan, db: Db, ids: seq<Id>, next: Id)
    requires IdsAssigned(p, db, ids, next) && NoRivals(p.syms)
    ensures forall a, b :: 0 <= a < b < |ids| ==> ids[a] != ids[b]
    ensures forall a :: 0 <= a < |ids| ==> Standing(ids, a)
  {
    forall a, b | 0 <= a < b < |ids|
      ensures ids[a] != ids[b]
    {
      assert Placed(p, db, ids, b, next);
    }
  }

  // ----- the node table in pass 3 -----

  /** Node table after `|ids|` symbols have been written: each row written to holds its last symbol. */
  ghost predicate Applied(p: Plan, db: Db, ids: seq<Id>, nodes: map<Id, Node>, next: Id) {
    && IdsAssigned(p, db, ids, next) && ParentsFirst(p.syms[..|ids|])
    && (forall id :: id in nodes <==> id in db.nodes || id in ids)
    && (forall i :: 0 <= i < |ids| && Standing(ids, i) ==> RowIs(nodes, ids[i], RowOf(p, ids, i)))
    && (forall id :: id in db.nodes && id !in ids ==>
                       RowIs(nodes, id, if db.nodes[id].uri == p.uri then Parked(db.nodes[id], id) else db.nodes[id]))
  }

  /** One more symbol, written to `t`. */
  lemma ApplyStep(p: Plan, db: Db, ids: seq<Id>, nodes: map<Id, Node>, next: Id, next': Id, t: Id)
    requires Applied(p, db, ids, nodes, next) && |ids| < |p.syms| && next <= next'
    requires ParentsFirst(p.syms[..|ids| + 1])
    requires Placed(p, db, ids + [t], |ids|, next')
    requires forall h :: Holder(p, db, h, |ids|) ==> h in ids + [t]
    ensures Applied(p, db, ids + [t], nodes[t := RowOf(p, ids, |ids|)], next')
  {
    var ids', nodes' := ids + [t], nodes[t := RowOf(p, ids, |ids|)];
    AppendId(p, db, ids, next, next', t);
    forall i | 0 <= i < |ids'| && Standing(ids', i)
      ensures RowIs(nodes', ids'[i], RowOf(p, ids', i))
    {
      assert p.syms[..|ids| + 1][i] == p.syms[i];
      assert Container(p.syms, ids', i) == Container(p.syms, ids, i);
      if i < |ids| {
        assert ids'[|ids|] != ids'[i];
        assert forall m :: i < m < |ids| ==> ids'[m] == ids[m];
        assert Standing(ids, i);
      }
    }
    forall id | id in db.nodes && id !in ids'
      ensures RowIs(nodes', id, if db.nodes[id].uri == p.uri then Parked(db.nodes[id], id) else db.nodes[id])
    {
      assert RowIs(nodes, id, if db.nodes[id].uri == p.uri then Parked(db.nodes[id], id) else db.nodes[id]);
    }
  }

  lemma AppendId(p: Plan, db: Db, ids: seq<Id>, next: Id, next': Id, t: Id)
    requires IdsAssigned(p, db, ids, next) && |ids| < |p.syms| && next <= next'
    requires Placed(p, db, ids + [t], |ids|, next')
    requires forall h :: Holder(p, db, h, |ids|) ==> h in ids + [t]
    ensures IdsAssigned(p, db, ids + [t], next')
  {
    var ids' := ids + [t];
    forall i | 0 <= i < |ids'|
      ensures Placed(p, db, ids', i, next')
    {
      if i < |ids| {
        assert Placed(p, db, ids, i, next);
        PlacedStays(p, db, ids, next, next', t, i);
      }
    }
  }

  lemma PlacedStays(p: Plan, db: Db, ids: seq<Id>, next: Id, next': Id, t: Id, i: nat)
    requires i < |ids| < |p.syms| == |p.matched| && next <= next' && Placed(p, db, ids, i, next)
    ensures Placed(p, db, ids + [t], i, next')
  {
    var ids' := ids + [t];
    assert forall m :: 0 <= m <= i ==> ids'[m] == ids[m];
    assert Repeats(ids', i) <==> Repeats(ids, i);
    if Repeats(ids, i) {
      var a :| 0 <= a < i && ids[a] == ids[i] && StandingAt(ids, a, i) && Alike(p.syms[a], p.syms[i]);
      assert StandingAt(ids', a, i);
    }
  }

  lemma DirtyStep(p: Plan, k: nat)
    requires k < |p.syms| == |p.matched|
    ensures DirtyIds(p, k + 1) ==
            DirtyIds(p, k) + (if FateOf(p, k) in {Renamed, Updated} then {p.olds[p.matched[k].value].id} else {})
  {
    if FateOf(p, k) in {Renamed, Updated} { assert Matched(p, k); }
  }

  lemma InvalidatedTwice(edges: map<Id, Edge>, a: set<Id>, b: set<Id>)
    ensures Invalidated(Invalidated(edges, a), b) == Invalidated(edges, a + b)
  {
  }

  // ----- pass 4 -----

  ghost function DeletedIds(p: Plan, k: nat): set<Id>
    requires k <= |p.olds|
  {
    set j | 0 <= j < k && !OldTaken(p.matched, j) && p.olds[j].node.orphan :: p.olds[j].id
  }

  function Cut(n: Node, gone: set<Id>): Node {
    if n.containerId.Some? && n.containerId.value in gone then n.(containerId := None) else n
  }

  function Struck(n: Node): Node {
    n.(valid := false, orphan := true)
  }

  function Pruned(edges: map<Id, Edge>, gone: set<Id>): map<Id, Edge> {
    map e | e in edges && edges[e].src !in gone && edges[e].dst !in gone :: edges[e]
  }

  datatype OldFate = Claimed | Orphaned | Deleted

  ghost function OldFateOf(p: Plan, j: nat): OldFate
    requires j < |p.olds|
  {
    if OldTaken(p.matched, j) then Claimed else if p.olds[j].node.orphan then Deleted else Orphaned
  }

  /** A row of the file that no symbol claimed. */
  ghost predicate Unclaimed(p: Plan, id: Id) {
    exists j :: 0 <= j < |p.olds| && p.olds[j].id == id && !OldTaken(p.matched, j)
  }

  ghost function CountOldFate(p: Plan, f: OldFate, k: nat): nat
    requires k <= |p.olds|
  {
    if k == 0 then 0 else CountOldFate(p, f, k - 1) + (if OldFateOf(p, k - 1) == f then 1 else 0)
  }

  /** What pass 4 leaves of an unclaimed row it has (or has not yet) looked at. */
  function Remnant(p: Plan, j: nat, done: bool, gone: set<Id>): Node
    requires j < |p.olds|
  {
    Cut(if done then Struck(p.olds[j].node) else Parked(p.olds[j].node, p.olds[j].id), gone)
  }

  /** Node table once pass 4 has looked at the first `k` old rows. */
  ghost predicate Swept(p: Plan, db: Db, ids: seq<Id>, next: Id, k: nat, gone: set<Id>, nodes: map<Id, Node>)
    requires k <= |p.olds|
  {
    && |ids| == |p.syms|
    && IdsAssigned(p, db, ids, next)
    && (forall id :: id in nodes <==> (id in db.nodes || id in ids) && id !in gone)
    && (forall i :: 0 <= i < |ids| && Standing(ids, i) ==> RowIs(nodes, ids[i], RowOf(p, ids, i)))
    && (forall j :: 0 <= j < |p.olds| && !OldTaken(p.matched, j) && p.olds[j].id !in gone ==>
                      RowIs(nodes, p.olds[j].id, Remnant(p, j, j < k, gone)))
    && (forall id :: id in db.nodes && db.nodes[id].uri != p.uri && id !in ids ==>
                       RowIs(nodes, id, Cut(db.nodes[id], gone)))
    && (forall id :: id in gone ==> id in db.nodes && db.nodes[id].uri == p.uri)
  }

  /** An unclaimed row is no symbol's row. */
  lemma UnclaimedIsNoTarget(p: Plan, db: Db, ids: seq<Id>, next: Id, j: nat)
    requires Planned(p, db) && IdsBelow(db.nodes, db.nextNode) && IdsAssigned(p, db, ids, next)
    requires j < |p.olds| && !OldTaken(p.matched, j)
    ensures p.olds[j].id !in ids
  {
    forall i | 0 <= i < |ids|
      ensures ids[i] != p.olds[j].id
    {
      if ids[i] == p.olds[j].id {
        var m := OwnRowIsClaimed(p, db, ids, next, i);
        assert Pairs(p.matched, m, p.matched[m].value);
      }
    }
  }

  lemma SweepStarts(p: Plan, db: Db, ids: seq<Id>, nodes: map<Id, Node>, next: Id)
    requires Planned(p, db) && IdsBelow(db.nodes, db.nextNode)
    requires Applied(p, db, ids, nodes, next) && |ids| == |p.syms|
    ensures Swept(p, db, ids, next, 0, {}, nodes)
  {
    forall j | 0 <= j < |p.olds| && !OldTaken(p.matched, j)
      ensures RowIs(nodes, p.olds[j].id, Remnant(p, j, false, {}))
    {
      UnclaimedIsNoTarget(p, db, ids, next, j);
      assert RowIs(nodes, p.olds[j].id, Parked(db.nodes[p.olds[j].id], p.olds[j].id));
    }
    forall id | id in db.nodes && db.nodes[id].uri != p.uri && id !in ids
      ensures RowIs(nodes, id, Cut(db.nodes[id], {}))
    {
      assert RowIs(nodes, id, db.nodes[id]);
    }
  }

  lemma SweepSkips(p: Plan, db: Db, ids: seq<Id>, next: Id, k: nat, gone: set<Id>, nodes: map<Id, Node>)
    requires k < |p.olds| && OldTaken(p.matched, k)
    requires Swept(p, db, ids, next, k, gone, nodes)
    ensures Swept(p, db, ids, next, k + 1, gone, nodes)
  {
  }

  /** First strike: the row goes back to its own line, invalid and orphaned. */
  lemma SweepStrikes(p: Plan, db: Db, ids: seq<Id>, next: Id, k: nat, gone: set<Id>, nodes: map<Id, Node>)
    requires Planned(p, db) && IdsBelow(db.nodes, db.nextNode)
    requires k < |p.olds| && !OldTaken(p.matched, k) && p.olds[k].id !in gone
    requires Swept(p, db, ids, next, k, gone, nodes)
    ensures p.olds[k].id in nodes
    ensures var t := p.olds[k].id;
            Swept(p, db, ids, next, k + 1, gone, nodes[t := Struck(WithLine(nodes[t], p.olds[k].node.range.startLine))])
  {
    UnclaimedIsNoTarget(p, db, ids, next, k);
    var t := p.olds[k].id;
    assert RowIs(nodes, t, Remnant(p, k, false, gone));
    assert Struck(WithLine(nodes[t], p.olds[k].node.range.startLine)) == Remnant(p, k, true, gone);
    var nodes' := nodes[t := Remnant(p, k, true, gone)];
    forall i | 0 <= i < |ids| && Standing(ids, i)
      ensures RowIs(nodes', ids[i], RowOf(p, ids, i))
    {
      assert RowIs(nodes, ids[i], RowOf(p, ids, i)) && ids[i] in ids;
    }
    forall j | 0 <= j < |p.olds| && !OldTaken(p.matched, j) && p.olds[j].id !in gone
      ensures RowIs(nodes', p.olds[j].id, Remnant(p, j, j < k + 1, gone))
    {
      assert RowIs(nodes, p.olds[j].id, Remnant(p, j, j < k, gone));
    }
  }

  /** ... and that write is accepted exactly when no symbol stands there. */
  lemma StrikeFits(p: Plan, db: Db, ids: seq<Id>, next: Id, k: nat, gone: set<Id>, nodes: map<Id, Node>)
    requires Planned(p, db) && Integrity(db) && RealLines(db.nodes)
    requires k < |p.olds| && !OldTaken(p.matched, k) && !p.olds[k].node.orphan && p.olds[k].id !in gone
    requires Swept(p, db, ids, next, k, gone, nodes)
    ensures p.olds[k].id in nodes
    ensures Fits(nodes, p.olds[k].id, Remnant(p, k, true, gone)) <==>
            forall i :: 0 <= i < |p.syms| && Standing(ids, i) ==> !CollidesAt(p, k, i)
  {
    var t, row := p.olds[k].id, Remnant(p, k, true, gone);
    assert row.fqn == p.olds[k].node.fqn && Phys(row) == Phys(p.olds[k].node);
    UnclaimedIsNoTarget(p, db, ids, next, k);
    assert RowIs(nodes, t, Remnant(p, k, false, gone));
    if Fits(nodes, t, row) {
      forall i | 0 <= i < |p.syms| && Standing(ids, i)
        ensures !CollidesAt(p, k, i)
      {
        assert RowIs(nodes, ids[i], RowOf(p, ids, i)) && ids[i] in ids;
        RowOfIsOwn(p, db, ids, i);
      }
    } else {
      var id :| id in nodes && id != t && (nodes[id].fqn == row.fqn || Phys(nodes[id]) == Phys(row));
      assert id in ids by {
        if id !in ids { StandingRowsDiffer(p, db, ids, next, k, gone, nodes, id); }
      }
      var first :| 0 <= first < |ids| && ids[first] == id;
      var i := LastWriter(ids, first);
      assert RowIs(nodes, ids[i], RowOf(p, ids, i));
      RowOfIsOwn(p, db, ids, i);
      if p.syms[i].fqn == p.olds[k].node.fqn {
        var c := CarriedRowIsClaimed(p, db, k, i);
      }
      assert CollidesAt(p, k, i);
    }
  }

  lemma RowOfIsOwn(p: Plan, db: Db, ids: seq<Id>, i: nat)
    requires Planned(p, db) && i < |p.syms|
    ensures var row := RowOf(p, ids, i);
            && row.uri == p.uri && row.fqn == p.syms[i].fqn && Phys(row) == SymKey(p.uri, p.syms[i])
            && row.valid && !row.orphan
  {
  }

  /** The rows pass 4 goes over keep the keys they had in the database. */
  lemma StandingRowsDiffer(p: Plan, db: Db, ids: seq<Id>, next: Id, k: nat, gone: set<Id>, nodes: map<Id, Node>, id: Id)
    requires Planned(p, db) && UniqueNodes(db.nodes) && RealLines(db.nodes) && IdsBelow(db.nodes, db.nextNode)
    requires k < |p.olds| && Swept(p, db, ids, next, k, gone, nodes)
    requires id in nodes && id !in ids && id != p.olds[k].id
    ensures nodes[id].fqn != p.olds[k].node.fqn && Phys(nodes[id]) != Phys(p.olds[k].node)
  {
    var t := p.olds[k].id;
    assert Fits(db.nodes, t, db.nodes[t]);
    if db.nodes[id].uri != p.uri {
      assert RowIs(nodes, id, Cut(db.nodes[id], gone));
    } else {
      var j :| 0 <= j < |p.olds| && p.olds[j].id == id;
      TakenIsTarget(p, db, ids, next, j);
      assert RowIs(nodes, id, Remnant(p, j, j < k, gone));
    }
  }

  lemma TakenIsTarget(p: Plan, db: Db, ids: seq<Id>, next: Id, j: nat)
    requires IdsAssigned(p, db, ids, next) && |ids| == |p.syms| && j < |p.olds|
    ensures OldTaken(p.matched, j) ==> p.olds[j].id in ids
  {
    if OldTaken(p.matched, j) {
      var i :| Pairs(p.matched, i, j);
      assert Matched(p, i) && Placed(p, db, ids, i, next);
    }
  }

  /** Second strike: the row is deleted, and rows it contained lose their container. */
  lemma SweepDeletes(p: Plan, db: Db, ids: seq<Id>, next: Id, k: nat, gone: set<Id>, nodes: map<Id, Node>,
                     nodes': map<Id, Node>)
    requires Planned(p, db) && IdsBelow(db.nodes, db.nextNode)
    requires k < |p.olds| && !OldTaken(p.matched, k)
    requires Swept(p, db, ids, next, k, gone, nodes)
    requires nodes' == WithoutNode(nodes, p.olds[k].id)
    ensures Swept(p, db, ids, next, k + 1, gone + {p.olds[k].id}, nodes')
  {
    var t, gone' := p.olds[k].id, gone + {p.olds[k].id};
    UnclaimedIsNoTarget(p, db, ids, next, k);
    forall i | 0 <= i < |ids| && Standing(ids, i)
      ensures RowIs(nodes', ids[i], RowOf(p, ids, i))
    {
      assert RowIs(nodes, ids[i], RowOf(p, ids, i)) && ids[i] in ids;
      RowSurvives(p, ids, i, t);
    }
    forall j | 0 <= j < |p.olds| && !OldTaken(p.matched, j) && p.olds[j].id !in gone'
      ensures RowIs(nodes', p.olds[j].id, Remnant(p, j, j < k + 1, gone'))
    {
      assert RowIs(nodes, p.olds[j].id, Remnant(p, j, j < k, gone));
      assert j != k;
      assert Detached(Remnant(p, j, j < k, gone), t) == Remnant(p, j, j < k, gone');
    }
    forall id | id in db.nodes && db.nodes[id].uri != p.uri && id !in ids
      ensures RowIs(nodes', id, Cut(db.nodes[id], gone'))
    {
      assert RowIs(nodes, id, Cut(db.nodes[id], gone));
      assert Detached(Cut(db.nodes[id], gone), t) == Cut(db.nodes[id], gone');
    }
  }

  /** A symbol's container is a symbol's row, so it never goes away in pass 4. */
  lemma RowSurvives(p: Plan, ids: seq<Id>, i: nat, gone: Id)
    requires |ids| == |p.syms| == |p.matched| && i < |ids| && gone !in ids
    ensures Detached(RowOf(p, ids, i), gone) == RowOf(p, ids, i)
  {
  }

  lemma DeletedStep(p: Plan, k: nat)
    requires k < |p.olds|
    ensures DeletedIds(p, k + 1) == DeletedIds(p, k) + (if OldFateOf(p, k) == Deleted then {p.olds[k].id} else {})
  {
  }

  lemma PrunedTwice(edges: map<Id, Edge>, a: set<Id>, b: set<Id>)
    ensures Pruned(Pruned(edges, a), b) == Pruned(edges, a + b)
  {
  }

  // ----- pass 5 -----

  function LinkKey(syms: seq<ReconcileSymbol>, ids: seq<Id>, i: nat): EdgeKey
    requires i < |syms| == |ids| && syms[i].parent.Some? && syms[i].parent.value < |ids|
  {
    EdgeKey(ids[syms[i].parent.value], ids[i], Contains, None)
  }

  /** The `contains` edges owed by the first `k` symbols. */
  ghost function LinkKeys(syms: seq<ReconcileSymbol>, ids: seq<Id>, k: nat): set<EdgeKey>
    requires k <= |syms| == |ids| && ParentsFirst(syms)
  {
    set i | 0 <= i < k && syms[i].parent.Some? :: LinkKey(syms, ids, i)
  }

  /** The edge with `e`'s key now equals `e`; it reuses the row that had the key, if any. */
  ghost predicate EdgeUpserted(edges: map<Id, Edge>, next: Id, e: Edge, edges': map<Id, Edge>, next': Id, id: Id) {
    && edges' == edges[id := e]
    && (if id in edges then KeyOf(edges[id]) == KeyOf(e) && next' == next
        else id == next && next' == next + 1 && forall k :: k in edges ==> KeyOf(edges[k]) != KeyOf(e))
  }

  function Revived(e: Edge, keys: set<EdgeKey>): Edge {
    if KeyOf(e) in keys then e.(valid := true) else e
  }

  ghost predicate HasValid(edges: map<Id, Edge>, key: EdgeKey) {
    exists e :: e in edges && KeyOf(edges[e]) == key && edges[e].valid
  }

  /** `edges` is `base` plus valid edges for `keys`; nothing else changed. */
  ghost predicate Linked(base: map<Id, Edge>, firstNew: Id, keys: set<EdgeKey>, edges: map<Id, Edge>) {
    && (forall e :: e in base ==> e in edges && edges[e] == Revived(base[e], keys))
    && (forall e :: e in edges && e !in base ==> firstNew <= e && KeyOf(edges[e]) in keys && edges[e].valid)
    && (forall key :: key in keys ==> HasValid(edges, key))
    && UniqueEdges(edges)
  }

  lemma LinkStep(base: map<Id, Edge>, firstNew: Id, keys: set<EdgeKey>, edges: map<Id, Edge>, next: Id,
                 e: Edge, edges': map<Id, Edge>, next': Id, id: Id)
    requires Linked(base, firstNew, keys, edges) && firstNew <= next
    requires forall k :: k in base ==> k < firstNew
    requires EdgeUpserted(edges, next, e, edges', next', id) && UniqueEdges(edges')
    requires e.valid && e.site.None?
    ensures Linked(base, firstNew, keys + {KeyOf(e)}, edges')
  {
    var keys' := keys + {KeyOf(e)};
    forall key | key in keys'
      ensures HasValid(edges', key)
    {
      if key == KeyOf(e) {
        assert id in edges';
      } else {
        var k :| k in edges && KeyOf(edges[k]) == key && edges[k].valid;
        assert k in edges';
      }
    }
    assert forall k :: k in edges' && KeyOf(edges'[k]) == KeyOf(e) ==> k == id;
  }

  // ----- the whole transaction -----

  ghost function OutcomeOf(p: Plan): Outcome
    requires |p.syms| == |p.matched|
  {
    var n, m := |p.syms|, |p.olds|;
    Outcome(CountFate(p, Unchanged, n), CountFate(p, Updated, n), CountFate(p, Renamed, n), CountFate(p, Inserted, n),
            CountOldFate(p, Orphaned, m), CountOldFate(p, Deleted, m))
  }

  ghost function Gone(p: Plan): set<Id> {
    DeletedIds(p, |p.olds|)
  }

  ghost function Dirty(p: Plan): set<Id>
    requires |p.syms| == |p.matched|
  {
    DirtyIds(p, |p.syms|)
  }

  /** `db'` is `db` after a committed reconcile that put symbol `i` into row `ids[i]`. */
  ghost predicate Reconciled(p: Plan, db: Db, ids: seq<Id>, db': Db) {
    && |ids| == |p.syms| == |p.matched| && ParentsFirst(p.syms)
    && Swept(p, db, ids, db'.nextNode, |p.olds|, Gone(p), db'.nodes)
    && Linked(Pruned(Invalidated(db.edges, Dirty(p)), Gone(p)), db.nextEdge, LinkKeys(p.syms, ids, |ids|), db'.edges)
    && db.nextEdge <= db'.nextEdge
    && db'.calleesCache == CacheDropped(db, p.uri)
    && db'.materialized == (set m | m in db.materialized && m.0 !in Gone(p))
    && db'.meta == db.meta
  }

  /** The cache rows of a file's own symbols go. */
  ghost function CacheDropped(db: Db, uri: string): map<Id, string> {
    map id | id in db.calleesCache && !(id in db.nodes && db.nodes[id].uri == uri) :: db.calleesCache[id]
  }
}
