/** The reconcile transaction replayed statement by statement on the tables, for any list of symbols:
    when it goes through, what it leaves, and what stops it. */
module ReconcileReplay {
  import opened Wrappers
  import opened GraphModel
  import opened RenameMatching
  import opened ReconcileModel

  // ----- statements -----

  function WithoutAnchors(cache: map<Id, string>, gone: set<Id>): map<Id, string> {
    map id | id in cache && id !in gone :: cache[id]
  }

  function WithoutMarks(marks: set<(Id, EdgeType)>, gone: set<Id>): set<(Id, EdgeType)> {
    set m | m in marks && m.0 !in gone
  }

  /** DELETE FROM nodes, with every ON DELETE action of the schema. */
  function NodeDeleted(db: Db, id: Id): Db {
    db.(nodes := WithoutNode(db.nodes, id), edges := Pruned(db.edges, {id}),
        calleesCache := WithoutAnchors(db.calleesCache, {id}), materialized := WithoutMarks(db.materialized, {id}))
  }

  /** The row an INSERT ... ON CONFLICT of `n` writes to: the conflicting one, or a new one. */
  predicate TakesSlot(nodes: map<Id, Node>, next: Id, n: Node, t: Id) {
    && Fits(nodes, t, n)
    && (if t in nodes then nodes[t].fqn == n.fqn || Phys(nodes[t]) == Phys(n) else t == next)
  }

  /** The row an edge upsert writes to. */
  predicate TakesEdge(edges: map<Id, Edge>, next: Id, e: Edge, t: Id) {
    if t in edges then KeyOf(edges[t]) == KeyOf(e)
    else t == next && forall k :: k in edges ==> KeyOf(edges[k]) != KeyOf(e)
  }

  function EdgePut(db: Db, e: Edge, t: Id): Db {
    db.(edges := db.edges[t := e], nextEdge := if t in db.edges then db.nextEdge else db.nextEdge + 1)
  }

  lemma RowChangeKeepsIntegrity(db: Db, id: Id, row: Node, next: Id)
    requires Integrity(db) && Fits(db.nodes, id, row)
    requires 0 < id < next && db.nextNode <= next
    requires row.containerId.Some? ==> row.containerId.value in db.nodes
    ensures Integrity(db.(nodes := db.nodes[id := row], nextNode := next))
  {
    var nodes := db.nodes[id := row];
    forall k | k in nodes
      ensures Fits(nodes, k, nodes[k])
    {
      if k != id { assert Fits(db.nodes, k, db.nodes[k]); }
    }
  }

  /** Hover texts and constructs are in no key. */
  lemma AnnotationKeepsIntegrity(db: Db, nodes: map<Id, Node>)
    requires Integrity(db) && nodes.Keys == db.nodes.Keys
    requires forall k :: k in nodes ==>
               nodes[k] == db.nodes[k].(construct := nodes[k].construct, signature := nodes[k].signature)
    ensures Integrity(db.(nodes := nodes))
  {
    forall k | k in nodes
      ensures Fits(nodes, k, nodes[k])
    {
      assert Fits(db.nodes, k, db.nodes[k]);
    }
  }

  lemma DeleteKeepsIntegrity(db: Db, id: Id)
    requires Integrity(db)
    ensures Integrity(NodeDeleted(db, id))
  {
    var nodes := WithoutNode(db.nodes, id);
    forall k | k in nodes
      ensures Fits(nodes, k, nodes[k])
    {
      assert Fits(db.nodes, k, db.nodes[k]);
    }
  }

  lemma InvalidationKeepsIntegrity(db: Db, ids: set<Id>)
    requires Integrity(db)
    ensures Integrity(db.(edges := Invalidated(db.edges, ids)))
  {
  }

  lemma EdgePutKeepsIntegrity(db: Db, e: Edge, t: Id)
    requires Integrity(db) && TakesEdge(db.edges, db.nextEdge, e, t)
    requires t in db.edges || (e.src in db.nodes && e.dst in db.nodes)
    ensures Integrity(EdgePut(db, e, t))
  {
  }

  // ----- loops that stop at the first refusal -----

  ghost function Fold<S>(step: (nat, S) -> Option<S>, s: S, k: nat): Option<S> {
    if k == 0 then Some(s)
    else
      match Fold(step, s, k - 1)
      case None => None
      case Some(now) => step(k - 1, now)
  }

  ghost predicate Keeps<S(!new)>(step: (nat, S) -> Option<S>, n: nat, inv: (nat, S) -> bool) {
    forall k: nat, now {:trigger inv(k, now)} :: k < n && inv(k, now) && step(k, now).Some? ==>
        inv(k + 1, step(k, now).value)
  }

  lemma {:induction false} FoldKeeps<S(!new)>(step: (nat, S) -> Option<S>, s: S, n: nat, inv: (nat, S) -> bool, k: nat)
    requires inv(0, s) && Keeps(step, n, inv) && k <= n
    ensures Fold(step, s, k).Some? ==> inv(k, Fold(step, s, k).value)
  {
    if k > 0 && Fold(step, s, k).Some? {
      FoldKeeps(step, s, n, inv, k - 1);
    }
  }

  lemma {:induction false} FoldAlways<S(!new)>(step: (nat, S) -> Option<S>, s: S, n: nat, inv: (nat, S) -> bool, k: nat)
    requires inv(0, s) && k <= n
    requires forall k: nat, now {:trigger inv(k, now)} ::
               k < n && inv(k, now) ==> step(k, now).Some? && inv(k + 1, step(k, now).value)
    ensures Fold(step, s, k).Some? && inv(k, Fold(step, s, k).value)
  {
    if k > 0 {
      FoldAlways(step, s, n, inv, k - 1);
    }
  }

  lemma {:induction false} FoldMonotone<S>(step: (nat, S) -> Option<S>, s: S, k: nat, n: nat)
    requires k <= n
    ensures Fold(step, s, n).Some? ==> Fold(step, s, k).Some?
    decreases n
  {
    if k < n {
      FoldMonotone(step, s, k, n - 1);
    }
  }

  /** Turn `m` is reached and refused. */
  ghost predicate StopsAt<S>(step: (nat, S) -> Option<S>, s: S, m: nat) {
    Fold(step, s, m).Some? && step(m, Fold(step, s, m).value).None?
  }

  lemma {:induction false} FoldStops<S>(step: (nat, S) -> Option<S>, s: S, k: nat)
    ensures Fold(step, s, k).None? <==> exists m: nat :: m < k && StopsAt(step, s, m)
  {
    if k > 0 {
      FoldStops(step, s, k - 1);
      assert Fold(step, s, k).None? <==> Fold(step, s, k - 1).None? || StopsAt(step, s, k - 1);
    }
  }

  // ----- the transaction -----

  datatype Writing = Writing(db: Db, ids: seq<Id>)

  ghost function ParkedDb(p: Plan, db: Db): Db {
    db.(nodes := map id | id in db.nodes ::
          if db.nodes[id].uri == p.uri then Parked(db.nodes[id], id) else db.nodes[id],
        calleesCache := CacheDropped(db, p.uri))
  }

  /** The row symbol `|w.ids|` is written as. */
  ghost function NextRow(p: Plan, w: Writing): Node
    requires |w.ids| < |p.syms| == |p.matched|
  {
    var k := |w.ids|;
    if Matched(p, k) && p.olds[p.matched[k].value].id in w.db.nodes then
      UpdatedRow(w.db.nodes[p.olds[p.matched[k].value].id], p.syms[k], Container(p.syms, w.ids, k))
    else FreshRow(p.uri, p.language, p.isExternal, p.syms[k], Container(p.syms, w.ids, k))
  }

  /** The row it may be written to. */
  ghost predicate MayWrite(p: Plan, w: Writing, t: Id)
    requires |w.ids| < |p.syms| == |p.matched|
  {
    var k := |w.ids|;
    if Matched(p, k) then
      t == p.olds[p.matched[k].value].id && t in w.db.nodes && Fits(w.db.nodes, t, NextRow(p, w))
    else TakesSlot(w.db.nodes, w.db.nextNode, NextRow(p, w), t)
  }

  ghost function Wrote(p: Plan, w: Writing, t: Id): Writing
    requires |w.ids| < |p.syms| == |p.matched|
  {
    Writing(w.db.(nodes := w.db.nodes[t := NextRow(p, w)],
                  nextNode := if Matched(p, |w.ids|) then w.db.nextNode else w.db.nextNode + 1,
                  edges := Invalidated(w.db.edges, if FateOf(p, |w.ids|) in {Renamed, Updated} then {t} else {})),
            w.ids + [t])
  }

  /** The parent is written already, and its row exists. */
  ghost predicate ParentReady(p: Plan, w: Writing)
    requires |w.ids| < |p.syms| == |p.matched|
  {
    && (p.syms[|w.ids|].parent.Some? ==> p.syms[|w.ids|].parent.value < |w.ids|)
    && (NextRow(p, w).containerId.Some? ==> NextRow(p, w).containerId.value in w.db.nodes)
  }

  /** One turn of pass 3. */
  ghost function WriteNext(p: Plan, w: Writing): (r: Option<Writing>)
    requires |w.ids| < |p.syms| == |p.matched|
    ensures r.Some? ==> |r.value.ids| == |w.ids| + 1
  {
    if !ParentReady(p, w) then None
    else if t :| MayWrite(p, w, t) then Some(Wrote(p, w, t))
    else None
  }

  ghost function WriteStep(p: Plan): (nat, Writing) -> Option<Writing> {
    (k: nat, w: Writing) => if |w.ids| == k < |p.syms| == |p.matched| then WriteNext(p, w) else None
  }

  /** Pass 3 on the first `k` symbols. */
  ghost function Replay3(p: Plan, db: Db, k: nat): Option<Writing> {
    Fold(WriteStep(p), Writing(ParkedDb(p, db), []), k)
  }

  ghost function StruckRow(p: Plan, k: nat, db: Db): Node
    requires k < |p.olds| && p.olds[k].id in db.nodes
  {
    Struck(WithLine(db.nodes[p.olds[k].id], p.olds[k].node.range.startLine))
  }

  /** One turn of pass 4. */
  ghost function SweepNext(p: Plan, k: nat, db: Db): Option<Db>
    requires k < |p.olds|
  {
    var t := p.olds[k].id;
    match OldFateOf(p, k)
    case Claimed => Some(db)
    case Deleted => Some(NodeDeleted(db, t))
    case Orphaned =>
      if t in db.nodes && Fits(db.nodes, t, StruckRow(p, k, db)) then
        Some(db.(nodes := db.nodes[t := StruckRow(p, k, db)]))
      else None
  }

  ghost function SweepStep(p: Plan): (nat, Db) -> Option<Db> {
    (k: nat, db: Db) => if k < |p.olds| then SweepNext(p, k, db) else None
  }

  ghost function Replay4(p: Plan, db: Db, k: nat): Option<Db> {
    Fold(SweepStep(p), db, k)
  }

  function ContainsEdge(p: Plan, ids: seq<Id>, i: nat): Edge
    requires i < |p.syms| == |ids| && p.syms[i].parent.Some? && p.syms[i].parent.value < |ids|
  {
    Edge(ids[p.syms[i].parent.value], ids[i], Contains, None, true)
  }

  /** One turn of pass 5. */
  ghost function LinkNext(p: Plan, ids: seq<Id>, i: nat, db: Db): Option<Db>
    requires i < |p.syms| == |ids|
  {
    if p.syms[i].parent.None? then Some(db)
    else if p.syms[i].parent.value >= |ids| then None
    else
      var e := ContainsEdge(p, ids, i);
      if t :| TakesEdge(db.edges, db.nextEdge, e, t) && (t in db.edges || (e.src in db.nodes && e.dst in db.nodes)) then
        Some(EdgePut(db, e, t))
      else None
  }

  ghost function LinkStepOf(p: Plan, ids: seq<Id>): (nat, Db) -> Option<Db> {
    (k: nat, db: Db) => if k < |p.syms| == |ids| then LinkNext(p, ids, k, db) else None
  }

  ghost function Replay5(p: Plan, ids: seq<Id>, db: Db, k: nat): Option<Db> {
    Fold(LinkStepOf(p, ids), db, k)
  }

  /** Passes 4 and 5 after pass 3. */
  ghost function Finish(p: Plan, w: Writing): Option<Writing> {
    match Replay4(p, w.db, |p.olds|)
    case None => None
    case Some(swept) =>
      match Replay5(p, w.ids, swept, |p.syms|)
      case None => None
      case Some(done) => Some(Writing(done, w.ids))
  }

  /** The whole transaction. */
  ghost function Replay(p: Plan, db: Db): Option<Writing> {
    match Replay3(p, db, |p.syms|)
    case None => None
    case Some(w) => Finish(p, w)
  }

  // ----- every step keeps the schema's integrity -----

  lemma ParkingKeepsIntegrity(p: Plan, db: Db)
    requires Integrity(db)
    ensures Integrity(ParkedDb(p, db))
  {
    var nodes := ParkedDb(p, db).nodes;
    forall k | k in nodes
      ensures Fits(nodes, k, nodes[k])
    {
      assert Fits(db.nodes, k, db.nodes[k]);
    }
  }

  lemma WriteKeepsIntegrity(p: Plan, w: Writing, t: Id)
    requires |w.ids| < |p.syms| == |p.matched| && Integrity(w.db) && ParentReady(p, w) && MayWrite(p, w, t)
    ensures Integrity(Wrote(p, w, t).db)
  {
    var db' := Wrote(p, w, t).db;
    RowChangeKeepsIntegrity(w.db, t, NextRow(p, w), db'.nextNode);
    InvalidationKeepsIntegrity(w.db.(nodes := db'.nodes, nextNode := db'.nextNode),
                               if FateOf(p, |w.ids|) in {Renamed, Updated} then {t} else {});
  }

  lemma WriteNextKeepsIntegrity(p: Plan, w: Writing)
    requires |w.ids| < |p.syms| == |p.matched| && Integrity(w.db)
    ensures WriteNext(p, w).Some? ==> Integrity(WriteNext(p, w).value.db)
  {
    if WriteNext(p, w).Some? {
      var t :| MayWrite(p, w, t) && WriteNext(p, w) == Some(Wrote(p, w, t));
      WriteKeepsIntegrity(p, w, t);
    }
  }

  lemma Replay3KeepsIntegrity(p: Plan, db: Db, k: nat)
    requires k <= |p.syms| == |p.matched| && Integrity(db)
    ensures Replay3(p, db, k).Some? ==> Integrity(Replay3(p, db, k).value.db) && |Replay3(p, db, k).value.ids| == k
  {
    ParkingKeepsIntegrity(p, db);
    var inv := (k: nat, w: Writing) => |w.ids| == k && Integrity(w.db);
    forall k: nat, w | k < |p.syms| && inv(k, w) && WriteStep(p)(k, w).Some?
      ensures inv(k + 1, WriteStep(p)(k, w).value)
    {
      WriteNextKeepsIntegrity(p, w);
    }
    FoldKeeps(WriteStep(p), Writing(ParkedDb(p, db), []), |p.syms|, inv, k);
  }

  lemma SweepKeepsIntegrity(p: Plan, k: nat, db: Db)
    requires k < |p.olds| && Integrity(db)
    ensures SweepNext(p, k, db).Some? ==> Integrity(SweepNext(p, k, db).value)
  {
    var t := p.olds[k].id;
    match OldFateOf(p, k) {
      case Claimed =>
      case Deleted => DeleteKeepsIntegrity(db, t);
      case Orphaned =>
        if SweepNext(p, k, db).Some? {
          RowChangeKeepsIntegrity(db, t, StruckRow(p, k, db), db.nextNode);
        }
    }
  }

  lemma Replay4KeepsIntegrity(p: Plan, db: Db, k: nat)
    requires k <= |p.olds| && Integrity(db)
    ensures Replay4(p, db, k).Some? ==> Integrity(Replay4(p, db, k).value)
  {
    var inv := (k: nat, now: Db) => Integrity(now);
    forall k: nat, now | k < |p.olds| && inv(k, now) && SweepStep(p)(k, now).Some?
      ensures inv(k + 1, SweepStep(p)(k, now).value)
    {
      SweepKeepsIntegrity(p, k, now);
    }
    FoldKeeps(SweepStep(p), db, |p.olds|, inv, k);
  }

  lemma LinkKeepsIntegrity(p: Plan, ids: seq<Id>, k: nat, now: Db)
    requires k < |p.syms| == |ids| && Integrity(now)
    ensures LinkNext(p, ids, k, now).Some? ==> Integrity(LinkNext(p, ids, k, now).value)
  {
    if p.syms[k].parent.Some? && LinkNext(p, ids, k, now).Some? {
      var e := ContainsEdge(p, ids, k);
      var t :| TakesEdge(now.edges, now.nextEdge, e, t)
               && (t in now.edges || (e.src in now.nodes && e.dst in now.nodes))
               && LinkNext(p, ids, k, now) == Some(EdgePut(now, e, t));
      EdgePutKeepsIntegrity(now, e, t);
    }
  }

  lemma Replay5KeepsIntegrity(p: Plan, ids: seq<Id>, db: Db, k: nat)
    requires k <= |p.syms| == |ids| && Integrity(db)
    ensures Replay5(p, ids, db, k).Some? ==> Integrity(Replay5(p, ids, db, k).value)
  {
    var inv := (k: nat, now: Db) => Integrity(now);
    forall k: nat, now | k < |p.syms| && inv(k, now) && LinkStepOf(p, ids)(k, now).Some?
      ensures inv(k + 1, LinkStepOf(p, ids)(k, now).value)
    {
      LinkKeepsIntegrity(p, ids, k, now);
    }
    FoldKeeps(LinkStepOf(p, ids), db, |p.syms|, inv, k);
  }

  /** Whatever the list of symbols, a committed transaction leaves both unique indexes and all references intact. */
  lemma CommitKeepsIntegrity(p: Plan, db: Db)
    requires |p.syms| == |p.matched| && Integrity(db) && Replay(p, db).Some?
    ensures Integrity(Replay(p, db).value.db)
  {
    Replay3KeepsIntegrity(p, db, |p.syms|);
    var w := Replay3(p, db, |p.syms|).value;
    Replay4KeepsIntegrity(p, w.db, |p.olds|);
    Replay5KeepsIntegrity(p, w.ids, Replay4(p, w.db, |p.olds|).value, |p.syms|);
  }

  lemma OneSlot(p: Plan, w: Writing, t: Id, t': Id)
    requires |w.ids| < |p.syms| == |p.matched| && MayWrite(p, w, t) && MayWrite(p, w, t')
    ensures t == t'
  {
  }

  // ----- what pass 3 leaves, for any list -----

  /** What the transaction starts from. Positions arrive as unsigned numbers, so lines are real. */
  ghost predicate OnTrack(p: Plan, db: Db) {
    Planned(p, db) && Integrity(db) && LinesReal(p.syms)
  }

  /** Everything but the node table after `k` symbols. */
  ghost predicate Pass3Rest(p: Plan, db: Db, k: nat, w: Writing) {
    && k <= |p.syms| == |p.matched| && |w.ids| == k
    && w.db == db.(nodes := w.db.nodes, nextNode := w.db.nextNode,
                   edges := Invalidated(db.edges, DirtyIds(p, k)), calleesCache := CacheDropped(db, p.uri))
  }

  ghost predicate Pass3(p: Plan, db: Db, w: Writing) {
    && Applied(p, db, w.ids, w.db.nodes, w.db.nextNode) && Pass3Rest(p, db, |w.ids|, w)
    && IdsBelow(w.db.nodes, w.db.nextNode)
  }

  /** A row that carries symbol `k`'s fqn or key after the earlier symbols are written. */
  ghost predicate HasFqnOf(p: Plan, w: Writing, id: Id)
    requires |w.ids| < |p.syms|
  {
    id in w.db.nodes && w.db.nodes[id].fqn == p.syms[|w.ids|].fqn
  }

  ghost predicate HasKeyOf(p: Plan, w: Writing, id: Id)
    requires |w.ids| < |p.syms|
  {
    id in w.db.nodes && Phys(w.db.nodes[id]) == SymKey(p.uri, p.syms[|w.ids|])
  }

  /** Such a row was written by an earlier symbol, is the row the symbol claims, or belongs to another file. */
  lemma WhoHasFqn(p: Plan, db: Db, w: Writing, id: Id)
    requires OnTrack(p, db) && Pass3(p, db, w) && |w.ids| < |p.syms| && HasFqnOf(p, w, id)
    ensures || id in w.ids
            || (Matched(p, |w.ids|) && id == p.olds[p.matched[|w.ids|].value].id)
            || Holder(p, db, id, |w.ids|)
  {
    var k := |w.ids|;
    UnwrittenRow(p, db, w, id);
    if id in db.nodes && db.nodes[id].uri == p.uri && db.nodes[id].fqn == p.syms[k].fqn {
      var j :| 0 <= j < |p.olds| && p.olds[j].id == id;
      var first := CarriedRowIsClaimed(p, db, j, k);
      MatchedIsWritten(p, db, w.ids, w.db.nextNode, first);
    }
  }

  lemma MatchedIsWritten(p: Plan, db: Db, ids: seq<Id>, next: Id, i: nat)
    requires IdsAssigned(p, db, ids, next)
    ensures i < |ids| && Matched(p, i) ==> ids[i] == p.olds[p.matched[i].value].id && ids[i] in ids
  {
    assert i < |ids| ==> Placed(p, db, ids, i, next);
  }

  /** A row no symbol was written to is as it was parked. */
  lemma UnwrittenRow(p: Plan, db: Db, w: Writing, id: Id)
    requires Pass3(p, db, w) && id in w.db.nodes
    ensures id !in w.ids ==>
              && id in db.nodes
              && w.db.nodes[id] == if db.nodes[id].uri == p.uri then Parked(db.nodes[id], id) else db.nodes[id]
  {
    assert id in db.nodes && id !in w.ids ==>
             RowIs(w.db.nodes, id, if db.nodes[id].uri == p.uri then Parked(db.nodes[id], id) else db.nodes[id]);
  }

  lemma WhoHasKey(p: Plan, db: Db, w: Writing, id: Id)
    requires OnTrack(p, db) && Pass3(p, db, w) && |w.ids| < |p.syms| && HasKeyOf(p, w, id)
    ensures id in w.ids
  {
    UnwrittenRow(p, db, w, id);
  }

  /** Who wrote a row last, and that the row shows it. */
  lemma RowShowsLastWriter(p: Plan, db: Db, w: Writing, id: Id) returns (i: nat)
    requires Planned(p, db) && Pass3(p, db, w) && id in w.ids
    ensures i < |w.ids| && w.ids[i] == id && Standing(w.ids, i)
    ensures id in w.db.nodes && w.db.nodes[id].fqn == p.syms[i].fqn && Phys(w.db.nodes[id]) == SymKey(p.uri, p.syms[i])
  {
    var a :| 0 <= a < |w.ids| && w.ids[a] == id;
    i := LastWriter(w.ids, a);
    assert RowIs(w.db.nodes, w.ids[i], RowOf(p, w.ids, i));
    RowOfIsOwn(p, db, w.ids, i);
  }

  /** The row written is the one the model names: an update sees the row as it was parked. */
  lemma NextRowIsRowOf(p: Plan, db: Db, w: Writing)
    requires OnTrack(p, db) && Pass3(p, db, w) && |w.ids| < |p.syms|
    ensures NextRow(p, w) == RowOf(p, w.ids, |w.ids|)
    ensures Matched(p, |w.ids|) ==> p.olds[p.matched[|w.ids|].value].id in w.db.nodes
  {
    if Matched(p, |w.ids|) {
      var t := p.olds[p.matched[|w.ids|].value].id;
      TargetIsNew(p, db, w.ids, w.db.nextNode);
      assert RowIs(w.db.nodes, t, Parked(db.nodes[t], t));
    }
  }

  lemma SlotIsPlaced(p: Plan, db: Db, w: Writing, t: Id)
    requires OnTrack(p, db) && Pass3(p, db, w) && |w.ids| < |p.syms| && MayWrite(p, w, t)
    ensures Placed(p, db, w.ids + [t], |w.ids|, Wrote(p, w, t).db.nextNode)
  {
    var k, ids' := |w.ids|, w.ids + [t];
    NextRowIsRowOf(p, db, w);
    RowOfIsOwn(p, db, w.ids, k);
    assert forall m :: 0 <= m < k ==> ids'[m] == w.ids[m];
    if t in w.ids {
      if Matched(p, k) {
        TargetIsNew(p, db, w.ids, w.db.nextNode);
      }
      var a := RowShowsLastWriter(p, db, w, t);
      assert StandingAt(ids', a, k) && Repeats(ids', k);
    } else if !Matched(p, k) && t in w.db.nodes {
      assert !Repeats(ids', k);
      if HasFqnOf(p, w, t) {
        WhoHasFqn(p, db, w, t);
      } else {
        WhoHasKey(p, db, w, t);
      }
    }
  }

  /** A row of another file with the symbol's fqn is taken over, or was before. */
  lemma HoldersAreTaken(p: Plan, db: Db, w: Writing, t: Id, h: Id)
    requires OnTrack(p, db) && Pass3(p, db, w) && |w.ids| < |p.syms| && MayWrite(p, w, t)
    requires Holder(p, db, h, |w.ids|)
    ensures h in w.ids + [t]
  {
    NextRowIsRowOf(p, db, w);
    if h !in w.ids {
      assert RowIs(w.db.nodes, h, db.nodes[h]);
      RowOfIsOwn(p, db, w.ids, |w.ids|);
    }
  }

  lemma Pass3RestStep(p: Plan, db: Db, w: Writing, t: Id)
    requires Pass3Rest(p, db, |w.ids|, w) && |w.ids| < |p.syms|
    requires Matched(p, |w.ids|) ==> t == p.olds[p.matched[|w.ids|].value].id
    ensures Pass3Rest(p, db, |w.ids| + 1, Wrote(p, w, t))
  {
    EdgesStep(p, db, |w.ids|, t);
    assert Wrote(p, w, t).db.edges == Invalidated(db.edges, DirtyIds(p, |w.ids| + 1));
  }

  lemma EdgesStep(p: Plan, db: Db, i: nat, t: Id)
    requires i < |p.syms| == |p.matched| && (Matched(p, i) ==> t == p.olds[p.matched[i].value].id)
    ensures Invalidated(Invalidated(db.edges, DirtyIds(p, i)),
                        if FateOf(p, i) in {Renamed, Updated} then {t} else {}) ==
            Invalidated(db.edges, DirtyIds(p, i + 1))
  {
    DirtyStep(p, i);
    InvalidatedTwice(db.edges, DirtyIds(p, i), if FateOf(p, i) in {Renamed, Updated} then {t} else {});
  }

  lemma AllHoldersAreTaken(p: Plan, db: Db, w: Writing, t: Id)
    requires OnTrack(p, db) && Pass3(p, db, w) && |w.ids| < |p.syms| && MayWrite(p, w, t)
    ensures forall h :: Holder(p, db, h, |w.ids|) ==> h in w.ids + [t]
  {
    forall h | Holder(p, db, h, |w.ids|)
      ensures h in w.ids + [t]
    {
      HoldersAreTaken(p, db, w, t, h);
    }
  }

  lemma ParentsStayFirst(syms: seq<ReconcileSymbol>, k: nat)
    requires k < |syms| && ParentsFirst(syms[..k]) && (syms[k].parent.Some? ==> syms[k].parent.value < k)
    ensures ParentsFirst(syms[..k + 1])
  {
    assert syms[..k + 1] == syms[..k] + [syms[k]];
  }

  lemma PlacedRowApplied(p: Plan, db: Db, w: Writing, t: Id)
    requires Applied(p, db, w.ids, w.db.nodes, w.db.nextNode) && |w.ids| < |p.syms| && ParentReady(p, w)
    requires Placed(p, db, w.ids + [t], |w.ids|, Wrote(p, w, t).db.nextNode)
    requires forall h :: Holder(p, db, h, |w.ids|) ==> h in w.ids + [t]
    requires NextRow(p, w) == RowOf(p, w.ids, |w.ids|)
    ensures Applied(p, db, w.ids + [t], w.db.nodes[t := NextRow(p, w)], Wrote(p, w, t).db.nextNode)
  {
    ParentsStayFirst(p.syms, |w.ids|);
    ApplyStep(p, db, w.ids, w.db.nodes, w.db.nextNode, Wrote(p, w, t).db.nextNode, t);
  }

  lemma AppliedStep(p: Plan, db: Db, w: Writing, t: Id)
    requires OnTrack(p, db) && Pass3(p, db, w) && |w.ids| < |p.syms| && ParentReady(p, w) && MayWrite(p, w, t)
    ensures Applied(p, db, w.ids + [t], w.db.nodes[t := NextRow(p, w)], Wrote(p, w, t).db.nextNode)
  {
    SlotIsPlaced(p, db, w, t);
    NextRowIsRowOf(p, db, w);
    AllHoldersAreTaken(p, db, w, t);
    PlacedRowApplied(p, db, w, t);
  }

  lemma Pass3Step(p: Plan, db: Db, w: Writing, t: Id)
    requires OnTrack(p, db) && Pass3(p, db, w) && |w.ids| < |p.syms| && ParentReady(p, w) && MayWrite(p, w, t)
    ensures Pass3(p, db, Wrote(p, w, t))
  {
    AppliedStep(p, db, w, t);
    Pass3RestStep(p, db, w, t);
  }

  lemma Pass3Starts(p: Plan, db: Db)
    requires OnTrack(p, db)
    ensures Pass3(p, db, Writing(ParkedDb(p, db), []))
  {
    InvalidatedNone(db.edges);
    assert DirtyIds(p, 0) == {};
  }

  lemma InvalidatedNone(edges: map<Id, Edge>)
    ensures Invalidated(edges, {}) == edges
  {
    assert forall e :: e in edges ==> edges[e].(valid := edges[e].valid && true) == edges[e];
  }

  lemma WriteNextMeans(p: Plan, db: Db, w: Writing)
    requires OnTrack(p, db) && Pass3(p, db, w) && |w.ids| < |p.syms|
    ensures WriteNext(p, w).Some? ==> Pass3(p, db, WriteNext(p, w).value) && |WriteNext(p, w).value.ids| == |w.ids| + 1
  {
    if WriteNext(p, w).Some? {
      var t :| MayWrite(p, w, t) && WriteNext(p, w) == Some(Wrote(p, w, t));
      Pass3Step(p, db, w, t);
    }
  }

  lemma Replay3Means(p: Plan, db: Db, k: nat)
    requires OnTrack(p, db) && k <= |p.syms|
    ensures Replay3(p, db, k).Some? ==> Pass3(p, db, Replay3(p, db, k).value) && |Replay3(p, db, k).value.ids| == k
  {
    Pass3Starts(p, db);
    var inv := (k: nat, w: Writing) => |w.ids| == k && Pass3(p, db, w);
    forall k: nat, w | k < |p.syms| && inv(k, w) && WriteStep(p)(k, w).Some?
      ensures inv(k + 1, WriteStep(p)(k, w).value)
    {
      WriteNextMeans(p, db, w);
    }
    FoldKeeps(WriteStep(p), Writing(ParkedDb(p, db), []), |p.syms|, inv, k);
  }

  // ----- passes 4 and 5, for any list -----

  ghost predicate Pass4(p: Plan, db: Db, ids: seq<Id>, k: nat, now: Db)
    requires k <= |p.olds| && |p.syms| == |p.matched| == |ids|
  {
    && Swept(p, db, ids, now.nextNode, k, DeletedIds(p, k), now.nodes)
    && now.edges == Pruned(Invalidated(db.edges, Dirty(p)), DeletedIds(p, k))
    && now.nextEdge == db.nextEdge
    && now.calleesCache == WithoutAnchors(CacheDropped(db, p.uri), DeletedIds(p, k))
    && now.materialized == WithoutMarks(db.materialized, DeletedIds(p, k))
    && now.meta == db.meta
  }

  lemma Pass4Starts(p: Plan, db: Db, w: Writing)
    requires OnTrack(p, db) && Pass3(p, db, w) && |w.ids| == |p.syms|
    ensures Pass4(p, db, w.ids, 0, w.db)
  {
    SweepStarts(p, db, w.ids, w.db.nodes, w.db.nextNode);
    assert DeletedIds(p, 0) == {};
    assert Pruned(w.db.edges, {}) == w.db.edges;
  }

  lemma NoStrike(p: Plan, db: Db, ids: seq<Id>, k: nat, now: Db)
    requires k < |p.olds| && |p.syms| == |p.matched| == |ids| && Pass4(p, db, ids, k, now)
    requires OldTaken(p.matched, k) && DeletedIds(p, k + 1) == DeletedIds(p, k)
    ensures Pass4(p, db, ids, k + 1, now)
  {
    SweepSkips(p, db, ids, now.nextNode, k, DeletedIds(p, k), now.nodes);
  }

  lemma SecondStrike(p: Plan, db: Db, ids: seq<Id>, k: nat, now: Db)
    requires OnTrack(p, db) && k < |p.olds| && |p.syms| == |ids| && Pass4(p, db, ids, k, now)
    requires !OldTaken(p.matched, k)
    requires DeletedIds(p, k + 1) == DeletedIds(p, k) + {p.olds[k].id}
    ensures Pass4(p, db, ids, k + 1, NodeDeleted(now, p.olds[k].id))
  {
    var t, gone := p.olds[k].id, DeletedIds(p, k);
    SweepDeletes(p, db, ids, now.nextNode, k, gone, now.nodes, WithoutNode(now.nodes, t));
    PrunedTwice(Invalidated(db.edges, Dirty(p)), gone, {t});
  }

  lemma FirstStrike(p: Plan, db: Db, ids: seq<Id>, k: nat, now: Db)
    requires OnTrack(p, db) && k < |p.olds| && |p.syms| == |ids| && Pass4(p, db, ids, k, now)
    requires !OldTaken(p.matched, k) && !p.olds[k].node.orphan
    requires DeletedIds(p, k + 1) == DeletedIds(p, k)
    ensures p.olds[k].id in now.nodes && StruckRow(p, k, now) == Remnant(p, k, true, DeletedIds(p, k))
    ensures Pass4(p, db, ids, k + 1, now.(nodes := now.nodes[p.olds[k].id := StruckRow(p, k, now)]))
  {
    var t, gone := p.olds[k].id, DeletedIds(p, k);
    assert t !in gone;
    assert RowIs(now.nodes, t, Remnant(p, k, false, gone));
    SweepStrikes(p, db, ids, now.nextNode, k, gone, now.nodes);
  }

  lemma Pass4Step(p: Plan, db: Db, ids: seq<Id>, k: nat, now: Db)
    requires OnTrack(p, db) && k < |p.olds| && |p.syms| == |ids| && Pass4(p, db, ids, k, now)
    ensures SweepNext(p, k, now).Some? ==> Pass4(p, db, ids, k + 1, SweepNext(p, k, now).value)
  {
    DeletedStep(p, k);
    match OldFateOf(p, k) {
      case Claimed => NoStrike(p, db, ids, k, now);
      case Deleted => SecondStrike(p, db, ids, k, now);
      case Orphaned => FirstStrike(p, db, ids, k, now);
    }
  }

  lemma Replay4Means(p: Plan, db: Db, ids: seq<Id>, start: Db, k: nat)
    requires OnTrack(p, db) && k <= |p.olds| && |p.syms| == |ids| && Pass4(p, db, ids, 0, start)
    ensures Replay4(p, start, k).Some? ==> Pass4(p, db, ids, k, Replay4(p, start, k).value)
  {
    var inv := (k: nat, now: Db) => k <= |p.olds| && |p.syms| == |p.matched| == |ids| && Pass4(p, db, ids, k, now);
    forall k: nat, now | k < |p.olds| && inv(k, now) && SweepStep(p)(k, now).Some?
      ensures inv(k + 1, SweepStep(p)(k, now).value)
    {
      Pass4Step(p, db, ids, k, now);
    }
    FoldKeeps(SweepStep(p), start, |p.olds|, inv, k);
  }

  ghost predicate Pass5(p: Plan, ids: seq<Id>, k: nat, base: Db, now: Db) {
    && k <= |p.syms| == |ids| && ParentsFirst(p.syms)
    && now == base.(edges := now.edges, nextEdge := now.nextEdge)
    && (forall e :: e in base.edges ==> e < base.nextEdge) && base.nextEdge <= now.nextEdge
    && Linked(base.edges, base.nextEdge, LinkKeys(p.syms, ids, k), now.edges)
    && Integrity(now) && forall i :: 0 <= i < |ids| ==> ids[i] in now.nodes
  }

  lemma LinkKeysStep(syms: seq<ReconcileSymbol>, ids: seq<Id>, k: nat)
    requires k < |syms| == |ids| && ParentsFirst(syms)
    ensures LinkKeys(syms, ids, k + 1) ==
            LinkKeys(syms, ids, k) + (if syms[k].parent.Some? then {LinkKey(syms, ids, k)} else {})
  {
  }

  lemma EdgeHasSlot(edges: map<Id, Edge>, next: Id, e: Edge) returns (t: Id)
    ensures IdsBelow(edges, next) ==> TakesEdge(edges, next, e, t)
  {
    if k :| k in edges && KeyOf(edges[k]) == KeyOf(e) {
      t := k;
    } else {
      t := next;
    }
  }

  /** A turn of pass 5 between existing rows is accepted. */
  lemma Pass5Step(p: Plan, ids: seq<Id>, k: nat, base: Db, now: Db)
    requires Pass5(p, ids, k, base, now) && k < |p.syms|
    ensures LinkNext(p, ids, k, now).Some? && Pass5(p, ids, k + 1, base, LinkNext(p, ids, k, now).value)
  {
    LinkKeysStep(p.syms, ids, k);
    if p.syms[k].parent.Some? {
      var e := ContainsEdge(p, ids, k);
      var slot := EdgeHasSlot(now.edges, now.nextEdge, e);
      assert e.src in now.nodes && e.dst in now.nodes;
      var t :| TakesEdge(now.edges, now.nextEdge, e, t)
               && (t in now.edges || (e.src in now.nodes && e.dst in now.nodes))
               && LinkNext(p, ids, k, now) == Some(EdgePut(now, e, t));
      EdgePutKeepsIntegrity(now, e, t);
      assert EdgeUpserted(now.edges, now.nextEdge, e, EdgePut(now, e, t).edges, EdgePut(now, e, t).nextEdge, t);
      LinkStep(base.edges, base.nextEdge, LinkKeys(p.syms, ids, k), now.edges, now.nextEdge, e,
               EdgePut(now, e, t).edges, EdgePut(now, e, t).nextEdge, t);
    }
  }

  lemma Replay5Means(p: Plan, ids: seq<Id>, base: Db, k: nat)
    requires k <= |p.syms| && Pass5(p, ids, 0, base, base)
    ensures Replay5(p, ids, base, k).Some? && Pass5(p, ids, k, base, Replay5(p, ids, base, k).value)
  {
    var inv := (k: nat, now: Db) => Pass5(p, ids, k, base, now);
    forall k: nat, now | k < |p.syms| && inv(k, now)
      ensures LinkStepOf(p, ids)(k, now).Some? && inv(k + 1, LinkStepOf(p, ids)(k, now).value)
    {
      Pass5Step(p, ids, k, base, now);
    }
    FoldAlways(LinkStepOf(p, ids), base, |p.syms|, inv, k);
  }

  lemma Pass5Starts(p: Plan, db: Db, ids: seq<Id>, swept: Db)
    requires OnTrack(p, db) && |ids| == |p.syms| && Pass4(p, db, ids, |p.olds|, swept)
    requires ParentsFirst(p.syms) && Integrity(swept)
    ensures Pass5(p, ids, 0, swept, swept)
  {
    assert LinkKeys(p.syms, ids, 0) == {};
    forall i | 0 <= i < |ids|
      ensures ids[i] in swept.nodes
    {
      var m := LastWriter(ids, i);
      assert RowIs(swept.nodes, ids[m], RowOf(p, ids, m));
    }
  }

  // ----- what a committed transaction leaves, for any list -----

  /** The state pass 3 hands on. */
  lemma AfterPass3(p: Plan, db: Db)
    requires OnTrack(p, db) && Replay3(p, db, |p.syms|).Some?
    ensures var w := Replay3(p, db, |p.syms|).value;
            && Pass3(p, db, w) && ParentsFirst(p.syms) && Integrity(w.db)
            && |w.ids| == |p.syms| && Pass4(p, db, w.ids, 0, w.db)
  {
    var w := Replay3(p, db, |p.syms|).value;
    Replay3Means(p, db, |p.syms|);
    Replay3KeepsIntegrity(p, db, |p.syms|);
    assert p.syms[..|p.syms|] == p.syms;
    Pass4Starts(p, db, w);
  }

  /** Passes 4 and 5 from there: pass 5 always goes through. */
  lemma AfterPass4(p: Plan, db: Db, w: Writing)
    requires OnTrack(p, db) && |w.ids| == |p.syms| && ParentsFirst(p.syms) && Integrity(w.db)
    requires Pass4(p, db, w.ids, 0, w.db) && Replay4(p, w.db, |p.olds|).Some?
    ensures var done := Replay5(p, w.ids, Replay4(p, w.db, |p.olds|).value, |p.syms|);
            done.Some? && Reconciled(p, db, w.ids, done.value)
  {
    var swept := Replay4(p, w.db, |p.olds|).value;
    Replay4Means(p, db, w.ids, w.db, |p.olds|);
    Replay4KeepsIntegrity(p, w.db, |p.olds|);
    Pass5Starts(p, db, w.ids, swept);
    Replay5Means(p, w.ids, swept, |p.syms|);
    TransactionDone(p, db, w.ids, swept, Replay5(p, w.ids, swept, |p.syms|).value);
  }

  lemma TransactionDone(p: Plan, db: Db, ids: seq<Id>, swept: Db, now: Db)
    requires Planned(p, db) && ParentsFirst(p.syms) && |ids| == |p.syms|
    requires Pass4(p, db, ids, |p.olds|, swept) && Pass5(p, ids, |ids|, swept, now)
    ensures Reconciled(p, db, ids, now)
  {
    assert WithoutAnchors(CacheDropped(db, p.uri), Gone(p)) == CacheDropped(db, p.uri);
  }

  /** Whatever the list, a committed transaction leaves the reconciled tables and the schema's integrity. */
  lemma CommitReconciles(p: Plan, db: Db)
    requires OnTrack(p, db) && Replay(p, db).Some?
    ensures Reconciled(p, db, Replay(p, db).value.ids, Replay(p, db).value.db)
    ensures Integrity(Replay(p, db).value.db)
  {
    AfterPass3(p, db);
    AfterPass4(p, db, Replay3(p, db, |p.syms|).value);
    CommitKeepsIntegrity(p, db);
  }

  // ----- what stops a transaction -----

  /** Row `r` carries symbol `|ids|`'s fqn: an earlier symbol with that fqn still stands there, or it is
      a row of another file that no symbol took over. */
  ghost predicate NameHeld(p: Plan, db: Db, ids: seq<Id>, r: Id)
    requires |ids| < |p.syms|
  {
    || (exists i :: 0 <= i < |ids| && ids[i] == r && Standing(ids, i) && p.syms[i].fqn == p.syms[|ids|].fqn)
    || (r !in ids && Holder(p, db, r, |ids|))
  }

  /** An earlier symbol with symbol `|ids|`'s line, column and name still stands on row `r`. */
  ghost predicate PlaceHeld(p: Plan, ids: seq<Id>, r: Id)
    requires |ids| < |p.syms|
  {
    exists i :: 0 <= i < |ids| && ids[i] == r && Standing(ids, i) && SymKey("", p.syms[i]) == SymKey("", p.syms[|ids|])
  }

  /** The UPDATE of a claimed row meets the fqn or the key elsewhere; an INSERT meets them in two places. */
  ghost predicate TurnBlocked(p: Plan, db: Db, ids: seq<Id>)
    requires |ids| < |p.syms| == |p.matched|
  {
    if Matched(p, |ids|) then exists r :: NameHeld(p, db, ids, r) || PlaceHeld(p, ids, r)
    else exists r, q :: r != q && NameHeld(p, db, ids, r) && PlaceHeld(p, ids, q)
  }

  /** Which rows carry the symbol's fqn and key when its turn comes. */
  lemma HeldMeans(p: Plan, db: Db, w: Writing, r: Id)
    requires OnTrack(p, db) && Pass3(p, db, w) && |w.ids| < |p.syms|
    ensures NameHeld(p, db, w.ids, r) <==>
            HasFqnOf(p, w, r) && !(Matched(p, |w.ids|) && r == p.olds[p.matched[|w.ids|].value].id)
    ensures PlaceHeld(p, w.ids, r) <==> HasKeyOf(p, w, r)
  {
    if Matched(p, |w.ids|) {
      TargetIsNew(p, db, w.ids, w.db.nextNode);
    }
    if r in w.ids {
      var i := RowShowsLastWriter(p, db, w, r);
      OneLastWriter(w.ids, i);
    } else {
      if HasFqnOf(p, w, r) { WhoHasFqn(p, db, w, r); }
      if Holder(p, db, r, |w.ids|) { UnwrittenRow(p, db, w, r); }
      if HasKeyOf(p, w, r) { WhoHasKey(p, db, w, r); }
    }
  }

  lemma OneLastWriter(ids: seq<Id>, i: nat)
    requires i < |ids| && Standing(ids, i)
    ensures forall k :: 0 <= k < |ids| && ids[k] == ids[i] && Standing(ids, k) ==> k == i
  {
  }

  /** A turn of pass 3 is refused exactly if the parent comes later or the symbol is blocked. */
  lemma WriteRefusedExactly(p: Plan, db: Db, w: Writing)
    requires OnTrack(p, db) && Pass3(p, db, w) && |w.ids| < |p.syms| && Integrity(w.db)
    ensures WriteNext(p, w).None? <==>
            (p.syms[|w.ids|].parent.Some? && p.syms[|w.ids|].parent.value >= |w.ids|) || TurnBlocked(p, db, w.ids)
  {
    var k := |w.ids|;
    NextRowIsRowOf(p, db, w);
    RowOfIsOwn(p, db, w.ids, k);
    ParentIsStored(p, db, w);
    forall r
      ensures NameHeld(p, db, w.ids, r) <==>
              HasFqnOf(p, w, r) && !(Matched(p, k) && r == p.olds[p.matched[k].value].id)
      ensures PlaceHeld(p, w.ids, r) <==> HasKeyOf(p, w, r)
    {
      HeldMeans(p, db, w, r);
    }
    if Matched(p, k) {
      UpdateRefused(p, db, w);
    } else {
      InsertRefused(p, db, w);
    }
  }

  lemma ParentIsStored(p: Plan, db: Db, w: Writing)
    requires Planned(p, db) && Pass3(p, db, w) && |w.ids| < |p.syms|
    requires NextRow(p, w) == RowOf(p, w.ids, |w.ids|)
    ensures ParentReady(p, w) <==> (p.syms[|w.ids|].parent.Some? ==> p.syms[|w.ids|].parent.value < |w.ids|)
  {
    if p.syms[|w.ids|].parent.Some? && p.syms[|w.ids|].parent.value < |w.ids| {
      assert w.ids[p.syms[|w.ids|].parent.value] in w.ids;
    }
  }

  lemma UpdateRefused(p: Plan, db: Db, w: Writing)
    requires OnTrack(p, db) && Pass3(p, db, w) && |w.ids| < |p.syms| && Matched(p, |w.ids|)
    requires var row := NextRow(p, w); row.fqn == p.syms[|w.ids|].fqn && Phys(row) == SymKey(p.uri, p.syms[|w.ids|])
    requires p.olds[p.matched[|w.ids|].value].id in w.db.nodes
    ensures (exists t :: MayWrite(p, w, t)) <==>
            !(exists r :: (HasFqnOf(p, w, r) && r != p.olds[p.matched[|w.ids|].value].id) || HasKeyOf(p, w, r))
  {
    var t := p.olds[p.matched[|w.ids|].value].id;
    TargetIsNew(p, db, w.ids, w.db.nextNode);
    FitsMeans(p, w, t);
    assert MayWrite(p, w, t) <==> Fits(w.db.nodes, t, NextRow(p, w));
    if HasKeyOf(p, w, t) { WhoHasKey(p, db, w, t); }
  }

  lemma FitsMeans(p: Plan, w: Writing, t: Id)
    requires |w.ids| < |p.syms| == |p.matched|
    requires var row := NextRow(p, w); row.fqn == p.syms[|w.ids|].fqn && Phys(row) == SymKey(p.uri, p.syms[|w.ids|])
    ensures Fits(w.db.nodes, t, NextRow(p, w)) <==> forall k :: k != t ==> !HasFqnOf(p, w, k) && !HasKeyOf(p, w, k)
  {
    forall k
      ensures (k in w.db.nodes && k != t ==>
               w.db.nodes[k].fqn != NextRow(p, w).fqn && Phys(w.db.nodes[k]) != Phys(NextRow(p, w)))
              <==> (k != t ==> !HasFqnOf(p, w, k) && !HasKeyOf(p, w, k))
    {
    }
  }

  lemma InsertRefused(p: Plan, db: Db, w: Writing)
    requires |w.ids| < |p.syms| == |p.matched| && !Matched(p, |w.ids|)
    requires UniqueNodes(w.db.nodes) && IdsBelow(w.db.nodes, w.db.nextNode)
    requires var row := NextRow(p, w); row.fqn == p.syms[|w.ids|].fqn && Phys(row) == SymKey(p.uri, p.syms[|w.ids|])
    ensures (exists t :: MayWrite(p, w, t)) <==> !(exists r, q :: r != q && HasFqnOf(p, w, r) && HasKeyOf(p, w, q))
  {
    var nodes := w.db.nodes;
    if r :| HasFqnOf(p, w, r) {
      FitsMeans(p, w, r);
      OneWithFqn(p, w, r);
      assert MayWrite(p, w, r) <==> forall q :: q != r ==> !HasKeyOf(p, w, q);
      forall t | MayWrite(p, w, t)
        ensures t == r
      {
        FitsMeans(p, w, t);
      }
    } else if q :| HasKeyOf(p, w, q) {
      FitsMeans(p, w, q);
      OneWithKey(p, w, q);
      assert MayWrite(p, w, q);
    } else {
      FitsMeans(p, w, w.db.nextNode);
      assert MayWrite(p, w, w.db.nextNode);
    }
  }

  lemma OneWithFqn(p: Plan, w: Writing, r: Id)
    requires |w.ids| < |p.syms| && UniqueNodes(w.db.nodes) && HasFqnOf(p, w, r)
    ensures forall k :: HasFqnOf(p, w, k) ==> k == r
  {
    assert Fits(w.db.nodes, r, w.db.nodes[r]);
  }

  lemma OneWithKey(p: Plan, w: Writing, q: Id)
    requires |w.ids| < |p.syms| && UniqueNodes(w.db.nodes) && HasKeyOf(p, w, q)
    ensures forall k :: HasKeyOf(p, w, k) ==> k == q
  {
    assert Fits(w.db.nodes, q, w.db.nodes[q]);
  }

  /** The symbol whose turn is the `k`-th is blocked when it comes. */
  ghost predicate BlockedAt(p: Plan, db: Db, k: nat) {
    && k < |p.syms| == |p.matched| && Replay3(p, db, k).Some? && |Replay3(p, db, k).value.ids| == k
    && TurnBlocked(p, db, Replay3(p, db, k).value.ids)
  }

  lemma TurnFailsExactly(p: Plan, db: Db, k: nat)
    requires OnTrack(p, db) && k < |p.syms|
    ensures BlockedAt(p, db, k) ==> StopsAt(WriteStep(p), Writing(ParkedDb(p, db), []), k)
    ensures ParentsFirst(p.syms) && StopsAt(WriteStep(p), Writing(ParkedDb(p, db), []), k) ==> BlockedAt(p, db, k)
  {
    if Replay3(p, db, k).Some? {
      Replay3Means(p, db, k);
      Replay3KeepsIntegrity(p, db, k);
      WriteRefusedExactly(p, db, Replay3(p, db, k).value);
    }
  }

  lemma Replay3FailsExactly(p: Plan, db: Db)
    requires OnTrack(p, db) && ParentsFirst(p.syms)
    ensures Replay3(p, db, |p.syms|).None? <==> exists k: nat :: BlockedAt(p, db, k)
  {
    FoldStops(WriteStep(p), Writing(ParkedDb(p, db), []), |p.syms|);
    forall k: nat | k < |p.syms|
      ensures StopsAt(WriteStep(p), Writing(ParkedDb(p, db), []), k) <==> BlockedAt(p, db, k)
    {
      TurnFailsExactly(p, db, k);
    }
    if k: nat :| BlockedAt(p, db, k) {
      BlockedStopsIt(p, db, k);
    }
  }

  /** A blocked symbol stops the transaction. */
  lemma BlockedStopsIt(p: Plan, db: Db, k: nat)
    requires OnTrack(p, db) && BlockedAt(p, db, k)
    ensures Replay3(p, db, |p.syms|).None? && Replay(p, db).None?
  {
    TurnFailsExactly(p, db, k);
    FoldStops(WriteStep(p), Writing(ParkedDb(p, db), []), |p.syms|);
  }

  /** Row `j`, unclaimed, would be put back where a symbol stands. */
  ghost predicate CollidesStanding(p: Plan, ids: seq<Id>, j: nat)
    requires |ids| == |p.syms|
  {
    j < |p.olds| && exists i :: 0 <= i < |ids| && Standing(ids, i) && CollidesAt(p, j, i)
  }

  ghost predicate StandingCollision(p: Plan, ids: seq<Id>)
    requires |ids| == |p.syms|
  {
    exists j: nat :: CollidesStanding(p, ids, j)
  }

  lemma SweepRefusedExactly(p: Plan, db: Db, ids: seq<Id>, k: nat, now: Db)
    requires OnTrack(p, db) && RealLines(db.nodes) && k < |p.olds| && |p.syms| == |ids| && Pass4(p, db, ids, k, now)
    ensures SweepNext(p, k, now).None? <==> CollidesStanding(p, ids, k)
  {
    if OldFateOf(p, k) == Orphaned {
      DeletedStep(p, k);
      FirstStrike(p, db, ids, k, now);
      assert p.olds[k].id !in DeletedIds(p, k);
      StrikeFits(p, db, ids, now.nextNode, k, DeletedIds(p, k), now.nodes);
    }
  }

  lemma Replay4FailsExactly(p: Plan, db: Db, ids: seq<Id>, start: Db)
    requires OnTrack(p, db) && RealLines(db.nodes) && |p.syms| == |ids| && Pass4(p, db, ids, 0, start)
    ensures Replay4(p, start, |p.olds|).None? <==> StandingCollision(p, ids)
  {
    FoldStops(SweepStep(p), start, |p.olds|);
    forall k: nat | k < |p.olds|
      ensures StopsAt(SweepStep(p), start, k) ==> CollidesStanding(p, ids, k)
      ensures CollidesStanding(p, ids, k) ==> Replay4(p, start, |p.olds|).None?
    {
      StrikeTurn(p, db, ids, start, k);
    }
  }

  lemma StrikeTurn(p: Plan, db: Db, ids: seq<Id>, start: Db, k: nat)
    requires OnTrack(p, db) && RealLines(db.nodes) && |p.syms| == |ids| && Pass4(p, db, ids, 0, start) && k < |p.olds|
    ensures StopsAt(SweepStep(p), start, k) ==> CollidesStanding(p, ids, k)
    ensures CollidesStanding(p, ids, k) ==> Replay4(p, start, |p.olds|).None?
  {
    FoldMonotone(SweepStep(p), start, k + 1, |p.olds|);
    if Replay4(p, start, k).Some? {
      Replay4Means(p, db, ids, start, k);
      SweepRefusedExactly(p, db, ids, k, Replay4(p, start, k).value);
    }
  }

  ghost predicate StandingCollisionAfter(p: Plan, db: Db) {
    && Replay3(p, db, |p.syms|).Some? && |Replay3(p, db, |p.syms|).value.ids| == |p.syms|
    && StandingCollision(p, Replay3(p, db, |p.syms|).value.ids)
  }

  lemma StepHasParent(p: Plan, i: nat, w: Writing)
    requires i < |p.syms| && WriteStep(p)(i, w).Some? && p.syms[i].parent.Some?
    ensures p.syms[i].parent.value < i
  {
    assert |w.ids| == i && WriteNext(p, w).Some? && ParentReady(p, w);
  }

  lemma WrittenMeansParentsFirst(p: Plan, start: Writing)
    requires Fold(WriteStep(p), start, |p.syms|).Some?
    ensures ParentsFirst(p.syms)
  {
    forall i | 0 <= i < |p.syms| && p.syms[i].parent.Some?
      ensures p.syms[i].parent.value < i
    {
      FoldMonotone(WriteStep(p), start, i + 1, |p.syms|);
      StepHasParent(p, i, Fold(WriteStep(p), start, i).value);
    }
  }

  /** A parent is listed after its child, some symbol is blocked when its turn comes, or an unclaimed row would
      be put back where a symbol stands. */
  ghost predicate Stopped(p: Plan, db: Db) {
    !ParentsFirst(p.syms) || (exists k: nat :: BlockedAt(p, db, k)) || StandingCollisionAfter(p, db)
  }

  /** Whatever the list, this is exactly when the transaction fails. */
  lemma StoppedExactly(p: Plan, db: Db)
    requires OnTrack(p, db) && RealLines(db.nodes)
    ensures Replay(p, db).None? <==> Stopped(p, db)
  {
    if Replay3(p, db, |p.syms|).Some? {
      WrittenMeansParentsFirst(p, Writing(ParkedDb(p, db), []));
    }
    if ParentsFirst(p.syms) {
      OrderedStoppedExactly(p, db);
    }
  }

  lemma OrderedStoppedExactly(p: Plan, db: Db)
    requires OnTrack(p, db) && RealLines(db.nodes) && ParentsFirst(p.syms)
    ensures Replay(p, db).None? <==> (exists k: nat :: BlockedAt(p, db, k)) || StandingCollisionAfter(p, db)
  {
    Replay3FailsExactly(p, db);
    if Replay3(p, db, |p.syms|).Some? {
      var w := Replay3(p, db, |p.syms|).value;
      AfterPass3(p, db);
      Replay4FailsExactly(p, db, w.ids, w.db);
      if Replay4(p, w.db, |p.olds|).Some? {
        AfterPass4(p, db, w);
      }
    }
  }

  // ----- who stands where -----

  predicate DistinctPlaces(syms: seq<ReconcileSymbol>) {
    forall a, b :: 0 <= a < b < |syms| ==> SymKey("", syms[a]) != SymKey("", syms[b])
  }

  predicate DistinctSymFqns(syms: seq<ReconcileSymbol>) {
    forall a, b :: 0 <= a < b < |syms| ==> syms[a].fqn != syms[b].fqn
  }

  /** Whoever stands on symbol `a`'s row shares with it what all rivals in the list share. */
  lemma {:induction false} RivalStillStands(p: Plan, db: Db, ids: seq<Id>, next: Id, a: nat) returns (i: nat)
    requires IdsAssigned(p, db, ids, next) && a < |ids|
    ensures i < |ids| && ids[i] == ids[a] && Standing(ids, i)
    ensures DistinctPlaces(p.syms) ==> p.syms[i].fqn == p.syms[a].fqn
    ensures DistinctSymFqns(p.syms) ==> SymKey("", p.syms[i]) == SymKey("", p.syms[a])
    decreases |ids| - a
  {
    if Standing(ids, a) {
      i := a;
    } else {
      var b := NextWriter(ids, a, |ids|);
      assert Placed(p, db, ids, b, next);
      assert Repeats(ids, b);
      var c :| 0 <= c < b && ids[c] == ids[b] && StandingAt(ids, c, b) && Alike(p.syms[c], p.syms[b]);
      assert c == a;
      i := RivalStillStands(p, db, ids, next, b);
    }
  }

  lemma {:induction false} NextWriter(ids: seq<Id>, a: nat, n: nat) returns (b: nat)
    requires a < n <= |ids| && !StandingAt(ids, a, n)
    ensures a < b < n && ids[b] == ids[a] && StandingAt(ids, a, b)
  {
    var m :| a < m < n && ids[m] == ids[a];
    if StandingAt(ids, a, m) {
      b := m;
    } else {
      b := NextWriter(ids, a, m);
    }
  }

  // ----- what holds of every committed transaction, whatever the lines -----

  /** After `k` symbols: rows written are live, the others are the parked ones, and claimed rows are written. */
  ghost predicate RowsInPass3(p: Plan, db: Db, k: nat, w: Writing) {
    && |w.ids| == k <= |p.syms| == |p.matched|
    && (forall id :: id in db.nodes ==> id in w.db.nodes)
    && (forall id :: id in w.db.nodes && id in w.ids ==> !w.db.nodes[id].orphan)
    && (forall id :: id in w.db.nodes && id !in w.ids ==>
                       && id in db.nodes && w.db.nodes[id].uri == db.nodes[id].uri
                       && w.db.nodes[id].orphan == db.nodes[id].orphan)
    && (forall i :: 0 <= i < k && Matched(p, i) ==> p.olds[p.matched[i].value].id in w.ids)
  }

  lemma RowsInPass3Step(p: Plan, db: Db, w: Writing)
    requires |w.ids| < |p.syms| && RowsInPass3(p, db, |w.ids|, w)
    ensures WriteNext(p, w).Some? ==> RowsInPass3(p, db, |w.ids| + 1, WriteNext(p, w).value)
  {
    if WriteNext(p, w).Some? {
      var t :| MayWrite(p, w, t) && WriteNext(p, w) == Some(Wrote(p, w, t));
      var w' := Wrote(p, w, t);
      assert forall id :: id in w'.ids <==> id in w.ids || id == t;
      assert forall i :: 0 <= i < |w.ids| && Matched(p, i) ==> p.olds[p.matched[i].value].id in w'.ids;
    }
  }

  /** Only unclaimed orphans of the file are gone, and its orphans are unclaimed. */
  ghost predicate RowsAfterPass3(p: Plan, db: Db, now: Db) {
    && (forall id :: id in db.nodes && id !in now.nodes ==>
                       db.nodes[id].uri == p.uri && db.nodes[id].orphan && Unclaimed(p, id))
    && (forall id :: id in now.nodes && now.nodes[id].uri == p.uri && now.nodes[id].orphan ==> Unclaimed(p, id))
  }

  lemma RowsEnterPass4(p: Plan, db: Db, w: Writing)
    requires Planned(p, db) && RowsInPass3(p, db, |p.syms|, w)
    ensures RowsAfterPass3(p, db, w.db)
  {
    forall id | id in w.db.nodes && w.db.nodes[id].uri == p.uri && w.db.nodes[id].orphan
      ensures Unclaimed(p, id)
    {
      var j :| 0 <= j < |p.olds| && p.olds[j].id == id;
      if i :| Pairs(p.matched, i, j) {
        assert Matched(p, i);
      }
      assert !OldTaken(p.matched, j);
    }
  }

  lemma RowsInPass4Step(p: Plan, db: Db, k: nat, now: Db)
    requires Planned(p, db) && k < |p.olds| && RowsAfterPass3(p, db, now)
    ensures SweepNext(p, k, now).Some? ==> RowsAfterPass3(p, db, SweepNext(p, k, now).value)
  {
    if OldFateOf(p, k) != Claimed {
      assert Unclaimed(p, p.olds[k].id);
    }
  }

  lemma LinkKeepsNodes(p: Plan, ids: seq<Id>, k: nat, now: Db)
    requires k < |p.syms| == |ids|
    ensures LinkNext(p, ids, k, now).Some? ==> LinkNext(p, ids, k, now).value.nodes == now.nodes
  {
  }

  lemma Replay5KeepsNodes(p: Plan, ids: seq<Id>, db: Db)
    requires |p.syms| == |ids| && Replay5(p, ids, db, |p.syms|).Some?
    ensures Replay5(p, ids, db, |p.syms|).value.nodes == db.nodes
  {
    var inv := (k: nat, now: Db) => now.nodes == db.nodes;
    forall k: nat, now | k < |p.syms| && inv(k, now) && LinkStepOf(p, ids)(k, now).Some?
      ensures inv(k + 1, LinkStepOf(p, ids)(k, now).value)
    {
      LinkKeepsNodes(p, ids, k, now);
    }
    FoldKeeps(LinkStepOf(p, ids), db, |p.syms|, inv, |p.syms|);
  }

  /** Whatever the list, a committed transaction deletes only unclaimed orphans of its own file, and the
      orphans it leaves in the file are rows it left unclaimed. */
  lemma CommitOnRows(p: Plan, db: Db)
    requires Planned(p, db) && Replay(p, db).Some?
    ensures RowsAfterPass3(p, db, Replay(p, db).value.db)
  {
    RowsThroughPass3(p, db);
    var w := Replay3(p, db, |p.syms|).value;
    RowsThroughPass4(p, db, w.db);
    Replay5KeepsNodes(p, w.ids, Replay4(p, w.db, |p.olds|).value);
  }

  lemma RowsThroughPass3(p: Plan, db: Db)
    requires Planned(p, db) && Replay3(p, db, |p.syms|).Some?
    ensures RowsAfterPass3(p, db, Replay3(p, db, |p.syms|).value.db) && |Replay3(p, db, |p.syms|).value.ids| == |p.syms|
  {
    var inv := (k: nat, w: Writing) => RowsInPass3(p, db, k, w);
    forall k: nat, w | k < |p.syms| && inv(k, w) && WriteStep(p)(k, w).Some?
      ensures inv(k + 1, WriteStep(p)(k, w).value)
    {
      RowsInPass3Step(p, db, w);
    }
    FoldKeeps(WriteStep(p), Writing(ParkedDb(p, db), []), |p.syms|, inv, |p.syms|);
    RowsEnterPass4(p, db, Replay3(p, db, |p.syms|).value);
  }

  lemma RowsThroughPass4(p: Plan, db: Db, start: Db)
    requires Planned(p, db) && RowsAfterPass3(p, db, start) && Replay4(p, start, |p.olds|).Some?
    ensures RowsAfterPass3(p, db, Replay4(p, start, |p.olds|).value)
  {
    var inv := (k: nat, now: Db) => RowsAfterPass3(p, db, now);
    forall k: nat, now | k < |p.olds| && inv(k, now) && SweepStep(p)(k, now).Some?
      ensures inv(k + 1, SweepStep(p)(k, now).value)
    {
      RowsInPass4Step(p, db, k, now);
    }
    FoldKeeps(SweepStep(p), start, |p.olds|, inv, |p.olds|);
  }
}
