/** What the content fingerprint of a symbol depends on, and so which edits make a reconcile count the symbol
    as updated and invalidate its edges. */
module Fingerprints {
  import opened Wrappers
  import opened GraphModel
  import opened RenameMatching
  import opened ReconcileModel
  import opened ReconcileTheorems
  import opened ReconcileConvergence
  import opened Flattening
  import opened DocumentBatches

  /** The hash behind the fingerprint, over everything that is fed to it. */
  type Hash = (string, nat, Option<string>, Range, Range) -> string

  function SignatureFingerprint(hash: Hash, row: FlatSymbol): string {
    hash(row.name, row.kind, row.detail, row.range, row.sel)
  }

  ghost predicate CollisionFree(hash: Hash) {
    forall n, k, d, r, s, n', k', d', r', s' ::
      hash(n, k, d, r, s) == hash(n', k', d', r', s') ==> n == n' && k == k' && d == d' && r == r' && s == s'
  }

  /** The same range, `lines` lines further down. */
  function Down(r: LspRange, lines: nat): LspRange {
    Range(r.startLine + lines, r.startCol, r.endLine + lines, r.endCol)
  }

  function Shifted(row: FlatSymbol, lines: nat): FlatSymbol {
    row.(range := Down(row.range, lines), sel := Down(row.sel, lines))
  }

  /** Exactly: moving a symbol down keeps its fingerprint only if it does not move. */
  lemma ShiftKeepsFingerprintExactly(hash: Hash, row: FlatSymbol, lines: nat)
    requires CollisionFree(hash)
    ensures SignatureFingerprint(hash, Shifted(row, lines)) == SignatureFingerprint(hash, row) <==> lines == 0
  {
    if lines == 0 {
      assert Down(row.range, 0) == row.range && Down(row.sel, 0) == row.sel;
    } else {
      assert Shifted(row, lines).range != row.range;
    }
  }

  predicate SameContent(a: FlatSymbol, b: FlatSymbol) {
    a.name == b.name && a.kind == b.kind && a.detail == b.detail && a.range == b.range && a.sel == b.sel
  }

  /** A file was committed with `before` in place `a`; now `after`, with the same fqn, comes in place `b`. The reconcile
      counts it as unchanged exactly if name, kind, detail and both ranges are the same, and otherwise as
      updated, with its edges invalidated. */
  lemma UnchangedExactly(fp: Fingerprint, hash: Hash, labels: Labels, p1: Plan, p2: Plan, db0: Db, db1: Db,
                         a: nat, b: nat, before: FlatSymbol, after: FlatSymbol)
    requires CollisionFree(hash) && (forall row :: labels.fingerprint(row) == SignatureFingerprint(hash, row))
    requires Sound(p1, db0) && Commits(fp, p1, db0, db1) && NoRivals(p1.syms)
    requires p2.uri == p1.uri && PlanOn(fp, p2, db1)
    requires a < |p1.syms| && p1.syms[a] == ToReconcile(labels, before)
    requires b < |p2.syms| && p2.syms[b] == ToReconcile(labels, after) && before.fqn == after.fqn
    requires forall i :: 0 <= i < b ==> p2.syms[i].fqn != p2.syms[b].fqn
    ensures Matched(p2, b)
    ensures FateOf(p2, b) == if SameContent(before, after) then Unchanged else Updated
    ensures FateOf(p2, b) == Updated ==> p2.olds[p2.matched[b].value].id in Dirty(p2)
  {
    var ids := CommitMeans(fp, p1, db0, db1);
    StableIsPlanned(fp, p2, db1);
    assert Standing(ids, a) && Shows(db1, p1.uri, p1.syms, ids, a);
    assert db1.nodes[ids[a]].uri == p2.uri;
    var j :| 0 <= j < |p2.olds| && p2.olds[j].id == ids[a];
    assert Exact(p2.olds, p2.syms, b, j);
    assert SignatureFingerprint(hash, before) == SignatureFingerprint(hash, after) <==> SameContent(before, after);
  }

  /** So a line inserted above a symbol, which leaves the symbol as it is, makes it count as updated. */
  lemma InsertedLineUpdates(fp: Fingerprint, hash: Hash, labels: Labels, p1: Plan, p2: Plan, db0: Db, db1: Db,
                            a: nat, b: nat, row: FlatSymbol, lines: nat)
    requires CollisionFree(hash) && (forall row :: labels.fingerprint(row) == SignatureFingerprint(hash, row))
    requires Sound(p1, db0) && Commits(fp, p1, db0, db1) && NoRivals(p1.syms)
    requires p2.uri == p1.uri && PlanOn(fp, p2, db1) && lines > 0
    requires a < |p1.syms| && p1.syms[a] == ToReconcile(labels, row)
    requires b < |p2.syms| && p2.syms[b] == ToReconcile(labels, Shifted(row, lines))
    requires forall i :: 0 <= i < b ==> p2.syms[i].fqn != p2.syms[b].fqn
    ensures FateOf(p2, b) == Updated && p2.olds[p2.matched[b].value].id in Dirty(p2)
  {
    assert Shifted(row, lines).range != row.range;
    UnchangedExactly(fp, hash, labels, p1, p2, db0, db1, a, b, row, Shifted(row, lines));
  }

  ghost predicate BodyCollisionFree(fp: Fingerprint) {
    forall k, d, r, s, k', d', r', s' ::
      fp(k, d, r, s) == fp(k', d', r', s') ==> k == k' && d == d' && r == r' && s == s'
  }

  /** Rename matching hashes the same ranges: a pair is confident exactly if kind, detail and both ranges agree, so
      only symbols renamed in place ever are. */
  lemma ConfidentExactly(fp: Fingerprint, o: Node, s: ReconcileSymbol)
    requires BodyCollisionFree(fp)
    ensures Confident(fp, o, s) <==> o.kind == s.kind && o.detail == s.detail && o.range == s.range && o.sel == s.sel
    ensures Confident(fp, o, s) ==> Drift(o, s) == 0
  {
  }
}
