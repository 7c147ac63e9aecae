/** Ordinary edits that cannot be reconciled. */
module ReconcileFailures {
  import opened Wrappers
  import opened GraphModel
  import opened RenameMatching
  import opened ReconcileModel
  import opened ReconcileReplay
  import opened ReconcileForecast
  import opened ReconcileConvergence

  // ----- an in-place rename of a container -----

  /** A row that lost its container to an in-place rename: nobody claims it, and a symbol
      with the same name now stands on its place. Such a reconcile always fails. */
  lemma MovedContainerCollides(fp: Fingerprint, p: Plan, db: Db, j: nat, i: nat)
    requires PlanOn(fp, p, db)
    requires j < |p.olds| && i < |p.syms|
    requires !p.olds[j].node.orphan && Phys(p.olds[j].node) == SymKey(p.uri, p.syms[i])
    requires forall k :: 0 <= k < |p.syms| ==>
               p.syms[k].fqn != p.olds[j].node.fqn && !Similar(p.olds[j].node, p.syms[k])
    ensures Collision(p)
  {
    if OldTaken(p.matched, j) {
      var k :| Pairs(p.matched, k, j);
      StableMatchingMeaning(fp, p.olds, p.syms, p.matched, k, j);
    }
    assert CollidesAt(p, j, i);
  }

  const CLASS_KIND := 5
  const METHOD_KIND := 6

  function ClassWithMethod(m: string, name: string, f: string, classRange: Range,
                           methodRange: Range): seq<ReconcileSymbol> {
    [ReconcileSymbol(m + "." + name, name, CLASS_KIND, "Class", classRange, classRange, None, "h", None),
     ReconcileSymbol(m + "." + name + "." + f, f, METHOD_KIND, "Method", methodRange, methodRange, None, "h", Some(0))]
  }

  lemma ClassWithMethodIsWellFormed(m: string, name: string, f: string, classRange: Range, methodRange: Range)
    requires 0 <= classRange.startLine < methodRange.startLine
    ensures WellFormedBatch(ClassWithMethod(m, name, f, classRange, methodRange))
  {
    var syms := ClassWithMethod(m, name, f, classRange, methodRange);
    assert |syms[0].fqn| < |syms[1].fqn|;
  }

  /** The smallest instance: class `m.a` with a method `f` is renamed in place to `m.b`. Nothing about
      the input is out of the ordinary, yet the file cannot be reconciled, whatever the body hash is. */
  lemma RenamedClassWithMethodFails(fp: Fingerprint, p: Plan, db: Db, m: string, a: string, b: string, f: string,
                                    classRange: Range, methodRange: Range, classRow: Node, methodRow: Node)
    requires a != b && '.' !in f && '.' !in b
    requires 0 <= classRange.startLine < methodRange.startLine
    requires Integrity(db) && RealLines(db.nodes)
    requires db.nodes == map[1 := classRow, 2 := methodRow] && !methodRow.orphan
    requires classRow.fqn == m + "." + a && classRow.uri == p.uri && classRow.kind == CLASS_KIND
    requires methodRow.fqn == m + "." + a + "." + f && methodRow.uri == p.uri && methodRow.kind == METHOD_KIND
    requires methodRow.name == f && methodRow.range == methodRange
    requires p.syms == ClassWithMethod(m, b, f, classRange, methodRange) && PlanOn(fp, p, db)
    ensures Admissible(db, p.syms) && Collision(p) && Replay(p, db).None?
  {
    ClassWithMethodIsWellFormed(m, b, f, classRange, methodRange);
    assert db.nodes[2] == methodRow;
    var j :| 0 <= j < |p.olds| && p.olds[j].id == 2;
    NoSymbolTakes(m, a, b, f, classRange, methodRange, methodRow);
    MovedContainerCollides(fp, p, db, j, 1);
    StableIsPlanned(fp, p, db);
    AdmissibleFailsExactly(p, db);
  }

  /** A table of two rows of one file, without containers. */
  function TwoRows(first: Node, second: Node): Db {
    Db(map[1 := first, 2 := second], map[], 3, 1, map[], {}, map[])
  }

  /** Such databases exist. */
  lemma TwoRowsAreSound(first: Node, second: Node)
    requires first.fqn != second.fqn && Phys(first) != Phys(second)
    requires first.containerId.None? && (second.containerId.None? || second.containerId == Some(1))
    ensures Integrity(TwoRows(first, second))
  {
    var nodes := TwoRows(first, second).nodes;
    assert nodes[1] == first && nodes[2] == second;
    forall k | k in nodes
      ensures Fits(nodes, k, nodes[k])
    {
    }
  }

  lemma NoSymbolTakes(m: string, a: string, b: string, f: string, classRange: Range, methodRange: Range, row: Node)
    requires a != b && '.' !in f && '.' !in b
    requires row.fqn == m + "." + a + "." + f && row.kind == METHOD_KIND
    ensures forall s :: s in ClassWithMethod(m, b, f, classRange, methodRange) ==> s.fqn != row.fqn && !Similar(row, s)
  {
    NotTheClass(m, a, b, f);
    NotTheMethod(m, a, b, f);
  }

  lemma NotTheMethod(m: string, a: string, b: string, f: string)
    requires a != b && '.' !in f
    ensures m + "." + a + "." + f != m + "." + b + "." + f
    ensures ContainerPrefix(m + "." + a + "." + f) != ContainerPrefix(m + "." + b + "." + f)
  {
    PrefixBeforeLeaf(m + "." + a, f);
    PrefixBeforeLeaf(m + "." + b, f);
    assert (m + "." + a)[|m| + 1..] == a && (m + "." + b)[|m| + 1..] == b;
  }

  lemma NotTheClass(m: string, a: string, b: string, f: string)
    requires '.' !in b
    ensures m + "." + a + "." + f != m + "." + b
  {
    assert (m + "." + b)[|m| + 1..] == b;
    assert (m + "." + a + "." + f)[|m| + 1..] == a + "." + f;
    assert (a + "." + f)[|a|] == '.';
  }

  // ----- overloads next to a rename -----

  const FUNCTION_KIND := 12

  function Overload(m: string, f: string, range: Range): ReconcileSymbol {
    ReconcileSymbol(m + "." + f, f, FUNCTION_KIND, "Function", range, range, None, "h", None)
  }

  /** Functions `f` and `g` are stored; `g` is turned into an overload of `f`. Row `g` is matched to the
      overload, whose UPDATE then meets the fqn that the first `f` holds: the reconcile fails, although no
      row stands in its way. */
  lemma FunctionTurnedOverloadFails(fp: Fingerprint, p: Plan, db: Db, m: string, f: string, g: string,
                                    first: Range, second: Range, fRow: Node, gRow: Node)
    requires f != g && '.' !in f && '.' !in g
    requires 0 <= first.startLine < second.startLine
    requires Integrity(db) && RealLines(db.nodes) && db.nodes == map[1 := fRow, 2 := gRow]
    requires fRow.fqn == m + "." + f && fRow.uri == p.uri
    requires gRow.fqn == m + "." + g && gRow.uri == p.uri && gRow.kind == FUNCTION_KIND && gRow.range == second
    requires p.syms == [Overload(m, f, first), Overload(m, f, second)] && PlanOn(fp, p, db)
    ensures !Collision(p) && !NameTaken(p, db) && Replay(p, db).None?
  {
    var i, j := TwoStoredRows(p, db, fRow, gRow);
    OverloadsDiffer(m, f, first, second);
    OverloadResembles(m, f, g, second, gRow);
    LeftoverOverloadFails(fp, p, db, i, j);
  }

  lemma OverloadsDiffer(m: string, f: string, first: Range, second: Range)
    requires 0 <= first.startLine < second.startLine
    ensures var syms := [Overload(m, f, first), Overload(m, f, second)];
            LinesReal(syms) && DistinctPlaces(syms) && syms[0].fqn == syms[1].fqn == m + "." + f
  {
  }

  /** Two symbols with one fqn on two rows, one with their fqn and one that resembles the second. */
  lemma LeftoverOverloadFails(fp: Fingerprint, p: Plan, db: Db, i: nat, j: nat)
    requires Integrity(db) && LinesReal(p.syms) && PlanOn(fp, p, db)
    requires forall id :: id in db.nodes ==> db.nodes[id].uri == p.uri
    requires |p.syms| == 2 && p.syms[0].fqn == p.syms[1].fqn && DistinctPlaces(p.syms)
    requires i < |p.olds| && j < |p.olds| && OnlyRows(p.olds, i, j)
    requires p.olds[i].node.fqn == p.syms[0].fqn && p.olds[j].node.fqn != p.syms[0].fqn
    requires Similar(p.olds[j].node, p.syms[1])
    ensures !Collision(p) && !NameTaken(p, db) && Replay(p, db).None?
  {
    StableIsPlanned(fp, p, db);
    OverloadTakesLeftover(fp, p, i, j);
    assert Matched(p, 1);
    ClaimedRivalStopsIt(p, db, 0, 1);
  }

  lemma TwoStoredRows(p: Plan, db: Db, first: Node, second: Node) returns (i: nat, j: nat)
    requires Enumerates(p.olds, db.nodes, p.uri) && db.nodes == map[1 := first, 2 := second]
    requires first.uri == second.uri == p.uri
    ensures i < |p.olds| && j < |p.olds| && p.olds[i].node == first && p.olds[j].node == second
    ensures OnlyRows(p.olds, i, j)
  {
    assert db.nodes[1] == first && db.nodes[2] == second;
    i :| i < |p.olds| && p.olds[i].id == 1;
    j :| j < |p.olds| && p.olds[j].id == 2;
    assert forall k :: 0 <= k < |p.olds| ==> p.olds[k].id in db.nodes;
  }

  lemma OverloadResembles(m: string, f: string, g: string, range: Range, row: Node)
    requires f != g && '.' !in f && '.' !in g
    requires row.fqn == m + "." + g && row.kind == FUNCTION_KIND && row.range == range
    ensures row.fqn != m + "." + f && Similar(row, Overload(m, f, range))
  {
    assert (m + "." + f)[|m| + 1..] == f && (m + "." + g)[|m| + 1..] == g;
    PrefixBeforeLeaf(m, f);
    PrefixBeforeLeaf(m, g);
  }

  /** A leftover row that resembles the second of two symbols with one fqn goes to it. */
  lemma OverloadTakesLeftover(fp: Fingerprint, p: Plan, i: nat, j: nat)
    requires StableMatching(fp, p.olds, p.syms, p.matched)
    requires |p.syms| == 2 && p.syms[0].fqn == p.syms[1].fqn
    requires i < |p.olds| && j < |p.olds| && OnlyRows(p.olds, i, j)
    requires p.olds[i].node.fqn == p.syms[0].fqn && p.olds[j].node.fqn != p.syms[0].fqn
    requires Similar(p.olds[j].node, p.syms[1])
    ensures Pairs(p.matched, 0, i) && Pairs(p.matched, 1, j)
  {
    OneEligiblePair(p.olds, p.syms, i, j);
    StableMatchingMeaning(fp, p.olds, p.syms, p.matched, 0, i);
    StableMatchingMeaning(fp, p.olds, p.syms, p.matched, 1, j);
  }

  lemma OneEligiblePair(olds: seq<OldRow>, syms: seq<ReconcileSymbol>, i: nat, j: nat)
    requires |syms| == 2 && syms[0].fqn == syms[1].fqn
    requires i < |olds| && j < |olds| && OnlyRows(olds, i, j)
    requires olds[i].node.fqn == syms[0].fqn && olds[j].node.fqn != syms[0].fqn
    requires Similar(olds[j].node, syms[1])
    ensures Exact(olds, syms, 0, i) && Eligible(olds, syms, 1, j)
    ensures forall i', j' :: Eligible(olds, syms, i', j') ==> i' == 1 && j' == j
  {
    assert Exact(olds, syms, 0, i);
    forall i', j' | Eligible(olds, syms, i', j')
      ensures i' == 1 && j' == j
    {
      assert !OldClaimed(olds, syms, j') && !SymClaims(olds, syms, i');
    }
  }

  ghost predicate OnlyRows(olds: seq<OldRow>, i: nat, j: nat)
    requires i < |olds| && j < |olds|
  {
    && (forall k :: 0 <= k < |olds| ==> olds[k].id == olds[i].id || olds[k].id == olds[j].id)
    && (forall a, b :: 0 <= a < |olds| && 0 <= b < |olds| && olds[a].id == olds[b].id ==> a == b)
  }
}
