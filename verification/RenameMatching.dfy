/** Passes 1 and 2 of reconciliation: pair incoming symbols with stored rows,
    first by exact fqn, then greedily by rename rank. */
module RenameMatching {
  import opened Wrappers
  import opened GraphModel

  const RENAME_MAX_LINE_DRIFT: int := 3

  datatype OldRow = OldRow(id: Id, node: Node)

  /** The body hash of the source is left uninterpreted. */
  type Fingerprint = (int, Option<string>, Range, Range) -> int

  type Assignment = seq<Option<nat>>

  /** `a.b.C.method` -> `a.b.C`; everything before the last dot. */
  function ContainerPrefix(fqn: string): (prefix: string)
    ensures '.' in fqn ==> prefix + "." <= fqn && '.' !in fqn[|prefix| + 1..]
    ensures '.' !in fqn ==> prefix == ""
  {
    if fqn == "" then ""
    else if fqn[|fqn| - 1] == '.' then
      assert fqn == fqn[..|fqn| - 1] + ".";
      fqn[..|fqn| - 1]
    else
      assert fqn == fqn[..|fqn| - 1] + [fqn[|fqn| - 1]];
      ContainerPrefix(fqn[..|fqn| - 1])
  }

  lemma PrefixSkips(fqn: string)
    requires fqn != "" && fqn[|fqn| - 1] != '.'
    ensures ContainerPrefix(fqn) == ContainerPrefix(fqn[..|fqn| - 1])
  {
  }

  lemma PrefixStops(prefix: string)
    ensures ContainerPrefix(prefix + ".") == prefix
  {
    assert (prefix + ".")[..|prefix|] == prefix;
  }

  lemma {:induction false} PrefixBeforeLeaf(prefix: string, leaf: string)
    requires '.' !in leaf
    ensures ContainerPrefix(prefix + "." + leaf) == prefix
  {
    var fqn := prefix + "." + leaf;
    if leaf == "" {
      assert fqn == prefix + ".";
      PrefixStops(prefix);
    } else {
      var init := leaf[..|leaf| - 1];
      assert fqn[..|fqn| - 1] == prefix + "." + init;
      PrefixSkips(fqn);
      PrefixBeforeLeaf(prefix, init);
    }
  }

  function Drift(o: Node, s: ReconcileSymbol): nat {
    var d := o.range.startLine - s.range.startLine;
    if d < 0 then -d else d
  }

  predicate Similar(o: Node, s: ReconcileSymbol) {
    && o.kind == s.kind
    && ContainerPrefix(o.fqn) == ContainerPrefix(s.fqn)
    && Drift(o, s) <= RENAME_MAX_LINE_DRIFT
  }

  /** Tier 1 ("confident") in the source: the body hashes agree. */
  predicate Confident(fp: Fingerprint, o: Node, s: ReconcileSymbol) {
    fp(o.kind, o.detail, o.range, o.sel) == fp(s.kind, s.detail, s.range, s.sel)
  }

  datatype Candidate = Candidate(confident: bool, drift: nat, oldIdx: nat, symIdx: nat)

  /** The comparator handed to the (stable) sort: best tier, least drift, earliest row. */
  predicate SortsBefore(a: Candidate, b: Candidate) {
    || (a.confident && !b.confident)
    || (a.confident == b.confident && (a.drift < b.drift || (a.drift == b.drift && a.oldIdx < b.oldIdx)))
  }

  /** The order a stable sort produces: ties go to the earlier symbol. */
  predicate Before(a: Candidate, b: Candidate) {
    || SortsBefore(a, b)
    || (a.confident == b.confident && a.drift == b.drift && a.oldIdx == b.oldIdx && a.symIdx < b.symIdx)
  }

  // ----- what the two passes must achieve -----

  ghost predicate DistinctFqns(olds: seq<OldRow>) {
    forall a, b :: 0 <= a < |olds| && 0 <= b < |olds| && olds[a].node.fqn == olds[b].node.fqn ==> a == b
  }

  /** Symbol `i` is the first to carry row `j`'s fqn. */
  ghost predicate Exact(olds: seq<OldRow>, syms: seq<ReconcileSymbol>, i: int, j: int) {
    && 0 <= i < |syms| && 0 <= j < |olds|
    && olds[j].node.fqn == syms[i].fqn
    && (forall i' :: 0 <= i' < i ==> syms[i'].fqn != syms[i].fqn)
  }

  ghost predicate SymClaims(olds: seq<OldRow>, syms: seq<ReconcileSymbol>, i: int) {
    exists j :: Exact(olds, syms, i, j)
  }

  ghost predicate OldClaimed(olds: seq<OldRow>, syms: seq<ReconcileSymbol>, j: int) {
    exists i :: Exact(olds, syms, i, j)
  }

  /** Neither side takes part in an exact match, and they have the same kind and container and start at most three
      lines apart. */
  ghost predicate Eligible(olds: seq<OldRow>, syms: seq<ReconcileSymbol>, i: int, j: int) {
    && 0 <= i < |syms| && 0 <= j < |olds|
    && !SymClaims(olds, syms, i) && !OldClaimed(olds, syms, j)
    && olds[j].node.kind == syms[i].kind
    && ContainerPrefix(olds[j].node.fqn) == ContainerPrefix(syms[i].fqn)
    && -3 <= olds[j].node.range.startLine - syms[i].range.startLine <= 3
  }

  function Rank(fp: Fingerprint, olds: seq<OldRow>, syms: seq<ReconcileSymbol>, i: nat, j: nat): Candidate
    requires i < |syms| && j < |olds|
  {
    Candidate(Confident(fp, olds[j].node, syms[i]), Drift(olds[j].node, syms[i]), j, i)
  }

  ghost function ExactPairs(olds: seq<OldRow>, syms: seq<ReconcileSymbol>): set<(nat, nat)> {
    set i, j | 0 <= i < |syms| && 0 <= j < |olds| && Exact(olds, syms, i, j) :: (i, j)
  }

  ghost function RenamePairs(fp: Fingerprint, olds: seq<OldRow>, syms: seq<ReconcileSymbol>): set<Candidate> {
    set i, j | 0 <= i < |syms| && 0 <= j < |olds| && Eligible(olds, syms, i, j) :: Rank(fp, olds, syms, i, j)
  }

  ghost predicate Pairs(matched: Assignment, i: int, j: int) {
    0 <= i < |matched| && j >= 0 && matched[i] == Some(j)
  }

  ghost predicate Injective(matched: Assignment) {
    forall i, i', j :: Pairs(matched, i, j) && Pairs(matched, i', j) ==> i == i'
  }

  predicate Rivals(a: Candidate, b: Candidate) {
    a.symIdx == b.symIdx || a.oldIdx == b.oldIdx
  }

  ghost predicate Chosen(matched: Assignment, c: Candidate) {
    Pairs(matched, c.symIdx, c.oldIdx)
  }

  /** A chosen rival of `c` ranks before it. */
  ghost predicate Blocked(candidates: set<Candidate>, matched: Assignment, c: Candidate) {
    exists d :: d in candidates && Chosen(matched, d) && Rivals(d, c) && Before(d, c)
  }

  /** Every pair is an exact claim or a chosen candidate. */
  ghost predicate Justified(exact: set<(nat, nat)>, candidates: set<Candidate>, i: nat, j: nat) {
    (i, j) in exact || exists c :: c in candidates && c.symIdx == i && c.oldIdx == j
  }

  ghost predicate Stable(exact: set<(nat, nat)>, candidates: set<Candidate>, matched: Assignment) {
    && Injective(matched)
    && (forall p :: p in exact ==> Pairs(matched, p.0, p.1))
    && (forall i, j :: Pairs(matched, i, j) ==> Justified(exact, candidates, i, j))
    && (forall c :: c in candidates ==> Chosen(matched, c) || Blocked(candidates, matched, c))
  }

  ghost predicate StableMatching(fp: Fingerprint, olds: seq<OldRow>, syms: seq<ReconcileSymbol>, matched: Assignment) {
    && |matched| == |syms|
    && Stable(ExactPairs(olds, syms), RenamePairs(fp, olds, syms), matched)
  }

  /** The clauses pin the assignment down: there is only one stable matching. */
  lemma StableMatchingIsUnique(fp: Fingerprint, olds: seq<OldRow>, syms: seq<ReconcileSymbol>,
                               a: Assignment, b: Assignment)
    requires StableMatching(fp, olds, syms, a) && StableMatching(fp, olds, syms, b)
    ensures a == b
  {
    forall i | 0 <= i < |syms|
      ensures a[i] == b[i]
    {
      if a[i].Some? { SharedPair(ExactPairs(olds, syms), RenamePairs(fp, olds, syms), a, b, i, a[i].value); }
      if b[i].Some? { SharedPair(ExactPairs(olds, syms), RenamePairs(fp, olds, syms), b, a, i, b[i].value); }
    }
  }

  lemma SharedPair(exact: set<(nat, nat)>, candidates: set<Candidate>, a: Assignment, b: Assignment, i: nat, j: nat)
    requires Stable(exact, candidates, a) && Stable(exact, candidates, b)
    requires Pairs(a, i, j)
    ensures Pairs(b, i, j)
  {
    if (i, j) !in exact {
      var c :| c in candidates && c.symIdx == i && c.oldIdx == j;
      SharedCandidate(exact, candidates, a, b, c);
    }
  }

  lemma {:induction false} SharedCandidate(exact: set<(nat, nat)>, candidates: set<Candidate>,
                                           a: Assignment, b: Assignment, c: Candidate)
    requires Stable(exact, candidates, a) && Stable(exact, candidates, b)
    requires c in candidates && Chosen(a, c)
    ensures Chosen(b, c)
    decreases if c.confident then 0 else 1, c.drift, c.oldIdx, c.symIdx
  {
    if !Chosen(b, c) {
      var d :| d in candidates && Chosen(b, d) && Rivals(d, c) && Before(d, c);
      SharedCandidate(exact, candidates, b, a, d);
    }
  }

  /** Body hash of a stored row, and of a symbol. */
  ghost predicate SameBody(fp: Fingerprint, olds: seq<OldRow>, syms: seq<ReconcileSymbol>, i: int, j: int)
    requires 0 <= i < |syms| && 0 <= j < |olds|
  {
    var o, s := olds[j].node, syms[i];
    fp(o.kind, o.detail, o.range, o.sel) == fp(s.kind, s.detail, s.range, s.sel)
  }

  /** Lines between a row and a symbol. */
  ghost function LinesApart(olds: seq<OldRow>, syms: seq<ReconcileSymbol>, i: int, j: int): (n: nat)
    requires 0 <= i < |syms| && 0 <= j < |olds|
  {
    var d := olds[j].node.range.startLine - syms[i].range.startLine;
    if d >= 0 then d else -d
  }

  /** The pair (i', j') is the better one: only its bodies agree; or else it is nearer; or else its row, and then its
      symbol, comes first. */
  ghost predicate Better(fp: Fingerprint, olds: seq<OldRow>, syms: seq<ReconcileSymbol>, i': int, j': int,
                         i: int, j: int)
    requires 0 <= i < |syms| && 0 <= j < |olds| && 0 <= i' < |syms| && 0 <= j' < |olds|
  {
    var same', same := SameBody(fp, olds, syms, i', j'), SameBody(fp, olds, syms, i, j);
    var apart', apart := LinesApart(olds, syms, i', j'), LinesApart(olds, syms, i, j);
    || (same' && !same)
    || (same' == same && apart' < apart)
    || (same' == same && apart' == apart && j' < j)
    || (same' == same && apart' == apart && j' == j && i' < i)
  }

  /** The order of the sort, read back. */
  lemma BeforeIsBetter(fp: Fingerprint, olds: seq<OldRow>, syms: seq<ReconcileSymbol>, i': nat, j': nat, i: nat, j: nat)
    requires i < |syms| && j < |olds| && i' < |syms| && j' < |olds|
    ensures Before(Rank(fp, olds, syms, i', j'), Rank(fp, olds, syms, i, j)) <==> Better(fp, olds, syms, i', j', i, j)
  {
  }

  /** Read back in terms of symbols and rows: the pairs are exactly the first-come fqn
      matches plus eligible pairs, and an eligible pair that is not taken loses a side
      to a taken pair that is better. */
  lemma StableMatchingMeaning(fp: Fingerprint, olds: seq<OldRow>, syms: seq<ReconcileSymbol>,
                              matched: Assignment, i: nat, j: nat)
    requires StableMatching(fp, olds, syms, matched)
    ensures Exact(olds, syms, i, j) ==> Pairs(matched, i, j)
    ensures Pairs(matched, i, j) ==> Exact(olds, syms, i, j) || Eligible(olds, syms, i, j)
    ensures Eligible(olds, syms, i, j) && !Pairs(matched, i, j) ==>
              exists i', j' :: && Pairs(matched, i', j') && Eligible(olds, syms, i', j')
                               && (i' == i || j' == j) && Better(fp, olds, syms, i', j', i, j)
  {
    if Exact(olds, syms, i, j) { assert (i, j) in ExactPairs(olds, syms); }
    if Pairs(matched, i, j) { assert Justified(ExactPairs(olds, syms), RenamePairs(fp, olds, syms), i, j); }
    if Eligible(olds, syms, i, j) && !Pairs(matched, i, j) {
      var i', j' := LosesToBetter(fp, olds, syms, matched, i, j);
    }
  }

  lemma LosesToBetter(fp: Fingerprint, olds: seq<OldRow>, syms: seq<ReconcileSymbol>, matched: Assignment,
                      i: nat, j: nat) returns (i': nat, j': nat)
    requires StableMatching(fp, olds, syms, matched) && Eligible(olds, syms, i, j) && !Pairs(matched, i, j)
    ensures Pairs(matched, i', j') && Eligible(olds, syms, i', j') && (i' == i || j' == j)
    ensures Better(fp, olds, syms, i', j', i, j)
  {
    var c := Rank(fp, olds, syms, i, j);
    assert c in RenamePairs(fp, olds, syms);
    var d :| d in RenamePairs(fp, olds, syms) && Chosen(matched, d) && Rivals(d, c) && Before(d, c);
    i', j' := d.symIdx, d.oldIdx;
    BeforeIsBetter(fp, olds, syms, i', j', i, j);
  }

  /** No other eligible pair of that symbol or row agrees in its bodies. */
  ghost predicate NoEqualRival(fp: Fingerprint, olds: seq<OldRow>, syms: seq<ReconcileSymbol>, i: int, j: int) {
    forall i', j' :: Eligible(olds, syms, i', j') && (i' == i) != (j' == j) ==> !SameBody(fp, olds, syms, i', j')
  }

  /** A pair whose bodies agree, and no rival's do, is taken, however near its rivals are. */
  lemma EqualBodiesWin(fp: Fingerprint, olds: seq<OldRow>, syms: seq<ReconcileSymbol>, matched: Assignment,
                       i: nat, j: nat)
    requires StableMatching(fp, olds, syms, matched)
    requires Eligible(olds, syms, i, j) && SameBody(fp, olds, syms, i, j) && NoEqualRival(fp, olds, syms, i, j)
    ensures matched[i] == Some(j)
  {
    StableMatchingMeaning(fp, olds, syms, matched, i, j);
  }

  lemma NothingClaimed(olds: seq<OldRow>, syms: seq<ReconcileSymbol>)
    requires forall i, j :: 0 <= i < |syms| && 0 <= j < |olds| ==> olds[j].node.fqn != syms[i].fqn
    ensures forall i :: !SymClaims(olds, syms, i)
    ensures forall j :: !OldClaimed(olds, syms, j)
  {
  }

  lemma OnlyRival(fp: Fingerprint, olds: seq<OldRow>, s: ReconcileSymbol, j: nat)
    requires |olds| == 2 && j < 2 && !SameBody(fp, olds, [s], 0, 1 - j)
    ensures NoEqualRival(fp, olds, [s], 0, j)
  {
    forall i', j' | Eligible(olds, [s], i', j') && (i' == 0) != (j' == j)
      ensures !SameBody(fp, olds, [s], i', j')
    {
      assert i' == 0 && j' == 1 - j;
    }
  }

  /** A symbol renamed in place keeps its own row beside another one that merely resembles it. */
  lemma InPlaceBeatsNear(fp: Fingerprint, olds: seq<OldRow>, s: ReconcileSymbol, j: nat, matched: Assignment)
    requires |olds| == 2 && j < 2 && Eligible(olds, [s], 0, j)
    requires SameBody(fp, olds, [s], 0, j) && !SameBody(fp, olds, [s], 0, 1 - j)
    requires StableMatching(fp, olds, [s], matched)
    ensures matched == [Some(j)]
  {
    OnlyRival(fp, olds, s, j);
    EqualBodiesWin(fp, olds, [s], matched, 0, j);
  }

  lemma LoadAndRead()
    ensures ContainerPrefix("m.load") == ContainerPrefix("m.read") && "m.load" != "m.read" && "m.save" != "m.read"
  {
    PrefixBeforeLeaf("m", "load");
    PrefixBeforeLeaf("m", "read");
    assert "m" + "." + "load" == "m.load" && "m" + "." + "read" == "m.read";
    assert "m.load"[2] != "m.read"[2] && "m.save"[2] != "m.read"[2];
  }

  lemma OwnRowIsEligible(olds: seq<OldRow>, s: ReconcileSymbol, j: nat)
    requires j < |olds| && olds[j].node.kind == s.kind && olds[j].node.range == s.range
    requires ContainerPrefix(olds[j].node.fqn) == ContainerPrefix(s.fqn)
    requires !SymClaims(olds, [s], 0) && !OldClaimed(olds, [s], j)
    ensures Eligible(olds, [s], 0, j)
  {
  }

  lemma InPlaceAmongTwo(fp: Fingerprint, olds: seq<OldRow>, s: ReconcileSymbol, j: nat, matched: Assignment)
    requires |olds| == 2 && j < 2 && olds[0].node.fqn != s.fqn && olds[1].node.fqn != s.fqn
    requires ContainerPrefix(olds[j].node.fqn) == ContainerPrefix(s.fqn)
    requires var o := olds[j].node; o.kind == s.kind && o.detail == s.detail && o.range == s.range && o.sel == s.sel
    requires !SameBody(fp, olds, [s], 0, 1 - j) && StableMatching(fp, olds, [s], matched)
    ensures matched == [Some(j)]
  {
    NothingClaimed(olds, [s]);
    OwnRowIsEligible(olds, s, j);
    InPlaceBeatsNear(fp, olds, s, j, matched);
  }

  /** `m.load` is renamed in place to `m.read`, and `m.save`, two lines below and of the same kind, is deleted: the
      symbol keeps the row of `m.load`, in whichever order the two rows are listed. */
  lemma RenamedInPlaceKeepsItsRow(fp: Fingerprint, load: OldRow, save: OldRow, read: ReconcileSymbol, olds: seq<OldRow>,
                                  matched: Assignment)
    requires load.node.fqn == "m.load" && save.node.fqn == "m.save" && read.fqn == "m.read"
    requires load.node.kind == read.kind && load.node.detail == read.detail
    requires load.node.range == read.range && load.node.sel == read.sel
    requires save.node.kind == read.kind && save.node.range.startLine == read.range.startLine + 2
    requires fp(save.node.kind, save.node.detail, save.node.range, save.node.sel) !=
             fp(read.kind, read.detail, read.range, read.sel)
    requires olds == [load, save] || olds == [save, load]
    requires StableMatching(fp, olds, [read], matched)
    ensures matched == [Some(if olds[0] == load then 0 else 1)]
  {
    LoadAndRead();
    var j := if olds[0] == load then 0 else 1;
    assert olds[j] == load && olds[1 - j] == save;
    InPlaceAmongTwo(fp, olds, read, j, matched);
  }

  // ----- pass 1 -----

  ghost predicate ClaimsBelow(olds: seq<OldRow>, syms: seq<ReconcileSymbol>, matched: Assignment, n: nat) {
    && (forall i, j :: Pairs(matched, i, j) ==> i < n && Exact(olds, syms, i, j))
    && (forall i, j :: i < n && Exact(olds, syms, i, j) ==> Pairs(matched, i, j))
  }

  ghost predicate ClaimedBelow(olds: seq<OldRow>, syms: seq<ReconcileSymbol>, j: int, n: nat) {
    exists i :: i < n && Exact(olds, syms, i, j)
  }

  method ClaimExact(olds: seq<OldRow>, syms: seq<ReconcileSymbol>)
    returns (oldUsed: seq<bool>, matched: Assignment)
    requires DistinctFqns(olds)
    ensures |oldUsed| == |olds| && |matched| == |syms|
    ensures forall i, j :: Pairs(matched, i, j) <==> Exact(olds, syms, i, j)
    ensures forall j :: 0 <= j < |olds| ==> (oldUsed[j] <==> OldClaimed(olds, syms, j))
  {
    oldUsed := seq(|olds|, _ => false);
    matched := seq(|syms|, _ => None);
    for i := 0 to |syms|
      invariant |oldUsed| == |olds| && |matched| == |syms|
      invariant ClaimsBelow(olds, syms, matched, i)
      invariant forall j :: 0 <= j < |olds| ==> (oldUsed[j] <==> ClaimedBelow(olds, syms, j, i))
    {
      var j := FirstUnusedWithFqn(olds, oldUsed, syms[i].fqn);
      ClaimStep(olds, syms, matched, i, j);
      if j < |olds| {
        matched := matched[i := Some(j)];
        oldUsed := oldUsed[j := true];
      }
    }
    forall j | 0 <= j < |olds|
      ensures oldUsed[j] <==> OldClaimed(olds, syms, j)
    {
      if OldClaimed(olds, syms, j) { assert ClaimedBelow(olds, syms, j, |syms|); }
    }
  }

  method FirstUnusedWithFqn(olds: seq<OldRow>, oldUsed: seq<bool>, fqn: string) returns (j: nat)
    requires |oldUsed| == |olds|
    ensures j <= |olds|
    ensures j < |olds| ==> !oldUsed[j] && olds[j].node.fqn == fqn
    ensures forall j' :: 0 <= j' < j ==> oldUsed[j'] || olds[j'].node.fqn != fqn
  {
    j := 0;
    while j < |olds| && !(!oldUsed[j] && olds[j].node.fqn == fqn)
      invariant 0 <= j <= |olds|
      invariant forall j' :: 0 <= j' < j ==> oldUsed[j'] || olds[j'].node.fqn != fqn
    {
      j := j + 1;
    }
  }

  /** One turn of pass 1: `j` is the first free row with symbol `i`'s fqn, or past the end. */
  lemma ClaimStep(olds: seq<OldRow>, syms: seq<ReconcileSymbol>, matched: Assignment, i: nat, j: nat)
    requires DistinctFqns(olds) && |matched| == |syms| && i < |syms| && j <= |olds|
    requires ClaimsBelow(olds, syms, matched, i)
    requires j < |olds| ==> !ClaimedBelow(olds, syms, j, i) && olds[j].node.fqn == syms[i].fqn
    requires forall j' :: 0 <= j' < j ==> ClaimedBelow(olds, syms, j', i) || olds[j'].node.fqn != syms[i].fqn
    ensures var after := if j < |olds| then matched[i := Some(j)] else matched;
            ClaimsBelow(olds, syms, after, i + 1)
    ensures forall j' :: 0 <= j' < |olds| ==>
                           (ClaimedBelow(olds, syms, j', i + 1) <==> ClaimedBelow(olds, syms, j', i) || j' == j)
  {
    var after := if j < |olds| then matched[i := Some(j)] else matched;
    if j < |olds| { FirstClaim(olds, syms, i, j); }
    forall j'
      ensures Exact(olds, syms, i, j') <==> j' == j && j < |olds|
    {
    }
    forall i', j'
      ensures Pairs(after, i', j') <==> (i' == i && j' == j && j < |olds|) || Pairs(matched, i', j')
    {
      if i' == i { assert !Pairs(matched, i', j'); }
    }
    forall j' | 0 <= j' < |olds|
      ensures ClaimedBelow(olds, syms, j', i + 1) <==> ClaimedBelow(olds, syms, j', i) || j' == j
    {
      if ClaimedBelow(olds, syms, j', i + 1) && !ClaimedBelow(olds, syms, j', i) {
        assert Exact(olds, syms, i, j');
      }
    }
  }

  lemma FirstClaim(olds: seq<OldRow>, syms: seq<ReconcileSymbol>, i: nat, j: nat)
    requires DistinctFqns(olds) && i < |syms| && j < |olds| && olds[j].node.fqn == syms[i].fqn
    requires !ClaimedBelow(olds, syms, j, i)
    ensures Exact(olds, syms, i, j)
  {
    if i' :| 0 <= i' < i && syms[i'].fqn == syms[i].fqn {
      var k := FirstWithFqn(syms, i');
      assert Exact(olds, syms, k, j);
    }
  }

  lemma {:induction false} FirstWithFqn(syms: seq<ReconcileSymbol>, i: nat) returns (k: nat)
    requires i < |syms|
    ensures k <= i && syms[k].fqn == syms[i].fqn && forall k' :: 0 <= k' < k ==> syms[k'].fqn != syms[k].fqn
  {
    k := i;
    if k' :| 0 <= k' < i && syms[k'].fqn == syms[i].fqn {
      k := FirstWithFqn(syms, k');
    }
  }

  // ----- pass 2 -----

  /** Candidates are pushed symbol by symbol, row by row. */
  ghost predicate PushedBefore(a: Candidate, b: Candidate) {
    a.symIdx < b.symIdx || (a.symIdx == b.symIdx && a.oldIdx < b.oldIdx)
  }

  ghost predicate PushOrder(cs: seq<Candidate>) {
    forall a, b :: 0 <= a < b < |cs| ==> PushedBefore(cs[a], cs[b])
  }

  ghost predicate RankOrder(cs: seq<Candidate>) {
    forall a, b :: 0 <= a < b < |cs| ==> Before(cs[a], cs[b])
  }

  /** Stable sort by `SortsBefore`. */
  function InsertStable(c: Candidate, cs: seq<Candidate>): seq<Candidate> {
    if cs == [] || !SortsBefore(cs[0], c) then [c] + cs
    else [cs[0]] + InsertStable(c, cs[1..])
  }

  function SortStable(cs: seq<Candidate>): seq<Candidate> {
    if cs == [] then [] else InsertStable(cs[0], SortStable(cs[1..]))
  }

  lemma {:induction false} InsertStableOrders(c: Candidate, cs: seq<Candidate>)
    requires RankOrder(cs) && forall x :: x in cs ==> PushedBefore(c, x)
    ensures RankOrder(InsertStable(c, cs))
    ensures forall x :: x in InsertStable(c, cs) <==> x == c || x in cs
  {
    if cs == [] || !SortsBefore(cs[0], c) {
      if cs != [] {
        assert cs[0] in cs;
        assert Before(c, cs[0]);
      }
    } else {
      InsertStableOrders(c, cs[1..]);
      var rest := InsertStable(c, cs[1..]);
      forall b | 0 <= b < |rest|
        ensures Before(cs[0], rest[b])
      {
        assert rest[b] in rest;
      }
    }
  }

  lemma {:induction false} SortStableOrders(cs: seq<Candidate>)
    requires PushOrder(cs)
    ensures RankOrder(SortStable(cs))
    ensures forall x :: x in SortStable(cs) <==> x in cs
  {
    if cs != [] {
      SortStableOrders(cs[1..]);
      InsertStableOrders(cs[0], SortStable(cs[1..]));
    }
  }

  /** The pairs pass 2 considers: both sides free and similar. */
  ghost predicate OffersExactly(fp: Fingerprint, olds: seq<OldRow>, syms: seq<ReconcileSymbol>,
                                oldUsed: seq<bool>, matched: Assignment, candidates: set<Candidate>)
    requires |oldUsed| == |olds| && |matched| == |syms|
  {
    && (forall c :: c in candidates ==>
        c.symIdx < |syms| && c.oldIdx < |olds| && c == Rank(fp, olds, syms, c.symIdx, c.oldIdx))
    && (forall i, j :: 0 <= i < |syms| && 0 <= j < |olds| ==>
                         (Rank(fp, olds, syms, i, j) in candidates <==>
                          matched[i].None? && !oldUsed[j] && Similar(olds[j].node, syms[i])))
  }

  method RenameCandidates(fp: Fingerprint, olds: seq<OldRow>, syms: seq<ReconcileSymbol>,
                          oldUsed: seq<bool>, matched: Assignment, ghost candidates: set<Candidate>)
    returns (cs: seq<Candidate>)
    requires |oldUsed| == |olds| && |matched| == |syms|
    requires OffersExactly(fp, olds, syms, oldUsed, matched, candidates)
    ensures PushOrder(cs)
    ensures forall c :: c in cs <==> c in candidates
  {
    cs := [];
    for i := 0 to |syms|
      invariant PushOrder(cs)
      invariant forall c :: c in cs <==> c in candidates && c.symIdx < i
    {
      if matched[i].None? {
        for j := 0 to |olds|
          invariant PushOrder(cs)
          invariant forall c :: c in cs <==> c in candidates && (c.symIdx < i || (c.symIdx == i && c.oldIdx < j))
        {
          var c := Rank(fp, olds, syms, i, j);
          if !oldUsed[j] && Similar(olds[j].node, syms[i]) {
            assert forall d :: d in cs ==> PushedBefore(d, c);
            cs := cs + [c];
          }
        }
      }
    }
  }

  lemma PassOneLeavesRenamePairs(fp: Fingerprint, olds: seq<OldRow>, syms: seq<ReconcileSymbol>,
                                 oldUsed: seq<bool>, matched: Assignment)
    requires |oldUsed| == |olds| && |matched| == |syms|
    requires forall i, j :: Pairs(matched, i, j) <==> Exact(olds, syms, i, j)
    requires forall j :: 0 <= j < |olds| ==> (oldUsed[j] <==> OldClaimed(olds, syms, j))
    ensures OffersExactly(fp, olds, syms, oldUsed, matched, RenamePairs(fp, olds, syms))
  {
    forall i | 0 <= i < |syms|
      ensures matched[i].Some? <==> SymClaims(olds, syms, i)
    {
      if matched[i].Some? { assert Pairs(matched, i, matched[i].value); }
      if j :| Exact(olds, syms, i, j) { assert Pairs(matched, i, j); }
    }
    var candidates := RenamePairs(fp, olds, syms);
    forall i, j | 0 <= i < |syms| && 0 <= j < |olds|
      ensures Rank(fp, olds, syms, i, j) in candidates <==> Eligible(olds, syms, i, j)
    {
      var r := Rank(fp, olds, syms, i, j);
      assert r.symIdx == i && r.oldIdx == j;
    }
  }

  /** The greedy loop after the candidates `seen` (a rank-ordered prefix). */
  ghost predicate Greedy(exact: set<(nat, nat)>, seen: seq<Candidate>, matched: Assignment) {
    && Injective(matched)
    && (forall p :: p in exact ==> Pairs(matched, p.0, p.1))
    && (forall i, j :: Pairs(matched, i, j) ==> (i, j) in exact || SeenPair(seen, i, j))
    && (forall c :: c in seen ==> Chosen(matched, c) || BlockedBy(seen, matched, c))
  }

  ghost predicate SeenPair(seen: seq<Candidate>, i: nat, j: nat) {
    exists c :: c in seen && c.symIdx == i && c.oldIdx == j
  }

  ghost predicate BlockedBy(seen: seq<Candidate>, matched: Assignment, c: Candidate) {
    exists d :: d in seen && Chosen(matched, d) && Rivals(d, c) && Before(d, c)
  }

  ghost predicate OldTaken(matched: Assignment, j: int) {
    exists i :: Pairs(matched, i, j)
  }

  lemma GreedyTakes(exact: set<(nat, nat)>, seen: seq<Candidate>, matched: Assignment, c: Candidate)
    requires Greedy(exact, seen, matched) && c.symIdx < |matched|
    requires matched[c.symIdx].None? && !OldTaken(matched, c.oldIdx)
    ensures Greedy(exact, seen + [c], matched[c.symIdx := Some(c.oldIdx)])
    ensures forall j :: OldTaken(matched[c.symIdx := Some(c.oldIdx)], j) <==> OldTaken(matched, j) || j == c.oldIdx
  {
    var after := matched[c.symIdx := Some(c.oldIdx)];
    assert forall i, j :: Pairs(after, i, j) <==> Pairs(matched, i, j) || (i == c.symIdx && j == c.oldIdx);
    assert c in seen + [c];
    forall d | d in seen
      ensures Chosen(after, d) || BlockedBy(seen + [c], after, d)
    {
      if !Chosen(matched, d) {
        var e :| e in seen && Chosen(matched, e) && Rivals(e, d) && Before(e, d);
        assert e in seen + [c];
      }
    }
    forall i, j | Pairs(after, i, j)
      ensures (i, j) in exact || SeenPair(seen + [c], i, j)
    {
      if Pairs(matched, i, j) && (i, j) !in exact {
        var e :| e in seen && e.symIdx == i && e.oldIdx == j;
        assert e in seen + [c];
      }
    }
  }

  /** A candidate whose side is taken is blocked by the pair that took it. */
  lemma GreedySkips(exact: set<(nat, nat)>, cs: seq<Candidate>, k: nat, matched: Assignment)
    requires k < |cs| && RankOrder(cs)
    requires forall j :: (cs[k].symIdx, j) !in exact
    requires forall i :: (i, cs[k].oldIdx) !in exact
    requires Greedy(exact, cs[..k], matched) && cs[k].symIdx < |matched|
    requires matched[cs[k].symIdx].Some? || OldTaken(matched, cs[k].oldIdx)
    ensures Greedy(exact, cs[..k + 1], matched)
  {
    var c, seen, seen' := cs[k], cs[..k], cs[..k + 1];
    assert forall d :: d in seen ==> d in seen';
    assert forall d :: d in seen' <==> d in seen || d == c;
    assert exists i, j :: Pairs(matched, i, j) && (i == c.symIdx || j == c.oldIdx) by {
      if matched[c.symIdx].Some? { assert Pairs(matched, c.symIdx, matched[c.symIdx].value); }
    }
    var i, j :| Pairs(matched, i, j) && (i == c.symIdx || j == c.oldIdx);
    assert SeenPair(seen, i, j);
    var d :| d in seen && d.symIdx == i && d.oldIdx == j;
    assert Before(d, c) && Chosen(matched, d);
    assert BlockedBy(seen', matched, c);
    StillBlocked(seen, seen', matched);
    StillSeen(exact, seen, seen', matched);
  }

  lemma StillBlocked(seen: seq<Candidate>, seen': seq<Candidate>, matched: Assignment)
    requires forall d :: d in seen ==> d in seen'
    requires forall e :: e in seen ==> Chosen(matched, e) || BlockedBy(seen, matched, e)
    ensures forall e :: e in seen ==> Chosen(matched, e) || BlockedBy(seen', matched, e)
  {
    forall e | e in seen && !Chosen(matched, e)
      ensures BlockedBy(seen', matched, e)
    {
      var f :| f in seen && Chosen(matched, f) && Rivals(f, e) && Before(f, e);
      assert f in seen';
    }
  }

  lemma StillSeen(exact: set<(nat, nat)>, seen: seq<Candidate>, seen': seq<Candidate>, matched: Assignment)
    requires forall d :: d in seen ==> d in seen'
    requires forall i, j :: Pairs(matched, i, j) && (i, j) !in exact ==> SeenPair(seen, i, j)
    ensures forall i, j :: Pairs(matched, i, j) && (i, j) !in exact ==> SeenPair(seen', i, j)
  {
    forall i, j | Pairs(matched, i, j) && (i, j) !in exact
      ensures SeenPair(seen', i, j)
    {
      var e :| e in seen && e.symIdx == i && e.oldIdx == j;
      assert e in seen';
    }
  }

  lemma GreedyIsStable(exact: set<(nat, nat)>, cs: seq<Candidate>, candidates: set<Candidate>, matched: Assignment)
    requires Greedy(exact, cs, matched)
    requires forall c :: c in candidates <==> c in cs
    ensures Stable(exact, candidates, matched)
  {
    forall c | c in candidates
      ensures Chosen(matched, c) || Blocked(candidates, matched, c)
    {
      if !Chosen(matched, c) {
        var d :| d in cs && Chosen(matched, d) && Rivals(d, c) && Before(d, c);
        assert d in candidates;
      }
    }
  }

  /** Walk the ranked candidates, taking each one whose two sides are both free. */
  method TakeBestFirst(ghost exact: set<(nat, nat)>, cs: seq<Candidate>, used0: seq<bool>, matched0: Assignment)
    returns (oldUsed: seq<bool>, matched: Assignment)
    requires RankOrder(cs)
    requires forall c :: c in cs ==> && c.symIdx < |matched0| && c.oldIdx < |used0|
                                     && (forall j :: (c.symIdx, j) !in exact) && (forall i :: (i, c.oldIdx) !in exact)
    requires Greedy(exact, [], matched0)
    requires forall j :: 0 <= j < |used0| ==> (used0[j] <==> OldTaken(matched0, j))
    ensures |oldUsed| == |used0| && |matched| == |matched0|
    ensures Greedy(exact, cs, matched)
    ensures forall j :: 0 <= j < |oldUsed| ==> (oldUsed[j] <==> OldTaken(matched, j))
  {
    oldUsed, matched := used0, matched0;
    for k := 0 to |cs|
      invariant |oldUsed| == |used0| && |matched| == |matched0|
      invariant Greedy(exact, cs[..k], matched)
      invariant forall j :: 0 <= j < |oldUsed| ==> (oldUsed[j] <==> OldTaken(matched, j))
    {
      var c := cs[k];
      assert c in cs;
      if !oldUsed[c.oldIdx] && matched[c.symIdx].None? {
        assert cs[..k + 1] == cs[..k] + [c];
        GreedyTakes(exact, cs[..k], matched, c);
        matched := matched[c.symIdx := Some(c.oldIdx)];
        oldUsed := oldUsed[c.oldIdx := true];
      } else {
        GreedySkips(exact, cs, k, matched);
      }
    }
    assert cs[..|cs|] == cs;
  }

  method MatchRenames(fp: Fingerprint, olds: seq<OldRow>, syms: seq<ReconcileSymbol>,
                      used0: seq<bool>, matched0: Assignment)
    returns (oldUsed: seq<bool>, matched: Assignment)
    requires |used0| == |olds| && |matched0| == |syms|
    requires DistinctFqns(olds)
    requires forall i, j :: Pairs(matched0, i, j) <==> Exact(olds, syms, i, j)
    requires forall j :: 0 <= j < |olds| ==> (used0[j] <==> OldClaimed(olds, syms, j))
    ensures |oldUsed| == |olds|
    ensures StableMatching(fp, olds, syms, matched)
    ensures forall j :: 0 <= j < |olds| ==> (oldUsed[j] <==> OldTaken(matched, j))
  {
    ghost var candidates := RenamePairs(fp, olds, syms);
    PassOneLeavesRenamePairs(fp, olds, syms, used0, matched0);
    var pushed := RenameCandidates(fp, olds, syms, used0, matched0, candidates);
    var cs := SortStable(pushed);
    SortStableOrders(pushed);
    GreedyStarts(olds, syms, matched0);
    CandidatesAreFree(fp, olds, syms);
    oldUsed, matched := TakeBestFirst(ExactPairs(olds, syms), cs, used0, matched0);
    GreedyIsStable(ExactPairs(olds, syms), cs, candidates, matched);
  }

  lemma GreedyStarts(olds: seq<OldRow>, syms: seq<ReconcileSymbol>, matched: Assignment)
    requires DistinctFqns(olds)
    requires forall i, j :: Pairs(matched, i, j) <==> Exact(olds, syms, i, j)
    ensures Greedy(ExactPairs(olds, syms), [], matched)
    ensures forall j :: OldTaken(matched, j) <==> OldClaimed(olds, syms, j)
  {
    forall i, i', j | Pairs(matched, i, j) && Pairs(matched, i', j)
      ensures i == i'
    {
      assert Exact(olds, syms, i, j) && Exact(olds, syms, i', j);
    }
    forall j
      ensures OldTaken(matched, j) <==> OldClaimed(olds, syms, j)
    {
      if i :| Pairs(matched, i, j) { assert Exact(olds, syms, i, j); }
      if i :| Exact(olds, syms, i, j) { assert Pairs(matched, i, j); }
    }
  }

  lemma CandidatesAreFree(fp: Fingerprint, olds: seq<OldRow>, syms: seq<ReconcileSymbol>)
    ensures forall c :: c in RenamePairs(fp, olds, syms) ==>
                          && c.symIdx < |syms| && c.oldIdx < |olds|
                          && (forall j :: (c.symIdx, j) !in ExactPairs(olds, syms))
                          && (forall i :: (i, c.oldIdx) !in ExactPairs(olds, syms))
  {
  }
}
