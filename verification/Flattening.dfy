/** From the nested symbols of a document to the flat list the indexer stores. */
module Flattening {
  import opened Wrappers
  import opened GraphModel

  /** Positions arrive as unsigned numbers. */
  type LspRange = r: Range | 0 <= r.startLine && 0 <= r.startCol && 0 <= r.endLine && 0 <= r.endCol
    witness Range(0, 0, 0, 0)

  datatype DocumentSymbol = DocumentSymbol(
    name: string, detail: Option<string>, kind: nat, range: LspRange, selectionRange: LspRange,
    children: Children)

  datatype Children = Absent | Listed(list: seq<DocumentSymbol>)

  datatype FlatSymbol = FlatSymbol(
    fqn: string, name: string, kind: nat, range: LspRange, sel: LspRange, detail: Option<string>, parent: Option<nat>)

  function Fqn(prefix: string, name: string): string {
    prefix + "." + name
  }

  function Row(s: DocumentSymbol, prefix: string, parent: Option<nat>): FlatSymbol {
    FlatSymbol(Fqn(prefix, s.name), s.name, s.kind, s.range, s.selectionRange, s.detail, parent)
  }

  // ----- specification -----

  /** The rows of one tree whose root lands at index `base`. */
  function Tree(s: DocumentSymbol, prefix: string, parent: Option<nat>, base: nat): (rows: seq<FlatSymbol>)
    ensures |rows| > 0 && rows[0] == Row(s, prefix, parent)
    decreases s, 0
  {
    [Row(s, prefix, parent)] +
    match s.children
    case Absent => []
    case Listed(kids) => Flat(kids, Fqn(prefix, s.name), Some(base), base + 1)
  }

  /** The rows of a forest whose first row lands at index `base`. */
  function Flat(forest: seq<DocumentSymbol>, prefix: string, parent: Option<nat>, base: nat): (rows: seq<FlatSymbol>)
    decreases forest, 1
  {
    if forest == [] then []
    else
      var first := Tree(forest[0], prefix, parent, base);
      first + Flat(forest[1..], prefix, parent, base + |first|)
  }

  // ----- the code -----

  class SymbolList {
    var out: seq<FlatSymbol>

    constructor ()
      ensures out == []
    {
      out := [];
    }

    method FlattenOne(symbol: DocumentSymbol, prefix: string, parent: Option<nat>)
      modifies this
      ensures out == old(out) + Tree(symbol, prefix, parent, |old(out)|)
      decreases symbol, 0
    {
      var fqn := Fqn(prefix, symbol.name);
      var idx := |out|;
      ghost var before, root := out, [Row(symbol, prefix, parent)];
      out := out + [Row(symbol, prefix, parent)];
      if symbol.children.Listed? {
        FlattenEach(symbol.children.list, fqn, Some(idx));
        Regroup(before, root, Flat(symbol.children.list, fqn, Some(idx), idx + 1));
      }
    }

    /** The loop over a list of siblings. */
    method FlattenEach(symbols: seq<DocumentSymbol>, prefix: string, parent: Option<nat>)
      modifies this
      ensures out == old(out) + Flat(symbols, prefix, parent, |old(out)|)
      decreases symbols, 1
    {
      ghost var before, base := out, |out|;
      ghost var rows := Flat(symbols[..0], prefix, parent, base);
      for i := 0 to |symbols|
        invariant rows == Flat(symbols[..i], prefix, parent, base) && out == before + rows
      {
        FlattenOne(symbols[i], prefix, parent);
        ghost var next := Tree(symbols[i], prefix, parent, base + |rows|);
        FlatOneMore(symbols, i, prefix, parent, base);
        Regroup(before, rows, next);
        rows := rows + next;
      }
      assert symbols[..|symbols|] == symbols;
    }
  }

  method FlattenDocumentSymbols(symbols: seq<DocumentSymbol>, modulePath: string) returns (rows: seq<FlatSymbol>)
    ensures rows == Flat(symbols, modulePath, None, 0)
  {
    var list := new SymbolList();
    list.FlattenEach(symbols, modulePath, None);
    return list.out;
  }

  lemma Regroup(a: seq<FlatSymbol>, b: seq<FlatSymbol>, c: seq<FlatSymbol>)
    ensures a + (b + c) == (a + b) + c
  {
  }

  lemma {:induction false} FlatOneMore(forest: seq<DocumentSymbol>, n: nat, prefix: string, parent: Option<nat>,
                                       base: nat)
    requires n < |forest|
    ensures var rows := Flat(forest[..n], prefix, parent, base);
            Flat(forest[..n + 1], prefix, parent, base) == rows + Tree(forest[n], prefix, parent, base + |rows|)
    decreases n
  {
    if n > 0 {
      var rest, first := forest[1..], Tree(forest[0], prefix, parent, base);
      assert forest[..n][1..] == rest[..n - 1] && forest[..n + 1][1..] == rest[..n];
      assert Flat(forest[..n], prefix, parent, base) == first + Flat(rest[..n - 1], prefix, parent, base + |first|);
      assert Flat(forest[..n + 1], prefix, parent, base) == first + Flat(rest[..n], prefix, parent, base + |first|);
      FlatOneMore(rest, n - 1, prefix, parent, base + |first|);
      var mid := Flat(rest[..n - 1], prefix, parent, base + |first|);
      Regroup(first, mid, Tree(forest[n], prefix, parent, base + |first| + |mid|));
    } else {
      assert forest[..1][1..] == [];
    }
  }

  // ----- parents and names -----

  predicate Before(parent: Option<nat>, base: nat) {
    parent.Some? ==> parent.value < base
  }

  /** A row is a root of its forest, named under the prefix, or hangs under an earlier row, named under it. */
  predicate RowOk(rows: seq<FlatSymbol>, base: nat, prefix: string, parent: Option<nat>, k: nat)
    requires k < |rows|
  {
    var r := rows[k];
    if r.parent == parent then r.fqn == Fqn(prefix, r.name)
    else r.parent.Some? && base <= r.parent.value < base + k && r.fqn == Fqn(rows[r.parent.value - base].fqn, r.name)
  }

  ghost predicate RowsOk(rows: seq<FlatSymbol>, base: nat, prefix: string, parent: Option<nat>) {
    forall k :: 0 <= k < |rows| ==> RowOk(rows, base, prefix, parent, k)
  }

  lemma {:induction false} TreeRowsOk(s: DocumentSymbol, prefix: string, parent: Option<nat>, base: nat)
    requires Before(parent, base)
    ensures RowsOk(Tree(s, prefix, parent, base), base, prefix, parent)
    decreases s, 0
  {
    var rows, fqn := Tree(s, prefix, parent, base), Fqn(prefix, s.name);
    if s.children.Listed? {
      var kids := Flat(s.children.list, fqn, Some(base), base + 1);
      FlatRowsOk(s.children.list, fqn, Some(base), base + 1);
      RootAddedOk(Row(s, prefix, parent), kids, prefix, parent, base);
    }
  }

  lemma RootAddedOk(root: FlatSymbol, kids: seq<FlatSymbol>, prefix: string, parent: Option<nat>, base: nat)
    requires Before(parent, base) && root.parent == parent && root.fqn == Fqn(prefix, root.name)
    requires RowsOk(kids, base + 1, root.fqn, Some(base))
    ensures RowsOk([root] + kids, base, prefix, parent)
  {
    var rows := [root] + kids;
    forall k | 0 <= k < |rows|
      ensures RowOk(rows, base, prefix, parent, k)
    {
      if k > 0 {
        assert rows[k] == kids[k - 1] && RowOk(kids, base + 1, root.fqn, Some(base), k - 1);
        if rows[k].parent != Some(base) {
          assert rows[rows[k].parent.value - base] == kids[rows[k].parent.value - base - 1];
        }
      }
    }
  }

  lemma {:induction false} FlatRowsOk(forest: seq<DocumentSymbol>, prefix: string, parent: Option<nat>, base: nat)
    requires Before(parent, base)
    ensures RowsOk(Flat(forest, prefix, parent, base), base, prefix, parent)
    decreases forest, 1
  {
    if forest != [] {
      var first := Tree(forest[0], prefix, parent, base);
      TreeRowsOk(forest[0], prefix, parent, base);
      FlatRowsOk(forest[1..], prefix, parent, base + |first|);
      RowsJoinedOk(first, Flat(forest[1..], prefix, parent, base + |first|), prefix, parent, base);
    }
  }

  lemma RowsJoinedOk(first: seq<FlatSymbol>, rest: seq<FlatSymbol>, prefix: string, parent: Option<nat>, base: nat)
    requires RowsOk(first, base, prefix, parent) && RowsOk(rest, base + |first|, prefix, parent)
    ensures RowsOk(first + rest, base, prefix, parent)
  {
    var rows := first + rest;
    forall k | 0 <= k < |rows|
      ensures RowOk(rows, base, prefix, parent, k)
    {
      if k < |first| {
        assert rows[k] == first[k] && RowOk(first, base, prefix, parent, k);
        if rows[k].parent != parent {
          assert rows[rows[k].parent.value - base] == first[rows[k].parent.value - base];
        }
      } else {
        assert rows[k] == rest[k - |first|] && RowOk(rest, base + |first|, prefix, parent, k - |first|);
        if rows[k].parent != parent {
          assert rows[rows[k].parent.value - base] == rest[rows[k].parent.value - base - |first|];
        }
      }
    }
  }

  /** The dotted path from the module down to row `k`. */
  function DottedPath(rows: seq<FlatSymbol>, modulePath: string, k: nat): string
    requires k < |rows|
  {
    var p := rows[k].parent;
    (if p.Some? && p.value < k then DottedPath(rows, modulePath, p.value) else modulePath) + "." + rows[k].name
  }

  /** Parents come first, and an fqn spells the names of all ancestors after the module path. */
  lemma {:induction false} FqnSpellsAncestors(symbols: seq<DocumentSymbol>, modulePath: string, k: nat)
    requires k < |Flat(symbols, modulePath, None, 0)|
    ensures var rows := Flat(symbols, modulePath, None, 0);
            && (rows[k].parent.Some? ==> rows[k].parent.value < k)
            && rows[k].fqn == DottedPath(rows, modulePath, k)
    decreases k
  {
    var rows := Flat(symbols, modulePath, None, 0);
    FlatRowsOk(symbols, modulePath, None, 0);
    assert RowOk(rows, 0, modulePath, None, k);
    if rows[k].parent.Some? {
      FqnSpellsAncestors(symbols, modulePath, rows[k].parent.value);
    }
  }

  // ----- the forest back from the list -----

  predicate Outside(row: FlatSymbol, i: nat) {
    row.parent.None? || row.parent.value < i
  }

  /** Where the rows under row `i` end, looking from `j` on. */
  function SubtreeEnd(rows: seq<FlatSymbol>, i: nat, j: nat, hi: nat): (end: nat)
    requires j <= hi <= |rows|
    ensures j <= end <= hi
    decreases hi - j
  {
    if j == hi || Outside(rows[j], i) then j else SubtreeEnd(rows, i, j + 1, hi)
  }

  function Rebuild(rows: seq<FlatSymbol>, lo: nat, hi: nat): seq<DocumentSymbol>
    requires lo <= hi <= |rows|
    decreases hi - lo
  {
    if lo == hi then []
    else
      var r, end := rows[lo], SubtreeEnd(rows, lo, lo + 1, hi);
      [DocumentSymbol(r.name, r.detail, r.kind, r.range, r.sel, Listed(Rebuild(rows, lo + 1, end)))]
      + Rebuild(rows, end, hi)
  }

  /** A symbol with an absent list of children made explicit. */
  function Explicit(s: DocumentSymbol): DocumentSymbol
    decreases s, 0
  {
    match s.children
    case Absent => s.(children := Listed([]))
    case Listed(kids) => s.(children := Listed(AllExplicit(kids)))
  }

  function AllExplicit(forest: seq<DocumentSymbol>): seq<DocumentSymbol>
    decreases forest, 1
  {
    if forest == [] then [] else [Explicit(forest[0])] + AllExplicit(forest[1..])
  }

  lemma {:induction false} EndFound(rows: seq<FlatSymbol>, i: nat, j: nat, m: nat, hi: nat)
    requires j <= m <= hi <= |rows|
    requires forall k :: j <= k < m ==> !Outside(rows[k], i)
    requires m < hi ==> Outside(rows[m], i)
    ensures SubtreeEnd(rows, i, j, hi) == m
    decreases hi - j
  {
    if j < m {
      EndFound(rows, i, j + 1, m, hi);
    }
  }

  /** The forest a stretch of rows came from can be read off the rows. */
  lemma {:induction false} RebuildsForest(rows: seq<FlatSymbol>, lo: nat, hi: nat, forest: seq<DocumentSymbol>,
                                          prefix: string, parent: Option<nat>)
    requires lo <= hi <= |rows| && rows[lo..hi] == Flat(forest, prefix, parent, lo) && Before(parent, lo)
    ensures Rebuild(rows, lo, hi) == AllExplicit(forest)
    decreases forest, 1
  {
    if forest != [] {
      var s := forest[0];
      var first, kids := Tree(s, prefix, parent, lo), if s.children.Listed? then s.children.list else [];
      var m, rest := lo + |first|, Flat(forest[1..], prefix, parent, lo + |first|);
      assert rows[lo..m] == rows[lo..hi][..|first|] && rows[m..hi] == rows[lo..hi][|first|..];
      assert rows[lo] == first[0];
      assert rows[lo + 1..m] == first[1..];
      KidsEnd(rows, lo, m, hi, s, prefix, parent);
      NextIsOutside(rows, m, hi, forest[1..], prefix, parent, lo);
      EndFound(rows, lo, lo + 1, m, hi);
      RebuildsTree(rows, lo, m, s, prefix, parent);
      RebuildsForest(rows, m, hi, forest[1..], prefix, parent);
    }
  }

  lemma NextIsOutside(rows: seq<FlatSymbol>, m: nat, hi: nat, forest: seq<DocumentSymbol>, prefix: string,
                      parent: Option<nat>, i: nat)
    requires m <= hi <= |rows| && rows[m..hi] == Flat(forest, prefix, parent, m) && Before(parent, i)
    ensures m < hi ==> Outside(rows[m], i)
  {
    if m < hi {
      assert rows[m] == rows[m..hi][0];
    }
  }

  lemma KidsEnd(rows: seq<FlatSymbol>, lo: nat, m: nat, hi: nat, s: DocumentSymbol, prefix: string, parent: Option<nat>)
    requires lo < m <= hi <= |rows| && rows[lo..m] == Tree(s, prefix, parent, lo) && Before(parent, lo)
    ensures forall k :: lo + 1 <= k < m ==> !Outside(rows[k], lo)
  {
    if s.children.Listed? {
      var kids := Flat(s.children.list, Fqn(prefix, s.name), Some(lo), lo + 1);
      FlatRowsOk(s.children.list, Fqn(prefix, s.name), Some(lo), lo + 1);
      forall k | lo + 1 <= k < m
        ensures !Outside(rows[k], lo)
      {
        assert rows[k] == rows[lo..m][k - lo] == kids[k - lo - 1];
        assert RowOk(kids, lo + 1, Fqn(prefix, s.name), Some(lo), k - lo - 1);
      }
    } else {
      assert m == lo + 1;
    }
  }

  lemma {:induction false} RebuildsTree(rows: seq<FlatSymbol>, lo: nat, m: nat, s: DocumentSymbol, prefix: string,
                                        parent: Option<nat>)
    requires lo < m <= |rows| && rows[lo..m] == Tree(s, prefix, parent, lo) && Before(parent, lo)
    ensures DocumentSymbol(rows[lo].name, rows[lo].detail, rows[lo].kind, rows[lo].range, rows[lo].sel,
                           Listed(Rebuild(rows, lo + 1, m))) == Explicit(s)
    decreases s, 0
  {
    assert rows[lo] == rows[lo..m][0];
    match s.children {
      case Absent =>
        assert m == lo + 1;
      case Listed(kids) =>
        assert rows[lo + 1..m] == rows[lo..m][1..];
        RebuildsForest(rows, lo + 1, m, kids, Fqn(prefix, s.name), Some(lo));
    }
  }

  /** Flattening loses nothing but the difference between no list of children and an empty one. */
  lemma FlatteningIsInvertible(symbols: seq<DocumentSymbol>, modulePath: string)
    ensures var rows := Flat(symbols, modulePath, None, 0);
            Rebuild(rows, 0, |rows|) == AllExplicit(symbols)
  {
    var rows := Flat(symbols, modulePath, None, 0);
    assert rows[0..|rows|] == rows;
    RebuildsForest(rows, 0, |rows|, symbols, modulePath, None);
  }

  /** Two documents that flatten alike are alike. */
  lemma FlatteningIsInjective(a: seq<DocumentSymbol>, b: seq<DocumentSymbol>, modulePath: string)
    requires Flat(a, modulePath, None, 0) == Flat(b, modulePath, None, 0)
    ensures AllExplicit(a) == AllExplicit(b)
  {
    FlatteningIsInvertible(a, modulePath);
    FlatteningIsInvertible(b, modulePath);
  }

  // ----- subtrees are contiguous -----

  /** Row `j` hangs under row `i` although the subtree of `i` was over by row `e`. */
  predicate Late(rows: seq<FlatSymbol>, base: nat, i: nat, e: nat, j: nat)
    requires i < e <= j < |rows|
  {
    Outside(rows[e], base + i) && rows[j].parent.Some? && base + i <= rows[j].parent.value < base + e
  }

  ghost predicate NoneLate(rows: seq<FlatSymbol>, base: nat) {
    forall i: nat, e: nat, j: nat :: i < e <= j < |rows| ==> !Late(rows, base, i, e, j)
  }

  lemma JoinedNoneLate(first: seq<FlatSymbol>, rest: seq<FlatSymbol>, prefix: string, parent: Option<nat>, base: nat)
    requires Before(parent, base)
    requires RowsOk(first, base, prefix, parent) && RowsOk(rest, base + |first|, prefix, parent)
    requires NoneLate(first, base) && NoneLate(rest, base + |first|)
    ensures NoneLate(first + rest, base)
  {
    var rows, n := first + rest, |first|;
    forall i: nat, e: nat, j: nat | i < e <= j < |rows|
      ensures !Late(rows, base, i, e, j)
    {
      if j < n {
        assert !Late(first, base, i, e, j);
      } else {
        assert RowOk(rest, base + n, prefix, parent, j - n);
        if n <= i {
          assert !Late(rest, base + n, i - n, e - n, j - n);
        } else if n < e {
          assert RowOk(rest, base + n, prefix, parent, e - n);
          assert !Late(rest, base + n, 0, e - n, j - n);
        }
      }
    }
  }

  lemma RootNoneLate(root: FlatSymbol, kids: seq<FlatSymbol>, prefix: string, base: nat)
    requires RowsOk(kids, base + 1, prefix, Some(base)) && NoneLate(kids, base + 1)
    ensures NoneLate([root] + kids, base)
  {
    var rows := [root] + kids;
    forall i: nat, e: nat, j: nat | i < e <= j < |rows|
      ensures !Late(rows, base, i, e, j)
    {
      assert RowOk(kids, base + 1, prefix, Some(base), e - 1);
      if i > 0 {
        assert !Late(kids, base + 1, i - 1, e - 1, j - 1);
      }
    }
  }

  lemma {:induction false} TreeNoneLate(s: DocumentSymbol, prefix: string, parent: Option<nat>, base: nat)
    requires Before(parent, base)
    ensures NoneLate(Tree(s, prefix, parent, base), base)
    decreases s, 0
  {
    if s.children.Listed? {
      FlatRowsOk(s.children.list, Fqn(prefix, s.name), Some(base), base + 1);
      FlatNoneLate(s.children.list, Fqn(prefix, s.name), Some(base), base + 1);
      RootNoneLate(Row(s, prefix, parent), Flat(s.children.list, Fqn(prefix, s.name), Some(base), base + 1),
                   Fqn(prefix, s.name), base);
    }
  }

  lemma {:induction false} FlatNoneLate(forest: seq<DocumentSymbol>, prefix: string, parent: Option<nat>, base: nat)
    requires Before(parent, base)
    ensures NoneLate(Flat(forest, prefix, parent, base), base)
    decreases forest, 1
  {
    if forest != [] {
      var first := Tree(forest[0], prefix, parent, base);
      TreeRowsOk(forest[0], prefix, parent, base);
      TreeNoneLate(forest[0], prefix, parent, base);
      FlatRowsOk(forest[1..], prefix, parent, base + |first|);
      FlatNoneLate(forest[1..], prefix, parent, base + |first|);
      JoinedNoneLate(first, Flat(forest[1..], prefix, parent, base + |first|), prefix, parent, base);
    }
  }

  /** Row `i` is an ancestor of row `j`. */
  predicate Descends(rows: seq<FlatSymbol>, j: nat, i: nat)
    requires j < |rows|
    decreases j
  {
    var p := rows[j].parent;
    p.Some? && p.value < j && (p.value == i || Descends(rows, p.value, i))
  }

  lemma {:induction false} EndIsFirstOutside(rows: seq<FlatSymbol>, i: nat, j: nat, hi: nat)
    requires j <= hi <= |rows|
    ensures var end := SubtreeEnd(rows, i, j, hi);
            (end < hi ==> Outside(rows[end], i)) && forall k :: j <= k < end ==> !Outside(rows[k], i)
    decreases hi - j
  {
    if j < hi && !Outside(rows[j], i) {
      EndIsFirstOutside(rows, i, j + 1, hi);
    }
  }

  /** The rows under row `i` are exactly those up to the end of its stretch. */
  lemma {:induction false} SubtreesAreContiguous(symbols: seq<DocumentSymbol>, modulePath: string, i: nat, j: nat)
    requires i < |Flat(symbols, modulePath, None, 0)| && j < |Flat(symbols, modulePath, None, 0)|
    ensures var rows := Flat(symbols, modulePath, None, 0);
            Descends(rows, j, i) <==> i < j < SubtreeEnd(rows, i, i + 1, |rows|)
    decreases j
  {
    var rows := Flat(symbols, modulePath, None, 0);
    var end := SubtreeEnd(rows, i, i + 1, |rows|);
    FlatRowsOk(symbols, modulePath, None, 0);
    FlatNoneLate(symbols, modulePath, None, 0);
    EndIsFirstOutside(rows, i, i + 1, |rows|);
    assert RowOk(rows, 0, modulePath, None, j);
    if rows[j].parent.Some? {
      SubtreesAreContiguous(symbols, modulePath, i, rows[j].parent.value);
      if end <= j {
        assert !Late(rows, 0, i, end, j);
      }
    }
  }
}
