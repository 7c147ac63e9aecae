/** Which symbol a source position belongs to: the row with the smallest span around it. */
module Innermost {
  import opened Wrappers
  import opened GraphModel

  predicate Covers(r: Range, line: int, col: int) {
    && (r.startLine < line || (r.startLine == line && r.startCol <= col))
    && (r.endLine > line || (r.endLine == line && r.endCol >= col))
  }

  /** `a` lies inside `b`, bounds included. */
  predicate Inside(a: Range, b: Range) {
    && (b.startLine < a.startLine || (b.startLine == a.startLine && b.startCol <= a.startCol))
    && (b.endLine > a.endLine || (b.endLine == a.endLine && b.endCol >= a.endCol))
  }

  function LineSpan(r: Range): int {
    r.endLine - r.startLine
  }

  function ColSpan(r: Range): int {
    r.endCol - r.startCol
  }

  /** The query's ORDER BY: line span first, column span second. */
  predicate Tighter(a: Range, b: Range) {
    LineSpan(a) < LineSpan(b) || (LineSpan(a) == LineSpan(b) && ColSpan(a) < ColSpan(b))
  }

  predicate Hit(nodes: map<Id, Node>, uri: string, line: int, col: int, id: Id) {
    id in nodes && nodes[id].uri == uri && nodes[id].valid && Covers(nodes[id].range, line, col)
  }

  /** A valid row of the file whose range runs from a place at or before the position to one at or after it. */
  ghost predicate Around(n: Node, uri: string, line: int, col: int) {
    && n.uri == uri && n.valid
    && (n.range.startLine < line || (n.range.startLine == line && n.range.startCol <= col))
    && (line < n.range.endLine || (line == n.range.endLine && col <= n.range.endCol))
  }

  /** Fewer lines, or as many lines and no more columns. */
  ghost predicate NoWider(a: Range, b: Range) {
    || a.endLine - a.startLine < b.endLine - b.startLine
    || (a.endLine - a.startLine == b.endLine - b.startLine && a.endCol - a.startCol <= b.endCol - b.startCol)
  }

  /** No hit is tighter: what LIMIT 1 may return. */
  ghost predicate Tightest(nodes: map<Id, Node>, uri: string, line: int, col: int, id: Id) {
    && Hit(nodes, uri, line, col, id)
    && (forall k :: Hit(nodes, uri, line, col, k) ==> !Tighter(nodes[k].range, nodes[id].range))
  }

  /** The tightest hit; among equally tight ones, which the query leaves open, the first scanned. */
  ghost predicate Picked(nodes: map<Id, Node>, uri: string, line: int, col: int, id: Id) {
    && Tightest(nodes, uri, line, col, id)
    && (forall k :: Tightest(nodes, uri, line, col, k) ==> id <= k)
  }

  ghost predicate Finds(nodes: map<Id, Node>, uri: string, line: int, col: int, found: Option<Id>) {
    match found
    case Some(id) => Picked(nodes, uri, line, col, id)
    case None => forall k :: !Hit(nodes, uri, line, col, k)
  }

  /** Inside every other candidate. */
  ghost predicate IsInnermost(nodes: map<Id, Node>, uri: string, line: int, col: int, id: Id) {
    && Hit(nodes, uri, line, col, id)
    && (forall k :: Hit(nodes, uri, line, col, k) ==> Inside(nodes[id].range, nodes[k].range))
  }

  /** The chosen row is innermost exactly when there is an innermost row at all. */
  lemma TightestIsInnermost(nodes: map<Id, Node>, uri: string, line: int, col: int, id: Id)
    requires Tightest(nodes, uri, line, col, id)
    ensures IsInnermost(nodes, uri, line, col, id) <==> exists m :: IsInnermost(nodes, uri, line, col, m)
  {
    if m :| IsInnermost(nodes, uri, line, col, m) {
      InsideAndNotTighter(nodes[m].range, nodes[id].range);
    }
  }

  /** A range inside another one, and no tighter, is the same range. */
  lemma InsideAndNotTighter(a: Range, b: Range)
    requires Inside(a, b)
    ensures !Tighter(a, b) ==> a == b
  {
  }

  /** In particular when the candidates are nested pairwise, as symbol ranges of one file are. */
  lemma NestedMeansInnermost(nodes: map<Id, Node>, uri: string, line: int, col: int, id: Id)
    requires Tightest(nodes, uri, line, col, id)
    requires forall a, b :: Hit(nodes, uri, line, col, a) && Hit(nodes, uri, line, col, b) ==>
                              Inside(nodes[a].range, nodes[b].range) || Inside(nodes[b].range, nodes[a].range)
    ensures IsInnermost(nodes, uri, line, col, id)
  {
    forall k | Hit(nodes, uri, line, col, k)
      ensures Inside(nodes[id].range, nodes[k].range)
    {
      if Inside(nodes[k].range, nodes[id].range) { InsideAndNotTighter(nodes[k].range, nodes[id].range); }
    }
  }

  const I64_MAX: int := 0x7fff_ffff_ffff_ffff

  /** The synthetic module root spans the whole file. */
  const MODULE_RANGE: Range := Range(0, 0, I64_MAX, I64_MAX)

  predicate Storable(r: Range) {
    0 <= r.startLine && 0 <= r.startCol && r.endLine <= I64_MAX && r.endCol <= I64_MAX
  }

  /** The module root covers every position and is nested with every range ... */
  lemma ModuleRootIsOutermost(r: Range, line: int, col: int)
    requires Storable(r) && 0 <= line <= I64_MAX && 0 <= col <= I64_MAX
    ensures Covers(MODULE_RANGE, line, col) && Inside(r, MODULE_RANGE)
  {
  }

  /** ... and never hides a symbol of the file. */
  lemma SymbolBeatsModuleRoot(nodes: map<Id, Node>, uri: string, line: int, col: int, id: Id, other: Id)
    requires Tightest(nodes, uri, line, col, id) && Hit(nodes, uri, line, col, other)
    requires Storable(nodes[other].range) && nodes[other].range != MODULE_RANGE
    ensures nodes[id].range != MODULE_RANGE
  {
    InsideAndNotTighter(nodes[other].range, MODULE_RANGE);
  }
}
