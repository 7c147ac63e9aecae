/** The rows of the graph database and the integrity its schema enforces:
    two UNIQUE indexes on nodes, foreign keys with cascades, and the
    NULL-safe edge key that edge upserts maintain. */
module GraphModel {
  import opened Wrappers

  type Id = int

  datatype Range = Range(startLine: int, startCol: int, endLine: int, endCol: int)

  datatype Site = Site(uri: string, range: Range)

  datatype Node = Node(
    fqn: string, uri: string, name: string, language: string,
    kind: int, nodeKind: string, construct: Option<string>, containerId: Option<Id>,
    range: Range, sel: Range,
    signature: Option<string>, documentation: Option<string>, detail: Option<string>,
    signatureHash: Option<string>,
    valid: bool, orphan: bool, generation: int, isExternal: bool)

  datatype EdgeType = Contains | Calls | References | TypeOf | Implements | Defines | Inherits | Imports

  datatype Edge = Edge(src: Id, dst: Id, edgeType: EdgeType, site: Option<Site>, valid: bool)

  /** A freshly fetched symbol; `parent` is an index into the same list. */
  datatype ReconcileSymbol = ReconcileSymbol(
    fqn: string, name: string, kind: int, nodeKind: string,
    range: Range, sel: Range, detail: Option<string>, signatureHash: string,
    parent: Option<nat>)

  /** The whole database: tables plus the two AUTOINCREMENT counters. */
  datatype Db = Db(
    nodes: map<Id, Node>, edges: map<Id, Edge>, nextNode: Id, nextEdge: Id,
    calleesCache: map<Id, string>, materialized: set<(Id, EdgeType)>, meta: map<string, string>)

  datatype DbError = UniqueViolation | ForeignKeyViolation | ParentNotProcessed

  // ----- keys -----

  datatype PhysKey = PhysKey(uri: string, line: int, col: int, name: string)

  function Phys(n: Node): PhysKey {
    PhysKey(n.uri, n.range.startLine, n.range.startCol, n.name)
  }

  datatype SiteKey = SiteKey(uri: string, line: int, col: int)

  datatype EdgeKey = EdgeKey(src: Id, dst: Id, edgeType: EdgeType, site: Option<SiteKey>)

  function KeyOf(e: Edge): EdgeKey {
    EdgeKey(e.src, e.dst, e.edgeType,
            match e.site
            case None => None
            case Some(s) => Some(SiteKey(s.uri, s.range.startLine, s.range.startCol)))
  }

  // ----- integrity -----

  /** `row` may be stored under `id`: no other row holds its fqn or its physical key. */
  predicate Fits(nodes: map<Id, Node>, id: Id, row: Node) {
    forall k :: k in nodes && k != id ==> nodes[k].fqn != row.fqn && Phys(nodes[k]) != Phys(row)
  }

  ghost predicate UniqueNodes(nodes: map<Id, Node>) {
    forall k {:trigger Fits(nodes, k, nodes[k])} :: k in nodes ==> Fits(nodes, k, nodes[k])
  }

  ghost predicate ContainersExist(nodes: map<Id, Node>) {
    forall k {:trigger nodes[k].containerId} :: k in nodes && nodes[k].containerId.Some? ==>
        nodes[k].containerId.value in nodes
  }

  ghost predicate EdgesAnchored(nodes: map<Id, Node>, edges: map<Id, Edge>) {
    forall k :: k in edges ==> edges[k].src in nodes && edges[k].dst in nodes
  }

  /** No two edge rows agree on (src, dst, type, site), NULL sites included. */
  ghost predicate UniqueEdges(edges: map<Id, Edge>) {
    forall a, b :: a in edges && b in edges && KeyOf(edges[a]) == KeyOf(edges[b]) ==> a == b
  }

  ghost predicate IdsBelow<T>(table: map<Id, T>, next: Id) {
    forall k :: k in table ==> 0 < k < next
  }

  ghost predicate Integrity(db: Db) {
    && IdsBelow(db.nodes, db.nextNode)
    && IdsBelow(db.edges, db.nextEdge)
    && 0 < db.nextNode
    && 0 < db.nextEdge
    && UniqueNodes(db.nodes)
    && ContainersExist(db.nodes)
    && EdgesAnchored(db.nodes, db.edges)
    && UniqueEdges(db.edges)
    && (forall k :: k in db.calleesCache ==> k in db.nodes)
    && (forall m :: m in db.materialized ==> m.0 in db.nodes)
  }

  /** What writers keep beyond the schema: real lines, and `valid` the opposite of `orphan`. */
  predicate Sane(n: Node) {
    n.range.startLine >= 0 && n.valid == !n.orphan
  }

  ghost predicate AllSane(nodes: map<Id, Node>) {
    forall k :: k in nodes ==> Sane(nodes[k])
  }

  ghost predicate RealLines(nodes: map<Id, Node>) {
    forall k :: k in nodes ==> nodes[k].range.startLine >= 0
  }

  /** The row's container, if any, is a row of the same file. */
  ghost predicate AtHome(nodes: map<Id, Node>, k: Id)
    requires k in nodes
  {
    nodes[k].containerId.Some? ==>
      nodes[k].containerId.value in nodes && nodes[nodes[k].containerId.value].uri == nodes[k].uri
  }

  // ----- statements on single rows -----

  function UpdatedRow(prior: Node, s: ReconcileSymbol, container: Option<Id>): Node {
    prior.(fqn := s.fqn, name := s.name, kind := s.kind, nodeKind := s.nodeKind,
         containerId := container, range := s.range, sel := s.sel, detail := s.detail,
         signatureHash := Some(s.signatureHash), valid := true, orphan := false)
  }

  function FreshRow(uri: string, language: string, isExternal: bool,
                    s: ReconcileSymbol, container: Option<Id>): Node {
    Node(s.fqn, uri, s.name, language, s.kind, s.nodeKind, None, container, s.range, s.sel,
         None, None, s.detail, Some(s.signatureHash), true, false, 0, isExternal)
  }

  function WithLine(n: Node, line: int): Node {
    n.(range := n.range.(startLine := line))
  }

  /** ON DELETE SET NULL on `container_id`. */
  function Detached(n: Node, gone: Id): Node {
    if n.containerId == Some(gone) then n.(containerId := None) else n
  }

  /** DELETE of one node, as far as the node table goes. */
  function WithoutNode(nodes: map<Id, Node>, gone: Id): map<Id, Node> {
    map id | id in nodes && id != gone :: Detached(nodes[id], gone)
  }
}
