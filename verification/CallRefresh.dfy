/** On-demand `calls` edges: ask the language server for a symbol's callees and make
    the stored edges agree with the answer. */
module CallRefresh {
  import opened Wrappers
  import opened GraphModel
  import opened ReconcileModel
  import opened GraphStore
  import opened Innermost

  datatype Location = Location(uri: string, line: int, col: int)

  datatype OutgoingCall = OutgoingCall(to: Location, fromRanges: seq<Range>)

  datatype CallItem = CallItem(handle: int)

  datatype Reply<+T> = Answer(value: T) | Failed(timedOut: bool)

  /** A language server is whatever it answers while one symbol is refreshed. */
  datatype Server = Server(
    prepare: Location -> Reply<seq<CallItem>>,
    outgoing: CallItem -> Reply<seq<OutgoingCall>>,
    implementation: Location -> Reply<seq<Location>>)

  function TimedOut<T>(r: Reply<T>): bool {
    r.Failed? && r.timedOut
  }

  function SelStart(n: Node): Location {
    Location(n.uri, n.sel.startLine, n.sel.startCol)
  }

  // ----- what an answer resolves to -----

  ghost function Find(nodes: map<Id, Node>, at: Location): Option<Id> {
    if id :| Picked(nodes, at.uri, at.line, at.col, id) then Some(id) else None
  }

  lemma FindIsTheLookup(nodes: map<Id, Node>, at: Location, found: Option<Id>)
    requires Finds(nodes, at.uri, at.line, at.col, found)
    ensures Find(nodes, at) == found
  {
    if found.Some? && Find(nodes, at).Some? {
      var a, b := found.value, Find(nodes, at).value;
      assert Picked(nodes, at.uri, at.line, at.col, a) && Picked(nodes, at.uri, at.line, at.col, b);
    }
  }

  /** tsserver and gopls point calls through an interface at the interface's method. */
  predicate NeedsCorrection(nodes: map<Id, Node>, language: string, callee: Node) {
    && language in {"typescript", "go"}
    && callee.containerId.Some? && callee.containerId.value in nodes
    && nodes[callee.containerId.value].nodeKind == "Interface"
  }

  /** A method of an interface, in a language whose server is known to point calls at those. */
  ghost predicate InterfaceMethod(nodes: map<Id, Node>, language: string, callee: Node) {
    && (language == "typescript" || language == "go")
    && match callee.containerId
       case None => false
       case Some(c) => c in nodes && nodes[c].nodeKind == "Interface"
  }

  ghost function Located(nodes: map<Id, Node>, locs: seq<Location>): (ids: set<Id>)
    ensures ids <= nodes.Keys
  {
    set l | l in locs && Find(nodes, l).Some? :: Find(nodes, l).value
  }

  ghost function Implementations(nodes: map<Id, Node>, language: string, callee: Id, server: Server): set<Id>
    requires callee in nodes
  {
    if InterfaceMethod(nodes, language, nodes[callee]) && server.implementation(SelStart(nodes[callee])).Answer? then
      Located(nodes, server.implementation(SelStart(nodes[callee])).value)
    else {}
  }

  /** The implementations if there are any, else the callee itself. */
  ghost function Targets(nodes: map<Id, Node>, language: string, callee: Id, server: Server): (targets: set<Id>)
    requires callee in nodes
    ensures targets <= nodes.Keys
  {
    var found := Implementations(nodes, language, callee, server);
    if exists t :: t in found then found else {callee}
  }

  function CallKey(anchor: Id, uri: string, target: Id, r: Range): EdgeKey {
    EdgeKey(anchor, target, Calls, Some(SiteKey(uri, r.startLine, r.startCol)))
  }

  /** (target, site start) pairs one call resolves to. */
  ghost function CallKeys(nodes: map<Id, Node>, anchor: Id, server: Server, call: OutgoingCall): set<EdgeKey>
    requires anchor in nodes
  {
    match Find(nodes, call.to)
    case None => {}
    case Some(callee) =>
      set t, r | t in Targets(nodes, nodes[anchor].language, callee, server) && r in call.fromRanges ::
        CallKey(anchor, nodes[anchor].uri, t, r)
  }

  ghost function ImplementsKeys(nodes: map<Id, Node>, anchor: Id, server: Server, call: OutgoingCall): set<EdgeKey>
    requires anchor in nodes
  {
    match Find(nodes, call.to)
    case None => {}
    case Some(callee) =>
      LinkKeysTo(callee, Implementations(nodes, nodes[anchor].language, callee, server))
  }

  function Answered(anchor: Node, server: Server): seq<OutgoingCall> {
    var items := server.prepare(SelStart(anchor));
    if items.Failed? || items.value == [] then []
    else
      var calls := server.outgoing(items.value[0]);
      if calls.Failed? then [] else calls.value
  }

  ghost function AllCallKeys(nodes: map<Id, Node>, anchor: Id, server: Server, calls: seq<OutgoingCall>): set<EdgeKey>
    requires anchor in nodes
  {
    set c, k | c in calls && k in CallKeys(nodes, anchor, server, c) :: k
  }

  ghost function AllImplementsKeys(nodes: map<Id, Node>, anchor: Id, server: Server,
                                   calls: seq<OutgoingCall>): set<EdgeKey>
    requires anchor in nodes
  {
    set c, k | c in calls && k in ImplementsKeys(nodes, anchor, server, c) :: k
  }

  // ----- the effect on the edge table -----

  /** `edges` is `base` with valid rows for all of `keys`: rows that had such a key are reused,
      other rows are untouched, and new rows serve only such keys. */
  ghost predicate Refreshed(base: map<Id, Edge>, firstNew: Id, keys: set<EdgeKey>, edges: map<Id, Edge>) {
    && (forall e :: e in base ==> && e in edges && KeyOf(edges[e]) == KeyOf(base[e])
                                  && (if KeyOf(base[e]) in keys then edges[e].valid else edges[e] == base[e]))
    && (forall e :: e in edges && e !in base ==> firstNew <= e && KeyOf(edges[e]) in keys && edges[e].valid)
    && (forall key :: key in keys ==> HasValid(edges, key))
    && UniqueEdges(edges)
  }

  lemma RefreshStep(base: map<Id, Edge>, firstNew: Id, keys: set<EdgeKey>, edges: map<Id, Edge>, next: Id,
                    e: Edge, edges': map<Id, Edge>, next': Id, id: Id)
    requires Refreshed(base, firstNew, keys, edges) && firstNew <= next
    requires forall k :: k in base ==> k < firstNew
    requires EdgeUpserted(edges, next, e, edges', next', id) && UniqueEdges(edges')
    requires e.valid
    ensures Refreshed(base, firstNew, keys + {KeyOf(e)}, edges')
  {
    var keys' := keys + {KeyOf(e)};
    forall key | key in keys'
      ensures HasValid(edges', key)
    {
      if key == KeyOf(e) {
        assert id in edges';
      } else {
        var k :| k in edges && KeyOf(edges[k]) == key && edges[k].valid;
        assert k in edges';
      }
    }
    assert forall k :: k in edges' && KeyOf(edges'[k]) == KeyOf(e) ==> k == id;
  }

  class QueryEngine {
    const db: Store
    const contentHash: string -> string

    constructor (db: Store, contentHash: string -> string)
      ensures this.db == db && this.contentHash == contentHash
    {
      this.db := db;
      this.contentHash := contentHash;
    }

    /** Upsert one valid edge and account for it. */
    method Materialize(e: Edge, ghost base: map<Id, Edge>, ghost firstNew: Id, ghost keys: set<EdgeKey>)
      requires db.Valid() && e.src in db.nodes && e.dst in db.nodes && e.valid
      requires Tracked(base, firstNew, keys, db.edges, db.nextEdge)
      modifies db`edges, db`nextEdge
      ensures db.Valid() && Tracked(base, firstNew, keys + {KeyOf(e)}, db.edges, db.nextEdge)
    {
      ghost var before, next := db.edges, db.nextEdge;
      var w := db.UpsertEdge(e);
      RefreshStep(base, firstNew, keys, before, next, e, db.edges, db.nextEdge, w.value);
    }

    /** Link an interface method to each indexed implementation. */
    method LinkImplementations(callee: Id, locs: seq<Location>, ghost base: map<Id, Edge>, ghost firstNew: Id,
                               ghost keys: set<EdgeKey>)
      returns (targets: seq<Id>)
      requires db.Valid() && callee in db.nodes
      requires Tracked(base, firstNew, keys, db.edges, db.nextEdge)
      modifies db`edges, db`nextEdge
      ensures db.Valid()
      ensures forall t :: t in targets <==> t in Located(db.nodes, locs)
      ensures Tracked(base, firstNew, keys + LinkKeysTo(callee, Located(db.nodes, locs)), db.edges, db.nextEdge)
    {
      targets := [];
      assert keys + LinkKeysTo(callee, Located(db.nodes, [])) == keys;
      for i := 0 to |locs|
        invariant db.Valid()
        invariant forall t :: t in targets <==> t in Located(db.nodes, locs[..i])
        invariant Tracked(base, firstNew, keys + LinkKeysTo(callee, Located(db.nodes, locs[..i])), db.edges,
                          db.nextEdge)
      {
        var found := db.FindNodeByPosition(locs[i].uri, locs[i].line, locs[i].col);
        FindIsTheLookup(db.nodes, locs[i], found);
        LocatedStep(db.nodes, callee, locs, i, keys);
        if found.Some? {
          Materialize(Edge(callee, found.value, Implements, None, true), base, firstNew,
                      keys + LinkKeysTo(callee, Located(db.nodes, locs[..i])));
          targets := targets + [found.value];
        }
      }
      assert locs[..|locs|] == locs;
    }

    /** Resolve an item of the answer to the ids actually called. */
    method ResolveOutgoingCallee(language: string, callee: Id, server: Server,
                                 ghost base: map<Id, Edge>, ghost firstNew: Id, ghost keys: set<EdgeKey>)
      returns (targets: seq<Id>, timedOut: bool)
      requires db.Valid() && callee in db.nodes
      requires Tracked(base, firstNew, keys, db.edges, db.nextEdge)
      modifies db`edges, db`nextEdge
      ensures db.Valid()
      ensures forall t :: t in targets <==> t in Targets(db.nodes, language, callee, server)
      ensures timedOut <==> CorrectionTimedOutAt(db.nodes, language, callee, server)
      ensures Tracked(base, firstNew, keys + LinkKeysTo(callee, Implementations(db.nodes, language, callee, server)),
                      db.edges, db.nextEdge)
    {
      if !NeedsCorrection(db.nodes, language, db.nodes[callee]) {
        assert keys + LinkKeysTo(callee, {}) == keys;
        return [callee], false;
      }
      var reply := server.implementation(SelStart(db.nodes[callee]));
      timedOut := TimedOut(reply);
      if reply.Failed? {
        assert keys + LinkKeysTo(callee, {}) == keys;
        assert Implementations(db.nodes, language, callee, server) == {};
        return [callee], timedOut;
      }
      targets := LinkImplementations(callee, reply.value, base, firstNew, keys);
      assert forall t :: t in targets <==> t in Implementations(db.nodes, language, callee, server);
      assert targets != [] ==> targets[0] in targets;
      if targets == [] {
        targets := [callee];
      }
    }

    /** The `calls` rows for one item of the answer. */
    method MaterializeCall(anchor: Id, call: OutgoingCall, server: Server,
                           ghost base: map<Id, Edge>, ghost firstNew: Id, ghost keys: set<EdgeKey>)
      returns (timedOut: bool)
      requires db.Valid() && anchor in db.nodes
      requires Tracked(base, firstNew, keys, db.edges, db.nextEdge)
      modifies db`edges, db`nextEdge
      ensures db.Valid()
      ensures timedOut <==> CorrectionTimedOut(db.nodes, anchor, server, call)
      ensures Tracked(base, firstNew,
                      keys + CallKeys(db.nodes, anchor, server, call) + ImplementsKeys(db.nodes, anchor, server, call),
                      db.edges, db.nextEdge)
    {
      var callee := db.FindNodeByPosition(call.to.uri, call.to.line, call.to.col);
      FindIsTheLookup(db.nodes, call.to, callee);
      if callee.None? {
        assert keys + {} + {} == keys;
        return false;
      }
      ghost var impls := ImplementsKeys(db.nodes, anchor, server, call);
      var targets;
      targets, timedOut := ResolveOutgoingCallee(db.nodes[anchor].language, callee.value, server, base, firstNew, keys);
      assert PairKeys(anchor, db.nodes[anchor].uri, targets[..0], call.fromRanges) == {};
      assert keys + impls + {} == keys + impls;
      for t := 0 to |targets|
        invariant db.Valid()
        invariant Tracked(base, firstNew,
                          keys + impls + PairKeys(anchor, db.nodes[anchor].uri, targets[..t], call.fromRanges),
                          db.edges, db.nextEdge)
      {
        assert targets[t] in targets;
        MaterializeSites(anchor, targets[t], call.fromRanges, base, firstNew,
                         keys + impls + PairKeys(anchor, db.nodes[anchor].uri, targets[..t], call.fromRanges));
        PairKeysStep(anchor, db.nodes[anchor].uri, targets, t, call.fromRanges, keys + impls);
      }
      assert targets[..|targets|] == targets;
      assert PairKeys(anchor, db.nodes[anchor].uri, targets, call.fromRanges) ==
             CallKeys(db.nodes, anchor, server, call);
      assert keys + impls + CallKeys(db.nodes, anchor, server, call) ==
             keys + CallKeys(db.nodes, anchor, server, call) + impls;
    }

    method MaterializeSites(anchor: Id, target: Id, ranges: seq<Range>,
                            ghost base: map<Id, Edge>, ghost firstNew: Id, ghost keys: set<EdgeKey>)
      requires db.Valid() && anchor in db.nodes && target in db.nodes
      requires Tracked(base, firstNew, keys, db.edges, db.nextEdge)
      modifies db`edges, db`nextEdge
      ensures db.Valid()
      ensures Tracked(base, firstNew, keys + PairKeys(anchor, db.nodes[anchor].uri, [target], ranges), db.edges,
                      db.nextEdge)
    {
      assert keys + PairKeys(anchor, db.nodes[anchor].uri, [target], ranges[..0]) == keys;
      for r := 0 to |ranges|
        invariant db.Valid()
        invariant Tracked(base, firstNew, keys + PairKeys(anchor, db.nodes[anchor].uri, [target], ranges[..r]),
                          db.edges, db.nextEdge)
      {
        var e := Edge(anchor, target, Calls, Some(Site(db.nodes[anchor].uri, ranges[r])), true);
        Materialize(e, base, firstNew, keys + PairKeys(anchor, db.nodes[anchor].uri, [target], ranges[..r]));
        SiteKeysStep(anchor, db.nodes[anchor].uri, target, ranges, r, keys);
      }
      assert ranges[..|ranges|] == ranges;
    }

    /** `materialize_call_edges` in the outgoing direction. */
    method MaterializeCallEdges(anchor: Id, server: Server) returns (timedOut: bool)
      requires db.Valid() && anchor in db.nodes
      modifies db`edges, db`nextEdge
      ensures db.Valid()
      ensures Tracked(old(db.edges), old(db.nextEdge), RefreshKeys(db.nodes, anchor, server), db.edges, db.nextEdge)
      ensures timedOut <==> RefreshTimedOut(db.nodes, anchor, server)
    {
      ghost var base, firstNew := db.edges, db.nextEdge;
      NothingAsked(db.nodes, anchor, server, base, firstNew);
      var items := server.prepare(SelStart(db.nodes[anchor]));
      timedOut := TimedOut(items);
      if items.Failed? || items.value == [] {
        return;
      }
      var reply := server.outgoing(items.value[0]);
      timedOut := TimedOut(reply);
      var calls := if reply.Answer? then reply.value else [];
      for c := 0 to |calls|
        invariant db.Valid()
        invariant Tracked(base, firstNew, KeysFor(db.nodes, anchor, server, calls[..c]), db.edges, db.nextEdge)
        invariant timedOut <==> TimedOut(reply) || AnyLate(db.nodes, anchor, server, calls[..c])
      {
        var late := MaterializeCall(anchor, calls[c], server, base, firstNew,
                                    KeysFor(db.nodes, anchor, server, calls[..c]));
        timedOut := timedOut || late;
        KeysForStep(db.nodes, anchor, server, calls, c);
      }
      assert calls[..|calls|] == calls;
    }
  }

  ghost function KeysFor(nodes: map<Id, Node>, anchor: Id, server: Server, calls: seq<OutgoingCall>): set<EdgeKey>
    requires anchor in nodes
  {
    AllCallKeys(nodes, anchor, server, calls) + AllImplementsKeys(nodes, anchor, server, calls)
  }

  lemma KeysForStep(nodes: map<Id, Node>, anchor: Id, server: Server, calls: seq<OutgoingCall>, c: nat)
    requires anchor in nodes && c < |calls|
    ensures KeysFor(nodes, anchor, server, calls[..c + 1]) ==
            KeysFor(nodes, anchor, server, calls[..c])
            + CallKeys(nodes, anchor, server, calls[c]) + ImplementsKeys(nodes, anchor, server, calls[c])
    ensures AnyLate(nodes, anchor, server, calls[..c + 1]) <==>
            AnyLate(nodes, anchor, server, calls[..c]) || CorrectionTimedOut(nodes, anchor, server, calls[c])
  {
    assert calls[..c + 1] == calls[..c] + [calls[c]];
  }

  lemma NothingAsked(nodes: map<Id, Node>, anchor: Id, server: Server, edges: map<Id, Edge>, next: Id)
    requires anchor in nodes && UniqueEdges(edges) && forall k :: k in edges ==> k < next
    ensures KeysFor(nodes, anchor, server, []) == {}
    ensures Tracked(edges, next, {}, edges, next)
  {
  }

  /** What one refresh of the anchor makes valid. */
  ghost function RefreshKeys(nodes: map<Id, Node>, anchor: Id, server: Server): set<EdgeKey>
    requires anchor in nodes
  {
    KeysFor(nodes, anchor, server, Answered(nodes[anchor], server))
  }

  ghost predicate CorrectionTimedOutAt(nodes: map<Id, Node>, language: string, callee: Id, server: Server)
    requires callee in nodes
  {
    InterfaceMethod(nodes, language, nodes[callee]) && server.implementation(SelStart(nodes[callee])) == Failed(true)
  }

  ghost predicate CorrectionTimedOut(nodes: map<Id, Node>, anchor: Id, server: Server, call: OutgoingCall)
    requires anchor in nodes
  {
    && Find(nodes, call.to).Some?
    && CorrectionTimedOutAt(nodes, nodes[anchor].language, Find(nodes, call.to).value, server)
  }

  /** Some request made on behalf of the refresh timed out. */
  ghost predicate RefreshTimedOut(nodes: map<Id, Node>, anchor: Id, server: Server)
    requires anchor in nodes
  {
    var items := server.prepare(SelStart(nodes[anchor]));
    || items == Failed(true)
    || (items.Answer? && items.value != [] &&
        (|| server.outgoing(items.value[0]) == Failed(true)
         || AnyLate(nodes, anchor, server, Answered(nodes[anchor], server))))
  }

  ghost predicate AnyLate(nodes: map<Id, Node>, anchor: Id, server: Server, calls: seq<OutgoingCall>)
    requires anchor in nodes
  {
    exists c :: c in calls && CorrectionTimedOut(nodes, anchor, server, c)
  }

  function LinkKeysTo(callee: Id, targets: set<Id>): set<EdgeKey> {
    set t | t in targets :: EdgeKey(callee, t, Implements, None)
  }

  function PairKeys(anchor: Id, uri: string, targets: seq<Id>, ranges: seq<Range>): set<EdgeKey> {
    set t, r | t in targets && r in ranges :: CallKey(anchor, uri, t, r)
  }

  lemma PairKeysStep(anchor: Id, uri: string, targets: seq<Id>, t: nat, ranges: seq<Range>, keys: set<EdgeKey>)
    requires t < |targets|
    ensures keys + PairKeys(anchor, uri, targets[..t + 1], ranges) ==
            keys + PairKeys(anchor, uri, targets[..t], ranges) + PairKeys(anchor, uri, [targets[t]], ranges)
  {
    assert targets[..t + 1] == targets[..t] + [targets[t]];
  }

  lemma SiteKeysStep(anchor: Id, uri: string, target: Id, ranges: seq<Range>, r: nat, keys: set<EdgeKey>)
    requires r < |ranges|
    ensures keys + PairKeys(anchor, uri, [target], ranges[..r + 1]) ==
            keys + PairKeys(anchor, uri, [target], ranges[..r]) + {CallKey(anchor, uri, target, ranges[r])}
  {
    assert ranges[..r + 1] == ranges[..r] + [ranges[r]];
    assert target in [target];
  }

  lemma LocatedStep(nodes: map<Id, Node>, callee: Id, locs: seq<Location>, i: nat, keys: set<EdgeKey>)
    requires i < |locs|
    ensures var at, before, after := Find(nodes, locs[i]), Located(nodes, locs[..i]), Located(nodes, locs[..i + 1]);
            && after == before + (if at.Some? then {at.value} else {})
            && keys + LinkKeysTo(callee, after) ==
               keys + LinkKeysTo(callee, before) + (if at.Some? then {EdgeKey(callee, at.value, Implements, None)}
                                                    else {})
  {
    assert locs[..i + 1] == locs[..i] + [locs[i]];
  }

  ghost predicate Tracked(base: map<Id, Edge>, firstNew: Id, keys: set<EdgeKey>, edges: map<Id, Edge>, next: Id) {
    Refreshed(base, firstNew, keys, edges) && firstNew <= next && forall k :: k in base ==> k < firstNew
  }

  // ----- where the server is asked -----

  /** Two servers agree on what lies where a node's name starts. */
  ghost predicate AgreeAtNames(nodes: map<Id, Node>, anchor: Id, a: Server, b: Server)
    requires anchor in nodes
  {
    && (var n := nodes[anchor];
        a.prepare(Location(n.uri, n.sel.startLine, n.sel.startCol)) ==
        b.prepare(Location(n.uri, n.sel.startLine, n.sel.startCol)))
    && (forall c :: c in nodes ==>
        a.implementation(Location(nodes[c].uri, nodes[c].sel.startLine, nodes[c].sel.startCol)) ==
        b.implementation(Location(nodes[c].uri, nodes[c].sel.startLine, nodes[c].sel.startCol)))
  }

  /** The outcome of a refresh depends only on what the server says about the starts of names: the anchor's for the
      call hierarchy, a callee's for its implementations. */
  lemma AskedAtNames(nodes: map<Id, Node>, anchor: Id, a: Server, b: Server)
    requires anchor in nodes && a.outgoing == b.outgoing && AgreeAtNames(nodes, anchor, a, b)
    ensures RefreshKeys(nodes, anchor, a) == RefreshKeys(nodes, anchor, b)
    ensures RefreshTimedOut(nodes, anchor, a) <==> RefreshTimedOut(nodes, anchor, b)
  {
    var calls := Answered(nodes[anchor], a);
    assert calls == Answered(nodes[anchor], b);
    forall c | c in calls
      ensures CallKeys(nodes, anchor, a, c) == CallKeys(nodes, anchor, b, c)
      ensures ImplementsKeys(nodes, anchor, a, c) == ImplementsKeys(nodes, anchor, b, c)
      ensures CorrectionTimedOut(nodes, anchor, a, c) <==> CorrectionTimedOut(nodes, anchor, b, c)
    {
      if Find(nodes, c.to).Some? {
        var callee, language := Find(nodes, c.to).value, nodes[anchor].language;
        assert Implementations(nodes, language, callee, a) == Implementations(nodes, language, callee, b);
        assert Targets(nodes, language, callee, a) == Targets(nodes, language, callee, b);
      }
    }
  }

  /** A server that knows one symbol, by the start of its name at line 41, column 4 of `a.ts`, and one call in it. */
  function OneCallServer(call: OutgoingCall): Server {
    Server(at => if at == Location("a.ts", 41, 4) then Answer([CallItem(0)]) else Answer([]),
           item => if item == CallItem(0) then Answer([call]) else Answer([]),
           at => Answer([]))
  }

  /** It is asked there, and the call is found. */
  lemma OneCallIsFound(nodes: map<Id, Node>, anchor: Id, callee: Id, call: OutgoingCall)
    requires anchor in nodes && nodes[anchor].uri == "a.ts"
    requires nodes[anchor].sel.startLine == 41 && nodes[anchor].sel.startCol == 4
    requires Find(nodes, call.to) == Some(callee) && |call.fromRanges| == 1
    ensures AllCallKeys(nodes, anchor, OneCallServer(call), Answered(nodes[anchor], OneCallServer(call))) ==
            {EdgeKey(anchor, callee, Calls,
                     Some(SiteKey("a.ts", call.fromRanges[0].startLine, call.fromRanges[0].startCol)))}
    ensures !RefreshTimedOut(nodes, anchor, OneCallServer(call))
  {
    var server := OneCallServer(call);
    assert Answered(nodes[anchor], server) == [call];
    assert Targets(nodes, nodes[anchor].language, callee, server) == {callee};
    assert call.fromRanges == [call.fromRanges[0]];
    assert CallKeys(nodes, anchor, server, call) == {CallKey(anchor, "a.ts", callee, call.fromRanges[0])};
  }

  // ----- a refresh is an exact replacement -----

  predicate CallOf(e: Edge, anchor: Id) {
    e.src == anchor && e.edgeType == Calls
  }

  /** Invalidate, then materialize: afterwards the anchor's valid outgoing `calls` rows are exactly the
      resolved (target, site start) pairs; rows with a known key kept their ids; and apart from the
      `implements` links, no row outside the anchor's calls was touched. */
  lemma RefreshReplaces(nodes: map<Id, Node>, anchor: Id, server: Server, before: map<Id, Edge>, firstNew: Id,
                        after: map<Id, Edge>, next: Id, e: Id)
    requires anchor in nodes
    requires var calls := Answered(nodes[anchor], server);
             Tracked(CallsInvalidated(before, anchor), firstNew, KeysFor(nodes, anchor, server, calls), after, next)
    ensures var wanted := AllCallKeys(nodes, anchor, server, Answered(nodes[anchor], server));
            && (forall k :: k in wanted ==> k.src == anchor && k.edgeType == Calls && HasValid(after, k))
            && (e in after && CallOf(after[e], anchor) ==> (after[e].valid <==> KeyOf(after[e]) in wanted))
    ensures e in before ==> e in after && KeyOf(after[e]) == KeyOf(before[e])
    ensures e in before && !CallOf(before[e], anchor) && before[e].edgeType != Implements ==> after[e] == before[e]
    ensures e in after && e !in before ==>
              firstNew <= e && (CallOf(after[e], anchor) || after[e].edgeType == Implements)
  {
    var calls := Answered(nodes[anchor], server);
    KeysAreTyped(nodes, anchor, server, calls);
    var base, keys := CallsInvalidated(before, anchor), KeysFor(nodes, anchor, server, calls);
    assert e in before ==> e in base;
    forall k | k in AllCallKeys(nodes, anchor, server, calls)
      ensures HasValid(after, k)
    {
      assert k in keys;
    }
  }

  lemma KeysAreTyped(nodes: map<Id, Node>, anchor: Id, server: Server, calls: seq<OutgoingCall>)
    requires anchor in nodes
    ensures forall k :: k in AllCallKeys(nodes, anchor, server, calls) ==> k.src == anchor && k.edgeType == Calls
    ensures forall k :: k in AllImplementsKeys(nodes, anchor, server, calls) ==> k.edgeType == Implements
  {
  }
}
