/** The list of symbols handed to reconcile for one document, and which documents give lists without competing
    symbols. */
module DocumentBatches {
  import opened Wrappers
  import opened GraphModel
  import opened RenameMatching
  import opened ReconcileModel
  import opened ReconcileReplay
  import opened ReconcileColumns
  import opened ReconcileConvergence
  import opened Innermost
  import opened Flattening

  // ----- module paths -----

  function WithoutPrefix(s: string, prefix: string): string {
    if prefix <= s then s[|prefix|..] else s
  }

  /** Path separators become dots. */
  function Dotted(s: string): string {
    seq(|s|, i requires 0 <= i < |s| => if s[i] == '/' || s[i] == '\\' then '.' else s[i])
  }

  /** The path below the root, without its extension. */
  function ModulePathFromUri(uri: string, rootUri: string): string {
    var rel := WithoutPrefix(uri, rootUri);
    var stem := if '.' in rel then ContainerPrefix(rel) else rel;
    Dotted(WithoutPrefix(stem, "/"))
  }

  /** `m` is the path without its leading slash, with a dot for each separator. */
  predicate DotsFor(m: string, path: string) {
    var below := if path != "" && path[0] == '/' then path[1..] else path;
    |m| == |below| && forall k :: 0 <= k < |m| ==> m[k] == if below[k] in "/\\" then '.' else below[k]
  }

  /** The extension is dropped: files that differ in it alone have one module path. */
  lemma ExtensionIsDropped(rootUri: string, path: string, extension: string)
    requires '.' !in extension
    ensures ModulePathFromUri(rootUri + path + "." + extension, rootUri) == Dotted(WithoutPrefix(path, "/"))
    ensures DotsFor(ModulePathFromUri(rootUri + path + "." + extension, rootUri), path)
  {
    assert rootUri + path + "." + extension == rootUri + (path + "." + extension);
    PrefixDrops(rootUri, path + "." + extension);
    assert (path + "." + extension)[|path|] == '.';
    PrefixBeforeLeaf(path, extension);
    DottedIsDotsFor(path);
  }

  /** A file that is not below the root is named by its whole URI ... */
  lemma OutsideTheRoot(rootUri: string, path: string, extension: string)
    requires '.' !in extension && !(rootUri <= path + "." + extension)
    ensures DotsFor(ModulePathFromUri(path + "." + extension, rootUri), path)
  {
    assert (path + "." + extension)[|path|] == '.';
    PrefixBeforeLeaf(path, extension);
    DottedIsDotsFor(path);
  }

  /** ... and one without an extension keeps all of its path. */
  lemma NoExtension(rootUri: string, path: string)
    requires '.' !in path
    ensures DotsFor(ModulePathFromUri(rootUri + path, rootUri), path)
  {
    PrefixDrops(rootUri, path);
    DottedIsDotsFor(path);
  }

  lemma DottedIsDotsFor(path: string)
    ensures DotsFor(Dotted(WithoutPrefix(path, "/")), path)
  {
  }

  lemma PrefixDrops(prefix: string, rest: string)
    ensures WithoutPrefix(prefix + rest, prefix) == rest
  {
  }

  // ----- what is handed over -----

  /** LSP `SymbolKind.Module`. */
  const MODULE_KIND: nat := 2

  /** What follows the last dot. */
  function LastSegment(s: string): string {
    if s == [] then []
    else if s[|s| - 1] == '.' then []
    else LastSegment(s[..|s| - 1]) + [s[|s| - 1]]
  }

  function ModuleRoot(modulePath: string): FlatSymbol {
    FlatSymbol(modulePath, LastSegment(modulePath), MODULE_KIND,
               MODULE_RANGE, Range(0, 0, 0, 0), None, None)
  }

  /** A language adapter and the fingerprint function, whatever they are. */
  datatype Labels = Labels(kindLabel: nat -> string, fingerprint: FlatSymbol -> string)

  function ToReconcile(labels: Labels, row: FlatSymbol): ReconcileSymbol {
    ReconcileSymbol(row.fqn, row.name, row.kind, labels.kindLabel(row.kind), row.range, row.sel, row.detail,
                    labels.fingerprint(row), row.parent)
  }

  /** The symbols of a file, and its module root if the file exists. */
  function Batch(labels: Labels, rows: seq<FlatSymbol>, modulePath: string, fileExists: bool): seq<ReconcileSymbol> {
    seq(|rows|, k requires 0 <= k < |rows| => ToReconcile(labels, rows[k])) +
    if fileExists then [ToReconcile(labels, ModuleRoot(modulePath))] else []
  }

  /** So reconcile never meets a symbol whose parent it has not written yet. */
  lemma BatchHasParentsFirst(labels: Labels, symbols: seq<DocumentSymbol>, modulePath: string, fileExists: bool)
    ensures ParentsFirst(Batch(labels, Flat(symbols, modulePath, None, 0), modulePath, fileExists))
    ensures LinesReal(Batch(labels, Flat(symbols, modulePath, None, 0), modulePath, fileExists))
  {
    var rows := Flat(symbols, modulePath, None, 0);
    var batch := Batch(labels, rows, modulePath, fileExists);
    FlatRowsOk(symbols, modulePath, None, 0);
    forall k | 0 <= k < |batch| && batch[k].parent.Some?
      ensures batch[k].parent.value < k
    {
      assert RowOk(rows, 0, modulePath, None, k);
    }
  }

  /** What the row of a symbol of the document shows after a commit, unless a later symbol displaced it. */
  lemma DocumentRowShows(labels: Labels, rows: seq<FlatSymbol>, modulePath: string, fileExists: bool, p: Plan, db: Db,
                         ids: seq<Id>, db': Db, k: nat)
    requires Planned(p, db) && Reconciled(p, db, ids, db') && p.syms == Batch(labels, rows, modulePath, fileExists)
    requires k < |rows| && Stays(ids, k)
    ensures ids[k] in db'.nodes
    ensures var n, row := db'.nodes[ids[k]], rows[k];
            && n.uri == p.uri && n.fqn == row.fqn && n.name == row.name && n.kind == row.kind
            && n.nodeKind == labels.kindLabel(row.kind) && n.range == row.range && n.sel == row.sel
            && n.detail == row.detail && n.signatureHash == Some(labels.fingerprint(row))
    ensures match rows[k].parent
            case None => db'.nodes[ids[k]].containerId.None?
            case Some(q) => q < k && db'.nodes[ids[k]].containerId == Some(ids[q])
  {
    BatchAt(labels, rows, modulePath, fileExists);
    WrittenRow(p, db, ids, db', k);
  }

  /** `name` is what follows the last dot of the path, or all of a path without dots. */
  ghost predicate NamesEndOf(name: string, path: string) {
    '.' !in name && (name == path || exists front :: path == front + "." + name)
  }

  lemma {:induction false} LastSegmentNames(path: string)
    ensures NamesEndOf(LastSegment(path), path)
  {
    if path != [] {
      var init, c := path[..|path| - 1], path[|path| - 1];
      assert path == init + [c];
      if c == '.' {
        assert path == init + "." + [];
      } else {
        LastSegmentNames(init);
        if front :| init == front + "." + LastSegment(init) {
          assert path == front + "." + LastSegment(path);
        }
      }
    }
  }

  /** The module root of an existing file always has its row: a module, named by the end of its path, that spans
      the whole file and lies in nothing. */
  lemma ModuleRootShows(labels: Labels, rows: seq<FlatSymbol>, modulePath: string, p: Plan, db: Db, ids: seq<Id>,
                        db': Db)
    requires Planned(p, db) && Reconciled(p, db, ids, db') && p.syms == Batch(labels, rows, modulePath, true)
    ensures |ids| == |rows| + 1 && ids[|rows|] in db'.nodes
    ensures var n := db'.nodes[ids[|rows|]];
            && n.uri == p.uri && n.fqn == modulePath && NamesEndOf(n.name, modulePath)
            && n.kind == 2 && n.nodeKind == labels.kindLabel(2)
            && n.range == Range(0, 0, 0x7fff_ffff_ffff_ffff, 0x7fff_ffff_ffff_ffff) && n.sel == Range(0, 0, 0, 0)
            && n.detail.None? && n.containerId.None? && n.valid && !n.orphan
  {
    BatchAt(labels, rows, modulePath, true);
    WrittenRow(p, db, ids, db', |rows|);
    LastSegmentNames(modulePath);
  }

  /** Two symbols with the same start and name share a physical key. */
  predicate SamePlace(a: FlatSymbol, b: FlatSymbol) {
    a.range.startLine == b.range.startLine && a.range.startCol == b.range.startCol && a.name == b.name
  }

  predicate FqnsApart(rows: seq<FlatSymbol>) {
    forall a, b :: 0 <= a < b < |rows| ==> rows[a].fqn != rows[b].fqn
  }

  predicate PlacesApart(rows: seq<FlatSymbol>) {
    forall a, b :: 0 <= a < b < |rows| ==> !SamePlace(rows[a], rows[b])
  }

  /** A symbol at the very start of the file that is named like the file. */
  predicate NamedLikeFile(row: FlatSymbol, modulePath: string) {
    SamePlace(row, ModuleRoot(modulePath))
  }

  lemma {:induction false} FqnLongerThanModulePath(symbols: seq<DocumentSymbol>, modulePath: string, k: nat)
    requires k < |Flat(symbols, modulePath, None, 0)|
    ensures |Flat(symbols, modulePath, None, 0)[k].fqn| > |modulePath|
    decreases k
  {
    var rows := Flat(symbols, modulePath, None, 0);
    FlatRowsOk(symbols, modulePath, None, 0);
    assert RowOk(rows, 0, modulePath, None, k);
    if rows[k].parent.Some? {
      FqnLongerThanModulePath(symbols, modulePath, rows[k].parent.value);
    }
  }

  lemma BatchAt(labels: Labels, rows: seq<FlatSymbol>, modulePath: string, fileExists: bool)
    ensures var batch := Batch(labels, rows, modulePath, fileExists);
            && |batch| == |rows| + (if fileExists then 1 else 0)
            && (forall k :: 0 <= k < |rows| ==> batch[k] == ToReconcile(labels, rows[k]))
            && (fileExists ==> batch[|rows|] == ToReconcile(labels, ModuleRoot(modulePath)))
  {
  }

  lemma AlikeRows(labels: Labels, a: FlatSymbol, b: FlatSymbol)
    ensures Alike(ToReconcile(labels, a), ToReconcile(labels, b)) <==> a.fqn == b.fqn || SamePlace(a, b)
  {
  }

  /** Exactly which documents are free of competing symbols: fqns and places are pairwise distinct, and if the file
      exists no symbol at its very start is named like it. */
  lemma BatchIsWellFormedExactly(labels: Labels, symbols: seq<DocumentSymbol>, modulePath: string, fileExists: bool)
    ensures var rows := Flat(symbols, modulePath, None, 0);
            WellFormedBatch(Batch(labels, rows, modulePath, fileExists)) <==>
            && FqnsApart(rows) && PlacesApart(rows)
            && (fileExists ==> forall k :: 0 <= k < |rows| ==> !NamedLikeFile(rows[k], modulePath))
  {
    var rows := Flat(symbols, modulePath, None, 0);
    var batch, n := Batch(labels, rows, modulePath, fileExists), |rows|;
    BatchHasParentsFirst(labels, symbols, modulePath, fileExists);
    BatchAt(labels, rows, modulePath, fileExists);
    forall a, b | 0 <= a < b < n
      ensures Alike(batch[a], batch[b]) <==> rows[a].fqn == rows[b].fqn || SamePlace(rows[a], rows[b])
    {
      AlikeRows(labels, rows[a], rows[b]);
    }
    forall a | 0 <= a < n && fileExists
      ensures Alike(batch[a], batch[n]) <==> NamedLikeFile(rows[a], modulePath)
    {
      AlikeRows(labels, rows[a], ModuleRoot(modulePath));
      FqnLongerThanModulePath(symbols, modulePath, a);
    }
    RivalsByParts(batch, rows, modulePath, fileExists);
  }

  lemma RivalsByParts(batch: seq<ReconcileSymbol>, rows: seq<FlatSymbol>, modulePath: string, fileExists: bool)
    requires |batch| == |rows| + (if fileExists then 1 else 0)
    requires forall a, b :: 0 <= a < b < |rows| ==>
               (Alike(batch[a], batch[b]) <==> rows[a].fqn == rows[b].fqn || SamePlace(rows[a], rows[b]))
    requires fileExists ==> forall a :: 0 <= a < |rows| ==>
               (Alike(batch[a], batch[|rows|]) <==> NamedLikeFile(rows[a], modulePath))
    ensures NoRivals(batch) <==>
            && FqnsApart(rows) && PlacesApart(rows)
            && (fileExists ==> forall k :: 0 <= k < |rows| ==> !NamedLikeFile(rows[k], modulePath))
  {
  }

  // ----- distinct fqns -----

  predicate NamesDotFree(rows: seq<FlatSymbol>) {
    forall k :: 0 <= k < |rows| ==> '.' !in rows[k].name
  }

  predicate SiblingsApart(rows: seq<FlatSymbol>) {
    forall a, b :: 0 <= a < b < |rows| && rows[a].parent == rows[b].parent ==> rows[a].name != rows[b].name
  }

  /** The fqn of what a row hangs under. */
  function PrefixAt(rows: seq<FlatSymbol>, modulePath: string, k: nat): string
    requires k < |rows| && (rows[k].parent.Some? ==> rows[k].parent.value < |rows|)
  {
    if rows[k].parent.Some? then rows[rows[k].parent.value].fqn else modulePath
  }

  lemma RowSpelled(symbols: seq<DocumentSymbol>, modulePath: string, k: nat)
    requires k < |Flat(symbols, modulePath, None, 0)|
    ensures var rows := Flat(symbols, modulePath, None, 0);
            && (rows[k].parent.Some? ==> rows[k].parent.value < k)
            && rows[k].fqn == PrefixAt(rows, modulePath, k) + "." + rows[k].name
  {
    var rows := Flat(symbols, modulePath, None, 0);
    FlatRowsOk(symbols, modulePath, None, 0);
    assert RowOk(rows, 0, modulePath, None, k);
  }

  /** With dot-free names a row is determined by its fqn unless two siblings share a name. */
  lemma {:induction false} SameFqnSameRow(symbols: seq<DocumentSymbol>, modulePath: string, a: nat, b: nat)
    requires a < |Flat(symbols, modulePath, None, 0)| && b < |Flat(symbols, modulePath, None, 0)|
    requires var rows := Flat(symbols, modulePath, None, 0);
             NamesDotFree(rows) && SiblingsApart(rows) && rows[a].fqn == rows[b].fqn
    ensures a == b
    decreases a
  {
    var rows := Flat(symbols, modulePath, None, 0);
    RowSpelled(symbols, modulePath, a);
    RowSpelled(symbols, modulePath, b);
    PrefixBeforeLeaf(PrefixAt(rows, modulePath, a), rows[a].name);
    PrefixBeforeLeaf(PrefixAt(rows, modulePath, b), rows[b].name);
    var prefix := PrefixAt(rows, modulePath, a);
    assert rows[a].fqn[|prefix| + 1..] == rows[a].name && rows[b].fqn[|prefix| + 1..] == rows[b].name;
    if rows[a].parent.Some? { FqnLongerThanModulePath(symbols, modulePath, rows[a].parent.value); }
    if rows[b].parent.Some? { FqnLongerThanModulePath(symbols, modulePath, rows[b].parent.value); }
    if rows[a].parent.Some? && rows[b].parent.Some? {
      SameFqnSameRow(symbols, modulePath, rows[a].parent.value, rows[b].parent.value);
    }
  }

  /** Exactly: with dot-free names, fqns are distinct if and only if no two siblings share a name, as overloads do. */
  lemma FqnsApartExactly(symbols: seq<DocumentSymbol>, modulePath: string)
    requires NamesDotFree(Flat(symbols, modulePath, None, 0))
    ensures FqnsApart(Flat(symbols, modulePath, None, 0)) <==> SiblingsApart(Flat(symbols, modulePath, None, 0))
  {
    var rows := Flat(symbols, modulePath, None, 0);
    if SiblingsApart(rows) {
      forall a, b | 0 <= a < b < |rows|
        ensures rows[a].fqn != rows[b].fqn
      {
        if rows[a].fqn == rows[b].fqn { SameFqnSameRow(symbols, modulePath, a, b); }
      }
    } else {
      var a, b :| 0 <= a < b < |rows| && rows[a].parent == rows[b].parent && rows[a].name == rows[b].name;
      RowSpelled(symbols, modulePath, a);
      RowSpelled(symbols, modulePath, b);
    }
  }

  // ----- a symbol named like its file -----

  /** `export function useThing` at the start of useThing.ts: the module root takes over the symbol's row, so the
      symbol is in no row after the first commit, and every later reconcile of the same text fails. */
  lemma SymbolNamedLikeItsFile(fp: Fingerprint, labels: Labels, symbols: seq<DocumentSymbol>, modulePath: string,
                               k: nat, p1: Plan, p2: Plan, db0: Db, db1: Db)
    requires k < |Flat(symbols, modulePath, None, 0)| && FqnsApart(Flat(symbols, modulePath, None, 0))
    requires NamedLikeFile(Flat(symbols, modulePath, None, 0)[k], modulePath)
    requires p1.syms == Batch(labels, Flat(symbols, modulePath, None, 0), modulePath, true)
    requires Integrity(db0) && RealLines(db0.nodes) && Commits(fp, p1, db0, db1)
    requires SameRequest(p1, p2) && PlanOn(fp, p2, db1)
    ensures forall id :: id in db1.nodes ==> db1.nodes[id].fqn != Flat(symbols, modulePath, None, 0)[k].fqn
    ensures Replay(p2, db1).None?
  {
    var rows := Flat(symbols, modulePath, None, 0);
    BatchAt(labels, rows, modulePath, true);
    BatchFqnsApart(labels, symbols, modulePath);
    SharedPlaceLosesSymbol(fp, p1, db0, db1, k, |rows|);
    SharedPlaceFailsOnRerun(fp, p1, p2, db0, db1, k, |rows|);
  }

  lemma BatchFqnsApart(labels: Labels, symbols: seq<DocumentSymbol>, modulePath: string)
    requires FqnsApart(Flat(symbols, modulePath, None, 0))
    ensures var batch := Batch(labels, Flat(symbols, modulePath, None, 0), modulePath, true);
            DistinctSymFqns(batch) && LinesReal(batch)
  {
    var rows := Flat(symbols, modulePath, None, 0);
    var batch := Batch(labels, rows, modulePath, true);
    BatchAt(labels, rows, modulePath, true);
    forall a, b | 0 <= a < b < |batch|
      ensures batch[a].fqn != batch[b].fqn
    {
      FqnLongerThanModulePath(symbols, modulePath, a);
    }
  }
}
