/** Catching up, when the daemon starts, with whatever changed while nothing was watching. */
module StartupDrift {
  import opened Wrappers
  import opened GraphModel
  import opened RenameMatching
  import opened ReconcileModel
  import opened ReconcileReplay
  import opened ReconcileTheorems
  import opened ReconcileConvergence
  import opened GraphStore
  import opened Flattening
  import opened DocumentBatches

  /** What is known of a file from its name alone. */
  datatype Project = Project(
    supported: string -> bool, language: string -> string, isExternal: string -> bool,
    rootUri: string, labels: string -> Labels)

  function ModulePathOf(pj: Project, uri: string): string {
    ModulePathFromUri(uri, pj.rootUri)
  }

  datatype Fetch = ServerUnavailable | FetchError | Fetched(fileExists: bool, symbols: seq<DocumentSymbol>)

  /** The disk and the language server as one attempt finds them. */
  datatype Probe = Probe(hash: Option<string>, fetch: Fetch)

  datatype DriftAttempt = Committed | SuspiciousEmpty | LspUnavailable | Failed

  /** Extra passes over unresolved files. */
  const SUSPICIOUS_RETRY_ATTEMPTS: nat := 5

  function MetaKey(uri: string): string {
    "startup_drift_content_hash::" + uri
  }

  predicate Unresolved(r: DriftAttempt) {
    r == SuspiciousEmpty || r == LspUnavailable
  }

  // ----- specification of one attempt -----

  /** The file's content is the one its rows were last committed from. */
  ghost predicate HashMatches(db: Db, uri: string, a: Probe) {
    var key := "startup_drift_content_hash::" + uri;
    a.hash.Some? && key in db.meta && db.meta[key] == a.hash.value
  }

  ghost predicate Asks(pj: Project, db: Db, uri: string, a: Probe) {
    pj.supported(uri) && !HashMatches(db, uri, a)
  }

  /** An existing file is reported to have no symbols although rows of some are stored. */
  ghost predicate FalseEmpty(pj: Project, db: Db, uri: string, a: Probe) {
    && a.fetch.Fetched? && a.fetch.fileExists && a.fetch.symbols == []
    && exists id :: id in RealRows(db.nodes, uri, ModulePathOf(pj, uri))
  }

  function SymbolsOf(pj: Project, uri: string, f: Fetch): seq<ReconcileSymbol>
    requires f.Fetched?
  {
    Batch(pj.labels(uri), Flat(f.symbols, ModulePathOf(pj, uri), None, 0), ModulePathOf(pj, uri), f.fileExists)
  }

  /** A missing file is recorded as no hash at all. */
  function HashOnRecord(a: Probe): string {
    if a.hash.Some? then a.hash.value else ""
  }

  /** The file's rows were reconciled with what was fetched, and its content hash put on record. */
  ghost predicate Rewritten(pj: Project, uri: string, a: Probe, before: Db, after: Db, p: Plan, ids: seq<Id>)
    requires a.fetch.Fetched?
  {
    && PlanFor(p, uri, pj.language(uri), pj.isExternal(uri), SymbolsOf(pj, uri, a.fetch))
    && after.meta == before.meta["startup_drift_content_hash::" + uri := if a.hash.Some? then a.hash.value else ""]
    && Integrity(before) && Planned(p, before) && Reconciled(p, before, ids, after.(meta := before.meta))
  }

  ghost predicate RewrittenBySome(pj: Project, uri: string, a: Probe, before: Db, after: Db)
    requires a.fetch.Fetched?
  {
    exists p, ids :: Rewritten(pj, uri, a, before, after, p, ids)
  }

  /** What an attempt on `uri` that met `a` may have done. */
  ghost predicate AttemptOk(pj: Project, uri: string, a: Probe, before: Db, after: Db, r: DriftAttempt) {
    match r
    case SuspiciousEmpty => after == before && Asks(pj, before, uri, a) && FalseEmpty(pj, before, uri, a)
    case LspUnavailable => after == before && Asks(pj, before, uri, a) && a.fetch == ServerUnavailable
    case Failed =>
      && after == before && Asks(pj, before, uri, a)
      && a.fetch != ServerUnavailable && !FalseEmpty(pj, before, uri, a)
    case Committed =>
      if Asks(pj, before, uri, a) then
        && a.fetch.Fetched? && !FalseEmpty(pj, before, uri, a)
        && RewrittenBySome(pj, uri, a, before, after)
      else after == before
  }

  /** Reconcile a file with a list of symbols, and report only whether it went through. */
  method ReconcileSymbols(db: Store, pj: Project, uri: string, syms: seq<ReconcileSymbol>)
    returns (ok: bool, ghost p: Plan)
    requires db.Valid() && ParentsFirst(syms) && LinesReal(syms)
    modifies db
    ensures db.Valid() && PlanFor(p, uri, pj.language(uri), pj.isExternal(uri), syms)
    ensures if ok then Commits(db.bodyFingerprint, p, old(db.View()), db.View()) else db.View() == old(db.View())
  {
    var done;
    ghost var ids;
    done, p, ids := db.ReconcileFileSymbols(uri, pj.language(uri), pj.isExternal(uri), syms);
    ok := done.Success?;
  }

  lemma CommitRewrites(fp: Fingerprint, pj: Project, uri: string, a: Probe, p: Plan, before: Db, mid: Db, after: Db)
    requires a.fetch.Fetched? && Integrity(before) && Commits(fp, p, before, mid)
    requires PlanFor(p, uri, pj.language(uri), pj.isExternal(uri), SymbolsOf(pj, uri, a.fetch)) && LinesReal(p.syms)
    requires after == mid.(meta := mid.meta[MetaKey(uri) := HashOnRecord(a)])
    ensures RewrittenBySome(pj, uri, a, before, after)
  {
    StableIsPlanned(fp, p, before);
    CommitReconciles(p, before);
    assert after.(meta := before.meta) == mid;
    assert Rewritten(pj, uri, a, before, after, p, Replay(p, before).value.ids);
  }

  /** Reconcile with what was fetched, and put the content hash on record. */
  method CommitFetched(db: Store, pj: Project, uri: string, a: Probe, rows: seq<FlatSymbol>) returns (r: DriftAttempt)
    requires db.Valid() && a.fetch.Fetched? && rows == Flat(a.fetch.symbols, ModulePathOf(pj, uri), None, 0)
    modifies db
    ensures db.Valid()
    ensures r == Committed || r == Failed
    ensures r == Failed ==> db.View() == old(db.View())
    ensures r == Committed ==> RewrittenBySome(pj, uri, a, old(db.View()), db.View())
  {
    ghost var before := db.View();
    var syms := Batch(pj.labels(uri), rows, ModulePathOf(pj, uri), a.fetch.fileExists);
    BatchHasParentsFirst(pj.labels(uri), a.fetch.symbols, ModulePathOf(pj, uri), a.fetch.fileExists);
    var ok;
    ghost var p;
    ok, p := ReconcileSymbols(db, pj, uri, syms);
    if !ok {
      return Failed;
    }
    ghost var mid := db.View();
    db.SetMeta(MetaKey(uri), HashOnRecord(a));
    r := Committed;
    CommitRewrites(db.bodyFingerprint, pj, uri, a, p, before, mid, db.View());
  }

  /** A supported file is asked about exactly if the hash on record is not that of the file: one that cannot be read,
      one without a record, and one that has changed. */
  method ReconcileUri(db: Store, pj: Project, uri: string, a: Probe) returns (r: DriftAttempt)
    requires db.Valid()
    modifies db
    ensures db.Valid()
    ensures AttemptOk(pj, uri, a, old(db.View()), db.View(), r)
    ensures var key := "startup_drift_content_hash::" + uri;
            if !pj.supported(uri) || (a.hash.Some? && key in old(db.meta) && old(db.meta)[key] == a.hash.value) then
              r == Committed && db.View() == old(db.View())
            else match a.fetch
              case ServerUnavailable => r == LspUnavailable && db.View() == old(db.View())
              case FetchError => r == Failed && db.View() == old(db.View())
              case Fetched(_, _) =>
                if r == Committed then RewrittenBySome(pj, uri, a, old(db.View()), db.View())
                else r != LspUnavailable && db.View() == old(db.View())
  {
    if !pj.supported(uri) {
      return Committed;
    }
    if a.hash.Some? && MetaKey(uri) in db.meta && db.meta[MetaKey(uri)] == a.hash.value {
      return Committed;
    }
    match a.fetch {
      case ServerUnavailable => return LspUnavailable;
      case FetchError => return Failed;
      case Fetched(fileExists, symbols) =>
        var modulePath := ModulePathOf(pj, uri);
        var rows := FlattenDocumentSymbols(symbols, modulePath);
        NoRowsNoSymbols(symbols, modulePath);
        if fileExists && |rows| == 0 {
          var stored := db.CountRealNodes(uri, modulePath);
          if stored > 0 {
            return SuspiciousEmpty;
          }
        }
        r := CommitFetched(db, pj, uri, a, rows);
    }
  }

  lemma NoRowsNoSymbols(symbols: seq<DocumentSymbol>, modulePath: string)
    ensures |Flat(symbols, modulePath, None, 0)| == 0 <==> symbols == []
  {
  }

  // ----- the whole pass -----

  /** One attempt of the pass: the `n`-th on its file. */
  datatype Entry = Entry(uri: string, n: nat, before: Db, after: Db, result: DriftAttempt)

  /** Ghost account of the pass: all attempts in order, and per file the results so far. */
  datatype Ledger = Ledger(log: seq<Entry>, results: map<string, seq<DriftAttempt>>)

  function Prior(led: Ledger, uri: string): seq<DriftAttempt> {
    if uri in led.results then led.results[uri] else []
  }

  ghost predicate EntryOk(pj: Project, probe: (string, nat) -> Probe, led: Ledger, x: nat)
    requires x < |led.log|
  {
    var e := led.log[x];
    && AttemptOk(pj, e.uri, probe(e.uri, e.n), e.before, e.after, e.result)
    && e.n < |Prior(led, e.uri)| && Prior(led, e.uri)[e.n] == e.result
  }

  /** The attempts lead from `start` to `now`, each is in order, and each is accounted for. */
  ghost predicate LedgerOk(pj: Project, probe: (string, nat) -> Probe, start: Db, now: Db, led: Ledger) {
    && (if led.log == [] then now == start else led.log[0].before == start && led.log[|led.log| - 1].after == now)
    && (forall x :: 0 <= x < |led.log| - 1 ==> led.log[x].after == led.log[x + 1].before)
    && (forall x :: 0 <= x < |led.log| ==> EntryOk(pj, probe, led, x))
  }

  function Record(led: Ledger, e: Entry): Ledger {
    Ledger(led.log + [e], led.results[e.uri := Prior(led, e.uri) + [e.result]])
  }

  lemma RecordKeeps(pj: Project, probe: (string, nat) -> Probe, start: Db, now: Db, led: Ledger, e: Entry)
    requires LedgerOk(pj, probe, start, now, led)
    requires e.before == now && e.n == |Prior(led, e.uri)|
    requires AttemptOk(pj, e.uri, probe(e.uri, e.n), e.before, e.after, e.result)
    ensures LedgerOk(pj, probe, start, e.after, Record(led, e))
  {
    var led' := Record(led, e);
    forall x | 0 <= x < |led'.log|
      ensures EntryOk(pj, probe, led', x)
    {
      if x < |led.log| { EntryStays(pj, probe, led, e, x); }
    }
  }

  lemma EntryStays(pj: Project, probe: (string, nat) -> Probe, led: Ledger, e: Entry, x: nat)
    requires x < |led.log| && EntryOk(pj, probe, led, x)
    ensures EntryOk(pj, probe, Record(led, e), x)
  {
    assert Record(led, e).log[x] == led.log[x];
  }

  method TryUri(db: Store, pj: Project, probe: (string, nat) -> Probe, uri: string, n: nat, ghost start: Db,
                ghost led0: Ledger)
    returns (r: DriftAttempt, ghost led: Ledger)
    requires db.Valid() && LedgerOk(pj, probe, start, db.View(), led0) && |Prior(led0, uri)| == n
    modifies db
    ensures db.Valid() && LedgerOk(pj, probe, start, db.View(), led)
    ensures led.results == led0.results[uri := Prior(led0, uri) + [r]]
  {
    ghost var before := db.View();
    r := ReconcileUri(db, pj, uri, probe(uri, n));
    ghost var e := Entry(uri, n, before, db.View(), r);
    RecordKeeps(pj, probe, start, before, led0, e);
    led := Record(led0, e);
  }

  /** The disk walk and what the graph knows, without repeats. */
  method DriftCandidates(discovered: seq<string>, known: seq<string>) returns (uris: seq<string>)
    ensures forall u :: u in uris <==> u in discovered || u in known
    ensures forall a, b :: 0 <= a < b < |uris| ==> uris[a] != uris[b]
  {
    uris := [];
    var all := discovered + known;
    for k := 0 to |all|
      invariant forall u :: u in uris <==> u in all[..k]
      invariant forall a, b :: 0 <= a < b < |uris| ==> uris[a] != uris[b]
    {
      if all[k] !in uris {
        uris := uris + [all[k]];
      }
    }
    assert all[..|all|] == all;
  }

  /** All results but the last are unresolved. */
  predicate OnlyLastResolves(rs: seq<DriftAttempt>) {
    forall n :: 0 <= n < |rs| - 1 ==> Unresolved(rs[n])
  }

  function LastOf(rs: seq<DriftAttempt>): DriftAttempt
    requires rs != []
  {
    rs[|rs| - 1]
  }

  /** Settled on the spot, or held back for the retries. */
  ghost predicate FirstPassDone(uri: string, led: Ledger, suspicious: seq<string>) {
    && uri in led.results && |led.results[uri]| == 1
    && (uri in suspicious <==> Unresolved(led.results[uri][0]))
  }

  /** How the pass ends for one file: after one to six attempts exactly one of committed, failed or skipped. */
  ghost predicate Ended(uri: string, led: Ledger, skipped: seq<string>) {
    && uri in led.results
    && var rs := led.results[uri];
       && 1 <= |rs| <= 6 && OnlyLastResolves(rs)
       && (uri in skipped <==> Unresolved(LastOf(rs)))
       && (uri in skipped ==> |rs| == 6)
  }

  /** Retry one file until it resolves or the retries run out. */
  method RetryUri(db: Store, pj: Project, probe: (string, nat) -> Probe, uri: string, ghost start: Db,
                  ghost led0: Ledger)
    returns (resolved: bool, failed: bool, ghost led: Ledger)
    requires db.Valid() && LedgerOk(pj, probe, start, db.View(), led0)
    requires uri in led0.results && |led0.results[uri]| == 1 && Unresolved(led0.results[uri][0])
    modifies db
    ensures db.Valid() && LedgerOk(pj, probe, start, db.View(), led)
    ensures uri in led.results && led.results == led0.results[uri := led.results[uri]]
    ensures var rs := led.results[uri];
            && 1 <= |rs| <= 6 && OnlyLastResolves(rs)
            && (resolved <==> !Unresolved(LastOf(rs))) && (failed <==> LastOf(rs) == Failed)
            && (!resolved ==> |rs| == 6)
  {
    resolved, failed, led := false, false, led0;
    var k := 0;
    while !resolved && k < SUSPICIOUS_RETRY_ATTEMPTS
      invariant db.Valid() && LedgerOk(pj, probe, start, db.View(), led)
      invariant uri in led.results && led.results == led0.results[uri := led.results[uri]]
      invariant k <= SUSPICIOUS_RETRY_ATTEMPTS && |led.results[uri]| == k + 1 && OnlyLastResolves(led.results[uri])
      invariant resolved <==> !Unresolved(LastOf(led.results[uri]))
      invariant failed <==> LastOf(led.results[uri]) == Failed
      decreases SUSPICIOUS_RETRY_ATTEMPTS - k
    {
      var r;
      r, led := TryUri(db, pj, probe, uri, k + 1, start, led);
      match r {
        case Committed => resolved := true;
        case SuspiciousEmpty =>
        case LspUnavailable =>
        case Failed =>
          failed := true;
          resolved := true;
      }
      k := k + 1;
    }
  }

  /** `reconcile_startup_drift`. */
  method ReconcileStartupDrift(db: Store, pj: Project, probe: (string, nat) -> Probe, discovered: seq<string>)
    returns (failures: nat, skipped: seq<string>, ghost uris: seq<string>, ghost led: Ledger)
    requires db.Valid()
    modifies db
    ensures db.Valid() && LedgerOk(pj, probe, old(db.View()), db.View(), led)
    ensures forall u :: u in uris <==>
                          || u in discovered
                          || exists id :: id in old(db.nodes) && old(db.nodes)[id].uri == u && !old(db.nodes)[id].orphan
    ensures forall u :: u in led.results <==> u in uris
    ensures forall u :: u in uris ==> Ended(u, led, skipped)
    ensures forall u :: u in skipped ==> u in uris
    ensures failures == |FailedUris(led)|
  {
    ghost var start := db.View();
    var known := db.KnownUris();
    var todo := DriftCandidates(discovered, known);
    uris := todo;
    var suspicious;
    failures, suspicious, led := FirstPass(db, pj, probe, todo, start);
    failures, skipped, led := RetryPass(db, pj, probe, todo, suspicious, failures, start, led);
  }

  /** Every file once; those without an answer to trust are held back. */
  method FirstPass(db: Store, pj: Project, probe: (string, nat) -> Probe, todo: seq<string>, ghost start: Db)
    returns (failures: nat, suspicious: seq<string>, ghost led: Ledger)
    requires db.Valid() && db.View() == start && forall a, b :: 0 <= a < b < |todo| ==> todo[a] != todo[b]
    modifies db
    ensures db.Valid() && LedgerOk(pj, probe, start, db.View(), led)
    ensures FirstPassKeeps(todo, |todo|, led, suspicious, failures)
  {
    led, failures, suspicious := Ledger([], map[]), 0, [];
    assert FailedUris(led) == {};
    for i := 0 to |todo|
      invariant db.Valid() && LedgerOk(pj, probe, start, db.View(), led)
      invariant FirstPassKeeps(todo, i, led, suspicious, failures)
    {
      ghost var before := led;
      var r;
      assert todo[i] !in todo[..i];
      r, led := TryUri(db, pj, probe, todo[i], 0, start, led);
      assert Prior(before, todo[i]) + [r] == [r];
      FirstPassStep(todo, i, before, led, suspicious, failures, r);
      match r {
        case Committed =>
        case SuspiciousEmpty => suspicious := suspicious + [todo[i]];
        case LspUnavailable => suspicious := suspicious + [todo[i]];
        case Failed => failures := failures + 1;
      }
    }
  }

  method RetryPass(db: Store, pj: Project, probe: (string, nat) -> Probe, todo: seq<string>, suspicious: seq<string>,
                   failures0: nat, ghost start: Db, ghost led0: Ledger)
    returns (failures: nat, skipped: seq<string>, ghost led: Ledger)
    requires db.Valid() && LedgerOk(pj, probe, start, db.View(), led0)
    requires FirstPassKeeps(todo, |todo|, led0, suspicious, failures0)
    modifies db
    ensures db.Valid() && LedgerOk(pj, probe, start, db.View(), led)
    ensures RetriesKeep(todo, suspicious, |suspicious|, led, skipped, failures)
  {
    failures, skipped, led := failures0, [], led0;
    RetriesStart(todo, suspicious, led, failures);
    for i := 0 to |suspicious|
      invariant db.Valid() && LedgerOk(pj, probe, start, db.View(), led)
      invariant RetriesKeep(todo, suspicious, i, led, skipped, failures)
    {
      ghost var before := led;
      var resolved, failed;
      assert Waiting(suspicious[i], led);
      resolved, failed, led := RetryUri(db, pj, probe, suspicious[i], start, led);
      RetriesStep(todo, suspicious, i, before, led, skipped, failures);
      if failed {
        failures := failures + 1;
      }
      if !resolved {
        skipped := skipped + [suspicious[i]];
      }
    }
  }

  ghost predicate FirstPassKeeps(todo: seq<string>, i: nat, led: Ledger, suspicious: seq<string>, failures: nat) {
    && i <= |todo|
    && (forall u :: u in led.results <==> u in todo[..i])
    && (forall u :: u in led.results ==> FirstPassDone(u, led, suspicious))
    && (forall u :: u in suspicious ==> u in led.results)
    && (forall a, b :: 0 <= a < b < |suspicious| ==> suspicious[a] != suspicious[b])
    && failures == |FailedUris(led)|
  }

  lemma FirstPassStep(todo: seq<string>, i: nat, before: Ledger, after: Ledger, suspicious: seq<string>,
                      failures: nat, r: DriftAttempt)
    requires FirstPassKeeps(todo, i, before, suspicious, failures) && i < |todo|
    requires forall a, b :: 0 <= a < b < |todo| ==> todo[a] != todo[b]
    requires after.results == before.results[todo[i] := [r]]
    ensures FirstPassKeeps(todo, i + 1, after, if Unresolved(r) then suspicious + [todo[i]] else suspicious,
                           if r == Failed then failures + 1 else failures)
  {
    assert todo[..i + 1] == todo[..i] + [todo[i]];
    assert todo[i] !in todo[..i];
    FailedUrisStep(before, after, todo[i]);
    var suspicious' := if Unresolved(r) then suspicious + [todo[i]] else suspicious;
    forall u | u in after.results
      ensures FirstPassDone(u, after, suspicious')
    {
      if u != todo[i] { assert FirstPassDone(u, before, suspicious); }
    }
  }

  /** The first `i` files held back are through; the others still wait. */
  ghost predicate RetriesKeep(todo: seq<string>, suspicious: seq<string>, i: nat, led: Ledger, skipped: seq<string>,
                              failures: nat) {
    && i <= |suspicious|
    && (forall u :: u in led.results <==> u in todo)
    && (forall u :: u in todo && u !in suspicious[i..] ==> Ended(u, led, skipped))
    && (forall k :: i <= k < |suspicious| ==> Waiting(suspicious[k], led))
    && (forall a, b :: 0 <= a < b < |suspicious| ==> suspicious[a] != suspicious[b])
    && (forall u :: u in skipped ==> u in suspicious[..i])
    && (forall u :: u in suspicious ==> u in todo)
    && failures == |FailedUris(led)|
  }

  lemma RetriesStart(todo: seq<string>, suspicious: seq<string>, led: Ledger, failures: nat)
    requires FirstPassKeeps(todo, |todo|, led, suspicious, failures)
    ensures RetriesKeep(todo, suspicious, 0, led, [], failures)
  {
    assert todo[..|todo|] == todo && suspicious[0..] == suspicious;
    forall u | u in led.results
      ensures u !in suspicious ==> Ended(u, led, [])
      ensures u in suspicious ==> Waiting(u, led)
    {
      assert FirstPassDone(u, led, suspicious);
    }
  }

  lemma RetriesStep(todo: seq<string>, suspicious: seq<string>, i: nat, before: Ledger, after: Ledger,
                    skipped: seq<string>, failures: nat)
    requires RetriesKeep(todo, suspicious, i, before, skipped, failures) && i < |suspicious|
    requires suspicious[i] in after.results
    requires after.results == before.results[suspicious[i] := after.results[suspicious[i]]]
    requires var rs := after.results[suspicious[i]];
             && 1 <= |rs| <= 6 && OnlyLastResolves(rs) && (Unresolved(LastOf(rs)) ==> |rs| == 6)
    ensures var last := LastOf(after.results[suspicious[i]]);
            RetriesKeep(todo, suspicious, i + 1, after, if Unresolved(last) then skipped + [suspicious[i]] else skipped,
                        if last == Failed then failures + 1 else failures)
  {
    var uri := suspicious[i];
    var last := LastOf(after.results[uri]);
    var skipped' := if Unresolved(last) then skipped + [uri] else skipped;
    assert Waiting(uri, before);
    FailedUrisStep(before, after, uri);
    assert suspicious[i..] == [uri] + suspicious[i + 1..];
    assert suspicious[..i + 1] == suspicious[..i] + [uri];
    assert uri !in suspicious[..i];
    forall u | u in todo && u !in suspicious[i + 1..]
      ensures Ended(u, after, skipped')
    {
      if u != uri {
        assert Ended(u, before, skipped);
        OthersStayEnded(before, after, skipped, uri, u);
      }
    }
    forall k | i + 1 <= k < |suspicious|
      ensures Waiting(suspicious[k], after)
    {
      assert Waiting(suspicious[k], before);
    }
  }

  lemma OthersStayEnded(before: Ledger, after: Ledger, skipped: seq<string>, uri: string, u: string)
    requires uri in after.results && after.results == before.results[uri := after.results[uri]]
    requires u != uri && Ended(u, before, skipped)
    ensures Ended(u, after, skipped) && Ended(u, after, skipped + [uri])
  {
    assert u in skipped + [uri] <==> u in skipped;
  }

  /** Held back after its first attempt. */
  ghost predicate Waiting(uri: string, led: Ledger) {
    uri in led.results && |led.results[uri]| == 1 && Unresolved(led.results[uri][0])
  }

  ghost function FailedUris(led: Ledger): set<string> {
    set u | u in led.results && led.results[u] != [] && LastOf(led.results[u]) == Failed
  }

  /** Only the file just tried can have become a failure. */
  lemma FailedUrisStep(before: Ledger, after: Ledger, uri: string)
    requires uri in after.results && after.results == before.results[uri := after.results[uri]]
    requires after.results[uri] != []
    requires uri !in FailedUris(before)
    ensures |FailedUris(after)| == |FailedUris(before)| + (if LastOf(after.results[uri]) == Failed then 1 else 0)
  {
    assert FailedUris(after) == FailedUris(before) + (if LastOf(after.results[uri]) == Failed then {uri} else {});
  }

  // ----- what the pass never does -----

  /** No attempt empties an existing file of the symbols stored for it: such an answer changes nothing. */
  lemma FalseEmptyChangesNothing(pj: Project, probe: (string, nat) -> Probe, start: Db, now: Db, led: Ledger, x: nat)
    requires LedgerOk(pj, probe, start, now, led) && x < |led.log|
    requires var e := led.log[x]; FalseEmpty(pj, e.before, e.uri, probe(e.uri, e.n))
    ensures led.log[x].after == led.log[x].before
    ensures var e := led.log[x];
            Asks(pj, e.before, e.uri, probe(e.uri, e.n)) ==> e.result == SuspiciousEmpty
  {
    assert EntryOk(pj, probe, led, x);
  }

  /** The attempt committed what it had fetched. */
  ghost predicate Wrote(pj: Project, probe: (string, nat) -> Probe, e: Entry) {
    e.result == Committed && Asks(pj, e.before, e.uri, probe(e.uri, e.n)) && probe(e.uri, e.n).fetch.Fetched?
  }

  /** ... and some symbol of it carries the fqn of a row that `uri` has in `start`, or the attempt deleted the
      container of such a row. */
  ghost predicate Disturbed(pj: Project, probe: (string, nat) -> Probe, e: Entry, start: Db, uri: string) {
    && Wrote(pj, probe, e)
    && (|| Intrudes(start, uri, SymbolsOf(pj, e.uri, probe(e.uri, e.n).fetch))
        || DropsContainer(start, uri, e.before, e.after))
  }

  predicate DropsContainer(start: Db, uri: string, before: Db, after: Db) {
    exists id :: id in start.nodes && start.nodes[id].uri == uri && Dropped(start.nodes[id].containerId, before, after)
  }

  predicate Dropped(container: Option<Id>, before: Db, after: Db) {
    container.Some? && container.value in before.nodes && container.value !in after.nodes
  }

  ghost predicate DisturbedBefore(pj: Project, probe: (string, nat) -> Probe, led: Ledger, k: nat, start: Db,
                                  uri: string)
    requires k <= |led.log|
  {
    exists x :: 0 <= x < k && Disturbed(pj, probe, led.log[x], start, uri)
  }

  /** Some row that `uri` had in `start` is no longer a row of `uri`, or has lost its container. */
  ghost predicate LostRow(start: Db, now: Db, uri: string) {
    exists id :: id in start.nodes && start.nodes[id].uri == uri && RowLost(start, now, uri, id)
  }

  predicate RowLost(start: Db, now: Db, uri: string, id: Id)
    requires id in start.nodes
  {
    || !(id in now.nodes && now.nodes[id].uri == uri)
    || (start.nodes[id].containerId.Some? && now.nodes[id].containerId.None?)
  }

  /** An attempt on another file leaves the file as it was unless it disturbs it. */
  lemma OtherAttempt(pj: Project, probe: (string, nat) -> Probe, led: Ledger, x: nat, start: Db, uri: string)
    requires x < |led.log| && EntryOk(pj, probe, led, x) && led.log[x].uri != uri
    ensures var e := led.log[x];
            && (SameFile(start, e.before, uri) ==>
                  if Disturbed(pj, probe, e, start, uri) then LostRow(start, e.after, uri)
                  else SameFile(start, e.after, uri))
            && (LostRow(start, e.before, uri) ==> LostRow(start, e.after, uri))
  {
    var e := led.log[x];
    var a := probe(e.uri, e.n);
    if Wrote(pj, probe, e) {
      var p, ids :| Rewritten(pj, e.uri, a, e.before, e.after, p, ids);
      var mid := e.after.(meta := e.before.meta);
      if SameFile(start, e.before, uri) {
        CommitBesideFile(p, e.before, ids, mid, start, uri);
      }
      LostStaysLost(p, e.before, ids, mid, start, uri);
    }
  }

  lemma CommitBesideFile(p: Plan, db: Db, ids: seq<Id>, db': Db, start: Db, uri: string)
    requires Planned(p, db) && Integrity(db) && Reconciled(p, db, ids, db') && uri != p.uri
    requires SameFile(start, db, uri)
    ensures if Intrudes(start, uri, p.syms) || DropsContainer(start, uri, db, db') then LostRow(start, db', uri)
            else SameFile(start, db', uri)
  {
    OtherFileUntouchedExactly(p, db, ids, db', uri);
    if Intrudes(start, uri, p.syms) {
      var id :| id in start.nodes && start.nodes[id].uri == uri && Carried(p.syms, start.nodes[id].fqn);
      assert SameRow(start.nodes, db.nodes, id);
      RowOfOtherFile(p, db, ids, db', id);
    } else if DropsContainer(start, uri, db, db') {
      var id :| id in start.nodes && start.nodes[id].uri == uri && Dropped(start.nodes[id].containerId, db, db');
      assert SameRow(start.nodes, db.nodes, id);
      DroppedIsGone(p, db, ids, db', start.nodes[id].containerId.value);
      RowOfOtherFile(p, db, ids, db', id);
      assert RowLost(start, db', uri, id);
    } else {
      NothingDisturbs(p, db, ids, db', start, uri);
      SameFileTransitive(start, db, db', uri);
    }
  }

  lemma DroppedIsGone(p: Plan, db: Db, ids: seq<Id>, db': Db, c: Id)
    requires Reconciled(p, db, ids, db') && c in db.nodes
    ensures c !in db'.nodes <==> c in Gone(p)
  {
  }

  lemma NothingDisturbs(p: Plan, db: Db, ids: seq<Id>, db': Db, start: Db, uri: string)
    requires Planned(p, db) && Integrity(db) && Reconciled(p, db, ids, db') && SameFile(start, db, uri)
    requires !Intrudes(start, uri, p.syms) && !DropsContainer(start, uri, db, db')
    ensures !Intrudes(db, uri, p.syms) && !Uncontains(p, db, uri)
  {
    SameFileSameIntruders(start, db, uri, p.syms);
    forall id | id in db.nodes && db.nodes[id].uri == uri
      ensures !LosesContainer(p, db.nodes[id])
    {
      assert SameRow(start.nodes, db.nodes, id);
      assert !Dropped(start.nodes[id].containerId, db, db');
      if db.nodes[id].containerId.Some? { DroppedIsGone(p, db, ids, db', db.nodes[id].containerId.value); }
    }
  }

  lemma SameFileSameIntruders(start: Db, db: Db, uri: string, syms: seq<ReconcileSymbol>)
    requires SameFile(start, db, uri)
    ensures Intrudes(db, uri, syms) ==> Intrudes(start, uri, syms)
  {
    if Intrudes(db, uri, syms) {
      var id :| id in db.nodes && db.nodes[id].uri == uri && Carried(syms, db.nodes[id].fqn);
      assert SameRow(start.nodes, db.nodes, id);
    }
  }

  lemma SameFileTransitive(a: Db, b: Db, c: Db, uri: string)
    requires SameFile(a, b, uri) && SameFile(b, c, uri)
    ensures SameFile(a, c, uri)
  {
    forall id | (id in a.nodes && a.nodes[id].uri == uri) || (id in c.nodes && c.nodes[id].uri == uri)
      ensures SameRow(a.nodes, c.nodes, id)
    {
      if id in a.nodes && a.nodes[id].uri == uri { assert SameRow(a.nodes, b.nodes, id); }
      assert SameRow(b.nodes, c.nodes, id);
      assert SameRow(a.nodes, b.nodes, id);
    }
  }

  /** Only a reconcile of the file itself could bring a row or its container back. */
  lemma LostStaysLost(p: Plan, db: Db, ids: seq<Id>, db': Db, start: Db, uri: string)
    requires Planned(p, db) && Reconciled(p, db, ids, db') && uri != p.uri
    ensures LostRow(start, db, uri) ==> LostRow(start, db', uri)
  {
    if LostRow(start, db, uri) {
      var id :| id in start.nodes && start.nodes[id].uri == uri && RowLost(start, db, uri, id);
      if id in db'.nodes && db'.nodes[id].uri == uri { NoStrayRows(p, db, ids, db', id); }
      assert RowLost(start, db', uri, id);
    }
  }

  function StateAt(led: Ledger, start: Db, k: nat): Db
    requires k <= |led.log|
  {
    if k == 0 then start else led.log[k - 1].after
  }

  /** Every attempt on a skipped file leaves everything as it was. */
  lemma OwnAttempt(pj: Project, probe: (string, nat) -> Probe, led: Ledger, x: nat, skipped: seq<string>, start: Db)
    requires x < |led.log| && EntryOk(pj, probe, led, x)
    requires var uri := led.log[x].uri; Ended(uri, led, skipped) && uri in skipped
    ensures led.log[x].after == led.log[x].before && !Disturbed(pj, probe, led.log[x], start, led.log[x].uri)
  {
    assert Unresolved(led.results[led.log[x].uri][led.log[x].n]);
  }

  lemma {:induction false} SkippedSoFar(pj: Project, probe: (string, nat) -> Probe, start: Db, now: Db, led: Ledger,
                                        skipped: seq<string>, uri: string, k: nat)
    requires LedgerOk(pj, probe, start, now, led) && k <= |led.log|
    requires Ended(uri, led, skipped) && uri in skipped
    ensures if DisturbedBefore(pj, probe, led, k, start, uri) then LostRow(start, StateAt(led, start, k), uri)
            else SameFile(start, StateAt(led, start, k), uri)
  {
    if k > 0 {
      SkippedSoFar(pj, probe, start, now, led, skipped, uri, k - 1);
      var e := led.log[k - 1];
      assert EntryOk(pj, probe, led, k - 1) && e.before == StateAt(led, start, k - 1);
      if e.uri == uri {
        OwnAttempt(pj, probe, led, k - 1, skipped, start);
      } else {
        OtherAttempt(pj, probe, led, k - 1, start, uri);
      }
      OneMoreAttempt(pj, probe, led, k, start, uri);
    }
  }

  lemma OneMoreAttempt(pj: Project, probe: (string, nat) -> Probe, led: Ledger, k: nat, start: Db, uri: string)
    requires 0 < k <= |led.log|
    ensures DisturbedBefore(pj, probe, led, k, start, uri) <==>
            DisturbedBefore(pj, probe, led, k - 1, start, uri) || Disturbed(pj, probe, led.log[k - 1], start, uri)
  {
  }

  /** The rows of a skipped file are, at the end of the pass, what they were at its start, if and only if no
      batch the pass committed carries the fqn of one of them and no commit deleted the container of one of them. */
  lemma SkippedRowsUntouched(pj: Project, probe: (string, nat) -> Probe, start: Db, now: Db, led: Ledger,
                             skipped: seq<string>, uri: string)
    requires LedgerOk(pj, probe, start, now, led)
    requires Ended(uri, led, skipped) && uri in skipped
    ensures SameFile(start, now, uri) <==> !DisturbedBefore(pj, probe, led, |led.log|, start, uri)
  {
    SkippedSoFar(pj, probe, start, now, led, skipped, uri, |led.log|);
    if LostRow(start, now, uri) {
      var id :| id in start.nodes && start.nodes[id].uri == uri && RowLost(start, now, uri, id);
      assert !SameRow(start.nodes, now.nodes, id);
    }
  }

  // ----- files that differ in their extension alone -----

  lemma RootIsHandedOver(pj: Project, uri: string, f: Fetch)
    requires f.Fetched? && f.fileExists
    ensures Carried(SymbolsOf(pj, uri, f), ModulePathOf(pj, uri))
  {
    var rows := Flat(f.symbols, ModulePathOf(pj, uri), None, 0);
    BatchAt(pj.labels(uri), rows, ModulePathOf(pj, uri), true);
    assert SymbolsOf(pj, uri, f)[|rows|].fqn == ModulePathOf(pj, uri);
  }

  /** What is fetched for an existing file below the root ends with its module root, named by its path from there. */
  lemma RootIsNamedByPath(pj: Project, path: string, ext: string, f: Fetch)
    requires f.Fetched? && f.fileExists && '.' !in ext
    ensures var syms := SymbolsOf(pj, pj.rootUri + path + "." + ext, f);
            syms != [] && DotsFor(syms[|syms| - 1].fqn, path) && syms[|syms| - 1].parent.None?
  {
    var uri := pj.rootUri + path + "." + ext;
    BatchAt(pj.labels(uri), Flat(f.symbols, ModulePathOf(pj, uri), None, 0), ModulePathOf(pj, uri), true);
    ExtensionIsDropped(pj.rootUri, path, ext);
  }

  /** a.py and a.ts own one module root: committing a.ts moves the row of a.py's root to a.ts, even when a.py is
      skipped. */
  lemma TwinTakesModuleRoot(pj: Project, path: string, ext: string, twinExt: string, a: Probe, before: Db, after: Db,
                            p: Plan, ids: seq<Id>, root: Id)
    requires '.' !in ext && '.' !in twinExt && ext != twinExt
    requires a.fetch.Fetched? && a.fetch.fileExists
    requires var uri, twin := pj.rootUri + path + "." + ext, pj.rootUri + path + "." + twinExt;
             && Rewritten(pj, twin, a, before, after, p, ids)
             && root in before.nodes && before.nodes[root].uri == uri && before.nodes[root].fqn == ModulePathOf(pj, uri)
    ensures root in after.nodes && after.nodes[root].uri == pj.rootUri + path + "." + twinExt
  {
    var uri, twin := pj.rootUri + path + "." + ext, pj.rootUri + path + "." + twinExt;
    ExtensionIsDropped(pj.rootUri, path, ext);
    ExtensionIsDropped(pj.rootUri, path, twinExt);
    RootIsHandedOver(pj, twin, a.fetch);
    assert uri[|pj.rootUri + path| + 1..] == ext && twin[|pj.rootUri + path| + 1..] == twinExt;
    RowOfOtherFile(p, before, ids, after.(meta := before.meta), root);
  }
}
