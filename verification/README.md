# semnav, modelled and verified

semnav keeps a graph of a workspace's symbols and their relations in a database, fills it from language
servers, and answers queries from it. This project models the parts of it in which state, order and
failure interact, and proves what they guarantee.

| module | what it models |
|---|---|
| `GraphModel`, `GraphStore` | the node, edge, cache and meta tables: two UNIQUE indexes, foreign keys with cascades, AUTOINCREMENT ids, rollback; a `Store` object whose methods are the SQL statements |
| `RenameMatching`, `ReconcileModel`, `ReconcileReplay` | the reconcile transaction: matching old rows to fresh symbols, and the five passes for any list of symbols |
| `ReconcileForecast` | exactly when a reconcile fails, told before anything is written |
| `ReconcileTheorems`, `ReconcileColumns`, `ReconcileConvergence`, `ReconcileFailures` | what one commit means, column by column too, what running the same list again does, and ordinary edits that cannot be reconciled |
| `DbActor` | the thread all commands to the database go through, and what holds over every run of it |
| `Innermost` | which symbol a source position belongs to |
| `CallRefresh`, `CallPath`, `CallQueries` | callees fetched on demand, the bounded call-path search that rewrites the graph it walks, and `find_callees` |
| `CalleesCache` | how long a remembered content hash vouches for stored callees |
| `SortKeys`, `Paging`, `Grouping` | keyset pagination over a list that may change between pages, and grouping of neighbor rows |
| `QueryGate` | the gate behind which the file watcher waits for live queries, as interleaved atomic steps |
| `RequestActor` | the request/reply actors of the language-server client and of the daemon client |
| `Supervisor` | the health state machine of one language server |
| `Framing` | messages on the wire |
| `Flattening`, `DocumentBatches`, `Fingerprints` | from document symbols to the lists reconcile gets, and which edits count as changes |
| `StartupDrift`, `RecordedHash` | the catch-up pass at daemon start, the live watcher's reconcile, and what the recorded content hash says |
| `Wrappers` | `Option` and `Result` |

`dafny verify dfyconfig.toml` checks everything.

## How to read it

The code that changes things step by step is a class or a method with loops, proved against a
specification: `Replay`, `Reconciled` and `Foretold` for the reconcile transaction, `Run` for the database thread,
`RightAnswer` and `Accounted` for the call-path search, `AllAnswered` for the actors, `AtWait` for the
supervisor, `ReadOne` and `Forwarded` for the reader, `Flat` for flattening, `Ended` and `LedgerOk` for the
startup pass. The theorems are lemmas about those specifications. Language servers, files and the order in
which events arrive are arbitrary parameters; hashes are arbitrary functions.

`Replay` runs the statements of the reconcile transaction on the tables for any list of symbols; `Reconciled`
says, without reference to the order of statements, what a commit leaves. Two symbols are rivals if they have
one fqn or one (line, column, name). Lists with rivals do occur, and everything about single commits and runs
is stated for them too; `Admissible` (integrity, real lines, parents first, no rivals) appears only where the
absence of rivals is what makes the statement true, and `RerunFindsNothingNewExactly` and
`BatchIsWellFormedExactly` say exactly which lists and which documents those are.

Where a method and its specification use one helper (a row builder, the rename order, the cache test, a key, a
constant), its meaning is stated once more in columns, positions or literals: `ReconcileColumns`, `Better`,
`Unvouched`, `AskedAtNames`, `FirstOf`, `FailedOnceMore`, `WrittenBytes`, `DocumentRowShows`, `KeyLessMeans`.

## Where the code and its comments differ

The model follows the code.

- The comments at `src/graph/db.rs:1211-1225` suggest that parking rows makes every write of a reconcile
  safe. Pass 4 restores an unclaimed row's old line, which fails when a symbol with another fqn now has the
  same line, column and name. `ForetoldExactly` says when, and `RenamedClassWithMethodFails` gives inputs.
- `src/indexer/symbol.rs:358-386` calls the collapse of overloads into one row intentional. A list with
  overloads never settles: each run inserts the later ones again and, when hashes differ, updates the first
  and invalidates its edges (`OverloadsNeverSettle`), and a leftover row that resembles an overload makes the
  reconcile fail (`OverloadRerunFailsExactly`, `FunctionTurnedOverloadFails`).
- The module root (`src/indexer/symbol.rs:87-112`) is meant to cover positions outside every symbol. It has the
  physical key of a symbol at 0:0 that is named like the file: the first reconcile loses that symbol, and every
  later one fails (`SymbolNamedLikeItsFile`).
- `module_path_from_uri` (`src/indexer/symbol.rs:177-182`) drops the extension, so a.py and a.ts own one module
  root. Reconciling one moves the root row away from the other, also while the startup pass reports the other
  as left untouched (`TwinTakesModuleRoot`; `SkippedRowsUntouched` has the exact condition).
- The comment on `signature_fingerprint` (`src/indexer/symbol.rs:156-160`) says absolute positions are
  excluded; `span` returns them. A line inserted above a symbol makes it count as updated
  (`InsertedLineUpdates`; `UnchangedExactly` has the exact condition).
- The comment on `find_callees` (`src/query/ops.rs:296-299`) calls the cached graph exact while the hash matches.
  A reconcile of another file can take callees away and bring callees back without touching the cache row
  (`ChangedCalleeIsLost`, `RevivedCalleeComesBack`), and a refresh that timed out stores the hash of an empty
  answer (`FailedRefreshSticks`). `CacheIsExactExactly` says when the cached graph is the server's answer.
- A timed-out expansion counts as usable, so a conclusive "not reachable" is about the stored graph
  (`RightAnswer`), not about the program text.
- The restart policy is documented as 1, 2, 4, 8, 16 seconds; with five failures to `down`, 16 is never
  used (`RetrySchedule`).
- End of input in the middle of the headers is reported like the clean end of the stream
  (`TruncatedFrame`).
- The startup pass takes a matching hash for proof that nothing needs doing (`src/indexer/reconcile.rs:177-187`).
  Only that pass records hashes: if the watcher has reconciled an edit that was undone since, the pass keeps the
  rows of the edit (`UndoneEditIsKept`). `AcceptedRowsExactly` says when the kept rows are the recorded text's.

## Model

| member | source | states |
|---|---|---|
| `GraphStore.Store.ReconcileFileSymbols` | src/graph/db.rs:1181-1412 | all or nothing, whatever the list: integrity always holds, the plan is the stable matching, and the reconcile fails exactly if `Foretold`, which the list, the stored rows and the matching decide before anything is written; for lists without competing symbols that is exactly a `Collision` or a renamed row whose new fqn another file has; on success the tables are the reconciled ones, the outcome counts the plan, only unclaimed orphans of the file are gone, and the orphans left in the file are unclaimed rows; what the tables then show, column by column, is in `ReconcileColumns` |
| `RenameMatching.ContainerPrefix` | src/graph/db.rs:1151-1153 | everything before the last dot, empty if there is none |
| `RenameMatching.ClaimExact` | src/graph/db.rs:1234-1246 | pass 1 claims exactly the first-come fqn pairs and marks exactly those rows used |
| `RenameMatching.RenameCandidates` | src/graph/db.rs:1248-1282 | the candidate list is, without repeats, the set of eligible leftover pairs (same kind, same container prefix, starts at most three lines apart), each with its rank |
| `RenameMatching.TakeBestFirst` | src/graph/db.rs:1283-1296 | greedy choice along the sorted list yields a stable assignment |
| `RenameMatching.MatchRenames` | src/graph/db.rs:1248-1296 | passes 1 and 2 together produce the stable matching, whose meaning in rows and symbols is `StableMatchingMeaning`, and the used marks agree with it |
| `RenameMatching.StableMatchingIsUnique` | src/graph/db.rs:1283-1296 | stability determines the assignment: there is only one |
| `RenameMatching.StableMatchingMeaning` | src/graph/db.rs:1234-1296 | in terms of rows and symbols alone: exact claims are kept; every pair is exact or eligible; an eligible pair left out shares a side with a taken pair whose bodies agree while its own do not, or that is nearer in lines, or whose row (then symbol) comes first |
| `RenameMatching.EqualBodiesWin` | src/graph/db.rs:1271-1289 | an eligible pair whose bodies agree, and no rival's do, is taken, however near its rivals are |
| `RenameMatching.RenamedInPlaceKeepsItsRow` | src/graph/db.rs:1283-1296 | input: `m.load` is renamed in place to `m.read` while `m.save`, two lines below, is deleted; the symbol keeps the row of `m.load` in either order of the rows |
| `GraphStore.Store.NodesByUri` | src/graph/db.rs:1111-1128 | every row of the file once, orphans included, in no promised order |
| `GraphStore.Store.Park` | src/graph/db.rs:1226-1232 | every row of the file moves to line -id, other rows stay, and over real lines this never hits a unique key |
| `GraphStore.Store.WriteRow` | src/graph/db.rs:1130-1146 | an UPDATE succeeds exactly if no other row has its fqn, or its file, start and name, and its container exists, and changes that row only |
| `GraphStore.Store.UpsertNode` | src/graph/db.rs:642-708 | insert, or take over the row conflicting on fqn or on physical key; fails exactly on a dangling container or when two different rows conflict; every success uses up an id, a new row's id being above all earlier ones |
| `GraphStore.Store.DeleteNode` | migrations/V0001__init.sql:75-79 | a row goes with its edges and caches, and is detached from rows it contained |
| `GraphStore.Store.UpsertEdge` | src/graph/db.rs:941-1006 | the row with the same NULL-safe (src, dst, type, site) key is refreshed, else a new row is added; no two rows ever agree on the key |
| `ReconcileReplay.WriteRefusedExactly` | src/graph/db.rs:1298-1375 | after parking, a symbol's write is refused exactly if its parent comes later or it is blocked: the UPDATE of a claimed row by an earlier symbol, or another file's row, holding its fqn or place, an INSERT by its fqn and its place being held in two different rows |
| `ReconcileForecast.StandsExactly` | src/graph/db.rs:642-672 | as long as no turn was refused, a symbol is still what its row shows exactly if no unclaimed symbol after it competes with it |
| `ReconcileForecast.ForetoldExactly` | src/graph/db.rs:1194-1412 | for any list the transaction fails if and only if a parent comes after its child, a claimed symbol meets a standing competitor or its fqn in another file's row that no earlier symbol takes over, an unclaimed one meets its place and its fqn in two rows, or an unclaimed row has the place of a symbol that stands in the end |
| `ReconcileForecast.DistinctPlacesFailsExactly` | src/graph/db.rs:1194-1412 | with distinct places, as overloads have: exactly if a claimed symbol's fqn is that of an earlier symbol or of another file's row, or an unclaimed row has the place of the last symbol of some fqn |
| `ReconcileForecast.DistinctFqnsFailsExactly` | src/graph/db.rs:1194-1412 | with distinct fqns: exactly if a claimed symbol's place is an earlier symbol's or its fqn another file's, or an unclaimed one's are both, or an unclaimed row has a symbol's place |
| `ReconcileForecast.AdmissibleFailsExactly` | src/graph/db.rs:1194-1412 | without competing symbols the failure can be told before: an unclaimed, not yet orphaned row has an incoming symbol's place, or a renamed row would get an fqn that another file has |
| `ReconcileForecast.ClaimedRivalStopsIt` | src/graph/db.rs:1307-1334 | a claimed symbol whose fqn (or place) an earlier symbol has, places (or fqns) being distinct, makes the reconcile fail |
| `ReconcileReplay.CommitReconciles` | src/graph/db.rs:1194-1412 | for any list a commit leaves each written row with its last symbol, first strikes orphaned in place, second strikes gone with their edges, one valid `contains` edge per parent link, and integrity |
| `ReconcileReplay.CommitOnRows` | src/graph/db.rs:1377-1392 | for any list only unclaimed orphans of the file go, and the orphans left in the file are unclaimed rows |
| `ReconcileReplay.Replay3Means` | src/graph/db.rs:1298-1375 | after k symbols each row written to holds its last symbol, the other rows are as parked, exactly the renamed and updated rows have their edges invalidated, and new ids were taken in order |
| `ReconcileModel.StrikeFits` | src/graph/db.rs:1140-1145 | restoring the line of an unclaimed row is accepted if and only if no standing symbol has its place |
| `ReconcileModel.ApplyStep` | src/graph/db.rs:1298-1375 | one turn of pass 3 puts one more symbol in its row, which may be one an earlier competing symbol or another file had |
| `ReconcileModel.SweepStrikes` | src/graph/db.rs:1377-1392 | a first strike turns the parked row back into the old row marked orphan and invalid |
| `ReconcileModel.SweepDeletes` | src/graph/db.rs:1377-1392 | a second strike removes the row and detaches the rows it contained |
| `ReconcileModel.LinkStep` | src/graph/db.rs:1394-1409 | an upsert of one `contains` edge extends the linked set by its key and touches nothing else |
| `GraphStore.Store.ApplySymbols` | src/graph/db.rs:1298-1375 | the loop succeeds exactly when the replay of pass 3 does, with its tables, ids and counts; with parents first it never reports a missing parent |
| `GraphStore.Store.StrikeRow` | src/graph/db.rs:1377-1392 | delete an orphan; mark any other row and restore its line, unless a unique key forbids it |
| `GraphStore.Store.LinkContainers` | src/graph/db.rs:1394-1409 | the loop succeeds exactly when the replay of pass 5 does, with its tables |
| `GraphStore.Store.DropCalleesCache` | src/graph/db.rs:1205-1208 | the cache rows of the file's own symbols go, no others |
| `ReconcileReplay.Replay5Means` | src/graph/db.rs:1394-1409 | pass 5 between stored rows always succeeds and leaves one valid `contains` edge per parent link, every other edge as it was |
| `ReconcileTheorems.CommitSettles` | src/graph/db.rs:1298-1411 | after any commit the live rows of the file are exactly the symbols' rows, each showing, field for field, the last symbol put there inside its parent's row, with a valid `contains` edge per parent link; without competing symbols no two share a row |
| `ReconcileTheorems.RowOfOtherFile` | src/graph/db.rs:649-661 | a row of another file never goes away; it moves to this file if and only if a symbol carries its fqn, and else stays as it is, save a container that is deleted |
| `ReconcileTheorems.OtherFilesUntouched` | src/graph/db.rs:1194-1412 | a row of another file is unchanged if and only if no symbol carries its fqn and its container is not deleted |
| `ReconcileTheorems.OtherFileUntouchedExactly` | src/graph/db.rs:1194-1412 | another file keeps exactly its rows if and only if no symbol carries the fqn of one of them and the container of none is deleted |
| `ReconcileTheorems.NoStrayRows` | src/graph/db.rs:1194-1412 | no row appears in another file |
| `ReconcileTheorems.ClaimedRowKeepsIdentity` | src/graph/db.rs:1307-1346 | a claimed or revived row keeps its id and stays in the file; it keeps signature, documentation and the other columns the indexer does not own unless a competing symbol is put there later |
| `ReconcileColumns.WrittenRow` | src/graph/db.rs:1307-1375 | column by column: a symbol that no later one displaced is what its row shows, in its parent's row if it has a parent and else in none |
| `ReconcileColumns.InsertedRowIsBlank` | src/graph/db.rs:1349-1372 | a row no stored one was claimed for has the language and external flag of the request, generation 0, and no construct, signature or documentation |
| `ReconcileColumns.FirstRow` | src/graph/db.rs:1349-1372 | input: one symbol reconciled into an empty database; the node table is exactly that one row, every column given |
| `ReconcileColumns.UnclaimedRow` | src/graph/db.rs:1377-1392 | an unclaimed row is gone if it was an orphan; else it is now one, invalid, on its own line and otherwise as it was, save a container that vanished |
| `ReconcileColumns.ForeignRow` | src/graph/db.rs:1194-1412 | a row of another file whose fqn no symbol has is as it was, save a container that vanished |
| `ReconcileColumns.EdgeGoesWithItsEnds` | src/graph/db.rs:1387-1388 | an edge row goes exactly if one of its ends vanishes |
| `ReconcileColumns.KeptEdge` | src/graph/db.rs:1340-1409 | an edge row that stays keeps all but its validity; it is valid afterwards exactly if it links a parent to its symbol, or was valid and neither end was claimed by a symbol with another fqn or hash |
| `ReconcileColumns.NewEdge` | src/graph/db.rs:1394-1409 | every new edge row is a valid `contains` edge without site from a parent's row to its symbol's |
| `ReconcileColumns.LinkOfSymbol` | src/graph/db.rs:1394-1409 | each symbol with a parent has such an edge |
| `ReconcileColumns.SymbolCounts` | src/graph/db.rs:1336-1374 | unchanged, updated, renamed and inserted count the symbols that claimed a row with the same fqn and hash, the same fqn and another hash, another fqn, and no row |
| `ReconcileColumns.RowCounts` | src/graph/db.rs:1377-1392 | orphaned and deleted count the unclaimed rows that were not, and that were, orphans |
| `ReconcileTheorems.EdgesOfSurvivorsStay` | src/graph/db.rs:1315-1346 | edge rows between surviving rows stay; one that is not `contains` is invalidated exactly if an end was renamed or updated |
| `ReconcileTheorems.CountsBalance` | src/graph/db.rs:1301-1411 | unchanged + updated + renamed + inserted is the number of symbols; unchanged + updated + renamed + orphaned + deleted the number of old rows |
| `ReconcileTheorems.CommitKeepsSane` | src/graph/db.rs:1211-1232 | no parking line is committed and `valid` stays the opposite of `orphan`, for any list |
| `ReconcileTheorems.CommitKeepsHomes` | src/graph/db.rs:1298-1375 | containers stay inside their files as long as no symbol carries an fqn of another file |
| `ReconcileConvergence.SettledIsFixpoint` | src/graph/db.rs:1237-1411 | on a file that already holds the list, a run changes no row and no edge but drops the orphans, the references to them and their edges |
| `ReconcileConvergence.ReconcileConverges` | src/graph/db.rs:1237-1411 | after one commit of a list without competing symbols the same list commits again, reports every symbol unchanged and at most deletes orphans; the third run commits too and leaves all rows and edges identical |
| `ReconcileConvergence.RerunFindsNothingNewExactly` | src/graph/db.rs:1237-1411 | after a commit of any list, a rerun finds every symbol unchanged (and commits) if and only if fqns and physical keys are pairwise distinct |
| `ReconcileConvergence.LaterOverloadIsNeverUnchanged` | src/graph/db.rs:1237-1246 | a symbol whose fqn an earlier one has counts as inserted or renamed in every run |
| `ReconcileConvergence.LastOverloadStands` | src/graph/db.rs:642-672 | where places are distinct, the one row of an fqn shows the last symbol that carries it |
| `ReconcileConvergence.OverloadsNeverSettle` | src/indexer/symbol.rs:358-386 | on a rerun the first overload counts as updated, its edges invalidated again, whenever its hash differs from the last one's, and the last is inserted again |
| `ReconcileConvergence.OverloadRerunFailsExactly` | src/graph/db.rs:1248-1282 | with distinct places a rerun fails if and only if a row left over in the file resembles (kind, container prefix, three lines) a symbol whose fqn an earlier one has |
| `ReconcileConvergence.SharedPlaceLosesSymbol` | src/graph/db.rs:662-672 | with distinct fqns, of two symbols with one place the earlier is in no row after a commit |
| `ReconcileConvergence.RerunCommitsExactly` | src/graph/db.rs:1307-1334 | with distinct fqns, a list that has committed commits again if and only if no two symbols share a place |
| `ReconcileFailures.MovedContainerCollides` | src/graph/db.rs:1140-1145 | an unclaimed live row whose place a symbol takes always makes the reconcile collide |
| `ReconcileFailures.RenamedClassWithMethodFails` | src/graph/db.rs:1389-1389 | concrete family: renaming, in place, a class that has a method cannot be reconciled although database and batch are admissible |
| `ReconcileFailures.FunctionTurnedOverloadFails` | src/graph/db.rs:1307-1334 | concrete family: turning function g into an overload of f cannot be reconciled although there is no collision and no name is taken |
| `DbActor.Serve` | src/graph/db.rs:207-337 | the database thread's loop over any sequence of commands is a run: each command takes the tables one `Step` further |
| `DbActor.RunsStaySound` | src/graph/db.rs:207-337 | over every run of all writing commands, in whatever order they arrive, both unique indexes and all references hold in every state, no parking line survives and `valid` is the opposite of `orphan` |
| `DbActor.OrphanHasStrike` | src/graph/db.rs:1377-1392 | a row is an orphan only since the latest committed reconcile of the file it is in, which left it unclaimed, whatever the batches |
| `DbActor.DeletionTakesTwoStrikes` | src/graph/db.rs:1377-1392 | over every run and whatever the batches a row goes away only in a committed reconcile of the file it is in that leaves it unclaimed, right after another one did, and it was that file's orphan in between |
| `GraphStore.Store.FindNodeByPosition` | src/graph/db.rs:854-886 | a valid row of the file that starts at or before the position and ends at or after it, by line and then column, with the least line span, then column span, of all such rows; none exactly if there is none |
| `Innermost.TightestIsInnermost` | src/graph/db.rs:854-867 | the row chosen by span lies inside every other candidate exactly if some candidate does |
| `Innermost.NestedMeansInnermost` | src/graph/db.rs:854-867 | with pairwise nested ranges the chosen row lies inside every other candidate |
| `Innermost.SymbolBeatsModuleRoot` | src/indexer/symbol.rs:87-112 | the module root is never chosen over a symbol that covers the position |
| `CallRefresh.QueryEngine.MaterializeCallEdges` | src/query/resolver.rs:137-265 | whatever the server answers, valid rows exist for exactly the resolved keys on top of what was there; the flag says whether some request timed out; the server is asked where names start (`AskedAtNames`) |
| `CallRefresh.QueryEngine.ResolveOutgoingCallee` | src/query/resolver.rs:281-349 | the callee itself, or the indexed implementations of an interface method in TypeScript or Go, each linked by an `implements` edge; the flag is set exactly if such a method's implementations were asked for and that timed out |
| `CallRefresh.AskedAtNames` | src/query/resolver.rs:144-149 | two servers that agree on the anchor where its name starts, and on each callee's implementations where that name starts, and list the same calls for an item, leave the same edges and the same flag |
| `CallRefresh.OneCallIsFound` | src/query/resolver.rs:310-315 | input: a server that knows one symbol, by line 41 and column 4, and one call in it; a refresh of the symbol whose name starts there makes exactly that call |
| `CallRefresh.RefreshReplaces` | src/graph/db.rs:1088-1094 | invalidate then materialize is an exact replacement: the anchor's valid calls are exactly the resolved (target, site start) pairs, rows with a known key keep their ids, no other row but `implements` links is touched |
| `GraphStore.Store.OutgoingCalls` | src/graph/db.rs:888-921 | exactly one row per valid call edge to a valid node, ordered by the node's sort key |
| `CallPath.RefreshCallees` | src/query/ops.rs:327-343 | afterwards the node's stored callees are the answered ones, every other node keeps its callees, and the hash is stored even after a timeout |
| `CallPath.ExpandOutgoingCalls` | src/query/ops.rs:497-530 | free when the file can be read and the cached hash is that of its text; else, given a client, costs one unit and leaves exactly the answered callees; unusable exactly without a client or with nothing to vouch and no budget |
| `CallPath.ChangedFileIsAskedAgain` | src/query/ops.rs:505-530 | input: the cache row was computed from another text than the file now has; a unit is spent, the answer replaces the callees and the row is that of the new text |
| `CallPath.RefreshFindsTheCallee` | src/query/resolver.rs:144-149 | input: after a refresh by the one-call server the anchor's callees are exactly the called symbol |
| `CallPath.CalleeList` | src/query/ops.rs:456-461 | the grouped neighbors are exactly the stored callees |
| `CallPath.SearchSurvivesExpansion` | src/query/ops.rs:452-456 | rewriting the node being expanded breaks no edge the search has relied on |
| `CallPath.VisitStep` | src/query/ops.rs:461-482 | looking at one callee keeps distances, queue order and paths right |
| `CallPath.SearchExhausted` | src/query/ops.rs:440-485 | an empty queue means no path within the cap, and no path at all if no node was set aside, every reachable node then being expanded |
| `CallPath.FoundIsShortest` | src/query/ops.rs:464-477 | the path returned on meeting the goal is a shortest path of the stored graph and within the cap |
| `CallPath.FindCallPath` | src/query/ops.rs:375-488 | judged by the graph stored at the end: reachable if and only if within the cap, with a shortest path; not reachable without the flag means unreachable, every reachable node having been expanded and vouched for; the flag means no client, spent budget or a node at the cap; at most `maxLspCalls` nodes are refreshed; terminates on every graph; to be vouched for is to have been answered by the server, or to have had a cache row with the hash of the file as it then read |
| `CallQueries.ReadCallsPage` | src/query/ops.rs:571-597 | a page of a listing with exactly one entry per stored callee that passes the filter, with exactly its call sites, ascending; the cursor holds fqn, uri, start line and start column of the last entry |
| `CallQueries.FindCallees` | src/query/ops.rs:304-355 | refreshes the anchor as one expansion with budget would, then pages; the timeout flag is set exactly if a refresh was due and one of its requests timed out; an unresolved anchor changes nothing and has no callees; a file that cannot be read, has no cache row or one of another text is asked about, and its callees are then the answered ones |
| `CallQueries.CalleesListedByName` | src/query/ops.rs:571-597 | entries are in the order of their fqns: at the first difference the smaller character, or none, comes first |
| `CallQueries.CalleesArriveOnce` | src/query/ops.rs:571-597 | following the cursors while nothing changes returns every callee that passes the filter exactly once |
| `CalleesCache.CommitOnCallees` | src/graph/db.rs:1205-1208 | a committed reconcile of another file leaves the anchor's cache row as it was; the callees are then the targets of its valid call edges that the commit neither renamed nor updated and whose rows are valid |
| `CalleesCache.CalleesKeptExactly` | src/graph/db.rs:1340-1344 | the callees are the same if and only if every target of a valid call edge was a valid row exactly when it is one afterwards and was neither renamed nor updated |
| `CalleesCache.CalleesOverRun` | src/query/ops.rs:296-304 | over any stretch of a run up to the next refresh of the anchor or reconcile of its file: the cache row stays, and the callees are the targets that no commit has cut and that are valid rows at the end |
| `CalleesCache.CacheIsExactExactly` | src/query/ops.rs:296-304 | a matching hash means the server's answer at the last refresh if and only if each target has held: valid then exactly if never cut and valid now |
| `CalleesCache.ChangedCalleeIsLost` | src/query/ops.rs:296-304 | input: the callee's body changes, its file is reconciled, and a matching hash vouches for no callees |
| `CalleesCache.RevivedCalleeComesBack` | src/query/ops.rs:296-304 | input: an orphaned callee is found again and the cached set grows |
| `CalleesCache.FailedRefreshSticks` | src/query/ops.rs:327-343 | input: the first request of a refresh times out; the callees are then none, the hash is stored, and the next query for the same text asks nobody and lists nothing |
| `Paging.Paginate` | src/query/mod.rs:118-137 | for a limit of 1 to 500 the first that many of the items past the cursor, and a cursor at the last of them exactly if there are more; 0 acts as 1 and anything above 500 as 500 |
| `Paging.NothingReturnedTwice` | src/query/mod.rs:118-137 | over any sequence of sorted snapshots keys arrive strictly ascending: none twice |
| `Paging.NothingSkipped` | src/query/mod.rs:118-137 | an item present in every snapshot has arrived by the time the cursor is empty |
| `Paging.ReturnedOnce` | src/query/mod.rs:118-137 | the two together: such an item arrives exactly once |
| `Paging.PagesConcatenate` | src/query/mod.rs:118-137 | over a fixed list the pages concatenate to what is past the cursor |
| `Grouping.GroupByNode` | src/query/resolver.rs:407-422 | the rows, sorted, gathered into strictly ascending entries, one per node key, each with all its sites in order |
| `Grouping.GroupingLosesNothing` | src/query/resolver.rs:407-422 | every located site of the neighbor list is in the one entry of its node |
| `Grouping.SitesInOrder` | src/query/resolver.rs:388-404 | the sites of an entry are in order: by uri, then line, then column |
| `Grouping.SortRowsSorts` | src/query/resolver.rs:374-404 | the comparator orders any rows, and sorting permutes them |
| `Grouping.ListingIsPaged` | src/query/resolver.rs:407-422 | group, filter, paginate over a fixed list returns the filtered groups, in order, and finishes |
| `SortKeys.KeyLessTransitive` | src/query/filter.rs:208-216 | the sort key's order is transitive |
| `SortKeys.KeyLessTotal` | src/query/filter.rs:208-216 | different sort keys are ordered one way or the other |
| `SortKeys.KeyLessMeans` | src/query/filter.rs:208-216 | keys compare by fqn, then uri, then line, then column, strings by their first difference |
| `QueryGate.RunsStaySound` | src/query/pool.rs:169-192 | in every interleaving the count is the number of live guards, and a waiter no notification has reached is asleep only while one is still to come |
| `QueryGate.NoLostWakeup` | src/query/pool.rs:788-794 | a sleeping waiter that cannot wake implies a live guard or one about to notify |
| `QueryGate.ReturnedAtAnIdleMoment` | src/query/pool.rs:183-191 | a waiter that returned checked at a moment when no guard was live |
| `QueryGate.WokenByNotification` | src/query/pool.rs:183-191 | a waiter is woken only by a guard that notified after the waiter last created its future |
| `QueryGate.QuietWaitersReturn` | src/query/pool.rs:183-191 | once the guards are gone each own step brings a waiter nearer to returning, whatever the others do; three suffice and it is never stuck |
| `RequestActor.Actor.Serve` | src/lsp/client.rs:216-281 | in every order of commands and inbound events, every request taken gets exactly one reply, the right one, nobody else gets any, and nothing stays pending at the end |
| `RequestActor.Actor.TakeRequest` | src/daemon/client.rs:142-167 | the next id is used up even if the write fails; a failed write is answered at once, and ends only the daemon client |
| `RequestActor.Actor.Dispatch` | src/lsp/client.rs:284-304 | a response goes to the request pending under its id, if any |
| `RequestActor.Actor.Drain` | src/lsp/client.rs:273-281 | whatever is pending is failed with the close reason |
| `RequestActor.IdsNeverRepeat` | src/lsp/client.rs:242-243 | ids strictly increase with the requests |
| `RequestActor.FateIsFirstAnswer` | src/lsp/client.rs:284-304 | a request hears of its failed write, else the first response carrying its own id, else nothing before the end |
| `Supervisor.Supervisor.Run` | src/lsp/supervisor.rs:377-436 | at every wait the state, client, timer, failure count and recorded health are those the story of starts and anomalies determines; a stop leaves no client and no timer |
| `Supervisor.Supervisor.AttemptStart` | src/lsp/supervisor.rs:440-483 | one start attempt extends the story by its outcome, and all fields follow; a failed one leaves one failure more, up to 4294967295, and the pause for that many |
| `Supervisor.Supervisor.Turn` | src/lsp/supervisor.rs:377-436 | one event: an exit seen or a failure reported of a healthy server counts one failure and starts the first pause, and otherwise changes nothing; a stop leaves no client and no timer |
| `Supervisor.Supervisor.TransitionAfterAnomaly` | src/lsp/supervisor.rs:499-513 | one anomaly more: restarting with the next pause, or down with the slow retry at the threshold (slot n-1 for n failures, the fifth for more) |
| `Supervisor.Supervisor.HandleAcquire` | src/lsp/supervisor.rs:517-562 | a client exactly if serving, a first start exactly if never started, and otherwise the error of the state |
| `Supervisor.WaitInvariant` | src/lsp/supervisor.rs:499-513 | never Starting at a wait; Healthy: no failures, no timer; Restarting: 1 to max-1 failures and their pause; Down with a timer: at least max failures; Down without: a provision failure |
| `Supervisor.FailuresCountAnomalies` | src/lsp/supervisor.rs:468-513 | the failure count is that of the anomalies since the last successful start |
| `Supervisor.ProvisionFailureIsForever` | src/lsp/supervisor.rs:447-458 | after a provision failure no possible event changes anything, and every acquire is told Down |
| `Supervisor.ServedClientIsLatest` | src/lsp/supervisor.rs:517-535 | a client handed out is that of the latest start, with no anomaly since |
| `Supervisor.ReportedFailureStopsService` | src/lsp/supervisor.rs:499-513 | a failure reported of a server that is up takes it away: first pause of the table, or the slow retry if no failure is tolerated, and nobody is served meanwhile |
| `Supervisor.PausesFollowTheTable` | src/lsp/supervisor.rs:161-164 | k anomalies below the threshold mean slot k-1 of the table, clamped to the last |
| `Supervisor.RetrySchedule` | src/lsp/supervisor.rs:145-157 | under the real policy the pauses are 1, 2, 4, 8 and then 30 seconds; 16 is never used |
| `Framing.WriteMessage` | src/lsp/transport.rs:32-43 | appends the length header, a blank line and the body |
| `Framing.ReadMessage` | src/lsp/transport.rs:48-79 | one read yields the message, the clean end or the error that the bytes determine, and leaves exactly the rest |
| `Framing.ReaderLoop` | src/lsp/client.rs:185-214 | forwards every message in order and then how the stream ended |
| `Framing.DecimalRoundTrip` | src/lsp/transport.rs:38-66 | parsing the printed length gives the length back, up to the largest 64-bit `usize`, and nothing above it |
| `Framing.WrittenBytes` | src/lsp/transport.rs:32-43 | a frame is the text `Content-Length: `, the length in decimal digits, two line ends and the body |
| `Framing.PaddedLengthRead` | src/lsp/transport.rs:60-66 | blanks around the number and a plus sign before it do not change the length that is read |
| `Framing.ReadsBack` | src/lsp/transport.rs:48-79 | reading a message with any other well-formed headers around its length gives its body and leaves what follows |
| `Framing.MessagesComeOutInOrder` | src/lsp/transport.rs:48-79 | a concatenation of messages is read as those messages, then whatever the rest is |
| `Framing.StreamRoundTrip` | src/lsp/transport.rs:30-79 | reading back a stream of written messages yields their bodies in order, then end of stream |
| `Framing.TooLargeIsRefused` | src/lsp/transport.rs:72-74 | a body over 64 MiB, 67108864 bytes, is an error |
| `Framing.TruncatedFrame` | src/lsp/transport.rs:54-57 | a frame cut inside its headers reads as the clean end, cut inside its body as an error |
| `Flattening.FlattenDocumentSymbols` | src/indexer/symbol.rs:122-154 | pushing onto the shared list yields the pre-order rows of the forest |
| `Flattening.SymbolList.FlattenOne` | src/indexer/symbol.rs:130-154 | one symbol appends the rows of its tree, starting at the present end of the list |
| `Flattening.FqnSpellsAncestors` | src/indexer/symbol.rs:122-154 | parents come first, and an fqn is the module path followed by the names of all ancestors |
| `Flattening.SubtreesAreContiguous` | src/indexer/symbol.rs:130-154 | the descendants of a row are exactly the rows up to the end of its stretch |
| `Flattening.FlatteningIsInvertible` | src/indexer/symbol.rs:122-154 | the forest can be rebuilt from the rows, up to absent versus empty children |
| `Flattening.FlatteningIsInjective` | src/indexer/symbol.rs:122-154 | documents that flatten alike are alike |
| `DocumentBatches.BatchHasParentsFirst` | src/indexer/reconcile.rs:87-108 | what is handed to reconcile, module root included, lists parents first, at real lines |
| `DocumentBatches.DocumentRowShows` | src/indexer/reconcile.rs:87-108 | after a commit the row of a symbol that no later one displaced shows its fqn, name, kind, the label of that kind, both ranges, detail and fingerprint, inside the row of its parent |
| `DocumentBatches.ModuleRootShows` | src/indexer/symbol.rs:87-112 | the module root of an existing file always has its row: kind 2, named by the end of the module path, over the whole file, in no container |
| `DocumentBatches.BatchIsWellFormedExactly` | src/indexer/reconcile.rs:87-108 | it is free of competing symbols if and only if fqns and places of the document's symbols are pairwise distinct and, if the file exists, no symbol at 0:0 is named like it |
| `DocumentBatches.FqnsApartExactly` | src/indexer/symbol.rs:122-154 | with dot-free names, fqns are distinct if and only if no two siblings share a name |
| `DocumentBatches.SymbolNamedLikeItsFile` | src/indexer/symbol.rs:87-112 | a symbol at 0:0 named like its file is in no row after the first commit, and every later reconcile of the same text fails |
| `DocumentBatches.ExtensionIsDropped` | src/indexer/symbol.rs:177-182 | the module path is the path below the root without extension and leading slash, with dots for separators; files that differ in their extension alone share it |
| `DocumentBatches.OutsideTheRoot` | src/indexer/symbol.rs:177-182 | a file not below the root is named by its whole URI, without extension and with dots for separators |
| `DocumentBatches.NoExtension` | src/indexer/symbol.rs:177-182 | a file without an extension keeps all of its path |
| `Fingerprints.ShiftKeepsFingerprintExactly` | src/indexer/symbol.rs:156-174 | without hash collisions, moving a symbol down keeps its fingerprint only if it does not move |
| `Fingerprints.UnchangedExactly` | src/indexer/symbol.rs:156-174 | a symbol with the fqn of a committed one counts as unchanged exactly if name, kind, detail and both absolute ranges agree, and otherwise as updated with its edges invalidated |
| `Fingerprints.InsertedLineUpdates` | src/indexer/symbol.rs:156-174 | input: a line inserted above a symbol makes it count as updated |
| `Fingerprints.ConfidentExactly` | src/graph/db.rs:1155-1169 | a rename pair is confident exactly if kind, detail and both absolute ranges agree, so only if renamed in place |
| `StartupDrift.ReconcileStartupDrift` | src/indexer/reconcile.rs:281-352 | every file of the disk and graph union gets one to six attempts and ends as exactly one of committed, failed or skipped; skipped means six unresolved attempts; the failure count is the number of failed files |
| `StartupDrift.ReconcileUri` | src/indexer/reconcile.rs:199-242 | an attempt changes nothing unless it commits what was fetched, which it does not on a matching hash, an unavailable server or a suspiciously empty answer; a supported file is asked about exactly if its hash is not the recorded one |
| `StartupDrift.DriftCandidates` | src/indexer/reconcile.rs:249-253 | the union of the two lists, without repeats |
| `StartupDrift.FalseEmptyChangesNothing` | src/indexer/reconcile.rs:220-225 | an existing file reported empty while rows of symbols are stored, orphans included, is never reconciled in that attempt |
| `StartupDrift.SkippedRowsUntouched` | src/indexer/reconcile.rs:312-343 | the rows of a skipped file are at the end what they were at the start if and only if no batch the pass committed carries the fqn of one of them and no commit deleted the container of one of them |
| `StartupDrift.RootIsNamedByPath` | src/indexer/symbol.rs:177-182 | what is fetched for an existing file below the root ends with a module root named by the path from the root |
| `StartupDrift.TwinTakesModuleRoot` | src/indexer/symbol.rs:177-182 | committing a.ts moves the module root row of a.py to a.ts |
| `RecordedHash.ReconcileOnChange` | src/indexer/reconcile.rs:125-143 | the live watcher's reconcile: commits what was fetched, whatever it is, and records no hash; an unsupported file or unavailable server changes nothing, an error is reported |
| `RecordedHash.UndoneEditIsKept` | src/indexer/reconcile.rs:177-210 | input: the recorded text is edited, the watcher reconciles the edit, the edit is undone unwatched; the pass accepts the file and its rows stay those of the edit |
| `RecordedHash.RowsShowOverRun` | src/indexer/reconcile.rs:177-187 | over any run a file shows what it showed as long as no command upserts or commits into it or carries an fqn of its rows |
| `RecordedHash.AcceptedRowsExactly` | src/indexer/reconcile.rs:177-210 | the rows a matching hash leaves alone are those of the recorded list if and only if the list committed last is the recorded one up to order |
| `RecordedHash.UntouchedRowsAreRecorded` | src/indexer/reconcile.rs:177-187 | in particular if nothing has touched the file since the commit that recorded the hash, for any list |
| `GraphStore.Store.CountRealNodes` | src/graph/db.rs:835-849 | the number of the file's rows besides its module root, orphans included |
| `GraphStore.Store.KnownUris` | src/graph/db.rs:824-833 | exactly the files with a row that is not an orphan, each once |

## Left out

- SQLite itself, WAL, pragmas and migrations: the model has table contents, unique checks, cascades and rollback.
- Other commands between the statements of one search or one startup pass: each has the database to itself in the model; the database thread, the query gate and the actors are modelled with all interleavings.
- DbActor.Serve: the results sent back to callers are those of the `Store` methods and are not repeated; commands that only read are one `Read`; upserted rows are live and positions are not negative, as all callers make them.
- JSON, base64 and result shaping: message bodies and cursors stand for what they decode to, so an undecodable body or cursor is not modelled.
- A parent index beyond the list, which panics in the code, is reported like a parent not yet written.
- GraphStore.Store.FindNodeByPosition: among rows with equal spans the query's LIMIT 1 leaves the choice open; the model takes the smallest id.
- GraphStore.Store.NodesByUri: the statement has no ORDER BY, so no order is promised and the results hold for every order; the rename order by row index is relative to it.
- CallPath.FindCallPath: resolving the two endpoints, hints for unresolved ones and their timeouts are not modelled; paths are ids, whose rows do not change during the search.
- CallQueries.FindCallees: resolving the anchor is not modelled, and the filter is an arbitrary predicate on rows, which stands for the language, kind and external filters.
- CallRefresh.RefreshReplaces: where a call site ends is not stated; if the server names two ranges with one start, the later one's end is stored.
- The incoming direction of call refreshes, references, definitions, `find_symbol`, hover and signature backfill: they would repeat the outgoing case or add string handling only.
- The set of in-flight background refreshes and the pool of supervisors.
- RequestActor.Actor.Serve: replies to receivers that have gone away are sent all the same; the JSON-RPC error codes are the constructors of `Reply`.
- Ids and counters are unbounded, except the failure count, which saturates at 32 bits, and parsed lengths, which must fit 64 bits.
- Framing.ReadMessage: white space around a length is ASCII white space; Unicode spaces, which the code also trims, are not modelled.
- Supervisor.Supervisor.Run: the process behind a client, its graceful shutdown and the wording of errors are not modelled; time is the length of the armed timer.
- Flattening.FlattenDocumentSymbols: symbol tags, which the code drops, are not in the model; positions are natural numbers without an upper bound.
- RecordedHash.AcceptedRowsExactly: an equivalence for lists without rivals; for lists with rivals only `UntouchedRowsAreRecorded`, one way, is stated, because which of them shows depends on the rows met.
- Fingerprints.UnchangedExactly: assumes that the hash has no collisions, which a 64-bit hash does not guarantee.
- StartupDrift.ReconcileStartupDrift: waiting for idle queries and the pauses between retries are not modelled; reading the walk and the meta table cannot fail.
- Fuzzy matching, provisioning, path confinement, file watching apart from the reconcile it triggers, adapters and the command line.
