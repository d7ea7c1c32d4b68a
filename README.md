# Record index and root-pointer store, with diff projection

A Dafny model of the server's record index (`Database` in
`packages/server/src/db/index.ts`) and of the way a pushed repository is
projected into it (`processDiff` and the `POST /:did` handler in
`packages/server/src/routes/v1/data/repo.ts`).

The database is three kinds of table, held as maps:

- **repo roots**: a DID mapped to its root CID;
- **the catalog** (`AdxRecord`): a record's address string mapped to its DID,
  collection and record key (TID);
- **one plugin table per collection** (posts, likes, follows): the address
  string mapped to the record's content.

Files and modules:

- `adx_uri.dfy` (`AdxUris`): the `did/collection/recordKey` address and its
  string form. The segments contain no `/`, so the string form is injective.
- `tid_order.dfy` (`TidOrder`): the string order SQLite uses for `tid`
  (BINARY collation), the `ORDER BY tid DESC LIMIT count` selection
  (`TopK`) and the default cursor.
- `index_state.dfy` (`Index`): the database as a value, with one function
  per `Database` operation, and the lockstep invariant between the catalog
  and the plugin tables (`WellFormed`).
- `index_properties.dfy` (`IndexProperties`): what those operations promise.
  The lockstep invariant is preserved. Indexing is idempotent and round-trips
  through `getRecord`. Deleting an absent address is a no-op. The listing is
  bounded, strictly ordered and skips nothing.
- `database.dfy` (`Db`): `class Database` with the three tables as fields.
  Its mutating methods update them in place. Each method is proved to leave
  the state that the `Index` function describes, and to keep the lockstep
  invariant.
- `repo_sync.dfy` (`RepoSync`): the diff and the fold that stands in for
  `Promise.all`, plus three methods:
  - `ProcessDiff`, which runs `ProcessChanges`, a loop over the diff's changes;
  - `PostRepo`, which projects, then notifies, then commits the root;
  - `ProjectChange`, the callback for one change.
- `sync_properties.dfy` (`SyncProperties`): properties of the projection:
  - adds and updates behave alike, and deletes load nothing;
  - the error reported is the first one in list order;
  - changes with distinct keys commute, so the result does not depend on the
    order of the changes;
  - after a successful projection each change's address holds what the change
    wrote, and every other address is untouched.

## Model

| member | source | states |
|---|---|---|
| AdxUris.EntryUri | packages/server/src/routes/v1/data/repo.ts:71 | the URI of a diff entry prints as the DID, `/`, then the entry key, and its host is the DID |
| AdxUris.ToStringInjective | packages/server/src/db/index.ts:62-64 | two addresses with the same string form are the same address, so keying the catalog by `uri.toString()` loses nothing |
| AdxUris.EntryUriInjective | packages/server/src/routes/v1/data/repo.ts:71-80 | within one DID, entries with different keys get different address strings |
| TidOrder.LexLeReflexive | packages/server/src/db/index.ts:114-115 | every key is `<=` itself under the column's collation |
| TidOrder.LexLeTotal | packages/server/src/db/index.ts:114-115 | any two keys are comparable |
| TidOrder.LexLeAntisymmetric | packages/server/src/db/index.ts:114-115 | keys that are `<=` each other are equal |
| TidOrder.LexLeTransitive | packages/server/src/db/index.ts:114-115 | the collation is transitive, so `tid <= from` and `ORDER BY tid` are consistent |
| TidOrder.MaxKey | packages/server/src/db/index.ts:115 | a non-empty set of keys has a greatest key under the collation |
| TidOrder.TopK | packages/server/src/db/index.ts:115-116 | `ORDER BY tid DESC LIMIT k`: the selection has `min(k, n)` keys, all from the set, strictly descending, and every key left out is smaller than every key selected |
| TidOrder.TopKFullWhenKeyLeftOut | packages/server/src/db/index.ts:116 | if a candidate key is left out, the limit was reached and is below the number of candidates |
| TidOrder.TopKAllCoversSet | packages/server/src/db/index.ts:115-116 | a limit as large as the candidate set selects every candidate |
| TidOrder.DefaultCursorBoundsShortKeys | packages/server/src/db/index.ts:106 | the default cursor (13 `z`s) is `>=` every key of at most 13 characters, none above `z` (`ShortKey`) |
| TidOrder.FourteenZsAboveDefaultCursor | packages/server/src/db/index.ts:106 | a 14-`z` key is not `<=` the default cursor, so that cursor bounds keys only up to 13 characters |
| Index.FindTable | packages/server/src/db/index.ts:128-138 | `findTableForCollection` returns the first plugin whose collection matches, and fails exactly when none matches |
| Index.Empty | packages/server/src/db/index.ts:20-28 | a fresh database has empty tables, satisfies the lockstep invariant, and holds no root for any DID |
| Index.GetRepoRoot | packages/server/src/db/index.ts:44-49 | `getRepoRoot` returns null exactly when no row holds the DID, and otherwise that row's root |
| Index.SetRepoRoot | packages/server/src/db/index.ts:51-60 | afterwards `getRepoRoot(did)` returns the new root and other DIDs keep theirs; the row count grows only for a new DID, so an existing row is overwritten |
| Index.Validate | packages/server/src/db/index.ts:66-77 | the three checks of `indexRecord`, in order: no error exactly when the host starts with `did:` and the collection and record key are non-empty; a missing prefix is reported first, then an empty collection, then an empty record key |
| Index.IndexRecord | packages/server/src/db/index.ts:62-83 | succeeds exactly when the host starts with `did:`, the collection and record key are non-empty and a plugin exists; otherwise it fails with the first failing check: missing `did:`, empty collection, empty record key, then (for an address that passes all three) an unknown collection; on success the catalog holds the address with the host, collection and key, the plugin table holds the value, and nothing else changes |
| Index.DeleteRecord | packages/server/src/db/index.ts:85-89 | fails only for an unknown collection (the DID is not checked); on success the address is gone from the catalog and from its plugin table, and nothing else changes (assuming the ORM deletes the catalog row keyed by the address string; see "Left out") |
| Index.GetRecord | packages/server/src/db/index.ts:123-126 | fails exactly for an unknown collection, and then with `UnknownCollection` |
| Index.ListCollectionsForDid | packages/server/src/db/index.ts:91-100 | one entry per catalog row of the DID (no de-duplication); a collection appears exactly when some row of the DID has it |
| Index.CandidateTids | packages/server/src/db/index.ts:112-114 | a key is a candidate exactly when some catalog row of the DID and collection has it and it is `<= from` |
| Index.ListUris | packages/server/src/db/index.ts:108-117 | the listing query returns `min(count, n)` addresses for `n` candidates, and all `n` when `count` is 0, since no `LIMIT` is added for 0 |
| Index.GetMany | packages/server/src/db/index.ts:119-120 | a plugin's `getMany` returns no more values than addresses asked for; when every address is present it returns their values, in the order asked |
| Index.ListRecordsForCollection | packages/server/src/db/index.ts:102-121 | fails exactly for an unknown collection, and then with `UnknownCollection`; `from` defaults to the 13-`z` cursor |
| IndexProperties.IndexRecordKeepsWellFormed | packages/server/src/db/index.ts:79-82 | writing the plugin table and then the catalog keeps them in lockstep: every row stored at its own address, every catalogued address in its collection's table, and every table entry catalogued under that table's collection |
| IndexProperties.DeleteRecordKeepsWellFormed | packages/server/src/db/index.ts:85-89 | deleting from both tables keeps them in lockstep |
| IndexProperties.IndexRecordIdempotent | packages/server/src/db/index.ts:62-83 | indexing the same address and value a second time changes nothing, so the address keeps exactly one catalog entry |
| IndexProperties.IndexThenGetRecord | packages/server/src/db/index.ts:123-126 | after `indexRecord(uri, obj)`, `getRecord(uri)` returns `obj` |
| IndexProperties.DeleteThenGetRecord | packages/server/src/db/index.ts:123-126 | after `deleteRecord(uri)`, `getRecord(uri)` returns nothing |
| IndexProperties.DeleteAbsentIsNoop | packages/server/src/db/index.ts:85-89 | deleting an address that is not catalogued, in a known collection, leaves the database as it was |
| IndexProperties.GetRecordMatchesCatalog | packages/server/src/db/index.ts:123-126 | in a consistent database, `getRecord` finds a value exactly when the catalog holds the address |
| IndexProperties.IndexedCollectionIsListed | packages/server/src/db/index.ts:91-100 | after indexing, the record's collection is among the collections listed for its DID |
| IndexProperties.ListedRow | packages/server/src/db/index.ts:108-117 | each address the listing query returns is a catalog row with the DID, the collection and `tid <= from`, carrying the selected key |
| IndexProperties.UnlistedRowIsOlder | packages/server/src/db/index.ts:114-116 | a qualifying row the query leaves out has a smaller key than every returned row, `count` is positive, and the query returned `count` rows |
| IndexProperties.ListUrisSpec | packages/server/src/db/index.ts:108-117 | the listing returns at most `count` rows (any number when `count` is 0), all qualifying and in strictly descending key order; it skips no qualifying row with a larger key, and returns all of them when it returns fewer than `count` or `count` is 0 |
| IndexProperties.OmittedCursorKeepsEveryRow | packages/server/src/db/index.ts:106-114 | with the default cursor, every row of the DID and collection whose key is a short key (every TID) passes the `tid <= from` filter |
| IndexProperties.ListRecordsReturnsPluginValues | packages/server/src/db/index.ts:102-121 | for a known collection, `listRecordsForCollection` returns one plugin value per listed address, in the listing's order |
| Db.Database.constructor | packages/server/src/db/index.ts:12-28 | the posts, likes and follows plugins over empty tables; the object is consistent and equals `Index.Empty` |
| Db.Database.SetRepoRoot | packages/server/src/db/index.ts:51-60 | the find-or-create then save updates the roots field as `Index.SetRepoRoot` says and keeps the object consistent |
| Db.Database.IndexRecord | packages/server/src/db/index.ts:62-83 | on success, the in-place writes (plugin table, then catalog) leave the state `Index.IndexRecord` describes; on failure it reports the same error and nothing changes; consistency is kept |
| Db.Database.DeleteRecord | packages/server/src/db/index.ts:85-89 | on success, the deletes from both tables leave the state `Index.DeleteRecord` describes; on failure it reports the error and nothing changes |
| RepoSync.Changes | packages/server/src/routes/v1/data/repo.ts:69-84 | the changes handed to `Promise.all`: the adds, then the updates, then the deletes, each tagged with its list |
| RepoSync.ChangeErrorOrder | packages/server/src/routes/v1/data/repo.ts:69-82 | a change fails exactly when it is an add or update whose block is missing or whose address fails a check, or its collection has no plugin; an add or update reports a missing block before any check, then the check's error; a delete can fail only with an unknown collection |
| RepoSync.ApplyChange | packages/server/src/routes/v1/data/repo.ts:69-82 | one callback: its error is decided by the change alone (missing block, a failed check, unknown collection); a failing change writes nothing; roots are never touched |
| RepoSync.ApplyChanges | packages/server/src/routes/v1/data/repo.ts:84 | the fold fails exactly when some change fails, and never touches the roots |
| RepoSync.Sync | packages/server/src/routes/v1/data/repo.ts:53-57 | the handler succeeds exactly when projection and notification both succeed; a projection error is reported as is, and otherwise a failed notification is reported as `NotifyFailed`; the root becomes `repo.cid` only then; on failure the roots are unchanged; other DIDs' roots never change; the record tables are what the projection left |
| RepoSync.ProjectChange | packages/server/src/routes/v1/data/repo.ts:69-82 | the callback on the database object: load the block and index it, or delete; the result is `ApplyChange` |
| RepoSync.ProcessChanges | packages/server/src/routes/v1/data/repo.ts:84 | the loop running each change's callback in turn leaves the database in the fold's state, with the fold's error, and consistent |
| RepoSync.ProcessDiff | packages/server/src/routes/v1/data/repo.ts:62-87 | the adds, updates and deletes, in that order, run through their callbacks; the database ends in the fold's state over `Changes(diff)`, with its error |
| RepoSync.PostRepo | packages/server/src/routes/v1/data/repo.ts:53-57 | `processDiff`, then `notifySubscribers`, then `setRepoRoot`, stopping at the first failure; the outcome is `Sync` |
| SyncProperties.AddAndUpdateAgree | packages/server/src/routes/v1/data/repo.ts:69-78 | an add and an update of the same entry have the same effect and the same error |
| SyncProperties.DeleteIgnoresBlockstore | packages/server/src/routes/v1/data/repo.ts:79-82 | a delete's outcome does not depend on the blockstore |
| SyncProperties.FirstErrorReported | packages/server/src/routes/v1/data/repo.ts:84 | a failed fold reports the error of a failing change with no failing change before it |
| SyncProperties.ApplyChangesKeepsWellFormed | packages/server/src/routes/v1/data/repo.ts:69-84 | projecting any list of changes one at a time keeps the catalog and the plugin tables in lockstep; for the concurrent program this carries over only when the diff's keys are distinct (see `RepoSync.ApplyChanges` below) |
| SyncProperties.ChangeWrites | packages/server/src/routes/v1/data/repo.ts:69-82 | a change that succeeds writes its own address in the catalog and in its plugin table, and nothing else |
| SyncProperties.ChangesCommute | packages/server/src/routes/v1/data/repo.ts:84 | two changes with different keys give the same state in either order |
| SyncProperties.MoveToEnd | packages/server/src/routes/v1/data/repo.ts:84 | a change whose key no later change shares can be applied last instead |
| SyncProperties.OrderIndependent | packages/server/src/routes/v1/data/repo.ts:84 | when the keys are distinct, any permutation of the changes gives the same final state |
| SyncProperties.SuccessIndependentOfOrder | packages/server/src/routes/v1/data/repo.ts:84 | whether the projection succeeds does not depend on the order of the changes |
| SyncProperties.OtherAddressesUntouched | packages/server/src/routes/v1/data/repo.ts:69-84 | an address no change targets holds the same catalog row and table values after the projection |
| SyncProperties.ChangeTakesEffect | packages/server/src/routes/v1/data/repo.ts:69-84 | after a successful projection with distinct keys, each change's address holds what that change wrote |
| SyncProperties.DiffEffect | packages/server/src/routes/v1/data/repo.ts:69-84 | after a successful `processDiff` with distinct keys: every added or updated address is in the catalog and its plugin table, with its block's content; every deleted address is in neither; every address the diff does not mention is untouched |

## Left out

- The ORM and its bootstrap are not modelled: `DataSource`, `synchronize`, and the `sqlite` and `memory` factories. The repositories are maps, and the constructor takes the three plugins' collection names as parameters.
- The two `console.log` calls in `findTableForCollection` are logging only.
- The plugin internals are not part of this model. Each plugin is its collection name and a map from address string to content. `getMany` is taken to return values in the order of the addresses asked for and to skip absent ones.
- CID and AdxUri parsing and printing are not modelled. CIDs are opaque strings. URIs arrive already split into host, collection and record key, with no `/` in any segment. An entry key whose path does not split into exactly a collection and a record key is not modelled.
- Raw row objects from `getRawMany` are not modelled. `listCollectionsForDid` returns a map from each catalog row's address to its collection, because the query has no ORDER BY and its row order is unspecified. The listing query returns address strings.
- The Express routes are not modelled: the GET route, the CAR export, request parsing, the `util.*` helpers and the HTTP responses.
- Repository loading and verification are external: `loadAndVerifyDiff`, `Repo.fromCarFile` and `verifySetOfUpdates`. The diff is an input of three lists of `{key, cid}`, and the blockstore is a map from CID to content.
- RepoSync.PostRepo: `notifySubscribers` is an external call that does not touch the index. The model takes its outcome as a boolean `notified`. A failed notification stops the handler before `setRepoRoot`, so the root is not committed.
- RepoSync.ApplyChanges: `Promise.all` runs concurrently; the model is a sequential fold in list order. A failing change writes nothing and does not stop the other changes. The error the model reports is the first one in list order; the real rejection is whichever failure happens first in time. Interleavings of concurrent writes to the same address are not modelled. For example, an add and a delete of one key can interleave as `table.set`, both deletes, then `recordTable.save`, which leaves a catalog row with no plugin row. So lockstep for the program needs distinct keys.
- Index.DeleteRecord: the two deletes run concurrently in the source. In the model they are one step, since they touch different tables.
- Index.DeleteRecord: the model assumes `recordTable.delete(uri)` removes the catalog row keyed by `uri.toString()`. The source passes the `AdxUri` object itself as the delete criteria, while `indexRecord` stores the row under the string `uri.toString()`. Whether the ORM matches that row, matches nothing, or throws is decided by the ORM, which is not part of this model. `Db.Database.DeleteRecord`, `IndexProperties.DeleteRecordKeepsWellFormed`, `IndexProperties.DeleteThenGetRecord` and the deleted-address part of `SyncProperties.DiffEffect` rest on this assumption.
- TidOrder.LexLe: SQLite's BINARY collation compares UTF-8 bytes. The model compares characters, which gives the same order for keys in the Basic Multilingual Plane.
- TidOrder.DefaultCursorBoundsShortKeys: the comment on the default cursor says it has 14 `z`s; the literal has 13. The model uses the literal. The bound is proved only for keys of at most 13 characters with none above `z`, and `FourteenZsAboveDefaultCursor` shows that the restriction is needed.
- Index.ListUris: `count` is a `nat`; a negative or fractional limit, and the integer width of `count`, are not modelled. A limit of 0 selects every candidate because the query builder adds a `LIMIT` clause only for a non-zero limit. The query builder is not part of this model.
