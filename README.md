# application-services storage and sync cores, in Dafny

A Dafny model of six small cores of Mozilla's application-services
repository (Rust), with the properties their code and tests promise proved
about the model.

- **storage-sync connection manager** (`storage_db.dfy`, module `StorageDb`).
  Each database path has one `StorageDb` manager. The manager holds the only
  ReadWrite connection in a slot that callers check out and give back. It
  holds a flag that is set while the only Sync connection is out. It also
  holds an id that every connection it issues carries. A process-wide
  registry (`APIS`) maps each path to a weak reference to its manager, and
  every registry call draws a new id from `ID_COUNTER`. A schema-upgrade
  failure on the first open deletes the file and retries the open once. The
  module also covers the `ConnectionType` byte encoding, its SQLite open
  flags, and the path helpers `unurl_path`, `normalize_path` and
  `ensure_url_path`.
- **webext-storage API** (`webext_storage.dfy`, module `WebextStorage`).
  Each extension guid has one JSON object. `set` merges new fields into it
  shallowly. `get` selects keys from it. `clear` deletes it.
- **Sync-manager registration and result escalation** (`sync_manager.dfy`,
  `logins_store.dfy`, `tabs_store.dfy`). The logins and tabs stores each
  register themselves in a process-wide weak slot. `Arc` and `Weak` are
  modelled as an object with strong and weak counts. Their single-engine
  `sync` wrappers turn the report of `sync_multiple` into one result.
- **`decode_root_hash`** (`content_signature.dfy`, module
  `ContentSignature`). The input is split on `:`, each piece is hex-decoded,
  the bytes are concatenated, and exactly 32 bytes are required.
- **places command-line utility** (`places_utils.dfy`, module `PlacesUtils`).
  This covers `convert_node` (desktop bookmark backup to bookmark tree), the
  filtering in `do_import`, and the engine selection, wipe/reset pass and
  global-state write-back of `sync`.

`wrappers.dfy` holds the shared `Option`, `Result` and `u8` types.

The SQL engine, the file system, URL parsing, `sync_multiple` and the
database calls of the places utility are not modelled. Each operation that
would call one takes that call's outcome as a parameter (`None` for success,
`Some(e)` for the error it reports) or takes a function standing for it.
The mutexes and atomics become plain fields, because each operation runs
sequentially in the model.

## Model

| member | source | states |
|---|---|---|
| `StorageDb.ToPrimitive` | components/storage-sync/src/db.rs:198-204 | the `repr(u8)` discriminant of a connection type is 1, 2 or 3 |
| `StorageDb.FromPrimitive` | components/storage-sync/src/db.rs:207-214 | a byte names a connection type exactly when it is 1, 2 or 3 |
| `StorageDb.FromPrimitiveInvertsRepr` | components/storage-sync/src/db.rs:198-214 | decoding the discriminant of any type gives that type back |
| `StorageDb.ReprInvertsFromPrimitive` | components/storage-sync/src/db.rs:198-214 | every byte that decodes is the discriminant of the type it decodes to |
| `StorageDb.RusqliteFlags` | components/storage-sync/src/db.rs:218-227 | every type has NO_MUTEX and URI; READ_ONLY exactly for ReadOnly; READ_WRITE exactly for ReadWrite and Sync; CREATE exactly for ReadWrite |
| `StorageDb.StorageDb.constructor` | components/storage-sync/src/db.rs:74-81 | a new manager holds its own ReadWrite connection in the slot and has the sync flag clear |
| `StorageDb.StorageDb.OpenConnection` | components/storage-sync/src/db.rs:108-131 | ReadOnly leaves the slot alone and succeeds unless the engine fails. ReadWrite empties the slot and returns what it held, or fails with ConnectionAlreadyOpen when the slot was empty. Sync is excluded, because the source panics |
| `StorageDb.StorageDb.OpenSyncConnection` | components/storage-sync/src/db.rs:133-151 | the code as written: a set flag gives ConnectionAlreadyOpen; otherwise the flag is set and a guard is returned, or the engine error is returned with the flag left set |
| `StorageDb.StorageDb.OpenSyncConnectionReleasing` | components/storage-sync/src/db.rs:133-151 | the corrected open: the same results, and afterwards the flag is set exactly when it was set before or a guard was returned |
| `StorageDb.StorageDb.CloseConnection` | components/storage-sync/src/db.rs:155-166 | a foreign connection gives WrongApiForClose and changes nothing. An own ReadWrite connection refills the empty slot (the source asserts that it is empty). Other own connections succeed and change nothing |
| `StorageDb.StorageDb.NewSyncConnInterruptHandle` | components/storage-sync/src/db.rs:169-175 | on the open as written: ConnectionAlreadyOpen while a Sync connection is out. An engine failure is returned and leaves the flag set. Otherwise the result is a handle on a Sync connection of this manager, and the dropped guard leaves the flag clear |
| `StorageDb.StorageDb.NewSyncConnInterruptHandleReleasing` | components/storage-sync/src/db.rs:169-175 | the same results on the corrected open, with the flag ending as it started |
| `StorageDb.DropSyncConn` | components/storage-sync/src/db.rs:185-189 | dropping the guard clears the issuing manager's flag |
| `StorageDb.Disk.RemoveFile` | components/storage-sync/src/db.rs:91 | the file is gone afterwards; the call fails with an I/O error exactly when it did not exist |
| `StorageDb.Disk.CreateFile` | components/storage-sync/src/db.rs:218-223 | a ReadWrite open, which carries `SQLITE_OPEN_CREATE`, leaves the database file on disk |
| `StorageDb.PlanOpen` | components/storage-sync/src/db.rs:62-96 | a live manager is reused exactly when one exists; the first open builds exactly when it succeeds; a failure that does not lead to deletion is returned as it is; deletion of a missing file gives an I/O error |
| `StorageDb.FilesAfter` | components/storage-sync/src/db.rs:68-91 | after the registry step the path is on disk exactly when a file-backed open built the manager, or when it was there and was not removed; no other file changes |
| `StorageDb.PlanRetriesAtMostOnce` | components/storage-sync/src/db.rs:86-96 | the open is retried at most once, and only after DatabaseUpgradeError with deletion allowed and the file removed; without deletion the first error is returned |
| `StorageDb.Apis.constructor` | components/storage-sync/src/db.rs:25-29 | the registry starts empty with the id counter at 0 |
| `StorageDb.Apis.NewOrExistingInto` | components/storage-sync/src/db.rs:56-100 | every call draws an id. A live manager for the path is returned with the registry unchanged. A new manager is registered only after its open succeeds, with an id no other manager has. A failure leaves the registry unchanged. The file is removed only on the upgrade-failure path, and a successful open of an on-disk database leaves the file in place, also after the retry |
| `StorageDb.Apis.NewOrExisting` | components/storage-sync/src/db.rs:102-105 | the registry step with deletion on upgrade failure allowed, with the same reuse, build, fail and file outcomes |
| `StorageDb.Apis.New` | components/storage-sync/src/db.rs:44-47 | a path that fails to normalize gives that error and touches neither the registry nor the disk. Otherwise the registry step runs on the normalized path, with its reuse, build, fail and file outcomes, and a successful open leaves the file on disk |
| `StorageDb.Apis.NewMemory` | components/storage-sync/src/db.rs:52-55 | the registry step on the shared in-memory URI built from the name, with its reuse, build and fail outcomes; no file is created |
| `StorageDb.Apis.ReleaseManager` | components/storage-sync/src/db.rs:25-26 | once a manager's last owner lets go, its registry entry no longer upgrades and nothing else changes |
| `StorageDb.MemoryPath` | components/storage-sync/src/db.rs:53 | the in-memory URI starts with `file:` followed by the name |
| `StorageDb.MemoryPathInjective` | components/storage-sync/src/db.rs:52-55 | different names give different URI strings |
| `StorageDb.UnurlPath` | components/storage-sync/src/db.rs:378-390 | a path that parses as a `file:` URL with a file path becomes that file path; any other path is kept as it is |
| `StorageDb.PushPath` | components/storage-sync/src/db.rs:437 | appending a file name keeps the directory as prefix, ends with the name, and puts exactly one separator before it (none is added after a directory that ends in `/`) |
| `StorageDb.PushPathSingleSeparators` | components/storage-sync/src/db.rs:437 | pushing a file name onto a path without doubled separators gives a path without doubled separators |
| `StorageDb.PushPathRoot` | components/storage-sync/src/db.rs:436-437 | a file in the root directory normalizes to `/x.db`, not `//x.db` |
| `StorageDb.NormalizePath` | components/storage-sync/src/db.rs:414-439 | an existing path becomes its canonical form. Otherwise: no file name or no parent gives IllegalDatabasePath of the un-URL-ed path; a parent that cannot be canonicalized gives an I/O error; else the result is the canonical parent with the file name pushed, with one separator between them. Each error arises only in its case |
| `StorageDb.EnsureUrlPath` | components/storage-sync/src/db.rs:396-408 | a `file:` URL is returned as it is. A URL of another scheme, or a path that cannot become a file URL, gives IllegalDatabasePath of the input |
| `StorageDb.WriteSlotScenario` | components/storage-sync/src/db.rs:108-166 | a second ReadWrite open before the close fails with ConnectionAlreadyOpen; after the close the same connection is handed out again |
| `StorageDb.SyncFlagScenario` | components/storage-sync/src/db.rs:133-189 | of two Sync opens exactly one succeeds; after its guard is dropped a retry succeeds |
| `StorageDb.StuckSyncFlagScenario` | components/storage-sync/src/db.rs:133-151 | as written, an engine failure leaves the flag set and every later Sync open fails |
| `StorageDb.ReleasedSyncFlagScenario` | components/storage-sync/src/db.rs:133-151 | with the flag released on failure, the next Sync open succeeds |
| `StorageDb.RetryRecreatesFileScenario` | components/storage-sync/src/db.rs:86-92 | a schema-upgrade failure on an existing file removes it, the retried open succeeds, and the file is on disk again |
| `StorageDb.SamePathScenario` | components/storage-sync/src/db.rs:56-105 | opening the same path twice while the first manager is held gives the same manager |
| `WebextStorage.AsMap` | components/webext-storage/src/api.rs:76-79 | an object argument contributes its fields; any other argument contributes nothing |
| `WebextStorage.Merge` | components/webext-storage/src/api.rs:74-92 | with nothing stored, the stored object is the new fields. Otherwise its keys are the old and new keys, new fields overwrite, and old fields not mentioned are kept |
| `WebextStorage.MergeNonObject` | components/webext-storage/src/api.rs:76-91 | a non-object argument leaves the stored object as it was, or stores `{}` when there was none |
| `WebextStorage.Select` | components/webext-storage/src/api.rs:110-137 | `null` selects the whole object. A string selects that key if present. An array selects exactly the present string keys it lists and ignores other elements. Any other key gives `null`. Selected values are the stored ones |
| `WebextStorage.SelectStringAsArray` | components/webext-storage/src/api.rs:110-134 | a string key selects what the one-element array of it selects |
| `WebextStorage.ExtensionData.GetFromDb` | components/webext-storage/src/api.rs:13-30 | a stored object is returned; a missing row, or a stored value that is not an object, reads as none |
| `WebextStorage.ExtensionData.SaveToDb` | components/webext-storage/src/api.rs:32-40 | the row for the guid is inserted or replaced and no other row changes |
| `WebextStorage.ExtensionData.RemoveFromDb` | components/webext-storage/src/api.rs:42-50 | the row for the guid is deleted and no other row changes |
| `WebextStorage.ExtensionData.Set` | components/webext-storage/src/api.rs:66-100 | the key-by-key loop stores the shallow merge, and only that row changes; the change reports the previous object (or none) and exactly the saved object |
| `WebextStorage.ExtensionData.Get` | components/webext-storage/src/api.rs:103-138 | with nothing stored the result is `null` whatever the key; otherwise the array loop computes the selection; nothing is written |
| `WebextStorage.ExtensionData.Clear` | components/webext-storage/src/api.rs:140-142 | the guid's row is gone, so a later read finds nothing, and other rows are untouched |
| `WebextStorage.SimpleScenario` | components/webext-storage/src/api.rs:152-197 | the component's unit test: `null` before any set, no old value on the first set, the merged object and the previous object on the second set, `null` after clear |
| `SyncManager.ArcCell.constructor` | components/tabs/src/sync/store.rs:149-151 | a new `Arc` has one strong and no weak reference |
| `SyncManager.CloneArc` | components/tabs/src/sync/store.rs:152 | cloning adds one strong reference |
| `SyncManager.DropArc` | components/tabs/src/sync/store.rs:161 | dropping removes one strong reference |
| `SyncManager.WeakSlot.Replace` | components/logins/src/store.rs:84-89 | the slot now refers to the new target. The new target gains a weak reference unless it already was the target. The previous target loses one. No strong count changes |
| `SyncManager.WeakSlot.Upgrade` | components/tabs/src/sync/store.rs:24-26 | upgrading succeeds exactly when the target exists and has a strong owner, and then adds a strong reference to that same target |
| `SyncManager.Escalate` | components/logins/src/store.rs:74-80 | the result is Ok exactly when the overall result is Ok and the engine's entry is missing or Ok. An overall error comes first, then the engine's error. Ok carries the telemetry |
| `SyncManager.EscalateIgnoresOtherEngines` | components/logins/src/store.rs:77-80 | what other engines report has no bearing on the result |
| `SyncManager.EscalateOverallFirst` | components/tabs/src/sync/store.rs:115-117 | an overall failure wins whatever the engine's entry says |
| `LoginsStore.LoginStore.constructor` | components/logins/src/store.rs:31-33 | a store owns a fresh `Arc` around its implementation |
| `LoginsStore.LoginStore.RegisterWithSyncManager` | components/logins/src/store.rs:84-89 | the slot now refers to this store's implementation, so the last registration wins; no strong reference is kept |
| `LoginsStore.LoginStore.Sync` | components/logins/src/store.rs:41-81 | a failed state read is returned. Otherwise `sync_multiple` runs from the persisted state and a fresh in-memory cache. The state it leaves is written back before the result is escalated under "passwords", and a failed write-back is returned |
| `LoginsStore.RegistrationScenario` | components/logins/src/store.rs:434-460 | the component's test: counts (1, 1) after registering, the slot upgrades to the same implementation, counts unchanged after that upgrade is dropped, no upgrade after the store is dropped |
| `TabsStore.GetRegisteredSyncEngine` | components/tabs/src/sync/store.rs:23-34 | nothing when the slot does not resolve; otherwise a tabs engine holding a new strong reference to the registered store; other engine ids are excluded, because the source marks them unreachable |
| `TabsStore.GetAll` | components/tabs/src/sync/store.rs:58-63 | the stored remote tabs, or the empty list |
| `TabsStore.RegisterWithSyncManager` | components/tabs/src/sync/store.rs:129-132 | the slot now refers to the store; the consumed strong reference is dropped |
| `TabsStore.Sync` | components/tabs/src/sync/store.rs:76-122 | credential errors come first; then an overall failure, then a failure under "tabs"; otherwise the serialized telemetry |
| `TabsStore.RegistrationScenario` | components/tabs/src/sync/store.rs:147-168 | the component's test: counts (1, 1) after registering a clone, the slot upgrades to the same store, no upgrade after the store is dropped |
| `ContentSignature.Split` | components/support/rc_crypto/src/contentsignature.rs:9 | at least one piece, no piece contains `:`, and joining the pieces with `:` gives the input back |
| `ContentSignature.SplitJoin` | components/support/rc_crypto/src/contentsignature.rs:9 | splitting a `:`-join of pieces without `:` gives those pieces |
| `ContentSignature.HexDecode` | components/support/rc_crypto/src/contentsignature.rs:13 | a piece decodes exactly when it has even length and only hex digits, and then to half as many bytes |
| `ContentSignature.DecodePieces` | components/support/rc_crypto/src/contentsignature.rs:12-18 | the pieces decode exactly when every piece does |
| `ContentSignature.RootHash` | components/support/rc_crypto/src/contentsignature.rs:8-25 | a success is exactly 32 bytes; every failure is RootHashFormatError carrying the input |
| `ContentSignature.DecodeRootHash` | components/support/rc_crypto/src/contentsignature.rs:8-25 | the loop returns the specification's result: Ok exactly when every piece decodes and the concatenation is 32 bytes, and then that concatenation |
| `ContentSignature.DecodeNonePrefix` | components/support/rc_crypto/src/contentsignature.rs:13-16 | a bad piece among the first ones makes the whole input undecodable, so returning early is right |
| `ContentSignature.BadPieceRejected` | components/support/rc_crypto/src/contentsignature.rs:13-16 | any piece that is not valid hex makes the input a format error |
| `ContentSignature.DecodePiecesConcat` | components/support/rc_crypto/src/contentsignature.rs:17 | decoding a list of pieces is the in-order concatenation of decoding its parts |
| `ContentSignature.DecodeEncodePieces` | components/support/rc_crypto/src/contentsignature.rs:12-18 | bytes written as two-digit upper-case hex pieces decode back to those bytes |
| `ContentSignature.RootHashRoundTrip` | components/support/rc_crypto/src/contentsignature.rs:8-25 | 32 bytes written as `:`-separated hex pairs decode back to those bytes |
| `ContentSignature.RootHashTestVector` | components/support/rc_crypto/src/contentsignature.rs:31-45 | the test's `ROOT_HASH` decodes to the listed 32 bytes |
| `ContentSignature.RootHashRejectsNonHex` | components/support/rc_crypto/src/contentsignature.rs:35 | "meh!" is a format error |
| `ContentSignature.RootHashRejectsShort` | components/support/rc_crypto/src/contentsignature.rs:36 | "3C:01:44" decodes but is a format error for being three bytes long |
| `PlacesUtils.ToTimestamp` | components/places/examples/places-utils.rs:63-64 | a present timestamp is divided by 1000 (rounded down); a missing one stays missing |
| `PlacesUtils.ConvertNode` | components/places/examples/places-utils.rs:49-85 | the result is none exactly for a bookmark without a URI. Guid, timestamps, title and URL are carried over. Separators and folders always convert. A folder's children are the converted children |
| `PlacesUtils.ConvertChildren` | components/places/examples/places-utils.rs:81 | converting children never yields more nodes than items |
| `PlacesUtils.ConvertChildrenSingle` | components/places/examples/places-utils.rs:81 | one child gives its conversion, or nothing when it is dropped |
| `PlacesUtils.ConvertChildrenAppend` | components/places/examples/places-utils.rs:81 | conversion distributes over concatenation, so the survivors keep their order |
| `PlacesUtils.ConvertNodeShrinks` | components/places/examples/places-utils.rs:49-85 | a converted tree has no more nodes than the backup it came from |
| `PlacesUtils.ConvertChildrenShrink` | components/places/examples/places-utils.rs:81 | converted children have no more nodes in all than the items they came from |
| `PlacesUtils.Folders` | components/places/examples/places-utils.rs:108-115 | the children kept are all folders and no more than the input |
| `PlacesUtils.FoldersOfNodes` | components/places/examples/places-utils.rs:108-115 | every kept child is one of the children, and a list of folders only is kept whole |
| `PlacesUtils.FoldersAppend` | components/places/examples/places-utils.rs:108-115 | keeping folders distributes over concatenation, so their order is kept |
| `PlacesUtils.ImportTargets` | components/places/examples/places-utils.rs:91-115 | nothing is imported unless the tree is a folder with the root guid; then its folder children are imported, in order |
| `PlacesUtils.FirstFailure` | components/places/examples/places-utils.rs:117 | the index of the first failing insert is at most the number of inserts |
| `PlacesUtils.FirstFailureIsFirst` | components/places/examples/places-utils.rs:117 | every insert before that index succeeds and the one at it fails |
| `PlacesUtils.PlacesDb.DoImport` | components/places/examples/places-utils.rs:87-120 | the loop inserts the import targets in order up to the first failing one and returns its error, or Ok when none fails |
| `PlacesUtils.Insert` | components/places/examples/places-utils.rs:180-181 | inserting into a strictly sorted list keeps it strictly sorted and adds exactly that name |
| `PlacesUtils.SortDedup` | components/places/examples/places-utils.rs:180-181 | `sort` then `dedup`: strictly increasing, with exactly the names of the input |
| `PlacesUtils.EnginesFor` | components/places/examples/places-utils.rs:182-191 | one store per name, in the same order |
| `PlacesUtils.SelectEngines` | components/places/examples/places-utils.rs:174-192 | no names give bookmarks then history. Otherwise a store is selected exactly when its name was given, bookmarks before history, each once |
| `PlacesUtils.SortedKnownNames` | components/places/examples/places-utils.rs:180-191 | a strictly sorted list of known engine names is one of the three sorted lists of them, or empty |
| `PlacesUtils.PlannedActions` | components/places/examples/places-utils.rs:193-200 | every planned action is on one of the selected stores, and a wipe or a reset is planned only when that kind was requested |
| `PlacesUtils.StorePlan` | components/places/examples/places-utils.rs:193-200 | one store's actions: its wipe first when asked for, its reset last when asked for, both on that store |
| `PlacesUtils.PlanLength` | components/places/examples/places-utils.rs:193-200 | each store contributes one action per requested kind |
| `PlacesUtils.WipeBeforeReset` | components/places/examples/places-utils.rs:193-200 | with both requested, each store's wipe comes right before its reset, store by store |
| `PlacesUtils.WipeAndReset` | components/places/examples/places-utils.rs:193-200 | the loop performs the planned actions in order up to the first failing one, whose error it returns |
| `PlacesUtils.RunStore` | components/places/examples/places-utils.rs:194-199 | one store's actions in order, stopping at the first failure |
| `PlacesUtils.PerformAction` | components/places/examples/places-utils.rs:195 | an action is recorded exactly when it succeeds, and its error is reported otherwise |
| `PlacesUtils.Sync` | components/places/examples/places-utils.rs:160-252 | setup errors come first; then the wipe/reset pass, whose failure ends the command; then the state read; then the state left by `sync_multiple` is written back whether or not the sync failed; a failed sync alone does not fail the command |
| `PlacesUtils.PlanAppend` | components/places/examples/places-utils.rs:193 | the plan for two lists of stores is the two plans in order |

## Left out

- SQLite itself: the pragmas and schema set-up of every connection, `PRAGMA optimize` on drop, the cooperative transaction lock and interrupt counters. These are engine calls; each open is an outcome parameter.
- Concurrency: the registry mutex, the write-slot mutex and the atomic flag are plain fields, and each operation runs sequentially. The model does not capture interleavings between threads.
- Registry keys: the registry compares paths as strings. `PathBuf` compares them component by component, so names such as `a//b` and `a/b`, which the program maps to one registry entry, are two entries in the model. Only `PushPath` keeps paths in single-separator form.
- `ID_COUNTER` is an unbounded natural number; `usize` wrap-around after 2^64 calls is not modelled.
- The file system and URL parsing (`canonicalize`, `file_name`, `parent`, `Url::parse`, `Url::from_file_path`) are function parameters of `StorageDb.FileSystem`. `fs::remove_file` is the `Disk` class, which knows only which files exist.
- Dropping a ReadWrite connection without closing it: the model has no drop for it, so the slot stays empty, as it does in the code.
- Arc/Weak: only the counts of the one allocation a slot refers to are modelled. Freeing the allocation and the identity of the `LoginStoreImpl` or `TabsStore` contents are not.
- webext-storage: JSON is a datatype with integer numbers. Serializing it to text, parse errors of a stored row, SQL errors and key order within an object are not modelled.
- logins and tabs `sync`: `sync_multiple`, `LoginsSyncEngine`, `TabsEngine` and telemetry serialization are parameters. The sync15 internals and the credentials objects are out of scope. `reset`, `bridged_engine`, `set_local_tabs` and the logins delegate methods forward to unseen code.
- places `convert_node`: `BookmarkType::from_u8_with_valid_url` is unseen and is the `classify` parameter. A URI is a plain string, and a JSON backup that fails to parse is out of scope.
- places `ROOT_GUID`: the value "root________" of `BookmarkRootGuid::Root` comes from code that is not part of this model.
- places `do_import`: `insert_tree` is the `insertError` parameter, and the model records the inserted sub-trees in order. The `println!` messages are not modelled.
- places `sync`: the engine names are sorted and deduplicated by the function `SortDedup` on a sequence rather than in place on a vector. An unknown name is excluded by a precondition, because the source aborts with `unimplemented!`. Opening the connection and reading the credentials are one `setupError` parameter. Wipes, resets, `get_meta`, `put_meta` and `sync_multiple` are outcome parameters. Logging and the telemetry printout are not modelled.
- places `run_desktop_import`, `run_native_import`, `run_native_export` and the command-line parsing are file I/O and CLI code.
- `hex::decode` works on bytes; the model decodes a `string` of characters, which is the same for ASCII input.
- The rest of the repository (suggest, nimbus, fxa-client, autofill, device-commands, the NSS bindings, the tabs storage wrapper) is not part of this model.
- The `SyncConn` guard is documented as the thing that clears the Sync flag when finished (components/storage-sync/src/db.rs:178-179). When the open fails after the flag is set, no guard exists, so the flag stays set. The model follows the code, and the discrepancy is the finding below.

## Findings

| source | as written | input that shows it | evidently intended | confidence | as-written member | corrected member |
|---|---|---|---|---|---|---|
| components/storage-sync/src/db.rs:133-145 | `open_sync_connection` sets `sync_conn_active` by compare-and-swap, then returns the `StorageConn::open` error through `?`. No `SyncConn` guard exists yet to clear the flag. | A manager with the flag clear whose Sync open fails in the engine (any `SqlError`): every later `open_sync_connection` and `new_sync_conn_interrupt_handle` on that manager fails with ConnectionAlreadyOpen | the flag is cleared again when no guard is handed out | not executed | `StorageDb.StuckSyncFlagScenario` | `StorageDb.StorageDb.OpenSyncConnectionReleasing` |
