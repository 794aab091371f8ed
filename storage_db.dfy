/**
 * The per-path connection manager of the storage-sync component.
 *
 * A `StorageDb` owns one database path. It keeps the single ReadWrite
 * connection in a slot that callers check out and give back, a flag that is
 * set while the single Sync connection is out, and an id that every
 * connection it issues carries. A process-wide registry (`Apis`) maps each
 * path to a weak reference to its manager, so that opening a path that is
 * already open hands back the same manager.
 *
 * The SQL engine is not modelled: every call that opens a connection takes
 * the engine's answer as a parameter (`None` for success, `Some(e)` for the
 * error it reports). Weak references are a map from path to manager together
 * with the set of ids of managers that still have a strong owner.
 */
module StorageDb {
  import opened Wrappers

  type Path = string

  datatype ErrorKind =
    | ConnectionAlreadyOpen
    | WrongApiForClose
    | DatabaseUpgradeError
    | IllegalDatabasePath(path: Path)
    | IoError
    | SqlError(code: int)

  // ---------------------------------------------------------------------------
  // ConnectionType

  datatype ConnectionType = ReadOnly | ReadWrite | Sync

  /** The `#[repr(u8)]` discriminant of a connection type. */
  function ToPrimitive(t: ConnectionType): (p: u8)
    ensures 1 <= p <= 3
  {
    match t
    case ReadOnly => 1
    case ReadWrite => 2
    case Sync => 3
  }

  /** `ConnectionType::from_primitive`: 1, 2 and 3 name the three types; every other byte names none. */
  function FromPrimitive(p: u8): (r: Option<ConnectionType>)
    ensures r.Some? <==> 1 <= p <= 3
  {
    match p
    case 1 => Some(ReadOnly)
    case 2 => Some(ReadWrite)
    case 3 => Some(Sync)
    case _ => None
  }

  /** `from_primitive` inverts the discriminant ... */
  lemma FromPrimitiveInvertsRepr(t: ConnectionType)
    ensures FromPrimitive(ToPrimitive(t)) == Some(t)
  {
  }

  /** ... and every byte it accepts is the discriminant of what it returns. */
  lemma ReprInvertsFromPrimitive(p: u8)
    ensures FromPrimitive(p).Some? ==> ToPrimitive(FromPrimitive(p).value) == p
  {
  }

  /** The SQLite open flags the model distinguishes. */
  datatype OpenFlag = OpenNoMutex | OpenUri | OpenReadOnly | OpenReadWrite | OpenCreate

  /**
   * `ConnectionType::rusqlite_flags`: every type opens without SQLite's own mutex
   * and accepts URI file names; only ReadOnly is read-only, and only ReadWrite may
   * create the database file.
   */
  function RusqliteFlags(t: ConnectionType): (flags: set<OpenFlag>)
    ensures OpenNoMutex in flags && OpenUri in flags
    ensures OpenReadOnly in flags <==> t == ReadOnly
    ensures OpenReadWrite in flags <==> t != ReadOnly
    ensures OpenCreate in flags <==> t == ReadWrite
  {
    var common := {OpenNoMutex, OpenUri};
    match t
    case ReadOnly => common + {OpenReadOnly}
    case ReadWrite => common + {OpenCreate, OpenReadWrite}
    case Sync => common + {OpenReadWrite}
  }

  // ---------------------------------------------------------------------------
  // Connections

  /** A connection: its type and the id of the manager that issued it (`api_id`). */
  datatype StorageConn = StorageConn(connType: ConnectionType, apiId: nat)

  /** The guard around the Sync connection; dropping it clears the issuing manager's flag. */
  datatype SyncConn = SyncConn(db: StorageConn, api: StorageDb)

  /** A handle that interrupts queries running on the connection it was made from. */
  datatype InterruptHandle = InterruptHandle(conn: StorageConn)

  class StorageDb {
    const dbName: Path
    const id: nat
    var writeConnection: Option<StorageConn>
    var syncConnActive: bool

    /** The write slot only ever holds this manager's own ReadWrite connection. */
    ghost predicate Valid()
      reads this
    {
      writeConnection.Some? ==> writeConnection.value == StorageConn(ReadWrite, id)
    }

    /** A manager built around the ReadWrite connection that its initial open produced. */
    constructor (dbName: Path, id: nat)
      ensures Valid() && this.dbName == dbName && this.id == id
      ensures writeConnection == Some(StorageConn(ReadWrite, id)) && !syncConnActive
    {
      this.dbName := dbName;
      this.id := id;
      writeConnection := Some(StorageConn(ReadWrite, id));
      syncConnActive := false;
    }

    /**
     * `open_connection`. ReadOnly opens a fresh connection every time and leaves the
     * slot alone. ReadWrite moves the connection out of the slot, leaving it empty,
     * and fails with ConnectionAlreadyOpen when the slot is already empty. Sync must
     * go through OpenSyncConnection (the source panics).
     */
    method OpenConnection(connType: ConnectionType, engineError: Option<ErrorKind>)
      returns (r: Result<StorageConn, ErrorKind>)
      requires Valid()
      requires connType != Sync
      modifies this`writeConnection
      ensures Valid()
      ensures connType == ReadOnly ==> writeConnection == old(writeConnection)
      ensures connType == ReadOnly ==> (r.Ok? <==> engineError.None?)
      ensures connType == ReadOnly && r.Ok? ==> r.value == StorageConn(ReadOnly, id)
      ensures connType == ReadOnly && r.Err? ==> r.error == engineError.value
      ensures connType == ReadWrite ==> writeConnection.None?
      ensures connType == ReadWrite ==> (r.Ok? <==> old(writeConnection).Some?)
      ensures connType == ReadWrite && r.Ok? ==> r.value == old(writeConnection).value == StorageConn(ReadWrite, id)
      ensures connType == ReadWrite && r.Err? ==> r.error == ConnectionAlreadyOpen
    {
      match connType {
        case ReadOnly =>
          if engineError.Some? {
            return Err(engineError.value);
          }
          return Ok(StorageConn(ReadOnly, id));
        case ReadWrite =>
          var taken := writeConnection;
          writeConnection := None;
          match taken {
            case None => return Err(ConnectionAlreadyOpen);
            case Some(db) => return Ok(db);
          }
      }
    }

    /**
     * `open_sync_connection` as written: the flag is compare-and-set first, so a
     * second open while it is set fails with ConnectionAlreadyOpen. When the engine
     * then fails to open the connection, the error is returned with the flag still
     * set and no guard left to clear it.
     */
    method OpenSyncConnection(engineError: Option<ErrorKind>) returns (r: Result<SyncConn, ErrorKind>)
      modifies this`syncConnActive
      ensures syncConnActive
      ensures old(syncConnActive) ==> r == Err(ConnectionAlreadyOpen)
      ensures !old(syncConnActive) && engineError.Some? ==> r == Err(engineError.value)
      ensures !old(syncConnActive) && engineError.None? ==> r == Ok(SyncConn(StorageConn(Sync, id), this))
    {
      var prevValue := syncConnActive;
      syncConnActive := true;
      if prevValue {
        return Err(ConnectionAlreadyOpen);
      }
      if engineError.Some? {
        return Err(engineError.value);
      }
      return Ok(SyncConn(StorageConn(Sync, id), this));
    }

    /**
     * `open_sync_connection` with the flag released on every path that hands out
     * no guard: the flag is set afterwards exactly when it was set before or a
     * guard was returned.
     */
    method OpenSyncConnectionReleasing(engineError: Option<ErrorKind>) returns (r: Result<SyncConn, ErrorKind>)
      modifies this`syncConnActive
      ensures syncConnActive == (old(syncConnActive) || r.Ok?)
      ensures old(syncConnActive) ==> r == Err(ConnectionAlreadyOpen)
      ensures !old(syncConnActive) && engineError.Some? ==> r == Err(engineError.value)
      ensures !old(syncConnActive) && engineError.None? ==> r == Ok(SyncConn(StorageConn(Sync, id), this))
    {
      var prevValue := syncConnActive;
      syncConnActive := true;
      if prevValue {
        return Err(ConnectionAlreadyOpen);
      }
      if engineError.Some? {
        syncConnActive := false;
        return Err(engineError.value);
      }
      return Ok(SyncConn(StorageConn(Sync, id), this));
    }

    /**
     * `close_connection`: a connection issued by another manager is refused with
     * WrongApiForClose and nothing changes. A ReadWrite connection of this manager
     * goes back into the slot, which must be empty (the source asserts it); ReadOnly
     * and Sync connections are accepted and change nothing.
     */
    method CloseConnection(connection: StorageConn) returns (r: Result<(), ErrorKind>)
      requires Valid()
      requires connection.apiId == id && connection.connType == ReadWrite ==> writeConnection.None?
      modifies this`writeConnection
      ensures Valid()
      ensures connection.apiId != id ==> r == Err(WrongApiForClose) && writeConnection == old(writeConnection)
      ensures connection.apiId == id ==> r == Ok(())
      ensures connection.apiId == id && connection.connType == ReadWrite ==> writeConnection == Some(connection)
      ensures connection.connType != ReadWrite ==> writeConnection == old(writeConnection)
    {
      if connection.apiId != id {
        return Err(WrongApiForClose);
      }
      if connection.connType == ReadWrite {
        writeConnection := Some(connection);
      }
      return Ok(());
    }

    /**
     * `new_sync_conn_interrupt_handle`: opens the Sync connection only to take an
     * interrupt handle from it and drops the guard at once. It fails with
     * ConnectionAlreadyOpen while a Sync connection is out. Built on the open as
     * written, an engine failure leaves the flag set.
     */
    method NewSyncConnInterruptHandle(engineError: Option<ErrorKind>) returns (r: Result<InterruptHandle, ErrorKind>)
      modifies this`syncConnActive
      ensures syncConnActive == (old(syncConnActive) || engineError.Some?)
      ensures old(syncConnActive) ==> r == Err(ConnectionAlreadyOpen)
      ensures !old(syncConnActive) && engineError.Some? ==> syncConnActive && r == Err(engineError.value)
      ensures !old(syncConnActive) && engineError.None? ==>
        !syncConnActive && r == Ok(InterruptHandle(StorageConn(Sync, id)))
    {
      var attempt := OpenSyncConnection(engineError);
      match attempt {
        case Err(e) => return Err(e);
        case Ok(conn) =>
          var handle := InterruptHandle(conn.db);
          DropSyncConn(conn);
          return Ok(handle);
      }
    }

    /**
     * `new_sync_conn_interrupt_handle` on the corrected open: the flag ends as it
     * started, whatever the engine answers.
     */
    method NewSyncConnInterruptHandleReleasing(engineError: Option<ErrorKind>) returns (r: Result<InterruptHandle, ErrorKind>)
      modifies this`syncConnActive
      ensures syncConnActive == old(syncConnActive)
      ensures old(syncConnActive) ==> r == Err(ConnectionAlreadyOpen)
      ensures !old(syncConnActive) && engineError.Some? ==> r == Err(engineError.value)
      ensures !old(syncConnActive) && engineError.None? ==> r == Ok(InterruptHandle(StorageConn(Sync, id)))
    {
      var attempt := OpenSyncConnectionReleasing(engineError);
      match attempt {
        case Err(e) => return Err(e);
        case Ok(conn) =>
          var handle := InterruptHandle(conn.db);
          DropSyncConn(conn);
          return Ok(handle);
      }
    }
  }

  /** Dropping a Sync guard clears the flag of the manager that issued it. */
  method DropSyncConn(conn: SyncConn)
    modifies conn.api`syncConnActive
    ensures !conn.api.syncConnActive
  {
    conn.api.syncConnActive := false;
  }

  // ---------------------------------------------------------------------------
  // The registry

  /** The files that exist on disk, as far as `fs::remove_file` is concerned. */
  class Disk {
    var files: set<Path>

    constructor (files: set<Path>)
      ensures this.files == files
    {
      this.files := files;
    }

    /** `fs::remove_file`: removes an existing file and fails with an I/O error on a missing one. */
    method RemoveFile(p: Path) returns (r: Result<(), ErrorKind>)
      modifies this
      ensures files == old(files) - {p}
      ensures r.Ok? <==> p in old(files)
      ensures r.Err? ==> r.error == IoError
    {
      if p !in files {
        return Err(IoError);
      }
      files := files - {p};
      return Ok(());
    }

    /** An open with `SQLITE_OPEN_CREATE` leaves the database file on disk. */
    method CreateFile(p: Path)
      modifies this
      ensures files == old(files) + {p}
    {
      files := files + {p};
    }
  }

  /** What `new_or_existing_into` does, given whether a live manager exists and the engine's answers. */
  datatype OpenPlan =
    | Reuse                   // hand back the live manager
    | Build(attempts: nat)    // a new manager, built by the first or by the retried open
    | Fail(error: ErrorKind)  // nothing is built or registered

  /** Whether the failed first open leads to removing the file. */
  predicate RemovesFile(liveExisting: bool, deleteOnFail: bool, firstOpen: Option<ErrorKind>)
  {
    !liveExisting && deleteOnFail && firstOpen == Some(DatabaseUpgradeError)
  }

  /**
   * The outcome of `new_or_existing_into`: a live manager is reused; otherwise
   * the first open builds one, or its failure is returned, unless it is a
   * schema-upgrade failure with deletion allowed, in which case the file is
   * removed (an I/O error when it is missing) and the open is tried once more.
   */
  function PlanOpen(liveExisting: bool, deleteOnFail: bool, fileExists: bool,
                    firstOpen: Option<ErrorKind>, retryOpen: Option<ErrorKind>): (plan: OpenPlan)
    ensures plan.Reuse? <==> liveExisting
    ensures plan == Build(1) <==> !liveExisting && firstOpen.None?
    ensures plan.Fail? && !RemovesFile(liveExisting, deleteOnFail, firstOpen) ==> plan.error == firstOpen.value
    ensures plan == Fail(IoError) <== RemovesFile(liveExisting, deleteOnFail, firstOpen) && !fileExists
  {
    if liveExisting then Reuse
    else if firstOpen.None? then Build(1)
    else if !RemovesFile(liveExisting, deleteOnFail, firstOpen) then Fail(firstOpen.value)
    else if !fileExists then Fail(IoError)
    else if retryOpen.None? then Build(2)
    else Fail(retryOpen.value)
  }

  /**
   * The open is retried at most once, and only after a schema-upgrade failure with
   * deletion allowed and the file removed; any other failure of the first open,
   * and any failure of the retry, is what the caller gets.
   */
  lemma PlanRetriesAtMostOnce(liveExisting: bool, deleteOnFail: bool, fileExists: bool,
                              firstOpen: Option<ErrorKind>, retryOpen: Option<ErrorKind>)
    ensures var plan := PlanOpen(liveExisting, deleteOnFail, fileExists, firstOpen, retryOpen);
      && (plan.Build? ==> plan.attempts in {1, 2})
      && (plan.Build? && plan.attempts == 2 <==>
            RemovesFile(liveExisting, deleteOnFail, firstOpen) && fileExists && retryOpen.None?)
      && (plan.Fail? ==> plan.error in {firstOpen.value, IoError} + (if retryOpen.Some? then {retryOpen.value} else {}))
      && (!deleteOnFail && !liveExisting && firstOpen.Some? ==> plan == Fail(firstOpen.value))
  {
  }

  /**
   * The files left on disk by the registry step: the file removed on the
   * upgrade-failure path, then the file a successful open of an on-disk
   * database creates (an in-memory database creates none).
   */
  function FilesAfter(files: set<Path>, dbName: Path, removes: bool, builds: bool, createsFile: bool): (r: set<Path>)
    ensures dbName in r <==> (builds && createsFile) || (!removes && dbName in files)
    ensures r - {dbName} == files - {dbName}
  {
    (if removes then files - {dbName} else files) + (if builds && createsFile then {dbName} else {})
  }

  class Apis {
    /** `APIS`: each path's (weak) manager. */
    var entries: map<Path, StorageDb>
    /** The ids of the managers that still have a strong owner; the others no longer upgrade. */
    var live: set<nat>
    /** `ID_COUNTER`. */
    var idCounter: nat

    ghost predicate Valid()
      reads this
    {
      && (forall p :: p in entries ==> entries[p].dbName == p && entries[p].id < idCounter)
      && (forall i :: i in live ==> i < idCounter)
    }

    constructor ()
      ensures Valid() && entries == map[] && live == {} && idCounter == 0
    {
      entries := map[];
      live := {};
      idCounter := 0;
    }

    /** `Weak::upgrade` of the entry for `p`. */
    function Upgrade(p: Path): Option<StorageDb>
      reads this
    {
      if p in entries && entries[p].id in live then Some(entries[p]) else None
    }

    /**
     * `new_or_existing_into`. Every call draws an id. A live manager for the path is
     * returned and the registry is left alone. Otherwise the initial ReadWrite
     * connection is opened; on success a new manager holding it is registered
     * under the path, and only then. On a schema-upgrade failure with
     * `deleteOnFail` the file is removed and the whole step is retried once with
     * `deleteOnFail` false; any other failure leaves the registry unchanged.
     * `firstOpen` and `retryOpen` are the engine's answers to the two opens;
     * `createsFile` says whether a successful open leaves a file at `dbName`.
     */
    method NewOrExistingInto(dbName: Path, deleteOnFail: bool, disk: Disk, createsFile: bool,
                             firstOpen: Option<ErrorKind>, retryOpen: Option<ErrorKind>)
      returns (r: Result<StorageDb, ErrorKind>)
      requires Valid()
      modifies this, disk
      decreases deleteOnFail
      ensures Valid()
      ensures r.Ok? ==> r.value.dbName == dbName && Upgrade(dbName) == Some(r.value)
      ensures var removes := RemovesFile(old(Upgrade(dbName)).Some?, deleteOnFail, firstOpen);
        var plan := PlanOpen(old(Upgrade(dbName)).Some?, deleteOnFail, dbName in old(disk.files), firstOpen, retryOpen);
        && disk.files == FilesAfter(old(disk.files), dbName, removes, plan.Build?, createsFile)
        && idCounter == old(idCounter) + (if removes && dbName in old(disk.files) then 2 else 1)
      ensures var plan := PlanOpen(old(Upgrade(dbName)).Some?, deleteOnFail, dbName in old(disk.files), firstOpen, retryOpen);
        && (plan.Reuse? ==> r == Ok(old(Upgrade(dbName)).value) && entries == old(entries) && live == old(live))
        && (plan.Fail? ==> r == Err(plan.error) && entries == old(entries) && live == old(live))
        && (plan.Build? ==> r.Ok? && fresh(r.value) && r.value.id == old(idCounter) + plan.attempts - 1)
      ensures r.Ok? && old(Upgrade(dbName)).None? ==>
        && r.value.Valid() && r.value.dbName == dbName
        && r.value.writeConnection == Some(StorageConn(ReadWrite, r.value.id)) && !r.value.syncConnActive
        && r.value.id !in old(live)
        && (forall p :: p in old(entries) ==> old(entries)[p].id != r.value.id)
        && entries == old(entries)[dbName := r.value] && live == old(live) + {r.value.id}
    {
      var id := idCounter;
      idCounter := idCounter + 1;
      match Upgrade(dbName) {
        case Some(existing) => return Ok(existing);
        case None =>
      }
      if firstOpen.None? {
        var db := new StorageDb(dbName, id);
        if createsFile {
          disk.CreateFile(dbName);
        }
        entries := entries[dbName := db];
        live := live + {id};
        return Ok(db);
      }
      var e := firstOpen.value;
      if !deleteOnFail {
        return Err(e);
      }
      if e == DatabaseUpgradeError {
        var removed := disk.RemoveFile(dbName);
        if removed.Err? {
          return Err(removed.error);
        }
        r := NewOrExistingInto(dbName, false, disk, createsFile, retryOpen, None);
      } else {
        return Err(e);
      }
    }

    /**
     * `new_or_existing`: the registry step with deletion on an upgrade failure
     * allowed, under the registry's lock.
     */
    method NewOrExisting(dbName: Path, disk: Disk, createsFile: bool, firstOpen: Option<ErrorKind>, retryOpen: Option<ErrorKind>)
      returns (r: Result<StorageDb, ErrorKind>)
      requires Valid()
      modifies this, disk
      ensures Valid()
      ensures r.Ok? ==> r.value.dbName == dbName && Upgrade(dbName) == Some(r.value)
      ensures var plan := PlanOpen(old(Upgrade(dbName)).Some?, true, dbName in old(disk.files), firstOpen, retryOpen);
        && disk.files == FilesAfter(old(disk.files), dbName, RemovesFile(old(Upgrade(dbName)).Some?, true, firstOpen),
                                    plan.Build?, createsFile)
        && (plan.Reuse? ==> r == Ok(old(Upgrade(dbName)).value) && entries == old(entries) && live == old(live))
        && (plan.Fail? ==> r == Err(plan.error) && entries == old(entries) && live == old(live))
        && (plan.Build? ==> r.Ok? && fresh(r.value) && entries == old(entries)[dbName := r.value]
                            && live == old(live) + {r.value.id} && r.value.id !in old(live))
    {
      r := NewOrExistingInto(dbName, true, disk, createsFile, firstOpen, retryOpen);
    }

    /** `StorageDb::new`: normalize the path, then open or reuse its manager. */
    method New(fs: FileSystem, path: Path, disk: Disk, firstOpen: Option<ErrorKind>, retryOpen: Option<ErrorKind>)
      returns (r: Result<StorageDb, ErrorKind>)
      requires Valid()
      modifies this, disk
      ensures Valid()
      ensures NormalizePath(fs, path).Err? ==>
        && r == Err(NormalizePath(fs, path).error) && entries == old(entries) && live == old(live)
        && idCounter == old(idCounter) && disk.files == old(disk.files)
      ensures r.Ok? ==> r.value.dbName == NormalizePath(fs, path).value && Upgrade(r.value.dbName) == Some(r.value)
      ensures NormalizePath(fs, path).Ok? ==>
        var q := NormalizePath(fs, path).value;
        var plan := PlanOpen(old(Upgrade(q)).Some?, true, q in old(disk.files), firstOpen, retryOpen);
        && disk.files == FilesAfter(old(disk.files), q, RemovesFile(old(Upgrade(q)).Some?, true, firstOpen), plan.Build?, true)
        && (plan.Reuse? ==> r == Ok(old(Upgrade(q)).value) && entries == old(entries) && live == old(live))
        && (plan.Fail? ==> r == Err(plan.error) && entries == old(entries) && live == old(live))
        && (plan.Build? ==> r.Ok? && fresh(r.value) && entries == old(entries)[q := r.value]
                            && live == old(live) + {r.value.id} && r.value.id !in old(live))
    {
      var normalized := NormalizePath(fs, path);
      if normalized.Err? {
        return Err(normalized.error);
      }
      r := NewOrExisting(normalized.value, disk, true, firstOpen, retryOpen);
    }

    /** `StorageDb::new_memory`: the manager of the shared in-memory database named `name`. */
    method NewMemory(name: string, disk: Disk, firstOpen: Option<ErrorKind>, retryOpen: Option<ErrorKind>)
      returns (r: Result<StorageDb, ErrorKind>)
      requires Valid()
      modifies this, disk
      ensures Valid()
      ensures r.Ok? ==> r.value.dbName == MemoryPath(name) && Upgrade(MemoryPath(name)) == Some(r.value)
      ensures var q := MemoryPath(name);
        var plan := PlanOpen(old(Upgrade(q)).Some?, true, q in old(disk.files), firstOpen, retryOpen);
        && disk.files == FilesAfter(old(disk.files), q, RemovesFile(old(Upgrade(q)).Some?, true, firstOpen), plan.Build?, false)
        && (plan.Reuse? ==> r == Ok(old(Upgrade(q)).value) && entries == old(entries) && live == old(live))
        && (plan.Fail? ==> r == Err(plan.error) && entries == old(entries) && live == old(live))
        && (plan.Build? ==> r.Ok? && fresh(r.value) && entries == old(entries)[q := r.value]
                            && live == old(live) + {r.value.id} && r.value.id !in old(live))
    {
      r := NewOrExisting(MemoryPath(name), disk, false, firstOpen, retryOpen);
    }

    /** The last strong owner of `db` lets go of it: its registry entry no longer upgrades. */
    method ReleaseManager(db: StorageDb)
      requires Valid()
      modifies this
      ensures Valid()
      ensures entries == old(entries) && idCounter == old(idCounter) && live == old(live) - {db.id}
    {
      live := live - {db.id};
    }
  }

  /** The name under which `new_memory` opens a shared in-memory database. */
  function MemoryPath(name: string): (p: Path)
    ensures |p| == |name| + 30
    ensures p[..5] == "file:" && p[5..5 + |name|] == name
  {
    "file:" + name + "?mode=memory&cache=shared"
  }

  /** Different names open different in-memory databases. */
  lemma MemoryPathInjective(a: string, b: string)
    requires MemoryPath(a) == MemoryPath(b)
    ensures a == b
  {
    assert |a| == |b|;
    assert a == MemoryPath(a)[5..5 + |a|];
  }

  // ---------------------------------------------------------------------------
  // Paths

  /** A parsed URL: its scheme and what `Url::to_file_path` gives for it. */
  datatype Url = Url(scheme: string, filePath: Option<Path>)

  /**
   * The file-system and URL-parsing services the path helpers use, as functions of
   * the path: `Url::parse`, `Url::from_file_path` (fails on relative paths),
   * `Path::canonicalize` (fails on paths that do not exist), `Path::file_name` and
   * `Path::parent`.
   */
  datatype FileSystem = FileSystem(
    parseUrl: Path -> Option<Url>,
    urlFromFilePath: Path -> Option<Url>,
    canonicalize: Path -> Option<Path>,
    fileName: Path -> Option<string>,
    parent: Path -> Option<Path>)

  /** `unurl_path`: a `file:` URL becomes its file path; anything else is kept as it is. */
  function UnurlPath(fs: FileSystem, p: Path): (q: Path)
    ensures q != p ==> fs.parseUrl(p).Some? && fs.parseUrl(p).value.scheme == "file"
                       && fs.parseUrl(p).value.filePath == Some(q)
    ensures fs.parseUrl(p).Some? && fs.parseUrl(p).value.scheme == "file" && fs.parseUrl(p).value.filePath.Some? ==>
      q == fs.parseUrl(p).value.filePath.value
  {
    match fs.parseUrl(p)
    case Some(u) => if u.scheme == "file" && u.filePath.Some? then u.filePath.value else p
    case None => p
  }

  /** Whether a path ends in a separator, as the root directory `/` does. */
  predicate EndsWithSeparator(dir: Path)
  {
    |dir| > 0 && dir[|dir| - 1] == '/'
  }

  /** No two separators in a row: the form in which `PathBuf` keeps a path. */
  predicate SingleSeparators(p: Path)
  {
    forall i :: 0 <= i < |p| - 1 && p[i] == '/' ==> p[i + 1] != '/'
  }

  /**
   * `PathBuf::push` of a relative file name: a separator is inserted only when
   * the directory does not already end in one.
   */
  function PushPath(dir: Path, name: string): (p: Path)
    ensures |p| == |dir| + |name| + (if EndsWithSeparator(dir) then 0 else 1)
    ensures p[|p| - |name|..] == name && p[..|dir|] == dir
    ensures p[|p| - |name| - 1] == '/'
  {
    if EndsWithSeparator(dir) then dir + name else dir + "/" + name
  }

  /** Pushing a file name onto a path kept with single separators keeps it so. */
  lemma PushPathSingleSeparators(dir: Path, name: string)
    requires SingleSeparators(dir) && '/' !in name && |name| > 0
    ensures SingleSeparators(PushPath(dir, name))
  {
    var p := PushPath(dir, name);
    var k := |p| - |name|;
    forall i | 0 <= i < |p| - 1 && p[i] == '/'
      ensures p[i + 1] != '/'
    {
      if i + 1 >= k {
        assert p[i + 1] == name[i + 1 - k];
      } else {
        assert p[i] == dir[i] && p[i + 1] == dir[i + 1];
      }
    }
  }

  /** A file in the root directory: `/` pushed with `x.db` is `/x.db`. */
  lemma PushPathRoot()
    ensures PushPath("/", "x.db") == "/x.db"
  {
  }

  /**
   * `normalize_path`: an existing path (after un-URL-ing) becomes its canonical
   * form; a path that does not exist yet becomes its canonicalized parent with the
   * file name appended. A path with no file name or no parent is an
   * IllegalDatabasePath carrying the un-URL-ed path; a parent that cannot be
   * canonicalized is an I/O error.
   */
  function NormalizePath(fs: FileSystem, p: Path): (r: Result<Path, ErrorKind>)
    ensures fs.canonicalize(UnurlPath(fs, p)).Some? ==> r == Ok(fs.canonicalize(UnurlPath(fs, p)).value)
    ensures r.Err? ==> fs.canonicalize(UnurlPath(fs, p)).None?
    ensures r.Err? && r.error.IllegalDatabasePath? ==>
      r.error.path == UnurlPath(fs, p) && (fs.fileName(UnurlPath(fs, p)).None? || fs.parent(UnurlPath(fs, p)).None?)
    ensures r.Err? ==> r.error.IllegalDatabasePath? || r.error == IoError
    ensures var q := UnurlPath(fs, p);
      fs.canonicalize(q).None? && (fs.fileName(q).None? || fs.parent(q).None?) ==> r == Err(IllegalDatabasePath(q))
    ensures var q := UnurlPath(fs, p);
      fs.canonicalize(q).None? && fs.fileName(q).Some? && fs.parent(q).Some? ==>
        if fs.canonicalize(fs.parent(q).value).None? then r == Err(IoError)
        else r == Ok(PushPath(fs.canonicalize(fs.parent(q).value).value, fs.fileName(q).value))
    ensures r.Ok? && fs.canonicalize(UnurlPath(fs, p)).None? ==>
      fs.fileName(UnurlPath(fs, p)).Some? && fs.parent(UnurlPath(fs, p)).Some? &&
      var name := fs.fileName(UnurlPath(fs, p)).value;
      |r.value| > |name| && r.value[|r.value| - |name|..] == name
  {
    var path := UnurlPath(fs, p);
    match fs.canonicalize(path)
    case Some(canonical) => Ok(canonical)
    case None =>
      match fs.fileName(path)
      case None => Err(IllegalDatabasePath(path))
      case Some(name) =>
        match fs.parent(path)
        case None => Err(IllegalDatabasePath(path))
        case Some(dir) =>
          match fs.canonicalize(dir)
          case None => Err(IoError)
          case Some(canonicalDir) => Ok(PushPath(canonicalDir, name))
  }

  /** `Url::from_file_path` only ever builds `file:` URLs. */
  ghost predicate FromFilePathGivesFileUrls(fs: FileSystem)
  {
    forall q :: fs.urlFromFilePath(q).Some? ==> fs.urlFromFilePath(q).value.scheme == "file"
  }

  /**
   * `ensure_url_path`: a string that parses as a `file:` URL is returned as it is;
   * one that parses as a URL of any other scheme is an IllegalDatabasePath, and so
   * is a non-URL path that cannot be turned into a file URL (a relative path).
   */
  function EnsureUrlPath(fs: FileSystem, p: Path): (r: Result<Url, ErrorKind>)
    ensures r.Err? ==> r.error == IllegalDatabasePath(p)
    ensures fs.parseUrl(p).Some? ==> (r.Ok? <==> fs.parseUrl(p).value.scheme == "file")
    ensures fs.parseUrl(p).Some? && r.Ok? ==> r.value == fs.parseUrl(p).value
    ensures fs.parseUrl(p).None? ==> (r.Ok? <==> fs.urlFromFilePath(p).Some?)
    ensures FromFilePathGivesFileUrls(fs) && r.Ok? ==> r.value.scheme == "file"
  {
    match fs.parseUrl(p)
    case Some(u) => if u.scheme == "file" then Ok(u) else Err(IllegalDatabasePath(p))
    case None =>
      match fs.urlFromFilePath(p)
      case Some(u) => Ok(u)
      case None => Err(IllegalDatabasePath(p))
  }

  // ---------------------------------------------------------------------------
  // Scenarios

  /**
   * Opening ReadWrite twice before closing fails the second time; once the first
   * connection is closed, a further open succeeds.
   */
  method WriteSlotScenario(db: StorageDb) returns (first: Result<StorageConn, ErrorKind>,
                                                    second: Result<StorageConn, ErrorKind>,
                                                    third: Result<StorageConn, ErrorKind>)
    requires db.Valid() && db.writeConnection.Some?
    modifies db
    ensures first.Ok? && second == Err(ConnectionAlreadyOpen) && third == first
  {
    first := db.OpenConnection(ReadWrite, None);
    second := db.OpenConnection(ReadWrite, None);
    var closed := db.CloseConnection(first.value);
    third := db.OpenConnection(ReadWrite, None);
  }

  /**
   * Two Sync opens: exactly one succeeds, the other sees ConnectionAlreadyOpen;
   * once the winner's guard is dropped, a retry succeeds.
   */
  method SyncFlagScenario(db: StorageDb) returns (winner: Result<SyncConn, ErrorKind>,
                                                   loser: Result<SyncConn, ErrorKind>,
                                                   retry: Result<SyncConn, ErrorKind>)
    requires !db.syncConnActive
    modifies db
    ensures winner.Ok? && loser == Err(ConnectionAlreadyOpen) && retry.Ok?
  {
    winner := db.OpenSyncConnection(None);
    loser := db.OpenSyncConnection(None);
    DropSyncConn(winner.value);
    retry := db.OpenSyncConnection(None);
  }

  /**
   * As written, an engine failure after the flag is set leaves it set: every later
   * Sync open of that manager fails with ConnectionAlreadyOpen.
   */
  method StuckSyncFlagScenario(db: StorageDb, e: ErrorKind) returns (failed: Result<SyncConn, ErrorKind>,
                                                                    later: Result<SyncConn, ErrorKind>)
    requires !db.syncConnActive
    modifies db
    ensures failed == Err(e) && later == Err(ConnectionAlreadyOpen) && db.syncConnActive
  {
    failed := db.OpenSyncConnection(Some(e));
    later := db.OpenSyncConnection(None);
  }

  /** With the flag released on failure, the open after an engine failure succeeds. */
  method ReleasedSyncFlagScenario(db: StorageDb, e: ErrorKind) returns (failed: Result<SyncConn, ErrorKind>,
                                                                       later: Result<SyncConn, ErrorKind>)
    requires !db.syncConnActive
    modifies db
    ensures failed == Err(e) && later.Ok?
  {
    failed := db.OpenSyncConnectionReleasing(Some(e));
    later := db.OpenSyncConnectionReleasing(None);
  }

  /**
   * A schema-upgrade failure on an existing file: the file is removed, the retried
   * open succeeds, and the file it creates is on disk again.
   */
  method RetryRecreatesFileScenario(apis: Apis, disk: Disk, path: Path) returns (r: Result<StorageDb, ErrorKind>)
    requires apis.Valid() && apis.Upgrade(path).None? && path in disk.files
    modifies apis, disk
    ensures r.Ok? && r.value.dbName == path && path in disk.files
  {
    r := apis.NewOrExisting(path, disk, true, Some(DatabaseUpgradeError), None);
  }

  /** Opening the same path twice while the first manager is held yields the same manager. */
  method SamePathScenario(apis: Apis, disk: Disk, path: Path) returns (a: Result<StorageDb, ErrorKind>,
                                                                      b: Result<StorageDb, ErrorKind>)
    requires apis.Valid()
    modifies apis, disk
    ensures a.Ok? ==> b == a
  {
    a := apis.NewOrExisting(path, disk, true, None, None);
    b := apis.NewOrExisting(path, disk, true, None, None);
  }
}
