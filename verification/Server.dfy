/** Server::push and Server::get: the disk tree and the path table changed together. */
module Server {
  import opened Paths
  import opened Disk
  import opened PathTable

  /** A pushed change; `Unknown` is any status value outside the enumeration. */
  datatype Event =
    | CreatedFile(path: string, data: Bytes, hash: string)
    | ModifiedFile(path: string, data: Bytes, hash: string)
    | ErasedFile(path: string)
    | CreatedDir(path: string, hash: string)
    | ErasedDir(path: string)
    | Unknown(path: string)

  datatype Store = Store(disk: FileSystem, rows: Table)

  /** What a push leaves behind; a failed push may have changed the disk already. */
  datatype Outcome = Outcome(store: Store, ok: bool)

  /** The reply to a get request; `isFile` is the status createdFile, otherwise createdDir. */
  datatype Content = Content(path: string, data: Bytes, isFile: bool)

  /** The call on the disk that an event leads to, behind create_dirs. */
  function DiskChange(disk: FileSystem, d: string, e: Event): Attempt {
    match e
    case CreatedFile(_, data, _) => Attempt(WriteFile(disk, d, data), true)
    case ModifiedFile(_, data, _) => Attempt(WriteFile(disk, d, data), true)
    case ErasedFile(_) => if d in disk then Remove(disk, d) else Attempt(disk, true)
    case CreatedDir(_, _) => EnsureDirectory(disk, d)
    case ErasedDir(_) => Attempt(if d in disk then RemoveAll(disk, d) else disk, true)
    case Unknown(_) => Attempt(disk, true)
  }

  /** The statement on the table that an event leads to. */
  function RowChange(rows: Table, v: string, user: string, e: Event): (Table, bool) {
    match e
    case CreatedFile(_, _, hash) => InsertRow(rows, v, Row(hash, user, file))
    case ModifiedFile(_, _, hash) => (UpdateRow(rows, v, hash), true)
    case ErasedFile(_) => (DeleteRow(rows, v), true)
    case CreatedDir(_, hash) => InsertRow(rows, v, Row(hash, user, dir))
    case ErasedDir(_) => (DeleteRow(rows, v), true)
    case Unknown(_) => (rows, false)
  }

  /** The state Server::push reaches; a throw ends it where it stands.  It reads the session's user three
      times: for the place on disk, for the row's key, and for the row's user. */
  function PushAs(st: Store, diskUser: string, keyUser: string, rowUser: string, e: Event): Outcome {
    var made := if e.CreatedFile? || e.CreatedDir? then MakeDirs(st.disk, diskUser, e.path) else Attempt(st.disk, true);
    if !made.ok then Outcome(Store(made.disk, st.rows), false)
    else
      var changed := DiskChange(made.disk, Join(diskUser, e.path), e);
      if !changed.ok then Outcome(Store(changed.disk, st.rows), false)
      else
        var (rows, ok) := RowChange(st.rows, Join(keyUser, e.path), rowUser, e);
        Outcome(Store(changed.disk, rows), ok)
  }

  /** A push during which nobody logs in on its session: the three users are one. */
  function PushEffect(st: Store, user: string, e: Event): Outcome {
    PushAs(st, user, user, user, e)
  }

  /** Server::get: whatever is not a regular file is reported as a directory. */
  function GetReply(disk: FileSystem, user: string, path: string): Content {
    match At(disk, user, path)
    case Some(File(data)) => Content(path, data, true)
    case _ => Content(path, [], false)
  }

  class Session {
    const sessionId: int
    var user: string
    var loginStatus: bool
    var activeThread: bool

    constructor (id: int)
      ensures sessionId == id && user == "" && !loginStatus && !activeThread
    {
      sessionId := id;
      user := "";
      loginStatus := false;
      activeThread := false;
    }
  }

  class Server {
    const volume: Volume
    const db: Database_API

    constructor (volume: Volume, db: Database_API)
      ensures this.volume == volume && this.db == db
    {
      this.volume := volume;
      this.db := db;
    }

    function State(): Store
      reads this, volume, db
    {
      Store(volume.disk, db.rows)
    }

    /** login: `granted` is login_query's answer, which names registered users only. */
    method Login(session: Session, username: string, granted: bool) returns (ok: bool)
      requires granted ==> ValidUser(username)
      modifies session`loginStatus, session`user, volume
      ensures ok == granted
      ensures granted ==> session.loginStatus && session.user == username && username in volume.disk
      ensures granted ==> volume.disk == EnsureDirectory(old(volume.disk), username).disk
      ensures !granted ==> session.loginStatus == old(session.loginStatus) && session.user == old(session.user)
      ensures !granted ==> volume.disk == old(volume.disk)
    {
      if granted {
        session.loginStatus := true;
        session.user := username;
        if username !in volume.disk {
          ParentOfName(username);
          volume.disk := CreateDirectory(volume.disk, username).disk;
        }
      }
      ok := granted;
    }

    /** Other threads get to run.  They log in on the session whenever they like, it is not locked for that, and
        leave it with `user` and `loggedIn`; but no request of the session pushes while the session's flag is up:
        `others` is what their pushes make of the store when it is down. */
    method OthersRun(session: Session, others: Store -> Store, user: string, loggedIn: bool)
      modifies session`user, session`loginStatus, volume, db
      ensures session.user == user && session.loginStatus == loggedIn
      ensures State() == if session.activeThread then old(State()) else others(old(State()))
    {
      if !session.activeThread {
        var left := others(State());
        volume.disk := left.disk;
        db.rows := left.rows;
      }
      session.user := user;
      session.loginStatus := loggedIn;
    }

    /** The wait for the flag: pushes of other threads raise and lower it, until it is found down and raised. */
    method Enter(session: Session, others: Store -> Store, user: string, loggedIn: bool)
      modifies session`activeThread, session`user, session`loginStatus, volume, db
      ensures session.activeThread && session.user == user && session.loginStatus == loggedIn
      ensures State() == others(old(State()))
    {
      session.activeThread := false;
      OthersRun(session, others, user, loggedIn);
      session.activeThread := true;
    }

    /** create_dirs, for the two kinds of event that need it. */
    method MakeWay(session: Session, base: string, e: Event) returns (ok: bool)
      requires session.activeThread
      modifies volume
      ensures Attempt(volume.disk, ok)
              == if e.CreatedFile? || e.CreatedDir? then MakeDirs(old(volume.disk), base, e.path)
                 else Attempt(old(volume.disk), true)
    {
      ok := true;
      if e.CreatedFile? || e.CreatedDir? {
        ok := volume.CreateDirs(base, e.path);
      }
    }

    /** The call on the disk: a write, a removal, a new directory.  `ok` is false when it throws. */
    method ChangeDisk(session: Session, diskPath: string, e: Event) returns (ok: bool)
      requires session.activeThread
      modifies volume
      ensures Attempt(volume.disk, ok) == DiskChange(old(volume.disk), diskPath, e)
    {
      ok := true;
      match e {
        case CreatedFile(_, data, _) => volume.disk := WriteFile(volume.disk, diskPath, data);
        case ModifiedFile(_, data, _) => volume.disk := WriteFile(volume.disk, diskPath, data);
        case ErasedFile(_) =>
          if diskPath in volume.disk {
            var gone := Remove(volume.disk, diskPath);
            volume.disk := gone.disk;
            ok := gone.ok;
          }
        case CreatedDir(_, _) =>
          if diskPath !in volume.disk {
            var made := CreateDirectory(volume.disk, diskPath);
            volume.disk := made.disk;
            ok := made.ok;
          }
        case ErasedDir(_) =>
          if diskPath in volume.disk {
            volume.disk := RemoveAll(volume.disk, diskPath);
          }
        case Unknown(_) =>
      }
    }

    /** The call on the table. */
    method ChangeRow(session: Session, virtPath: string, e: Event) returns (ok: bool)
      requires session.activeThread
      modifies db
      ensures (db.rows, ok) == RowChange(old(db.rows), virtPath, session.user, e)
    {
      match e {
        case CreatedFile(_, _, hash) => ok := db.InsertPath(virtPath, hash, session.user, file);
        case ModifiedFile(_, _, hash) => ok := db.UpdatePath(virtPath, hash);
        case ErasedFile(_) => ok := db.DeletePath(virtPath);
        case CreatedDir(_, hash) => ok := db.InsertPath(virtPath, hash, session.user, dir);
        case ErasedDir(_) => ok := db.DeletePath(virtPath);
        case Unknown(_) => ok := false;
      }
    }

    /** What is done under the flag, with other threads running between any two of its calls: they leave the
        session with `keyUser` before the row's key is made, and with `rowUser` after that. */
    method PushInside(session: Session, base: string, e: Event, others: Store -> Store, keyUser: string, rowUser: string,
                      loggedIn: bool) returns (ok: bool)
      requires session.activeThread
      modifies session`user, session`loginStatus, volume, db
      ensures session.activeThread && session.user == rowUser && session.loginStatus == loggedIn
      ensures Outcome(State(), ok) == PushAs(old(State()), base, keyUser, rowUser, e)
    {
      ok := MakeWay(session, base, e);
      OthersRun(session, others, keyUser, loggedIn);
      if !ok {
        OthersRun(session, others, rowUser, loggedIn);
        return;
      }
      var diskPath, virtPath := Join(base, e.path), Join(session.user, e.path);
      OthersRun(session, others, rowUser, loggedIn);
      if e.ModifiedFile? {
        ok := ChangeRow(session, virtPath, e);
        OthersRun(session, others, rowUser, loggedIn);
        if ok { ok := ChangeDisk(session, diskPath, e); }
      } else {
        ok := ChangeDisk(session, diskPath, e);
        OthersRun(session, others, rowUser, loggedIn);
        if ok { ok := ChangeRow(session, virtPath, e); }
      }
      OthersRun(session, others, rowUser, loggedIn);
    }

    /** One push, among whatever other threads do: they make `others` of the store before it gets the flag and
        nothing after that, and the session's user is `keyUser` when it makes the row's key and `rowUser` when it
        makes the row.  Every way out, success, each refusal, the default case and each throw, lowers the flag. */
    method Push(session: Session, e: Event, others: Store -> Store, keyUser: string, rowUser: string, loggedIn: bool)
      returns (ok: bool)
      modifies session`activeThread, session`user, session`loginStatus, volume, db
      ensures !session.activeThread && session.user == rowUser && session.loginStatus == loggedIn
      ensures Outcome(State(), ok) == PushAs(others(old(State())), old(session.user), keyUser, rowUser, e)
    {
      var base := session.user;
      Enter(session, others, keyUser, loggedIn);
      ok := PushInside(session, base, e, others, keyUser, rowUser, loggedIn);
      session.activeThread := false;
    }

    method Get(session: Session, path: string) returns (reply: Content)
      ensures reply == GetReply(volume.disk, session.user, path)
      ensures reply.path == path && (reply.isFile <==> exists data :: At(volume.disk, session.user, path) == Some(File(data)))
      ensures reply.isFile ==> At(volume.disk, session.user, path) == Some(File(reply.data))
    {
      var destPath := Join(session.user, path);
      if destPath in volume.disk && volume.disk[destPath].File? {
        reply := Content(path, volume.disk[destPath].data, true);
      } else {
        reply := Content(path, [], false);
      }
    }
  }
}
