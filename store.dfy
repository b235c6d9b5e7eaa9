/** The sticky file store: a directory tree
      DIR / user token / session id / file name
    held as nested maps, with the eviction sweep as a specification function
    and the file counts the sweep consults. */
module StickyStore {
  import opened Wrappers
  import opened Settings
  import opened MapSums
  import opened SessionIds

  newtype byte = x: int | 0 <= x < 256
  type Bytes = seq<byte>

  /** What sits under a user's directory: a session directory holding files,
      or (defensively handled) a plain file. */
  datatype Entry = SessionDir(files: map<string, Bytes>) | PlainFile(data: Bytes)

  /** A user's directory: its listing, entry name to entry. */
  type UserDir = map<string, Entry>

  /** The whole store; None when DIR does not exist. */
  type Root = Option<map<string, UserDir>>

  /** The three-part key of a staged file, under the store's directory.
      `dir` only mirrors DIR, which the path starts with; the store has one
      root, so Read and Write ignore it. */
  datatype StickyKey = StickyKey(dir: string, user: string, session: string, file: string)

  datatype Error =
    | MissingData   // ValueError: an identifier is missing, so no path can be formed
    | IOError       // the file system refused to open or create the file

  /** Success or the error raised. */
  datatype Status = Done | Raised(error: Error)

  // ---- File counts (os.walk over a directory, summing its file lists) ----

  ghost function EntryCount(e: Entry): nat {
    match e
    case SessionDir(files) => |files|
    case PlainFile(_) => 1
  }

  ghost function EntryCounts(d: UserDir): map<string, nat> {
    map n | n in d :: EntryCount(d[n])
  }

  /** Number of files below a user's directory. */
  ghost function CountUser(d: UserDir): nat {
    SumValues(EntryCounts(d))
  }

  ghost function UserCounts(users: map<string, UserDir>): map<string, nat> {
    map u | u in users :: CountUser(users[u])
  }

  /** Number of files below the store's directory. */
  ghost function CountStore(users: map<string, UserDir>): nat {
    SumValues(UserCounts(users))
  }

  lemma UserCountRemove(d: UserDir, n: string)
    requires n in d
    ensures CountUser(d) == EntryCount(d[n]) + CountUser(d - {n})
  {
    SumRemove(EntryCounts(d), n);
    assert EntryCounts(d) - {n} == EntryCounts(d - {n});
  }

  lemma StoreCountRemove(users: map<string, UserDir>, u: string)
    requires u in users
    ensures CountStore(users) == CountUser(users[u]) + CountStore(users - {u})
  {
    SumRemove(UserCounts(users), u);
    assert UserCounts(users) - {u} == UserCounts(users - {u});
  }

  /** count_files on a user's directory. */
  method CountUserFiles(d: UserDir) returns (n: nat)
    ensures n == CountUser(d)
  {
    n := 0;
    var rest := d;
    while rest != map[]
      invariant n + CountUser(rest) == CountUser(d)
      decreases |rest|
    {
      var name :| name in rest;
      UserCountRemove(rest, name);
      n := n + match rest[name] { case SessionDir(files) => |files| case PlainFile(_) => 1 };
      rest := rest - {name};
    }
  }

  /** count_files on the store's directory. */
  method CountStoreFiles(users: map<string, UserDir>) returns (n: nat)
    ensures n == CountStore(users)
  {
    n := 0;
    var rest := users;
    while rest != map[]
      invariant n + CountStore(rest) == CountStore(users)
      decreases |rest|
    {
      var u :| u in rest;
      StoreCountRemove(rest, u);
      var c := CountUserFiles(rest[u]);
      n := n + c;
      rest := rest - {u};
    }
  }

  // ---- The eviction sweep ----

  /** The age sweep removes entry `name` of a user's directory: its name
      reads as a timestamp, it is older than the stickiness window or the
      sweep is forced, and it is a directory. */
  predicate Evicted(cfg: Config, now: nat, force: bool, name: string, e: Entry) {
    match ParseTimestamp(name)
    case None => false
    case Some(ts) => (AgeSeconds(now, ts) > cfg.stickiness as real || force) && e.SessionDir?
  }

  /** A user's directory after the age sweep. */
  function SweepSessions(cfg: Config, now: nat, force: bool, d: UserDir): UserDir {
    map n | n in d && !Evicted(cfg, now, force, n, d[n]) :: d[n]
  }

  /** A user's directory after its turn in the sweep; None when it is
      removed (over its file limit, or empty when listed). */
  ghost function FlushUser(cfg: Config, now: nat, force: bool, d: UserDir): Option<UserDir> {
    if CountUser(d) > cfg.maxFilesPerUser then None
    else if |d| == 0 then None
    else Some(SweepSessions(cfg, now, force, d))
  }

  ghost function FlushUsers(cfg: Config, now: nat, force: bool, users: map<string, UserDir>): map<string, UserDir> {
    map u | u in users && FlushUser(cfg, now, force, users[u]).Some? :: FlushUser(cfg, now, force, users[u]).value
  }

  /** The store after flush_sticky_storage(force) at clock reading `now`
      (microseconds). */
  ghost function Flush(cfg: Config, now: nat, force: bool, root: Root): Root {
    match root
    case None => None
    case Some(users) =>
      if CountStore(users) > cfg.maxStickyFiles then None
      else Some(FlushUsers(cfg, now, force, users))
  }

  // ---- Reading and writing one staged file ----

  /** The bytes at `key`, or None when any component of its path is absent
      or the session entry is not a directory. */
  function Read(root: Root, key: StickyKey): Option<Bytes> {
    if root.Some? && key.user in root.value && key.session in root.value[key.user]
       && root.value[key.user][key.session].SessionDir?
       && key.file in root.value[key.user][key.session].files
    then Some(root.value[key.user][key.session].files[key.file])
    else None
  }

  /** The session component of `key` names a plain file. */
  predicate SessionIsPlainFile(root: Root, key: StickyKey) {
    root.Some? && key.user in root.value && key.session in root.value[key.user]
    && root.value[key.user][key.session].PlainFile?
  }

  /** The users of the store; none when it does not exist. */
  function Users(root: Root): map<string, UserDir> {
    if root.Some? then root.value else map[]
  }

  /** A user's directory; empty when it does not exist. */
  function UserAt(root: Root, u: string): UserDir {
    if u in Users(root) then Users(root)[u] else map[]
  }

  /** make_directories followed by writing `content` at `key`; fails when the
      session entry exists as a plain file.  Nothing but the key's own user,
      session and file is created or changed. */
  function Write(root: Root, key: StickyKey, content: Bytes): (r: Result<Root, Error>)
    ensures r.Failure? <==> SessionIsPlainFile(root, key)
    ensures r.Failure? ==> r.error == IOError
    ensures r.Success? ==> Read(r.value, key) == Some(content)
    ensures r.Success? ==> forall k: StickyKey :: (k.user, k.session, k.file) != (key.user, key.session, key.file)
                                       ==> Read(r.value, k) == Read(root, k)
    ensures r.Success? ==>
              && r.value.Some?
              && r.value.value.Keys == Users(root).Keys + {key.user}
              && (forall u :: u in Users(root) && u != key.user ==> r.value.value[u] == Users(root)[u])
              && r.value.value[key.user].Keys == UserAt(root, key.user).Keys + {key.session}
              && (forall n :: n in UserAt(root, key.user) && n != key.session ==>
                                r.value.value[key.user][n] == UserAt(root, key.user)[n])
  {
    var users := if root.Some? then root.value else map[];
    var user := if key.user in users then users[key.user] else map[];
    if key.session in user && user[key.session].PlainFile? then Failure(IOError)
    else
      var files := if key.session in user then user[key.session].files else map[];
      Success(Some(users[key.user := user[key.session := SessionDir(files[key.file := content])]]))
  }

  // ---- What the sweep does, and what it leaves alone ----

  /** Root missing: nothing to flush.  Global count over the limit: the whole
      store goes and no user is looked at. */
  lemma FlushGlobalRules(cfg: Config, now: nat, force: bool, root: Root)
    ensures root.None? ==> Flush(cfg, now, force, root) == None
    ensures root.Some? && CountStore(root.value) > cfg.maxStickyFiles ==> Flush(cfg, now, force, root) == None
    ensures root.Some? && CountStore(root.value) <= cfg.maxStickyFiles ==>
              Flush(cfg, now, force, root).Some? && Flush(cfg, now, force, root).value.Keys <= root.value.Keys
  {
  }

  /** Each user's outcome depends on that user's directory alone: a user
      removed for exceeding MAX_FILES_PER_USER leaves every other user as
      their own sweep leaves them. */
  lemma SweepIsPerUser(cfg: Config, now: nat, force: bool, a: map<string, UserDir>, b: map<string, UserDir>, u: string)
    requires CountStore(a) <= cfg.maxStickyFiles && CountStore(b) <= cfg.maxStickyFiles
    requires u in a && u in b && a[u] == b[u]
    ensures (u in Flush(cfg, now, force, Some(a)).value) == (u in Flush(cfg, now, force, Some(b)).value)
    ensures u in Flush(cfg, now, force, Some(a)).value ==>
              Flush(cfg, now, force, Some(a)).value[u] == Flush(cfg, now, force, Some(b)).value[u]
  {
  }

  /** A user's directory goes exactly when it holds more than
      MAX_FILES_PER_USER files or was empty when listed. */
  lemma UserRemovedIff(cfg: Config, now: nat, force: bool, users: map<string, UserDir>, u: string)
    requires CountStore(users) <= cfg.maxStickyFiles && u in users
    ensures u !in Flush(cfg, now, force, Some(users)).value
            <==> CountUser(users[u]) > cfg.maxFilesPerUser || users[u] == map[]
  {
    if users[u] == map[] {
      assert |users[u]| == 0;
    } else {
      assert |users[u]| != 0;
    }
  }

  /** In a user that is kept, the sweep removes exactly the evicted entries
      and leaves every other entry as it was; in particular names that are
      not numbers and entries that are plain files always survive. */
  lemma SweepRemovesExactlyEvicted(cfg: Config, now: nat, force: bool, users: map<string, UserDir>, u: string, n: string)
    requires CountStore(users) <= cfg.maxStickyFiles && u in users
    requires CountUser(users[u]) <= cfg.maxFilesPerUser && n in users[u]
    ensures u in Flush(cfg, now, force, Some(users)).value
    ensures n in Flush(cfg, now, force, Some(users)).value[u] <==> !Evicted(cfg, now, force, n, users[u][n])
    ensures n in Flush(cfg, now, force, Some(users)).value[u] ==> Flush(cfg, now, force, Some(users)).value[u][n] == users[u][n]
    ensures ParseTimestamp(n).None? || users[u][n].PlainFile? ==> n in Flush(cfg, now, force, Some(users)).value[u]
  {
    assert |users[u]| != 0;
  }

  /** A user whose every entry this sweep evicts is left as an empty
      directory: pruning looks at the listing taken before the sweep, so the
      directory goes at the next flush, whenever it runs and whether or not
      it is forced. */
  lemma EmptiedUserSurvivesSweep(cfg: Config, now: nat, force: bool, users: map<string, UserDir>, u: string,
                                 now': nat, force': bool)
    requires CountStore(users) <= cfg.maxStickyFiles && u in users
    requires CountUser(users[u]) <= cfg.maxFilesPerUser && users[u] != map[]
    requires forall n :: n in users[u] ==> Evicted(cfg, now, force, n, users[u][n])
    ensures u in Flush(cfg, now, force, Some(users)).value
    ensures Flush(cfg, now, force, Some(users)).value[u] == map[]
    ensures var twice := Flush(cfg, now', force', Flush(cfg, now, force, Some(users)));
            twice.Some? && u !in twice.value
  {
    var once := Flush(cfg, now, force, Some(users)).value;
    assert |users[u]| != 0;
    assert SweepSessions(cfg, now, force, users[u]) == map[];
    FlushBoundsStore(cfg, now, force, Some(users));
    UserRemovedIff(cfg, now', force', once, u);
  }

  lemma SweepNeverAddsFiles(cfg: Config, now: nat, force: bool, d: UserDir)
    ensures CountUser(SweepSessions(cfg, now, force, d)) <= CountUser(d)
  {
    SumMonotone(EntryCounts(SweepSessions(cfg, now, force, d)), EntryCounts(d));
  }

  /** After a flush that keeps the store, it holds no more files than before
      and no more than MAX_STICKY_FILES, and no user holds more than
      MAX_FILES_PER_USER. */
  lemma FlushBoundsStore(cfg: Config, now: nat, force: bool, root: Root)
    ensures var r := Flush(cfg, now, force, root);
            r.Some? ==> root.Some? && CountStore(r.value) <= CountStore(root.value) <= cfg.maxStickyFiles
                        && forall u :: u in r.value ==> CountUser(r.value[u]) <= cfg.maxFilesPerUser
  {
    var r := Flush(cfg, now, force, root);
    if r.Some? {
      var users := root.value;
      forall u | u in r.value
        ensures CountUser(r.value[u]) <= CountUser(users[u]) <= cfg.maxFilesPerUser
      {
        SweepNeverAddsFiles(cfg, now, force, users[u]);
      }
      SumMonotone(UserCounts(r.value), UserCounts(users));
    }
  }

  /** The sweep evicts a session directory the widget created at `t`
      microseconds once more than STICKINESS seconds have passed, or when
      forced. */
  lemma SessionOfTimeEvicted(cfg: Config, now: nat, force: bool, t: nat, e: Entry)
    requires e.SessionDir?
    requires now - t > cfg.stickiness * MicrosPerSecond || force
    ensures Evicted(cfg, now, force, FormatSessionId(t), e)
  {
    ParseFormatRoundTrip(t);
    AgeOfSession(now, t, cfg.stickiness);
  }

  /** A session the widget created at `t` microseconds is gone after a flush
      once more than STICKINESS seconds have passed, or when forced. */
  lemma ExpiredSessionEvicted(cfg: Config, now: nat, force: bool, root: Root, key: StickyKey, t: nat)
    requires key.session == FormatSessionId(t)
    requires now - t > cfg.stickiness * MicrosPerSecond || force
    ensures Read(Flush(cfg, now, force, root), key) == None
  {
    var r := Flush(cfg, now, force, root);
    if r.Some? && key.user in r.value && key.session in r.value[key.user]
       && r.value[key.user][key.session].SessionDir? {
      var d := root.value[key.user];
      assert r.value[key.user] == SweepSessions(cfg, now, force, d);
      SessionOfTimeEvicted(cfg, now, force, t, d[key.session]);
    }
  }

  /** A staged file stays readable across an unforced flush while it is
      within the stickiness window and neither limit is exceeded. */
  lemma FreshSessionSurvives(cfg: Config, now: nat, root: Root, key: StickyKey, t: nat)
    requires key.session == FormatSessionId(t) && now - t <= cfg.stickiness * MicrosPerSecond
    requires Read(root, key).Some?
    requires CountStore(root.value) <= cfg.maxStickyFiles
    requires CountUser(root.value[key.user]) <= cfg.maxFilesPerUser
    ensures Read(Flush(cfg, now, false, root), key) == Read(root, key)
  {
    ParseFormatRoundTrip(t);
    AgeOfSession(now, t, cfg.stickiness);
    var d := root.value[key.user];
    assert !Evicted(cfg, now, false, key.session, d[key.session]);
    SweepRemovesExactlyEvicted(cfg, now, false, root.value, key.user, key.session);
  }

  // ---- Growth of the store on a write ----

  lemma UserCountUpdate(d: UserDir, n: string, e: Entry)
    ensures CountUser(d[n := e]) == EntryCount(e) + CountUser(d - {n})
  {
    UserCountRemove(d[n := e], n);
    assert d[n := e] - {n} == d - {n};
  }

  lemma StoreCountUpdate(users: map<string, UserDir>, u: string, d: UserDir)
    ensures CountStore(users[u := d]) == CountUser(d) + CountStore(users - {u})
  {
    StoreCountRemove(users[u := d], u);
    assert users[u := d] - {u} == users - {u};
  }

  /** Files under a user or the store before a write: none where the
      directory does not exist. */
  ghost function UserFilesAt(root: Root, u: string): nat {
    if root.Some? && u in root.value then CountUser(root.value[u]) else 0
  }

  ghost function StoreFiles(root: Root): nat {
    if root.Some? then CountStore(root.value) else 0
  }

  lemma SessionWriteGrowth(user: UserDir, session: string, file: string, content: Bytes)
    requires session in user ==> user[session].SessionDir?
    ensures var files := if session in user then user[session].files else map[];
            CountUser(user[session := SessionDir(files[file := content])]) <= CountUser(user) + 1
  {
    var files := if session in user then user[session].files else map[];
    UserCountUpdate(user, session, SessionDir(files[file := content]));
    if session in user {
      UserCountRemove(user, session);
    } else {
      assert user - {session} == user;
    }
  }

  lemma UserWriteGrowth(users: map<string, UserDir>, u: string, d: UserDir)
    ensures CountStore(users[u := d]) <= CountStore(users) + CountUser(d) - (if u in users then CountUser(users[u]) else 0)
  {
    StoreCountUpdate(users, u, d);
    if u in users {
      StoreCountRemove(users, u);
    } else {
      assert users - {u} == users;
    }
  }

  /** A write adds at most one file: to its own user, and to the store; no
      other user changes. */
  lemma WriteAddsAtMostOneFile(root: Root, key: StickyKey, content: Bytes)
    requires Write(root, key, content).Success?
    ensures var r := Write(root, key, content).value;
            r.Some? && key.user in r.value
            && CountUser(r.value[key.user]) <= UserFilesAt(root, key.user) + 1
            && StoreFiles(r) <= StoreFiles(root) + 1
            && (forall u :: u in r.value && u != key.user ==> root.Some? && u in root.value && r.value[u] == root.value[u])
            && (forall u :: root.Some? && u in root.value && u != key.user ==> u in r.value)
  {
    var users := if root.Some? then root.value else map[];
    var user := if key.user in users then users[key.user] else map[];
    var files := if key.session in user then user[key.session].files else map[];
    var d := user[key.session := SessionDir(files[key.file := content])];
    SessionWriteGrowth(user, key.session, key.file, content);
    UserWriteGrowth(users, key.user, d);
    assert CountUser(user) == UserFilesAt(root, key.user) by {
      if key.user !in users {
        assert EntryCounts(map[]) == map[];
      }
    }
    assert CountStore(users) == StoreFiles(root) by {
      if root.None? {
        assert UserCounts(map[]) == map[];
      }
    }
  }

  // ---- The store part-way through a sweep ----

  /** Users in `pending` are not yet visited; the others are as the sweep
      leaves them. */
  ghost function PartlyFlushed(cfg: Config, now: nat, force: bool, users: map<string, UserDir>, pending: set<string>): map<string, UserDir> {
    map u | u in users && (u in pending || FlushUser(cfg, now, force, users[u]).Some?) ::
      if u in pending then users[u] else FlushUser(cfg, now, force, users[u]).value
  }

  /** Entries in `pending` are not yet looked at; of the others only those
      the sweep keeps are left. */
  ghost function PartlySwept(cfg: Config, now: nat, force: bool, listing: UserDir, pending: set<string>): UserDir {
    map n | n in listing && (n in pending || !Evicted(cfg, now, force, n, listing[n])) :: listing[n]
  }

  lemma SweepStep(cfg: Config, now: nat, force: bool, listing: UserDir, names: set<string>, n: string)
    requires n in names && names <= listing.Keys
    ensures Evicted(cfg, now, force, n, listing[n]) ==>
              PartlySwept(cfg, now, force, listing, names) - {n} == PartlySwept(cfg, now, force, listing, names - {n})
    ensures !Evicted(cfg, now, force, n, listing[n]) ==>
              PartlySwept(cfg, now, force, listing, names) == PartlySwept(cfg, now, force, listing, names - {n})
  {
  }

  lemma PartlyFlushedBounds(cfg: Config, now: nat, force: bool, users: map<string, UserDir>)
    ensures PartlyFlushed(cfg, now, force, users, users.Keys) == users
    ensures PartlyFlushed(cfg, now, force, users, {}) == FlushUsers(cfg, now, force, users)
  {
  }

  lemma PartlySweptBounds(cfg: Config, now: nat, force: bool, listing: UserDir)
    ensures PartlySwept(cfg, now, force, listing, listing.Keys) == listing
    ensures PartlySwept(cfg, now, force, listing, {}) == SweepSessions(cfg, now, force, listing)
  {
  }

  lemma FlushStep(cfg: Config, now: nat, force: bool, users: map<string, UserDir>, pending: set<string>, u: string)
    requires u in pending && u in users
    ensures var before := PartlyFlushed(cfg, now, force, users, pending);
            var after := PartlyFlushed(cfg, now, force, users, pending - {u});
            match FlushUser(cfg, now, force, users[u])
            case None => before - {u} == after
            case Some(d) => before[u := d] == after
  {
  }

  // ---- The file system holding the store ----

  /** The directory DIR on disk, shared by every widget. */
  class FileSystem {
    var root: Root

    constructor(initial: Root)
      ensures root == initial
    {
      root := initial;
    }

    /** shutil.rmtree(DIR) */
    method RemoveRoot()
      modifies this
      ensures root == None
    {
      root := None;
    }

    /** shutil.rmtree(DIR/user) */
    method RemoveUser(user: string)
      requires root.Some?
      modifies this
      ensures root == Some(old(root).value - {user})
    {
      root := Some(root.value - {user});
    }

    /** shutil.rmtree(DIR/user/name) */
    method RemoveEntry(user: string, name: string)
      requires root.Some? && user in root.value
      modifies this
      ensures root == Some(old(root).value[user := old(root).value[user] - {name}])
    {
      root := Some(root.value[user := root.value[user] - {name}]);
    }

    /** make_directories(path) and writing the whole content at path. */
    method WriteFile(key: StickyKey, content: Bytes) returns (status: Status)
      modifies this
      ensures status.Done? ==> Read(root, key) == Some(content)
      ensures var w := Write(old(root), key, content);
              if w.Success? then root == w.value && status == Done
              else root == old(root) && status == Raised(w.error)
    {
      var w := Write(root, key, content);
      if w.Success? {
        root := w.value;
        status := Done;
      } else {
        status := Raised(w.error);
      }
    }
  }
}
