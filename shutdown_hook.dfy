// DBShutdownHook: on JVM exit, stop a process that is still running, then
// quietly delete the data directory and the base directory when they
// exist, the configuration asks for it, and they lie under java.io.tmpdir.
// The suppliers the hook is given read the launcher's fields at run time,
// so the hook here reads them from the launcher itself.

module ShutdownHook {
  import opened Common
  import opened JavaIo
  import opened FileTree
  import opened TreeDeletion
  import opened Util
  import opened Configuration
  import opened RedisServer

  /** Neither path lies in the subtree of the other. */
  predicate Apart(p1: Path, p2: Path) {
    !InSubtree(p1, p2) && !InSubtree(p2, p1)
  }

  /** A path inside two subtrees means one subtree contains the other. */
  lemma SubtreesApart(q: Path, p1: Path, p2: Path)
    requires InSubtree(q, p1) && Apart(p1, p2)
    ensures !InSubtree(q, p2)
  {
    if |p2| <= |q| {
      if |p1| <= |p2| {
        assert q[..|p2|][..|p1|] == p1;
      } else {
        assert p1[..|p2|] == q[..|p2|];
      }
    }
  }

  /**
   * What run() tests besides existence: the deletion flag, and whether
   * the absolute form of `dir` lies under java.io.tmpdir.
   */
  predicate Deletes(deleting: bool, dir: File, sys: SystemProperties) {
    deleting && IsTemporaryDirectory(Some(NewFile(AbsolutePath(dir, sys))), sys)
  }

  /** `q` lies in the subtree of `dir`, and the hook would delete `dir`. */
  predicate Doomed(deleting: bool, dir: Option<File>, sys: SystemProperties, q: Path) {
    dir.Some? && Deletes(deleting, dir.value, sys) && InSubtree(q, Locate(dir.value, sys))
  }

  /**
   * One half of run(): delete `dir` quietly when it exists, `deleting`
   * is set and it is temporary.
   */
  method DeleteIfTemporary(fs: FileSystem, deleting: bool, dir: File, sys: SystemProperties)
    requires fs.Valid()
    modifies fs
    ensures fs.Valid()
    ensures fs.entries.Keys <= old(fs.entries).Keys
    ensures !Deletes(deleting, dir, sys) ==> fs.entries == old(fs.entries)
    ensures ChangedOnlyWithin(old(fs.entries), fs.entries, Locate(dir, sys))
    ensures (Deletes(deleting, dir, sys) && old(fs.IsDirectory(Locate(dir, sys))) && Locate(dir, sys) != [] &&
      Removable(old(fs.entries), Locate(dir, sys))) ==> Gone(fs.entries, Locate(dir, sys))
  {
    var path := Locate(dir, sys);
    if fs.Exists(path) && deleting && IsTemporaryDirectory(Some(NewFile(AbsolutePath(dir, sys))), sys) {
      var _ := DeleteQuietly(fs, Some(path));
    }
  }

  class DBShutdownHook {
    const threadName: string
    const db: Redis
    const configuration: Config

    constructor (threadName: string, db: Redis, configuration: Config)
      ensures this.threadName == threadName && this.db == db && this.configuration == configuration
    {
      this.threadName := threadName;
      this.db := db;
      this.configuration := configuration;
    }

    /**
     * run(): a running process is stopped; a missing data or base
     * directory ends the hook with a NullPointerException; only the
     * subtrees of directories the hook deletes change, and a removable
     * directory it deletes is gone afterwards.
     */
    method Run(fs: FileSystem) returns (r: Outcome<Exception>)
      requires fs.Valid()
      modifies fs, db.Footprint()
      ensures fs.Valid()
      ensures db.redisProcess.Some? ==> !db.redisProcess.value.alive
      ensures db.redisProcess.Some? ==> (db.redisProcess.value.destroyCount ==
        old(db.redisProcess.value.destroyCount) + (if old(db.redisProcess.value.alive) then 1 else 0))
      ensures r.Pass? <==> db.dataDir.Some? && db.baseDir.Some?
      ensures r.Fail? ==> r.error == NullPointer
      ensures db.dataDir.None? ==> fs.entries == old(fs.entries)
      ensures !configuration.isDeletingTemporaryBaseAndDataDirsOnShutdown ==> fs.entries == old(fs.entries)
      ensures fs.entries.Keys <= old(fs.entries).Keys
      ensures forall q ::
        !Doomed(configuration.isDeletingTemporaryBaseAndDataDirsOnShutdown, db.dataDir, db.sys, q) &&
        !Doomed(configuration.isDeletingTemporaryBaseAndDataDirsOnShutdown, db.baseDir, db.sys, q) ==>
        SameAt(old(fs.entries), fs.entries, q)
      ensures (db.dataDir.Some? &&
        Deletes(configuration.isDeletingTemporaryBaseAndDataDirsOnShutdown, db.dataDir.value, db.sys) &&
        old(fs.IsDirectory(Locate(db.dataDir.value, db.sys))) && Locate(db.dataDir.value, db.sys) != [] &&
        Removable(old(fs.entries), Locate(db.dataDir.value, db.sys))) ==>
        Gone(fs.entries, Locate(db.dataDir.value, db.sys))
      ensures (db.dataDir.Some? && db.baseDir.Some? &&
        Deletes(configuration.isDeletingTemporaryBaseAndDataDirsOnShutdown, db.baseDir.value, db.sys) &&
        old(fs.IsDirectory(Locate(db.baseDir.value, db.sys))) && Locate(db.baseDir.value, db.sys) != [] &&
        Removable(old(fs.entries), Locate(db.baseDir.value, db.sys)) &&
        (!Deletes(configuration.isDeletingTemporaryBaseAndDataDirsOnShutdown, db.dataDir.value, db.sys) ||
         Apart(Locate(db.dataDir.value, db.sys), Locate(db.baseDir.value, db.sys)))) ==>
        Gone(fs.entries, Locate(db.baseDir.value, db.sys))
    {
      var process := db.redisProcess;
      if process.Some? && process.value.IsAlive() {
        db.Stop();
      }
      var deleting := configuration.isDeletingTemporaryBaseAndDataDirsOnShutdown;
      var dataDir := db.dataDir;
      if dataDir.None? {
        return Fail(NullPointer);
      }
      var dataPath := Locate(dataDir.value, db.sys);
      DeleteIfTemporary(fs, deleting, dataDir.value, db.sys);
      ghost var afterData := fs.entries;
      var baseDir := db.baseDir;
      if baseDir.None? {
        return Fail(NullPointer);
      }
      var basePath := Locate(baseDir.value, db.sys);
      if Deletes(deleting, baseDir.value, db.sys) && Removable(old(fs.entries), basePath) &&
         (!Deletes(deleting, dataDir.value, db.sys) || Apart(dataPath, basePath)) {
        forall q | InSubtree(q, basePath)
          ensures SameAt(old(fs.entries), afterData, q)
        {
          if Deletes(deleting, dataDir.value, db.sys) {
            SubtreesApart(q, basePath, dataPath);
          }
        }
        RemovableSame(old(fs.entries), afterData, basePath);
      }
      DeleteIfTemporary(fs, deleting, baseDir.value, db.sys);
      r := Pass;
    }
  }
}
