# Redis4j core, modelled in Dafny

Redis4j starts a `redis-server` process for tests. It unpacks the binaries, prepares a base directory, a data directory and a temporary directory, and builds the server's command line. It then launches the server and waits for its readiness line. A JVM shutdown hook stops the server and deletes the temporary directories afterwards.

This project models that core and proves its properties:

- the configuration builder, with its freeze rule and derived defaults (`ConfigurationBuilder`);
- the configuration value object (`Configuration`);
- the helpers in `Util`: the temporary-directory test, Cygwin path conversion, the retry loop, directory validation and classpath extraction;
- the two launchers: `Redis` (`RedisServer`) and the older `DB` variant (`LegacyDb`);
- the shutdown hook: `ShutdownHook`, with its recursive deletion in `TreeDeletion`;
- the log-level dispatcher (`LogDispatcher`).

Some parts are abstract state or parameters:

- **Filesystem.** It is a `FileTree.FileSystem` object: a map from component paths to entries (directory, regular file, or symbolic link, possibly broken). Each entry carries DOS and POSIX attribute views and permissions. Every non-root entry sits in a directory.
- **java.io.File.** `JavaIo` models paths and their resolution against `user.dir`. `SystemProperties` stands for `java.io.tmpdir`, `user.dir` and `SystemUtils.IS_OS_WINDOWS`.
- **Process library.** `ch.vorburger.exec` is the `Exec` module. A builder records what it is told. A process has a liveness flag, and whether it becomes ready is decided nondeterministically.
- **Inputs.** Free ports, UUIDs, classpath resources and copy outcomes are parameters.

Imperative code stays imperative:

- Setters, `start`, `stop`, `prepareDirectories` and the hook's `run` are methods on classes whose fields they update.
- The deletion walk and `cleanDirectory` change the `FileSystem` step by step.
- `tryN` and the extraction loop are `while` loops with invariants.

Each such method is proved against a specification function, such as `ServerInvocation`, `DbInvocation`, `TryNOutcome`, `ReadOnlyUpdate` or `BuildAsWritten`. Its promised properties are then proved as lemmas about that function.

Where the code and its written description disagree, the model follows the code:

- **The deletion walk is fail-fast.** A visitor exception aborts `Files.walkFileTree`, which is `DBShutdownHook.java:273-276`. Only `cleanDirectory` carries on after a failed child.
- **The shown files do not compile together.** The model takes each function as written:
  - `Redis.java:272-279` passes seven arguments to the six-parameter hook constructor. The hook is modelled with the six-parameter constructor, reading the launcher's fields directly.
  - `DB.java:247-254` passes a `DB` where the hook needs a `Redis`. The DB variant therefore has no hook.
  - `getTmpDir`, `getLibDir`, `isWindows` and `getOSLibraryEnvironmentVarName` are called but not declared. They are constructor parameters of the launcher (`tmpDirSetting`, `libDirSetting`, `isWindows`, `libraryVariable`).
  - `OSPlatform.isLinux` is called but does not exist. The OS is a parameter.

## Model

| member | source | states |
|---|---|---|
| ShutdownHook.DBShutdownHook.constructor | redis4j-core/src/main/java/top/lihuu/redis4j/DBShutdownHook.java:71-84 | keeps the thread name, the launcher and the configuration it is given |
| ShutdownHook.DBShutdownHook.Run | redis4j-core/src/main/java/top/lihuu/redis4j/DBShutdownHook.java:297-332 | stops the process exactly when it is alive (destroyed once, else untouched); a null data or base directory ends the hook with a NullPointerException; with the flag off nothing on disk changes, and otherwise only the subtrees of directories that are temporary (by absolute path) change (a link counts as an entry of its own, see Left out); a removable temporary data directory is gone afterwards, and so is a removable temporary base directory that does not overlap a deleted data directory |
| ShutdownHook.DeleteIfTemporary | redis4j-core/src/main/java/top/lihuu/redis4j/DBShutdownHook.java:314-331 | deletes only when the flag is set and the absolute path is temporary; changes nothing outside the directory's subtree (a link counts as an entry of its own, see Left out) and only removes entries; a removable directory is gone |
| ShutdownHook.SubtreesApart | redis4j-core/src/main/java/top/lihuu/redis4j/DBShutdownHook.java:314-331 | a path inside one of two non-nested directories is not inside the other, so deleting the data directory leaves a separate base directory intact |
| TreeDeletion.DeleteQuietly | redis4j-core/src/main/java/top/lihuu/redis4j/DBShutdownHook.java:86-103 | never throws; null gives false and no change; true means nothing of the subtree is left; a non-directory is deleted exactly when unlinking it is allowed; a removable directory other than the root is always deleted; nothing outside the subtree changes (a link counts as an entry of its own, see Left out) |
| TreeDeletion.CleanDirectory | redis4j-core/src/main/java/top/lihuu/redis4j/DBShutdownHook.java:105-121 | a listing failure is rethrown with no change; otherwise every child is attempted, and each one is gone or named among the suppressed causes of one IOException for the directory; that exception has at least one cause, all of them CannotDelete for listed children; success leaves the directory empty; a directory whose children are all removable is cleaned |
| TreeDeletion.ForceDelete | redis4j-core/src/main/java/top/lihuu/redis4j/DBShutdownHook.java:123-131 | success leaves nothing of the subtree; a failure is wrapped as "Cannot delete file" for that path; a removable entry other than the root is deleted; nothing outside the subtree changes (a link counts as an entry of its own, see Left out) |
| TreeDeletion.DeletePath | redis4j-core/src/main/java/top/lihuu/redis4j/DBShutdownHook.java:133-143 | a directory goes through the walk and anything else through deleteFile; a missing path is no error; success leaves nothing of the subtree; a removable entry other than the root is deleted |
| TreeDeletion.DeleteFile | redis4j-core/src/main/java/top/lihuu/redis4j/DBShutdownHook.java:145-155 | a directory is refused with NoSuchFileException and no change; a missing path is no error; only the path's own entry can change (a link counts as an entry of its own, see Left out); a removable file or link is deleted |
| TreeDeletion.ReadOnlyUpdate | redis4j-core/src/main/java/top/lihuu/redis4j/DBShutdownHook.java:157-195 | a settable DOS view wins and ends the step; otherwise the POSIX view strips the owner, group and others write bits whatever the argument; it fails exactly when no view worked, with NoAttributeView when there is none, AccessDenied for unreadable POSIX attributes, or one cause per failed view; a failure changes nothing |
| TreeDeletion.SetReadOnly | redis4j-core/src/main/java/top/lihuu/redis4j/DBShutdownHook.java:157-195 | updates the entry at the path in place exactly as ReadOnlyUpdate says, a link's own entry included; nothing else changes |
| TreeDeletion.ClearReadOnlyUnblocks | redis4j-core/src/main/java/top/lihuu/redis4j/DBShutdownHook.java:160-168 | clearing read-only through a working DOS view leaves a permitted entry deletable |
| TreeDeletion.PosixStripsWrite | redis4j-core/src/main/java/top/lihuu/redis4j/DBShutdownHook.java:170-184 | without a DOS view, setReadOnly(false) removes every write permission |
| TreeDeletion.ListFiles | redis4j-core/src/main/java/top/lihuu/redis4j/DBShutdownHook.java:197-232 | a missing path or a non-directory gives IllegalArgumentException; an unlistable directory gives an IOException; otherwise exactly the directory's children |
| TreeDeletion.IsEmptyDirectory | redis4j-core/src/main/java/top/lihuu/redis4j/DBShutdownHook.java:234-238 | a readable directory is empty exactly when it has no child; a missing path gives NoSuchFileException |
| TreeDeletion.VisitFile | redis4j-core/src/main/java/top/lihuu/redis4j/DBShutdownHook.java:253-267 | only the visited entry can change (a link counts as an entry of its own, see Left out); success means it is gone; a removable entry is always removed, a broken link by the second delete |
| TreeDeletion.PostVisitDirectory | redis4j-core/src/main/java/top/lihuu/redis4j/DBShutdownHook.java:282-291 | a non-empty directory stays; an empty one is deleted if unlinking is allowed; a reported walk exception is rethrown afterwards; a failed unlink throws with no change |
| TreeDeletion.Walk | redis4j-core/src/main/java/top/lihuu/redis4j/DBShutdownHook.java:244-291 | changes nothing outside the subtree (a link counts as an entry of its own, see Left out) and only removes entries; success leaves nothing of the subtree; a removable subtree other than the root is always deleted |
| TreeDeletion.WalkDirectory | redis4j-core/src/main/java/top/lihuu/redis4j/DBShutdownHook.java:273-291 | the children are walked before the directory's post-visit; the same frame and success guarantees as Walk |
| TreeDeletion.RemovableChild | redis4j-core/src/main/java/top/lihuu/redis4j/DBShutdownHook.java:244-291 | a removable subtree has removable child subtrees |
| TreeDeletion.AfterDelete | redis4j-core/src/main/java/top/lihuu/redis4j/DBShutdownHook.java:283-284 | once a directory can be unlinked, nothing of its subtree remains |
| FileTree.FileSystem.Delete | redis4j-core/src/main/java/top/lihuu/redis4j/DBShutdownHook.java:259-264 | Files.delete: removes exactly the path when allowed, otherwise throws the exception DeleteOutcome names and changes nothing |
| FileTree.FileSystem.DeleteIfExists | redis4j-core/src/main/java/top/lihuu/redis4j/DBShutdownHook.java:254-256 | Files.deleteIfExists: a missing path gives false and no change; otherwise behaves as Files.delete and reports true |
| FileTree.FileSystem.FileDelete | redis4j-core/src/main/java/top/lihuu/redis4j/DBShutdownHook.java:99 | File.delete: true exactly when Files.delete would succeed, and the path is then removed |
| FileTree.FileSystem.ForceMkdir | redis4j-core/src/main/java/top/lihuu/redis4j/Util.java:58-64 | FileUtils.forceMkdir: when some existing prefix is not a directory it fails with no change; it may also fail for other reasons, and any failure is an IOException that leaves a missing path missing; on success the path is a directory and exactly the missing prefixes were added, as fresh directories; every old entry is kept and nothing but prefixes of the path is added |
| FileTree.FileSystem.RemoveTree | redis4j-core/src/main/java/top/lihuu/redis4j/Redis.java:254-256 | FileUtils.deleteDirectory: a missing path, a broken link included, is no error and no change; a link is deleted on its own, as Files.delete would; an existing regular file is refused by cleanDirectory with an IllegalArgumentException and no change; a deletable directory subtree is removed entirely; a failure changes nothing |
| FileTree.AncestorsExist | redis4j-core/src/main/java/top/lihuu/redis4j/DBShutdownHook.java:244-291 | every proper prefix of an entry is a directory in the tree |
| FileTree.RemoveLeaf | redis4j-core/src/main/java/top/lihuu/redis4j/DBShutdownHook.java:287-289 | removing a childless entry keeps the tree well formed |
| FileTree.RemoveSubtree | redis4j-core/src/main/java/top/lihuu/redis4j/Redis.java:254-256 | removing a whole subtree other than the root keeps the tree well formed |
| Util.IsTemporaryDirectory | redis4j-core/src/main/java/top/lihuu/redis4j/Util.java:84-86 | false for null; otherwise the absolute path string begins with java.io.tmpdir, as a raw prefix |
| Util.BelowTemporaryRoot | redis4j-core/src/main/java/top/lihuu/redis4j/Util.java:84-86 | any absolute path written below the temporary root is temporary |
| Util.RelativeResolvesAgainstUserDir | redis4j-core/src/main/java/top/lihuu/redis4j/Util.java:84-86 | a relative file is temporary exactly when its resolution against user.dir begins with the temporary root |
| Util.RawPrefixAcceptsSibling | redis4j-core/src/main/java/top/lihuu/redis4j/Util.java:84-86 | with root "/tmp", the sibling "/tmpfs/x" also counts as temporary: the test does not stop at a name boundary |
| Util.ConvertWinToCygwinPath | redis4j-core/src/main/java/top/lihuu/redis4j/Util.java:181-198 | null and "" are returned unchanged; any other input gives a result without a backslash |
| Util.CygwinDriveLetter | redis4j-core/src/main/java/top/lihuu/redis4j/Util.java:192-195 | `<letter>:rest` becomes "/cygdrive/" + the lower-case letter + rest with its backslashes turned into slashes |
| Util.CygwinUncPath | redis4j-core/src/main/java/top/lihuu/redis4j/Util.java:186-190 | a path opening with two slashes of either kind is returned as "//" + the rest with its backslashes turned into slashes |
| Util.CygwinOtherPath | redis4j-core/src/main/java/top/lihuu/redis4j/Util.java:186-197 | any other non-empty path, neither of the two forms above, only has its backslashes turned into slashes |
| Util.ConvertWinToCygwinPathIdempotent | redis4j-core/src/main/java/top/lihuu/redis4j/Util.java:181-198 | converting twice gives the same as converting once |
| Util.TryNPromises | redis4j-core/src/main/java/top/lihuu/redis4j/Util.java:147-168 | with Java assertions disabled, n <= 0 makes no call and throws NullPointerException (the null last exception); otherwise there are 1 to n calls; every call before the last threw an IOException; the result passes exactly when the last call did, and a failure is the last call's exception; stopping early means the last call was not an IOException |
| Util.TryN | redis4j-core/src/main/java/top/lihuu/redis4j/Util.java:147-168 | the loop returns the outcome and call count of TryNOutcome |
| Util.RetryFacts | redis4j-core/src/main/java/top/lihuu/redis4j/Util.java:151-165 | the retry loop from any intermediate state keeps the tryN guarantees |
| Util.GetDirectory | redis4j-core/src/main/java/top/lihuu/redis4j/Util.java:57-76 | a missing directory is either created, with only prefixes of the path added, or the call fails with "Unable to create new directory at path: " and the path still missing; when creation is blocked by a non-directory prefix it fails with no change at all; then rejects, in this order, a blank absolute path, a non-directory and an unreadable one, each with its own IllegalArgumentException message; otherwise returns the same file, now a readable directory; old entries are kept and only prefixes of the path are added |
| Util.LocationPattern | redis4j-core/src/main/java/top/lihuu/redis4j/Util.java:116 | the resolver pattern begins with "classpath*:" and the package path |
| Util.RelativeName | redis4j-core/src/main/java/top/lihuu/redis4j/Util.java:128-129 | when the package path occurs in the URL, the name is what follows its last occurrence; the only failure is an IndexOutOfBounds exception |
| Util.Target | redis4j-core/src/main/java/top/lihuu/redis4j/Util.java:128-130 | the target file lies in the destination directory, at the resource's relative name; a failure is that of the name computation |
| Util.ResourceStep | redis4j-core/src/main/java/top/lihuu/redis4j/Util.java:123-137 | an unreadable resource or a URL ending in '/' is skipped; a resource counts exactly when it is selected (readable, URL known and not ending in '/', length known, target missing or of a different length) and its copy succeeds within five tries; the errors, in order, are getURL's, the name computation's, contentLength's and the copy's |
| Util.ExtractResource | redis4j-core/src/main/java/top/lihuu/redis4j/Util.java:123-137 | one loop pass computes ResourceStep, getURL's and contentLength's exceptions included |
| Util.ExtractFromClasspathToFile | redis4j-core/src/main/java/top/lihuu/redis4j/Util.java:114-144 | nothing matched throws "Nothing found at " + pattern; success exactly when every step succeeds, returning the number of selected resources; a failure is the first failing step's exception |
| Util.CountStep | redis4j-core/src/main/java/top/lihuu/redis4j/Util.java:132-135 | the counter grows by one exactly for a selected resource |
| Util.NumSelected | redis4j-core/src/main/java/top/lihuu/redis4j/Util.java:122-143 | the count never exceeds the number of resources |
| RedisServer.HasArgument | redis4j-core/src/main/java/top/lihuu/redis4j/Redis.java:176-183 | true exactly when some configured argument begins with the name (DB.java:141-148 is the same code) |
| RedisServer.AddArguments | redis4j-core/src/main/java/top/lihuu/redis4j/Redis.java:142-144 | appends every configured argument, unchanged and in order, and touches nothing else in the builder |
| RedisServer.ServerDefaultsSuppressedByPrefix | redis4j-core/src/main/java/top/lihuu/redis4j/Redis.java:127-137 | "--daemonize no" is always first; "--appendonly no" is present exactly when no argument begins with "--appendonly", and "--protected-mode yes" exactly when none begins with "--protected-mode" |
| RedisServer.ServerArgumentsAlwaysPresent | redis4j-core/src/main/java/top/lihuu/redis4j/Redis.java:139-141 | "--dir <absolute data dir>" and "--port <port>" are always present; "--socket" appears exactly when a socket file is passed, which happens off Windows |
| RedisServer.ServerArgumentsOrder | redis4j-core/src/main/java/top/lihuu/redis4j/Redis.java:127-144 | the configured arguments come last, unchanged and in order, after at least three built-ins |
| RedisServer.TextsOfPlains | redis4j-core/src/main/java/top/lihuu/redis4j/Redis.java:142-144 | the added arguments hold exactly the configured texts |
| RedisServer.ServerInvocation | redis4j-core/src/main/java/top/lihuu/redis4j/Redis.java:124-150 | the errors in order: an unregistered server executable (IllegalArgumentException naming it), a null data directory, a null socket off Windows; otherwise the server executable with the argument list above, the inherited environment and the library's own shutdown destroyer switched off |
| RedisServer.AbsoluteSocketFile | redis4j-core/src/main/java/top/lihuu/redis4j/Redis.java:200-204 | a null socket throws NullPointerException; otherwise the socket's absolute file |
| RedisServer.AbsoluteSocketFileSameLocation | redis4j-core/src/main/java/top/lihuu/redis4j/Redis.java:200-204 | the absolute socket file is absolute and names the same location as the configured socket |
| RedisServer.ClientArguments | redis4j-core/src/main/java/top/lihuu/redis4j/Redis.java:165-170 | "-p", the port in decimal, then exactly the pieces of command.split(" ") in order |
| RedisServer.ClientArgumentsRoundTrip | redis4j-core/src/main/java/top/lihuu/redis4j/Redis.java:165-170 | joining the pieces after the port with spaces gives back a command that does not end in a space |
| RedisServer.NotReadyMessage | redis4j-core/src/main/java/top/lihuu/redis4j/Redis.java:104-109 | the not-ready message contains the wait in milliseconds and the readiness tag |
| RedisServer.DefaultWaitRendered | redis4j-core/src/main/java/top/lihuu/redis4j/Redis.java:31 | the default wait appears as "30000" |
| RedisServer.GetDirectoryOf | redis4j-core/src/main/java/top/lihuu/redis4j/Redis.java:250-251 | getDirectory on a possibly null file: null throws NullPointerException with no change; success gives a readable directory |
| RedisServer.PrepareDataDirectory | redis4j-core/src/main/java/top/lihuu/redis4j/Redis.java:252-261 | a temporary data directory is deleted first, then created and validated; every failure is wrapped as "An error occurred while preparing the data directory"; a non-temporary one keeps every old entry; on success a temporary one is a fresh, empty readable directory; a regular file at a temporary data path makes it fail with no change |
| RedisServer.Redis.constructor | redis4j-core/src/main/java/top/lihuu/redis4j/Redis.java:26-35 | no directories and no process yet, with the default wait of 30000 ms |
| RedisServer.Redis.AddPortAndMaybeSocketArguments | redis4j-core/src/main/java/top/lihuu/redis4j/Redis.java:185-191 | appends "--port <port>", then the absolute socket file off Windows; a null socket there throws NullPointerException |
| RedisServer.Redis.StartPreparation | redis4j-core/src/main/java/top/lihuu/redis4j/Redis.java:124-150 | builds a fresh, unstarted process for exactly ServerInvocation, or throws its error |
| RedisServer.Redis.Start | redis4j-core/src/main/java/top/lihuu/redis4j/Redis.java:89-112 | a preparation failure is wrapped as "An error occurred while starting redis-server" and keeps the old process; a launch failure is wrapped the same way; success means the process is alive and not destroyed; when readiness is not seen, a live process is destroyed and the not-ready message is thrown |
| RedisServer.Redis.Stop | redis4j-core/src/main/java/top/lihuu/redis4j/Redis.java:211-219 | destroys the process exactly when there is one and it is alive; otherwise nothing changes |
| RedisServer.Redis.StopTwice | redis4j-core/src/main/java/top/lihuu/redis4j/Redis.java:211-219 | two stops in a row destroy at most once |
| RedisServer.Redis.Close | redis4j-core/src/main/java/top/lihuu/redis4j/Redis.java:283-285 | close has exactly the effect of stop |
| RedisServer.Redis.RunCommand | redis4j-core/src/main/java/top/lihuu/redis4j/Redis.java:161-174 | an unregistered client throws IllegalArgumentException before anything runs; otherwise a fresh client process is launched with ClientArguments, and the result is the output captured by the time start() returns; start does not wait for the client to exit |
| RedisServer.Redis.PrepareDirectories | redis4j-core/src/main/java/top/lihuu/redis4j/Redis.java:249-262 | the base and temporary directories are validated with their exceptions passed on unwrapped; the data directory is prepared with its failures wrapped; on success the fields hold the configured directories and the data directory is readable; a non-temporary data directory never loses an entry; a regular file at a temporary data path makes it fail |
| LegacyDb.DbDefaultsSuppressedByPrefix | redis4j-core/src/main/java/top/lihuu/redis4j/DB.java:110-124 | "--daemonize yes", "--appendonly no", "--protected-mode no" and "--logfile stdout" are each present exactly when no configured argument begins with their option name |
| LegacyDb.DefaultsUnlessMembers | redis4j-core/src/main/java/top/lihuu/redis4j/DB.java:110-124 | each of the four defaults is present exactly when its option is not overridden |
| LegacyDb.DbArgumentsShape | redis4j-core/src/main/java/top/lihuu/redis4j/DB.java:126-131 | "--dir" names the base directory; the port is always given as "--port=<port>"; "--socket" appears exactly when a socket file is passed; the configured arguments come last, in order |
| LegacyDb.DbInvocation | redis4j-core/src/main/java/top/lihuu/redis4j/DB.java:106-139 | the errors in order: an unregistered server executable, then a null library, base directory or (off Windows) socket, and last a null data directory, whose name cleanupOnExit reads (DB.java:243); otherwise the library directory's absolute path sits in the platform's library variable, the base directory is the working directory, and the arguments are DbArguments |
| LegacyDb.AddDbDefaults | redis4j-core/src/main/java/top/lihuu/redis4j/DB.java:110-124 | appends exactly the defaults that were not overridden, in order, and touches nothing else |
| LegacyDb.DB.constructor | redis4j-core/src/main/java/top/lihuu/redis4j/DB.java:22-32 | no directories and no process yet, with the default wait of 30000 ms |
| LegacyDb.DB.AddPortAndMaybeSocketArguments | redis4j-core/src/main/java/top/lihuu/redis4j/DB.java:150-156 | appends "--port=<port>", then the socket file off Windows |
| LegacyDb.DB.AddSocketOrPortArgument | redis4j-core/src/main/java/top/lihuu/redis4j/DB.java:158-164 | appends exactly one argument: the socket off Windows, the port on Windows |
| LegacyDb.DB.StartPreparation | redis4j-core/src/main/java/top/lihuu/redis4j/DB.java:106-139 | builds a fresh, unstarted process for exactly DbInvocation, or throws its error, a null data directory's NullPointerException included |
| LegacyDb.DB.Start | redis4j-core/src/main/java/top/lihuu/redis4j/DB.java:76-100 | as for Redis, with "An error occurred while starting the database" and the tag ": ready for connections."; a null data directory fails inside the preparation and is wrapped |
| LegacyDb.DB.Stop | redis4j-core/src/main/java/top/lihuu/redis4j/DB.java:184-192 | destroys the process exactly when there is one and it is alive |
| LegacyDb.DB.PrepareDirectories | redis4j-core/src/main/java/top/lihuu/redis4j/DB.java:222-236 | as for Redis, also validating the library directory before the temporary one; a regular file at a temporary data path makes it fail |
| ConfigurationBuilder.InitialState | redis4j-core/src/main/java/top/lihuu/redis4j/RedisConfigurationBuilder.java:38-57 | a fresh builder is unfrozen, port 0, deletion on, unpacking on, no arguments or executables, base tmpdir/Redis4j/base and data tmpdir/Redis4j/data |
| ConfigurationBuilder.CheckIfFrozen | redis4j-core/src/main/java/top/lihuu/redis4j/RedisConfigurationBuilder.java:67-71 | passes exactly when not frozen; otherwise an IllegalStateException naming the setter |
| ConfigurationBuilder.Builder.SetPort | redis4j-core/src/main/java/top/lihuu/redis4j/RedisConfigurationBuilder.java:107-111 | frozen: throws and changes nothing; otherwise sets only the port |
| ConfigurationBuilder.Builder.SetProcessListener | redis4j-core/src/main/java/top/lihuu/redis4j/RedisConfigurationBuilder.java:119-122 | unguarded: sets the listener even after build() |
| ConfigurationBuilder.Builder.SetDeletingTemporaryBaseAndDataDirsOnShutdown | redis4j-core/src/main/java/top/lihuu/redis4j/RedisConfigurationBuilder.java:140-144 | frozen: throws, naming "keepsDataAndBaseDir"; otherwise sets only the flag |
| ConfigurationBuilder.Builder.AddArg | redis4j-core/src/main/java/top/lihuu/redis4j/RedisConfigurationBuilder.java:192-196 | frozen: throws; otherwise appends the argument |
| ConfigurationBuilder.Builder.SetSocket | redis4j-core/src/main/java/top/lihuu/redis4j/RedisConfigurationBuilder.java:163-167 | frozen: throws; otherwise sets only the socket |
| ConfigurationBuilder.Builder.SetBaseDir | redis4j-core/src/main/java/top/lihuu/redis4j/RedisConfigurationBuilder.java:81-85 | frozen: throws; otherwise sets only the base directory |
| ConfigurationBuilder.Builder.SetDataDir | redis4j-core/src/main/java/top/lihuu/redis4j/RedisConfigurationBuilder.java:91-95 | frozen: throws; otherwise sets only the data directory |
| ConfigurationBuilder.Builder.SetDatabaseVersion | redis4j-core/src/main/java/top/lihuu/redis4j/RedisConfigurationBuilder.java:238-241 | frozen: throws; otherwise sets only the version |
| ConfigurationBuilder.Builder.SetOS | redis4j-core/src/main/java/top/lihuu/redis4j/RedisConfigurationBuilder.java:263-267 | frozen: throws; otherwise sets only the OS directory name |
| ConfigurationBuilder.Builder.SetUnpackingFromClasspath | redis4j-core/src/main/java/top/lihuu/redis4j/RedisConfigurationBuilder.java:292-296 | frozen: throws; otherwise sets only the unpacking flag |
| ConfigurationBuilder.Builder.SetDefaultCharacterSet | redis4j-core/src/main/java/top/lihuu/redis4j/RedisConfigurationBuilder.java:306-310 | frozen: throws; otherwise sets only the character set |
| ConfigurationBuilder.Builder.SetInitRdbFile | redis4j-core/src/main/java/top/lihuu/redis4j/RedisConfigurationBuilder.java:320-324 | frozen: throws; otherwise sets only the initial RDB file |
| ConfigurationBuilder.EffectivePort | redis4j-core/src/main/java/top/lihuu/redis4j/RedisConfigurationBuilder.java:215-221 | a non-zero port is kept; 0 gives the detected free port |
| ConfigurationBuilder.Builder.GetPort | redis4j-core/src/main/java/top/lihuu/redis4j/RedisConfigurationBuilder.java:215-221 | returns the effective port, which the builder's port field then holds, since detectFreePort stores the port it finds |
| ConfigurationBuilder.SocketPath | redis4j-core/src/main/java/top/lihuu/redis4j/RedisConfigurationBuilder.java:223-232 | the explicit socket, else tmpdir + "/redis4j." + port + ".sock" |
| ConfigurationBuilder.DefaultSocketsDiffer | redis4j-core/src/main/java/top/lihuu/redis4j/RedisConfigurationBuilder.java:223-232 | different ports get different default sockets |
| ConfigurationBuilder.DataDirFor | redis4j-core/src/main/java/top/lihuu/redis4j/RedisConfigurationBuilder.java:198-209 | the configured directory unless it is null or equals new File(tmpdir, "/data"), which gives tmpdir/data/<port> |
| ConfigurationBuilder.PortDataDir | redis4j-core/src/main/java/top/lihuu/redis4j/RedisConfigurationBuilder.java:201-206 | the per-port directory has the components tmpdir, "data" and the port |
| ConfigurationBuilder.DefaultDataDirKept | redis4j-core/src/main/java/top/lihuu/redis4j/RedisConfigurationBuilder.java:198-209 | the builder's own default data directory is kept as it is |
| ConfigurationBuilder.RandomPath | redis4j-core/src/main/java/top/lihuu/redis4j/RedisConfigurationBuilder.java:77-79 | the fresh relative name begins with "Redis4j/" and ends in "/" |
| ConfigurationBuilder.RedisVersion | redis4j-core/src/main/java/top/lihuu/redis4j/RedisConfigurationBuilder.java:243-255 | the configured version, else "redis-8.0.2" |
| ConfigurationBuilder.PackageDirectory | redis4j-core/src/main/java/top/lihuu/redis4j/RedisConfigurationBuilder.java:257-261 | the package name with '.' replaced is "top/lihuu/redis4j" |
| ConfigurationBuilder.ClassPathLocation | redis4j-core/src/main/java/top/lihuu/redis4j/RedisConfigurationBuilder.java:257-261 | the package directory, then the version, then the OS directory |
| ConfigurationBuilder.BinariesLocation | redis4j-core/src/main/java/top/lihuu/redis4j/RedisConfigurationBuilder.java:281-286 | null exactly when not unpacking from the classpath |
| ConfigurationBuilder.LibraryEnvironmentVarName | redis4j-core/src/main/java/top/lihuu/redis4j/RedisConfigurationBuilder.java:273-279 | LINUX gives LD_LIBRARY_PATH, MAC gives DYLD_FALLBACK_LIBRARY_PATH, WINDOWS gives PATH |
| ConfigurationBuilder.ExecutableFileName | redis4j-core/src/main/java/top/lihuu/redis4j/RedisConfigurationBuilder.java:312-318 | a Windows name ends in ".exe", any other name contains no '.'; every name is non-empty and has no '/' (the stems themselves are stated by ExecutableFileNames) |
| ConfigurationBuilder.ExecutableFileNames | redis4j-core/src/main/java/top/lihuu/redis4j/RedisConfigurationBuilder.java:312-317 | the stems are redis-server, redis-benchmark and redis-cli; macOS uses the Linux name, and Windows the Linux name followed by ".exe" |
| ConfigurationBuilder.DefaultExecutables | redis4j-core/src/main/java/top/lihuu/redis4j/RedisConfigurationBuilder.java:312-318 | all three executables, each a file of the base directory |
| ConfigurationBuilder.PutIfAbsent | redis4j-core/src/main/java/top/lihuu/redis4j/RedisConfigurationBuilder.java:314-316 | adds the key only where it is absent and keeps every existing value |
| ConfigurationBuilder.PutEachIfAbsent | redis4j-core/src/main/java/top/lihuu/redis4j/RedisConfigurationBuilder.java:312-318 | the defaults, overridden by whatever was registered |
| ConfigurationBuilder.Builder.BuildExecutables | redis4j-core/src/main/java/top/lihuu/redis4j/RedisConfigurationBuilder.java:312-318 | registered executables are kept and the missing ones default to files of the base directory |
| ConfigurationBuilder.Assemble | redis4j-core/src/main/java/top/lihuu/redis4j/RedisConfigurationBuilder.java:169-186 | freezes the builder; the configuration carries the effective port, the builder's arguments, listener and RDB file, a socket, a data directory, and every executable, with registered ones kept; the delete flag is whatever fills the seventh slot |
| ConfigurationBuilder.BuildAsWritten | redis4j-core/src/main/java/top/lihuu/redis4j/RedisConfigurationBuilder.java:183 | the configuration as built never asks for deletion on shutdown |
| ConfigurationBuilder.BuildIntended | redis4j-core/src/main/java/top/lihuu/redis4j/RedisConfigurationBuilder.java:169-186 | the configuration reports the builder's delete flag |
| ConfigurationBuilder.BuildDropsDeleteFlag | redis4j-core/src/main/java/top/lihuu/redis4j/RedisConfigurationBuilder.java:183 | a fresh builder asks for deletion, the as-written build reports false, and the intended build reports true |
| ConfigurationBuilder.BuildsDifferOnlyInDeleteFlag | redis4j-core/src/main/java/top/lihuu/redis4j/RedisConfigurationBuilder.java:188-190 | the two builds agree except for the delete flag |
| ConfigurationBuilder.Builder.Build | redis4j-core/src/main/java/top/lihuu/redis4j/RedisConfigurationBuilder.java:169-186 | the code as written: the new builder state and the configuration are those of BuildAsWritten, so the delete flag is always false |
| Configuration.Impl | redis4j-core/src/main/java/top/lihuu/redis4j/RedisConfiguration.java:120-187 | every getter returns exactly its constructor argument |
| Configuration.GetExecutable | redis4j-core/src/main/java/top/lihuu/redis4j/RedisConfiguration.java:190-197 | the registered file when present, else an IllegalArgumentException carrying the executable's name |
| Configuration.GetExecutableErrorNames | redis4j-core/src/main/java/top/lihuu/redis4j/RedisConfiguration.java:193-196 | the error message identifies exactly one executable |
| Configuration.ExecutableNameInjective | redis4j-core/src/main/java/top/lihuu/redis4j/RedisConfiguration.java:101-105 | distinct executables have distinct enum names |
| Configuration.ForceCleanAfterShutdown | redis4j-core/src/main/java/top/lihuu/redis4j/RedisConfiguration.java:86-88 | the default is true |
| LogDispatcher.Dispatch | redis4j-core/src/main/java/top/lihuu/redis4j/MariaDBOutputStreamLogDispatcher.java:13-21 | always INFO or ERROR; standard output is INFO; any other stream is ERROR exactly when the line contains "ERROR" or "error" |
| LogDispatcher.DispatchIsCaseSensitive | redis4j-core/src/main/java/top/lihuu/redis4j/MariaDBOutputStreamLogDispatcher.java:17-20 | "Error" gives INFO, "an error" gives ERROR, and "ERROR" on standard output gives INFO |
| LogDispatcher.DispatchFindsMarker | redis4j-core/src/main/java/top/lihuu/redis4j/MariaDBOutputStreamLogDispatcher.java:17-19 | surrounding text does not hide an error marker |
| Strings.JavaSplitJoin | redis4j-core/src/main/java/top/lihuu/redis4j/Redis.java:167 | a non-empty command that does not end in the separator is the join of its split pieces |
| Strings.IntToDecimalInjective | redis4j-core/src/main/java/top/lihuu/redis4j/Redis.java:166 | distinct ports are rendered as distinct decimal strings |
| Exec.ManagedProcess.Destroy | redis4j-core/src/main/java/top/lihuu/redis4j/Redis.java:212-215 | the process is no longer alive and has been destroyed once more |

## Left out

- Process launching, console scanning, readiness waiting and `destroy()` belong to `ch.vorburger.exec`. The `Exec` module keeps only what the launchers observe. How `Pair` and `FileArg` arguments are rendered on the command line is not modelled.
- Redis server behaviour, such as the replies a command prints, is outside this code.
- Shutdown-hook registration (`cleanupOnExit` in both launchers), threads and `synchronized` are concurrency concerns and are not modelled.
- `Redis4jExtension` is not part of this model; it is JUnit lifecycle code.
- Free-port detection, the random UUID path, the classpath resolution in `extractFromClasspathToFile`, and the copy's own effect on disk are parameters or left abstract: they are I/O.
- The pause in `tryN` (`Thread.sleep`) and `forceExecutable` are time and file-mode I/O.
- `unpackEmbeddedDb` and its RuntimeException wrapping are not modelled: they only chain the extraction and `forceExecutable`.
- The `newEmbeddedRedis` factories and the plain getters are not modelled: they only delegate.
- `OSPlatform` and `Platform` are not part of this model. The OS and `SystemUtils.IS_OS_WINDOWS` are parameters.
- The unsupported-OS exception in `getRedisVersion` cannot be reached with three OS values, so it is not modelled as a path.
- Logging is not modelled.
- The tests are not modelled.
- `Character.isLetter` and `Character.toLowerCase` are modelled for ASCII letters only.
- ShutdownHook.DBShutdownHook.Run: the ManagedProcessException that `run` swallows is never thrown here, because `stop` throws nothing in the model.
- ShutdownHook.DBShutdownHook.Run: it does not promise that a base directory containing the deleted data directory is gone. The data deletion can change permissions inside it first.
- TreeDeletion.Walk: children are visited in an unspecified order, since `Files.walkFileTree` does not fix one. Symbolic link targets are not modelled: a link is an entry of its own, broken or not. The attribute change that `setReadOnly` makes through a live link lands on the link's target in Java, which may lie outside the subtree; the model's frame does not see it.
- TreeDeletion.WalkDirectory: as for Walk, the attribute change through a live link to a target outside the subtree is not modelled, so its frame covers only the tree's own entries.
- TreeDeletion.VisitFile: `setReadOnly` at DBShutdownHook.java:255 follows a live link and changes the target's attributes; the model changes the link's own entry.
- TreeDeletion.SetReadOnly: with no link options the attribute views resolve a live link to its target; the model has no targets and updates the link's own entry.
- TreeDeletion.DeleteFile: `setReadOnly(false)` at DBShutdownHook.java:151 changes a live link's target, not only the path; the model changes only the path's own entry.
- TreeDeletion.ForceDelete: a child that is a live link to a directory is reported as a directory by Java and goes through the walk, whose attribute changes reach the target; the model treats the link as a leaf.
- TreeDeletion.DeleteQuietly: `File.isDirectory` follows a link, so for a live link to a directory Java's `cleanDirectory` deletes the target's children, wherever the target is; the model deletes only the link.
- ShutdownHook.DeleteIfTemporary: a temporary directory that is a live link to a directory has its target emptied by `deleteQuietly` in Java; the model deletes only the link, so its frame does not cover the target.
- ShutdownHook.DBShutdownHook.Run: the same link-following deletion through `deleteQuietly` is not modelled; the claim that only temporary subtrees change holds for the modelled tree, where links are entries of their own.
- FileTree.FileSystem.RemoveTree: `FileUtils.deleteDirectory` is one step. A subtree that cannot be deleted completely is left unchanged, whereas the library may leave part of it deleted.
- FileTree.FileSystem.ForceMkdir: whether a single `mkdir` succeeds is left open, because permissions and free space are not modelled; only the non-directory prefix is a failure the model always predicts. A prefix that is a live link to a directory blocks it in the model, whereas `File.mkdirs` passes through the link.
- FileTree.FileSystem.IsDirectory: a live link to a directory is not a directory in the model; Java's `isDirectory`, `exists` and `listFiles` follow it.
- Util.GetDirectory: a directory that is a live link to a directory, or a path through one (such as `/tmp` on macOS), is refused as "is not a directory" or fails to be created in the model, whereas Java follows the link and accepts it.
- Util.ExtractFromClasspathToFile: the resolved resources and the outcome of each copy attempt are inputs. The copy does not change the modelled filesystem.
- ConfigurationBuilder.Builder.Build: the default executables are resolved against the base directory once, at build time. In Java they are suppliers that read the builder's current `baseDir` at each `getExecutable`, so after a repeated `build()`, which is public and does not check `frozen`, an earlier configuration's defaults follow the new base directory; that aliasing is not modelled.
- ConfigurationBuilder.DefaultExecutables: gives files, not the suppliers of RedisConfigurationBuilder.java:314-316, so it does not follow a later change of the builder's `baseDir`.
- ConfigurationBuilder.Builder.BuildExecutables: stores the resolved files in the builder's map, where Java stores the suppliers, so the map does not follow a later `baseDir`.
- ConfigurationBuilder.Assemble: the configuration's executables are the files of the base directory at build time, not suppliers shared with the builder.
- ConfigurationBuilder.DataDirFor: only the Unix path rules of `java.io.File` are modelled (`/` as the separator, a path absolute exactly when it starts with `/`, exact comparison); on Windows `File.equals` ignores case and `C:\Temp` is absolute.
- Util.IsTemporaryDirectory: the absolute path is built with the Unix rules only, so a Windows drive path is resolved against user.dir as if it were relative. The names `.` and `..` are kept as ordinary names when a path is located, so "/tmp/../home/u" passes the raw prefix test and is located inside /tmp, whereas the operating system resolves it to /home/u.
- ShutdownHook.DeleteIfTemporary: a temporary path containing `..` can, through the operating system's resolution, name a directory outside java.io.tmpdir, which `deleteQuietly` then deletes; the model keeps `..` as a name, so its frame places the deletion inside the tmpdir subtree.
- ShutdownHook.DBShutdownHook.Run: the same `..` gap; a data or base directory such as "/tmp/../home/u" is deleted at /home/u in Java, while the model's frame says only the tmpdir subtree changes.
- RedisServer.PrepareDataDirectory: the same `..` gap; `FileUtils.deleteDirectory` on a temporary data path containing `..` acts on the resolved directory, which the model does not compute.
- Util.TryNPromises: states the outcome with Java assertions disabled; with them enabled, n <= 0 throws an AssertionError at Util.java:166 before the NullPointerException.

## Findings

| source | as written | input that shows it | evidently intended | confidence | as-written member | corrected member |
|---|---|---|---|---|---|---|
| redis4j-core/src/main/java/top/lihuu/redis4j/RedisConfigurationBuilder.java:183 | `build()` passes `isSecurityDisabled()`, which always returns false, into the `isDeletingTemporaryBaseAndDataDirsOnShutdown` slot of `Impl` (RedisConfiguration.java:127) | a fresh builder, whose delete flag defaults to true, then `build()` | the builder's `isDeletingTemporaryBaseAndDataDirsOnShutdown` reaches the configuration, so the shutdown hook deletes temporary directories | not executed | ConfigurationBuilder.BuildAsWritten | ConfigurationBuilder.BuildIntended |
