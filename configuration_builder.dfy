// RedisConfigurationBuilder: mutable settings that freeze at build(), the
// defaults derived from them, and their wiring into RedisConfiguration.Impl.

module ConfigurationBuilder {
  import opened Common
  import opened Strings
  import opened JavaIo
  import opened Configuration

  const DefaultDataDir := "/data"
  const DefaultRedisVersion := "redis-8.0.2"
  /** The Java package the builder class belongs to. */
  const PackageName := "top.lihuu.redis4j"

  /** Every field of a builder; Java null is None. */
  datatype BuilderState = BuilderState(
    databaseVersion: Option<string>,
    osDirectoryName: string,
    baseDir: Option<File>,
    dataDir: Option<File>,
    initRdbFile: Option<File>,
    socket: Option<string>,
    port: int,
    isDeletingTemporaryBaseAndDataDirsOnShutdown: bool,
    isUnpackingFromClasspath: bool,
    args: seq<string>,
    frozen: bool,
    listener: Option<Listener>,
    defaultCharacterSet: Option<string>,
    executables: map<Executable, File>)

  /** The field initialisers of a new builder. */
  function InitialState(tmpdir: string, osDirectoryName: string): (st: BuilderState)
    ensures !st.frozen && st.port == 0 && st.isDeletingTemporaryBaseAndDataDirsOnShutdown
    ensures st.isUnpackingFromClasspath && st.args == [] && st.executables == map[]
    ensures st.baseDir.Some? && Components(st.baseDir.value.path) == Components(tmpdir) + ["Redis4j", "base"]
    ensures st.dataDir.Some? && Components(st.dataDir.value.path) == Components(tmpdir) + ["Redis4j", "data"]
  {
    ComponentsOfNames(tmpdir, "Redis4j", "base");
    ComponentsOfNames(tmpdir, "Redis4j", "data");
    assert tmpdir + "/Redis4j" + DefaultDataDir == tmpdir + "/" + "Redis4j" + "/" + "data";
    assert tmpdir + "/Redis4j/base" == tmpdir + "/" + "Redis4j" + "/" + "base";
    BuilderState(None, osDirectoryName, Some(NewFile(tmpdir + "/Redis4j/base")),
                 Some(NewFile(tmpdir + "/Redis4j" + DefaultDataDir)), None, None, 0, true, true,
                 [], false, None, None, map[])
  }

  /** A plain name forms one component. */
  lemma ComponentsOfName(x: string)
    requires x != "" && '/' !in x
    ensures Components(x) == [x]
  {
    SplitOnWithout(x, '/');
  }

  lemma ComponentsOfEmpty()
    ensures Components("") == []
  {
    assert SplitOn("", '/') == [""];
  }

  /** `a + "/" + x + "/" + y` names the components of `a`, then `x`, then `y`. */
  lemma ComponentsOfNames(a: string, x: string, y: string)
    requires x != "" && '/' !in x && y != "" && '/' !in y
    ensures Components(a + "/" + x + "/" + y) == Components(a) + [x, y]
  {
    ComponentsConcat(a + "/" + x, y);
    ComponentsConcat(a, x);
    ComponentsOfName(x);
    ComponentsOfName(y);
  }

  /** checkIfFrozen: IllegalStateException naming the setter once frozen. */
  function CheckIfFrozen(frozen: bool, setterName: string): (r: Outcome<Exception>)
    ensures r.Pass? <==> !frozen
    ensures r.Fail? ==>
              r.error.IllegalState? &&
              StartsWith(r.error.message, "cannot " + setterName) &&
              EndsWith(r.error.message, "() anymore after build()")
  {
    var message := "cannot " + setterName + "() anymore after build()";
    assert message[..|"cannot " + setterName|] == "cannot " + setterName;
    if frozen then Fail(IllegalState(message)) else Pass
  }

  /** No character in a decimal rendering is a '/'. */
  lemma DecimalHasNoSlash(n: int)
    ensures IntToDecimal(n) != "" && '/' !in IntToDecimal(n)
  {
    var d := NatToDecimal(if n < 0 then -n else n);
    assert forall i :: 0 <= i < |d| ==> d[i] != '/';
    if n < 0 {
      assert IntToDecimal(n) == "-" + d;
      assert forall i :: 0 <= i < |"-" + d| ==> ("-" + d)[i] != '/' by {
        forall i | 0 <= i < |"-" + d|
          ensures ("-" + d)[i] != '/'
        {
          if i > 0 {
            assert ("-" + d)[i] == d[i - 1];
          }
        }
      }
    }
  }

  /** path(): the relative name of a fresh base directory. */
  function RandomPath(uuid: string, port: int): (r: string)
    ensures StartsWith(r, "Redis4j/") && EndsWith(r, "/")
  {
    var r := "Redis4j/" + uuid + "-" + IntToDecimal(port) + "/";
    assert r[..8] == "Redis4j/";
    r
  }

  /**
   * _getPort via detectFreePort: a non-zero configured port is kept; 0
   * asks the operating system for a free one, here `freePort`.
   */
  function EffectivePort(port: int, freePort: int): (p: int)
    ensures port != 0 ==> p == port
    ensures port == 0 ==> p == freePort
  {
    if port == 0 then freePort else port
  }

  /** The suffix that follows the decimal port in a default socket path. */
  const SocketSuffix := ".sock"

  /**
   * _getSocket: the explicit socket, else a file in the temporary root
   * named after the port.
   */
  function SocketPath(tmpdir: string, socket: Option<string>, port: int): (r: string)
    ensures socket.Some? ==> r == socket.value
    ensures socket.None? ==> r == tmpdir + "/redis4j." + IntToDecimal(port) + SocketSuffix
  {
    if socket.Some? then socket.value else tmpdir + "/redis4j." + IntToDecimal(port) + SocketSuffix
  }

  /** Distinct ports get distinct default sockets. */
  lemma DefaultSocketsDiffer(tmpdir: string, p1: int, p2: int)
    requires p1 != p2
    ensures SocketPath(tmpdir, None, p1) != SocketPath(tmpdir, None, p2)
  {
    var prefix := tmpdir + "/redis4j.";
    var d1, d2 := IntToDecimal(p1), IntToDecimal(p2);
    var s1, s2 := prefix + d1 + SocketSuffix, prefix + d2 + SocketSuffix;
    if s1 == s2 {
      assert s1[|prefix|..|s1| - 5] == d1;
      assert s2[|prefix|..|s2| - 5] == d2;
      IntToDecimalInjective(p1, p2);
    }
  }

  /** The data directory a configuration gets when none of its own is set. */
  function PortDataDir(tmpdir: string, port: int): (f: File)
    ensures Components(f.path) == Components(tmpdir) + ["data", IntToDecimal(port)]
  {
    var s := tmpdir + "/" + DefaultDataDir + "/" + IntToDecimal(port);
    PortDataDirComponents(tmpdir, IntToDecimal(port));
    DecimalHasNoSlash(port);
    ComponentsOfName(IntToDecimal(port));
    NewFile(s)
  }

  lemma PortDataDirComponents(tmpdir: string, d: string)
    ensures Components(tmpdir + "/" + DefaultDataDir + "/" + d) == Components(tmpdir) + ["data"] + Components(d)
  {
    var rest := "data" + "/" + d;
    assert tmpdir + "/" + DefaultDataDir + "/" + d == tmpdir + "/" + ("" + "/" + rest);
    ComponentsConcat(tmpdir, "" + "/" + rest);
    ComponentsConcat("", rest);
    ComponentsConcat("data", d);
    ComponentsOfEmpty();
    ComponentsOfName("data");
  }

  /**
   * _getDataDir: the configured directory, unless it is null or equal to
   * new File(tmpdir, "/data"); then the per-port directory.
   */
  function DataDirFor(tmpdir: string, dataDir: Option<File>, port: int): (f: File)
    ensures dataDir.None? || dataDir.value == NewChildFile(tmpdir, DefaultDataDir) ==>
      Components(f.path) == Components(tmpdir) + ["data", IntToDecimal(port)]
    ensures dataDir.Some? && dataDir.value != NewChildFile(tmpdir, DefaultDataDir) ==> f == dataDir.value
  {
    if dataDir.None? || dataDir.value == NewChildFile(tmpdir, DefaultDataDir) then PortDataDir(tmpdir, port)
    else dataDir.value
  }

  /**
   * The builder's own default data directory, tmpdir/Redis4j/data, is not
   * tmpdir/data, so build() keeps it rather than deriving a per-port one.
   */
  lemma DefaultDataDirKept(tmpdir: string, port: int)
    ensures DataDirFor(tmpdir, InitialState(tmpdir, "").dataDir, port) == InitialState(tmpdir, "").dataDir.value
  {
    var own := InitialState(tmpdir, "").dataDir.value;
    var other := NewChildFile(tmpdir, DefaultDataDir);
    assert Components(DefaultDataDir) == ["data"] by {
      assert DefaultDataDir == "" + "/" + "data";
      ComponentsConcat("", "data");
      ComponentsOfEmpty();
      ComponentsOfName("data");
    }
    assert |Components(own.path)| != |Components(other.path)|;
  }

  /** getRedisVersion: the configured version, else the bundled one. */
  function RedisVersion(databaseVersion: Option<string>): (v: string)
    ensures databaseVersion.Some? ==> v == databaseVersion.value
    ensures databaseVersion.None? ==> v == DefaultRedisVersion
  {
    if databaseVersion.None? then DefaultRedisVersion else databaseVersion.value
  }

  /** The package name as a classpath directory. */
  lemma PackageDirectory()
    ensures ReplaceChar(PackageName, '.', '/') == "top/lihuu/redis4j"
  {

  }

  /** getBinariesClassPathLocation: package directory, then version, then OS directory. */
  function ClassPathLocation(databaseVersion: Option<string>, osDirectoryName: string): (r: string)
    ensures r == "top/lihuu/redis4j/" + RedisVersion(databaseVersion) + "/" + osDirectoryName
  {
    PackageDirectory();
    ReplaceChar(PackageName, '.', '/') + "/" + RedisVersion(databaseVersion) + "/" + osDirectoryName
  }

  /** _getBinariesClassPathLocation: null unless unpacking from the classpath. */
  function BinariesLocation(st: BuilderState): (r: Option<string>)
    ensures r.Some? <==> st.isUnpackingFromClasspath
    ensures r.Some? ==> r.value == "top/lihuu/redis4j/" + RedisVersion(st.databaseVersion) + "/" + st.osDirectoryName
  {
    if st.isUnpackingFromClasspath then Some(ClassPathLocation(st.databaseVersion, st.osDirectoryName)) else None
  }

  /** _getOSLibraryEnvironmentVarName. */
  function LibraryEnvironmentVarName(os: OS): (name: string)
    ensures os == Linux ==> name == "LD_LIBRARY_PATH"
    ensures os == Mac ==> name == "DYLD_FALLBACK_LIBRARY_PATH"
    ensures os == Windows ==> name == "PATH"
  {
    match os
    case Linux => "LD_LIBRARY_PATH"
    case Mac => "DYLD_FALLBACK_LIBRARY_PATH"
    case Windows => "PATH"
  }

  /** The file name of an executable; ".exe" is appended on Windows only. */
  function ExecutableFileName(e: Executable, os: OS): (name: string)
    ensures os == Windows ==> EndsWith(name, ".exe")
    ensures os != Windows ==> '.' !in name
    ensures name != "" && '/' !in name
  {
    var stem := match e
      case Server => "redis-server"
      case Benchmark => "redis-benchmark"
      case Client => "redis-cli";
    var name := stem + (if os == Windows then ".exe" else "");
    assert name[|name| - |".exe"|..] == if os == Windows then ".exe" else name[|name| - 4..];
    name
  }

  /**
   * The names buildExecutables uses: redis-server, redis-benchmark and
   * redis-cli on Linux and macOS alike, and the same names with ".exe" on
   * Windows.
   */
  lemma ExecutableFileNames(e: Executable)
    ensures ExecutableFileName(Server, Linux) == "redis-server"
    ensures ExecutableFileName(Benchmark, Linux) == "redis-benchmark"
    ensures ExecutableFileName(Client, Linux) == "redis-cli"
    ensures ExecutableFileName(e, Mac) == ExecutableFileName(e, Linux)
    ensures ExecutableFileName(e, Windows) == ExecutableFileName(e, Linux) + ".exe"
  {
  }

  /** The three executables, each a file of `baseDir`. */
  function DefaultExecutables(baseDir: Option<File>, os: OS): (m: map<Executable, File>)
    ensures forall e: Executable :: e in m
    ensures forall e :: e in m ==> m[e] == ExecutableFile(baseDir, e, os)
  {
    var m := map e | e in {Server, Benchmark, Client} :: ExecutableFile(baseDir, e, os);
    EveryExecutable(m);
    m
  }

  /** new File(baseDir, name) for one executable. */
  function ExecutableFile(baseDir: Option<File>, e: Executable, os: OS): (f: File)
    ensures baseDir.Some? ==> Components(f.path) == Components(baseDir.value.path) + [ExecutableFileName(e, os)]
  {
    var name := ExecutableFileName(e, os);
    ComponentsOfName(name);
    NewFileIn(baseDir, name)
  }

  /** Map.putIfAbsent. */
  function PutIfAbsent(m: map<Executable, File>, k: Executable, v: File): (r: map<Executable, File>)
    ensures k in r && r.Keys == m.Keys + {k}
    ensures forall e :: e in m ==> r[e] == m[e]
    ensures k !in m ==> r[k] == v
  {
    if k in m then m else m[k := v]
  }

  /**
   * putIfAbsent of the Server, Benchmark and Client defaults in turn: the
   * defaults, overridden by whatever was already registered.
   */
  function PutEachIfAbsent(m: map<Executable, File>, defaults: map<Executable, File>): (r: map<Executable, File>)
    requires Server in defaults && Benchmark in defaults && Client in defaults
    ensures r == defaults + m
  {
    var r := PutIfAbsent(PutIfAbsent(PutIfAbsent(m, Server, defaults[Server]), Benchmark, defaults[Benchmark]),
                         Client, defaults[Client]);
    EveryExecutable(r);
    EveryExecutable(defaults);
    r
  }

  /**
   * build(), with `deleteSlot` the value passed as the seventh Impl
   * argument: the new builder state and the configuration it returns.
   * A missing data directory gives the base directory a fresh random name;
   * the port is detected once and stored; executables already registered
   * are kept.
   */
  function Assemble(st: BuilderState, tmpdir: string, os: OS, freePort: int, uuid: string,
                    deleteSlot: bool): (res: (BuilderState, Config))
    ensures res.0.frozen
    ensures res.0.port == res.1.port == EffectivePort(st.port, freePort)
    ensures res.1.isDeletingTemporaryBaseAndDataDirsOnShutdown == deleteSlot
    ensures st.dataDir.Some? ==> res.1.baseDir == res.0.baseDir == st.baseDir
    ensures res.1.args == st.args && res.1.listener == st.listener && res.1.initRdbFile == st.initRdbFile
    ensures res.1.socket.Some? && (st.socket.Some? ==> res.1.socket == st.socket)
    ensures res.1.dataDir.Some?
    ensures res.1.executables == res.0.executables
    ensures forall e: Executable :: e in res.1.executables
    ensures forall e :: e in st.executables ==> res.1.executables[e] == st.executables[e]
    ensures forall e :: e !in st.executables ==>
      res.1.executables[e] == NewFileIn(res.1.baseDir, ExecutableFileName(e, os))
    ensures res.0.(baseDir := st.baseDir, port := st.port, frozen := st.frozen, executables := st.executables) == st
  {
    var baseDir := if st.dataDir.None? then Some(NewFile(tmpdir + "/" + RandomPath(uuid, st.port) + "/base"))
                   else st.baseDir;
    var port := EffectivePort(st.port, freePort);
    var executables := DefaultExecutables(baseDir, os) + st.executables;
    var st' := st.(baseDir := baseDir, frozen := true, port := port, executables := executables);
    (st', Impl(port, Some(SocketPath(tmpdir, st.socket, port)), BinariesLocation(st), baseDir,
               Some(DataDirFor(tmpdir, st.dataDir, port)), st.args, deleteSlot, executables,
               st.listener, st.initRdbFile))
  }

  /** isSecurityDisabled(): always false. */
  const SecurityDisabled := false

  /** build() as written: isSecurityDisabled() fills the delete-on-shutdown slot. */
  function BuildAsWritten(st: BuilderState, tmpdir: string, os: OS, freePort: int, uuid: string): (res: (BuilderState, Config))
    ensures !res.1.isDeletingTemporaryBaseAndDataDirsOnShutdown
  {
    Assemble(st, tmpdir, os, freePort, uuid, SecurityDisabled)
  }

  /** build() as intended: the builder's delete flag reaches the configuration. */
  function BuildIntended(st: BuilderState, tmpdir: string, os: OS, freePort: int, uuid: string): (res: (BuilderState, Config))
    ensures res.1.isDeletingTemporaryBaseAndDataDirsOnShutdown == st.isDeletingTemporaryBaseAndDataDirsOnShutdown
  {
    Assemble(st, tmpdir, os, freePort, uuid, st.isDeletingTemporaryBaseAndDataDirsOnShutdown)
  }

  /**
   * A fresh builder asks for deletion on shutdown, yet the configuration
   * build() returns as written reports that it must not delete; the
   * intended build passes the request on.
   */
  lemma BuildDropsDeleteFlag(tmpdir: string, osDirectoryName: string, os: OS, freePort: int, uuid: string)
    ensures InitialState(tmpdir, osDirectoryName).isDeletingTemporaryBaseAndDataDirsOnShutdown
    ensures !BuildAsWritten(InitialState(tmpdir, osDirectoryName), tmpdir, os, freePort, uuid).1.isDeletingTemporaryBaseAndDataDirsOnShutdown
    ensures BuildIntended(InitialState(tmpdir, osDirectoryName), tmpdir, os, freePort, uuid).1.isDeletingTemporaryBaseAndDataDirsOnShutdown
  {
  }

  /** The two builds differ in that flag alone. */
  lemma BuildsDifferOnlyInDeleteFlag(st: BuilderState, tmpdir: string, os: OS, freePort: int, uuid: string)
    ensures BuildAsWritten(st, tmpdir, os, freePort, uuid).0 == BuildIntended(st, tmpdir, os, freePort, uuid).0
    ensures BuildAsWritten(st, tmpdir, os, freePort, uuid).1 ==
      BuildIntended(st, tmpdir, os, freePort, uuid).1.(isDeletingTemporaryBaseAndDataDirsOnShutdown := false)
  {
  }

  /**
   * RedisConfigurationBuilder. `tmpdir` is java.io.tmpdir and `os` the
   * platform, both fixed for the life of the JVM.
   */
  class Builder {
    var databaseVersion: Option<string>
    var osDirectoryName: string
    var baseDir: Option<File>
    var dataDir: Option<File>
    var initRdbFile: Option<File>
    var socket: Option<string>
    var port: int
    var isDeletingTemporaryBaseAndDataDirsOnShutdown: bool
    var isUnpackingFromClasspath: bool
    var args: seq<string>
    var frozen: bool
    var listener: Option<Listener>
    var defaultCharacterSet: Option<string>
    var executables: map<Executable, File>
    const tmpdir: string
    const os: OS

    function State(): BuilderState
      reads this
    {
      BuilderState(databaseVersion, osDirectoryName, baseDir, dataDir, initRdbFile, socket, port,
                   isDeletingTemporaryBaseAndDataDirsOnShutdown, isUnpackingFromClasspath, args,
                   frozen, listener, defaultCharacterSet, executables)
    }

    /** newBuilder(); `osDirectoryName` is OSPlatform.getDirectoryName(). */
    constructor(tmpdir: string, os: OS, osDirectoryName: string)
      ensures State() == InitialState(tmpdir, osDirectoryName)
      ensures this.tmpdir == tmpdir && this.os == os
    {
      var st := InitialState(tmpdir, osDirectoryName);
      this.tmpdir := tmpdir;
      this.os := os;
      databaseVersion := st.databaseVersion;
      this.osDirectoryName := st.osDirectoryName;
      baseDir := st.baseDir;
      dataDir := st.dataDir;
      initRdbFile := st.initRdbFile;
      socket := st.socket;
      port := st.port;
      isDeletingTemporaryBaseAndDataDirsOnShutdown := st.isDeletingTemporaryBaseAndDataDirsOnShutdown;
      isUnpackingFromClasspath := st.isUnpackingFromClasspath;
      args := st.args;
      frozen := st.frozen;
      listener := st.listener;
      defaultCharacterSet := st.defaultCharacterSet;
      executables := st.executables;
    }

    method SetBaseDir(baseDir: Option<File>) returns (r: Outcome<Exception>)
      modifies this
      ensures r == CheckIfFrozen(old(frozen), "setBaseDir")
      ensures State() == if r.Pass? then old(State()).(baseDir := baseDir) else old(State())
    {
      r := CheckIfFrozen(frozen, "setBaseDir");
      if r.Pass? {
        this.baseDir := baseDir;
      }
    }

    method SetDataDir(dataDir: Option<File>) returns (r: Outcome<Exception>)
      modifies this
      ensures r == CheckIfFrozen(old(frozen), "setDataDir")
      ensures State() == if r.Pass? then old(State()).(dataDir := dataDir) else old(State())
    {
      r := CheckIfFrozen(frozen, "setDataDir");
      if r.Pass? {
        this.dataDir := dataDir;
      }
    }

    /** setPort; 0 asks for a free port at build time. */
    method SetPort(port: int) returns (r: Outcome<Exception>)
      modifies this
      ensures r == CheckIfFrozen(old(frozen), "setPort")
      ensures State() == if r.Pass? then old(State()).(port := port) else old(State())
    {
      r := CheckIfFrozen(frozen, "setPort");
      if r.Pass? {
        this.port := port;
      }
    }

    /** setProcessListener is not guarded: it works after build() too. */
    method SetProcessListener(listener: Option<Listener>)
      modifies this
      ensures State() == old(State()).(listener := listener)
    {
      this.listener := listener;
    }

    /** setDeletingTemporaryBaseAndDataDirsOnShutdown reports itself as "keepsDataAndBaseDir". */
    method SetDeletingTemporaryBaseAndDataDirsOnShutdown(doDelete: bool) returns (r: Outcome<Exception>)
      modifies this
      ensures r == CheckIfFrozen(old(frozen), "keepsDataAndBaseDir")
      ensures State() == if r.Pass? then old(State()).(isDeletingTemporaryBaseAndDataDirsOnShutdown := doDelete)
                         else old(State())
    {
      r := CheckIfFrozen(frozen, "keepsDataAndBaseDir");
      if r.Pass? {
        isDeletingTemporaryBaseAndDataDirsOnShutdown := doDelete;
      }
    }

    method SetSocket(socket: Option<string>) returns (r: Outcome<Exception>)
      modifies this
      ensures r == CheckIfFrozen(old(frozen), "setSocket")
      ensures State() == if r.Pass? then old(State()).(socket := socket) else old(State())
    {
      r := CheckIfFrozen(frozen, "setSocket");
      if r.Pass? {
        this.socket := socket;
      }
    }

    method SetDatabaseVersion(databaseVersion: Option<string>) returns (r: Outcome<Exception>)
      modifies this
      ensures r == CheckIfFrozen(old(frozen), "setDatabaseVersion")
      ensures State() == if r.Pass? then old(State()).(databaseVersion := databaseVersion) else old(State())
    {
      r := CheckIfFrozen(frozen, "setDatabaseVersion");
      if r.Pass? {
        this.databaseVersion := databaseVersion;
      }
    }

    method SetOS(osDirectoryName: string) returns (r: Outcome<Exception>)
      modifies this
      ensures r == CheckIfFrozen(old(frozen), "setOS")
      ensures State() == if r.Pass? then old(State()).(osDirectoryName := osDirectoryName) else old(State())
    {
      r := CheckIfFrozen(frozen, "setOS");
      if r.Pass? {
        this.osDirectoryName := osDirectoryName;
      }
    }

    method SetUnpackingFromClasspath(isUnpackingFromClasspath: bool) returns (r: Outcome<Exception>)
      modifies this
      ensures r == CheckIfFrozen(old(frozen), "setUnpackingFromClasspath")
      ensures State() == if r.Pass? then old(State()).(isUnpackingFromClasspath := isUnpackingFromClasspath)
                         else old(State())
    {
      r := CheckIfFrozen(frozen, "setUnpackingFromClasspath");
      if r.Pass? {
        this.isUnpackingFromClasspath := isUnpackingFromClasspath;
      }
    }

    /** addArg appends to the argument list. */
    method AddArg(arg: string) returns (r: Outcome<Exception>)
      modifies this
      ensures r == CheckIfFrozen(old(frozen), "addArg")
      ensures State() == if r.Pass? then old(State()).(args := old(args) + [arg]) else old(State())
    {
      r := CheckIfFrozen(frozen, "addArg");
      if r.Pass? {
        args := args + [arg];
      }
    }

    method SetDefaultCharacterSet(defaultCharacterSet: Option<string>) returns (r: Outcome<Exception>)
      modifies this
      ensures r == CheckIfFrozen(old(frozen), "setDefaultCharacterSet")
      ensures State() == if r.Pass? then old(State()).(defaultCharacterSet := defaultCharacterSet) else old(State())
    {
      r := CheckIfFrozen(frozen, "setDefaultCharacterSet");
      if r.Pass? {
        this.defaultCharacterSet := defaultCharacterSet;
      }
    }

    method SetInitRdbFile(initRdbFile: Option<File>) returns (r: Outcome<Exception>)
      modifies this
      ensures r == CheckIfFrozen(old(frozen), "setInitRdbFile")
      ensures State() == if r.Pass? then old(State()).(initRdbFile := initRdbFile) else old(State())
    {
      r := CheckIfFrozen(frozen, "setInitRdbFile");
      if r.Pass? {
        this.initRdbFile := initRdbFile;
      }
    }

    /** _getPort; detectFreePort stores the port it found, here `freePort`. */
    method GetPort(freePort: int) returns (p: int)
      modifies this
      ensures p == EffectivePort(old(port), freePort)
      ensures State() == old(State()).(port := p)
    {
      p := port;
      if p == 0 {
        port := freePort;
        p := port;
      }
    }

    /** buildExecutables: putIfAbsent of the three default executables. */
    method BuildExecutables()
      modifies this
      ensures executables == DefaultExecutables(baseDir, os) + old(executables)
      ensures State() == old(State()).(executables := executables)
    {
      executables := PutEachIfAbsent(executables, DefaultExecutables(baseDir, os));
    }

    /**
     * build() as the code stands: isSecurityDisabled() fills the
     * delete-on-shutdown slot (BuildIntended is the corrected version).
     * `freePort` is the port the operating system would hand out and
     * `uuid` the random name part.
     */
    method Build(freePort: int, uuid: string) returns (c: Config)
      modifies this
      ensures (State(), c) == BuildAsWritten(old(State()), tmpdir, os, freePort, uuid)
    {
      if dataDir.None? {
        var p := tmpdir + "/" + RandomPath(uuid, port);
        baseDir := Some(NewFile(p + "/base"));
      }
      frozen := true;
      var port := GetPort(freePort);
      var socket := SocketPath(tmpdir, this.socket, this.port);
      var location := BinariesLocation(State());
      var base := baseDir;
      var data := dataDir;
      if data.None? || data.value == NewChildFile(tmpdir, DefaultDataDir) {
        var p := GetPort(freePort);
        data := Some(PortDataDir(tmpdir, p));
      }
      BuildExecutables();
      c := Impl(port, Some(socket), location, base, data, args,
                SecurityDisabled, executables, listener, initRdbFile);
    }
  }
}
