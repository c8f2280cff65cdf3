// RedisConfiguration and its Impl: the immutable settings a Redis
// instance is started with, and the executable lookup.

module Configuration {
  import opened Common
  import opened JavaIo

  /** OSPlatform.OS: the three platforms the library tells apart. */
  datatype OS = Linux | Mac | Windows

  /** RedisConfiguration.Executable. */
  datatype Executable = Server | Benchmark | Client

  /** Enum.name() of an Executable. */
  function ExecutableName(e: Executable): (name: string)
    ensures name != ""
  {
    match e
    case Server => "Server"
    case Benchmark => "Benchmark"
    case Client => "Client"
  }

  lemma ExecutableNameInjective(e1: Executable, e2: Executable)
    requires ExecutableName(e1) == ExecutableName(e2)
    ensures e1 == e2
  {
    assert ExecutableName(e1)[0] == ExecutableName(e2)[0];
  }

  /** A map with the three executables as keys has every executable as a key. */
  lemma EveryExecutable<V>(m: map<Executable, V>)
    requires Server in m && Benchmark in m && Client in m
    ensures forall e: Executable :: e in m
  {
    forall e: Executable
      ensures e in m
    {
      if e.Server? {
      } else if e.Benchmark? {
      }
    }
  }

  /** A ManagedProcessListener, known only by identity. */
  datatype Listener = Listener(id: nat)

  /**
   * RedisConfiguration.Impl. Each field is what the getter of the same
   * name returns; Java null is None. The executable suppliers are
   * represented by the files they produce.
   */
  datatype Config = Config(
    port: int,
    socket: Option<string>,
    binariesClassPathLocation: Option<string>,
    baseDir: Option<File>,
    dataDir: Option<File>,
    args: seq<string>,
    isDeletingTemporaryBaseAndDataDirsOnShutdown: bool,
    executables: map<Executable, File>,
    listener: Option<Listener>,
    initRdbFile: Option<File>)

  /**
   * The Impl constructor, with its parameters in the Java order: the
   * delete-on-shutdown flag is the seventh, after the argument list.
   */
  function Impl(port: int, socket: Option<string>, binariesClassPathLocation: Option<string>,
                baseDir: Option<File>, dataDir: Option<File>, args: seq<string>,
                isDeletingTemporaryBaseAndDataDirsOnShutdown: bool,
                executables: map<Executable, File>, listener: Option<Listener>,
                initRdbFile: Option<File>): (c: Config)
    ensures c.port == port && c.socket == socket
    ensures c.binariesClassPathLocation == binariesClassPathLocation
    ensures c.baseDir == baseDir && c.dataDir == dataDir && c.args == args
    ensures c.isDeletingTemporaryBaseAndDataDirsOnShutdown == isDeletingTemporaryBaseAndDataDirsOnShutdown
    ensures c.executables == executables && c.listener == listener && c.initRdbFile == initRdbFile
  {
    Config(port, socket, binariesClassPathLocation, baseDir, dataDir, args,
           isDeletingTemporaryBaseAndDataDirsOnShutdown, executables, listener, initRdbFile)
  }

  /**
   * getExecutable: the registered file, or IllegalArgumentException
   * carrying the executable's name when none is registered.
   */
  function GetExecutable(c: Config, e: Executable): (r: Result<File, Exception>)
    ensures r.Ok? <==> e in c.executables
    ensures r.Ok? ==> r.value == c.executables[e]
    ensures r.Err? ==> r.error.IllegalArgument? && r.error.message == ExecutableName(e)
  {
    if e in c.executables then Ok(c.executables[e]) else Err(IllegalArgument(ExecutableName(e)))
  }

  /** The error message names exactly one executable. */
  lemma GetExecutableErrorNames(c: Config, e1: Executable, e2: Executable)
    requires GetExecutable(c, e1).Err? && GetExecutable(c, e2).Err?
    requires GetExecutable(c, e1).error == GetExecutable(c, e2).error
    ensures e1 == e2
  {
    ExecutableNameInjective(e1, e2);
  }

  /** The interface default of forceCleanAfterShutdown. */
  function ForceCleanAfterShutdown(c: Config): (r: bool)
    ensures r
  {
    true
  }
}
