// Redis: the launcher of one embedded redis-server. It prepares the base,
// temporary and data directories, builds the server's argument list from
// the configuration, starts the process and waits for its readiness line,
// stops it, and runs redis-cli commands against it.

module RedisServer {
  import opened Common
  import opened Strings
  import opened JavaIo
  import opened FileTree
  import opened Exec
  import opened Configuration
  import opened Util

  /** The console line redis-server prints once it accepts connections. */
  const ReadyForConnectionsTag := "Ready to accept connections tcp"

  /** The default of dbStartMaxWaitInMS. */
  const DefaultStartMaxWaitMs := 30000

  const StartErrorMessage := "An error occurred while starting redis-server"
  const PrepareErrorMessage := "An error occurred while preparing the data directory"

  /** Some configured argument begins with `name`, compared as a raw string prefix. */
  function HasArgument(args: seq<string>, name: string): (r: bool)
    ensures r <==> exists i :: 0 <= i < |args| && StartsWith(args[i], name)
  {
    if |args| == 0 then false
    else if StartsWith(args[0], name) then true
    else
      var rest := HasArgument(args[1..], name);
      assert forall i :: 1 <= i < |args| ==> args[i] == args[1..][i - 1];
      rest
  }

  /** The configured arguments, each added as it is. */
  function Plains(args: seq<string>): (r: seq<Arg>)
    ensures |r| == |args|
    ensures forall i :: 0 <= i < |args| ==> r[i] == Plain(args[i])
  {
    seq(|args|, i requires 0 <= i < |args| => Plain(args[i]))
  }

  /** The texts of arguments added with addArgument(arg). */
  function Texts(args: seq<Arg>): (r: seq<string>)
    requires forall i :: 0 <= i < |args| ==> args[i].Plain?
    ensures |r| == |args|
  {
    seq(|args|, i requires 0 <= i < |args| => args[i].text)
  }

  lemma TextsOfPlains(args: seq<string>)
    ensures Texts(Plains(args)) == args
  {
  }

  /** Adds every configured argument in order, as the for-each loop does. */
  method AddArguments(builder: ManagedProcessBuilder, args: seq<string>)
    modifies builder
    ensures builder.args == old(builder.args) + Plains(args)
    ensures builder.executable == old(builder.executable) && builder.environment == old(builder.environment)
    ensures builder.workingDirectory == old(builder.workingDirectory) && builder.destroyOnShutdown == old(builder.destroyOnShutdown)
  {
    var i := 0;
    while i < |args|
      invariant 0 <= i <= |args|
      invariant builder.args == old(builder.args) + Plains(args[..i])
      invariant builder.executable == old(builder.executable) && builder.environment == old(builder.environment)
      invariant builder.workingDirectory == old(builder.workingDirectory) && builder.destroyOnShutdown == old(builder.destroyOnShutdown)
    {
      assert Plains(args[..i + 1]) == Plains(args[..i]) + [Plain(args[i])];
      builder.AddArgument(args[i]);
      i := i + 1;
    }
    assert args[..i] == args;
  }

  /**
   * new File(socket).getAbsoluteFile(); a missing socket makes the File
   * constructor throw.
   */
  function AbsoluteSocketFile(socket: Option<string>, sys: SystemProperties): (r: Result<File, Exception>)
    ensures socket.None? <==> r == Err(NullPointer)
    ensures r.Ok? ==> r.value == NewFile(AbsolutePath(NewFile(socket.value), sys))
  {
    if socket.None? then Err(NullPointer) else Ok(NewFile(AbsolutePath(NewFile(socket.value), sys)))
  }

  /** The absolute socket file names the same location as the configured socket. */
  lemma AbsoluteSocketFileSameLocation(socket: string, sys: SystemProperties)
    requires IsAbsolute(sys.userDir)
    ensures IsAbsolute(AbsoluteSocketFile(Some(socket), sys).value.path)
    ensures Locate(AbsoluteSocketFile(Some(socket), sys).value, sys) == Locate(NewFile(socket), sys)
  {
  }

  /** The defaults a configured argument did not suppress, in order. */
  function ServerDefaults(userArgs: seq<string>): seq<Arg>
  {
    [Plain("--daemonize no")] +
    (if HasArgument(userArgs, "--appendonly") then [] else [Plain("--appendonly no")]) +
    (if HasArgument(userArgs, "--protected-mode") then [] else [Plain("--protected-mode yes")])
  }

  /** The arguments the launcher itself adds before the configured ones. */
  function BuiltInServerArguments(userArgs: seq<string>, dataDirAbsolute: string, port: int, socketFile: Option<File>): seq<Arg>
  {
    ServerDefaults(userArgs) + [Plain("--dir " + dataDirAbsolute)] + [Plain("--port " + IntToDecimal(port))] +
    (if socketFile.Some? then [FileArg("--socket", socketFile.value)] else [])
  }

  /** The server's argument list: the built-in ones, then the configured ones. */
  function ServerArguments(userArgs: seq<string>, dataDirAbsolute: string, port: int, socketFile: Option<File>): seq<Arg>
  {
    BuiltInServerArguments(userArgs, dataDirAbsolute, port, socketFile) + Plains(userArgs)
  }

  /** "--daemonize no" comes first, and the configured arguments come last, unchanged and in order. */
  lemma ServerArgumentsOrder(userArgs: seq<string>, dataDirAbsolute: string, port: int, socketFile: Option<File>)
    ensures var r := ServerArguments(userArgs, dataDirAbsolute, port, socketFile);
      r[0] == Plain("--daemonize no") &&
      |r| >= |userArgs| + 3 &&
      r[|r| - |userArgs|..] == Plains(userArgs) &&
      Texts(r[|r| - |userArgs|..]) == userArgs
  {
    var r := ServerArguments(userArgs, dataDirAbsolute, port, socketFile);
    var b := BuiltInServerArguments(userArgs, dataDirAbsolute, port, socketFile);
    assert r[|b|..] == Plains(userArgs);
    TextsOfPlains(userArgs);
  }

  /**
   * Each default is added exactly when no configured argument begins with
   * its option name.
   */
  lemma ServerDefaultsSuppressedByPrefix(userArgs: seq<string>)
    ensures var d := ServerDefaults(userArgs);
      d[0] == Plain("--daemonize no") &&
      (Plain("--appendonly no") in d <==> !HasArgument(userArgs, "--appendonly")) &&
      (Plain("--protected-mode yes") in d <==> !HasArgument(userArgs, "--protected-mode"))
  {
    var n, a, m := "--daemonize no", "--appendonly no", "--protected-mode yes";
    assert n[2] == 'd' && a[2] == 'a' && m[2] == 'p';
  }

  /** "--dir" and "--port" are always present; "--socket" exactly when a socket file is given. */
  lemma ServerArgumentsAlwaysPresent(userArgs: seq<string>, dataDirAbsolute: string, port: int, socketFile: Option<File>)
    ensures var r := ServerArguments(userArgs, dataDirAbsolute, port, socketFile);
      Plain("--dir " + dataDirAbsolute) in r && Plain("--port " + IntToDecimal(port)) in r &&
      (socketFile.Some? ==> FileArg("--socket", socketFile.value) in r) &&
      (socketFile.None? ==> forall i :: 0 <= i < |r| ==> !r[i].FileArg?)
  {
    var d := ServerDefaults(userArgs);
    var b := BuiltInServerArguments(userArgs, dataDirAbsolute, port, socketFile);
    var r := ServerArguments(userArgs, dataDirAbsolute, port, socketFile);
    var k := |d|;
    assert r[k] == b[k] == Plain("--dir " + dataDirAbsolute);
    assert r[k + 1] == b[k + 1] == Plain("--port " + IntToDecimal(port));
    assert forall i :: 0 <= i < k ==> d[i].Plain?;
    if socketFile.Some? {
      assert r[k + 2] == b[k + 2] == FileArg("--socket", socketFile.value);
    } else {
      assert |b| == k + 2;
      forall i | 0 <= i < |r|
        ensures !r[i].FileArg?
      {
        if i < k {
          assert r[i] == d[i];
        } else if i >= k + 2 {
          assert r[i] == Plains(userArgs)[i - (k + 2)];
        }
      }
    }
  }

  /**
   * What startPreparation hands to the process library: getExecutable
   * fails first, then a missing data directory, then (off Windows) a
   * missing socket; the process inherits the environment and is not
   * destroyed by the library's own shutdown hook.
   */
  function ServerInvocation(c: Config, dataDir: Option<File>, sys: SystemProperties, inherited: map<string, string>): (r: Result<Invocation, Exception>)
    ensures Server !in c.executables ==> r == Err(IllegalArgument(ExecutableName(Server)))
    ensures Server in c.executables && dataDir.None? ==> r == Err(NullPointer)
    ensures Server in c.executables && dataDir.Some? && !sys.isWindows && c.socket.None? ==> r == Err(NullPointer)
    ensures r.Ok? <==> Server in c.executables && dataDir.Some? && (sys.isWindows || c.socket.Some?)
    ensures r.Ok? ==> r.value == Invocation(c.executables[Server],
      ServerArguments(c.args, AbsolutePath(dataDir.value, sys), c.port,
        if sys.isWindows then None else Some(AbsoluteSocketFile(c.socket, sys).value)),
      inherited, None, false)
  {
    var exe := GetExecutable(c, Server);
    if exe.Err? then Err(exe.error)
    else if dataDir.None? then Err(NullPointer)
    else if !sys.isWindows && c.socket.None? then Err(NullPointer)
    else
      var socketFile := if sys.isWindows then None else Some(AbsoluteSocketFile(c.socket, sys).value);
      Ok(Invocation(exe.value, ServerArguments(c.args, AbsolutePath(dataDir.value, sys), c.port, socketFile),
                    inherited, None, false))
  }

  /** The redis-cli arguments of runCommand: "-p", the port in decimal, then the pieces of the command. */
  function ClientArguments(port: int, command: string): (r: seq<Arg>)
    ensures |r| == 2 + |JavaSplit(command, ' ')|
    ensures r[0] == Plain("-p") && r[1] == Plain(IntToDecimal(port))
    ensures r[2..] == Plains(JavaSplit(command, ' '))
  {
    [Plain("-p"), Plain(IntToDecimal(port))] + Plains(JavaSplit(command, ' '))
  }

  /** A command that does not end with a space is recovered by joining the pieces after the port. */
  lemma ClientArgumentsRoundTrip(port: int, command: string)
    requires |command| > 0 && command[|command| - 1] != ' '
    ensures Join(Texts(ClientArguments(port, command)[2..]), ' ') == command
  {
    var pieces := JavaSplit(command, ' ');
    assert ClientArguments(port, command)[2..] == Plains(pieces);
    TextsOfPlains(pieces);
    JavaSplitJoin(command, ' ');
  }

  /** The message of the exception start() throws when the readiness line was not seen. */
  function NotReadyMessage(waitMs: int, tag: string, lastConsoleLines: string): (m: string)
    ensures Contains(m, IntToDecimal(waitMs)) && Contains(m, tag)
  {
    var head := "Database does not seem to have started up correctly? Magic string not seen in ";
    var m := head + IntToDecimal(waitMs) + ("ms: " + tag + lastConsoleLines);
    ContainsMiddle(head, IntToDecimal(waitMs), "ms: " + tag + lastConsoleLines);
    assert m == (head + IntToDecimal(waitMs) + "ms: ") + tag + lastConsoleLines;
    ContainsMiddle(head + IntToDecimal(waitMs) + "ms: ", tag, lastConsoleLines);
    m
  }

  /** The default wait appears in the message as 30000. */
  lemma DefaultWaitRendered()
    ensures IntToDecimal(DefaultStartMaxWaitMs) == "30000"
  {
  }

  /** getDirectory on a file that may be null; a null file makes it throw. */
  method GetDirectoryOf(fs: FileSystem, sys: SystemProperties, dir: Option<File>) returns (r: Result<File, Exception>)
    requires fs.Valid()
    modifies fs
    ensures fs.Valid()
    ensures dir.None? ==> r == Err(NullPointer) && fs.entries == old(fs.entries)
    ensures dir.Some? ==> GrowsTowards(old(fs.entries), fs.entries, Locate(dir.value, sys))
    ensures r.Ok? ==> dir == Some(r.value) && fs.IsDirectory(Locate(r.value, sys)) && fs.CanRead(Locate(r.value, sys))
    ensures r.Err? ==> r.error == NullPointer || r.error.IllegalArgument?
  {
    if dir.None? {
      return Err(NullPointer);
    }
    r := GetDirectory(fs, sys, dir.value);
  }

  class Redis {
    const configuration: Config
    const sys: SystemProperties
    /** The temporary directory the configuration designates (its getTmpDir). */
    const tmpDirSetting: Option<File>
    /** The environment a launched process inherits. */
    const environment: map<string, string>

    var baseDir: Option<File>
    var dataDir: Option<File>
    var tmpDir: Option<File>
    var redisProcess: Option<ManagedProcess>
    var dbStartMaxWaitInMS: int

    constructor (config: Config, sys: SystemProperties, tmpDirSetting: Option<File>, environment: map<string, string>)
      ensures configuration == config && this.sys == sys && this.tmpDirSetting == tmpDirSetting
      ensures this.environment == environment
      ensures baseDir.None? && dataDir.None? && tmpDir.None? && redisProcess.None?
      ensures dbStartMaxWaitInMS == DefaultStartMaxWaitMs
    {
      configuration := config;
      this.sys := sys;
      this.tmpDirSetting := tmpDirSetting;
      this.environment := environment;
      baseDir := None;
      dataDir := None;
      tmpDir := None;
      redisProcess := None;
      dbStartMaxWaitInMS := DefaultStartMaxWaitMs;
    }

    /** The process objects stop() may act on. */
    function Footprint(): set<object>
      reads this
    {
      if redisProcess.Some? then {redisProcess.value} else {}
    }

    /** The port arguments, then the socket file off Windows. */
    method AddPortAndMaybeSocketArguments(builder: ManagedProcessBuilder) returns (r: Outcome<Exception>)
      modifies builder
      ensures r.Pass? <==> sys.isWindows || configuration.socket.Some?
      ensures r.Fail? ==> r.error == NullPointer
      ensures r.Pass? ==>
        builder.args == old(builder.args) + [Plain("--port " + IntToDecimal(configuration.port))] +
          (if sys.isWindows then [] else [FileArg("--socket", AbsoluteSocketFile(configuration.socket, sys).value)])
      ensures builder.executable == old(builder.executable) && builder.environment == old(builder.environment)
      ensures builder.workingDirectory == old(builder.workingDirectory) && builder.destroyOnShutdown == old(builder.destroyOnShutdown)
    {
      builder.AddArgument("--port " + IntToDecimal(configuration.port));
      if !sys.isWindows {
        var socketFile := AbsoluteSocketFile(configuration.socket, sys);
        if socketFile.Err? {
          return Fail(socketFile.error);
        }
        builder.AddFileArgument("--socket", socketFile.value);
      }
      r := Pass;
    }

    /** startPreparation: the server process, built but not started. */
    method StartPreparation() returns (r: Result<ManagedProcess, Exception>)
      ensures ServerInvocation(configuration, dataDir, sys, environment).Err? ==>
        r == Err(ServerInvocation(configuration, dataDir, sys, environment).error)
      ensures ServerInvocation(configuration, dataDir, sys, environment).Ok? ==>
        r.Ok? && fresh(r.value) && r.value.invocation == ServerInvocation(configuration, dataDir, sys, environment).value
      ensures r.Ok? ==> !r.value.started && !r.value.alive && r.value.destroyCount == 0
    {
      var exe := GetExecutable(configuration, Server);
      if exe.Err? {
        return Err(exe.error);
      }
      var builder := new ManagedProcessBuilder(exe.value, environment);
      builder.AddArgument("--daemonize no");
      assert builder.args == [Plain("--daemonize no")];
      if !HasArgument(configuration.args, "--appendonly") {
        builder.AddArgument("--appendonly no");
      }
      ghost var afterAppendOnly := [Plain("--daemonize no")] +
        (if HasArgument(configuration.args, "--appendonly") then [] else [Plain("--appendonly no")]);
      assert builder.args == afterAppendOnly;
      if !HasArgument(configuration.args, "--protected-mode") {
        builder.AddArgument("--protected-mode yes");
      }
      assert builder.args == ServerDefaults(configuration.args);
      if dataDir.None? {
        return Err(NullPointer);
      }
      builder.AddArgument("--dir " + AbsolutePath(dataDir.value, sys));
      var added := AddPortAndMaybeSocketArguments(builder);
      if added.Fail? {
        return Err(added.error);
      }
      ghost var socketFile := if sys.isWindows then None else Some(AbsoluteSocketFile(configuration.socket, sys).value);
      assert builder.args == BuiltInServerArguments(configuration.args, AbsolutePath(dataDir.value, sys), configuration.port, socketFile);
      AddArguments(builder, configuration.args);
      builder.SetDestroyOnShutdown(false);
      ghost var expected := ServerInvocation(configuration, dataDir, sys, environment).value;
      assert builder.Current() == expected;
      var process := builder.Build();
      return Ok(process);
    }

    /**
     * start: a failure to prepare or launch is wrapped; when the readiness
     * line is not seen in time, a still-running process is destroyed and
     * start fails with a message naming the wait and the line.
     */
    method Start() returns (r: Outcome<Exception>)
      modifies this
      ensures baseDir == old(baseDir) && dataDir == old(dataDir) && tmpDir == old(tmpDir)
      ensures dbStartMaxWaitInMS == old(dbStartMaxWaitInMS)
      ensures ServerInvocation(configuration, dataDir, sys, environment).Err? ==>
        redisProcess == old(redisProcess) &&
        r == Fail(ManagedProcessFailure(StartErrorMessage, Some(ServerInvocation(configuration, dataDir, sys, environment).error)))
      ensures ServerInvocation(configuration, dataDir, sys, environment).Ok? ==>
        redisProcess.Some? && fresh(redisProcess.value) && redisProcess.value.started &&
        redisProcess.value.invocation == ServerInvocation(configuration, dataDir, sys, environment).value &&
        redisProcess.value.destroyCount <= 1
      ensures r.Pass? ==> redisProcess.Some? && redisProcess.value.alive && redisProcess.value.destroyCount == 0
      ensures r.Fail? && redisProcess != old(redisProcess) ==>
        r.error.ManagedProcessFailure? &&
        (r.error.reason.Some? ==> r.error.message == StartErrorMessage && redisProcess.value.destroyCount == 0) &&
        (r.error.reason.None? ==> (!redisProcess.value.alive &&
          r.error.message == NotReadyMessage(dbStartMaxWaitInMS, ReadyForConnectionsTag, redisProcess.value.consoleOutput)))
    {
      var prepared := StartPreparation();
      if prepared.Err? {
        return Fail(ManagedProcessFailure(StartErrorMessage, Some(prepared.error)));
      }
      var process := prepared.value;
      redisProcess := Some(process);
      var ready := process.StartAndWaitForConsoleMessageMaxMs(ReadyForConnectionsTag, dbStartMaxWaitInMS);
      if ready.Err? {
        return Fail(ManagedProcessFailure(StartErrorMessage, Some(ready.error)));
      }
      if !ready.value {
        if process.IsAlive() {
          process.Destroy();
        }
        return Fail(ManagedProcessFailure(NotReadyMessage(dbStartMaxWaitInMS, ReadyForConnectionsTag, process.consoleOutput), None));
      }
      r := Pass;
    }

    /** stop: destroys the process only when there is one and it is alive. */
    method Stop()
      modifies Footprint()
      ensures redisProcess.Some? && old(redisProcess.value.alive) ==>
        redisProcess.value.destroyCount == old(redisProcess.value.destroyCount) + 1
      ensures redisProcess.Some? && !old(redisProcess.value.alive) ==> unchanged(redisProcess.value)
      ensures redisProcess.Some? ==> !redisProcess.value.alive && redisProcess.value.started == old(redisProcess.value.started)
    {
      if redisProcess.Some? && redisProcess.value.IsAlive() {
        redisProcess.value.Destroy();
      }
    }

    /** Two stops in a row destroy the process at most once. */
    method StopTwice()
      modifies Footprint()
      ensures redisProcess.Some? ==> redisProcess.value.destroyCount <= old(redisProcess.value.destroyCount) + 1
      ensures redisProcess.Some? ==> !redisProcess.value.alive
    {
      Stop();
      Stop();
    }

    /** close is stop. */
    method Close()
      modifies Footprint()
      ensures redisProcess.Some? && old(redisProcess.value.alive) ==>
        redisProcess.value.destroyCount == old(redisProcess.value.destroyCount) + 1
      ensures redisProcess.Some? && !old(redisProcess.value.alive) ==> unchanged(redisProcess.value)
      ensures redisProcess.Some? ==> !redisProcess.value.alive && redisProcess.value.started == old(redisProcess.value.started)
    {
      Stop();
    }

    /**
     * runCommand: launches redis-cli with "-p <port>" and the pieces of
     * the command, and returns the console output captured by the time
     * start() returns; start does not wait for the client to exit, so this
     * need not be all the client prints. `launched` is the client process.
     * getExecutable's exception is not wrapped.
     */
    method RunCommand(command: string) returns (r: Result<string, Exception>, launched: Option<ManagedProcess>)
      ensures Client !in configuration.executables ==>
        r == Err(IllegalArgument(ExecutableName(Client))) && launched.None?
      ensures Client in configuration.executables ==>
        launched.Some? && fresh(launched.value) && launched.value.started &&
        launched.value.invocation == Invocation(configuration.executables[Client],
          ClientArguments(configuration.port, command), environment, None, true)
      ensures r.Ok? ==> launched.Some? && r.value == launched.value.consoleOutput
      ensures r.Err? && launched.Some? ==> r.error.ManagedProcessFailure?
    {
      var exe := GetExecutable(configuration, Client);
      if exe.Err? {
        return Err(exe.error), None;
      }
      var builder := new ManagedProcessBuilder(exe.value, environment);
      builder.AddArgument("-p");
      builder.AddArgument(IntToDecimal(configuration.port));
      var commandParts := JavaSplit(command, ' ');
      AddArguments(builder, commandParts);
      var process := builder.Build();
      launched := Some(process);
      var started := process.Start();
      if started.Fail? {
        return Err(started.error), launched;
      }
      r := Ok(process.consoleOutput);
    }

    /**
     * prepareDirectories: validate the base and temporary directories
     * (their exceptions propagate as they are), then prepare the data
     * directory, whose exceptions are wrapped.
     */
    method PrepareDirectories(fs: FileSystem) returns (r: Outcome<Exception>)
      requires fs.Valid()
      modifies this, fs
      ensures fs.Valid()
      ensures redisProcess == old(redisProcess) && dbStartMaxWaitInMS == old(dbStartMaxWaitInMS)
      ensures configuration.baseDir.None? ==> r == Fail(NullPointer) && fs.entries == old(fs.entries)
      ensures r.Pass? ==> baseDir == configuration.baseDir && tmpDir == tmpDirSetting && dataDir == configuration.dataDir
      ensures r.Pass? ==> dataDir.Some? && fs.IsDirectory(Locate(dataDir.value, sys)) && fs.CanRead(Locate(dataDir.value, sys))
      ensures !IsTemporaryDirectory(configuration.dataDir, sys) ==> Keeps(old(fs.entries), fs.entries)
      ensures r.Pass? && IsTemporaryDirectory(configuration.dataDir, sys) ==>
        !HasChild(fs.entries, Locate(configuration.dataDir.value, sys))
      ensures (IsTemporaryDirectory(configuration.dataDir, sys) &&
        RegularFileAt(old(fs.entries), Locate(configuration.dataDir.value, sys))) ==> r.Fail?
      ensures r.Fail? && r.error.ManagedProcessFailure? ==>
        r.error.message == PrepareErrorMessage && r.error.reason.Some? &&
        baseDir == configuration.baseDir && tmpDir == tmpDirSetting
      ensures r.Fail? && !r.error.ManagedProcessFailure? ==>
        (r.error == NullPointer || r.error.IllegalArgument?) && dataDir == old(dataDir)
    {
      var b := GetDirectoryOf(fs, sys, configuration.baseDir);
      if b.Err? {
        return Fail(b.error);
      }
      baseDir := Some(b.value);
      ghost var afterBase := fs.entries;
      var t := GetDirectoryOf(fs, sys, tmpDirSetting);
      KeepsTransitive(old(fs.entries), afterBase, fs.entries);
      if t.Err? {
        return Fail(t.error);
      }
      tmpDir := Some(t.value);
      ghost var validated := fs.entries;
      assert (IsTemporaryDirectory(configuration.dataDir, sys) &&
        RegularFileAt(old(fs.entries), Locate(configuration.dataDir.value, sys))) ==>
        RegularFileAt(validated, Locate(configuration.dataDir.value, sys));
      var d := PrepareDataDirectory(fs, sys, configuration.dataDir);
      if !IsTemporaryDirectory(configuration.dataDir, sys) {
        KeepsTransitive(old(fs.entries), validated, fs.entries);
      }
      if d.Err? {
        return Fail(d.error);
      }
      dataDir := Some(d.value);
      r := Pass;
    }
  }

  /**
   * The guarded part of prepareDirectories: delete a temporary data
   * directory, then create and validate it; every exception is wrapped.
   */
  method PrepareDataDirectory(fs: FileSystem, sys: SystemProperties, dataDirPath: Option<File>) returns (r: Result<File, Exception>)
    requires fs.Valid()
    modifies fs
    ensures fs.Valid()
    ensures r.Ok? ==> dataDirPath == Some(r.value) && fs.IsDirectory(Locate(r.value, sys)) && fs.CanRead(Locate(r.value, sys))
    ensures r.Err? ==> r.error.ManagedProcessFailure? && r.error.message == PrepareErrorMessage && r.error.reason.Some?
    ensures !IsTemporaryDirectory(dataDirPath, sys) ==> Keeps(old(fs.entries), fs.entries)
    ensures r.Ok? && IsTemporaryDirectory(dataDirPath, sys) ==> !HasChild(fs.entries, Locate(dataDirPath.value, sys))
    ensures IsTemporaryDirectory(dataDirPath, sys) && RegularFileAt(old(fs.entries), Locate(dataDirPath.value, sys)) ==>
      r.Err? && fs.entries == old(fs.entries)
  {
    if IsTemporaryDirectory(dataDirPath, sys) {
      var removed := fs.RemoveTree(Locate(dataDirPath.value, sys));
      if removed.Fail? {
        return Err(ManagedProcessFailure(PrepareErrorMessage, Some(removed.error)));
      }
      if !Gone(fs.entries, Locate(dataDirPath.value, sys)) {
        OnlySelfBelow(fs.entries, Locate(dataDirPath.value, sys));
      }
      assert !HasChild(fs.entries, Locate(dataDirPath.value, sys));
    }
    var d := GetDirectoryOf(fs, sys, dataDirPath);
    if d.Err? {
      return Err(ManagedProcessFailure(PrepareErrorMessage, Some(d.error)));
    }
    r := Ok(d.value);
  }
}
