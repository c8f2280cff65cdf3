// DB: the older launcher variant. It differs from Redis in its defaults
// (daemonized, unprotected, logging to stdout), in passing the base
// directory as both "--dir" and the working directory, in the
// "--port=<port>" form, in exporting the library directory through an
// environment variable, and in its readiness line.

module LegacyDb {
  import opened Common
  import opened Strings
  import opened JavaIo
  import opened FileTree
  import opened Exec
  import opened Configuration
  import opened Util
  import opened RedisServer

  /** The console line the DB variant waits for. */
  const DbReadyForConnectionsTag := ": ready for connections."

  const DbStartErrorMessage := "An error occurred while starting the database"

  /** The defaults a configured argument did not suppress, in order. */
  function DbDefaults(userArgs: seq<string>): seq<Arg>
  {
    DefaultsUnless(HasArgument(userArgs, "--daemonize"), HasArgument(userArgs, "--appendonly"),
                   HasArgument(userArgs, "--protected-mode"), HasArgument(userArgs, "--logfile"))
  }

  /** The four defaults, each left out when its option is overridden. */
  function DefaultsUnless(daemonize: bool, appendOnly: bool, protectedMode: bool, logfile: bool): seq<Arg>
  {
    Unless(daemonize, Plain("--daemonize yes")) + Unless(appendOnly, Plain("--appendonly no")) +
    Unless(protectedMode, Plain("--protected-mode no")) + Unless(logfile, Pair("--logfile", "stdout"))
  }

  /** A default argument, left out when it is overridden. */
  function Unless(overridden: bool, a: Arg): (r: seq<Arg>)
    ensures forall x :: x in r <==> !overridden && x == a
  {
    if overridden then [] else [a]
  }

  /** Each default is added exactly when no configured argument begins with its option name. */
  lemma DbDefaultsSuppressedByPrefix(userArgs: seq<string>)
    ensures var d := DbDefaults(userArgs);
      (Plain("--daemonize yes") in d <==> !HasArgument(userArgs, "--daemonize")) &&
      (Plain("--appendonly no") in d <==> !HasArgument(userArgs, "--appendonly")) &&
      (Plain("--protected-mode no") in d <==> !HasArgument(userArgs, "--protected-mode")) &&
      (Pair("--logfile", "stdout") in d <==> !HasArgument(userArgs, "--logfile"))
  {
    DefaultsUnlessMembers(HasArgument(userArgs, "--daemonize"), HasArgument(userArgs, "--appendonly"),
                          HasArgument(userArgs, "--protected-mode"), HasArgument(userArgs, "--logfile"));
  }

  lemma DefaultsUnlessMembers(daemonize: bool, appendOnly: bool, protectedMode: bool, logfile: bool)
    ensures var d := DefaultsUnless(daemonize, appendOnly, protectedMode, logfile);
      (Plain("--daemonize yes") in d <==> !daemonize) &&
      (Plain("--appendonly no") in d <==> !appendOnly) &&
      (Plain("--protected-mode no") in d <==> !protectedMode) &&
      (Pair("--logfile", "stdout") in d <==> !logfile)
  {
    var y, a, m := "--daemonize yes", "--appendonly no", "--protected-mode no";
    assert y[2] == 'd' && a[2] == 'a' && m[2] == 'p';
  }

  /** The port, always in the "--port=<port>" form. */
  function PortArgument(port: int): Arg
  {
    Plain("--port=" + IntToDecimal(port))
  }

  /** The arguments the launcher itself adds before the configured ones. */
  function DbBuiltInArguments(userArgs: seq<string>, baseDir: File, port: int, socketFile: Option<File>): seq<Arg>
  {
    DbDefaults(userArgs) + [FileArg("--dir", baseDir)] + [PortArgument(port)] +
    (if socketFile.Some? then [FileArg("--socket", socketFile.value)] else [])
  }

  function DbArguments(userArgs: seq<string>, baseDir: File, port: int, socketFile: Option<File>): seq<Arg>
  {
    DbBuiltInArguments(userArgs, baseDir, port, socketFile) + Plains(userArgs)
  }

  /**
   * The base directory is "--dir", the port is given as "--port=<port>",
   * the socket appears exactly when a socket file is given, and the
   * configured arguments come last, unchanged and in order.
   */
  lemma DbArgumentsShape(userArgs: seq<string>, baseDir: File, port: int, socketFile: Option<File>)
    ensures var r := DbArguments(userArgs, baseDir, port, socketFile);
      FileArg("--dir", baseDir) in r && PortArgument(port) in r &&
      (socketFile.Some? ==> FileArg("--socket", socketFile.value) in r) &&
      (socketFile.None? ==> forall i :: 0 <= i < |r| ==> !(r[i].FileArg? && r[i].name == "--socket")) &&
      r[|r| - |userArgs|..] == Plains(userArgs)
  {
    var d := DbDefaults(userArgs);
    var b := DbBuiltInArguments(userArgs, baseDir, port, socketFile);
    var r := DbArguments(userArgs, baseDir, port, socketFile);
    var k := |d|;
    assert r[k] == b[k] == FileArg("--dir", baseDir);
    assert r[k + 1] == b[k + 1] == PortArgument(port);
    assert r[|b|..] == Plains(userArgs);
    assert forall i :: 0 <= i < k ==> !d[i].FileArg?;
    if socketFile.Some? {
      assert r[k + 2] == b[k + 2] == FileArg("--socket", socketFile.value);
    } else {
      assert |b| == k + 2;
      forall i | 0 <= i < |r|
        ensures !(r[i].FileArg? && r[i].name == "--socket")
      {
        if i < k {
          assert r[i] == d[i];
        } else if i >= k + 2 {
          assert r[i] == Plains(userArgs)[i - (k + 2)];
        } else if i == k {
          assert "--dir" != "--socket" by { assert "--dir"[2] == 'd' && "--socket"[2] == 's'; }
        }
      }
    }
  }

  /**
   * What the DB variant's startPreparation hands to the process library:
   * getExecutable fails first, then a missing library directory, a
   * missing base directory, (off Windows) a missing socket and last a
   * missing data directory, whose name cleanupOnExit puts in the shutdown
   * hook's thread name. The library directory is exported in the
   * platform's library variable, and the base directory is also the
   * working directory.
   */
  function DbInvocation(c: Config, libDir: Option<File>, baseDir: Option<File>, dataDir: Option<File>, isWindows: bool,
                        libraryVariable: string, sys: SystemProperties, inherited: map<string, string>): (r: Result<Invocation, Exception>)
    ensures Server !in c.executables ==> r == Err(IllegalArgument(ExecutableName(Server)))
    ensures r.Ok? <==> (Server in c.executables && libDir.Some? && baseDir.Some? &&
      (isWindows || c.socket.Some?) && dataDir.Some?)
    ensures r.Err? && Server in c.executables ==> r.error == NullPointer
    ensures r.Ok? ==> r.value.environment == inherited[libraryVariable := AbsolutePath(libDir.value, sys)]
    ensures r.Ok? ==> r.value.workingDirectory == baseDir && r.value.executable == c.executables[Server]
    ensures r.Ok? ==> r.value.args == DbArguments(c.args, baseDir.value, c.port,
      if isWindows then None else Some(AbsoluteSocketFile(c.socket, sys).value))
    ensures r.Ok? ==> !r.value.destroyOnShutdown
  {
    var exe := GetExecutable(c, Server);
    if exe.Err? then Err(exe.error)
    else if libDir.None? || baseDir.None? then Err(NullPointer)
    else if !isWindows && c.socket.None? then Err(NullPointer)
    else if dataDir.None? then Err(NullPointer)
    else
      var socketFile := if isWindows then None else Some(AbsoluteSocketFile(c.socket, sys).value);
      Ok(Invocation(exe.value, DbArguments(c.args, baseDir.value, c.port, socketFile),
                    inherited[libraryVariable := AbsolutePath(libDir.value, sys)], baseDir, false))
  }

  /** The defaults of startPreparation that the configured arguments did not override. */
  method AddDbDefaults(builder: ManagedProcessBuilder, userArgs: seq<string>)
    modifies builder
    ensures builder.args == old(builder.args) + DbDefaults(userArgs)
    ensures builder.executable == old(builder.executable) && builder.environment == old(builder.environment)
    ensures builder.workingDirectory == old(builder.workingDirectory) && builder.destroyOnShutdown == old(builder.destroyOnShutdown)
  {
    ghost var start := builder.args;
    var daemonize := HasArgument(userArgs, "--daemonize");
    var appendOnly := HasArgument(userArgs, "--appendonly");
    var protectedMode := HasArgument(userArgs, "--protected-mode");
    var logfile := HasArgument(userArgs, "--logfile");
    if !daemonize {
      builder.AddArgument("--daemonize yes");
    }
    ghost var added := Unless(daemonize, Plain("--daemonize yes"));
    assert builder.args == start + added;
    if !appendOnly {
      builder.AddArgument("--appendonly no");
    }
    ConcatAssociative(start, added, Unless(appendOnly, Plain("--appendonly no")));
    added := added + Unless(appendOnly, Plain("--appendonly no"));
    assert builder.args == start + added;
    if !protectedMode {
      builder.AddArgument("--protected-mode no");
    }
    ConcatAssociative(start, added, Unless(protectedMode, Plain("--protected-mode no")));
    added := added + Unless(protectedMode, Plain("--protected-mode no"));
    assert builder.args == start + added;
    if !logfile {
      builder.AddArgumentPair("--logfile", "stdout");
    }
    ConcatAssociative(start, added, Unless(logfile, Pair("--logfile", "stdout")));
    added := added + Unless(logfile, Pair("--logfile", "stdout"));
    assert builder.args == start + added;
  }

  lemma ConcatAssociative(a: seq<Arg>, b: seq<Arg>, c: seq<Arg>)
    ensures (a + b) + c == a + (b + c)
  {
  }

  class DB {
    const configuration: Config
    const sys: SystemProperties
    /** The configuration's getTmpDir, getLibDir, isWindows and getOSLibraryEnvironmentVarName. */
    const tmpDirSetting: Option<File>
    const libDirSetting: Option<File>
    const isWindows: bool
    const libraryVariable: string
    /** The environment a launched process inherits. */
    const environment: map<string, string>

    var baseDir: Option<File>
    var libDir: Option<File>
    var dataDir: Option<File>
    var tmpDir: Option<File>
    var redisProcess: Option<ManagedProcess>
    var dbStartMaxWaitInMS: int

    constructor (config: Config, sys: SystemProperties, tmpDirSetting: Option<File>, libDirSetting: Option<File>,
                 isWindows: bool, libraryVariable: string, environment: map<string, string>)
      ensures configuration == config && this.sys == sys
      ensures this.tmpDirSetting == tmpDirSetting && this.libDirSetting == libDirSetting
      ensures this.isWindows == isWindows && this.libraryVariable == libraryVariable && this.environment == environment
      ensures baseDir.None? && libDir.None? && dataDir.None? && tmpDir.None? && redisProcess.None?
      ensures dbStartMaxWaitInMS == DefaultStartMaxWaitMs
    {
      configuration := config;
      this.sys := sys;
      this.tmpDirSetting := tmpDirSetting;
      this.libDirSetting := libDirSetting;
      this.isWindows := isWindows;
      this.libraryVariable := libraryVariable;
      this.environment := environment;
      baseDir := None;
      libDir := None;
      dataDir := None;
      tmpDir := None;
      redisProcess := None;
      dbStartMaxWaitInMS := DefaultStartMaxWaitMs;
    }

    function Footprint(): set<object>
      reads this
    {
      if redisProcess.Some? then {redisProcess.value} else {}
    }

    /** The port as "--port=<port>", then the socket file off Windows. */
    method AddPortAndMaybeSocketArguments(builder: ManagedProcessBuilder) returns (r: Outcome<Exception>)
      modifies builder
      ensures r.Pass? <==> isWindows || configuration.socket.Some?
      ensures r.Fail? ==> r.error == NullPointer
      ensures r.Pass? ==>
        builder.args == old(builder.args) + [PortArgument(configuration.port)] +
          (if isWindows then [] else [FileArg("--socket", AbsoluteSocketFile(configuration.socket, sys).value)])
      ensures builder.executable == old(builder.executable) && builder.environment == old(builder.environment)
      ensures builder.workingDirectory == old(builder.workingDirectory) && builder.destroyOnShutdown == old(builder.destroyOnShutdown)
    {
      builder.AddArgument("--port=" + IntToDecimal(configuration.port));
      if !isWindows {
        var socketFile := AbsoluteSocketFile(configuration.socket, sys);
        if socketFile.Err? {
          return Fail(socketFile.error);
        }
        builder.AddFileArgument("--socket", socketFile.value);
      }
      r := Pass;
    }

    /** addSocketOrPortArgument: exactly one argument, the socket off Windows and the port on it. */
    method AddSocketOrPortArgument(builder: ManagedProcessBuilder) returns (r: Outcome<Exception>)
      modifies builder
      ensures r.Pass? <==> isWindows || configuration.socket.Some?
      ensures r.Fail? ==> r.error == NullPointer && builder.args == old(builder.args)
      ensures r.Pass? ==> (|builder.args| == |old(builder.args)| + 1 &&
        builder.args == old(builder.args) +
          [if isWindows then PortArgument(configuration.port)
           else FileArg("--socket", AbsoluteSocketFile(configuration.socket, sys).value)])
      ensures builder.executable == old(builder.executable) && builder.environment == old(builder.environment)
      ensures builder.workingDirectory == old(builder.workingDirectory) && builder.destroyOnShutdown == old(builder.destroyOnShutdown)
    {
      if !isWindows {
        var socketFile := AbsoluteSocketFile(configuration.socket, sys);
        if socketFile.Err? {
          return Fail(socketFile.error);
        }
        builder.AddFileArgument("--socket", socketFile.value);
      } else {
        builder.AddArgument("--port=" + IntToDecimal(configuration.port));
      }
      r := Pass;
    }

    /** startPreparation: the server process, built but not started. */
    method StartPreparation() returns (r: Result<ManagedProcess, Exception>)
      ensures DbInvocation(configuration, libDir, baseDir, dataDir, isWindows, libraryVariable, sys, environment).Err? ==>
        r == Err(DbInvocation(configuration, libDir, baseDir, dataDir, isWindows, libraryVariable, sys, environment).error)
      ensures DbInvocation(configuration, libDir, baseDir, dataDir, isWindows, libraryVariable, sys, environment).Ok? ==>
        r.Ok? && fresh(r.value) &&
        r.value.invocation == DbInvocation(configuration, libDir, baseDir, dataDir, isWindows, libraryVariable, sys, environment).value
      ensures r.Ok? ==> !r.value.started && !r.value.alive && r.value.destroyCount == 0
    {
      var exe := GetExecutable(configuration, Server);
      if exe.Err? {
        return Err(exe.error);
      }
      var builder := new ManagedProcessBuilder(exe.value, environment);
      if libDir.None? {
        return Err(NullPointer);
      }
      builder.PutEnvironment(libraryVariable, AbsolutePath(libDir.value, sys));
      AddDbDefaults(builder, configuration.args);
      if baseDir.None? {
        return Err(NullPointer);
      }
      builder.AddFileArgument("--dir", baseDir.value);
      builder.SetWorkingDirectory(baseDir.value);
      ghost var withDir := builder.args;
      assert withDir == DbDefaults(configuration.args) + [FileArg("--dir", baseDir.value)];
      var added := AddPortAndMaybeSocketArguments(builder);
      if added.Fail? {
        return Err(added.error);
      }
      ghost var socketFile := if isWindows then None else Some(AbsoluteSocketFile(configuration.socket, sys).value);
      ghost var socketArgs := if socketFile.Some? then [FileArg("--socket", socketFile.value)] else [];
      assert builder.args == withDir + [PortArgument(configuration.port)] + socketArgs;
      assert builder.args == DbBuiltInArguments(configuration.args, baseDir.value, configuration.port, socketFile);
      AddArguments(builder, configuration.args);
      if dataDir.None? {
        return Err(NullPointer);
      }
      builder.SetDestroyOnShutdown(false);
      ghost var expected := DbInvocation(configuration, libDir, baseDir, dataDir, isWindows, libraryVariable, sys, environment).value;
      assert builder.Current() == expected;
      var process := builder.Build();
      return Ok(process);
    }

    /**
     * start: a failure to prepare or launch is wrapped; when the readiness
     * line is not seen in time, a still-running process is destroyed and
     * start fails with a message naming the wait and the line.
     */
    method Start() returns (r: Outcome<Exception>)
      modifies this
      ensures baseDir == old(baseDir) && libDir == old(libDir) && dataDir == old(dataDir) && tmpDir == old(tmpDir)
      ensures dbStartMaxWaitInMS == old(dbStartMaxWaitInMS)
      ensures DbInvocation(configuration, libDir, baseDir, dataDir, isWindows, libraryVariable, sys, environment).Err? ==>
        redisProcess == old(redisProcess) &&
        r == Fail(ManagedProcessFailure(DbStartErrorMessage,
          Some(DbInvocation(configuration, libDir, baseDir, dataDir, isWindows, libraryVariable, sys, environment).error)))
      ensures DbInvocation(configuration, libDir, baseDir, dataDir, isWindows, libraryVariable, sys, environment).Ok? ==>
        redisProcess.Some? && fresh(redisProcess.value) && redisProcess.value.started &&
        redisProcess.value.invocation == DbInvocation(configuration, libDir, baseDir, dataDir, isWindows, libraryVariable, sys, environment).value &&
        redisProcess.value.destroyCount <= 1
      ensures r.Pass? ==> redisProcess.Some? && redisProcess.value.alive && redisProcess.value.destroyCount == 0
      ensures r.Fail? && redisProcess != old(redisProcess) ==>
        r.error.ManagedProcessFailure? &&
        (r.error.reason.Some? ==> r.error.message == DbStartErrorMessage && redisProcess.value.destroyCount == 0) &&
        (r.error.reason.None? ==> (!redisProcess.value.alive &&
          r.error.message == NotReadyMessage(dbStartMaxWaitInMS, DbReadyForConnectionsTag, redisProcess.value.consoleOutput)))
    {
      var prepared := StartPreparation();
      if prepared.Err? {
        return Fail(ManagedProcessFailure(DbStartErrorMessage, Some(prepared.error)));
      }
      var process := prepared.value;
      redisProcess := Some(process);
      var ready := process.StartAndWaitForConsoleMessageMaxMs(DbReadyForConnectionsTag, dbStartMaxWaitInMS);
      if ready.Err? {
        return Fail(ManagedProcessFailure(DbStartErrorMessage, Some(ready.error)));
      }
      if !ready.value {
        if process.IsAlive() {
          process.Destroy();
        }
        return Fail(ManagedProcessFailure(NotReadyMessage(dbStartMaxWaitInMS, DbReadyForConnectionsTag, process.consoleOutput), None));
      }
      r := Pass;
    }

    /** stop: destroys the process only when there is one and it is alive. */
    method Stop()
      modifies Footprint()
      ensures redisProcess.Some? && old(redisProcess.value.alive) ==>
        redisProcess.value.destroyCount == old(redisProcess.value.destroyCount) + 1
      ensures redisProcess.Some? && !old(redisProcess.value.alive) ==> unchanged(redisProcess.value)
      ensures redisProcess.Some? ==> !redisProcess.value.alive && redisProcess.value.started == old(redisProcess.value.started)
    {
      if redisProcess.Some? && redisProcess.value.IsAlive() {
        redisProcess.value.Destroy();
      }
    }

    /**
     * prepareDirectories: validate the base, library and temporary
     * directories (their exceptions propagate as they are), then prepare
     * the data directory, whose exceptions are wrapped.
     */
    method PrepareDirectories(fs: FileSystem) returns (r: Outcome<Exception>)
      requires fs.Valid()
      modifies this, fs
      ensures fs.Valid()
      ensures redisProcess == old(redisProcess) && dbStartMaxWaitInMS == old(dbStartMaxWaitInMS)
      ensures configuration.baseDir.None? ==> r == Fail(NullPointer) && fs.entries == old(fs.entries)
      ensures r.Pass? ==> baseDir == configuration.baseDir && libDir == libDirSetting && tmpDir == tmpDirSetting
      ensures r.Pass? ==> (dataDir == configuration.dataDir && dataDir.Some? &&
        fs.IsDirectory(Locate(dataDir.value, sys)) && fs.CanRead(Locate(dataDir.value, sys)))
      ensures !IsTemporaryDirectory(configuration.dataDir, sys) ==> Keeps(old(fs.entries), fs.entries)
      ensures r.Pass? && IsTemporaryDirectory(configuration.dataDir, sys) ==>
        !HasChild(fs.entries, Locate(configuration.dataDir.value, sys))
      ensures (IsTemporaryDirectory(configuration.dataDir, sys) &&
        RegularFileAt(old(fs.entries), Locate(configuration.dataDir.value, sys))) ==> r.Fail?
      ensures r.Fail? && r.error.ManagedProcessFailure? ==>
        r.error.message == PrepareErrorMessage && baseDir == configuration.baseDir &&
        libDir == libDirSetting && tmpDir == tmpDirSetting
      ensures r.Fail? && !r.error.ManagedProcessFailure? ==>
        (r.error == NullPointer || r.error.IllegalArgument?) && dataDir == old(dataDir)
    {
      var b := GetDirectoryOf(fs, sys, configuration.baseDir);
      if b.Err? {
        return Fail(b.error);
      }
      baseDir := Some(b.value);
      ghost var afterBase := fs.entries;
      var l := GetDirectoryOf(fs, sys, libDirSetting);
      KeepsTransitive(old(fs.entries), afterBase, fs.entries);
      if l.Err? {
        return Fail(l.error);
      }
      libDir := Some(l.value);
      ghost var afterLib := fs.entries;
      var t := GetDirectoryOf(fs, sys, tmpDirSetting);
      KeepsTransitive(old(fs.entries), afterLib, fs.entries);
      if t.Err? {
        return Fail(t.error);
      }
      tmpDir := Some(t.value);
      ghost var validated := fs.entries;
      assert (IsTemporaryDirectory(configuration.dataDir, sys) &&
        RegularFileAt(old(fs.entries), Locate(configuration.dataDir.value, sys))) ==>
        RegularFileAt(validated, Locate(configuration.dataDir.value, sys));
      var d := PrepareDataDirectory(fs, sys, configuration.dataDir);
      if !IsTemporaryDirectory(configuration.dataDir, sys) {
        KeepsTransitive(old(fs.entries), validated, fs.entries);
      }
      if d.Err? {
        return Fail(d.error);
      }
      dataDir := Some(d.value);
      r := Pass;
    }
  }
}
