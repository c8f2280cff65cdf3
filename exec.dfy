// The process library the launcher drives (ch.vorburger.exec), reduced to
// what the launcher observes: a builder that records what it is told, and
// a process with a liveness flag whose launch outcome is not under the
// caller's control.

module Exec {
  import opened Common
  import opened JavaIo

  /** One argument handed to ManagedProcessBuilder, in the form it was added. */
  datatype Arg =
    | Plain(text: string)                 // addArgument(arg)
    | Pair(name: string, value: string)   // addArgument(name, value)
    | FileArg(name: string, file: File)   // addFileArgument(name, file)

  /** Everything a ManagedProcessBuilder has been told before build(). */
  datatype Invocation = Invocation(
    executable: File,
    args: seq<Arg>,
    environment: map<string, string>,
    workingDirectory: Option<File>,
    destroyOnShutdown: bool)

  class ManagedProcessBuilder {
    var executable: File
    var args: seq<Arg>
    var environment: map<string, string>
    var workingDirectory: Option<File>
    var destroyOnShutdown: bool

    function Current(): Invocation
      reads this
    {
      Invocation(executable, args, environment, workingDirectory, destroyOnShutdown)
    }

    /**
     * A builder for `executable`, starting from the inherited process
     * environment and with the library's own shutdown hook enabled.
     */
    constructor (executable: File, inherited: map<string, string>)
      ensures Current() == Invocation(executable, [], inherited, None, true)
    {
      this.executable := executable;
      args := [];
      environment := inherited;
      workingDirectory := None;
      destroyOnShutdown := true;
    }

    method AddArgument(text: string)
      modifies this
      ensures args == old(args) + [Plain(text)]
      ensures executable == old(executable) && environment == old(environment) && workingDirectory == old(workingDirectory) && destroyOnShutdown == old(destroyOnShutdown)
    {
      args := args + [Plain(text)];
    }

    method AddArgumentPair(name: string, value: string)
      modifies this
      ensures args == old(args) + [Pair(name, value)]
      ensures executable == old(executable) && environment == old(environment) && workingDirectory == old(workingDirectory) && destroyOnShutdown == old(destroyOnShutdown)
    {
      args := args + [Pair(name, value)];
    }

    method AddFileArgument(name: string, file: File)
      modifies this
      ensures args == old(args) + [FileArg(name, file)]
      ensures executable == old(executable) && environment == old(environment) && workingDirectory == old(workingDirectory) && destroyOnShutdown == old(destroyOnShutdown)
    {
      args := args + [FileArg(name, file)];
    }

    /** getEnvironment().put(name, value). */
    method PutEnvironment(name: string, value: string)
      modifies this
      ensures environment == old(environment)[name := value]
      ensures executable == old(executable) && args == old(args) && workingDirectory == old(workingDirectory) && destroyOnShutdown == old(destroyOnShutdown)
    {
      environment := environment[name := value];
    }

    method SetWorkingDirectory(dir: File)
      modifies this
      ensures workingDirectory == Some(dir)
      ensures executable == old(executable) && args == old(args) && environment == old(environment) && destroyOnShutdown == old(destroyOnShutdown)
    {
      workingDirectory := Some(dir);
    }

    method SetDestroyOnShutdown(flag: bool)
      modifies this
      ensures destroyOnShutdown == flag
      ensures executable == old(executable) && args == old(args) && environment == old(environment) && workingDirectory == old(workingDirectory)
    {
      destroyOnShutdown := flag;
    }

    /** build(): a process for what was recorded, not yet started. */
    method Build() returns (p: ManagedProcess)
      ensures fresh(p) && p.invocation == Current()
      ensures !p.started && !p.alive && p.destroyCount == 0
    {
      p := new ManagedProcess(Current());
    }
  }

  class ManagedProcess {
    const invocation: Invocation
    var started: bool
    var alive: bool
    /** How many times destroy() has been called. */
    var destroyCount: nat
    /** What getLastConsoleLines() and the attached output stream report. */
    var consoleOutput: string

    constructor (invocation: Invocation)
      ensures this.invocation == invocation
      ensures !started && !alive && destroyCount == 0 && consoleOutput == ""
    {
      this.invocation := invocation;
      started := false;
      alive := false;
      destroyCount := 0;
      consoleOutput := "";
    }

    predicate IsAlive()
      reads this
    {
      alive
    }

    /**
     * startAndWaitForConsoleMessageMaxMs: launch, then wait up to
     * `maxWaitMs` for `message` on the console. The launch may fail, and
     * whether the message appears, and whether the process is then still
     * running, are outside the caller's control; a process that showed
     * the message is running.
     */
    method StartAndWaitForConsoleMessageMaxMs(message: string, maxWaitMs: int) returns (r: Result<bool, Exception>)
      modifies this
      ensures started && destroyCount == old(destroyCount)
      ensures r.Err? ==> r.error.ManagedProcessFailure?
      ensures r == Ok(true) ==> alive
    {
      started := true;
      var launched: bool := *;
      if !launched {
        return Err(ManagedProcessFailure("Launching the process failed", None));
      }
      var seen: bool := *;
      var running: bool := *;
      var lines: string := *;
      consoleOutput := lines;
      alive := seen || running;
      r := Ok(seen);
    }

    /** start(): launch without waiting. */
    method Start() returns (r: Outcome<Exception>)
      modifies this
      ensures started && destroyCount == old(destroyCount)
      ensures r.Fail? ==> r.error.ManagedProcessFailure?
    {
      started := true;
      var launched: bool := *;
      if !launched {
        return Fail(ManagedProcessFailure("Launching the process failed", None));
      }
      var running: bool := *;
      var output: string := *;
      alive := running;
      consoleOutput := output;
      r := Pass;
    }

    /** destroy(): the process is no longer running. */
    method Destroy()
      modifies this
      ensures !alive && destroyCount == old(destroyCount) + 1
      ensures started == old(started) && consoleOutput == old(consoleOutput)
    {
      alive := false;
      destroyCount := destroyCount + 1;
    }
  }
}
