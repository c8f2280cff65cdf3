// Util: the temporary-directory test, Windows-to-Cygwin path conversion,
// the bounded retry loop, directory validation and the selection rule of
// classpath extraction.

module Util {
  import opened Common
  import opened Strings
  import opened JavaIo
  import opened FileTree

  /**
   * isTemporaryDirectory: a non-null file whose absolute path string
   * begins with java.io.tmpdir, compared as raw text.
   */
  predicate IsTemporaryDirectory(directory: Option<File>, sys: SystemProperties) {
    directory.Some? && StartsWith(AbsolutePath(directory.value, sys), sys.javaIoTmpdir)
  }

  /** Any absolute path written below the temporary root is temporary. */
  lemma BelowTemporaryRoot(sys: SystemProperties, rest: string)
    requires IsAbsolute(sys.javaIoTmpdir)
    ensures IsTemporaryDirectory(Some(File(sys.javaIoTmpdir + rest)), sys)
  {
    var s := sys.javaIoTmpdir + rest;
    assert s[0] == sys.javaIoTmpdir[0];
    assert s[..|sys.javaIoTmpdir|] == sys.javaIoTmpdir;
  }

  /** A relative file is temporary exactly when the working directory's resolution of it is. */
  lemma RelativeResolvesAgainstUserDir(f: File, sys: SystemProperties)
    requires !IsAbsolute(f.path)
    ensures IsTemporaryDirectory(Some(f), sys) <==> StartsWith(Resolve(sys.userDir, f.path), sys.javaIoTmpdir)
  {
  }

  /**
   * The prefix test does not stop at a name boundary: with the temporary
   * root "/tmp", the sibling "/tmpfs/x" also counts as temporary.
   */
  lemma RawPrefixAcceptsSibling(sys: SystemProperties)
    requires sys.javaIoTmpdir == "/tmp"
    ensures IsTemporaryDirectory(Some(File("/tmpfs/x")), sys)
    ensures !StartsWith("/tmpfs/x", sys.javaIoTmpdir + "/")
  {
    assert "/tmpfs/x"[..4] == "/tmp";
    assert "/tmpfs/x"[4] != '/';
  }

  /**
   * convertWinToCygwinPath: null and "" unchanged; otherwise backslashes
   * become slashes, a UNC-style "//" path is kept, and a drive letter
   * "X:" becomes "/cygdrive/x".
   */
  function ConvertWinToCygwinPath(windowsPath: Option<string>): (r: Option<string>)
    ensures windowsPath.None? ==> r.None?
    ensures windowsPath == Some("") ==> r == Some("")
    ensures windowsPath.Some? && windowsPath.value != "" ==> r.Some? && '\\' !in r.value
  {
    if windowsPath.None? || windowsPath.value == "" then windowsPath
    else
      var path := ReplaceChar(windowsPath.value, '\\', '/');
      if StartsWith(path, "//") then Some(path)
      else if |path| >= 2 && IsLetter(path[0]) && path[1] == ':' then
        Some("/cygdrive/" + [ToLower(path[0])] + path[2..])
      else Some(path)
  }

  /**
   * A drive-letter path maps below /cygdrive, with the letter in lower case
   * and every backslash after it turned into a slash.
   */
  lemma CygwinDriveLetter(letter: char, rest: string)
    requires IsLetter(letter)
    ensures ConvertWinToCygwinPath(Some([letter, ':'] + rest)) ==
      Some("/cygdrive/" + [ToLower(letter)] + ReplaceChar(rest, '\\', '/'))
  {
    var w := [letter, ':'] + rest;
    var path := ReplaceChar(w, '\\', '/');
    assert path[0] == letter && path[1] == ':';
    assert !StartsWith(path, "//");
    assert path[2..] == ReplaceChar(rest, '\\', '/') by {
      assert forall i :: 0 <= i < |rest| ==> w[i + 2] == rest[i];
    }
  }

  /** A path whose first two characters are slashes of either kind is kept as "//" and the rest. */
  lemma CygwinUncPath(first: char, second: char, rest: string)
    requires first in "\\/" && second in "\\/"
    ensures ConvertWinToCygwinPath(Some([first, second] + rest)) == Some("//" + ReplaceChar(rest, '\\', '/'))
  {
    var w := [first, second] + rest;
    var path := ReplaceChar(w, '\\', '/');
    var tail := ReplaceChar(rest, '\\', '/');
    assert path[0] == '/' && path[1] == '/';
    assert path[..2] == "//";
    assert path[2..] == tail by {
      assert forall i :: 0 <= i < |rest| ==> w[i + 2] == rest[i];
    }
    assert path == path[..2] + path[2..];
  }

  /**
   * Any other non-empty path (it does not open with two slashes of either
   * kind, nor with a letter and a colon) only has its backslashes turned
   * into slashes.
   */
  lemma CygwinOtherPath(w: string)
    requires w != ""
    requires !(|w| >= 2 && w[0] in "\\/" && w[1] in "\\/")
    requires !(|w| >= 2 && IsLetter(w[0]) && w[1] == ':')
    ensures ConvertWinToCygwinPath(Some(w)) == Some(ReplaceChar(w, '\\', '/'))
  {
    var path := ReplaceChar(w, '\\', '/');
    if |w| >= 2 {
      assert IsLetter(path[0]) ==> path[0] == w[0];
      assert !StartsWith(path, "//") by {
        assert path[0] == '/' ==> w[0] in "\\/";
        assert path[1] == '/' ==> w[1] in "\\/";
      }
    }
  }

  /** Converting twice gives what converting once gives. */
  lemma ConvertWinToCygwinPathIdempotent(windowsPath: Option<string>)
    ensures ConvertWinToCygwinPath(ConvertWinToCygwinPath(windowsPath)) == ConvertWinToCygwinPath(windowsPath)
  {
    var r := ConvertWinToCygwinPath(windowsPath);
    if windowsPath.Some? && windowsPath.value != "" {
      var once := r.value;
      assert ReplaceChar(once, '\\', '/') == once;
      var path := ReplaceChar(windowsPath.value, '\\', '/');
      if !StartsWith(path, "//") && |path| >= 2 && IsLetter(path[0]) && path[1] == ':' {
        assert once[0] == '/' && once[1] == 'c';
        assert !StartsWith(once, "//");
      }
    }
  }

  /**
   * tryN's loop from attempt `done` on, with `last` the exception of the
   * previous failed attempt: the outcome and the number of calls made,
   * with Java assertions disabled.
   */
  function Retry(n: int, attempt: nat -> Outcome<Exception>, done: nat, last: Option<Exception>): (res: (Outcome<Exception>, nat))
    decreases if n > done then n - done else 0
  {
    if done >= n then (if last.Some? then Fail(last.value) else Fail(NullPointer), done)
    else if attempt(done).Pass? then (Pass, done + 1)
    else if !IsIOException(attempt(done).error) then (attempt(done), done + 1)
    else Retry(n, attempt, done + 1, Some(attempt(done).error))
  }

  /** An attempt that threw an IOException, which tryN retries. */
  predicate IOFailed(o: Outcome<Exception>) {
    o.Fail? && IsIOException(o.error)
  }

  /**
   * tryN(n, ms, procedure): the procedure's i-th call has the outcome
   * attempt(i); the result and the number of calls.
   */
  function TryNOutcome(n: int, attempt: nat -> Outcome<Exception>): (res: (Outcome<Exception>, nat))
  {
    Retry(n, attempt, 0, None)
  }

  lemma {:induction false} RetryFacts(n: int, attempt: nat -> Outcome<Exception>, done: nat, last: Option<Exception>)
    requires done <= n || done == 0
    requires done > 0 ==> IOFailed(attempt(done - 1)) && last == Some(attempt(done - 1).error)
    requires done == 0 ==> last.None?
    ensures var (r, calls) := Retry(n, attempt, done, last);
      done <= calls && (calls <= n || calls == 0) &&
      (forall i :: done <= i < calls - 1 ==> IOFailed(attempt(i))) &&
      (r.Pass? <==> calls > 0 && attempt(calls - 1).Pass?) &&
      (r.Fail? && calls > 0 ==> r == attempt(calls - 1)) &&
      (calls < n ==> calls > done && !IOFailed(attempt(calls - 1))) &&
      (calls == 0 ==> r == Fail(NullPointer))
    decreases if n > done then n - done else 0
  {
    if done < n && IOFailed(attempt(done)) {
      RetryFacts(n, attempt, done + 1, Some(attempt(done).error));
    }
  }

  /**
   * What tryN promises: at most n calls, the first success ends it, an
   * exception other than an IOException ends it at once, and when all n
   * calls throw IOExceptions the last one is rethrown; for n <= 0 the
   * null exception is thrown, which is a NullPointerException when Java
   * assertions are disabled (with them enabled, the assert before the
   * throw fails first with an AssertionError).
   */
  lemma TryNPromises(n: int, attempt: nat -> Outcome<Exception>)
    ensures var (r, calls) := TryNOutcome(n, attempt);
      (n <= 0 ==> calls == 0 && r == Fail(NullPointer)) &&
      (n > 0 ==> 1 <= calls <= n) &&
      (forall i :: 0 <= i < calls - 1 ==> IOFailed(attempt(i))) &&
      (r.Pass? <==> calls > 0 && attempt(calls - 1).Pass?) &&
      (r.Fail? && calls > 0 ==> r == attempt(calls - 1)) &&
      (calls < n ==> !IOFailed(attempt(calls - 1)))
  {
    RetryFacts(n, attempt, 0, None);
  }

  /** tryN's loop; the pause between attempts is left out. */
  method TryN(n: int, attempt: nat -> Outcome<Exception>) returns (r: Outcome<Exception>, calls: nat)
    ensures (r, calls) == TryNOutcome(n, attempt)
  {
    var lastIOException: Option<Exception> := None;
    var numAttempts: nat := 0;
    while numAttempts < n
      invariant numAttempts <= n || numAttempts == 0
      invariant Retry(n, attempt, numAttempts, lastIOException) == TryNOutcome(n, attempt)
      decreases n - numAttempts
    {
      var outcome := attempt(numAttempts);
      numAttempts := numAttempts + 1;
      if outcome.Pass? {
        return Pass, numAttempts;
      }
      if !IsIOException(outcome.error) {
        return outcome, numAttempts;
      }
      lastIOException := Some(outcome.error);
    }
    calls := numAttempts;
    if lastIOException.Some? {
      r := Fail(lastIOException.value);
    } else {
      r := Fail(NullPointer);
    }
  }

  /**
   * getDirectory: create a missing directory (IllegalArgumentException if
   * that fails), then reject a blank absolute path, a non-directory and
   * an unreadable directory, in that order; otherwise return the file.
   */
  method GetDirectory(fs: FileSystem, sys: SystemProperties, dir: File) returns (r: Result<File, Exception>)
    requires fs.Valid()
    modifies fs
    ensures fs.Valid()
    ensures r.Ok? ==> r.value == dir && fs.IsDirectory(Locate(dir, sys)) && fs.CanRead(Locate(dir, sys))
    ensures r.Err? ==> r.error.IllegalArgument?
    ensures GrowsTowards(old(fs.entries), fs.entries, Locate(dir, sys))
    ensures old(fs.Exists(Locate(dir, sys))) ==> fs.entries == old(fs.entries)
    ensures !old(fs.Exists(Locate(dir, sys))) && MkdirBlocked(old(fs.entries), Locate(dir, sys)) ==>
      r == Err(IllegalArgument("Unable to create new directory at path: " + dir.path)) && fs.entries == old(fs.entries)
    ensures !old(fs.Exists(Locate(dir, sys))) && !MkdirBlocked(old(fs.entries), Locate(dir, sys)) ==>
      (fs.IsDirectory(Locate(dir, sys)) &&
       forall q :: q in fs.entries <==> q in old(fs.entries) || q <= Locate(dir, sys)) ||
      (r == Err(IllegalArgument("Unable to create new directory at path: " + dir.path)) && !fs.Exists(Locate(dir, sys)))
    ensures fs.Exists(Locate(dir, sys)) && Trim(AbsolutePath(dir, sys)) == "" ==>
      r == Err(IllegalArgument(dir.path + " is empty"))
    ensures fs.Exists(Locate(dir, sys)) && Trim(AbsolutePath(dir, sys)) != "" && !fs.IsDirectory(Locate(dir, sys)) ==>
      r == Err(IllegalArgument(dir.path + " is not a directory"))
    ensures fs.IsDirectory(Locate(dir, sys)) && Trim(AbsolutePath(dir, sys)) != "" && !fs.CanRead(Locate(dir, sys)) ==>
      r == Err(IllegalArgument(dir.path + " is not a readable directory"))
    ensures fs.CanRead(Locate(dir, sys)) && fs.IsDirectory(Locate(dir, sys)) && Trim(AbsolutePath(dir, sys)) != "" ==>
      r == Ok(dir)
  {
    var location := Locate(dir, sys);
    if !fs.Exists(location) {
      var made := fs.ForceMkdir(location);
      if made.Fail? {
        return Err(IllegalArgument("Unable to create new directory at path: " + dir.path));
      }
    }
    var absPath := AbsolutePath(dir, sys);
    if Trim(absPath) == "" {
      return Err(IllegalArgument(dir.path + " is empty"));
    }
    if !fs.IsDirectory(location) {
      return Err(IllegalArgument(dir.path + " is not a directory"));
    }
    if !fs.CanRead(location) {
      return Err(IllegalArgument(dir.path + " is not a readable directory"));
    }
    return Ok(dir);
  }

  /**
   * A classpath resource matched by the extraction pattern: getURL and
   * contentLength each give a value or the IOException they throw.
   */
  datatype Resource = Resource(readable: bool, url: Result<string, Exception>, contentLength: Result<int, Exception>)

  /** The pattern handed to the classpath resolver. */
  function LocationPattern(packagePath: string): (pattern: string)
    ensures StartsWith(pattern, "classpath*:" + packagePath)
  {
    var pattern := "classpath*:" + packagePath + "/**";
    assert pattern[..|"classpath*:" + packagePath|] == "classpath*:" + packagePath;
    pattern
  }

  /**
   * The part of a resource URL after the last occurrence of the package
   * path, as path.substring(path.lastIndexOf(packagePath) +
   * packagePath.length()); an out-of-range start throws.
   */
  function RelativeName(url: string, packagePath: string): (r: Result<string, Exception>)
    ensures LastIndexOf(url, packagePath) >= 0 ==> r.Ok? && packagePath + r.value == url[LastIndexOf(url, packagePath)..]
    ensures r.Err? ==> r.error.IndexOutOfBounds?
  {
    var start := LastIndexOf(url, packagePath) + |packagePath|;
    if 0 <= start <= |url| then
      assert LastIndexOf(url, packagePath) >= 0 ==>
        url[LastIndexOf(url, packagePath)..] == url[LastIndexOf(url, packagePath)..start] + url[start..];
      Ok(url[start..])
    else Err(IndexOutOfBounds(start))
  }

  /** The resource is readable, its URL is known and it is a file, not a directory ending in '/'. */
  predicate Candidate(res: Resource) {
    res.readable && res.url.Ok? && !EndsWith(res.url.value, "/")
  }

  /** The target of a resource with this URL, new File(toDir, name), located in the file system. */
  function Target(sys: SystemProperties, packagePath: string, toDir: File, url: string): (r: Result<Path, Exception>)
    ensures r.Ok? ==> (RelativeName(url, packagePath).Ok? &&
      r.value == Locate(NewFileIn(Some(toDir), RelativeName(url, packagePath).value), sys))
    ensures r.Err? ==> RelativeName(url, packagePath).Err? && r.error == RelativeName(url, packagePath).error
  {
    var name := RelativeName(url, packagePath);
    if name.Err? then Err(name.error) else Ok(Locate(NewFileIn(Some(toDir), name.value), sys))
  }

  /** A candidate whose name and length are known, and whose target is missing or of a different length. */
  predicate Selected(fs: FileSystem, sys: SystemProperties, packagePath: string, toDir: File, res: Resource)
    reads fs
  {
    Candidate(res) && Target(sys, packagePath, toDir, res.url.value).Ok? && res.contentLength.Ok? &&
    var target := Target(sys, packagePath, toDir, res.url.value).value;
    !fs.Exists(target) || fs.Length(target) != res.contentLength.value
  }

  /** The attempts of the copy of resource `i`. */
  function CopyAttempts(copyAttempt: (nat, nat) -> Outcome<Exception>, i: nat): nat -> Outcome<Exception>
  {
    (a: nat) => copyAttempt(i, a)
  }

  /**
   * One pass of the extraction loop: Ok(true) when the resource was
   * copied, Ok(false) when it was skipped, or the exception that ends the
   * extraction.
   */
  function ResourceStep(fs: FileSystem, sys: SystemProperties, packagePath: string, toDir: File, res: Resource,
                        attempts: nat -> Outcome<Exception>): (s: Result<bool, Exception>)
    reads fs
    ensures !res.readable || (res.url.Ok? && EndsWith(res.url.value, "/")) ==> s == Ok(false)
    ensures res.readable && res.url.Err? ==> s == Err(res.url.error)
    ensures s == Ok(true) <==> Selected(fs, sys, packagePath, toDir, res) && TryNOutcome(5, attempts).0.Pass?
    ensures s.Err? ==>
      (res.readable && res.url.Err? && s.error == res.url.error) ||
      (Candidate(res) && Target(sys, packagePath, toDir, res.url.value).Err? &&
       s.error == Target(sys, packagePath, toDir, res.url.value).error) ||
      (Candidate(res) && Target(sys, packagePath, toDir, res.url.value).Ok? && res.contentLength.Err? &&
       s.error == res.contentLength.error) ||
      (Selected(fs, sys, packagePath, toDir, res) && TryNOutcome(5, attempts).0 == Fail(s.error))
    ensures Candidate(res) && Target(sys, packagePath, toDir, res.url.value).Ok? && res.contentLength.Err? ==>
      s == Err(res.contentLength.error)
    ensures (Candidate(res) && Target(sys, packagePath, toDir, res.url.value).Ok? && res.contentLength.Ok? &&
      !Selected(fs, sys, packagePath, toDir, res)) ==> s == Ok(false)
  {
    if !res.readable then Ok(false)
    else if res.url.Err? then Err(res.url.error)
    else if EndsWith(res.url.value, "/") then Ok(false)
    else
      var target := Target(sys, packagePath, toDir, res.url.value);
      if target.Err? then Err(target.error)
      else if res.contentLength.Err? then Err(res.contentLength.error)
      else if fs.Exists(target.value) && fs.Length(target.value) == res.contentLength.value then Ok(false)
      else
        var copied := TryNOutcome(5, attempts).0;
        if copied.Fail? then Err(copied.error) else Ok(true)
  }

  /** How many of the resources are selected for copying. */
  function NumSelected(fs: FileSystem, sys: SystemProperties, packagePath: string, toDir: File, resources: seq<Resource>): (k: nat)
    reads fs
    ensures k <= |resources|
  {
    if |resources| == 0 then 0
    else NumSelected(fs, sys, packagePath, toDir, resources[..|resources| - 1]) +
         (if Selected(fs, sys, packagePath, toDir, resources[|resources| - 1]) then 1 else 0)
  }

  /** The body of the extraction loop for one resource. */
  method ExtractResource(fs: FileSystem, sys: SystemProperties, packagePath: string, toDir: File, resource: Resource,
                         attempts: nat -> Outcome<Exception>) returns (s: Result<bool, Exception>)
    ensures s == ResourceStep(fs, sys, packagePath, toDir, resource, attempts)
  {
    if !resource.readable {
      return Ok(false);
    }
    if resource.url.Err? {
      return Err(resource.url.error);
    }
    var path := resource.url.value;
    if EndsWith(path, "/") {
      return Ok(false);
    }
    var name := RelativeName(path, packagePath);
    if name.Err? {
      return Err(name.error);
    }
    var target := Locate(NewFileIn(Some(toDir), name.value), sys);
    if resource.contentLength.Err? {
      return Err(resource.contentLength.error);
    }
    if fs.Exists(target) && fs.Length(target) == resource.contentLength.value {
      return Ok(false);
    }
    var copied, _ := TryN(5, attempts);
    if copied.Fail? {
      return Err(copied.error);
    }
    return Ok(true);
  }

  /** The steps of the first `k` resources all succeed. */
  ghost predicate StepsSucceed(fs: FileSystem, sys: SystemProperties, packagePath: string, toDir: File,
                               resources: seq<Resource>, copyAttempt: (nat, nat) -> Outcome<Exception>, k: int)
    reads fs
  {
    forall i :: 0 <= i < k && i < |resources| ==>
      ResourceStep(fs, sys, packagePath, toDir, resources[i], CopyAttempts(copyAttempt, i)).Ok?
  }

  lemma StepsSucceedGrow(fs: FileSystem, sys: SystemProperties, packagePath: string, toDir: File,
                         resources: seq<Resource>, copyAttempt: (nat, nat) -> Outcome<Exception>, k: nat)
    requires k < |resources| && StepsSucceed(fs, sys, packagePath, toDir, resources, copyAttempt, k)
    requires ResourceStep(fs, sys, packagePath, toDir, resources[k], CopyAttempts(copyAttempt, k)).Ok?
    ensures StepsSucceed(fs, sys, packagePath, toDir, resources, copyAttempt, k + 1)
  {
  }

  /** Step `k` is the first to fail, with exception `e`. */
  ghost predicate FirstFailure(fs: FileSystem, sys: SystemProperties, packagePath: string, toDir: File,
                               resources: seq<Resource>, copyAttempt: (nat, nat) -> Outcome<Exception>, k: int, e: Exception)
    reads fs
  {
    0 <= k < |resources| && StepsSucceed(fs, sys, packagePath, toDir, resources, copyAttempt, k) &&
    ResourceStep(fs, sys, packagePath, toDir, resources[k], CopyAttempts(copyAttempt, k)) == Err(e)
  }

  /** The number of copies made by successful steps is NumSelected. */
  lemma CountStep(fs: FileSystem, sys: SystemProperties, packagePath: string, toDir: File,
                  resources: seq<Resource>, i: nat, s: Result<bool, Exception>)
    requires i < |resources|
    requires s.Ok? && (s.value <==> Selected(fs, sys, packagePath, toDir, resources[i]))
    ensures NumSelected(fs, sys, packagePath, toDir, resources[..i + 1]) ==
      NumSelected(fs, sys, packagePath, toDir, resources[..i]) + (if s.value then 1 else 0)
  {
    assert resources[..i + 1][..i] == resources[..i];
  }

  /**
   * extractFromClasspathToFile over the resolved `resources`; the copy of
   * resource i is tried with tryN(5, ...) and its j-th attempt has outcome
   * copyAttempt(i, j). Nothing found is an IOException; otherwise the
   * first exception of a step ends the extraction, and the result is the
   * number of resources copied.
   */
  method ExtractFromClasspathToFile(fs: FileSystem, sys: SystemProperties, packagePath: string, toDir: File,
                                    resources: seq<Resource>, copyAttempt: (nat, nat) -> Outcome<Exception>)
    returns (r: Result<nat, Exception>)
    ensures |resources| == 0 ==> r == Err(IOFailure("Nothing found at " + LocationPattern(packagePath)))
    ensures r.Ok? <==> (|resources| > 0 && StepsSucceed(fs, sys, packagePath, toDir, resources, copyAttempt, |resources|))
    ensures r.Ok? ==> r.value == NumSelected(fs, sys, packagePath, toDir, resources)
    ensures r.Err? && |resources| > 0 ==>
      exists k :: FirstFailure(fs, sys, packagePath, toDir, resources, copyAttempt, k, r.error)
  {
    var locationPattern := LocationPattern(packagePath);
    if |resources| == 0 {
      return Err(IOFailure("Nothing found at " + locationPattern));
    }
    var counter := 0;
    var i := 0;
    while i < |resources|
      invariant 0 <= i <= |resources|
      invariant counter == NumSelected(fs, sys, packagePath, toDir, resources[..i])
      invariant StepsSucceed(fs, sys, packagePath, toDir, resources, copyAttempt, i)
    {
      var step := ExtractResource(fs, sys, packagePath, toDir, resources[i], CopyAttempts(copyAttempt, i));
      if step.Err? {
        assert FirstFailure(fs, sys, packagePath, toDir, resources, copyAttempt, i, step.error);
        return Err(step.error);
      }
      CountStep(fs, sys, packagePath, toDir, resources, i, step);
      StepsSucceedGrow(fs, sys, packagePath, toDir, resources, copyAttempt, i);
      if step.value {
        counter := counter + 1;
      }
      i := i + 1;
    }
    assert resources[..i] == resources;
    return Ok(counter);
  }
}
