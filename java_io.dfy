// java.io.File on a Unix-like platform: a normalised path string, its
// resolution against a parent and against the working directory, and the
// sequence of names it denotes below the root of the file system. The
// Windows rules (backslash separator, drive letters, case-insensitive
// equality) are not modelled, even where the OS is Windows.

module JavaIo {
  import opened Common
  import opened Strings

  /** A java.io.File: the path string after normalisation. */
  datatype File = File(path: string)

  /** The JVM system properties the modelled code reads. */
  datatype SystemProperties = SystemProperties(
    javaIoTmpdir: string,   // java.io.tmpdir, as SystemUtils.JAVA_IO_TMPDIR
    userDir: string,        // user.dir, against which relative files resolve
    isWindows: bool)        // SystemUtils.IS_OS_WINDOWS

  predicate IsAbsolute(s: string) {
    |s| > 0 && s[0] == '/'
  }

  /** The pieces that are not empty, in order. */
  function NonEmpty(pieces: seq<string>): (r: seq<string>)
    ensures forall i :: 0 <= i < |r| ==> r[i] != ""
    ensures forall x :: x in r ==> x in pieces
    ensures |r| <= |pieces|
  {
    if |pieces| == 0 then []
    else if pieces[0] == "" then NonEmpty(pieces[1..])
    else [pieces[0]] + NonEmpty(pieces[1..])
  }

  lemma {:induction false} NonEmptyConcat(a: seq<string>, b: seq<string>)
    ensures NonEmpty(a + b) == NonEmpty(a) + NonEmpty(b)
    decreases |a|
  {
    if |a| == 0 {
      assert a + b == b;
    } else {
      assert (a + b)[1..] == a[1..] + b;
      NonEmptyConcat(a[1..], b);
    }
  }

  lemma {:induction false} NonEmptyKeeps(pieces: seq<string>)
    requires forall i :: 0 <= i < |pieces| ==> pieces[i] != ""
    ensures NonEmpty(pieces) == pieces
    decreases |pieces|
  {
    if |pieces| > 0 {
      NonEmptyKeeps(pieces[1..]);
      assert [pieces[0]] + pieces[1..] == pieces;
    }
  }

  /** The names a path string denotes: its non-empty pieces between '/'. */
  function Components(s: string): (r: Path)
    ensures forall i :: 0 <= i < |r| ==> r[i] != "" && '/' !in r[i]
  {
    var pieces := SplitOn(s, '/');
    assert forall x :: x in pieces ==> '/' !in x;
    NonEmpty(pieces)
  }

  lemma {:induction false} SplitOnConcat(a: string, b: string, c: char)
    ensures SplitOn(a + [c] + b, c) == SplitOn(a, c) + SplitOn(b, c)
    decreases |a|
  {
    var s := a + [c] + b;
    if |a| == 0 {
      assert s == [c] + b && s[1..] == b;
    } else {
      assert s[0] == a[0] && s[1..] == a[1..] + [c] + b;
      SplitOnConcat(a[1..], b, c);
      var rest := SplitOn(a[1..], c) + SplitOn(b, c);
      if a[0] != c {
        assert rest[0] == SplitOn(a[1..], c)[0];
        assert rest[1..] == SplitOn(a[1..], c)[1..] + SplitOn(b, c);
      }
    }
  }

  /** A '/' between two strings separates their names. */
  lemma ComponentsConcat(a: string, b: string)
    ensures Components(a + "/" + b) == Components(a) + Components(b)
  {
    SplitOnConcat(a, b, '/');
    NonEmptyConcat(SplitOn(a, '/'), SplitOn(b, '/'));
  }

  lemma ComponentsOfAbsolute(s: string)
    requires IsAbsolute(s)
    ensures Components(s) == Components(s[1..])
  {
    assert s == "" + "/" + s[1..];
    ComponentsConcat("", s[1..]);
  }

  lemma ComponentsOfJoin(names: seq<string>)
    requires forall i :: 0 <= i < |names| ==> names[i] != "" && '/' !in names[i]
    ensures Components(Join(names, '/')) == names
  {
    if |names| == 0 {
      assert SplitOn("", '/') == [""];
    } else {
      SplitOnJoin(names, '/');
      NonEmptyKeeps(names);
    }
  }

  /**
   * UnixFileSystem.normalize: runs of '/' collapse to one and a trailing
   * '/' is dropped unless the path is the root. Written here as the
   * leading '/' (if any) followed by the names joined with single '/'.
   */
  function Normalize(s: string): (r: string)
    ensures IsAbsolute(r) <==> IsAbsolute(s)
    ensures Components(r) == Components(s)
  {
    var names := Components(s);
    var joined := Join(names, '/');
    ComponentsOfJoin(names);
    if IsAbsolute(s) then
      ComponentsOfAbsolute("/" + joined);
      assert ("/" + joined)[1..] == joined;
      "/" + joined
    else
      assert |names| > 0 ==> joined[0] == names[0][0] by {
        if |names| > 1 {
          assert joined == names[0] + ("/" + Join(names[1..], '/'));
        }
      }
      assert |names| > 0 ==> names[0][0] in names[0];
      joined
  }

  /** Normalising twice changes nothing more than normalising once. */
  lemma NormalizeIdempotent(s: string)
    ensures Normalize(Normalize(s)) == Normalize(s)
  {
    var r := Normalize(s);
    assert Components(r) == Components(s);
    assert IsAbsolute(r) == IsAbsolute(s);
  }

  /** UnixFileSystem.resolve(parent, child) on normalised strings. */
  function Resolve(parent: string, child: string): (r: string)
    ensures Components(r) == Components(parent) + Components(child)
    ensures IsAbsolute(parent) ==> IsAbsolute(r)
  {
    if |child| == 0 then
      parent
    else if child[0] == '/' then
      ComponentsOfAbsolute(child);
      if parent == "/" then
        ComponentsOfAbsolute(parent);
        child
      else
        assert parent + child == parent + "/" + child[1..];
        ComponentsConcat(parent, child[1..]);
        parent + child
    else if parent == "/" then
      assert parent + child == "" + "/" + child;
      ComponentsConcat("", child);
      ComponentsOfAbsolute(parent);
      parent + child
    else
      ComponentsConcat(parent, child);
      parent + "/" + child
  }

  /** new File(String). */
  function NewFile(s: string): (f: File)
    ensures Components(f.path) == Components(s)
    ensures IsAbsolute(f.path) <==> IsAbsolute(s)
  {
    File(Normalize(s))
  }

  /** new File(String parent, String child) with a non-null parent. */
  function NewChildFile(parent: string, child: string): (f: File)
    ensures Components(f.path) == Components(parent) + Components(child)
    ensures parent == "" || IsAbsolute(parent) ==> IsAbsolute(f.path)
  {
    if parent == "" then
      assert Components("/") == [] by { ComponentsOfAbsolute("/"); }
      assert Components("") == [] by { assert SplitOn("", '/') == [""]; }
      File(Resolve("/", Normalize(child)))
    else
      File(Resolve(Normalize(parent), Normalize(child)))
  }

  /** new File(File parent, String child); a null parent means new File(child). */
  function NewFileIn(parent: Option<File>, child: string): (f: File)
    ensures parent.None? ==> f == NewFile(child)
    ensures parent.Some? ==> Components(f.path) == Components(parent.value.path) + Components(child)
    ensures parent.Some? && IsAbsolute(parent.value.path) ==> IsAbsolute(f.path)
  {
    match parent
    case None => NewFile(child)
    case Some(dir) =>
      if dir.path == "" then
        assert Components("/") == [] by { ComponentsOfAbsolute("/"); }
        assert Components("") == [] by { assert SplitOn("", '/') == [""]; }
        File(Resolve("/", Normalize(child)))
      else
        File(Resolve(dir.path, Normalize(child)))
  }

  /** File.getAbsolutePath: relative paths resolve against user.dir. */
  function AbsolutePath(f: File, sys: SystemProperties): (r: string)
    ensures IsAbsolute(f.path) ==> r == f.path
    ensures !IsAbsolute(f.path) ==> Components(r) == Components(sys.userDir) + Components(f.path)
    ensures IsAbsolute(sys.userDir) ==> IsAbsolute(r)
  {
    if IsAbsolute(f.path) then f.path else Resolve(sys.userDir, f.path)
  }

  /** The file-system location a File denotes: the names of its absolute path. */
  function Locate(f: File, sys: SystemProperties): (p: Path)
    ensures !IsAbsolute(f.path) ==> p == Components(sys.userDir) + Components(f.path)
    ensures IsAbsolute(f.path) ==> p == Components(f.path)
  {
    Components(AbsolutePath(f, sys))
  }
}
