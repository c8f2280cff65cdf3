// The recursive deletion that DBShutdownHook carries with it (a partial
// copy of commons-io FileUtils): cleanDirectory, forceDelete, delete,
// deleteFile, setReadOnly, listFiles with its require* checks, and the
// FileVisitor callbacks driven by Files.walkFileTree. Every operation acts
// on the file system in place.

module TreeDeletion {
  import opened Common
  import opened Strings
  import opened FileTree

  /** The permissions setReadOnly strips through the POSIX view. */
  const WritePermissions: set<Permission> := {OwnerWrite, GroupWrite, OthersWrite}

  /** A path as the text java.io.File prints for it. */
  function PathText(p: Path): string {
    "/" + Join(p, '/')
  }

  /**
   * setReadOnly(path, readOnly) on one entry: the entry afterwards and the
   * exception thrown, if any.
   */
  function ReadOnlyUpdate(p: Path, e: Entry, readOnly: bool): (r: (Entry, Outcome<Exception>))
    ensures r.0.kind == e.kind && r.0.readable == e.readable && r.0.deletable == e.deletable
    // the DOS view comes first, and its success ends the operation
    ensures e.dos.DosView? && e.dos.settable ==> r.1.Pass? && r.0 == e.(dos := DosView(readOnly, true))
    // otherwise the POSIX view drops every write permission, whatever `readOnly` asks for
    ensures !(e.dos.DosView? && e.dos.settable) && r.1.Pass? ==>
      r.0.dos == e.dos && e.posix.PosixView? &&
      r.0.posix == e.posix.(permissions := e.posix.permissions - WritePermissions)
    ensures r.1.Pass? <==>
      (e.dos.DosView? && e.dos.settable) ||
      (e.posix.PosixView? && e.posix.attributesReadable && e.posix.settable)
    ensures r.1.Fail? ==> r.0 == e
    // which exception: no view at all, unreadable POSIX attributes, or one cause per failed view
    ensures e.dos.NoDosView? && e.posix.NoPosixView? ==> r.1 == Fail(NoAttributeView(p))
    ensures !(e.dos.DosView? && e.dos.settable) && e.posix.PosixView? && !e.posix.attributesReadable ==>
      r.1 == Fail(AccessDenied(p))
    ensures r.1.Fail? && r.1.error.Aggregate? ==>
      r.1.error.path == p &&
      |r.1.error.suppressed| == (if e.dos.DosView? then 1 else 0) + (if e.posix.PosixView? then 1 else 0)
  {
    if e.dos.DosView? && e.dos.settable then
      (e.(dos := e.dos.(readOnly := readOnly)), Pass)
    else
      if e.posix.PosixView? then
        if !e.posix.attributesReadable then
          (e, Fail(AccessDenied(p)))
        else if e.posix.settable then
          (e.(posix := e.posix.(permissions := e.posix.permissions - WritePermissions)), Pass)
        else
          (e, Fail(Aggregate(p, if e.dos.DosView? then [AccessDenied(p), AccessDenied(p)] else [AccessDenied(p)])))
      else if e.dos.DosView? then
        (e, Fail(Aggregate(p, [AccessDenied(p)])))
      else
        (e, Fail(NoAttributeView(p)))
  }

  /** Clearing read-only through a working DOS view leaves a permitted entry deletable. */
  lemma ClearReadOnlyUnblocks(p: Path, e: Entry)
    requires e.dos.DosView? && e.dos.settable && e.deletable
    ensures ReadOnlyUpdate(p, e, false).1.Pass? && CanDelete(ReadOnlyUpdate(p, e, false).0)
  {
  }

  /** Without a DOS view, setReadOnly(false) makes the entry read-only for POSIX. */
  lemma PosixStripsWrite(p: Path, e: Entry)
    requires e.dos.NoDosView? && e.posix.PosixView? && e.posix.attributesReadable && e.posix.settable
    ensures var (e', r) := ReadOnlyUpdate(p, e, false);
      r.Pass? && e'.posix.permissions !! WritePermissions
  {
  }

  /** setReadOnly: the DOS view, then the POSIX view, collecting the causes of failure. */
  method SetReadOnly(fs: FileSystem, p: Path, readOnly: bool) returns (r: Outcome<Exception>)
    requires fs.Valid() && p in fs.entries
    modifies fs
    ensures fs.Valid()
    ensures p in fs.entries && (fs.entries[p], r) == ReadOnlyUpdate(p, old(fs.entries[p]), readOnly)
    ensures fs.entries == old(fs.entries)[p := fs.entries[p]]
  {
    var causeList: seq<Exception> := [];
    var e := fs.entries[p];
    if e.dos.DosView? {
      if e.dos.settable {
        ReplaceEntry(fs.entries, p, e.(dos := e.dos.(readOnly := readOnly)));
        fs.entries := fs.entries[p := e.(dos := e.dos.(readOnly := readOnly))];
        return Pass;
      }
      causeList := causeList + [AccessDenied(p)];
      assert causeList == [AccessDenied(p)];
    }
    if e.posix.PosixView? {
      if !e.posix.attributesReadable {
        return Fail(AccessDenied(p));
      }
      var permissions := e.posix.permissions;
      permissions := permissions - {OwnerWrite};
      permissions := permissions - {GroupWrite};
      permissions := permissions - {OthersWrite};
      if e.posix.settable {
        assert permissions == e.posix.permissions - WritePermissions;
        ReplaceEntry(fs.entries, p, e.(posix := e.posix.(permissions := permissions)));
        fs.entries := fs.entries[p := e.(posix := e.posix.(permissions := permissions))];
        return Pass;
      }
      causeList := causeList + [AccessDenied(p)];
      assert causeList == if e.dos.DosView? then [AccessDenied(p), AccessDenied(p)] else [AccessDenied(p)];
    }
    assert fs.entries == old(fs.entries)[p := e];
    if |causeList| > 0 {
      return Fail(Aggregate(p, causeList));
    }
    return Fail(NoAttributeView(p));
  }

  /**
   * The walk deletes this entry when nothing in the way fails: a directory
   * must be listable and unlinkable; a file or a link that resolves must
   * take setReadOnly(false) and be unlinkable afterwards; a broken link
   * must be unlinkable.
   */
  predicate EntryRemovable(p: Path, e: Entry) {
    match e.kind
    case Directory => e.readable && CanDelete(e)
    case SymbolicLink(broken) =>
      if broken then CanDelete(e)
      else ReadOnlyUpdate(p, e, false).1.Pass? && CanDelete(ReadOnlyUpdate(p, e, false).0)
    case RegularFile(_) =>
      ReadOnlyUpdate(p, e, false).1.Pass? && CanDelete(ReadOnlyUpdate(p, e, false).0)
  }

  /** Every entry of the subtree at `p` is removable. */
  ghost predicate Removable(m: FileMap, p: Path) {
    forall q :: q in m && InSubtree(q, p) ==> EntryRemovable(q, m[q])
  }

  lemma RemovableChild(m: FileMap, p: Path, c: Path)
    requires Removable(m, p) && IsChildOf(c, p)
    ensures Removable(m, c)
  {
    forall q | q in m && InSubtree(q, c)
      ensures EntryRemovable(q, m[q])
    {
      ChildSubtree(c, p, q);
    }
  }

  lemma RemovableSame(m1: FileMap, m2: FileMap, c: Path)
    requires Removable(m1, c) && SameWithin(m1, m2, c)
    ensures Removable(m2, c)
  {
    forall q | q in m2 && InSubtree(q, c)
      ensures EntryRemovable(q, m2[q])
    {
      assert SameAt(m1, m2, q);
    }
  }

  /**
   * listFiles(directory, null) with requireDirectoryExists: the children of
   * an existing, listable directory.
   */
  function ListFiles(fs: FileSystem, dir: Path): (r: Result<set<Path>, Exception>)
    reads fs
    ensures !fs.Exists(dir) ==> r.Err? && r.error.IllegalArgument?
    ensures fs.Exists(dir) && !fs.IsDirectory(dir) ==> r.Err? && r.error.IllegalArgument?
    ensures fs.IsDirectory(dir) && !fs.entries[dir].readable ==> r == Err(ListingFailed(dir))
    ensures r.Ok? <==> fs.IsDirectory(dir) && fs.entries[dir].readable
    ensures r.Ok? ==> forall q :: q in r.value <==> q in fs.entries && IsChildOf(q, dir)
  {
    if !fs.Exists(dir) then
      Err(IllegalArgument("File system element for parameter 'directory' does not exist: '" + PathText(dir) + "'"))
    else if !fs.IsDirectory(dir) then
      Err(IllegalArgument("Parameter 'directory' is not a directory: '" + PathText(dir) + "'"))
    else if !fs.entries[dir].readable then
      Err(ListingFailed(dir))
    else
      Ok(fs.Children(dir))
  }

  /** isEmptyDirectory: opening the directory stream, then asking for a first entry. */
  function IsEmptyDirectory(fs: FileSystem, dir: Path): (r: Result<bool, Exception>)
    reads fs
    ensures dir !in fs.entries ==> r == Err(NoSuchFile(dir))
    ensures fs.IsDirectory(dir) && fs.entries[dir].readable ==> r == Ok(!HasChild(fs.entries, dir))
    ensures r.Err? <==> !(fs.IsDirectory(dir) && fs.entries[dir].readable)
  {
    if dir !in fs.entries then Err(NoSuchFile(dir))
    else if !fs.entries[dir].kind.Directory? then Err(NotDirectory(dir))
    else if !fs.entries[dir].readable then Err(AccessDenied(dir))
    else Ok(!HasChild(fs.entries, dir))
  }

  /**
   * visitFile: an entry that exists (following links) has setReadOnly(false)
   * applied and is deleted if it exists; a link still present afterwards is
   * deleted itself, a NoSuchFileException there being ignored.
   */
  method VisitFile(fs: FileSystem, p: Path) returns (r: Outcome<Exception>)
    requires fs.Valid() && p in fs.entries && !fs.entries[p].kind.Directory?
    modifies fs
    ensures fs.Valid()
    ensures fs.entries.Keys <= old(fs.entries).Keys
    ensures forall q :: q != p ==> SameAt(old(fs.entries), fs.entries, q)
    ensures r.Pass? ==> p !in fs.entries
    ensures EntryRemovable(p, old(fs.entries[p])) ==> r.Pass?
  {
    OnlySelfBelow(fs.entries, p);
    if fs.Exists(p) {
      var s := SetReadOnly(fs, p, false);
      if s.Fail? {
        return s;
      }
      OnlySelfBelow(fs.entries, p);
      var d := fs.DeleteIfExists(p);
      if d.Err? {
        return Fail(d.error);
      }
    }
    if fs.IsSymbolicLink(p) {
      var d := fs.Delete(p);
      if d.Fail? && !d.error.NoSuchFile? {
        return d;
      }
    }
    return Pass;
  }

  /**
   * postVisitDirectory: a directory left empty after its children is
   * deleted; a non-empty one stays. An exception the walk reported is
   * rethrown afterwards.
   */
  method PostVisitDirectory(fs: FileSystem, dir: Path, exc: Option<Exception>) returns (r: Outcome<Exception>)
    requires fs.Valid() && fs.IsDirectory(dir) && fs.entries[dir].readable
    modifies fs
    ensures fs.Valid()
    ensures HasChild(old(fs.entries), dir) ==>
      fs.entries == old(fs.entries) && r == (if exc.Some? then Fail(exc.value) else Pass)
    ensures !HasChild(old(fs.entries), dir) && DeleteOutcome(old(fs.entries), dir).Pass? ==>
      fs.entries == old(fs.entries) - {dir} && r == (if exc.Some? then Fail(exc.value) else Pass)
    ensures !HasChild(old(fs.entries), dir) && DeleteOutcome(old(fs.entries), dir).Fail? ==>
      fs.entries == old(fs.entries) && r == DeleteOutcome(old(fs.entries), dir)
  {
    var empty := IsEmptyDirectory(fs, dir);
    if empty.Err? {
      assert false;
      return Fail(NullPointer);
    }
    if empty.value {
      var d := fs.DeleteIfExists(dir);
      if d.Err? {
        return Fail(d.error);
      }
    }
    if exc.Some? {
      return Fail(exc.value);
    }
    return Pass;
  }

  /**
   * Files.walkFileTree(p, this) without FOLLOW_LINKS: a directory is
   * opened, its children are walked, then postVisitDirectory runs; any
   * other entry goes to visitFile. A failure to read an entry or open a
   * directory reaches visitFileFailed, which rethrows it, and an exception
   * from any callback ends the walk.
   */
  method Walk(fs: FileSystem, p: Path) returns (r: Outcome<Exception>)
    requires fs.Valid()
    modifies fs
    ensures fs.Valid()
    ensures fs.entries.Keys <= old(fs.entries).Keys
    ensures ChangedOnlyWithin(old(fs.entries), fs.entries, p)
    ensures r.Pass? ==> Gone(fs.entries, p)
    ensures p in old(fs.entries) && p != [] && Removable(old(fs.entries), p) ==> r.Pass?
    decreases fs.SubtreeKeys(p), 1
  {
    if p !in fs.entries {
      return Fail(NoSuchFile(p));
    }
    if !fs.entries[p].kind.Directory? {
      OnlySelfBelow(fs.entries, p);
      r := VisitFile(fs, p);
      return;
    }
    if !fs.entries[p].readable {
      return Fail(AccessDenied(p));
    }
    r := WalkDirectory(fs, p);
  }

  /** The children of an opened directory, one walk each, then postVisitDirectory. */
  method WalkDirectory(fs: FileSystem, p: Path) returns (r: Outcome<Exception>)
    requires fs.Valid() && fs.IsDirectory(p) && fs.entries[p].readable
    modifies fs
    ensures fs.Valid()
    ensures fs.entries.Keys <= old(fs.entries).Keys
    ensures ChangedOnlyWithin(old(fs.entries), fs.entries, p)
    ensures r.Pass? ==> Gone(fs.entries, p)
    ensures p != [] && Removable(old(fs.entries), p) ==> r.Pass?
    decreases fs.SubtreeKeys(p), 0
  {
    ghost var m0 := fs.entries;
    var children := fs.Children(p);
    var remaining := children;
    ChildLoopStart(m0, p, children);
    while remaining != {}
      invariant fs.Valid()
      invariant ChildLoop(m0, fs.entries, p, children, remaining, {})
      decreases |remaining|
    {
      var c :| c in remaining;
      ghost var before := fs.entries;
      ChildLoopPick(m0, before, p, children, remaining, {}, c);
      var rc := Walk(fs, c);
      if rc.Fail? {
        ChildLoopAbort(m0, before, fs.entries, p, children, remaining, {}, c);
        return rc;
      }
      ChildLoopStep(m0, before, fs.entries, p, children, remaining, {}, {}, c);
      remaining := remaining - {c};
    }
    ChildLoopDone(m0, fs.entries, p, children, {});
    OnlySelfBelow(fs.entries, p);
    r := PostVisitDirectory(fs, p, None);
  }

  /**
   * A loop over the children of `p`, begun on `m0`: the children still to
   * do are untouched, the others are gone unless they failed, and nothing
   * outside the subtree of `p`, nor `p` itself, has changed.
   */
  ghost predicate ChildLoop(m0: FileMap, m: FileMap, p: Path, children: set<Path>,
                            remaining: set<Path>, failed: set<Path>) {
    WellFormed(m) && p in m0 &&
    (forall c :: c in children <==> c in m0 && IsChildOf(c, p)) &&
    remaining <= children && failed <= children && failed !! remaining &&
    m.Keys <= m0.Keys &&
    ChangedOnlyWithin(m0, m, p) && SameAt(m0, m, p) &&
    (forall c :: c in children && c !in remaining && c !in failed ==> Gone(m, c)) &&
    (forall c :: c in remaining ==> SameWithin(m0, m, c))
  }

  lemma ChildLoopStart(m: FileMap, p: Path, children: set<Path>)
    requires WellFormed(m) && p in m
    requires forall c :: c in children <==> c in m && IsChildOf(c, p)
    ensures ChildLoop(m, m, p, children, children, {})
  {
  }

  /** A child still to do is present, untouched, and smaller than the directory's subtree. */
  lemma ChildLoopPick(m0: FileMap, m: FileMap, p: Path, children: set<Path>,
                      remaining: set<Path>, failed: set<Path>, c: Path)
    requires ChildLoop(m0, m, p, children, remaining, failed) && c in remaining
    ensures IsChildOf(c, p) && c in m && c != []
    ensures SubtreeOf(m, c) < SubtreeOf(m0, p)
    ensures Removable(m0, c) ==> Removable(m, c)
    ensures p != [] && Removable(m0, p) ==> Removable(m, c)
  {
    assert SameAt(m0, m, c);
    ChildSubtreeSmaller(m0, m, p, c);
    if Removable(m0, c) {
      RemovableSame(m0, m, c);
    }
    if p != [] && Removable(m0, p) {
      RemovableChild(m0, p, c);
      RemovableSame(m0, m, c);
    }
  }

  /** After one child is dealt with, the loop state holds for the rest. */
  lemma ChildLoopStep(m0: FileMap, before: FileMap, after: FileMap, p: Path, children: set<Path>,
                      remaining: set<Path>, failed: set<Path>, failed': set<Path>, c: Path)
    requires ChildLoop(m0, before, p, children, remaining, failed) && c in remaining
    requires WellFormed(after) && after.Keys <= before.Keys && ChangedOnlyWithin(before, after, c)
    requires failed' == failed || failed' == failed + {c}
    requires failed' == failed ==> Gone(after, c)
    ensures ChildLoop(m0, after, p, children, remaining - {c}, failed')
  {
    assert IsChildOf(c, p);
    ChildChanged(m0, before, after, p, c);
  }

  /** A loop given up after one child changed only that child's subtree. */
  lemma ChildLoopAbort(m0: FileMap, before: FileMap, after: FileMap, p: Path, children: set<Path>,
                       remaining: set<Path>, failed: set<Path>, c: Path)
    requires ChildLoop(m0, before, p, children, remaining, failed) && c in remaining
    requires after.Keys <= before.Keys && ChangedOnlyWithin(before, after, c)
    ensures after.Keys <= m0.Keys && ChangedOnlyWithin(m0, after, p)
  {
    assert IsChildOf(c, p);
    ChildChanged(m0, before, after, p, c);
  }

  /** At the end of the loop every child that did not fail is gone. */
  lemma ChildLoopDone(m0: FileMap, m: FileMap, p: Path, children: set<Path>, failed: set<Path>)
    requires ChildLoop(m0, m, p, children, {}, failed)
    ensures forall c :: c in children && c !in failed ==> Gone(m, c)
    ensures failed == {} ==> !HasChild(m, p)
    ensures WellFormed(m) && m.Keys <= m0.Keys && ChangedOnlyWithin(m0, m, p) && SameAt(m0, m, p)
  {
    if failed == {} {
      forall q | q in m && IsChildOf(q, p)
        ensures false
      {
        assert q in children;
        assert InSubtree(q, q);
      }
    }
  }

  /**
   * deleteFile: a directory is refused with NoSuchFileException; an
   * existing entry takes setReadOnly(false) and then deleteIfExists.
   */
  method DeleteFile(fs: FileSystem, p: Path) returns (r: Outcome<Exception>)
    requires fs.Valid()
    modifies fs
    ensures fs.Valid()
    ensures fs.entries.Keys <= old(fs.entries).Keys
    ensures forall q :: q != p ==> SameAt(old(fs.entries), fs.entries, q)
    ensures old(fs.IsDirectory(p)) ==> r == Fail(NoSuchFile(p)) && fs.entries == old(fs.entries)
    ensures p !in old(fs.entries) ==> r.Pass? && fs.entries == old(fs.entries)
    ensures r.Pass? ==> p !in fs.entries
    ensures p in old(fs.entries) && !old(fs.IsDirectory(p)) && EntryRemovable(p, old(fs.entries[p])) ==> r.Pass?
  {
    if fs.IsDirectory(p) {
      return Fail(NoSuchFile(p));
    }
    OnlySelfBelow(fs.entries, p);
    if fs.Exists(p) {
      var s := SetReadOnly(fs, p, false);
      if s.Fail? {
        return s;
      }
      OnlySelfBelow(fs.entries, p);
    }
    var d := fs.DeleteIfExists(p);
    if d.Err? {
      return Fail(d.error);
    }
    return Pass;
  }

  /** delete(path): a directory is walked, anything else goes to deleteFile. */
  method DeletePath(fs: FileSystem, p: Path) returns (r: Outcome<Exception>)
    requires fs.Valid()
    modifies fs
    ensures fs.Valid()
    ensures fs.entries.Keys <= old(fs.entries).Keys
    ensures ChangedOnlyWithin(old(fs.entries), fs.entries, p)
    ensures p !in old(fs.entries) ==> r.Pass? && fs.entries == old(fs.entries)
    ensures r.Pass? ==> Gone(fs.entries, p)
    ensures p in old(fs.entries) && p != [] && Removable(old(fs.entries), p) ==> r.Pass?
  {
    if fs.IsDirectory(p) {
      r := Walk(fs, p);
    } else {
      OnlySelfBelow(fs.entries, p);
      assert InSubtree(p, p);
      r := DeleteFile(fs, p);
    }
  }

  /** forceDelete: delete(path), any IOException wrapped as "Cannot delete file". */
  method ForceDelete(fs: FileSystem, p: Path) returns (r: Outcome<Exception>)
    requires fs.Valid()
    modifies fs
    ensures fs.Valid()
    ensures fs.entries.Keys <= old(fs.entries).Keys
    ensures ChangedOnlyWithin(old(fs.entries), fs.entries, p)
    ensures r.Pass? ==> Gone(fs.entries, p)
    ensures r.Fail? ==> r.error.CannotDelete? && r.error.path == p
    ensures p in old(fs.entries) && p != [] && Removable(old(fs.entries), p) ==> r.Pass?
  {
    r := DeletePath(fs, p);
    if r.Fail? {
      r := Fail(CannotDelete(p, r.error));
    }
  }

  /** The causes collected so far are exactly one or more per failed child. */
  ghost predicate CausesFor(causes: seq<Exception>, failed: set<Path>) {
    (forall i :: 0 <= i < |causes| ==> causes[i].CannotDelete? && causes[i].path in failed) &&
    (forall c :: c in failed ==> Names(causes, c)) &&
    (causes == [] ==> failed == {})
  }

  lemma CausesGrow(causes: seq<Exception>, failed: set<Path>, e: Exception)
    requires CausesFor(causes, failed) && e.CannotDelete?
    ensures CausesFor(causes + [e], failed + {e.path})
  {
    var causes' := causes + [e];
    assert causes'[|causes|] == e;
    forall c | c in failed + {e.path}
      ensures Names(causes', c)
    {
      if c in failed {
        var i :| 0 <= i < |causes| && causes[i].CannotDelete? && causes[i].path == c;
        assert causes'[i] == causes[i];
      }
    }
  }

  /** One of the causes is the failure to delete `c`. */
  predicate Names(causes: seq<Exception>, c: Path) {
    exists i :: 0 <= i < |causes| && causes[i].CannotDelete? && causes[i].path == c
  }

  /**
   * cleanDirectory: forceDelete on every listed child, carrying on after a
   * failure; the failures are thrown together as the suppressed causes of
   * one IOException naming the directory.
   */
  method CleanDirectory(fs: FileSystem, dir: Path) returns (r: Outcome<Exception>)
    requires fs.Valid()
    modifies fs
    ensures fs.Valid()
    ensures fs.entries.Keys <= old(fs.entries).Keys
    ensures ChangedOnlyWithin(old(fs.entries), fs.entries, dir)
    ensures old(ListFiles(fs, dir)).Err? ==>
      r == Fail(old(ListFiles(fs, dir)).error) && fs.entries == old(fs.entries)
    ensures old(ListFiles(fs, dir)).Ok? ==> dir in fs.entries && fs.entries[dir] == old(fs.entries[dir])
    // every child is attempted: each one is gone or named by a cause
    ensures old(ListFiles(fs, dir)).Ok? ==> forall c :: c in old(fs.Children(dir)) ==>
      Gone(fs.entries, c) || (r.Fail? && r.error.Aggregate? && Names(r.error.suppressed, c))
    ensures old(ListFiles(fs, dir)).Ok? && r.Fail? ==>
      r.error.Aggregate? && r.error.path == dir && |r.error.suppressed| > 0 &&
      forall i :: 0 <= i < |r.error.suppressed| ==>
        r.error.suppressed[i].CannotDelete? && r.error.suppressed[i].path in old(fs.Children(dir))
    ensures old(ListFiles(fs, dir)).Ok? && r.Pass? ==> !HasChild(fs.entries, dir)
    ensures old(ListFiles(fs, dir)).Ok? && (forall c :: c in old(fs.Children(dir)) ==> Removable(old(fs.entries), c)) ==>
      r.Pass?
  {
    var listing := ListFiles(fs, dir);
    if listing.Err? {
      return Fail(listing.error);
    }
    ghost var m0 := fs.entries;
    var files := listing.value;
    assert files == fs.Children(dir);
    var remaining := files;
    var causeList: seq<Exception> := [];
    ghost var failed: set<Path> := {};
    ChildLoopStart(m0, dir, files);
    while remaining != {}
      invariant fs.Valid()
      invariant ChildLoop(m0, fs.entries, dir, files, remaining, failed)
      invariant CausesFor(causeList, failed)
      invariant (forall c :: c in files ==> Removable(m0, c)) ==> causeList == []
      decreases |remaining|
    {
      var c :| c in remaining;
      ghost var before := fs.entries;
      ChildLoopPick(m0, before, dir, files, remaining, failed, c);
      var rc := ForceDelete(fs, c);
      if rc.Fail? {
        CausesGrow(causeList, failed, rc.error);
        causeList := causeList + [rc.error];
        ChildLoopStep(m0, before, fs.entries, dir, files, remaining, failed, failed + {c}, c);
        failed := failed + {c};
      } else {
        ChildLoopStep(m0, before, fs.entries, dir, files, remaining, failed, failed, c);
      }
      remaining := remaining - {c};
    }
    ChildLoopDone(m0, fs.entries, dir, files, failed);
    if |causeList| > 0 {
      return Fail(Aggregate(dir, causeList));
    }
    return Pass;
  }

  /**
   * deleteQuietly: never throws. A null file gives false; a directory is
   * cleaned first, whatever that throws being ignored; the result is
   * File.delete's.
   */
  method DeleteQuietly(fs: FileSystem, file: Option<Path>) returns (deleted: bool)
    requires fs.Valid()
    modifies fs
    ensures fs.Valid()
    ensures fs.entries.Keys <= old(fs.entries).Keys
    ensures file.None? ==> !deleted && fs.entries == old(fs.entries)
    ensures file.Some? ==> ChangedOnlyWithin(old(fs.entries), fs.entries, file.value)
    ensures deleted ==> file.Some? && Gone(fs.entries, file.value)
    ensures file.Some? && !old(fs.IsDirectory(file.value)) ==>
      (deleted <==> DeleteOutcome(old(fs.entries), file.value).Pass?) &&
      fs.entries == (if deleted then old(fs.entries) - {file.value} else old(fs.entries))
    ensures (file.Some? && old(fs.IsDirectory(file.value)) && file.value != [] &&
      Removable(old(fs.entries), file.value)) ==> deleted
  {
    if file.None? {
      return false;
    }
    var p := file.value;
    if fs.IsDirectory(p) {
      ghost var m0 := fs.entries;
      if p != [] && Removable(m0, p) {
        forall c | c in fs.Children(p)
          ensures Removable(m0, c)
        {
          RemovableChild(m0, p, c);
        }
        assert InSubtree(p, p);
      }
      var _ := CleanDirectory(fs, p);
    }
    AfterDelete(fs.entries, p);
    deleted := fs.FileDelete(p);
  }

  /** Once `p` can be unlinked, nothing of its subtree survives the unlinking. */
  lemma AfterDelete(m: FileMap, p: Path)
    requires WellFormed(m)
    ensures DeleteOutcome(m, p).Pass? ==> Gone(m - {p}, p)
  {
    if DeleteOutcome(m, p).Pass? {
      OnlySelfBelow(m, p);
    }
  }
}
