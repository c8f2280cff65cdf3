// The file system the modelled code observes and changes: a finite tree of
// entries keyed by their paths, with the attributes the deletion code
// consults (DOS read-only flag, POSIX permissions, readability, whether the
// OS lets the entry be unlinked), and the java.nio / java.io / commons-io
// primitives that act on it.

module FileTree {
  import opened Common

  function Parent(p: Path): Path
    requires |p| > 0
  {
    p[..|p| - 1]
  }

  /** `q` is `p` or lies below it. */
  predicate InSubtree(q: Path, p: Path) {
    |p| <= |q| && q[..|p|] == p
  }

  /** `q` is a direct child of `p`. */
  predicate IsChildOf(q: Path, p: Path) {
    |q| == |p| + 1 && q[..|p|] == p
  }

  datatype Permission =
    | OwnerRead | OwnerWrite | OwnerExecute
    | GroupRead | GroupWrite | GroupExecute
    | OthersRead | OthersWrite | OthersExecute

  /** The DosFileAttributeView of an entry, if the platform offers one. */
  datatype DosAttributes =
    | NoDosView
    | DosView(readOnly: bool, settable: bool)   // settable: setReadOnly succeeds

  /** The PosixFileAttributeView of an entry, if the platform offers one. */
  datatype PosixAttributes =
    | NoPosixView
    | PosixView(permissions: set<Permission>,
                attributesReadable: bool,        // readAttributes succeeds
                settable: bool)                  // setPosixFilePermissions succeeds

  /** What an entry is, seen without following links. */
  datatype Kind = RegularFile(size: nat) | SymbolicLink(broken: bool) | Directory

  datatype Entry = Entry(
    kind: Kind,
    dos: DosAttributes,
    posix: PosixAttributes,
    readable: bool,    // its contents can be read (a directory can be listed)
    deletable: bool)   // the OS permits unlinking it, read-only flag aside

  type FileMap = map<Path, Entry>

  /** The attributes a directory created by the modelled code receives. */
  const DefaultDirectory := Entry(Directory, NoDosView,
    PosixView({OwnerRead, OwnerWrite, OwnerExecute, GroupRead, GroupExecute, OthersRead, OthersExecute}, true, true),
    true, true)

  /** A tree: the root is a directory and every other entry sits in a directory. */
  predicate WellFormed(m: FileMap) {
    [] in m && m[[]].kind.Directory? &&
    forall q {:trigger Parent(q)} :: q in m && q != [] ==> Parent(q) in m && m[Parent(q)].kind.Directory?
  }

  /** In a well-formed tree, anything with a child is a directory. */
  lemma ChildHasDirectoryParent(m: FileMap, q: Path, p: Path)
    requires WellFormed(m) && q in m && IsChildOf(q, p)
    ensures p in m && m[p].kind.Directory?
  {
    assert Parent(q) == p;
  }

  /** Unlinking succeeds at the OS level: permitted, and not DOS read-only. */
  predicate CanDelete(e: Entry) {
    e.deletable && !(e.dos.DosView? && e.dos.readOnly)
  }

  predicate HasChild(m: FileMap, p: Path) {
    exists q :: q in m && IsChildOf(q, p)
  }

  /** Nothing at or below `p` remains. */
  predicate Gone(m: FileMap, p: Path) {
    forall q :: q in m ==> !InSubtree(q, p)
  }

  predicate SameAt(m1: FileMap, m2: FileMap, q: Path) {
    (q in m1 <==> q in m2) && (q in m1 ==> m1[q] == m2[q])
  }

  /** Every entry outside the subtree at `p` is as it was. */
  ghost predicate ChangedOnlyWithin(m1: FileMap, m2: FileMap, p: Path) {
    forall q :: !InSubtree(q, p) ==> SameAt(m1, m2, q)
  }

  /** Every entry inside the subtree at `p` is as it was. */
  ghost predicate SameWithin(m1: FileMap, m2: FileMap, p: Path) {
    forall q :: InSubtree(q, p) ==> SameAt(m1, m2, q)
  }

  /** `m` keeps every entry of `m1` unchanged. */
  ghost predicate Keeps(m1: FileMap, m: FileMap) {
    forall q :: q in m1 ==> q in m && m[q] == m1[q]
  }

  lemma KeepsTransitive(m1: FileMap, m2: FileMap, m3: FileMap)
    requires Keeps(m1, m2) && Keeps(m2, m3)
    ensures Keeps(m1, m3)
  {
  }

  /** `m` keeps every entry of `m1` unchanged and adds only prefixes of `p`. */
  ghost predicate GrowsTowards(m1: FileMap, m: FileMap, p: Path) {
    Keeps(m1, m) &&
    (forall q :: q in m ==> q in m1 || q <= p)
  }

  /** Files.delete: the exception it throws, if any. */
  function DeleteOutcome(m: FileMap, p: Path): Outcome<Exception> {
    if p !in m then Fail(NoSuchFile(p))
    else if HasChild(m, p) then Fail(DirectoryNotEmpty(p))
    else if p == [] || !CanDelete(m[p]) then Fail(AccessDenied(p))
    else Pass
  }

  /** Every entry of a tree has all its proper prefixes present as directories. */
  lemma {:induction false} AncestorsExist(m: FileMap, q: Path)
    requires WellFormed(m) && q in m
    ensures forall j :: 0 <= j < |q| ==> q[..j] in m && m[q[..j]].kind.Directory?
    decreases |q|
  {
    if |q| > 0 {
      var r := Parent(q);
      AncestorsExist(m, r);
      forall j | 0 <= j < |q|
        ensures q[..j] in m && m[q[..j]].kind.Directory?
      {
        if j < |r| {
          assert q[..j] == r[..j];
        } else {
          assert q[..j] == r;
        }
      }
    }
  }

  /** Removing an entry with no children keeps the tree well formed. */
  lemma RemoveLeaf(m: FileMap, p: Path)
    requires WellFormed(m) && p in m && p != [] && !HasChild(m, p)
    ensures WellFormed(m - {p})
  {
    forall q | q in m - {p} && q != []
      ensures Parent(q) in m - {p} && (m - {p})[Parent(q)].kind.Directory?
    {
      assert IsChildOf(q, Parent(q));
    }
  }

  /** Adding an entry inside an existing directory keeps the tree well formed. */
  lemma AddEntry(m: FileMap, p: Path, e: Entry)
    requires WellFormed(m) && p != [] && p !in m
    requires Parent(p) in m && m[Parent(p)].kind.Directory?
    ensures WellFormed(m[p := e])
  {
    forall q | q in m[p := e] && q != []
      ensures Parent(q) in m[p := e] && m[p := e][Parent(q)].kind.Directory?
    {
      if q != p {
        assert Parent(q) != p;
      }
    }
  }

  /** The entries that survive removing the subtree at `p`. */
  function Without(m: FileMap, p: Path): (r: FileMap)
    ensures forall q :: q in r <==> q in m && !InSubtree(q, p)
    ensures forall q :: q in r ==> r[q] == m[q]
  {
    map q | q in m && !InSubtree(q, p) :: m[q]
  }

  /** Removing a whole subtree other than the root keeps the tree well formed. */
  lemma RemoveSubtree(m: FileMap, p: Path)
    requires WellFormed(m) && p != []
    ensures WellFormed(Without(m, p))
  {
    var r := Without(m, p);
    assert [] in r;
    forall q | q in r && q != []
      ensures Parent(q) in r && r[Parent(q)].kind.Directory?
    {
      assert |Parent(q)| >= |p| ==> q[..|p|] == Parent(q)[..|p|];
    }
  }

  /** Changing an entry's attributes but not its kind keeps the tree well formed. */
  lemma ReplaceEntry(m: FileMap, p: Path, e: Entry)
    requires WellFormed(m) && p in m && e.kind == m[p].kind
    ensures WellFormed(m[p := e])
  {
  }

  /** An entry strictly below `p` lies under a child of `p`, and `p` is a directory. */
  lemma BranchBelow(m: FileMap, p: Path, q: Path)
    requires WellFormed(m) && q in m && InSubtree(q, p) && q != p
    ensures p in m && m[p].kind.Directory?
    ensures q[..|p| + 1] in m && IsChildOf(q[..|p| + 1], p)
  {
    AncestorsExist(m, q);
    assert q[..|p|] == p;
    if |q| > |p| + 1 {
      assert q[..|p| + 1] in m;
    } else {
      assert q[..|p| + 1] == q;
    }
  }

  /** Below a childless entry, a non-directory or a missing path there is nothing but the path itself. */
  lemma OnlySelfBelow(m: FileMap, p: Path)
    requires WellFormed(m)
    requires !(p in m && m[p].kind.Directory?) || !HasChild(m, p)
    ensures forall q :: q in m && InSubtree(q, p) ==> q == p
  {
    forall q | q in m && InSubtree(q, p)
      ensures q == p
    {
      if q != p {
        BranchBelow(m, p, q);
        assert false;
      }
    }
  }

  /** The paths present at or below `p`. */
  function SubtreeOf(m: FileMap, p: Path): set<Path> {
    set q | q in m && InSubtree(q, p)
  }

  /** Once entries only disappear, a child's subtree is smaller than its parent's was. */
  lemma ChildSubtreeSmaller(m0: FileMap, m: FileMap, p: Path, c: Path)
    requires IsChildOf(c, p) && p in m0 && m.Keys <= m0.Keys
    ensures SubtreeOf(m, c) < SubtreeOf(m0, p)
  {
    forall q | q in SubtreeOf(m, c)
      ensures q in SubtreeOf(m0, p)
    {
      ChildSubtree(c, p, q);
    }
    assert p in SubtreeOf(m0, p);
  }

  /**
   * After a change confined to the subtree of child `c`, a change confined
   * to the subtree of `p` is still confined there, and the subtrees of the
   * other children are as they were.
   */
  lemma ChildChanged(m0: FileMap, before: FileMap, after: FileMap, p: Path, c: Path)
    requires IsChildOf(c, p)
    requires ChangedOnlyWithin(m0, before, p)
    requires ChangedOnlyWithin(before, after, c)
    ensures ChangedOnlyWithin(m0, after, p)
    ensures SameAt(before, after, p)
    ensures forall c2 :: IsChildOf(c2, p) && c2 != c && SameWithin(m0, before, c2) ==> SameWithin(m0, after, c2)
  {
    forall q | InSubtree(q, c)
      ensures InSubtree(q, p)
    {
      ChildSubtree(c, p, q);
    }
    assert !InSubtree(p, c);
    forall c2 | IsChildOf(c2, p) && c2 != c && SameWithin(m0, before, c2)
      ensures SameWithin(m0, after, c2)
    {
      forall q | InSubtree(q, c2)
        ensures SameAt(m0, after, q)
      {
        SiblingsDisjoint(c, c2, p, q);
        assert SameAt(m0, before, q);
      }
    }
  }

  /** Two different children of one directory have disjoint subtrees. */
  lemma SiblingsDisjoint(c1: Path, c2: Path, p: Path, q: Path)
    requires IsChildOf(c1, p) && IsChildOf(c2, p) && c1 != c2
    ensures !(InSubtree(q, c1) && InSubtree(q, c2))
  {
    if |c1| <= |q| {
      assert InSubtree(q, c1) ==> c1 == q[..|c1|];
      assert InSubtree(q, c2) ==> c2 == q[..|c1|];
    }
  }

  /** Every entry of the subtree at a child lies in the subtree of its parent. */
  lemma ChildSubtree(c: Path, p: Path, q: Path)
    requires IsChildOf(c, p) && InSubtree(q, c)
    ensures InSubtree(q, p) && q != p
  {
    assert q[..|p|] == c[..|p|];
  }

  /**
   * The state of ForceMkdir after creating the first `i` prefixes of `p`
   * that were missing from `m0`.
   */
  ghost predicate MkdirLoop(m0: FileMap, m: FileMap, p: Path, i: int) {
    WellFormed(m) &&
    (forall q :: q <= p && q in m ==> m[q].kind.Directory?) &&
    (forall q :: q in m <==> q in m0 || (q <= p && |q| < i)) &&
    (forall q :: q in m0 ==> m[q] == m0[q]) &&
    (forall q :: q in m && q !in m0 ==> m[q] == DefaultDirectory)
  }

  lemma MkdirStart(m: FileMap, p: Path)
    requires WellFormed(m)
    requires !exists q :: q <= p && q in m && !m[q].kind.Directory?
    ensures MkdirLoop(m, m, p, 0)
  {
  }

  lemma MkdirStep(m0: FileMap, before: FileMap, after: FileMap, p: Path, i: int)
    requires 0 <= i <= |p| && MkdirLoop(m0, before, p, i)
    requires after == if p[..i] in before then before else before[p[..i] := DefaultDirectory]
    ensures MkdirLoop(m0, after, p, i + 1)
  {
    var q := p[..i];
    assert q <= p;
    if q !in before {
      if q != [] {
        var r := Parent(q);
        assert r == p[..i - 1] && r <= p && |r| < i;
      }
      AddEntry(before, q, DefaultDirectory);
    }
    forall x | x <= p && |x| < i + 1
      ensures x in after
    {
      if |x| == i {
        assert x == q;
      }
    }
  }

  lemma MkdirDone(m0: FileMap, m: FileMap, p: Path)
    requires MkdirLoop(m0, m, p, |p| + 1)
    ensures WellFormed(m) && p in m && m[p].kind.Directory?
    ensures forall q :: q in m <==> q in m0 || q <= p
  {
    assert p <= p;
  }

  /** A regular file, neither a directory nor a link, is at `p`. */
  predicate RegularFileAt(m: FileMap, p: Path) {
    p in m && m[p].kind.RegularFile?
  }

  /** FileUtils.forceMkdir is refused: an existing prefix of `p` is not a directory. */
  ghost predicate MkdirBlocked(m: FileMap, p: Path) {
    exists q :: q <= p && q in m && !m[q].kind.Directory?
  }

  /** The file system, updated in place by the operations below. */
  class FileSystem {
    var entries: FileMap

    ghost predicate Valid()
      reads this
    {
      WellFormed(entries)
    }

    constructor (initial: FileMap)
      requires WellFormed(initial)
      ensures Valid() && entries == initial
    {
      entries := initial;
    }

    /** Files.exists / File.exists: follows links, so a broken link does not exist. */
    predicate Exists(p: Path)
      reads this
    {
      p in entries && !(entries[p].kind.SymbolicLink? && entries[p].kind.broken)
    }

    /** Files.isDirectory / File.isDirectory. */
    predicate IsDirectory(p: Path)
      reads this
    {
      p in entries && entries[p].kind.Directory?
    }

    /** Files.isSymbolicLink: does not follow the link. */
    predicate IsSymbolicLink(p: Path)
      reads this
    {
      p in entries && entries[p].kind.SymbolicLink?
    }

    /** File.canRead. */
    predicate CanRead(p: Path)
      reads this
    {
      Exists(p) && entries[p].readable
    }

    /** File.length: the size of a regular file, 0 for anything else. */
    function Length(p: Path): nat
      reads this
    {
      if p in entries && entries[p].kind.RegularFile? then entries[p].kind.size else 0
    }

    function SubtreeKeys(p: Path): set<Path>
      reads this
    {
      SubtreeOf(entries, p)
    }

    /** The entries of a directory listing. */
    function Children(p: Path): set<Path>
      reads this
    {
      set q | q in entries && IsChildOf(q, p)
    }

    /** Files.delete. */
    method Delete(p: Path) returns (r: Outcome<Exception>)
      requires Valid()
      modifies this
      ensures Valid()
      ensures r == DeleteOutcome(old(entries), p)
      ensures entries == if r.Pass? then old(entries) - {p} else old(entries)
    {
      r := DeleteOutcome(entries, p);
      if r.Pass? {
        RemoveLeaf(entries, p);
        entries := entries - {p};
      }
    }

    /** Files.deleteIfExists: a missing entry is no error, and the result says whether one was removed. */
    method DeleteIfExists(p: Path) returns (r: Result<bool, Exception>)
      requires Valid()
      modifies this
      ensures Valid()
      ensures p !in old(entries) ==> r == Ok(false) && entries == old(entries)
      ensures p in old(entries) && DeleteOutcome(old(entries), p).Pass? ==> r == Ok(true) && entries == old(entries) - {p}
      ensures p in old(entries) && DeleteOutcome(old(entries), p).Fail? ==>
        r == Err(DeleteOutcome(old(entries), p).error) && entries == old(entries)
    {
      if p !in entries {
        return Ok(false);
      }
      var d := Delete(p);
      if d.Fail? {
        return Err(d.error);
      }
      return Ok(true);
    }

    /** java.io.File.delete: like Files.delete, but reports failure as false. */
    method FileDelete(p: Path) returns (deleted: bool)
      requires Valid()
      modifies this
      ensures Valid()
      ensures deleted <==> DeleteOutcome(old(entries), p).Pass?
      ensures entries == if deleted then old(entries) - {p} else old(entries)
    {
      var d := Delete(p);
      deleted := d.Pass?;
    }

    /**
     * FileUtils.forceMkdir (commons-io): File.mkdirs, creating the missing
     * directories on the way to `p` from the top down. It fails, changing
     * nothing, when some prefix of `p` exists and is not a directory; any
     * single mkdir may also fail for reasons the model does not track
     * (permissions, space), leaving the directories made before it.
     */
    method ForceMkdir(p: Path) returns (r: Outcome<Exception>)
      requires Valid()
      modifies this
      ensures Valid()
      ensures MkdirBlocked(old(entries), p) ==> r.Fail? && entries == old(entries)
      ensures r.Fail? ==> r.error.IOFailure?
      ensures r.Fail? && p !in old(entries) ==> p !in entries
      ensures r.Pass? ==> IsDirectory(p)
      ensures r.Pass? ==> forall q :: q in entries <==> q in old(entries) || q <= p
      ensures forall q :: q in entries ==> q in old(entries) || q <= p
      ensures forall q :: q in old(entries) ==> q in entries && entries[q] == old(entries)[q]
      ensures forall q :: q in entries && q !in old(entries) ==> entries[q] == DefaultDirectory
    {
      if exists q :: q <= p && q in entries && !entries[q].kind.Directory? {
        return Fail(IOFailure("File exists and is not a directory"));
      }
      var i := 0;
      MkdirStart(entries, p);
      while i <= |p|
        invariant 0 <= i <= |p| + 1
        invariant MkdirLoop(old(entries), entries, p, i)
        decreases |p| + 1 - i
      {
        ghost var before := entries;
        if p[..i] !in entries {
          var made: bool := *;
          if !made {
            return Fail(IOFailure("Cannot create directory"));
          }
          entries := entries[p[..i] := DefaultDirectory];
        }
        MkdirStep(old(entries), before, entries, p, i);
        i := i + 1;
      }
      MkdirDone(old(entries), entries, p);
      r := Pass;
    }

    /**
     * FileUtils.deleteDirectory (commons-io): nothing to do when `p` does
     * not exist (a broken link included); a symbolic link is deleted
     * itself, with its target left alone; anything else that is not a
     * directory is refused by cleanDirectory's argument check. A
     * directory is removed as one step: the whole subtree goes when every
     * entry in it can be unlinked, and nothing changes when one cannot.
     */
    method RemoveTree(p: Path) returns (r: Outcome<Exception>)
      requires Valid()
      modifies this
      ensures Valid()
      ensures !old(Exists(p)) ==> r.Pass? && entries == old(entries)
      ensures old(Exists(p)) && old(IsSymbolicLink(p)) ==>
        r == DeleteOutcome(old(entries), p) && entries == (if r.Pass? then old(entries) - {p} else old(entries))
      ensures old(Exists(p)) && !old(IsDirectory(p)) && !old(IsSymbolicLink(p)) ==>
        r.Fail? && r.error.IllegalArgument? && entries == old(entries)
      ensures old(IsDirectory(p)) && p != [] && (forall q :: q in old(entries) && InSubtree(q, p) ==> CanDelete(old(entries)[q])) ==>
        r.Pass? && entries == Without(old(entries), p)
      ensures r.Fail? ==> entries == old(entries)
      ensures r.Pass? ==> Gone(entries, p) || !old(Exists(p))
    {
      if !Exists(p) {
        return Pass;
      }
      if IsSymbolicLink(p) {
        OnlySelfBelow(entries, p);
        r := Delete(p);
        return;
      }
      if !IsDirectory(p) {
        return Fail(IllegalArgument("Parameter 'directory' is not a directory"));
      }
      if p == [] || exists q :: q in entries && InSubtree(q, p) && !CanDelete(entries[q]) {
        return Fail(IOFailure("Unable to delete directory"));
      }
      RemoveSubtree(entries, p);
      entries := Without(entries, p);
      r := Pass;
    }
  }
}
