/** What every path resolves to after a creation or a link, told exactly: an unlink read backwards. */
module Naming {
  import opened Common
  import opened Paths
  import opened FsModel
  import opened FsInvariant
  import opened Namespace
  import opened Unlinking

  /** `b` is `a` with inode `n` named `name` in `d` besides: a path resolves in `a` as it does in `b`, unless it needs
      the new name in `b`, and then it did not resolve. */
  ghost predicate NamesBesides(a: seq<Inode>, b: seq<Inode>, d: nat, name: string, n: nat, cwd: Option<nat>,
                               path: string)
    requires n < |b|
  {
    LookupByPath(a, cwd, path) == if KeepsPath(b, d, name, n, cwd, path) then LookupByPath(b, cwd, path) else None
  }

  // ----- creation -----

  lemma CreatedIsRemovedBack(fs: FileSystem, fs': FileSystem, d: nat, name: string, n: nat)
    requires Created(fs, fs', d, name, n) && (name == ".." || Step(fs.inodes, d, name).None?)
    ensures Removed(fs'.inodes, fs.inodes, d, name, n)
    ensures name == ".." || Step(fs'.inodes, d, name) == Some(n)
  {
  }

  lemma CreatedPaths(fs: FileSystem, fs': FileSystem, d: nat, name: string, n: nat, cwd: Option<nat>, path: string)
    requires Created(fs, fs', d, name, n) && (name == ".." || Step(fs.inodes, d, name).None?)
    requires fs'.inodes[n].nlink == 1
    ensures NamesBesides(fs.inodes, fs'.inodes, d, name, n, cwd, path)
  {
    CreatedIsRemovedBack(fs, fs', d, name, n);
    RemovedPaths(fs'.inodes, fs.inodes, d, name, n, cwd, path);
  }

  lemma CreateInEffect(fs: FileSystem, cwd: Option<nat>, path: string, d: nat, name: string, kind: InodeKind,
                       device: DeviceKind, cwd2: Option<nat>, other: string)
    requires FsOk(fs) && kind != NoKind && ResolveParent(fs.inodes, cwd, path) == Some((d, name))
    ensures var (fs', made) := CreateIn(fs, d, name, kind, device);
            made.Some? ==>
              && (LookupByPath(fs'.inodes, cwd, path) == made <==> name != "..")
              && NamesBesides(fs.inodes, fs'.inodes, d, name, made.value, cwd2, other)
  {
    ResolvedParentIsNamed(fs.inodes, cwd, path);
    CreateInOutcome(fs, d, name, kind, device);
    var (fs', made) := CreateIn(fs, d, name, kind, device);
    if made.Some? {
      FreeNameStep(fs, d, name);
      CreatedKeepsPaths(fs, fs', d, name, made.value);
      CreatedResolves(fs, fs', cwd, path, d, name, made.value);
      CreatedPaths(fs, fs', d, name, made.value, cwd2, other);
    }
  }

  /** fsCreatePath succeeds exactly when the parent resolves, the name is free there and both tables have room. Then the
      path names the new inode exactly when it does not end in "..". Every path resolved before as it does now, unless
      it comes by the new inode, and then it did not resolve. A failed creation changes no inode. */
  lemma CreatePathEffect(fs: FileSystem, cwd: Option<nat>, path: string, kind: InodeKind, device: DeviceKind,
                         cwd2: Option<nat>, other: string)
    requires FsOk(fs) && kind != NoKind
    ensures var (fs', made) := CreatePath(fs, cwd, path, kind, device);
            var at := ResolveParent(fs.inodes, cwd, path);
            && (made.Some? <==>
                  at.Some? && NameFits(fs.inodes, at.value.0, at.value.1) && FreeInode(fs.inodes, 0).Some?)
            && (if made.Some? then
                  && (LookupByPath(fs'.inodes, cwd, path) == made <==> at.value.1 != "..")
                  && NamesBesides(fs.inodes, fs'.inodes, at.value.0, at.value.1, made.value, cwd2, other)
                else fs'.inodes == fs.inodes)
  {
    var at := ResolveParent(fs.inodes, cwd, path);
    if at.Some? {
      ResolvedParentIsNamed(fs.inodes, cwd, path);
      CreateInOutcome(fs, at.value.0, at.value.1, kind, device);
      CreateInEffect(fs, cwd, path, at.value.0, at.value.1, kind, device, cwd2, other);
    }
  }

  /** In particular no path that resolved changes its inode. */
  lemma CreateKeepsPath(fs: FileSystem, cwd: Option<nat>, path: string, kind: InodeKind, device: DeviceKind,
                        cwd2: Option<nat>, other: string)
    requires FsOk(fs) && kind != NoKind && CreatePath(fs, cwd, path, kind, device).1.Some?
    ensures var after := CreatePath(fs, cwd, path, kind, device).0.inodes;
            LookupByPath(fs.inodes, cwd2, other).Some? ==>
              LookupByPath(after, cwd2, other) == LookupByPath(fs.inodes, cwd2, other)
  {
    CreatePathEffect(fs, cwd, path, kind, device, cwd2, other);
  }

  // ----- link -----

  lemma LinkedIsRemovedBack(a: seq<Inode>, b: seq<Inode>, d: nat, name: string, n: nat)
    requires Linked(a, b, d, name, n) && (name == ".." || Step(a, d, name).None?)
    requires d != n && LookupByID(a, 1) != Some(n) && a[n].used
    ensures Removed(b, a, d, name, n)
    ensures name == ".." || Step(b, d, name) == Some(n)
  {
  }

  /** A link raises the count above one. */
  lemma LinkedCount(fs: FileSystem, n: nat, d: nat, name: string)
    requires FsOk(fs) && n < |fs.inodes| && fs.inodes[n].used && fs.inodes[n].kind != Directory
    requires NameFits(fs.inodes, d, name) && IsName(name)
    ensures var after := LinkIn(fs, n, d, name).0.inodes; |after| == |fs.inodes| && after[n].nlink > 1
    ensures n != d && LookupByID(fs.inodes, 1) != Some(n)
  {
    LinkShape(fs, n, d, name);
  }

  lemma LinkInEffect(fs: FileSystem, cwd: Option<nat>, newPath: string, n: nat, d: nat, name: string,
                     cwd2: Option<nat>, other: string)
    requires FsOk(fs) && n < |fs.inodes| && fs.inodes[n].used && fs.inodes[n].kind != Directory
    requires ResolveParent(fs.inodes, cwd, newPath) == Some((d, name)) && NameFits(fs.inodes, d, name)
    ensures var after := LinkIn(fs, n, d, name).0.inodes;
            && |after| == |fs.inodes| && (LookupByPath(after, cwd, newPath) == Some(n) <==> name != "..")
            && NamesBesides(fs.inodes, after, d, name, n, cwd2, other)
  {
    ResolvedParentIsNamed(fs.inodes, cwd, newPath);
    LinkInOutcome(fs, n, d, name);
    LinkedCount(fs, n, d, name);
    var after := LinkIn(fs, n, d, name).0.inodes;
    FreeNameStep(fs, d, name);
    LinkedWithin(fs.inodes, after, d, name, n);
    LinkedResolves(fs, after, cwd, newPath, d, name, n);
    LinkedIsRemovedBack(fs.inodes, after, d, name, n);
    RemovedPaths(after, fs.inodes, d, name, n, cwd2, other);
  }

  /** sysLink succeeds exactly when the old path names something that is not a directory, the new parent
      resolves, and the name is free and fits. The new path then names that inode, unless it ends in "..". Every
      path resolved before as it does now, unless it takes the new entry, and then it did not resolve. A failed
      link changes nothing at all. */
  lemma LinkEffect(fs: FileSystem, cwd: Option<nat>, oldPath: string, newPath: string, cwd2: Option<nat>, other: string)
    requires FsOk(fs)
    ensures var (fs', ok) := Link(fs, cwd, oldPath, newPath);
            var n := LookupByPath(fs.inodes, cwd, oldPath); var at := ResolveParent(fs.inodes, cwd, newPath);
            && (ok <==>
                  && n.Some? && fs.inodes[n.value].kind != Directory
                  && at.Some? && NameFits(fs.inodes, at.value.0, at.value.1))
            && (if ok then
                  && |fs'.inodes| == |fs.inodes|
                  && (LookupByPath(fs'.inodes, cwd, newPath) == n <==> at.value.1 != "..")
                  && NamesBesides(fs.inodes, fs'.inodes, at.value.0, at.value.1, n.value, cwd2, other)
                else fs' == fs)
  {
    var n := LookupByPath(fs.inodes, cwd, oldPath);
    var at := ResolveParent(fs.inodes, cwd, newPath);
    if n.Some? && fs.inodes[n.value].kind != Directory && at.Some? {
      ResolvedParentIsNamed(fs.inodes, cwd, newPath);
      LinkInOutcome(fs, n.value, at.value.0, at.value.1);
      if NameFits(fs.inodes, at.value.0, at.value.1) {
        LinkInEffect(fs, cwd, newPath, n.value, at.value.0, at.value.1, cwd2, other);
      }
    }
  }
}
