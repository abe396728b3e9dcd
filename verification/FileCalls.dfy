/** What each file call answers and does, told from the state before it. */
module FileCalls {
  import opened Common
  import opened Paths
  import opened FsModel
  import opened FsInvariant
  import opened FsUnlink
  import opened Namespace
  import opened Naming
  import opened Unlinking
  import opened Walks
  import opened Relative
  import opened Files
  import opened FileRuns

  // ----- a new inode -----

  /** A new inode: one link, no bytes, no entries. */
  predicate IsFresh(node: Inode, id: nat, parent: nat, kind: InodeKind, device: DeviceKind) {
    && node.used && node.id == id && node.parent == parent && node.nlink == 1
    && node.kind == kind && node.device == device
    && node.size == 0 && |node.data| == MAX_FILE_BYTES && (forall j | 0 <= j < |node.data| :: node.data[j] == 0)
    && |node.dir| == MAX_DIR_ENTRIES && (forall k | 0 <= k < |node.dir| :: !node.dir[k].used)
  }

  /** Nothing but inode `n` and the entries of `d` changes. */
  ghost predicate OnlyThese(a: seq<Inode>, b: seq<Inode>, d: nat, n: nat) {
    && |b| == |a| && d < |a| && n < |a| && n != d && b[d] == a[d].(dir := b[d].dir)
    && forall i | 0 <= i < |a| && i != d && i != n :: b[i] == a[i]
  }

  lemma CreatedInode(fs: FileSystem, cwd: Option<nat>, path: string, kind: InodeKind, device: DeviceKind)
    requires FsOk(fs) && kind != NoKind && CreatePath(fs, cwd, path, kind, device).1.Some?
    ensures var (fs', made) := CreatePath(fs, cwd, path, kind, device); var at := ResolveParent(fs.inodes, cwd, path);
            && at.Some? && made == FreeInode(fs.inodes, 0) && OnlyThese(fs.inodes, fs'.inodes, at.value.0, made.value)
            && IsFresh(fs'.inodes[made.value], fs.nextInodeID, fs.inodes[at.value.0].id, kind, device)
            && fs'.nextInodeID == fs.nextInodeID + 1 && fs'.initialized == fs.initialized
  {
    var (d, name) := ResolveParent(fs.inodes, cwd, path).value;
    ResolvedParentIsNamed(fs.inodes, cwd, path);
    CreatedIn(fs, d, name, kind, device);
  }

  lemma CreatedIn(fs: FileSystem, d: nat, name: string, kind: InodeKind, device: DeviceKind)
    requires FsOk(fs) && d < |fs.inodes| && fs.inodes[d].kind == Directory && IsName(name)
    requires CreateIn(fs, d, name, kind, device).1.Some?
    ensures var (fs', made) := CreateIn(fs, d, name, kind, device);
            && made == FreeInode(fs.inodes, 0) && OnlyThese(fs.inodes, fs'.inodes, d, made.value)
            && IsFresh(fs'.inodes[made.value], fs.nextInodeID, fs.inodes[d].id, kind, device)
            && fs'.nextInodeID == fs.nextInodeID + 1 && fs'.initialized == fs.initialized
  {
    CreateShape(fs, d, name, kind, device);
  }

  /** Everything a creation that succeeded did. */
  ghost predicate Creates(fs: FileSystem, fs': FileSystem, cwd: Option<nat>, path: string, kind: InodeKind, n: nat,
                          cwd2: Option<nat>, other: string)
  {
    var at := ResolveParent(fs.inodes, cwd, path);
    && at.Some? && var (d, name) := at.value;
       && OnlyThese(fs.inodes, fs'.inodes, d, n)
       && !fs.inodes[n].used && (forall i | 0 <= i < n :: fs.inodes[i].used)
       && IsFresh(fs'.inodes[n], fs.nextInodeID, fs.inodes[d].id, kind, NoDevice)
       && fs'.nextInodeID == fs.nextInodeID + 1
       && (LookupByPath(fs'.inodes, cwd, path) == Some(n) <==> name != "..")
       && NamesBesides(fs.inodes, fs'.inodes, d, name, n, cwd2, other)
  }

  /** A creation is possible: the parent resolves, the name is free there, and both tables have room. */
  ghost predicate CanCreate(fs: FileSystem, cwd: Option<nat>, path: string) {
    var at := ResolveParent(fs.inodes, cwd, path);
    at.Some? && NameFits(fs.inodes, at.value.0, at.value.1) && FreeInode(fs.inodes, 0).Some?
  }

  lemma CreationEffect(fs: FileSystem, cwd: Option<nat>, path: string, kind: InodeKind, cwd2: Option<nat>,
                       other: string)
    requires FsOk(fs) && kind != NoKind
    ensures var (fs', made) := CreatePath(fs, cwd, path, kind, NoDevice);
            if CanCreate(fs, cwd, path) then made.Some? && Creates(fs, fs', cwd, path, kind, made.value, cwd2, other)
            else made.None? && fs'.inodes == fs.inodes
  {
    CreatePathEffect(fs, cwd, path, kind, NoDevice, cwd2, other);
    if CanCreate(fs, cwd, path) {
      CreatedInode(fs, cwd, path, kind, NoDevice);
      FreeInodeIsLowest(fs.inodes, 0);
    }
  }

  // ----- mkdir -----

  /** sysMkdir answers 0 exactly when a creation is possible. Then there is a new, empty directory, a child of the one
      the parent path resolves to, which the path names unless it ends in ".."; every other inode but that parent is as
      it was, and every path resolved before as it does now unless it comes by the new directory, and then it did not
      resolve. Otherwise no inode changes. */
  lemma MkdirEffect(fs: FileSystem, ctx: FileContext, path: string, cwd2: Option<nat>, other: string)
    requires StoreOk(fs) && DataOk(fs)
    ensures var fs1 := Init(fs).0; var (fs', r) := SysMkdir(fs, ctx, path);
            if CanCreate(fs1, Some(ctx.cwd), path) then
              && r == Some(0) && FreeInode(fs1.inodes, 0).Some?
              && Creates(fs1, fs', Some(ctx.cwd), path, Directory, FreeInode(fs1.inodes, 0).value, cwd2, other)
            else r.None? && fs'.inodes == fs1.inodes
  {
    InitKeeps(fs);
    var fs1 := Init(fs).0;
    CreationEffect(fs1, Some(ctx.cwd), path, Directory, cwd2, other);
    if CanCreate(fs1, Some(ctx.cwd), path) {
      CreatedInode(fs1, Some(ctx.cwd), path, Directory, NoDevice);
    }
  }

  // ----- open -----

  /** Where the parent of a path resolves but the path does not, the path does not end in "..". */
  lemma MissingIsNotUp(fs: FileSystem, cwd: Option<nat>, path: string)
    requires FsOk(fs) && ResolveParent(fs.inodes, cwd, path).Some? && LookupByPath(fs.inodes, cwd, path).None?
    ensures ResolveParent(fs.inodes, cwd, path).value.1 != ".."
  {
    var (d, name) := ResolveParent(fs.inodes, cwd, path).value;
    PathIsParentThenStep(fs.inodes, cwd, path);
    ChildIsNotParent(fs.inodes, fs.nextInodeID, d, name);
  }

  /** open creates a file when the path names nothing, creation is asked for (bit 4) and possible. */
  ghost predicate OpenCreates(fs: FileSystem, cwd: nat, path: string, flags: nat) {
    LookupByPath(fs.inodes, Some(cwd), path).None? && flags / 4 % 2 == 1 && CanCreate(fs, Some(cwd), path)
  }

  /** There is something to open: what the path names, unless that is a directory and writing is asked for (bit 2);
      or the file that is created. */
  ghost predicate CanOpen(fs: FileSystem, cwd: nat, path: string, flags: nat) {
    var n := LookupByPath(fs.inodes, Some(cwd), path);
    if n.Some? then fs.inodes[n.value].kind != Directory || flags / 2 % 2 == 0
    else OpenCreates(fs, cwd, path, flags)
  }

  /** What open leaves of the file system: a new empty file that the path names, or everything as it was. */
  ghost predicate OpenLeaves(fs: FileSystem, fs': FileSystem, cwd: nat, path: string, flags: nat, cwd2: Option<nat>,
                             other: string)
  {
    if OpenCreates(fs, cwd, path, flags) then
      var n := FreeInode(fs.inodes, 0).value;
      Creates(fs, fs', Some(cwd), path, File, n, cwd2, other) && LookupByPath(fs'.inodes, Some(cwd), path) == Some(n)
    else fs'.inodes == fs.inodes
  }

  lemma TargetEffect(fs: FileSystem, cwd: nat, path: string, flags: nat, cwd2: Option<nat>, other: string)
    requires FsOk(fs)
    ensures var (fs', n) := OpenTarget(fs, cwd, path, flags);
            && OpenLeaves(fs, fs', cwd, path, flags, cwd2, other) && n == LookupByPath(fs'.inodes, Some(cwd), path)
            && (n.Some? && !(fs'.inodes[n.value].kind == Directory && flags / 2 % 2 == 1) <==>
                  CanOpen(fs, cwd, path, flags))
  {
    var n := LookupByPath(fs.inodes, Some(cwd), path);
    if n.None? && flags / 4 % 2 == 1 {
      MissingTarget(fs, cwd, path, cwd2, other);
    }
  }

  lemma MissingTarget(fs: FileSystem, cwd: nat, path: string, cwd2: Option<nat>, other: string)
    requires FsOk(fs) && LookupByPath(fs.inodes, Some(cwd), path).None?
    ensures var (fs', n) := CreatePath(fs, Some(cwd), path, File, NoDevice);
            if CanCreate(fs, Some(cwd), path) then
              && n == FreeInode(fs.inodes, 0) && Creates(fs, fs', Some(cwd), path, File, n.value, cwd2, other)
              && LookupByPath(fs'.inodes, Some(cwd), path) == n && fs'.inodes[n.value].kind == File
            else n.None? && fs'.inodes == fs.inodes
  {
    CreationEffect(fs, Some(cwd), path, File, cwd2, other);
    if CanCreate(fs, Some(cwd), path) {
      CreatedInode(fs, Some(cwd), path, File, NoDevice);
      MissingIsNotUp(fs, Some(cwd), path);
    }
  }

  /** The lowest free descriptor. */
  ghost predicate IsLowestFree(fds: seq<Descriptor>, fd: nat) {
    fd < |fds| && !fds[fd].used && forall j | 0 <= j < fd :: fds[j].used
  }

  lemma {:induction false} FreeFDIsLowest(fds: seq<Descriptor>, i: nat)
    requires i <= |fds| && forall j | 0 <= j < i :: fds[j].used
    ensures var fd := FreeFD(fds, i);
            if forall j | 0 <= j < |fds| :: fds[j].used then fd.None? else fd.Some? && IsLowestFree(fds, fd.value)
    decreases |fds| - i
  {
    if i < |fds| && fds[i].used {
      FreeFDIsLowest(fds, i + 1);
    }
  }

  /** The lowest free descriptor becomes this one, and nothing else changes. */
  ghost predicate Takes(ctx: FileContext, ctx': FileContext, fd: nat, entry: Descriptor) {
    && IsLowestFree(ctx.fds, fd) && ctx'.cwd == ctx.cwd && |ctx'.fds| == |ctx.fds| && ctx'.fds[fd] == entry
    && forall j | 0 <= j < |ctx.fds| && j != fd :: ctx'.fds[j] == ctx.fds[j]
  }

  lemma AllocFDTakes(ctx: FileContext, id: nat, readable: bool, writable: bool)
    ensures var (ctx', fd) := AllocFD(ctx, id, readable, writable);
            if forall j | 0 <= j < |ctx.fds| :: ctx.fds[j].used then fd.None? && ctx' == ctx
            else fd.Some? && Takes(ctx, ctx', fd.value, Descriptor(true, id, 0, readable, writable))
  {
    FreeFDIsLowest(ctx.fds, 0);
  }

  /** sysOpen succeeds exactly when the path is not empty, there is something to open and a descriptor is free.
      It then takes the lowest free one, at offset 0, on what the path now names; it can be written through
      exactly when bit 2 is set, and read through exactly when bit 1 is set or bit 2 is not. The working
      directory and all other descriptors stay; so does everything when it fails, except that a file it created
      before it ran out of descriptors is there. */
  lemma OpenDenotesPath(fs: FileSystem, ctx: FileContext, path: string, flags: nat, cwd2: Option<nat>, other: string)
    requires StoreOk(fs) && DataOk(fs)
    ensures var fs1 := Init(fs).0; var (fs', ctx', r) := SysOpen(fs, ctx, path, flags);
            if path == "" then fs' == fs && ctx' == ctx && r.None?
            else
              && OpenLeaves(fs1, fs', ctx.cwd, path, flags, cwd2, other)
              && (r.Some? <==>
                    && CanOpen(fs1, ctx.cwd, path, flags)
                    && exists fd | 0 <= fd < |ctx.fds| :: !ctx.fds[fd].used)
              && if r.None? then ctx' == ctx else Opened(fs', ctx, ctx', path, flags, r.value)
  {
    InitKeeps(fs);
    if path != "" {
      TargetEffect(Init(fs).0, ctx.cwd, path, flags, cwd2, other);
      OpenTargetKeeps(Init(fs).0, ctx.cwd, path, flags);
      OpenHandsOut(fs, ctx, path, flags);
    }
  }

  /** The part of sysOpen after the target is found. */
  lemma OpenHandsOut(fs: FileSystem, ctx: FileContext, path: string, flags: nat)
    requires DataOk(fs) && path != "" && Init(fs).1
    requires var (fs', n) := OpenTarget(Init(fs).0, ctx.cwd, path, flags);
             StoreOk(fs') && n == LookupByPath(fs'.inodes, Some(ctx.cwd), path)
    ensures var (fs', n) := OpenTarget(Init(fs).0, ctx.cwd, path, flags);
            var (fs2, ctx', r) := SysOpen(fs, ctx, path, flags);
            && fs2 == fs'
            && (r.Some? <==>
                  && n.Some? && !(fs'.inodes[n.value].kind == Directory && flags / 2 % 2 == 1)
                  && exists fd | 0 <= fd < |ctx.fds| :: !ctx.fds[fd].used)
            && if r.None? then ctx' == ctx else Opened(fs', ctx, ctx', path, flags, r.value)
  {
    var (fs', n) := OpenTarget(Init(fs).0, ctx.cwd, path, flags);
    if n.Some? {
      InUseResolves(fs', n.value);
      AllocFDTakes(ctx, fs'.inodes[n.value].id, flags % 2 == 1 || flags / 2 % 2 == 0, flags / 2 % 2 == 1);
    }
  }

  ghost predicate Opened(fs: FileSystem, ctx: FileContext, ctx': FileContext, path: string, flags: nat, fd: nat) {
    var n := LookupByPath(fs.inodes, Some(ctx.cwd), path);
    && n.Some? && LookupByID(fs.inodes, fs.inodes[n.value].id) == n
    && Takes(ctx, ctx', fd, Descriptor(true, fs.inodes[n.value].id, 0,
                                       flags % 2 == 1 || flags / 2 % 2 == 0, flags / 2 % 2 == 1))
  }

  // ----- a new process, chdir and close -----

  /** A new process has no working directory of its own and sixteen free descriptors. */
  lemma NewProcessHasNothing()
    ensures NoFiles().cwd == 0 && |NoFiles().fds| == 16 && forall fd | 0 <= fd < 16 :: !NoFiles().fds[fd].used
  {
  }

  /** sysChdir answers 0 exactly when the path names a directory; every relative path then resolves to what it resolved
      to with that path put in front. Otherwise nothing changes; the descriptors never do. */
  lemma ChdirEffect(fs: FileSystem, ctx: FileContext, dir: string, rel: string)
    requires StoreOk(fs) && DataOk(fs) && rel != "" && !Absolute(rel)
    ensures var fs1 := Init(fs).0; var (fs', ctx', r) := SysChdir(fs, ctx, dir);
            var n := LookupByPath(fs1.inodes, Some(ctx.cwd), dir);
            && fs' == fs1 && ctx'.fds == ctx.fds
            && if n.Some? && fs1.inodes[n.value].kind == Directory then
                 && r == Some(0) && LookupByID(fs'.inodes, ctx'.cwd) == n && ctx'.cwd != 0
                 && LookupByPath(fs'.inodes, Some(ctx'.cwd), rel) ==
                      LookupByPath(fs'.inodes, Some(ctx.cwd), dir + "/" + rel)
               else r.None? && ctx' == ctx
  {
    InitKeeps(fs);
    var fs1 := Init(fs).0;
    var n := LookupByPath(fs1.inodes, Some(ctx.cwd), dir);
    if n.Some? {
      PathThroughDirectory(fs1, Some(ctx.cwd), dir, n.value, rel);
      LiveID(fs1, n.value);
    }
  }

  /** sysClose answers 0 exactly when the descriptor is open; it is then free again, and no other changes. */
  lemma CloseEffect(ctx: FileContext, fd: int)
    ensures var (ctx', r) := SysClose(ctx, fd);
            if 0 <= fd < |ctx.fds| && ctx.fds[fd].used then
              && r == Some(0) && ctx'.cwd == ctx.cwd && |ctx'.fds| == |ctx.fds| && !ctx'.fds[fd].used
              && forall j | 0 <= j < |ctx.fds| && j != fd :: ctx'.fds[j] == ctx.fds[j]
            else r.None? && ctx' == ctx
  {
  }

  // ----- link and unlink -----

  lemma LinkedInode(fs: FileSystem, cwd: Option<nat>, oldPath: string, newPath: string)
    requires FsOk(fs) && Link(fs, cwd, oldPath, newPath).1
    ensures var fs' := Link(fs, cwd, oldPath, newPath).0;
            var n := LookupByPath(fs.inodes, cwd, oldPath); var at := ResolveParent(fs.inodes, cwd, newPath);
            && n.Some? && at.Some? && OnlyThese(fs.inodes, fs'.inodes, at.value.0, n.value)
            && fs'.inodes[n.value] == fs.inodes[n.value].(nlink := fs.inodes[n.value].nlink + 1)
            && fs'.nextInodeID == fs.nextInodeID && fs'.initialized == fs.initialized
  {
    var n := LookupByPath(fs.inodes, cwd, oldPath).value;
    var (d, name) := ResolveParent(fs.inodes, cwd, newPath).value;
    ResolvedParentIsNamed(fs.inodes, cwd, newPath);
    LinkedIn(fs, n, d, name);
  }

  lemma LinkedIn(fs: FileSystem, n: nat, d: nat, name: string)
    requires FsOk(fs) && n < |fs.inodes| && fs.inodes[n].used && fs.inodes[n].kind != Directory
    requires d < |fs.inodes| && fs.inodes[d].kind == Directory && IsName(name) && LinkIn(fs, n, d, name).1
    ensures var fs' := LinkIn(fs, n, d, name).0;
            && OnlyThese(fs.inodes, fs'.inodes, d, n)
            && fs'.inodes[n] == fs.inodes[n].(nlink := fs.inodes[n].nlink + 1)
            && fs'.nextInodeID == fs.nextInodeID && fs'.initialized == fs.initialized
  {
    LinkShape(fs, n, d, name);
  }

  /** A link is possible: the old path names something that is not a directory, and the new name is free and fits. */
  ghost predicate CanLink(fs: FileSystem, cwd: Option<nat>, oldPath: string, newPath: string) {
    var n, at := LookupByPath(fs.inodes, cwd, oldPath), ResolveParent(fs.inodes, cwd, newPath);
    && n.Some? && fs.inodes[n.value].kind != Directory
    && at.Some? && NameFits(fs.inodes, at.value.0, at.value.1)
  }

  /** sysLink answers 0 exactly when a link is possible. The inode then has one link more and is otherwise as it was,
      the new path names it unless it ends in "..", and every path resolved before as it does now unless it takes the
      new entry, and then it did not resolve. Otherwise nothing changes. */
  lemma LinkCallEffect(fs: FileSystem, ctx: FileContext, oldPath: string, newPath: string, cwd2: Option<nat>,
                       other: string)
    requires StoreOk(fs) && DataOk(fs)
    ensures var fs1, cwd := Init(fs).0, Some(ctx.cwd); var (fs', r) := SysLink(fs, ctx, oldPath, newPath);
            if CanLink(fs1, cwd, oldPath, newPath) then
              var n := LookupByPath(fs1.inodes, cwd, oldPath).value;
              var (d, name) := ResolveParent(fs1.inodes, cwd, newPath).value;
              && r == Some(0) && OnlyThese(fs1.inodes, fs'.inodes, d, n)
              && fs'.inodes[n] == fs1.inodes[n].(nlink := fs1.inodes[n].nlink + 1)
              && (LookupByPath(fs'.inodes, cwd, newPath) == Some(n) <==> name != "..")
              && NamesBesides(fs1.inodes, fs'.inodes, d, name, n, cwd2, other)
            else r.None? && fs' == fs1
  {
    InitKeeps(fs);
    var fs1 := Init(fs).0;
    LinkEffect(fs1, Some(ctx.cwd), oldPath, newPath, cwd2, other);
    if Link(fs1, Some(ctx.cwd), oldPath, newPath).1 {
      LinkedInode(fs1, Some(ctx.cwd), oldPath, newPath);
    }
  }

  /** An unlink is possible: the name is there, and is not that of a directory with entries. */
  ghost predicate CanUnlink(fs: FileSystem, cwd: Option<nat>, path: string) {
    var at := ResolveParent(fs.inodes, cwd, path);
    && at.Some? && var n := LookupInDir(fs.inodes, at.value.0, at.value.1);
       && n.Some?
       && (fs.inodes[n.value].kind == Directory ==>
             forall k | 0 <= k < |fs.inodes[n.value].dir| :: !fs.inodes[n.value].dir[k].used)
  }

  lemma UnlinkSucceedsIff(fs: FileSystem, cwd: Option<nat>, path: string)
    requires FsOk(fs)
    ensures Unlink(fs, cwd, path).1 <==> CanUnlink(fs, cwd, path)
  {
    var at := ResolveParent(fs.inodes, cwd, path);
    if at.Some? {
      UnlinkInOutcome(fs, at.value.0, at.value.1);
    }
  }

  lemma UnlinkedInode(fs: FileSystem, cwd: Option<nat>, path: string)
    requires FsOk(fs) && Unlink(fs, cwd, path).1
    ensures var fs' := Unlink(fs, cwd, path).0; var (d, name) := ResolveParent(fs.inodes, cwd, path).value;
            var n := LookupInDir(fs.inodes, d, name);
            && n.Some? && OnlyThese(fs.inodes, fs'.inodes, d, n.value)
            && fs'.inodes[n.value] == (if fs.inodes[n.value].nlink > 1
                                       then fs.inodes[n.value].(nlink := fs.inodes[n.value].nlink - 1) else NoInode())
            && fs'.nextInodeID == fs.nextInodeID && fs'.initialized == fs.initialized
  {
    var (d, name) := ResolveParent(fs.inodes, cwd, path).value;
    UnlinkedIn(fs, d, name);
  }

  lemma UnlinkedIn(fs: FileSystem, d: nat, name: string)
    requires FsOk(fs) && d < |fs.inodes| && fs.inodes[d].kind == Directory && UnlinkIn(fs, d, name).1
    ensures var fs' := UnlinkIn(fs, d, name).0; var n := LookupInDir(fs.inodes, d, name);
            && n.Some? && OnlyThese(fs.inodes, fs'.inodes, d, n.value)
            && fs'.inodes[n.value] == Dropped(fs.inodes[n.value])
            && fs'.nextInodeID == fs.nextInodeID && fs'.initialized == fs.initialized
  {
    var k := FindEntry(fs.inodes[d].dir, name, 0);
    if k.None? {
      UnlinkAbsent(fs, d, name);
    } else {
      var n := EntryTarget(fs.inodes, fs.nextInodeID, d, k.value);
      UnlinkShape(fs, d, name, k.value, n);
    }
  }

  /** sysUnlink answers 0 exactly when an unlink is possible. The inode then has one link less, or is gone with its last
      one, and every path keeps what it resolved to or loses it, exactly as KeepsPath told before. Otherwise no path
      changes, nor any inode but for the order of a directory's entries. */
  lemma UnlinkCallEffect(fs: FileSystem, ctx: FileContext, path: string, cwd2: Option<nat>, other: string)
    requires StoreOk(fs) && DataOk(fs)
    ensures var fs1, cwd := Init(fs).0, Some(ctx.cwd); var (fs', r) := SysUnlink(fs, ctx, path);
            if CanUnlink(fs1, cwd, path) then
              var (d, name) := ResolveParent(fs1.inodes, cwd, path).value;
              var n := LookupInDir(fs1.inodes, d, name).value;
              && r == Some(0) && OnlyThese(fs1.inodes, fs'.inodes, d, n)
              && fs'.inodes[n] == (if fs1.inodes[n].nlink > 1 then fs1.inodes[n].(nlink := fs1.inodes[n].nlink - 1)
                                   else NoInode())
              && LookupByPath(fs'.inodes, cwd2, other) ==
                   (if KeepsPath(fs1.inodes, d, name, n, cwd2, other) then LookupByPath(fs1.inodes, cwd2, other)
                    else None)
            else
              && r.None? && SameNamespace(fs1.inodes, fs'.inodes)
              && LookupByPath(fs'.inodes, cwd2, other) == LookupByPath(fs1.inodes, cwd2, other)
  {
    InitKeeps(fs);
    var fs1, cwd := Init(fs).0, Some(ctx.cwd);
    UnlinkSucceedsIff(fs1, cwd, path);
    if CanUnlink(fs1, cwd, path) {
      UnlinkEffect(fs1, cwd, path, cwd2, other);
      UnlinkedInode(fs1, cwd, path);
    } else {
      FailedUnlinkIsInvisible(fs1, cwd, path, cwd2, other);
    }
  }
}
