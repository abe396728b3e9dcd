/** Runs of file system calls by all processes: the invariant in every state, and what a kept handle can denote. */
module FileRuns {
  import opened Common
  import opened Paths
  import opened FsModel
  import opened FsInvariant
  import opened FsUnlink
  import opened Namespace
  import opened Files
  import opened FsBoot

  // ----- inode identity over time -----

  /** What makes an inode the same one; sizes, contents, entries and link counts come and go. */
  predicate SameInode(a: Inode, b: Inode) {
    a.id == b.id && a.kind == b.kind && a.device == b.device && a.parent == b.parent
  }

  /** Between two states no id is handed out twice: an inode with an id already used then is the inode of then. */
  ghost predicate Survives(a: FileSystem, b: FileSystem) {
    && a.nextInodeID <= b.nextInodeID && |a.inodes| == |b.inodes|
    && forall i | 0 <= i < |a.inodes| && b.inodes[i].used && b.inodes[i].id < a.nextInodeID ::
         a.inodes[i].used && SameInode(a.inodes[i], b.inodes[i])
  }

  lemma SurvivesOn(a: FileSystem, b: FileSystem, c: FileSystem)
    requires Survives(a, b) && Survives(b, c)
    ensures Survives(a, c)
  {
  }

  lemma RewireSurvives(fs: FileSystem, next: nat, d: nat, k: nat, e: DirEntry, n: nat, node: Inode)
    requires next >= fs.nextInodeID && d < |fs.inodes| && k < |fs.inodes[d].dir| && n < |fs.inodes|
    requires node.used && node.id < fs.nextInodeID ==> fs.inodes[n].used && SameInode(fs.inodes[n], node)
    ensures Survives(fs, fs.(nextInodeID := next, inodes := Rewire(fs.inodes, d, k, e, n, node)))
  {
  }

  lemma CreateSurvives(fs: FileSystem, d: nat, name: string, kind: InodeKind, device: DeviceKind)
    requires FsOk(fs) && d < |fs.inodes| && fs.inodes[d].kind == Directory && IsName(name) && kind != NoKind
    ensures var fs' := CreateIn(fs, d, name, kind, device).0;
            Survives(fs, fs') && fs'.initialized == fs.initialized
  {
    CreateShape(fs, d, name, kind, device);
    var i := FreeInode(fs.inodes, 0);
    if i.Some? && NameFits(fs.inodes, d, name) {
      RewireSurvives(fs, fs.nextInodeID + 1, d, FreeEntry(fs.inodes[d].dir, 0).value,
                     DirEntry(true, name, fs.nextInodeID),
                     i.value, NewInode(fs.nextInodeID, fs.inodes[d].id, kind, device));
    }
  }

  lemma CreatePathKeeps(fs: FileSystem, cwd: Option<nat>, path: string, kind: InodeKind, device: DeviceKind)
    requires FsOk(fs) && kind != NoKind
    ensures var fs' := CreatePath(fs, cwd, path, kind, device).0;
            FsOk(fs') && Survives(fs, fs') && fs'.initialized == fs.initialized
  {
    var at := ResolveParent(fs.inodes, cwd, path);
    if at.Some? {
      ResolvedParentIsNamed(fs.inodes, cwd, path);
      CreateKeeps(fs, at.value.0, at.value.1, kind, device);
      CreateSurvives(fs, at.value.0, at.value.1, kind, device);
    }
  }

  lemma LinkSurvives(fs: FileSystem, n: nat, d: nat, name: string)
    requires FsOk(fs) && n < |fs.inodes| && fs.inodes[n].used && fs.inodes[n].kind != Directory
    requires d < |fs.inodes| && fs.inodes[d].kind == Directory && IsName(name)
    ensures Survives(fs, LinkIn(fs, n, d, name).0)
  {
    LinkShape(fs, n, d, name);
    if NameFits(fs.inodes, d, name) {
      RewireSurvives(fs, fs.nextInodeID, d, FreeEntry(fs.inodes[d].dir, 0).value, DirEntry(true, name, fs.inodes[n].id),
                     n, fs.inodes[n].(nlink := fs.inodes[n].nlink + 1));
    }
  }

  lemma LinkInKeeps(fs: FileSystem, n: nat, d: nat, name: string)
    requires FsOk(fs) && n < |fs.inodes| && fs.inodes[n].used && fs.inodes[n].kind != Directory
    requires d < |fs.inodes| && fs.inodes[d].kind == Directory && IsName(name)
    ensures var fs' := LinkIn(fs, n, d, name).0;
            FsOk(fs') && Survives(fs, fs') && fs'.initialized == fs.initialized
  {
    LinkKeeps(fs, n, d, name);
    LinkSurvives(fs, n, d, name);
  }

  lemma LinkPathKeeps(fs: FileSystem, cwd: Option<nat>, oldPath: string, newPath: string)
    requires FsOk(fs)
    ensures var fs' := Link(fs, cwd, oldPath, newPath).0;
            FsOk(fs') && Survives(fs, fs') && fs'.initialized == fs.initialized
  {
    var n := LookupByPath(fs.inodes, cwd, oldPath);
    var at := ResolveParent(fs.inodes, cwd, newPath);
    if n.Some? && fs.inodes[n.value].kind != Directory && at.Some? {
      ResolvedParentIsNamed(fs.inodes, cwd, newPath);
      LinkInKeeps(fs, n.value, at.value.0, at.value.1);
      assert Link(fs, cwd, oldPath, newPath) == LinkIn(fs, n.value, at.value.0, at.value.1);
    } else {
      StaysPut(fs);
      assert Link(fs, cwd, oldPath, newPath).0 == fs;
    }
  }

  lemma UnlinkSurvives(fs: FileSystem, d: nat, name: string)
    requires FsOk(fs) && d < |fs.inodes| && fs.inodes[d].kind == Directory
    ensures var fs' := UnlinkIn(fs, d, name).0;
            Survives(fs, fs') && fs'.initialized == fs.initialized
  {
    var k := FindEntry(fs.inodes[d].dir, name, 0);
    if k.None? {
      UnlinkAbsent(fs, d, name);
    } else {
      var n := EntryTarget(fs.inodes, fs.nextInodeID, d, k.value);
      UnlinkShape(fs, d, name, k.value, n);
      AddBack(fs.inodes, d, k.value, name);
      var (fs', ok) := UnlinkIn(fs, d, name);
      OutcomeSurvives(fs, d, k.value, n, fs', ok);
    }
  }

  lemma OutcomeSurvives(fs: FileSystem, d: nat, k: nat, n: nat, fs': FileSystem, ok: bool)
    requires EntryUsed(fs.inodes, d, k) && n < |fs.inodes| && fs' == fs.(inodes := fs'.inodes)
    requires MoveArgs(fs.inodes, d, k, BackAt(fs.inodes, d, k)) && fs.inodes[n].used
    requires UnlinkOutcome(fs.inodes, d, k, n, fs'.inodes, ok)
    ensures Survives(fs, fs')
  {
    if ok {
      RewireSurvives(fs, fs.nextInodeID, d, k, NO_ENTRY, n, Dropped(fs.inodes[n]));
    }
  }

  lemma UnlinkPathKeeps(fs: FileSystem, cwd: Option<nat>, path: string)
    requires FsOk(fs)
    ensures var fs' := Unlink(fs, cwd, path).0;
            FsOk(fs') && Survives(fs, fs') && fs'.initialized == fs.initialized
  {
    var at := ResolveParent(fs.inodes, cwd, path);
    if at.Some? {
      UnlinkKeeps(fs, at.value.0, at.value.1);
      UnlinkSurvives(fs, at.value.0, at.value.1);
    }
  }

  lemma WriteSurvives(fs: FileSystem, i: nat, offset: nat, src: seq<byte>)
    requires i < |fs.inodes| && |fs.inodes[i].data| == MAX_FILE_BYTES
    ensures Survives(fs, WriteNode(fs, i, offset, src).0)
  {
  }

  // ----- the state machine -----

  datatype FileState = FileState(fs: FileSystem, ctxs: seq<FileContext>, sinks: Sinks)

  datatype Call =
    | Open(path: string, flags: nat)
    | Close(fd: int)
    | Read(fd: int, count: nat, clock: seq<byte>, delivered: bool)
    | Write(fd: int, count: nat, copied: Option<seq<byte>>)
    | Mkdir(path: string)
    | Chdir(path: string)
    | MakeLink(oldPath: string, newPath: string)
    | RemoveLink(path: string)
    | NewProcess

  /** Nothing before the first call; the invariant from then on. */
  ghost predicate StoreOk(fs: FileSystem) {
    if fs.initialized then FsOk(fs) else fs == Empty()
  }

  /** Handles are ids already handed out; only non-directories are open for writing, and
      only directories are current. */
  ghost predicate ContextOk(fs: FileSystem, ctx: FileContext) {
    && |ctx.fds| == MAX_OPEN_FILES
    && (ctx.cwd != 0 ==> ctx.cwd < fs.nextInodeID)
    && (forall i | 0 <= i < |fs.inodes| && fs.inodes[i].used && fs.inodes[i].id == ctx.cwd != 0 ::
          fs.inodes[i].kind == Directory)
    && (forall fd | 0 <= fd < |ctx.fds| && ctx.fds[fd].used :: ctx.fds[fd].inodeID < fs.nextInodeID)
    && (forall fd, i | 0 <= fd < |ctx.fds| && ctx.fds[fd].used && ctx.fds[fd].writable
                       && 0 <= i < |fs.inodes| && fs.inodes[i].used && fs.inodes[i].id == ctx.fds[fd].inodeID ::
          fs.inodes[i].kind != Directory)
  }

  ghost predicate FilesOk(s: FileState) {
    && StoreOk(s.fs) && |s.ctxs| == 16
    && forall p | 0 <= p < |s.ctxs| :: ContextOk(s.fs, s.ctxs[p])
  }

  lemma StoreHasData(fs: FileSystem)
    requires StoreOk(fs)
    ensures DataOk(fs)
  {
  }

  /** One call by the process with the context `ctx`; a new process starts with no descriptors
      and no directory of its own. */
  function Perform(fs: FileSystem, ctx: FileContext, sinks: Sinks, call: Call): (FileSystem, FileContext, Sinks)
    requires DataOk(fs)
  {
    match call
    case Open(path, flags) => (var (fs', ctx', r) := SysOpen(fs, ctx, path, flags); (fs', ctx', sinks))
    case Close(fd) => (fs, SysClose(ctx, fd).0, sinks)
    case Read(fd, count, clock, delivered) => (fs, SysRead(fs, ctx, fd, count, clock, delivered).0, sinks)
    case Write(fd, count, copied) =>
      (var (fs', ctx', sinks', r) := SysWrite(fs, ctx, sinks, fd, count, copied); (fs', ctx', sinks'))
    case Mkdir(path) => (SysMkdir(fs, ctx, path).0, ctx, sinks)
    case Chdir(path) => (var (fs', ctx', r) := SysChdir(fs, ctx, path); (fs', ctx', sinks))
    case MakeLink(oldPath, newPath) => (SysLink(fs, ctx, oldPath, newPath).0, ctx, sinks)
    case RemoveLink(path) => (SysUnlink(fs, ctx, path).0, ctx, sinks)
    case NewProcess => (fs, NoFiles(), sinks)
  }

  // ----- every call keeps it: the tree -----

  /** The state of the file system moved on: still in order, and no id handed out twice. */
  ghost predicate Moves(fs: FileSystem, fs': FileSystem) {
    StoreOk(fs') && Survives(fs, fs')
  }

  /** phase6Init never fails: either it has run before, or it starts from nothing. */
  lemma InitKeeps(fs: FileSystem)
    requires StoreOk(fs)
    ensures DataOk(fs)
    ensures var (fs', ok) := Init(fs); ok && fs'.initialized && FsOk(fs') && Survives(fs, fs')
  {
    if fs.initialized {
      StaysPut(fs);
    } else {
      var fs' := BootSucceeds(fs);
    }
  }

  lemma StaysPut(fs: FileSystem)
    ensures Survives(fs, fs)
  {
  }

  lemma OpenTargetKeeps(fs: FileSystem, cwd: nat, path: string, flags: nat)
    requires FsOk(fs) && fs.initialized
    ensures Moves(fs, OpenTarget(fs, cwd, path, flags).0)
  {
    CreatePathKeeps(fs, Some(cwd), path, File, NoDevice);
    StaysPut(fs);
  }

  lemma OpenKeeps(fs: FileSystem, ctx: FileContext, path: string, flags: nat)
    requires StoreOk(fs)
    ensures DataOk(fs) && Moves(fs, SysOpen(fs, ctx, path, flags).0)
  {
    InitKeeps(fs);
    if path == "" {
      StaysPut(fs);
    } else {
      var fs1 := Init(fs).0;
      OpenTargetKeeps(fs1, ctx.cwd, path, flags);
      SurvivesOn(fs, fs1, OpenTarget(fs1, ctx.cwd, path, flags).0);
    }
  }

  lemma MkdirKeeps(fs: FileSystem, ctx: FileContext, path: string)
    requires StoreOk(fs)
    ensures DataOk(fs) && Moves(fs, SysMkdir(fs, ctx, path).0)
  {
    InitKeeps(fs);
    var fs1 := Init(fs).0;
    CreatePathKeeps(fs1, Some(ctx.cwd), path, Directory, NoDevice);
    SurvivesOn(fs, fs1, CreatePath(fs1, Some(ctx.cwd), path, Directory, NoDevice).0);
  }

  lemma LinkCallKeeps(fs: FileSystem, ctx: FileContext, oldPath: string, newPath: string)
    requires StoreOk(fs)
    ensures DataOk(fs) && Moves(fs, SysLink(fs, ctx, oldPath, newPath).0)
  {
    InitKeeps(fs);
    var fs1 := Init(fs).0;
    LinkPathKeeps(fs1, Some(ctx.cwd), oldPath, newPath);
    SurvivesOn(fs, fs1, Link(fs1, Some(ctx.cwd), oldPath, newPath).0);
  }

  lemma UnlinkCallKeeps(fs: FileSystem, ctx: FileContext, path: string)
    requires StoreOk(fs)
    ensures DataOk(fs) && Moves(fs, SysUnlink(fs, ctx, path).0)
  {
    InitKeeps(fs);
    var fs1 := Init(fs).0;
    UnlinkPathKeeps(fs1, Some(ctx.cwd), path);
    SurvivesOn(fs, fs1, Unlink(fs1, Some(ctx.cwd), path).0);
  }

  lemma WriteCallKeeps(fs: FileSystem, ctx: FileContext, sinks: Sinks, fd: int, count: nat, copied: Option<seq<byte>>)
    requires StoreOk(fs)
    ensures DataOk(fs) && Moves(fs, SysWrite(fs, ctx, sinks, fd, count, copied).0)
  {
    StoreHasData(fs);
    StaysPut(fs);
    var i := WriteTarget(fs, ctx, fd, count);
    if i.Some? && copied.Some? {
      WriteOutKeeps(fs, sinks, i.value, ctx.fds[fd].offset, copied.value);
    }
  }

  lemma WriteOutKeeps(fs: FileSystem, sinks: Sinks, i: nat, offset: nat, src: seq<byte>)
    requires StoreOk(fs) && DataOk(fs) && i < |fs.inodes| && fs.inodes[i].used
    ensures Moves(fs, WriteOut(fs, sinks, i, offset, src).0)
  {
    StaysPut(fs);
    if fs.inodes[i].kind == File {
      WriteKeeps(fs, i, offset, src);
      WriteSurvives(fs, i, offset, src);
    }
  }

  lemma ChdirKeeps(fs: FileSystem, ctx: FileContext, path: string)
    requires StoreOk(fs)
    ensures DataOk(fs) && Moves(fs, SysChdir(fs, ctx, path).0) && SysChdir(fs, ctx, path).0 == Init(fs).0
  {
    InitKeeps(fs);
  }

  /** Every call keeps the tree in order, and hands out no id twice. */
  lemma PerformKeepsStore(fs: FileSystem, ctx: FileContext, sinks: Sinks, call: Call)
    requires StoreOk(fs) && DataOk(fs)
    ensures Moves(fs, Perform(fs, ctx, sinks, call).0)
  {
    if OnPath(call) {
      PathCallKeepsStore(fs, ctx, sinks, call);
    } else {
      OtherCallKeepsStore(fs, ctx, sinks, call);
    }
  }

  predicate OnPath(call: Call) {
    call.Open? || call.Mkdir? || call.Chdir? || call.MakeLink? || call.RemoveLink?
  }

  lemma PathCallKeepsStore(fs: FileSystem, ctx: FileContext, sinks: Sinks, call: Call)
    requires StoreOk(fs) && DataOk(fs) && OnPath(call)
    ensures Moves(fs, Perform(fs, ctx, sinks, call).0)
  {
    match call
    case Open(path, flags) => PerformOpen(fs, ctx, sinks, path, flags);
    case Mkdir(path) => PerformMkdir(fs, ctx, sinks, path);
    case Chdir(path) => PerformChdir(fs, ctx, sinks, path);
    case MakeLink(oldPath, newPath) => PerformLink(fs, ctx, sinks, oldPath, newPath);
    case RemoveLink(path) => PerformUnlink(fs, ctx, sinks, path);
  }

  lemma PerformOpen(fs: FileSystem, ctx: FileContext, sinks: Sinks, path: string, flags: nat)
    requires StoreOk(fs) && DataOk(fs)
    ensures Moves(fs, Perform(fs, ctx, sinks, Open(path, flags)).0)
  {
    OpenKeeps(fs, ctx, path, flags);
  }

  lemma PerformMkdir(fs: FileSystem, ctx: FileContext, sinks: Sinks, path: string)
    requires StoreOk(fs) && DataOk(fs)
    ensures Moves(fs, Perform(fs, ctx, sinks, Mkdir(path)).0)
  {
    MkdirKeeps(fs, ctx, path);
  }

  lemma PerformChdir(fs: FileSystem, ctx: FileContext, sinks: Sinks, path: string)
    requires StoreOk(fs) && DataOk(fs)
    ensures Moves(fs, Perform(fs, ctx, sinks, Chdir(path)).0)
  {
    ChdirKeeps(fs, ctx, path);
  }

  lemma PerformLink(fs: FileSystem, ctx: FileContext, sinks: Sinks, oldPath: string, newPath: string)
    requires StoreOk(fs) && DataOk(fs)
    ensures Moves(fs, Perform(fs, ctx, sinks, MakeLink(oldPath, newPath)).0)
  {
    LinkCallKeeps(fs, ctx, oldPath, newPath);
  }

  lemma PerformUnlink(fs: FileSystem, ctx: FileContext, sinks: Sinks, path: string)
    requires StoreOk(fs) && DataOk(fs)
    ensures Moves(fs, Perform(fs, ctx, sinks, RemoveLink(path)).0)
  {
    UnlinkCallKeeps(fs, ctx, path);
  }

  lemma OtherCallKeepsStore(fs: FileSystem, ctx: FileContext, sinks: Sinks, call: Call)
    requires StoreOk(fs) && DataOk(fs) && !OnPath(call)
    ensures Moves(fs, Perform(fs, ctx, sinks, call).0)
  {
    match call
    case Write(fd, count, copied) => WriteCallKeeps(fs, ctx, sinks, fd, count, copied);
    case _ => StaysPut(fs);
  }

  // ----- every call keeps it: the handles -----

  /** Handles stay in order while the file system moves on. */
  lemma HandlesSurvive(a: FileSystem, b: FileSystem, ctx: FileContext)
    requires Survives(a, b) && ContextOk(a, ctx)
    ensures ContextOk(b, ctx)
  {
  }

  lemma NewHandleOk(fs: FileSystem, ctx: FileContext, i: nat, readable: bool, writable: bool)
    requires StoreOk(fs) && ContextOk(fs, ctx) && i < |fs.inodes| && fs.inodes[i].used
    requires writable ==> fs.inodes[i].kind != Directory
    ensures ContextOk(fs, AllocFD(ctx, fs.inodes[i].id, readable, writable).0)
  {
  }

  lemma OpenedTarget(fs: FileSystem, cwd: nat, path: string, flags: nat)
    requires FsOk(fs)
    ensures var (fs', node) := OpenTarget(fs, cwd, path, flags); node.Some? ==> fs'.inodes[node.value].used
  {
    var at := ResolveParent(fs.inodes, Some(cwd), path);
    if at.Some? {
      ResolvedParentIsNamed(fs.inodes, Some(cwd), path);
      CreateInOutcome(fs, at.value.0, at.value.1, File, NoDevice);
    }
  }

  lemma OpenKeepsHandles(fs: FileSystem, ctx: FileContext, path: string, flags: nat)
    requires StoreOk(fs) && DataOk(fs) && ContextOk(fs, ctx)
    ensures var (fs', ctx', r) := SysOpen(fs, ctx, path, flags); ContextOk(fs', ctx')
  {
    if path != "" {
      InitKeeps(fs);
      HandlesSurvive(fs, Init(fs).0, ctx);
      TargetKeepsHandles(Init(fs).0, ctx, path, flags);
    }
  }

  /** The same for the part of sysOpen after initialisation. */
  lemma TargetKeepsHandles(fs: FileSystem, ctx: FileContext, path: string, flags: nat)
    requires FsOk(fs) && fs.initialized && ContextOk(fs, ctx)
    ensures var (fs', node) := OpenTarget(fs, ctx.cwd, path, flags);
            && ContextOk(fs', ctx)
            && (node.Some? && !(fs'.inodes[node.value].kind == Directory && WantsWrite(flags)) ==>
                  ContextOk(fs', AllocFD(ctx, fs'.inodes[node.value].id,
                                         WantsRead(flags) || !WantsWrite(flags), WantsWrite(flags)).0))
  {
    OpenTargetKeeps(fs, ctx.cwd, path, flags);
    OpenedTarget(fs, ctx.cwd, path, flags);
    var (fs', node) := OpenTarget(fs, ctx.cwd, path, flags);
    HandlesSurvive(fs, fs', ctx);
    if node.Some? && !(fs'.inodes[node.value].kind == Directory && WantsWrite(flags)) {
      NewHandleOk(fs', ctx, node.value, WantsRead(flags) || !WantsWrite(flags), WantsWrite(flags));
    }
  }

  lemma ChdirKeepsHandles(fs: FileSystem, ctx: FileContext, path: string)
    requires StoreOk(fs) && DataOk(fs) && ContextOk(fs, ctx)
    ensures var (fs', ctx', r) := SysChdir(fs, ctx, path); ContextOk(fs', ctx')
  {
    ChdirKeeps(fs, ctx, path);
    var fs1 := Init(fs).0;
    HandlesSurvive(fs, fs1, ctx);
    var n := LookupByPath(fs1.inodes, Some(ctx.cwd), path);
    if n.Some? && fs1.inodes[n.value].kind == Directory {
      NewDirectoryOk(fs1, ctx, n.value);
    }
  }

  lemma NewDirectoryOk(fs: FileSystem, ctx: FileContext, n: nat)
    requires StoreOk(fs) && ContextOk(fs, ctx) && n < |fs.inodes| && fs.inodes[n].used && fs.inodes[n].kind == Directory
    ensures ContextOk(fs, ctx.(cwd := fs.inodes[n].id))
  {
  }

  lemma WriteKeepsHandles(fs: FileSystem, ctx: FileContext, sinks: Sinks, fd: int, count: nat,
                          copied: Option<seq<byte>>)
    requires StoreOk(fs) && DataOk(fs) && ContextOk(fs, ctx)
    ensures var (fs', ctx', sinks', r) := SysWrite(fs, ctx, sinks, fd, count, copied); ContextOk(fs', ctx')
  {
    WriteCallKeeps(fs, ctx, sinks, fd, count, copied);
    WriteMovesOffset(fs, ctx, sinks, fd, count, copied);
    var (fs', ctx', sinks', r) := SysWrite(fs, ctx, sinks, fd, count, copied);
    OffsetsAside(fs, fs', ctx, ctx');
  }

  /** The same descriptors, at whatever offsets. */
  ghost predicate SameButOffsets(ctx: FileContext, ctx': FileContext) {
    && ctx'.cwd == ctx.cwd && |ctx'.fds| == |ctx.fds|
    && forall fd | 0 <= fd < |ctx.fds| :: ctx'.fds[fd] == ctx.fds[fd].(offset := ctx'.fds[fd].offset)
  }

  lemma WriteMovesOffset(fs: FileSystem, ctx: FileContext, sinks: Sinks, fd: int, count: nat, copied: Option<seq<byte>>)
    requires DataOk(fs)
    ensures SameButOffsets(ctx, SysWrite(fs, ctx, sinks, fd, count, copied).1)
  {
  }

  lemma OffsetsAside(fs: FileSystem, fs': FileSystem, ctx: FileContext, ctx': FileContext)
    requires Survives(fs, fs') && ContextOk(fs, ctx) && SameButOffsets(ctx, ctx')
    ensures ContextOk(fs', ctx')
  {
    HandlesSurvive(fs, fs', ctx);
    MovedOffsets(fs', ctx, ctx');
  }

  /** Offsets do not matter. */
  lemma MovedOffsets(fs: FileSystem, ctx: FileContext, ctx': FileContext)
    requires ContextOk(fs, ctx) && SameButOffsets(ctx, ctx')
    ensures ContextOk(fs, ctx')
  {
  }

  lemma PerformKeepsHandles(fs: FileSystem, ctx: FileContext, sinks: Sinks, call: Call)
    requires StoreOk(fs) && DataOk(fs) && ContextOk(fs, ctx)
    ensures var (fs', ctx', sinks') := Perform(fs, ctx, sinks, call); ContextOk(fs', ctx')
  {
    if OnPath(call) {
      PathCallKeepsHandles(fs, ctx, sinks, call);
    } else {
      OtherCallKeepsHandles(fs, ctx, sinks, call);
    }
  }

  lemma PathCallKeepsHandles(fs: FileSystem, ctx: FileContext, sinks: Sinks, call: Call)
    requires StoreOk(fs) && DataOk(fs) && ContextOk(fs, ctx) && OnPath(call)
    ensures var (fs', ctx', sinks') := Perform(fs, ctx, sinks, call); ContextOk(fs', ctx')
  {
    if call.Open? {
      OpenKeepsHandles(fs, ctx, call.path, call.flags);
    } else if call.Chdir? {
      ChdirKeepsHandles(fs, ctx, call.path);
    } else {
      TreeCallKeepsHandles(fs, ctx, sinks, call);
    }
  }

  lemma TreeCallKeepsHandles(fs: FileSystem, ctx: FileContext, sinks: Sinks, call: Call)
    requires StoreOk(fs) && DataOk(fs) && ContextOk(fs, ctx) && (call.Mkdir? || call.MakeLink? || call.RemoveLink?)
    ensures var (fs', ctx', sinks') := Perform(fs, ctx, sinks, call); ContextOk(fs', ctx')
  {
    PathCallKeepsStore(fs, ctx, sinks, call);
    var (fs', ctx', sinks') := Perform(fs, ctx, sinks, call);
    HandlesSurvive(fs, fs', ctx);
  }

  lemma OtherCallKeepsHandles(fs: FileSystem, ctx: FileContext, sinks: Sinks, call: Call)
    requires StoreOk(fs) && DataOk(fs) && ContextOk(fs, ctx) && !OnPath(call)
    ensures var (fs', ctx', sinks') := Perform(fs, ctx, sinks, call); ContextOk(fs', ctx')
  {
    match call
    case Write(fd, count, copied) => WriteKeepsHandles(fs, ctx, sinks, fd, count, copied);
    case Read(fd, count, clock, delivered) =>
      ReadMovesOffset(fs, ctx, fd, count, clock, delivered);
      MovedOffsets(fs, ctx, SysRead(fs, ctx, fd, count, clock, delivered).0);
    case Close(fd) => CloseKeepsHandles(fs, ctx, fd);
    case NewProcess => NoHandlesOk(fs);
  }

  lemma ReadMovesOffset(fs: FileSystem, ctx: FileContext, fd: int, count: nat, clock: seq<byte>, delivered: bool)
    requires DataOk(fs)
    ensures SameButOffsets(ctx, SysRead(fs, ctx, fd, count, clock, delivered).0)
  {
  }

  lemma CloseKeepsHandles(fs: FileSystem, ctx: FileContext, fd: int)
    requires ContextOk(fs, ctx)
    ensures ContextOk(fs, SysClose(ctx, fd).0)
  {
  }

  lemma NoHandlesOk(fs: FileSystem)
    ensures ContextOk(fs, NoFiles())
  {
  }

  // ----- runs -----

  datatype Request = Request(slot: nat, call: Call)

  ghost function Serve(s: FileState, r: Request): (s': FileState)
    requires FilesOk(s)
    ensures FilesOk(s') && Survives(s.fs, s'.fs)
  {
    StoreHasData(s.fs);
    if r.slot >= |s.ctxs| then StaysPut(s.fs); s
    else
      var (fs', ctx', sinks') := Perform(s.fs, s.ctxs[r.slot], s.sinks, r.call);
      ServeKeeps(s, r);
      FileState(fs', s.ctxs[r.slot := ctx'], sinks')
  }

  lemma ServeKeeps(s: FileState, r: Request)
    requires FilesOk(s) && DataOk(s.fs) && r.slot < |s.ctxs|
    ensures var (fs', ctx', sinks') := Perform(s.fs, s.ctxs[r.slot], s.sinks, r.call);
            FilesOk(FileState(fs', s.ctxs[r.slot := ctx'], sinks')) && Survives(s.fs, fs')
  {
    PerformKeepsStore(s.fs, s.ctxs[r.slot], s.sinks, r.call);
    PerformKeepsHandles(s.fs, s.ctxs[r.slot], s.sinks, r.call);
    var (fs', ctx', sinks') := Perform(s.fs, s.ctxs[r.slot], s.sinks, r.call);
    forall p | 0 <= p < |s.ctxs| && p != r.slot ensures ContextOk(fs', s.ctxs[p]) {
      HandlesSurvive(s.fs, fs', s.ctxs[p]);
    }
  }

  /** The file system before anything has run. */
  function NoFilesYet(): FileState {
    FileState(Empty(), seq(16, _ => NoFiles()), Sinks([], []))
  }

  lemma NothingIsOk()
    ensures FilesOk(NoFilesYet())
  {
  }

  ghost function RunFiles(s: FileState, rs: seq<Request>): (s': FileState)
    requires FilesOk(s)
    ensures FilesOk(s')
    decreases |rs|
  {
    if rs == [] then s else RunFiles(Serve(s, rs[0]), rs[1..])
  }

  lemma {:induction false} RunSurvives(s: FileState, rs: seq<Request>)
    requires FilesOk(s)
    ensures Survives(s.fs, RunFiles(s, rs).fs)
    decreases |rs|
  {
    if rs == [] {
      StaysPut(s.fs);
    } else {
      var s1 := Serve(s, rs[0]);
      RunSurvives(s1, rs[1..]);
      SurvivesOn(s.fs, s1.fs, RunFiles(s1, rs[1..]).fs);
    }
  }

  /** A handle kept through any run of calls by any processes denotes the inode it denoted when it was taken, or no
      inode at all: never a later one in the same slot of the table. */
  lemma HandlesNeverGoStale(s: FileState, rs: seq<Request>, id: nat)
    requires FilesOk(s) && id < s.fs.nextInodeID
    ensures var was, now := LookupByID(s.fs.inodes, id), LookupByID(RunFiles(s, rs).fs.inodes, id);
            now.Some? ==> now == was && SameInode(s.fs.inodes[was.value], RunFiles(s, rs).fs.inodes[now.value])
  {
    RunSurvives(s, rs);
    var now := LookupByID(RunFiles(s, rs).fs.inodes, id);
    if now.Some? {
      assert s.fs.inodes[now.value].used;
      LookupIs(s.fs.inodes, s.fs.nextInodeID, now.value);
    }
  }

  /** In every state of every run from boot, every descriptor and working directory is such a handle, what is open for
      writing is not a directory, and the file system is in order. */
  lemma EveryRunKeepsFiles(rs: seq<Request>, p: nat, fd: nat)
    requires p < 16 && fd < MAX_OPEN_FILES
    ensures FilesOk(NoFilesYet())
    ensures var s := RunFiles(NoFilesYet(), rs); var ctx := s.ctxs[p];
            && (s.fs.initialized ==> FsOk(s.fs))
            && (ctx.cwd != 0 ==> ctx.cwd < s.fs.nextInodeID)
            && (ctx.fds[fd].used ==> ctx.fds[fd].inodeID < s.fs.nextInodeID)
            && (ctx.fds[fd].used && ctx.fds[fd].writable ==>
                  var i := LookupByID(s.fs.inodes, ctx.fds[fd].inodeID);
                  i.Some? ==> s.fs.inodes[i.value].kind != Directory)
  {
    NothingIsOk();
    var s := RunFiles(NoFilesYet(), rs);
    assert ContextOk(s.fs, s.ctxs[p]);
  }

  lemma InUseResolves(fs: FileSystem, i: nat)
    requires StoreOk(fs) && i < |fs.inodes| && fs.inodes[i].used
    ensures LookupByID(fs.inodes, fs.inodes[i].id) == Some(i)
  {
    LookupIs(fs.inodes, fs.nextInodeID, i);
  }
}
