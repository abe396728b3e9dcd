/** Descriptors, working directories and the file system calls of phase6_fs.go as values. What copyin and copyout
    deliver are inputs here; UserFiles puts the user's memory in. A system call's error is None. */
module Files {
  import opened Common
  import opened FsModel

  const MAX_OPEN_FILES: nat := 16
  const MAX_IO_BYTES: nat := 4096

  datatype Descriptor = Descriptor(used: bool, inodeID: nat, offset: nat, readable: bool, writable: bool)
  const CLOSED: Descriptor := Descriptor(false, 0, 0, false, false)

  /** The part of a process record that the file calls use. */
  datatype FileContext = FileContext(cwd: nat, fds: seq<Descriptor>)

  function NoFiles(): FileContext {
    FileContext(0, seq(MAX_OPEN_FILES, _ => CLOSED))
  }

  // ----- phase6Init -----

  datatype BootNode = BootNode(path: string, kind: InodeKind, device: DeviceKind)

  const BOOT_NODES: seq<BootNode> :=
    [BootNode("/dev", Directory, NoDevice), BootNode("/dev/console", Device, Console),
     BootNode("/dev/uart", Device, Uart), BootNode("/dev/timer", Device, Timer), BootNode("/init", File, NoDevice)]

  /** Create the nodes in order; the last one's inode, or None at the first that cannot be created. */
  function Populate(fs: FileSystem, nodes: seq<BootNode>, last: nat): (r: (FileSystem, Option<nat>))
    requires last < |fs.inodes|
    ensures |r.0.inodes| == |fs.inodes| && (r.1.Some? ==> r.1.value < |r.0.inodes| && r.0.initialized == fs.initialized)
    decreases |nodes|
  {
    if nodes == [] then (fs, Some(last))
    else
      var (fs', made) := CreatePath(fs, None, nodes[0].path, nodes[0].kind, nodes[0].device);
      match made
      case None => (fs'.(initialized := false), None)
      case Some(i) => Populate(fs', nodes[1..], i)
  }

  const INIT_BYTES: seq<byte> := [105, 110, 105, 116, 10]

  /** The root, alone. */
  function WithRoot(fs: FileSystem, root: nat): FileSystem
    requires root < |fs.inodes|
  {
    fs.(inodes := fs.inodes[root := fs.inodes[root].(parent := fs.inodes[root].id, nlink := 1)], initialized := true)
  }

  /** File contents are arrays of a fixed length, and sizes stay within it. */
  ghost predicate DataOk(fs: FileSystem) {
    forall i | 0 <= i < |fs.inodes| :: |fs.inodes[i].data| == MAX_FILE_BYTES && fs.inodes[i].size <= MAX_FILE_BYTES
  }

  /** Write through an inode of the table. */
  function WriteNode(fs: FileSystem, i: nat, offset: nat, src: seq<byte>): (FileSystem, nat)
    requires i < |fs.inodes| && |fs.inodes[i].data| == MAX_FILE_BYTES
  {
    var (node, n) := WriteRegular(fs.inodes[i], offset, src);
    (fs.(inodes := fs.inodes[i := node]), n)
  }

  /** phase6Init */
  function Init(fs: FileSystem): (r: (FileSystem, bool))
    requires DataOk(fs)
    ensures r.1 ==> r.0.initialized
  {
    if fs.initialized then (fs, true)
    else
      var (fs1, root) := AllocInode(fs.(nextInodeID := 1), Directory, 0, NoDevice);
      match root
      case None => (fs1, false)
      case Some(r) =>
        var (fs2, init) := Populate(WithRoot(fs1, r), BOOT_NODES, r);
        match init
        case None => (fs2, false)
        case Some(i) =>
          PopulateKeepsData(WithRoot(fs1, r), BOOT_NODES, r);
          (WriteNode(fs2, i, 0, INIT_BYTES).0, true)
  }

  lemma CreateInKeepsData(fs: FileSystem, d: nat, name: string, kind: InodeKind, device: DeviceKind)
    requires DataOk(fs) && d < |fs.inodes|
    ensures DataOk(CreateIn(fs, d, name, kind, device).0)
  {
  }

  lemma {:induction false} PopulateKeepsData(fs: FileSystem, nodes: seq<BootNode>, last: nat)
    requires DataOk(fs) && last < |fs.inodes|
    ensures DataOk(Populate(fs, nodes, last).0)
    decreases |nodes|
  {
    if nodes != [] {
      var at := ResolveParent(fs.inodes, None, nodes[0].path);
      if at.Some? {
        CreateInKeepsData(fs, at.value.0, at.value.1, nodes[0].kind, nodes[0].device);
      }
      var (fs', made) := CreatePath(fs, None, nodes[0].path, nodes[0].kind, nodes[0].device);
      if made.Some? {
        PopulateKeepsData(fs', nodes[1..], made.value);
      }
    }
  }

  // ----- descriptors -----

  function FreeFD(fds: seq<Descriptor>, i: nat): (r: Option<nat>)
    requires i <= |fds|
    ensures r.Some? ==> i <= r.value < |fds| && !fds[r.value].used
    ensures r.None? ==> forall j | i <= j < |fds| :: fds[j].used
    decreases |fds| - i
  {
    if i == |fds| then None else if !fds[i].used then Some(i) else FreeFD(fds, i + 1)
  }

  /** allocFD */
  function AllocFD(ctx: FileContext, id: nat, readable: bool, writable: bool): (FileContext, Option<nat>) {
    match FreeFD(ctx.fds, 0)
    case None => (ctx, None)
    case Some(fd) => (ctx.(fds := ctx.fds[fd := Descriptor(true, id, 0, readable, writable)]), Some(fd))
  }

  /** lookupFD succeeds. */
  predicate IsOpen(ctx: FileContext, fd: int) {
    0 <= fd < |ctx.fds| && ctx.fds[fd].used
  }

  function Advance(ctx: FileContext, fd: int, n: nat): FileContext
    requires IsOpen(ctx, fd)
  {
    ctx.(fds := ctx.fds[fd := ctx.fds[fd].(offset := ctx.fds[fd].offset + n)])
  }

  // ----- calls on paths -----

  /** openRead, openWrite and openCreate are the bits 1, 2 and 4. */
  predicate WantsRead(flags: nat) { flags % 2 == 1 }
  predicate WantsWrite(flags: nat) { flags / 2 % 2 == 1 }
  predicate WantsCreate(flags: nat) { flags / 4 % 2 == 1 }

  /** The inode sysOpen opens: the one the path names, or a new file. */
  function OpenTarget(fs: FileSystem, cwd: nat, path: string, flags: nat): (r: (FileSystem, Option<nat>))
    ensures r.1.Some? ==> r.1.value < |r.0.inodes|
  {
    var node := LookupByPath(fs.inodes, Some(cwd), path);
    if node.None? && WantsCreate(flags) then CreatePath(fs, Some(cwd), path, File, NoDevice) else (fs, node)
  }

  /** sysOpen */
  function SysOpen(fs: FileSystem, ctx: FileContext, path: string, flags: nat): (FileSystem, FileContext, Option<nat>)
    requires DataOk(fs)
  {
    if path == "" then (fs, ctx, None)
    else
      var (fs1, ok) := Init(fs);
      if !ok then (fs1, ctx, None)
      else
        var (fs2, node) := OpenTarget(fs1, ctx.cwd, path, flags);
        if node.None? then (fs2, ctx, None)
        else if fs2.inodes[node.value].kind == Directory && WantsWrite(flags) then (fs2, ctx, None)
        else
          var readable := WantsRead(flags) || !WantsWrite(flags);
          var (ctx', fd) := AllocFD(ctx, fs2.inodes[node.value].id, readable, WantsWrite(flags));
          (fs2, ctx', fd)
  }

  /** sysMkdir */
  function SysMkdir(fs: FileSystem, ctx: FileContext, path: string): (FileSystem, Option<nat>)
    requires DataOk(fs)
  {
    var (fs1, ok) := Init(fs);
    if !ok then (fs1, None)
    else
      var (fs2, made) := CreatePath(fs1, Some(ctx.cwd), path, Directory, NoDevice);
      (fs2, if made.Some? then Some(0) else None)
  }

  /** sysChdir */
  function SysChdir(fs: FileSystem, ctx: FileContext, path: string): (FileSystem, FileContext, Option<nat>)
    requires DataOk(fs)
  {
    var (fs1, ok) := Init(fs);
    if !ok then (fs1, ctx, None)
    else
      match LookupByPath(fs1.inodes, Some(ctx.cwd), path)
      case None => (fs1, ctx, None)
      case Some(node) =>
        if fs1.inodes[node].kind != Directory then (fs1, ctx, None)
        else (fs1, ctx.(cwd := fs1.inodes[node].id), Some(0))
  }

  /** sysLink */
  function SysLink(fs: FileSystem, ctx: FileContext, oldPath: string, newPath: string): (FileSystem, Option<nat>)
    requires DataOk(fs)
  {
    var (fs1, ok) := Init(fs);
    if !ok then (fs1, None)
    else
      var (fs2, linked) := Link(fs1, Some(ctx.cwd), oldPath, newPath);
      (fs2, if linked then Some(0) else None)
  }

  /** sysUnlink */
  function SysUnlink(fs: FileSystem, ctx: FileContext, path: string): (FileSystem, Option<nat>)
    requires DataOk(fs)
  {
    var (fs1, ok) := Init(fs);
    if !ok then (fs1, None)
    else
      var (fs2, gone) := Unlink(fs1, Some(ctx.cwd), path);
      (fs2, if gone then Some(0) else None)
  }

  // ----- calls on descriptors -----

  /** sysClose */
  function SysClose(ctx: FileContext, fd: int): (FileContext, Option<nat>) {
    if !IsOpen(ctx, fd) then (ctx, None) else (ctx.(fds := ctx.fds[fd := CLOSED]), Some(0))
  }

  /** fsReadDevice; `clock` is the decimal text of the tick counter at the time of the call. */
  function ReadDevice(device: DeviceKind, offset: nat, count: nat, clock: seq<byte>): seq<byte> {
    if device != Timer || offset >= |clock| then [] else clock[offset..offset + Min(count, |clock| - offset)]
  }

  /** The bytes sysRead has for the user; None is its error. */
  function Fetch(fs: FileSystem, ctx: FileContext, fd: int, count: nat, clock: seq<byte>): Option<seq<byte>>
    requires DataOk(fs)
  {
    if !IsOpen(ctx, fd) || !ctx.fds[fd].readable || count > MAX_IO_BYTES then None
    else
      match LookupByID(fs.inodes, ctx.fds[fd].inodeID)
      case None => None
      case Some(i) =>
        match fs.inodes[i].kind
        case File => Some(ReadRegular(fs.inodes[i], ctx.fds[fd].offset, count))
        case Device => Some(ReadDevice(fs.inodes[i].device, ctx.fds[fd].offset, count, clock))
        case _ => None
  }

  /** sysRead, given whether copyout delivers the bytes. */
  function SysRead(fs: FileSystem, ctx: FileContext, fd: int, count: nat, clock: seq<byte>,
                   delivered: bool): (FileContext, Option<nat>)
    requires DataOk(fs)
  {
    match Fetch(fs, ctx, fd, count, clock)
    case None => (ctx, None)
    case Some(bytes) =>
      if bytes == [] then (ctx, Some(0))
      else if !delivered then (ctx, None)
      else (Advance(ctx, fd, |bytes|), Some(|bytes|))
  }

  /** What the devices have been sent. */
  datatype Sinks = Sinks(console: seq<byte>, uart: seq<byte>)

  /** fsWriteDevice */
  function WriteDevice(sinks: Sinks, device: DeviceKind, src: seq<byte>): (Sinks, nat) {
    match device
    case Console => (sinks.(console := sinks.console + src), |src|)
    case Uart => (sinks.(uart := sinks.uart + src), |src|)
    case _ => (sinks, 0)
  }

  /** The inode sysWrite may write `count` bytes to; None is its error before copyin. */
  function WriteTarget(fs: FileSystem, ctx: FileContext, fd: int, count: nat): (r: Option<nat>)
    ensures r.Some? ==> IsOpen(ctx, fd) && LookupByID(fs.inodes, ctx.fds[fd].inodeID) == r && r.value < |fs.inodes|
  {
    if !IsOpen(ctx, fd) || !ctx.fds[fd].writable || count > MAX_IO_BYTES then None
    else LookupByID(fs.inodes, ctx.fds[fd].inodeID)
  }

  /** The part of sysWrite after copyin. */
  function WriteOut(fs: FileSystem, sinks: Sinks, i: nat, offset: nat, src: seq<byte>): (FileSystem, Sinks, Option<nat>)
    requires DataOk(fs) && i < |fs.inodes|
  {
    match fs.inodes[i].kind
    case File => (var (fs', n) := WriteNode(fs, i, offset, src); (fs', sinks, Some(n)))
    case Device => (var (sinks', n) := WriteDevice(sinks, fs.inodes[i].device, src); (fs, sinks', Some(n)))
    case _ => (fs, sinks, None)
  }

  /** sysWrite, given what copyin reads from the user. */
  function SysWrite(fs: FileSystem, ctx: FileContext, sinks: Sinks, fd: int, count: nat, copied: Option<seq<byte>>)
    : (FileSystem, FileContext, Sinks, Option<nat>)
    requires DataOk(fs)
  {
    var i := WriteTarget(fs, ctx, fd, count);
    if i.None? || copied.None? then (fs, ctx, sinks, None)
    else
      var (fs', sinks', n) := WriteOut(fs, sinks, i.value, ctx.fds[fd].offset, copied.value);
      (fs', if n.Some? then Advance(ctx, fd, n.value) else ctx, sinks', n)
  }
}
