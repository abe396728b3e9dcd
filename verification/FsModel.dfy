/** The filesystem of phase6_fs.go as values: inodes, directory entries, path walking and the namespace calls.
    A `*inode` is a slot of the inode table; a nil process is None. */
module FsModel {
  import opened Common
  import opened Paths

  const MAX_INODES: nat := 64
  const MAX_DIR_ENTRIES: nat := 32
  const MAX_FILE_BYTES: nat := 4096

  datatype InodeKind = NoKind | File | Directory | Device
  datatype DeviceKind = NoDevice | Console | Uart | Timer

  datatype DirEntry = DirEntry(used: bool, name: string, inodeID: nat)
  const NO_ENTRY: DirEntry := DirEntry(false, "", 0)

  datatype Inode = Inode(used: bool, id: nat, parent: nat, nlink: int, kind: InodeKind, device: DeviceKind,
                         size: nat, data: seq<byte>, dir: seq<DirEntry>)

  function NewInode(id: nat, parent: nat, kind: InodeKind, device: DeviceKind): Inode {
    Inode(true, id, parent, 1, kind, device, 0, seq(MAX_FILE_BYTES, _ => 0), seq(MAX_DIR_ENTRIES, _ => NO_ENTRY))
  }

  /** inode{} */
  function NoInode(): Inode {
    NewInode(0, 0, NoKind, NoDevice).(used := false, nlink := 0)
  }

  datatype FileSystem = FileSystem(initialized: bool, nextInodeID: nat, inodes: seq<Inode>)

  function Empty(): FileSystem {
    FileSystem(false, 0, seq(MAX_INODES, _ => NoInode()))
  }

  // ----- the inode table -----

  function FreeInode(inodes: seq<Inode>, i: nat): (r: Option<nat>)
    requires i <= |inodes|
    ensures r.Some? ==> i <= r.value < |inodes| && !inodes[r.value].used
    ensures r.None? ==> forall j | i <= j < |inodes| :: inodes[j].used
    decreases |inodes| - i
  {
    if i == |inodes| then None else if !inodes[i].used then Some(i) else FreeInode(inodes, i + 1)
  }

  lemma {:induction false} FreeInodeIsLowest(inodes: seq<Inode>, i: nat)
    requires i <= |inodes|
    ensures var r := FreeInode(inodes, i); r.Some? ==> forall j | i <= j < r.value :: inodes[j].used
    decreases |inodes| - i
  {
    if i < |inodes| {
      FreeInodeIsLowest(inodes, i + 1);
    }
  }

  function FindInode(inodes: seq<Inode>, id: nat, i: nat): (r: Option<nat>)
    requires i <= |inodes|
    ensures r.Some? ==> i <= r.value < |inodes| && inodes[r.value].used && inodes[r.value].id == id
    ensures r.None? ==> forall j | i <= j < |inodes| && inodes[j].used :: inodes[j].id != id
    decreases |inodes| - i
  {
    if i == |inodes| then None
    else if inodes[i].used && inodes[i].id == id then Some(i)
    else FindInode(inodes, id, i + 1)
  }

  /** fsLookupByID */
  function LookupByID(inodes: seq<Inode>, id: nat): (r: Option<nat>)
    ensures r.Some? ==> r.value < |inodes| && inodes[r.value].used && inodes[r.value].id == id
  {
    if id == 0 then None else FindInode(inodes, id, 0)
  }

  /** fsAllocInode */
  function AllocInode(fs: FileSystem, kind: InodeKind, parent: nat, device: DeviceKind): (r: (FileSystem, Option<nat>))
    ensures |r.0.inodes| == |fs.inodes| && r.0.initialized == fs.initialized && (r.1.Some? ==> r.1.value < |fs.inodes|)
  {
    match FreeInode(fs.inodes, 0)
    case None => (fs, None)
    case Some(i) =>
      (fs.(inodes := fs.inodes[i := NewInode(fs.nextInodeID, parent, kind, device)], nextInodeID := fs.nextInodeID + 1),
       Some(i))
  }

  // ----- directories -----

  function FindEntry(dir: seq<DirEntry>, name: string, k: nat): (r: Option<nat>)
    requires k <= |dir|
    ensures r.Some? ==> k <= r.value < |dir| && dir[r.value].used && dir[r.value].name == name
    ensures r.None? ==> forall j | k <= j < |dir| && dir[j].used :: dir[j].name != name
    decreases |dir| - k
  {
    if k == |dir| then None
    else if dir[k].used && dir[k].name == name then Some(k)
    else FindEntry(dir, name, k + 1)
  }

  function FreeEntry(dir: seq<DirEntry>, k: nat): (r: Option<nat>)
    requires k <= |dir|
    ensures r.Some? ==> k <= r.value < |dir| && !dir[r.value].used
    ensures r.None? ==> forall j | k <= j < |dir| :: dir[j].used
    decreases |dir| - k
  {
    if k == |dir| then None else if !dir[k].used then Some(k) else FreeEntry(dir, k + 1)
  }

  lemma {:induction false} FreeEntryIsLowest(dir: seq<DirEntry>, k: nat)
    requires k <= |dir|
    ensures var r := FreeEntry(dir, k); r.Some? ==> forall j | k <= j < r.value :: dir[j].used
    decreases |dir| - k
  {
    if k < |dir| {
      FreeEntryIsLowest(dir, k + 1);
    }
  }

  /** fsLookupInDir */
  function LookupInDir(inodes: seq<Inode>, d: nat, name: string): (r: Option<nat>)
    requires d < |inodes|
    ensures r.Some? ==> r.value < |inodes| && inodes[r.value].used
  {
    if inodes[d].kind != Directory then None
    else
      match FindEntry(inodes[d].dir, name, 0)
      case None => None
      case Some(k) => LookupByID(inodes, inodes[d].dir[k].inodeID)
  }

  /** Rewrite one entry of one directory. */
  function WithEntry(inodes: seq<Inode>, d: nat, k: nat, e: DirEntry): seq<Inode>
    requires d < |inodes| && k < |inodes[d].dir|
  {
    inodes[d := inodes[d].(dir := inodes[d].dir[k := e])]
  }

  /** fsAddDirEntry */
  function AddDirEntry(inodes: seq<Inode>, d: nat, name: string, child: nat): Option<seq<Inode>>
    requires d < |inodes|
  {
    if inodes[d].kind != Directory || name == "" || '/' in name then None
    else if LookupInDir(inodes, d, name).Some? then None
    else
      match FreeEntry(inodes[d].dir, 0)
      case None => None
      case Some(k) => Some(WithEntry(inodes, d, k, DirEntry(true, name, child)))
  }

  /** fsRemoveDirEntry */
  function RemoveDirEntry(inodes: seq<Inode>, d: nat, name: string): Option<(seq<Inode>, nat)>
    requires d < |inodes|
  {
    if inodes[d].kind != Directory then None
    else
      match FindEntry(inodes[d].dir, name, 0)
      case None => None
      case Some(k) => Some((WithEntry(inodes, d, k, NO_ENTRY), inodes[d].dir[k].inodeID))
  }

  /** fsDirEmpty */
  predicate DirEmpty(node: Inode) {
    node.kind == Directory && forall k | 0 <= k < |node.dir| :: !node.dir[k].used
  }

  // ----- paths -----

  /** One component: up for "..", otherwise down by name. */
  function Step(inodes: seq<Inode>, cur: nat, part: string): (r: Option<nat>)
    requires cur < |inodes|
    ensures r.Some? ==> r.value < |inodes| && inodes[r.value].used
  {
    if part == ".." then LookupByID(inodes, inodes[cur].parent) else LookupInDir(inodes, cur, part)
  }

  function Walk(inodes: seq<Inode>, cur: nat, parts: seq<string>): (r: Option<nat>)
    requires cur < |inodes|
    ensures r.Some? ==> r.value < |inodes| && (inodes[cur].used ==> inodes[r.value].used)
    decreases |parts|
  {
    if parts == [] then Some(cur)
    else
      match Step(inodes, cur, parts[0])
      case None => None
      case Some(next) => Walk(inodes, next, parts[1..])
  }

  /** fsStartingDir; the directory a relative path starts from is the process's cwd id, None for no process. */
  function StartingDir(inodes: seq<Inode>, cwd: Option<nat>, path: string): (r: Option<nat>)
    ensures r.Some? ==> r.value < |inodes| && inodes[r.value].used
  {
    match LookupByID(inodes, 1)
    case None => None
    case Some(root) =>
      if Absolute(path) || cwd.None? then Some(root)
      else if cwd.value == 0 then Some(root)
      else LookupByID(inodes, cwd.value)
  }

  /** fsLookupByPath */
  function LookupByPath(inodes: seq<Inode>, cwd: Option<nat>, path: string): (r: Option<nat>)
    ensures r.Some? ==> r.value < |inodes| && inodes[r.value].used
  {
    if path == "" then None
    else
      match StartingDir(inodes, cwd, path)
      case None => None
      case Some(start) => Walk(inodes, start, Components(path))
  }

  /** fsResolveParent */
  function ResolveParent(inodes: seq<Inode>, cwd: Option<nat>, path: string): (r: Option<(nat, string)>)
    ensures r.Some? ==> r.value.0 < |inodes| && inodes[r.value.0].used && inodes[r.value.0].kind == Directory
  {
    if path == "" || path == "/" then None
    else
      var parts := Components(path);
      if parts == [] then None
      else
        match LookupByPath(inodes, cwd, ParentPath(path, parts))
        case None => None
        case Some(parent) => if inodes[parent].kind != Directory then None else Some((parent, parts[|parts| - 1]))
  }

  // ----- namespace calls -----

  /** The part of fsCreatePath after the parent is found. */
  function CreateIn(fs: FileSystem, d: nat, name: string, kind: InodeKind,
                    device: DeviceKind): (r: (FileSystem, Option<nat>))
    requires d < |fs.inodes|
    ensures |r.0.inodes| == |fs.inodes| && r.0.initialized == fs.initialized && (r.1.Some? ==> r.1.value < |fs.inodes|)
  {
    if LookupInDir(fs.inodes, d, name).Some? then (fs, None)
    else
      var (fs1, node) := AllocInode(fs, kind, fs.inodes[d].id, device);
      match node
      case None => (fs, None)
      case Some(i) =>
        match AddDirEntry(fs1.inodes, d, name, fs1.inodes[i].id)
        case None => (fs1.(inodes := fs1.inodes[i := NoInode()]), None)
        case Some(inodes) => (fs1.(inodes := inodes), Some(i))
  }

  /** fsCreatePath */
  function CreatePath(fs: FileSystem, cwd: Option<nat>, path: string, kind: InodeKind,
                      device: DeviceKind): (r: (FileSystem, Option<nat>))
    ensures |r.0.inodes| == |fs.inodes| && r.0.initialized == fs.initialized && (r.1.Some? ==> r.1.value < |fs.inodes|)
  {
    match ResolveParent(fs.inodes, cwd, path)
    case None => (fs, None)
    case Some((d, name)) => CreateIn(fs, d, name, kind, device)
  }

  /** The part of sysLink after both paths are resolved. */
  function LinkIn(fs: FileSystem, node: nat, d: nat, name: string): (FileSystem, bool)
    requires node < |fs.inodes| && d < |fs.inodes|
  {
    match AddDirEntry(fs.inodes, d, name, fs.inodes[node].id)
    case None => (fs, false)
    case Some(inodes) => (fs.(inodes := inodes[node := inodes[node].(nlink := inodes[node].nlink + 1)]), true)
  }

  /** sysLink */
  function Link(fs: FileSystem, cwd: Option<nat>, oldPath: string, newPath: string): (FileSystem, bool) {
    match LookupByPath(fs.inodes, cwd, oldPath)
    case None => (fs, false)
    case Some(node) =>
      if fs.inodes[node].kind == Directory then (fs, false)
      else
        match ResolveParent(fs.inodes, cwd, newPath)
        case None => (fs, false)
        case Some((d, name)) => LinkIn(fs, node, d, name)
  }

  /** The part of sysUnlink after the parent is found. */
  function UnlinkIn(fs: FileSystem, d: nat, name: string): (FileSystem, bool)
    requires d < |fs.inodes|
  {
    match RemoveDirEntry(fs.inodes, d, name)
    case None => (fs, false)
    case Some((inodes, id)) =>
      match LookupByID(inodes, id)
      case None => (fs.(inodes := inodes), false)
      case Some(n) =>
        if inodes[n].kind == Directory && !DirEmpty(inodes[n]) then
          var back := AddDirEntry(inodes, d, name, id);
          (fs.(inodes := if back.Some? then back.value else inodes), false)
        else
          var left := inodes[n].(nlink := inodes[n].nlink - 1);
          (fs.(inodes := inodes[n := if left.nlink <= 0 then NoInode() else left]), true)
  }

  /** sysUnlink */
  function Unlink(fs: FileSystem, cwd: Option<nat>, path: string): (FileSystem, bool) {
    match ResolveParent(fs.inodes, cwd, path)
    case None => (fs, false)
    case Some((d, name)) => UnlinkIn(fs, d, name)
  }

  // ----- regular files -----

  /** fsWriteRegular: the inode after the write, and how many bytes went in. */
  function WriteRegular(node: Inode, offset: nat, src: seq<byte>): (Inode, nat)
    requires |node.data| == MAX_FILE_BYTES
  {
    if node.kind != File || offset >= MAX_FILE_BYTES then (node, 0)
    else
      var n := Min(|src|, MAX_FILE_BYTES - offset);
      if n == 0 then (node, 0)
      else
        (node.(data := node.data[..offset] + src[..n] + node.data[offset + n..],
               size := if offset + n > node.size then offset + n else node.size), n)
  }

  /** fsReadRegular into a buffer of `count` bytes. */
  function ReadRegular(node: Inode, offset: nat, count: nat): seq<byte>
    requires |node.data| == MAX_FILE_BYTES && node.size <= MAX_FILE_BYTES
  {
    if node.kind != File || offset >= node.size then []
    else node.data[offset..offset + Min(count, node.size - offset)]
  }
}
