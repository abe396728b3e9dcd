/** The filesystem of phase6_fs.go, updated in place: globalFS and its inode table. A
    `*inode` is a slot of the table. */
module FileStore {
  import opened Common
  import opened Paths
  import opened FsModel
  import opened Files
  import opened UserFiles
  import opened Kernel

  class Store {
    const inodes: array<Inode>
    var nextInodeID: nat
    var initialized: bool
    var sinks: Sinks

    ghost predicate Valid()
      reads this, inodes
    {
      && inodes.Length == MAX_INODES
      && forall i | 0 <= i < inodes.Length :: |inodes[i].data| == MAX_FILE_BYTES && inodes[i].size <= MAX_FILE_BYTES
    }

    ghost function View(): FileSystem
      reads this, inodes
    {
      FileSystem(initialized, nextInodeID, inodes[..])
    }

    /** phase6ResetForTest, and the state before the first call. */
    constructor ()
      ensures Valid() && View() == Empty() && sinks == Sinks([], []) && fresh(inodes)
    {
      inodes := new Inode[MAX_INODES](_ => NoInode());
      nextInodeID, initialized, sinks := 0, false, Sinks([], []);
    }

    // ----- the inode table -----

    method FsAllocInode(kind: InodeKind, parent: nat, device: DeviceKind) returns (node: Option<nat>)
      requires Valid()
      modifies this`nextInodeID, inodes
      ensures Valid() && (View(), node) == AllocInode(old(View()), kind, parent, device)
    {
      for i := 0 to MAX_INODES
        invariant Valid() && View() == old(View())
        invariant FreeInode(inodes[..], i) == FreeInode(inodes[..], 0)
      {
        if inodes[i].used {
          continue;
        }
        inodes[i] := NewInode(nextInodeID, parent, kind, device);
        nextInodeID := nextInodeID + 1;
        return Some(i);
      }
      node := None;
    }

    method FsLookupByID(id: nat) returns (node: Option<nat>)
      requires Valid()
      ensures node == LookupByID(inodes[..], id)
    {
      if id == 0 {
        return None;
      }
      for i := 0 to MAX_INODES
        invariant FindInode(inodes[..], id, i) == FindInode(inodes[..], id, 0)
      {
        if !inodes[i].used || inodes[i].id != id {
          continue;
        }
        return Some(i);
      }
      node := None;
    }

    method FsLookupInDir(d: nat, name: string) returns (node: Option<nat>)
      requires Valid() && d < MAX_INODES
      ensures node == LookupInDir(inodes[..], d, name)
    {
      if inodes[d].kind != Directory {
        return None;
      }
      var dir := inodes[d].dir;
      for i := 0 to |dir|
        invariant FindEntry(dir, name, i) == FindEntry(dir, name, 0)
      {
        var entry := dir[i];
        if !entry.used || entry.name != name {
          continue;
        }
        node := FsLookupByID(entry.inodeID);
        return;
      }
      node := None;
    }

    method SetEntry(d: nat, k: nat, e: DirEntry)
      requires Valid() && d < MAX_INODES && k < |inodes[d].dir|
      modifies inodes
      ensures Valid() && inodes[..] == WithEntry(old(inodes[..]), d, k, e)
    {
      inodes[d] := inodes[d].(dir := inodes[d].dir[k := e]);
    }

    method FsAddDirEntry(d: nat, name: string, child: nat) returns (ok: bool)
      requires Valid() && d < MAX_INODES
      modifies inodes
      ensures Valid()
      ensures var r := AddDirEntry(old(inodes[..]), d, name, child);
              ok == r.Some? && inodes[..] == if ok then r.value else old(inodes[..])
    {
      if inodes[d].kind != Directory || name == "" || '/' in name {
        return false;
      }
      var present := FsLookupInDir(d, name);
      if present.Some? {
        return false;
      }
      for i := 0 to |inodes[d].dir|
        invariant Valid() && inodes[..] == old(inodes[..])
        invariant FreeEntry(inodes[d].dir, i) == FreeEntry(inodes[d].dir, 0)
      {
        if inodes[d].dir[i].used {
          continue;
        }
        SetEntry(d, i, DirEntry(true, name, child));
        return true;
      }
      ok := false;
    }

    method FsRemoveDirEntry(d: nat, name: string) returns (id: Option<nat>)
      requires Valid() && d < MAX_INODES
      modifies inodes
      ensures Valid()
      ensures var r := RemoveDirEntry(old(inodes[..]), d, name);
              if r.None? then id.None? && inodes[..] == old(inodes[..])
              else id == Some(r.value.1) && inodes[..] == r.value.0
    {
      if inodes[d].kind != Directory {
        return None;
      }
      for i := 0 to |inodes[d].dir|
        invariant Valid() && inodes[..] == old(inodes[..])
        invariant FindEntry(inodes[d].dir, name, i) == FindEntry(inodes[d].dir, name, 0)
      {
        var entry := inodes[d].dir[i];
        if !entry.used || entry.name != name {
          continue;
        }
        SetEntry(d, i, NO_ENTRY);
        return Some(entry.inodeID);
      }
      id := None;
    }

    // ----- paths -----

    method FsSplitPath(path: string) returns (filtered: seq<string>)
      ensures filtered == Components(path)
    {
      filtered := [];
      if path == "" {
        return;
      }
      var parts := Split(path);
      for i := 0 to |parts|
        invariant filtered + Keep(parts[i..]) == Keep(parts)
      {
        if parts[i] == "" || parts[i] == "." {
          continue;
        }
        filtered := filtered + [parts[i]];
      }
    }

    method FsStartingDir(cwd: Option<nat>, path: string) returns (start: Option<nat>)
      requires Valid()
      ensures start == StartingDir(inodes[..], cwd, path)
    {
      var root := FsLookupByID(1);
      if root.None? {
        return None;
      }
      if (path != "" && path[0] == '/') || cwd.None? {
        return root;
      }
      if cwd.value == 0 {
        return root;
      }
      start := FsLookupByID(cwd.value);
    }

    /** The loop of fsLookupByPath. */
    method WalkFrom(start: nat, parts: seq<string>) returns (node: Option<nat>)
      requires Valid() && start < MAX_INODES
      ensures node == Walk(inodes[..], start, parts)
    {
      var current: nat := start;
      for i := 0 to |parts|
        invariant current < MAX_INODES
        invariant Walk(inodes[..], current, parts[i..]) == Walk(inodes[..], start, parts)
      {
        var next: Option<nat>;
        if parts[i] == ".." {
          next := FsLookupByID(inodes[current].parent);
        } else {
          next := FsLookupInDir(current, parts[i]);
        }
        if next.None? {
          return None;
        }
        current := next.value;
      }
      node := Some(current);
    }

    // ----- initialisation, and what comes after it -----

    /** The filesystem after phase6Init, and whether that succeeded. */
    ghost function Started(): (FileSystem, bool)
      reads this, inodes
      requires Valid()
    {
      Init(View())
    }

    method FsLookupByPath(cwd: Option<nat>, path: string) returns (node: Option<nat>)
      requires Valid()
      modifies this, inodes
      ensures Valid() && sinks == old(sinks)
      ensures var (fs, ok) := old(Started());
              View() == fs && node == if ok then LookupByPath(fs.inodes, cwd, path) else None
      decreases if initialized then 0 else 1, 1
    {
      var ok := Phase6Init();
      if !ok || path == "" {
        return None;
      }
      var start := FsStartingDir(cwd, path);
      if start.None? {
        return None;
      }
      var parts := FsSplitPath(path);
      node := WalkFrom(start.value, parts);
    }

    /** The path fsResolveParent looks up. */
    method ParentOf(path: string, parts: seq<string>) returns (parentPath: string)
      requires path != "" && parts != []
      ensures parentPath == ParentPath(path, parts)
    {
      parentPath := ".";
      if path[0] == '/' {
        parentPath := "/";
      }
      if |parts| > 1 {
        if path[0] == '/' {
          parentPath := parentPath + Join(parts[..|parts| - 1]);
        } else {
          parentPath := Join(parts[..|parts| - 1]);
        }
      }
    }

    method FsResolveParent(cwd: Option<nat>, path: string) returns (at: Option<(nat, string)>)
      requires Valid()
      modifies this, inodes
      ensures Valid() && sinks == old(sinks)
      ensures if path == "" || path == "/" || Components(path) == [] then at.None? && View() == old(View())
              else var (fs, ok) := old(Started());
                   View() == fs && at == if ok then ResolveParent(fs.inodes, cwd, path) else None
      decreases if initialized then 0 else 1, 2
    {
      if path == "" || path == "/" {
        return None;
      }
      var parts := FsSplitPath(path);
      if |parts| == 0 {
        return None;
      }
      var name := parts[|parts| - 1];
      var parentPath := ParentOf(path, parts);
      var parent := FsLookupByPath(cwd, parentPath);
      if parent.None? || inodes[parent.value].kind != Directory {
        return None;
      }
      at := Some((parent.value, name));
    }

    /** The part of fsCreatePath after the parent is found. */
    method CreateEntry(d: nat, name: string, kind: InodeKind, device: DeviceKind) returns (node: Option<nat>)
      requires Valid() && d < MAX_INODES
      modifies this`nextInodeID, inodes
      ensures Valid() && (View(), node) == CreateIn(old(View()), d, name, kind, device)
    {
      var present := FsLookupInDir(d, name);
      if present.Some? {
        return None;
      }
      node := FsAllocInode(kind, inodes[d].id, device);
      if node.None? {
        return;
      }
      var ok := FsAddDirEntry(d, name, inodes[node.value].id);
      if !ok {
        inodes[node.value] := NoInode();
        return None;
      }
    }

    method FsCreatePath(cwd: Option<nat>, path: string, kind: InodeKind, device: DeviceKind) returns (node: Option<nat>)
      requires Valid()
      modifies this, inodes
      ensures Valid() && sinks == old(sinks)
      ensures if path == "" || path == "/" || Components(path) == [] then node.None? && View() == old(View())
              else var (fs, ok) := old(Started());
                   if ok then (View(), node) == CreatePath(fs, cwd, path, kind, device) else View() == fs && node.None?
      decreases if initialized then 0 else 1, 3
    {
      var at := FsResolveParent(cwd, path);
      if at.None? {
        return None;
      }
      node := CreateEntry(at.value.0, at.value.1, kind, device);
    }

    /** One of the creations of phase6Init, that of the first node given, which gives up if it fails. */
    method CreateBootNode(nodes: seq<BootNode>, ghost last: nat) returns (node: Option<nat>)
      requires Valid() && initialized && nodes != [] && last < MAX_INODES
      modifies this, inodes
      ensures Valid() && sinks == old(sinks) && (node.Some? ==> initialized && node.value < MAX_INODES)
      ensures Populate(old(View()), nodes, last) ==
                if node.None? then (View(), None) else Populate(View(), nodes[1..], node.value)
      decreases 0, 4, 0
    {
      node := FsCreatePath(None, nodes[0].path, nodes[0].kind, nodes[0].device);
      if node.None? {
        initialized := false;
      }
    }

    method Phase6Init() returns (ok: bool)
      requires Valid()
      modifies this, inodes
      ensures Valid() && sinks == old(sinks)
      ensures (View(), ok) == old(Started()) && (ok ==> initialized)
      decreases if initialized then 0 else 1, 0
    {
      if initialized {
        return true;
      }
      nextInodeID := 1;
      var root := FsAllocInode(Directory, 0, NoDevice);
      if root.None? {
        return false;
      }
      inodes[root.value] := inodes[root.value].(parent := inodes[root.value].id, nlink := 1);
      initialized := true;
      ok := CreateBootTree(root.value);
    }

    /** The rest of phase6Init, once the root is there. */
    method CreateBootTree(root: nat) returns (ok: bool)
      requires Valid() && initialized && root < MAX_INODES
      modifies this, inodes
      ensures Valid() && sinks == old(sinks)
      ensures var (fs, init) := Populate(old(View()), BOOT_NODES, root);
              if init.None? then !ok && View() == fs
              else
                && ok && |fs.inodes[init.value].data| == MAX_FILE_BYTES
                && View() == WriteNode(fs, init.value, 0, INIT_BYTES).0
      decreases 0, 4, 2
    {
      var timer := CreateDevices(root);
      if timer.None? {
        return false;
      }
      var init := CreateBootNode(BOOT_NODES[4..], timer.value);
      if init.None? {
        return false;
      }
      var n := FsWriteRegular(init.value, 0, INIT_BYTES);
      ok := true;
    }

    /** /dev and the three nodes in it. */
    method CreateDevices(ghost root: nat) returns (timer: Option<nat>)
      requires Valid() && initialized && root < MAX_INODES
      modifies this, inodes
      ensures Valid() && sinks == old(sinks) && (timer.Some? ==> initialized && timer.value < MAX_INODES)
      ensures Populate(old(View()), BOOT_NODES, root) ==
                if timer.None? then (View(), None) else Populate(View(), BOOT_NODES[4..], timer.value)
      decreases 0, 4, 1
    {
      var dev := CreateBootNode(BOOT_NODES, root);
      if dev.None? {
        return None;
      }
      var console := CreateBootNode(BOOT_NODES[1..], dev.value);
      if console.None? {
        return None;
      }
      var uart := CreateBootNode(BOOT_NODES[1..][1..], console.value);
      if uart.None? {
        return None;
      }
      timer := CreateBootNode(BOOT_NODES[1..][1..][1..], uart.value);
    }

    // ----- the same once initialised -----

    method LookupNow(cwd: Option<nat>, path: string) returns (node: Option<nat>)
      requires Valid() && initialized
      modifies this, inodes
      ensures Valid() && sinks == old(sinks) && View() == old(View())
      ensures node == LookupByPath(inodes[..], cwd, path)
    {
      node := FsLookupByPath(cwd, path);
    }

    method ResolveNow(cwd: Option<nat>, path: string) returns (at: Option<(nat, string)>)
      requires Valid() && initialized
      modifies this, inodes
      ensures Valid() && sinks == old(sinks) && View() == old(View())
      ensures at == ResolveParent(inodes[..], cwd, path)
    {
      at := FsResolveParent(cwd, path);
    }

    method CreateNow(cwd: Option<nat>, path: string, kind: InodeKind, device: DeviceKind) returns (node: Option<nat>)
      requires Valid() && initialized
      modifies this, inodes
      ensures Valid() && sinks == old(sinks)
      ensures (View(), node) == CreatePath(old(View()), cwd, path, kind, device)
    {
      node := FsCreatePath(cwd, path, kind, device);
    }

    // ----- regular files -----

    method FsWriteRegular(i: nat, offset: nat, src: seq<byte>) returns (n: nat)
      requires Valid() && i < MAX_INODES
      modifies inodes
      ensures Valid() && (View(), n) == WriteNode(old(View()), i, offset, src)
    {
      var node := inodes[i];
      assert inodes[..][i := node] == inodes[..];
      if node.kind != File || offset >= MAX_FILE_BYTES {
        return 0;
      }
      var remaining := MAX_FILE_BYTES - offset;
      if |src| < remaining {
        remaining := |src|;
      }
      if remaining <= 0 {
        return 0;
      }
      inodes[i] := node.(data := node.data[..offset] + src[..remaining] + node.data[offset + remaining..]);
      if offset + remaining > node.size {
        inodes[i] := inodes[i].(size := offset + remaining);
      }
      n := remaining;
      assert inodes[..] == old(inodes[..])[i := WriteRegular(node, offset, src).0];
    }

    method FsReadRegular(i: nat, offset: nat, count: nat) returns (dst: seq<byte>)
      requires Valid() && i < MAX_INODES
      ensures dst == ReadRegular(inodes[i], offset, count)
    {
      var node := inodes[i];
      if node.kind != File || offset >= node.size {
        return [];
      }
      var available := node.size - offset;
      if count < available {
        available := count;
      }
      dst := node.data[offset..offset + available];
    }

    // ----- devices -----

    method FsWriteDevice(device: DeviceKind, src: seq<byte>) returns (n: nat)
      modifies this`sinks
      ensures (sinks, n) == WriteDevice(old(sinks), device, src)
    {
      match device {
        case Console =>
          sinks := sinks.(console := sinks.console + src);
          n := |src|;
        case Uart =>
          sinks := sinks.(uart := sinks.uart + src);
          n := |src|;
        case _ =>
          n := 0;
      }
    }

    method FsReadDevice(device: DeviceKind, offset: nat, count: nat, clock: seq<byte>) returns (dst: seq<byte>)
      ensures dst == ReadDevice(device, offset, count, clock)
    {
      if device != Timer {
        return [];
      }
      if offset >= |clock| {
        return [];
      }
      var n := |clock| - offset;
      if count < n {
        n := count;
      }
      dst := clock[offset..offset + n];
    }

    // ----- system calls on paths -----

    method SysOpen(p: ProcessFiles, path: string, flags: nat) returns (r: Option<nat>)
      requires Valid() && p.Valid()
      modifies this, inodes, p.fdTable
      ensures Valid() && p.Valid() && sinks == old(sinks)
      ensures (View(), p.View(), r) == Files.SysOpen(old(View()), old(p.View()), path, flags)
    {
      if path == "" {
        return None;
      }
      var ok := Phase6Init();
      if !ok {
        return None;
      }
      var readable, writable := flags % 2 == 1, flags / 2 % 2 == 1;
      if !readable && !writable {
        readable := true;
      }
      var node := OpenNode(p.cwd, path, flags);
      if node.None? || (inodes[node.value].kind == Directory && writable) {
        return None;
      }
      r := p.AllocFD(inodes[node.value].id, readable, writable);
    }

    /** The inode sysOpen opens. */
    method OpenNode(cwd: nat, path: string, flags: nat) returns (node: Option<nat>)
      requires Valid() && initialized && path != ""
      modifies this, inodes
      ensures Valid() && sinks == old(sinks)
      ensures (View(), node) == OpenTarget(old(View()), cwd, path, flags)
    {
      node := LookupNow(Some(cwd), path);
      if node.None? && flags / 4 % 2 == 1 {
        node := CreateNow(Some(cwd), path, File, NoDevice);
      }
    }

    method SysMkdir(p: ProcessFiles, path: string) returns (r: Option<nat>)
      requires Valid() && p.Valid()
      modifies this, inodes
      ensures Valid() && sinks == old(sinks)
      ensures (View(), r) == Files.SysMkdir(old(View()), p.View(), path)
    {
      var ok := Phase6Init();
      if !ok {
        return None;
      }
      var made := CreateNow(Some(p.cwd), path, Directory, NoDevice);
      r := if made.None? then None else Some(0);
    }

    method SysChdir(p: ProcessFiles, path: string) returns (r: Option<nat>)
      requires Valid() && p.Valid()
      modifies this, inodes, p`cwd
      ensures Valid() && p.Valid() && sinks == old(sinks)
      ensures (View(), p.View(), r) == Files.SysChdir(old(View()), old(p.View()), path)
    {
      var node := FsLookupByPath(Some(p.cwd), path);
      if node.None? || inodes[node.value].kind != Directory {
        return None;
      }
      p.cwd := inodes[node.value].id;
      r := Some(0);
    }

    method SysLink(p: ProcessFiles, oldPath: string, newPath: string) returns (r: Option<nat>)
      requires Valid() && p.Valid()
      modifies this, inodes
      ensures Valid() && sinks == old(sinks)
      ensures (View(), r) == Files.SysLink(old(View()), p.View(), oldPath, newPath)
    {
      var ok := Phase6Init();
      if !ok {
        return None;
      }
      var node := LookupNow(Some(p.cwd), oldPath);
      if node.None? || inodes[node.value].kind == Directory {
        return None;
      }
      var at := ResolveNow(Some(p.cwd), newPath);
      if at.None? {
        return None;
      }
      ok := AddLink(node.value, at.value.0, at.value.1);
      r := if ok then Some(0) else None;
    }

    method AddLink(node: nat, d: nat, name: string) returns (ok: bool)
      requires Valid() && node < MAX_INODES && d < MAX_INODES
      modifies inodes
      ensures Valid() && (View(), ok) == LinkIn(old(View()), node, d, name)
    {
      ok := FsAddDirEntry(d, name, inodes[node].id);
      if ok {
        inodes[node] := inodes[node].(nlink := inodes[node].nlink + 1);
      }
    }

    method FsDirEmpty(i: nat) returns (empty: bool)
      requires Valid() && i < MAX_INODES
      ensures empty == DirEmpty(inodes[i])
    {
      if inodes[i].kind != Directory {
        return false;
      }
      for k := 0 to |inodes[i].dir|
        invariant forall l | 0 <= l < k :: !inodes[i].dir[l].used
      {
        if inodes[i].dir[k].used {
          return false;
        }
      }
      empty := true;
    }

    method SysUnlink(p: ProcessFiles, path: string) returns (r: Option<nat>)
      requires Valid() && p.Valid()
      modifies this, inodes
      ensures Valid() && sinks == old(sinks)
      ensures (View(), r) == Files.SysUnlink(old(View()), p.View(), path)
    {
      var ok := Phase6Init();
      if !ok {
        return None;
      }
      var at := ResolveNow(Some(p.cwd), path);
      if at.None? {
        return None;
      }
      ok := RemoveLink(at.value.0, at.value.1);
      r := if ok then Some(0) else None;
    }

    /** The part of sysUnlink after the parent is found. */
    method RemoveLink(d: nat, name: string) returns (ok: bool)
      requires Valid() && d < MAX_INODES
      modifies inodes
      ensures Valid() && (View(), ok) == UnlinkIn(old(View()), d, name)
    {
      var removed := FsRemoveDirEntry(d, name);
      if removed.None? {
        return false;
      }
      var node := FsLookupByID(removed.value);
      if node.None? {
        return false;
      }
      var empty := FsDirEmpty(node.value);
      if inodes[node.value].kind == Directory && !empty {
        var back := FsAddDirEntry(d, name, removed.value);
        return false;
      }
      DropLink(node.value);
      ok := true;
    }

    method DropLink(n: nat)
      requires Valid() && n < MAX_INODES
      modifies inodes
      ensures Valid()
      ensures var left := old(inodes[n]).(nlink := old(inodes[n]).nlink - 1);
              inodes[..] == old(inodes[..])[n := if left.nlink <= 0 then NoInode() else left]
    {
      inodes[n] := inodes[n].(nlink := inodes[n].nlink - 1);
      if inodes[n].nlink <= 0 {
        inodes[n] := NoInode();
      }
    }

    // ----- system calls on descriptors -----

    /** `p` and `slot` are the two halves of the calling process's record. */
    method SysRead(p: ProcessFiles, kernel: Kernel, slot: nat, fd: int, dstVA: nat, count: nat, clock: seq<byte>)
      returns (r: Option<nat>)
      requires Valid() && p.Valid() && kernel.Valid() && slot < ProcessModel.NPROC
      modifies p.fdTable, kernel.procs, kernel.heap.frames, kernel.heap.frames.bitmap, kernel.heap.ram.cells
      ensures kernel.Valid() && OnlyUserPart(old(kernel.procs[..]), kernel.procs[..], slot)
      ensures (p.View(), kernel.UserState(slot), r) ==
                ReadCall(View(), old(p.View()), old(kernel.UserState(slot)), fd, dstVA, count, clock)
    {
      var buf := FetchBytes(p, fd, count, clock);
      if buf.None? {
        return None;
      }
      if |buf.value| == 0 {
        return Some(0);
      }
      var delivered := kernel.CopyOutUser(slot, dstVA, buf.value);
      if !delivered {
        return None;
      }
      p.MoveOn(fd, |buf.value|);
      r := Some(|buf.value|);
    }

    /** The part of sysRead before copyout. */
    method FetchBytes(p: ProcessFiles, fd: int, count: nat, clock: seq<byte>) returns (bytes: Option<seq<byte>>)
      requires Valid() && p.Valid()
      ensures bytes == Fetch(View(), p.View(), fd, count, clock)
      ensures bytes.Some? ==> IsOpen(p.View(), fd)
    {
      var isOpen := p.LookupFD(fd);
      if !isOpen || !p.fdTable[fd].readable || count > MAX_IO_BYTES {
        return None;
      }
      var entry := p.fdTable[fd];
      var node := FsLookupByID(entry.inodeID);
      if node.None? {
        return None;
      }
      var buf: seq<byte>;
      match inodes[node.value].kind {
        case File => buf := FsReadRegular(node.value, entry.offset, count);
        case Device => buf := FsReadDevice(inodes[node.value].device, entry.offset, count, clock);
        case _ => return None;
      }
      bytes := Some(buf);
    }

    method SysWrite(p: ProcessFiles, kernel: Kernel, slot: nat, fd: int, srcVA: nat, count: nat)
      returns (r: Option<nat>)
      requires Valid() && p.Valid() && kernel.Valid() && slot < ProcessModel.NPROC
      modifies inodes, this`sinks, p.fdTable, kernel.procs, kernel.heap.frames, kernel.heap.frames.bitmap
      ensures Valid() && kernel.Valid() && OnlyUserPart(old(kernel.procs[..]), kernel.procs[..], slot)
      ensures (View(), p.View(), sinks, kernel.UserState(slot), r) ==
                WriteCall(old(View()), old(p.View()), old(sinks), old(kernel.UserState(slot)), fd, srcVA, count)
    {
      var node := TargetOf(p, fd, count);
      if node.None? {
        return None;
      }
      var buf := kernel.CopyInUser(slot, srcVA, count);
      if buf.None? {
        return None;
      }
      r := WriteBuffer(node.value, p.fdTable[fd].offset, buf.value);
      if r.Some? {
        p.MoveOn(fd, r.value);
      }
    }

    /** The part of sysWrite before copyin. */
    method TargetOf(p: ProcessFiles, fd: int, count: nat) returns (node: Option<nat>)
      requires Valid() && p.Valid()
      ensures node == WriteTarget(View(), p.View(), fd, count)
    {
      var isOpen := p.LookupFD(fd);
      if !isOpen || !p.fdTable[fd].writable || count > MAX_IO_BYTES {
        return None;
      }
      node := FsLookupByID(p.fdTable[fd].inodeID);
    }

    /** The part of sysWrite after copyin, up to the offset. */
    method WriteBuffer(i: nat, offset: nat, buf: seq<byte>) returns (r: Option<nat>)
      requires Valid() && i < MAX_INODES
      modifies inodes, this`sinks
      ensures Valid() && (View(), sinks, r) == WriteOut(old(View()), old(sinks), i, offset, buf)
    {
      var n: nat;
      match inodes[i].kind {
        case File => n := FsWriteRegular(i, offset, buf);
        case Device => n := FsWriteDevice(inodes[i].device, buf);
        case _ => return None;
      }
      r := Some(n);
    }
  }

  /** The working directory and descriptor table of one process. */
  class ProcessFiles {
    var cwd: nat
    const fdTable: array<Descriptor>

    ghost predicate Valid()
      reads this
    {
      fdTable.Length == MAX_OPEN_FILES
    }

    ghost function View(): FileContext
      reads this, fdTable
    {
      FileContext(cwd, fdTable[..])
    }

    constructor ()
      ensures Valid() && View() == NoFiles() && fresh(fdTable)
    {
      cwd := 0;
      fdTable := new Descriptor[MAX_OPEN_FILES](_ => CLOSED);
    }

    method AllocFD(inodeID: nat, readable: bool, writable: bool) returns (r: Option<nat>)
      requires Valid()
      modifies fdTable
      ensures (View(), r) == Files.AllocFD(old(View()), inodeID, readable, writable)
    {
      for fd := 0 to MAX_OPEN_FILES
        invariant View() == old(View())
        invariant FreeFD(fdTable[..], fd) == FreeFD(fdTable[..], 0)
      {
        if fdTable[fd].used {
          continue;
        }
        fdTable[fd] := Descriptor(true, inodeID, 0, readable, writable);
        return Some(fd);
      }
      r := None;
    }

    /** lookupFD */
    method LookupFD(fd: int) returns (ok: bool)
      requires Valid()
      ensures ok == IsOpen(View(), fd)
    {
      if fd < 0 || fd >= fdTable.Length {
        return false;
      }
      ok := fdTable[fd].used;
    }

    method SysClose(fd: int) returns (r: Option<nat>)
      requires Valid()
      modifies fdTable
      ensures (View(), r) == Files.SysClose(old(View()), fd)
    {
      var ok := LookupFD(fd);
      if !ok {
        return None;
      }
      fdTable[fd] := CLOSED;
      r := Some(0);
    }

    method MoveOn(fd: int, n: nat)
      requires Valid() && IsOpen(View(), fd)
      modifies fdTable
      ensures View() == Advance(old(View()), fd, n)
    {
      fdTable[fd] := fdTable[fd].(offset := fdTable[fd].offset + n);
    }
  }
}
