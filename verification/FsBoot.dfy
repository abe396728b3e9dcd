/** phase6Init brings the filesystem up from nothing, and the invariant with it. */
module FsBoot {
  import opened Common
  import opened Paths
  import opened FsModel
  import opened FsInvariant
  import opened Walks
  import opened Namespace
  import opened Files

  // ----- writing data -----

  lemma DataKeepsLinks(inodes: seq<Inode>, i: nat, node: Inode)
    requires i < |inodes| && node.dir == inodes[i].dir
    ensures Links(inodes[i := node]) == Links(inodes)
  {
    FlattenSame(inodes, LinksOf, i, node);
  }

  lemma DataKeepsIds(inodes: seq<Inode>, next: nat, i: nat, node: Inode)
    requires i < |inodes| && IdsOk(inodes, next) && NoneDangle(inodes)
    requires node == inodes[i].(data := node.data, size := node.size)
    ensures IdsOk(inodes[i := node], next) && NoneDangle(inodes[i := node])
  {
    var after := inodes[i := node];
    DataKeepsLinks(inodes, i, node);
    SameIdsResolve(inodes, after, next, 1);
    forall x | x in Links(after) ensures x >= 0 && LookupByID(after, x).Some? {
      SameIdsResolve(inodes, after, next, x);
    }
  }

  lemma DataKeepsTree(inodes: seq<Inode>, i: nat, node: Inode)
    requires i < |inodes| && DirsOk(inodes) && TreeOk(inodes)
    requires node == inodes[i].(data := node.data, size := node.size)
    ensures DirsOk(inodes[i := node]) && TreeOk(inodes[i := node])
  {
    var after := inodes[i := node];
    forall d, k | EntryUsed(after, d, k) ensures EntryUsed(inodes, d, k) && after[d].dir[k] == inodes[d].dir[k] {
    }
  }

  lemma DataKeepsCounts(inodes: seq<Inode>, i: nat, node: Inode)
    requires i < |inodes| && CountsOk(inodes) && RootOk(inodes)
    requires node == inodes[i].(data := node.data, size := node.size)
    ensures CountsOk(inodes[i := node]) && RootOk(inodes[i := node])
  {
    DataKeepsLinks(inodes, i, node);
  }

  /** Writing to a file keeps the invariant. */
  lemma WriteKeeps(fs: FileSystem, i: nat, offset: nat, src: seq<byte>)
    requires FsOk(fs) && i < |fs.inodes|
    ensures FsOk(WriteNode(fs, i, offset, src).0)
  {
    var node := WriteRegular(fs.inodes[i], offset, src).0;
    WriteShape(fs.inodes, i, offset, src);
    DataKeepsIds(fs.inodes, fs.nextInodeID, i, node);
    DataKeepsTree(fs.inodes, i, node);
    DataKeepsCounts(fs.inodes, i, node);
  }

  lemma WriteShape(inodes: seq<Inode>, i: nat, offset: nat, src: seq<byte>)
    requires ShapeOk(inodes) && i < |inodes|
    ensures var node := WriteRegular(inodes[i], offset, src).0;
            node == inodes[i].(data := node.data, size := node.size) && ShapeOk(inodes[i := node])
  {
  }

  // ----- the boot tree -----

  /** Inode slots from `i` on are unused, and so are the entries from `k` on in every directory. */
  ghost predicate Roomy(inodes: seq<Inode>, i: nat, k: nat) {
    && (forall j | i <= j < |inodes| :: !inodes[j].used)
    && (forall d, l | 0 <= d < |inodes| && k <= l < |inodes[d].dir| :: !inodes[d].dir[l].used)
  }

  lemma RoomFits(fs: FileSystem, d: nat, name: string, i: nat, k: nat)
    requires FsOk(fs) && d < |fs.inodes| && fs.inodes[d].kind == Directory
    requires LookupInDir(fs.inodes, d, name).None? && Roomy(fs.inodes, i, k) && i < MAX_INODES && k < MAX_DIR_ENTRIES
    ensures NameFits(fs.inodes, d, name) && FreeEntry(fs.inodes[d].dir, 0).value <= k
    ensures FreeInode(fs.inodes, 0).Some? && FreeInode(fs.inodes, 0).value <= i && d < i
  {
    PresentNamesResolve(fs, d, name);
    assert !fs.inodes[d].dir[k].used && !fs.inodes[i].used;
    FreeInodeIsFirst(fs.inodes, i, 0);
    FreeEntryIsFirst(fs.inodes[d].dir, k, 0);
  }

  lemma {:induction false} FreeInodeIsFirst(inodes: seq<Inode>, i: nat, j: nat)
    requires j <= i < |inodes| && !inodes[i].used
    ensures FreeInode(inodes, j).Some? && FreeInode(inodes, j).value <= i
    decreases i - j
  {
    if inodes[j].used {
      FreeInodeIsFirst(inodes, i, j + 1);
    }
  }

  lemma {:induction false} FreeEntryIsFirst(dir: seq<DirEntry>, k: nat, j: nat)
    requires j <= k < |dir| && !dir[k].used
    ensures FreeEntry(dir, j).Some? && FreeEntry(dir, j).value <= k
    decreases k - j
  {
    if dir[j].used {
      FreeEntryIsFirst(dir, k, j + 1);
    }
  }

  ghost predicate SameKindsBut(a: seq<Inode>, b: seq<Inode>, n: nat) {
    |a| == |b| && forall j | 0 <= j < |a| && j != n :: b[j].kind == a[j].kind
  }

  lemma CreateFills(fs: FileSystem, d: nat, name: string, kind: InodeKind, device: DeviceKind, i: nat, k: nat)
    requires FsOk(fs) && NameFits(fs.inodes, d, name) && IsName(name) && Roomy(fs.inodes, i, k) && d < i
    requires FreeInode(fs.inodes, 0).Some? && FreeInode(fs.inodes, 0).value <= i
    requires FreeEntry(fs.inodes[d].dir, 0).value <= k
    ensures var (fs', made) := CreateIn(fs, d, name, kind, device);
            && made.Some? && fs'.initialized == fs.initialized && fs'.inodes[made.value].kind == kind
            && Roomy(fs'.inodes, i + 1, k + 1) && SameKindsBut(fs.inodes, fs'.inodes, made.value)
  {
    CreateShape(fs, d, name, kind, device);
    var n, l := FreeInode(fs.inodes, 0).value, FreeEntry(fs.inodes[d].dir, 0).value;
    var e, node := DirEntry(true, name, fs.nextInodeID), NewInode(fs.nextInodeID, fs.inodes[d].id, kind, device);
    CreatedRoom(fs.inodes, i, k, d, l, e, n, node);
  }

  lemma CreatedRoom(inodes: seq<Inode>, i: nat, k: nat, d: nat, l: nat, e: DirEntry, n: nat, node: Inode)
    requires Roomy(inodes, i, k) && n < |inodes| && d != n && n <= i && l <= k && d < i
    requires d < |inodes| && l < |inodes[d].dir| && forall j | 0 <= j < |node.dir| :: !node.dir[j].used
    ensures Roomy(Rewire(inodes, d, l, e, n, node), i + 1, k + 1)
    ensures SameKindsBut(inodes, Rewire(inodes, d, l, e, n, node), n)
  {
  }

  /** Where there is room, a new name can be created. */
  lemma CreateFits(fs: FileSystem, d: nat, name: string, kind: InodeKind, device: DeviceKind, i: nat, k: nat)
    returns (n: nat)
    requires FsOk(fs) && d < |fs.inodes| && fs.inodes[d].kind == Directory && IsName(name) && kind != NoKind
    requires LookupInDir(fs.inodes, d, name).None? && Roomy(fs.inodes, i, k) && i < MAX_INODES && k < MAX_DIR_ENTRIES
    ensures var (fs', made) := CreateIn(fs, d, name, kind, device);
            && made == Some(n) && Created(fs, fs', d, name, n) && FsOk(fs') && Roomy(fs'.inodes, i + 1, k + 1)
            && fs'.initialized == fs.initialized && SameKindsBut(fs.inodes, fs'.inodes, n)
            && fs'.inodes[n] == NewInode(fs.nextInodeID, fs.inodes[d].id, kind, device)
  {
    RoomFits(fs, d, name, i, k);
    CreateInOutcome(fs, d, name, kind, device);
    CreateKeeps(fs, d, name, kind, device);
    CreateFills(fs, d, name, kind, device, i, k);
    n := FreeInode(fs.inodes, 0).value;
  }

  // ----- the nodes in turn -----

  /** Creating at an absolute path is creating in the directory its front leads to. */
  lemma CreateAtPath(fs: FileSystem, names: seq<string>, d: nat, kind: InodeKind, device: DeviceKind)
    requires FsOk(fs) && AllNames(names) && names != [] && Walk(fs.inodes, 0, names[..|names| - 1]) == Some(d)
    requires fs.inodes[d].kind == Directory
    ensures CreatePath(fs, None, "/" + Join(names), kind, device) == CreateIn(fs, d, names[|names| - 1], kind, device)
  {
    LookupIs(fs.inodes, fs.nextInodeID, 0);
    ResolveAbsolute(fs.inodes, names, d);
  }

  lemma ResolveAbsolute(inodes: seq<Inode>, names: seq<string>, d: nat)
    requires |inodes| > 0 && LookupByID(inodes, 1) == Some(0) && AllNames(names) && names != []
    requires Walk(inodes, 0, names[..|names| - 1]) == Some(d) && inodes[d].kind == Directory
    ensures ResolveParent(inodes, None, "/" + Join(names)) == Some((d, names[|names| - 1]))
  {
    var path := "/" + Join(names);
    AbsoluteParts(names);
    ParentPathDropsLast(path);
    AbsoluteLookup(inodes, ParentPath(path, names));
  }

  lemma AbsoluteParts(names: seq<string>)
    requires AllNames(names) && names != []
    ensures var path := "/" + Join(names); Components(path) == names && Absolute(path) && path != "/"
  {
    JoinThenSplit(names);
    LeadingSlash(Join(names));
  }

  lemma AbsoluteLookup(inodes: seq<Inode>, path: string)
    requires |inodes| > 0 && LookupByID(inodes, 1) == Some(0) && Absolute(path)
    ensures LookupByPath(inodes, None, path) == Walk(inodes, 0, Components(path))
  {
  }

  /** The boot tree while it grows: the root holds at most "dev", and `dev` holds the names given. */
  ghost predicate Growing(fs: FileSystem, dev: nat, names: set<string>, i: nat) {
    && FsOk(fs) && fs.initialized && Roomy(fs.inodes, i, i)
    && dev < |fs.inodes| && fs.inodes[dev].kind == Directory && dev != 0
    && Walk(fs.inodes, 0, ["dev"]) == Some(dev)
    && (forall part | part != ".." && part !in names :: Step(fs.inodes, dev, part).None?)
    && Step(fs.inodes, 0, "init").None?
  }

  lemma GrowDevice(fs: FileSystem, dev: nat, names: set<string>, i: nat, name: string, device: DeviceKind)
    returns (n: nat)
    requires Growing(fs, dev, names, i) && i < MAX_DIR_ENTRIES && IsName(name) && name != ".." && name !in names
    ensures var (fs', made) := CreatePath(fs, None, "/" + Join(["dev", name]), Device, device);
            made == Some(n) && Growing(fs', dev, names + {name}, i + 1) && n < |fs'.inodes|
  {
    assert ["dev", name][..1] == ["dev"];
    CreateAtPath(fs, ["dev", name], dev, Device, device);
    n := CreateFits(fs, dev, name, Device, device, i, i);
    var fs' := CreateIn(fs, dev, name, Device, device).0;
    GrownDevice(fs, fs', dev, names, name, n);
  }

  lemma GrownDevice(fs: FileSystem, fs': FileSystem, dev: nat, names: set<string>, name: string, n: nat)
    requires |fs.inodes| > 0 && dev < |fs.inodes| && dev != 0 && fs.inodes[0].used && Created(fs, fs', dev, name, n)
    requires Walk(fs.inodes, 0, ["dev"]) == Some(dev) && Step(fs.inodes, 0, "init").None?
    requires forall part | part != ".." && part !in names :: Step(fs.inodes, dev, part).None?
    ensures Walk(fs'.inodes, 0, ["dev"]) == Some(dev) && Step(fs'.inodes, 0, "init").None?
    ensures forall part | part != ".." && part !in names + {name} :: Step(fs'.inodes, dev, part).None?
  {
    WalkOne(fs.inodes, 0, "dev");
    WalkOne(fs'.inodes, 0, "dev");
  }

  /** Why ".." is excepted: mkdir("/..") makes a new directory wherever there is room, and
      the path still names the root. */
  lemma DotDotIsMadeButNotFound(fs: FileSystem)
    requires FsOk(fs) && NameFits(fs.inodes, 0, "..") && FreeInode(fs.inodes, 0).Some?
    ensures var (fs', made) := CreatePath(fs, None, "/..", Directory, NoDevice);
            made.Some? && made != Some(0) && LookupByPath(fs'.inodes, None, "/..") == Some(0)
  {
    assert "/" + Join([".."]) == "/..";
    assert [".."][..0] == [];
    CreateAtPath(fs, [".."], 0, Directory, NoDevice);
    CreatedUpward(fs);
  }

  lemma CreatedUpward(fs: FileSystem)
    requires FsOk(fs) && NameFits(fs.inodes, 0, "..") && FreeInode(fs.inodes, 0).Some?
    ensures var (fs', made) := CreateIn(fs, 0, "..", Directory, NoDevice);
            made.Some? && made != Some(0) && LookupByPath(fs'.inodes, None, "/..") == Some(0)
  {
    CreateInOutcome(fs, 0, "..", Directory, NoDevice);
    var fs' := CreateIn(fs, 0, "..", Directory, NoDevice).0;
    LookupIs(fs.inodes, fs.nextInodeID, 0);
    LeadingSlash("..");
    SplitName("..");
    assert Keep([".."]) == [".."] + Keep([]);
    AbsoluteLookup(fs'.inodes, "/" + "..");
    WalkOne(fs'.inodes, 0, "..");
  }

  /** The filesystem with the root alone. */
  ghost predicate RootOnly(fs: FileSystem) {
    && FsOk(fs) && fs.initialized && Roomy(fs.inodes, 1, 0)
  }

  ghost predicate OnlyRoot(inodes: seq<Inode>) {
    && |inodes| == MAX_INODES && inodes[0] == NewInode(1, 1, Directory, NoDevice)
    && forall i | 0 < i < |inodes| :: inodes[i] == NoInode()
  }

  lemma RootHasNoLinks(inodes: seq<Inode>)
    requires OnlyRoot(inodes)
    ensures Links(inodes) == multiset{} && Roomy(inodes, 1, 0)
  {
    forall i | 0 <= i < |inodes| ensures LinksOf(inodes[i]) == multiset{} {
      NoEntriesNoLinks(inodes[i]);
    }
    FlattenNothing(inodes, LinksOf);
  }

  lemma RootTableOk(inodes: seq<Inode>)
    requires OnlyRoot(inodes)
    ensures TableOk(inodes, 2)
  {
    RootHasNoLinks(inodes);
  }

  lemma RootIsOk(empty: FileSystem)
    requires empty == Empty()
    ensures var (fs, root) := AllocInode(empty.(nextInodeID := 1), Directory, 0, NoDevice);
            root == Some(0) && RootOnly(WithRoot(fs, 0))
  {
    var (fs, root) := AllocInode(empty.(nextInodeID := 1), Directory, 0, NoDevice);
    RootHasNoLinks(WithRoot(fs, 0).inodes);
    RootTableOk(WithRoot(fs, 0).inodes);
  }

  lemma GrowDev(fs: FileSystem) returns (dev: nat)
    requires RootOnly(fs)
    ensures var (fs', made) := CreatePath(fs, None, "/dev", Directory, NoDevice);
            made == Some(dev) && Growing(fs', dev, {}, 2)
  {
    assert "/" + Join(["dev"]) == "/dev";
    assert ["dev"][..0] == [];
    CreateAtPath(fs, ["dev"], 0, Directory, NoDevice);
    dev := CreateDev(fs);
  }

  lemma CreateDev(fs: FileSystem) returns (dev: nat)
    requires RootOnly(fs)
    ensures var (fs', made) := CreateIn(fs, 0, "dev", Directory, NoDevice);
            made == Some(dev) && Growing(fs', dev, {}, 2)
  {
    NothingThere(fs.inodes, 0, "dev");
    NothingThere(fs.inodes, 0, "init");
    dev := CreateFits(fs, 0, "dev", Directory, NoDevice, 1, 0);
    DevGrows(fs, CreateIn(fs, 0, "dev", Directory, NoDevice).0, dev);
  }

  lemma DevGrows(fs: FileSystem, fs': FileSystem, dev: nat)
    requires Created(fs, fs', 0, "dev", dev) && Step(fs.inodes, 0, "init").None? && fs'.initialized
    requires FsOk(fs') && Roomy(fs'.inodes, 2, 1) && dev < |fs'.inodes|
    requires fs'.inodes[dev] == NewInode(fs.nextInodeID, fs.inodes[0].id, Directory, NoDevice)
    ensures Growing(fs', dev, {}, 2)
  {
    MoreRoom(fs'.inodes);
    CreatedDev(fs, fs', dev);
  }

  lemma MoreRoom(inodes: seq<Inode>)
    requires Roomy(inodes, 2, 1)
    ensures Roomy(inodes, 2, 2)
  {
  }

  lemma CreatedDev(fs: FileSystem, fs': FileSystem, dev: nat)
    requires Created(fs, fs', 0, "dev", dev) && Step(fs.inodes, 0, "init").None? && fs'.inodes[dev].kind == Directory
    requires FsOk(fs') && forall part | part != ".." :: FindEntry(fs'.inodes[dev].dir, part, 0).None?
    ensures Walk(fs'.inodes, 0, ["dev"]) == Some(dev) && Step(fs'.inodes, 0, "init").None?
    ensures forall part | part != ".." :: Step(fs'.inodes, dev, part).None?
  {
    WalkOne(fs'.inodes, 0, "dev");
  }

  lemma NothingThere(inodes: seq<Inode>, d: nat, name: string)
    requires Roomy(inodes, 1, 0) && d < |inodes|
    ensures LookupInDir(inodes, d, name).None?
  {
  }

  predicate IsNewFile(node: Inode) {
    node.kind == File && node.size == 0
  }

  lemma GrowInit(fs: FileSystem, dev: nat, names: set<string>, i: nat) returns (n: nat)
    requires Growing(fs, dev, names, i) && i < MAX_DIR_ENTRIES
    ensures var (fs', made) := CreatePath(fs, None, "/init", File, NoDevice);
            made == Some(n) && FsOk(fs') && fs'.initialized && n < |fs'.inodes| && IsNewFile(fs'.inodes[n])
  {
    assert "/" + Join(["init"]) == "/init";
    assert ["init"][..0] == [];
    CreateAtPath(fs, ["init"], 0, File, NoDevice);
    n := CreateFits(fs, 0, "init", File, NoDevice, i, i);
  }

  /** One device node: the tree grows and the rest is still to come. */
  lemma PopulateDevice(fs: FileSystem, dev: nat, names: set<string>, i: nat, name: string, device: DeviceKind,
                       nodes: seq<BootNode>, last: nat) returns (fs': FileSystem, n: nat)
    requires Growing(fs, dev, names, i) && i < MAX_DIR_ENTRIES && IsName(name) && name != ".." && name !in names
    requires last < |fs.inodes| && nodes != [] && nodes[0] == BootNode("/" + Join(["dev", name]), Device, device)
    ensures Growing(fs', dev, names + {name}, i + 1) && n < |fs'.inodes|
    ensures Populate(fs, nodes, last) == Populate(fs', nodes[1..], n)
  {
    n := GrowDevice(fs, dev, names, i, name, device);
    fs' := CreatePath(fs, None, "/" + Join(["dev", name]), Device, device).0;
  }

  lemma PopulateInit(fs: FileSystem, dev: nat, names: set<string>, i: nat, nodes: seq<BootNode>, last: nat)
    returns (fs': FileSystem, n: nat)
    requires Growing(fs, dev, names, i) && i < MAX_DIR_ENTRIES
    requires last < |fs.inodes| && nodes == [BootNode("/init", File, NoDevice)]
    ensures Populate(fs, nodes, last) == (fs', Some(n))
    ensures FsOk(fs') && fs'.initialized && n < |fs'.inodes| && IsNewFile(fs'.inodes[n])
  {
    n := GrowInit(fs, dev, names, i);
    fs' := CreatePath(fs, None, "/init", File, NoDevice).0;
    assert Populate(fs', nodes[1..], n) == (fs', Some(n));
  }

  ghost predicate DeviceNode(node: BootNode, name: string, device: DeviceKind) {
    node == BootNode("/" + Join(["dev", name]), Device, device) && IsName(name) && name != ".."
  }

  /** Device nodes under new names, and then the file. */
  ghost predicate DevicePlan(nodes: seq<BootNode>, parts: seq<string>, names: set<string>) {
    && |nodes| == |parts| + 1 && nodes[|parts|] == BootNode("/init", File, NoDevice)
    && (forall j | 0 <= j < |parts| :: DeviceNode(nodes[j], parts[j], nodes[j].device) && parts[j] !in names)
    && (forall j, k | 0 <= j < k < |parts| :: parts[j] != parts[k])
  }

  lemma PlanTail(nodes: seq<BootNode>, parts: seq<string>, names: set<string>)
    requires DevicePlan(nodes, parts, names) && parts != []
    ensures DevicePlan(nodes[1..], parts[1..], names + {parts[0]})
  {
  }

  /** The devices, one after the other, and then the file. */
  lemma {:induction false} PopulateDevices(fs: FileSystem, dev: nat, names: set<string>, i: nat, nodes: seq<BootNode>,
                                           parts: seq<string>, last: nat) returns (fs': FileSystem, n: nat)
    requires Growing(fs, dev, names, i) && i + |parts| < MAX_DIR_ENTRIES && last < |fs.inodes|
    requires DevicePlan(nodes, parts, names)
    ensures Populate(fs, nodes, last) == (fs', Some(n))
    ensures FsOk(fs') && fs'.initialized && n < |fs'.inodes| && IsNewFile(fs'.inodes[n])
    decreases |parts|
  {
    if parts == [] {
      fs', n := PopulateInit(fs, dev, names, i, nodes, last);
    } else {
      PlanTail(nodes, parts, names);
      var fs1, n1 := PopulateDevice(fs, dev, names, i, parts[0], nodes[0].device, nodes, last);
      fs', n := PopulateDevices(fs1, dev, names + {parts[0]}, i + 1, nodes[1..], parts[1..], n1);
    }
  }

  lemma BootPlan(nodes: seq<BootNode>)
    requires nodes == BOOT_NODES
    ensures DevicePlan(nodes[1..], ["console", "uart", "timer"], {})
  {
    assert "/" + Join(["dev", "console"]) == "/dev/console";
    assert "/" + Join(["dev", "uart"]) == "/dev/uart";
    assert "/" + Join(["dev", "timer"]) == "/dev/timer";
  }

  lemma PopulateAll(fs: FileSystem) returns (fs': FileSystem, n: nat)
    requires RootOnly(fs)
    ensures Populate(fs, BOOT_NODES, 0) == (fs', Some(n))
    ensures FsOk(fs') && fs'.initialized && n < |fs'.inodes| && IsNewFile(fs'.inodes[n])
  {
    var dev := GrowDev(fs);
    BootPlan(BOOT_NODES);
    fs', n := PopulateDevices(CreatePath(fs, None, "/dev", Directory, NoDevice).0, dev, {}, 2, BOOT_NODES[1..],
                              ["console", "uart", "timer"], dev);
  }

  lemma InitFromRoot(fs: FileSystem, fs0: FileSystem, fs': FileSystem, n: nat)
    requires DataOk(fs) && !fs.initialized
    requires AllocInode(fs.(nextInodeID := 1), Directory, 0, NoDevice) == (fs0, Some(0))
    requires Populate(WithRoot(fs0, 0), BOOT_NODES, 0) == (fs', Some(n))
    ensures n < |fs'.inodes| && |fs'.inodes[n].data| == MAX_FILE_BYTES
    ensures Init(fs) == (WriteNode(fs', n, 0, INIT_BYTES).0, true)
  {
    PopulateKeepsData(WithRoot(fs0, 0), BOOT_NODES, 0);
  }

  lemma EmptyHasData(fs: FileSystem)
    requires fs == Empty()
    ensures DataOk(fs)
  {
  }

  /** The first file system call brings the tree up: phase6Init cannot fail, and establishes the invariant. */
  lemma BootSucceeds(fs: FileSystem) returns (fs': FileSystem)
    requires fs == Empty()
    ensures DataOk(fs) && Init(fs) == (fs', true) && fs'.initialized && FsOk(fs')
  {
    EmptyHasData(fs);
    RootIsOk(fs);
    fs' := InitSucceeds(fs, AllocInode(fs.(nextInodeID := 1), Directory, 0, NoDevice).0);
  }

  lemma InitSucceeds(fs: FileSystem, fs0: FileSystem) returns (fs': FileSystem)
    requires DataOk(fs) && !fs.initialized
    requires AllocInode(fs.(nextInodeID := 1), Directory, 0, NoDevice) == (fs0, Some(0))
    requires RootOnly(WithRoot(fs0, 0))
    ensures Init(fs) == (fs', true) && fs'.initialized && FsOk(fs')
  {
    var fs1, n := PopulateAll(WithRoot(fs0, 0));
    InitFromRoot(fs, fs0, fs1, n);
    WriteKeeps(fs1, n, 0, INIT_BYTES);
    fs' := WriteNode(fs1, n, 0, INIT_BYTES).0;
  }
}
