/** What is in the filesystem once it is up: the nodes phase6Init creates, and the contents of /init. */
module BootTree {
  import opened Common
  import opened Paths
  import opened FsModel
  import opened FsInvariant
  import opened Walks
  import opened Namespace
  import opened Naming
  import opened Files
  import opened FsBoot
  import opened FileRuns
  import opened FileBytes

  /** The path names an inode of that kind and device. */
  ghost predicate Names(fs: FileSystem, node: BootNode) {
    var i := LookupByPath(fs.inodes, None, node.path);
    i.Some? && fs.inodes[i.value].kind == node.kind && fs.inodes[i.value].device == node.device
  }

  ghost predicate NodeOk(node: BootNode) {
    var parts := Components(node.path);
    node.kind != NoKind && parts != [] && parts[|parts| - 1] != ".."
  }

  ghost predicate NodesOk(nodes: seq<BootNode>) {
    forall j | 0 <= j < |nodes| :: NodeOk(nodes[j])
  }

  lemma NodesTail(nodes: seq<BootNode>)
    requires NodesOk(nodes) && nodes != []
    ensures NodeOk(nodes[0]) && NodesOk(nodes[1..])
  {
  }

  /** A creation that succeeds names its node, and goes on naming what was named before. */
  lemma CreateNames(fs: FileSystem, node: BootNode, other: BootNode)
    requires FsOk(fs) && NodeOk(node)
    ensures var (fs', made) := CreatePath(fs, None, node.path, node.kind, node.device);
            made.Some? ==>
              && Names(fs', node) && LookupByPath(fs'.inodes, None, node.path) == made
              && (Names(fs, other) ==> Names(fs', other))
  {
    if CreatePath(fs, None, node.path, node.kind, node.device).1.Some? {
      CreateNamesIt(fs, node);
      CreateGoesOnNaming(fs, node, other);
    }
  }

  lemma CreateNamesIt(fs: FileSystem, node: BootNode)
    requires FsOk(fs) && NodeOk(node) && CreatePath(fs, None, node.path, node.kind, node.device).1.Some?
    ensures var (fs', made) := CreatePath(fs, None, node.path, node.kind, node.device);
            Names(fs', node) && LookupByPath(fs'.inodes, None, node.path) == made
  {
    CreatePathEffect(fs, None, node.path, node.kind, node.device, None, node.path);
    ResolvedParentIsNamed(fs.inodes, None, node.path);
    var (d, name) := ResolveParent(fs.inodes, None, node.path).value;
    CreateInOutcome(fs, d, name, node.kind, node.device);
  }

  lemma CreateGoesOnNaming(fs: FileSystem, node: BootNode, other: BootNode)
    requires FsOk(fs) && NodeOk(node) && CreatePath(fs, None, node.path, node.kind, node.device).1.Some?
    ensures var fs' := CreatePath(fs, None, node.path, node.kind, node.device).0;
            Names(fs, other) ==> Names(fs', other)
  {
    if Names(fs, other) {
      CreateKeepsPath(fs, None, node.path, node.kind, node.device, None, other.path);
      ResolvedParentIsNamed(fs.inodes, None, node.path);
      var (d, name) := ResolveParent(fs.inodes, None, node.path).value;
      var (fs', made) := CreateIn(fs, d, name, node.kind, node.device);
      CreateInOutcome(fs, d, name, node.kind, node.device);
      CreateSurvives(fs, d, name, node.kind, node.device);
      CreatedStays(fs, fs', d, name, made.value, LookupByPath(fs.inodes, None, other.path).value);
    }
  }

  lemma CreatedStays(fs: FileSystem, fs': FileSystem, d: nat, name: string, n: nat, i: nat)
    requires FsOk(fs) && Created(fs, fs', d, name, n) && Survives(fs, fs') && i < |fs.inodes| && fs.inodes[i].used
    ensures SameInode(fs.inodes[i], fs'.inodes[i])
  {
    LookupIs(fs.inodes, fs.nextInodeID, i);
    assert LookupByID(fs'.inodes, fs.inodes[i].id) == Some(i);
  }

  /** If all nodes are created, every one of them is named in the end, and so is whatever was named before. */
  lemma {:induction false} PopulateNames(fs: FileSystem, nodes: seq<BootNode>, last: nat, other: BootNode)
    requires FsOk(fs) && last < |fs.inodes| && NodesOk(nodes)
    requires Populate(fs, nodes, last).1.Some?
    ensures var (fs', n) := Populate(fs, nodes, last);
            (Names(fs, other) || other in nodes ==> Names(fs', other))
    decreases |nodes|
  {
    if nodes != [] {
      NodesTail(nodes);
      CreateNames(fs, nodes[0], other);
      CreatePathKeeps(fs, None, nodes[0].path, nodes[0].kind, nodes[0].device);
      var (fs1, made) := CreatePath(fs, None, nodes[0].path, nodes[0].kind, nodes[0].device);
      PopulateNames(fs1, nodes[1..], made.value, other);
      assert other in nodes ==> other == nodes[0] || other in nodes[1..];
    }
  }

  /** The inode the last creation returns is the one its path names. */
  lemma {:induction false} PopulateLast(fs: FileSystem, nodes: seq<BootNode>, last: nat, path: string)
    requires FsOk(fs) && last < |fs.inodes| && NodesOk(nodes)
    requires if nodes == [] then LookupByPath(fs.inodes, None, path) == Some(last) else path == nodes[|nodes| - 1].path
    requires Populate(fs, nodes, last).1.Some?
    ensures var (fs', n) := Populate(fs, nodes, last); LookupByPath(fs'.inodes, None, path) == n
    decreases |nodes|
  {
    if nodes != [] {
      NodesTail(nodes);
      var fs1, i := FirstNode(fs, nodes, last);
      PopulateLast(fs1, nodes[1..], i, path);
    }
  }

  lemma FirstNode(fs: FileSystem, nodes: seq<BootNode>, last: nat) returns (fs1: FileSystem, i: nat)
    requires FsOk(fs) && last < |fs.inodes| && nodes != [] && NodeOk(nodes[0]) && Populate(fs, nodes, last).1.Some?
    ensures FsOk(fs1) && i < |fs1.inodes| && LookupByPath(fs1.inodes, None, nodes[0].path) == Some(i)
    ensures Populate(fs, nodes, last) == Populate(fs1, nodes[1..], i)
  {
    CreateNames(fs, nodes[0], nodes[0]);
    CreatePathKeeps(fs, None, nodes[0].path, nodes[0].kind, nodes[0].device);
    fs1 := CreatePath(fs, None, nodes[0].path, nodes[0].kind, nodes[0].device).0;
    i := CreatePath(fs, None, nodes[0].path, nodes[0].kind, nodes[0].device).1.value;
  }

  lemma BootNodesOk(nodes: seq<BootNode>)
    requires nodes == BOOT_NODES
    ensures NodesOk(nodes)
  {
    BootPlan(nodes);
    forall j | 0 <= j < |nodes| ensures NodeOk(nodes[j]) {
      if j == 0 {
        AbsoluteNodeOk(nodes[0], ["dev"]);
      } else if j == 4 {
        AbsoluteNodeOk(nodes[4], ["init"]);
      } else {
        var name := ["console", "uart", "timer"][j - 1];
        assert DeviceNode(nodes[1..][j - 1], name, nodes[j].device);
        AbsoluteNodeOk(nodes[j], ["dev", name]);
      }
    }
  }

  lemma NodeWithParts(node: BootNode, parts: seq<string>)
    requires node.kind != NoKind && Components(node.path) == parts && parts != [] && parts[|parts| - 1] != ".."
    ensures NodeOk(node)
  {
  }

  lemma AbsoluteNodeOk(node: BootNode, names: seq<string>)
    requires node.kind != NoKind && names != [] && AllNames(names) && names[|names| - 1] != ".."
    requires node.path == "/" + Join(names)
    ensures NodeOk(node)
  {
    AbsoluteComponents(names, node.path);
    NodeWithParts(node, names);
  }

  lemma AbsoluteComponents(names: seq<string>, path: string)
    requires AllNames(names) && path == "/" + Join(names)
    ensures Components(path) == names
  {
    JoinThenSplit(names);
    LeadingSlash(Join(names));
  }

  /** Writing a file changes no path and no inode's kind. */
  lemma WriteKeepsNames(fs: FileSystem, i: nat, offset: nat, src: seq<byte>, node: BootNode)
    requires FsOk(fs) && i < |fs.inodes|
    ensures var fs' := WriteNode(fs, i, offset, src).0;
            && LookupByPath(fs'.inodes, None, node.path) == LookupByPath(fs.inodes, None, node.path)
            && (Names(fs', node) <==> Names(fs, node))
  {
    WriteShape(fs.inodes, i, offset, src);
    WriteIsWithin(fs, i, WriteRegular(fs.inodes[i], offset, src).0);
    var fs' := WriteNode(fs, i, offset, src).0;
    PathWithin(fs.inodes, fs'.inodes, None, node.path);
    PathWithin(fs'.inodes, fs.inodes, None, node.path);
  }

  lemma WriteIsWithin(fs: FileSystem, i: nat, node: Inode)
    requires IdsOk(fs.inodes, fs.nextInodeID) && i < |fs.inodes|
    requires node == fs.inodes[i].(data := node.data, size := node.size)
    ensures Within(fs.inodes, fs.inodes[i := node]) && Within(fs.inodes[i := node], fs.inodes)
  {
    var after := fs.inodes[i := node];
    forall x: nat ensures LookupByID(after, x) == LookupByID(fs.inodes, x) {
      SameIdsResolve(fs.inodes, after, fs.nextInodeID, x);
    }
    forall j, part | 0 <= j < |after| ensures Step(after, j, part) == Step(fs.inodes, j, part) {
    }
  }

  /** Once the filesystem is up, every boot node is there, with its kind and device, and /init reads "init\n". */
  lemma BootTreeIsThere(fs: FileSystem, node: BootNode)
    requires fs == Empty() && node in BOOT_NODES
    ensures DataOk(fs) && Names(Init(fs).0, node)
    ensures var fs' := Init(fs).0; var i := LookupByPath(fs'.inodes, None, "/init");
            i.Some? && IsFile(fs'.inodes[i.value]) && Contents(fs'.inodes[i.value]) == INIT_BYTES
  {
    EmptyHasData(fs);
    RootIsOk(fs);
    var fs0 := AllocInode(fs.(nextInodeID := 1), Directory, 0, NoDevice).0;
    var fs1, n := PopulateAll(WithRoot(fs0, 0));
    InitFromRoot(fs, fs0, fs1, n);
    RootPopulated(WithRoot(fs0, 0), fs1, n, BOOT_NODES, node);
    InitWritten(fs1, n, node);
  }

  /** The path names an inode of this kind, and of this device if it is one. */
  ghost predicate IsAt(inodes: seq<Inode>, path: string, kind: InodeKind, device: DeviceKind) {
    var n := LookupByPath(inodes, None, path);
    n.Some? && inodes[n.value].kind == kind && inodes[n.value].device == device
  }

  /** The tree that boot leaves, path by path; /init reads "init" and a newline. */
  lemma BootPaths(fs: FileSystem)
    requires fs == Empty()
    ensures DataOk(fs)
    ensures var inodes := Init(fs).0.inodes;
            && IsAt(inodes, "/dev", Directory, NoDevice) && IsAt(inodes, "/dev/console", Device, Console)
            && IsAt(inodes, "/dev/uart", Device, Uart) && IsAt(inodes, "/dev/timer", Device, Timer)
            && IsAt(inodes, "/init", File, NoDevice)
            && var i := LookupByPath(inodes, None, "/init").value;
               inodes[i].size == 5 && |inodes[i].data| == MAX_FILE_BYTES
               && inodes[i].data[..5] == ['i' as byte, 'n' as byte, 'i' as byte, 't' as byte, '\n' as byte]
  {
    BootTreeIsThere(fs, BOOT_NODES[0]);
    BootTreeIsThere(fs, BOOT_NODES[1]);
    BootTreeIsThere(fs, BOOT_NODES[2]);
    BootTreeIsThere(fs, BOOT_NODES[3]);
    BootTreeIsThere(fs, BOOT_NODES[4]);
  }

  lemma RootPopulated(fs: FileSystem, fs': FileSystem, n: nat, nodes: seq<BootNode>, node: BootNode)
    requires RootOnly(fs) && nodes == BOOT_NODES && node in nodes && Populate(fs, nodes, 0) == (fs', Some(n))
    ensures Names(fs', node) && LookupByPath(fs'.inodes, None, "/init") == Some(n)
  {
    BootNodesOk(nodes);
    PopulateNames(fs, nodes, 0, node);
    PopulateLast(fs, nodes, 0, "/init");
  }

  lemma InitWritten(fs: FileSystem, n: nat, node: BootNode)
    requires FsOk(fs) && LookupByPath(fs.inodes, None, "/init") == Some(n) && fs.inodes[n].kind == File
    requires fs.inodes[n].size == 0
    requires Names(fs, node)
    ensures var fs' := WriteNode(fs, n, 0, INIT_BYTES).0;
            && Names(fs', node) && LookupByPath(fs'.inodes, None, "/init") == Some(n)
            && IsFile(fs'.inodes[n]) && Contents(fs'.inodes[n]) == INIT_BYTES
  {
    WriteKeepsNames(fs, n, 0, INIT_BYTES, node);
    WriteKeepsNames(fs, n, 0, INIT_BYTES, BootNode("/init", File, NoDevice));
    WriteAppends(fs.inodes[n], INIT_BYTES);
  }
}
