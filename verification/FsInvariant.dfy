/** The filesystem's global invariant and what every namespace call does to it. */
module FsInvariant {
  import opened Common
  import opened Paths
  import opened FsModel

  // ----- who names whom -----

  ghost function EntryLink(e: DirEntry): multiset<int> {
    if e.used then multiset{e.inodeID} else multiset{}
  }

  ghost function LinksOf(node: Inode): multiset<int> {
    Flatten(node.dir, EntryLink)
  }

  /** Every id named by a directory entry, once per entry. */
  ghost function Links(inodes: seq<Inode>): multiset<int> {
    Flatten(inodes, LinksOf)
  }

  ghost predicate EntryUsed(inodes: seq<Inode>, d: int, k: int) {
    0 <= d < |inodes| && 0 <= k < |inodes[d].dir| && inodes[d].dir[k].used
  }

  // ----- the invariant -----

  ghost predicate ShapeOk(inodes: seq<Inode>) {
    && |inodes| == MAX_INODES
    && forall i | 0 <= i < |inodes| ::
         && |inodes[i].dir| == MAX_DIR_ENTRIES && |inodes[i].data| == MAX_FILE_BYTES && inodes[i].size <= MAX_FILE_BYTES
         && (!inodes[i].used ==> inodes[i] == NoInode())
         && (inodes[i].used ==> inodes[i].kind != NoKind)
  }

  /** Ids in use are positive, already handed out, and distinct. */
  ghost predicate IdsOk(inodes: seq<Inode>, next: nat) {
    && (forall i | 0 <= i < |inodes| && inodes[i].used :: 1 <= inodes[i].id < next)
    && (forall i, j | 0 <= i < j < |inodes| && inodes[i].used && inodes[j].used :: inodes[i].id != inodes[j].id)
  }

  ghost predicate RootOk(inodes: seq<Inode>) {
    && |inodes| > 0 && inodes[0].used && inodes[0].id == 1 && inodes[0].kind == Directory
    && inodes[0].parent == 1 && inodes[0].nlink == 1
  }

  /** Only directories have entries; entries carry names, unique in their directory. */
  ghost predicate DirsOk(inodes: seq<Inode>) {
    && (forall d, k | EntryUsed(inodes, d, k) :: inodes[d].kind == Directory && IsName(inodes[d].dir[k].name))
    && (forall d, k, l | EntryUsed(inodes, d, k) && EntryUsed(inodes, d, l) && k < l ::
          inodes[d].dir[k].name != inodes[d].dir[l].name)
  }

  /** Parents are older than children, nothing names the root, and a directory is named by its parent. */
  ghost predicate TreeOk(inodes: seq<Inode>) {
    && (forall c | 0 < c < |inodes| && inodes[c].used :: 1 <= inodes[c].parent < inodes[c].id)
    && (forall d, k, c | EntryUsed(inodes, d, k) && 0 <= c < |inodes| && inodes[c].used
        && inodes[c].id == inodes[d].dir[k].inodeID ::
          c != 0 && (inodes[c].kind == Directory ==> inodes[c].parent == inodes[d].id))
  }

  /** Link counts are exact: the root is named by nothing, a directory once, anything else as often as it counts. */
  ghost predicate CountsOk(inodes: seq<Inode>) {
    forall c | 0 <= c < |inodes| && inodes[c].used ::
      if c == 0 then Links(inodes)[inodes[c].id] == 0
      else Links(inodes)[inodes[c].id] == inodes[c].nlink >= 1 && (inodes[c].kind == Directory ==> inodes[c].nlink == 1)
  }

  /** No entry dangles. */
  ghost predicate NoneDangle(inodes: seq<Inode>) {
    forall x | x in Links(inodes) :: x >= 0 && LookupByID(inodes, x).Some?
  }

  ghost predicate TableOk(inodes: seq<Inode>, next: nat) {
    && ShapeOk(inodes) && IdsOk(inodes, next) && RootOk(inodes) && DirsOk(inodes) && TreeOk(inodes)
    && CountsOk(inodes) && NoneDangle(inodes)
  }

  ghost predicate FsOk(fs: FileSystem) {
    TableOk(fs.inodes, fs.nextInodeID)
  }

  // ----- lookups under the invariant -----

  lemma {:induction false} FindInodeIs(inodes: seq<Inode>, next: nat, c: nat, i: nat)
    requires IdsOk(inodes, next) && i <= c < |inodes| && inodes[c].used
    ensures FindInode(inodes, inodes[c].id, i) == Some(c)
    decreases c - i
  {
    if i < c && !(inodes[i].used && inodes[i].id == inodes[c].id) {
      FindInodeIs(inodes, next, c, i + 1);
    }
  }

  lemma LookupIs(inodes: seq<Inode>, next: nat, c: nat)
    requires IdsOk(inodes, next) && c < |inodes| && inodes[c].used
    ensures LookupByID(inodes, inodes[c].id) == Some(c)
  {
    FindInodeIs(inodes, next, c, 0);
  }

  /** An entry's id is among the links. */
  lemma EntryIsLink(inodes: seq<Inode>, d: nat, k: nat)
    requires EntryUsed(inodes, d, k)
    ensures inodes[d].dir[k].inodeID in Links(inodes)
  {
    FlattenUpdate(inodes[d].dir, EntryLink, k, inodes[d].dir[k]);
    FlattenUpdate(inodes, LinksOf, d, inodes[d]);
    assert inodes[d].dir[k].inodeID in EntryLink(inodes[d].dir[k]);
  }

  /** A link comes from some entry. */
  lemma LinkHasEntry(inodes: seq<Inode>, x: int) returns (d: nat, k: nat)
    requires x in Links(inodes)
    ensures EntryUsed(inodes, d, k) && inodes[d].dir[k].inodeID == x
  {
    d := FlattenHolder(inodes, LinksOf, x);
    k := FlattenHolder(inodes[d].dir, EntryLink, x);
  }

  lemma {:induction false} FindEntryIs(dir: seq<DirEntry>, k: nat, i: nat)
    requires i <= k < |dir| && dir[k].used
    requires forall l | 0 <= l < k && dir[l].used :: dir[l].name != dir[k].name
    ensures FindEntry(dir, dir[k].name, i) == Some(k)
    decreases k - i
  {
    if i < k {
      FindEntryIs(dir, k, i + 1);
    }
  }

  /** No entry dangles: a name present in a directory resolves, so lookup and presence agree. */
  lemma PresentNamesResolve(fs: FileSystem, d: nat, name: string)
    requires FsOk(fs) && d < |fs.inodes| && fs.inodes[d].kind == Directory
    ensures LookupInDir(fs.inodes, d, name).Some? <==> FindEntry(fs.inodes[d].dir, name, 0).Some?
  {
    var k := FindEntry(fs.inodes[d].dir, name, 0);
    if k.Some? {
      EntryIsLink(fs.inodes, d, k.value);
    }
  }

  // ----- changing one entry -----

  lemma LinksWithEntry(inodes: seq<Inode>, d: nat, k: nat, e: DirEntry)
    requires d < |inodes| && k < |inodes[d].dir|
    ensures EntryLink(inodes[d].dir[k]) <= Links(inodes)
    ensures Links(WithEntry(inodes, d, k, e)) == Links(inodes) - EntryLink(inodes[d].dir[k]) + EntryLink(e)
  {
    var node := inodes[d].(dir := inodes[d].dir[k := e]);
    FlattenUpdate(inodes[d].dir, EntryLink, k, e);
    FlattenUpdate(inodes, LinksOf, d, node);
  }

  lemma NoEntriesNoLinks(node: Inode)
    requires forall k | 0 <= k < |node.dir| :: !node.dir[k].used
    ensures LinksOf(node) == multiset{}
  {
    FlattenNothing(node.dir, EntryLink);
  }

  /** The shape of every namespace change: one entry of directory `d` and one other, entry-less inode `n`. */
  ghost function Rewire(inodes: seq<Inode>, d: nat, k: nat, e: DirEntry, n: nat, node: Inode): seq<Inode>
    requires d < |inodes| && k < |inodes[d].dir| && n < |inodes|
  {
    WithEntry(inodes, d, k, e)[n := node]
  }

  ghost predicate Bare(node: Inode) {
    |node.dir| == MAX_DIR_ENTRIES && |node.data| == MAX_FILE_BYTES && node.size <= MAX_FILE_BYTES
    && forall k | 0 <= k < |node.dir| :: !node.dir[k].used
  }

  ghost predicate CanRewire(inodes: seq<Inode>, d: nat, k: nat, n: nat, node: Inode) {
    && d < |inodes| && k < |inodes[d].dir| && n < |inodes| && d != n
    && Bare(inodes[n]) && Bare(node)
  }

  lemma RewireLinks(inodes: seq<Inode>, d: nat, k: nat, e: DirEntry, n: nat, node: Inode)
    requires CanRewire(inodes, d, k, n, node)
    ensures Links(Rewire(inodes, d, k, e, n, node)) == Links(inodes) - EntryLink(inodes[d].dir[k]) + EntryLink(e)
    ensures EntryLink(inodes[d].dir[k]) <= Links(inodes)
  {
    LinksWithEntry(inodes, d, k, e);
    NoEntriesNoLinks(inodes[n]);
    NoEntriesNoLinks(node);
    FlattenSame(WithEntry(inodes, d, k, e), LinksOf, n, node);
  }

  lemma RewireShape(inodes: seq<Inode>, d: nat, k: nat, e: DirEntry, n: nat, node: Inode)
    requires CanRewire(inodes, d, k, n, node) && ShapeOk(inodes) && inodes[d].used
    requires if node.used then node.kind != NoKind else node == NoInode()
    ensures ShapeOk(Rewire(inodes, d, k, e, n, node))
  {
  }

  lemma RewireDirs(inodes: seq<Inode>, d: nat, k: nat, e: DirEntry, n: nat, node: Inode)
    requires CanRewire(inodes, d, k, n, node) && DirsOk(inodes) && inodes[d].kind == Directory
    requires e.used ==>
               IsName(e.name) && forall l | EntryUsed(inodes, d, l) && l != k :: inodes[d].dir[l].name != e.name
    ensures DirsOk(Rewire(inodes, d, k, e, n, node))
  {
    var after := Rewire(inodes, d, k, e, n, node);
    forall d2, l | EntryUsed(after, d2, l)
      ensures after[d2].kind == Directory && IsName(after[d2].dir[l].name)
      ensures !(d2 == d && l == k) ==> EntryUsed(inodes, d2, l) && inodes[d2].dir[l] == after[d2].dir[l]
    {
    }
    forall d2, l, m | EntryUsed(after, d2, l) && EntryUsed(after, d2, m) && l < m
      ensures after[d2].dir[l].name != after[d2].dir[m].name
    {
    }
  }

  // ----- create -----

  lemma UnnamedId(inodes: seq<Inode>, next: nat, x: nat)
    requires TableOk(inodes, next) && x >= next
    ensures x !in Links(inodes)
    ensures forall d, k | EntryUsed(inodes, d, k) :: inodes[d].dir[k].inodeID != x
  {
    forall d, k | EntryUsed(inodes, d, k) ensures inodes[d].dir[k].inodeID != x {
      EntryIsLink(inodes, d, k);
    }
  }

  /** A new inode under a fresh id, named by one new entry. */
  ghost predicate CreateArgs(inodes: seq<Inode>, next: nat, d: nat, k: nat, e: DirEntry, n: nat, node: Inode) {
    && CanRewire(inodes, d, k, n, node)
    && inodes[d].used && inodes[d].kind == Directory && !inodes[d].dir[k].used && !inodes[n].used
    && e == DirEntry(true, e.name, next) && IsName(e.name)
    && (forall l | EntryUsed(inodes, d, l) :: inodes[d].dir[l].name != e.name)
    && node.used && node.id == next && node.parent == inodes[d].id && node.nlink == 1 && node.kind != NoKind
  }

  lemma CreateTree(inodes: seq<Inode>, next: nat, d: nat, k: nat, e: DirEntry, n: nat, node: Inode)
    requires TableOk(inodes, next) && next >= 2 && CreateArgs(inodes, next, d, k, e, n, node)
    ensures TreeOk(Rewire(inodes, d, k, e, n, node))
  {
    UnnamedId(inodes, next, next);
    var after := Rewire(inodes, d, k, e, n, node);
    forall d2, l, c | EntryUsed(after, d2, l) && 0 <= c < |after| && after[c].used
      && after[c].id == after[d2].dir[l].inodeID
      ensures c != 0 && (after[c].kind == Directory ==> after[c].parent == after[d2].id)
    {
      if d2 == d && l == k {
      } else {
        assert EntryUsed(inodes, d2, l) && inodes[d2].dir[l] == after[d2].dir[l];
      }
    }
  }

  lemma CreateCounts(inodes: seq<Inode>, next: nat, d: nat, k: nat, e: DirEntry, n: nat, node: Inode)
    requires TableOk(inodes, next) && next >= 2 && CreateArgs(inodes, next, d, k, e, n, node)
    ensures CountsOk(Rewire(inodes, d, k, e, n, node))
  {
    UnnamedId(inodes, next, next);
    RewireLinks(inodes, d, k, e, n, node);
  }

  lemma CreateIds(inodes: seq<Inode>, next: nat, d: nat, k: nat, e: DirEntry, n: nat, node: Inode)
    requires IdsOk(inodes, next) && next >= 1 && CreateArgs(inodes, next, d, k, e, n, node)
    ensures IdsOk(Rewire(inodes, d, k, e, n, node), next + 1)
  {
  }

  lemma CreateResolves(inodes: seq<Inode>, next: nat, d: nat, k: nat, e: DirEntry, n: nat, node: Inode)
    requires IdsOk(inodes, next) && NoneDangle(inodes) && next >= 1 && CreateArgs(inodes, next, d, k, e, n, node)
    ensures NoneDangle(Rewire(inodes, d, k, e, n, node))
  {
    RewireLinks(inodes, d, k, e, n, node);
    CreateIds(inodes, next, d, k, e, n, node);
    var after := Rewire(inodes, d, k, e, n, node);
    forall x | x in Links(after) ensures x >= 0 && LookupByID(after, x).Some? {
      LookupIs(after, next + 1, if x == next then n else LookupByID(inodes, x).value);
    }
  }

  lemma CreateTable(inodes: seq<Inode>, next: nat, d: nat, k: nat, e: DirEntry, n: nat, node: Inode)
    requires TableOk(inodes, next) && next >= 2 && CreateArgs(inodes, next, d, k, e, n, node)
    ensures TableOk(Rewire(inodes, d, k, e, n, node), next + 1)
  {
    RewireShape(inodes, d, k, e, n, node);
    RewireDirs(inodes, d, k, e, n, node);
    CreateIds(inodes, next, d, k, e, n, node);
    CreateTree(inodes, next, d, k, e, n, node);
    CreateCounts(inodes, next, d, k, e, n, node);
    CreateResolves(inodes, next, d, k, e, n, node);
  }

  /** The name is free in the directory, and there is room for it there. */
  ghost predicate NameFits(inodes: seq<Inode>, d: nat, name: string) {
    d < |inodes| && inodes[d].kind == Directory
    && FindEntry(inodes[d].dir, name, 0).None? && FreeEntry(inodes[d].dir, 0).Some?
  }

  /** What a creation in a directory comes to: nothing when the name is taken or the inode table is full; an id spent
      when the directory is full; otherwise one new inode and one new entry. */
  lemma CreateShape(fs: FileSystem, d: nat, name: string, kind: InodeKind, device: DeviceKind)
    requires FsOk(fs) && d < |fs.inodes| && fs.inodes[d].kind == Directory && IsName(name)
    ensures var (fs', made) := CreateIn(fs, d, name, kind, device);
            var i := FreeInode(fs.inodes, 0);
            if FindEntry(fs.inodes[d].dir, name, 0).Some? || i.None? then fs' == fs && made.None?
            else if !NameFits(fs.inodes, d, name) then
              fs' == fs.(nextInodeID := fs.nextInodeID + 1) && made.None?
            else
              && made == i && i.value != d
              && fs' == fs.(nextInodeID := fs.nextInodeID + 1,
                            inodes := Rewire(fs.inodes, d, FreeEntry(fs.inodes[d].dir, 0).value,
                                             DirEntry(true, name, fs.nextInodeID), i.value,
                                             NewInode(fs.nextInodeID, fs.inodes[d].id, kind, device)))
  {
    PresentNamesResolve(fs, d, name);
    var i := FreeInode(fs.inodes, 0);
    if FindEntry(fs.inodes[d].dir, name, 0).None? && i.Some? {
      AddAfterAlloc(fs.inodes, d, name, i.value, NewInode(fs.nextInodeID, fs.inodes[d].id, kind, device));
    }
  }

  /** Filling an unused inode and then adding an entry, seen as one change; or undoing the first. */
  lemma AddAfterAlloc(inodes: seq<Inode>, d: nat, name: string, i: nat, node: Inode)
    requires d < |inodes| && inodes[d].used && inodes[d].kind == Directory && IsName(name)
    requires i < |inodes| && inodes[i] == NoInode() && FindEntry(inodes[d].dir, name, 0).None?
    ensures i != d && inodes[i := node][i := NoInode()] == inodes
    ensures AddDirEntry(inodes[i := node], d, name, node.id) ==
              if NameFits(inodes, d, name) then
                Some(Rewire(inodes, d, FreeEntry(inodes[d].dir, 0).value, DirEntry(true, name, node.id), i, node))
              else None
  {
    assert inodes[i := node][i := NoInode()] == inodes;
    var k := FreeEntry(inodes[d].dir, 0);
    if k.Some? {
      var e := DirEntry(true, name, node.id);
      assert WithEntry(inodes[i := node], d, k.value, e) == Rewire(inodes, d, k.value, e, i, node);
    }
  }

  lemma FreeNameIsNew(inodes: seq<Inode>, d: nat, name: string)
    requires d < |inodes| && FindEntry(inodes[d].dir, name, 0).None?
    ensures forall l | EntryUsed(inodes, d, l) :: inodes[d].dir[l].name != name
  {
  }

  lemma NewInodeIsBare(id: nat, parent: nat, kind: InodeKind, device: DeviceKind)
    ensures Bare(NewInode(id, parent, kind, device)) && Bare(NoInode())
  {
  }

  /** fsCreatePath in a directory keeps the invariant, whether it creates, finds the name taken or finds no room. */
  lemma CreateKeeps(fs: FileSystem, d: nat, name: string, kind: InodeKind, device: DeviceKind)
    requires FsOk(fs) && d < |fs.inodes| && fs.inodes[d].kind == Directory
    requires IsName(name) && kind != NoKind
    ensures var fs' := CreateIn(fs, d, name, kind, device).0;
            FsOk(fs') && fs'.nextInodeID >= fs.nextInodeID
  {
    CreateShape(fs, d, name, kind, device);
    var i := FreeInode(fs.inodes, 0);
    if i.Some? && NameFits(fs.inodes, d, name) {
      CreatedKeeps(fs, d, name, kind, device, i.value);
    }
  }

  lemma CreatedKeeps(fs: FileSystem, d: nat, name: string, kind: InodeKind, device: DeviceKind, i: nat)
    requires FsOk(fs) && d < |fs.inodes| && fs.inodes[d].kind == Directory && NameFits(fs.inodes, d, name)
    requires IsName(name) && kind != NoKind && FreeInode(fs.inodes, 0) == Some(i) && i != d
    ensures var k, e := FreeEntry(fs.inodes[d].dir, 0).value, DirEntry(true, name, fs.nextInodeID);
            var node := NewInode(fs.nextInodeID, fs.inodes[d].id, kind, device);
            TableOk(Rewire(fs.inodes, d, k, e, i, node), fs.nextInodeID + 1)
  {
    var k, e := FreeEntry(fs.inodes[d].dir, 0).value, DirEntry(true, name, fs.nextInodeID);
    FreeNameIsNew(fs.inodes, d, name);
    NewInodeIsBare(fs.nextInodeID, fs.inodes[d].id, kind, device);
    CreateTable(fs.inodes, fs.nextInodeID, d, k, e, i, NewInode(fs.nextInodeID, fs.inodes[d].id, kind, device));
  }

  // ----- one entry -----

  /** An entry is added exactly to a directory, under a name that is not empty, has no slash and does not resolve there
      yet, while one is free. The first free entry becomes it, and nothing else changes. */
  lemma EntryIsAdded(inodes: seq<Inode>, d: nat, name: string, child: nat) returns (k: nat)
    requires d < |inodes|
    ensures var r := AddDirEntry(inodes, d, name, child);
            && (r.Some? <==>
                  && inodes[d].kind == Directory && name != "" && '/' !in name && LookupInDir(inodes, d, name).None?
                  && exists j | 0 <= j < |inodes[d].dir| :: !inodes[d].dir[j].used)
            && (r.Some? ==>
                  && k < |inodes[d].dir| && !inodes[d].dir[k].used && (forall j | 0 <= j < k :: inodes[d].dir[j].used)
                  && r.value == inodes[d := inodes[d].(dir := inodes[d].dir[k := DirEntry(true, name, child)])])
  {
    var free := FreeEntry(inodes[d].dir, 0);
    k := if free.Some? then free.value else 0;
    FreeEntryIsLowest(inodes[d].dir, 0);
  }

  /** An entry is removed exactly where a directory has one of that name; that entry alone is
      cleared, and its id answered. */
  lemma EntryIsRemoved(inodes: seq<Inode>, d: nat, name: string) returns (k: nat)
    requires d < |inodes|
    ensures var r := RemoveDirEntry(inodes, d, name);
            && (r.Some? <==>
                  && inodes[d].kind == Directory
                  && exists j | 0 <= j < |inodes[d].dir| :: inodes[d].dir[j].used && inodes[d].dir[j].name == name)
            && (r.Some? ==>
                  && k < |inodes[d].dir| && inodes[d].dir[k].used && inodes[d].dir[k].name == name
                  && r.value.0 == inodes[d := inodes[d].(dir := inodes[d].dir[k := NO_ENTRY])]
                  && r.value.1 == inodes[d].dir[k].inodeID)
  {
    var found := FindEntry(inodes[d].dir, name, 0);
    k := if found.Some? then found.value else 0;
  }

  // ----- link -----

  /** One more name for an inode that is not a directory. */
  ghost predicate LinkArgs(inodes: seq<Inode>, d: nat, k: nat, e: DirEntry, n: nat) {
    && n < |inodes| && CanRewire(inodes, d, k, n, inodes[n])
    && inodes[d].used && inodes[d].kind == Directory && !inodes[d].dir[k].used
    && inodes[n].used && inodes[n].kind != Directory
    && e == DirEntry(true, e.name, inodes[n].id) && IsName(e.name)
    && (forall l | EntryUsed(inodes, d, l) :: inodes[d].dir[l].name != e.name)
  }

  /** Whatever keeps every inode's identity keeps ids, parents and resolvability. */
  ghost predicate SameIdentities(inodes: seq<Inode>, after: seq<Inode>) {
    && |after| == |inodes|
    && forall i | 0 <= i < |inodes| ::
         && after[i].used == inodes[i].used && after[i].id == inodes[i].id && after[i].parent == inodes[i].parent
         && after[i].kind == inodes[i].kind && after[i].device == inodes[i].device
  }

  lemma SameIdsResolve(inodes: seq<Inode>, after: seq<Inode>, next: nat, x: nat)
    requires SameIdentities(inodes, after) && IdsOk(inodes, next)
    ensures IdsOk(after, next) && LookupByID(after, x) == LookupByID(inodes, x)
  {
    var c := LookupByID(inodes, x);
    if c.Some? {
      LookupIs(after, next, c.value);
    }
  }

  lemma LinkTable(inodes: seq<Inode>, next: nat, d: nat, k: nat, e: DirEntry, n: nat)
    requires TableOk(inodes, next) && n < |inodes| && LinkArgs(inodes, d, k, e, n)
    ensures TableOk(Rewire(inodes, d, k, e, n, inodes[n].(nlink := inodes[n].nlink + 1)), next)
  {
    var node := inodes[n].(nlink := inodes[n].nlink + 1);
    LinkLayout(inodes, d, k, e, n, node);
    LinkIds(inodes, next, d, k, e, n, node);
    LinkTree(inodes, next, d, k, e, n, node);
    LinkCounts(inodes, next, d, k, e, n, node);
    LinkResolves(inodes, next, d, k, e, n, node);
  }

  lemma LinkLayout(inodes: seq<Inode>, d: nat, k: nat, e: DirEntry, n: nat, node: Inode)
    requires ShapeOk(inodes) && DirsOk(inodes) && RootOk(inodes)
    requires n < |inodes| && LinkArgs(inodes, d, k, e, n) && node == inodes[n].(nlink := node.nlink)
    ensures var after := Rewire(inodes, d, k, e, n, node); ShapeOk(after) && DirsOk(after) && RootOk(after)
  {
    RewireShape(inodes, d, k, e, n, node);
    RewireDirs(inodes, d, k, e, n, node);
  }

  lemma LinkIds(inodes: seq<Inode>, next: nat, d: nat, k: nat, e: DirEntry, n: nat, node: Inode)
    requires IdsOk(inodes, next)
    requires n < |inodes| && LinkArgs(inodes, d, k, e, n) && node == inodes[n].(nlink := node.nlink)
    ensures IdsOk(Rewire(inodes, d, k, e, n, node), next)
  {
    SameIdsResolve(inodes, Rewire(inodes, d, k, e, n, node), next, 1);
  }

  lemma LinkTree(inodes: seq<Inode>, next: nat, d: nat, k: nat, e: DirEntry, n: nat, node: Inode)
    requires IdsOk(inodes, next) && TreeOk(inodes) && n != 0
    requires n < |inodes| && LinkArgs(inodes, d, k, e, n) && node == inodes[n].(nlink := node.nlink)
    ensures TreeOk(Rewire(inodes, d, k, e, n, node))
  {
    var after := Rewire(inodes, d, k, e, n, node);
    forall d2, l, c | EntryUsed(after, d2, l) && 0 <= c < |after| && after[c].used
      && after[c].id == after[d2].dir[l].inodeID
      ensures c != 0 && (after[c].kind == Directory ==> after[c].parent == after[d2].id)
    {
      if d2 == d && l == k {
        assert c == n;
      } else {
        assert EntryUsed(inodes, d2, l) && inodes[d2].dir[l] == after[d2].dir[l];
      }
    }
  }

  lemma LinkCounts(inodes: seq<Inode>, next: nat, d: nat, k: nat, e: DirEntry, n: nat, node: Inode)
    requires IdsOk(inodes, next) && CountsOk(inodes) && n != 0 && n < |inodes| && LinkArgs(inodes, d, k, e, n)
    requires node == inodes[n].(nlink := inodes[n].nlink + 1)
    ensures CountsOk(Rewire(inodes, d, k, e, n, node))
  {
    RewireLinks(inodes, d, k, e, n, node);
  }

  lemma LinkResolves(inodes: seq<Inode>, next: nat, d: nat, k: nat, e: DirEntry, n: nat, node: Inode)
    requires IdsOk(inodes, next) && NoneDangle(inodes) && n < |inodes| && LinkArgs(inodes, d, k, e, n)
    requires node == inodes[n].(nlink := node.nlink)
    ensures NoneDangle(Rewire(inodes, d, k, e, n, node))
  {
    var after := Rewire(inodes, d, k, e, n, node);
    RewireLinks(inodes, d, k, e, n, node);
    LookupIs(inodes, next, n);
    forall x | x in Links(after) ensures x >= 0 && LookupByID(after, x).Some? {
      SameIdsResolve(inodes, after, next, x);
    }
  }

  lemma FileIsBare(inodes: seq<Inode>, n: nat)
    requires ShapeOk(inodes) && DirsOk(inodes) && n < |inodes| && inodes[n].kind != Directory
    ensures Bare(inodes[n])
  {
    forall k | 0 <= k < |inodes[n].dir| ensures !inodes[n].dir[k].used {
      assert !EntryUsed(inodes, n, k);
    }
  }

  /** A link adds one entry and one to the count, or changes nothing. */
  lemma LinkShape(fs: FileSystem, node: nat, d: nat, name: string)
    requires FsOk(fs) && node < |fs.inodes| && fs.inodes[node].used && fs.inodes[node].kind != Directory
    requires d < |fs.inodes| && fs.inodes[d].kind == Directory && IsName(name)
    ensures var (fs', ok) := LinkIn(fs, node, d, name);
            && ok == NameFits(fs.inodes, d, name)
            && fs' == if !ok then fs else
                 fs.(inodes := Rewire(fs.inodes, d, FreeEntry(fs.inodes[d].dir, 0).value,
                                      DirEntry(true, name, fs.inodes[node].id), node,
                                      fs.inodes[node].(nlink := fs.inodes[node].nlink + 1)))
  {
    PresentNamesResolve(fs, d, name);
  }

  lemma LinkArgsHold(inodes: seq<Inode>, node: nat, d: nat, name: string)
    requires ShapeOk(inodes) && DirsOk(inodes) && NameFits(inodes, d, name) && IsName(name)
    requires node < |inodes| && inodes[node].used && inodes[node].kind != Directory
    ensures LinkArgs(inodes, d, FreeEntry(inodes[d].dir, 0).value, DirEntry(true, name, inodes[node].id), node)
  {
    FreeNameIsNew(inodes, d, name);
    FileIsBare(inodes, node);
  }

  lemma LinkedTable(inodes: seq<Inode>, next: nat, node: nat, d: nat, name: string)
    requires TableOk(inodes, next) && NameFits(inodes, d, name) && IsName(name)
    requires node < |inodes| && inodes[node].used && inodes[node].kind != Directory
    ensures TableOk(Rewire(inodes, d, FreeEntry(inodes[d].dir, 0).value, DirEntry(true, name, inodes[node].id), node,
                           inodes[node].(nlink := inodes[node].nlink + 1)), next)
  {
    LinkArgsHold(inodes, node, d, name);
    LinkTable(inodes, next, d, FreeEntry(inodes[d].dir, 0).value, DirEntry(true, name, inodes[node].id), node);
  }

  lemma LinkedFs(fs: FileSystem, node: nat, d: nat, name: string, fs': FileSystem)
    requires FsOk(fs) && NameFits(fs.inodes, d, name) && IsName(name)
    requires node < |fs.inodes| && fs.inodes[node].used && fs.inodes[node].kind != Directory
    requires fs' == fs.(inodes := Rewire(fs.inodes, d, FreeEntry(fs.inodes[d].dir, 0).value,
                                         DirEntry(true, name, fs.inodes[node].id), node,
                                         fs.inodes[node].(nlink := fs.inodes[node].nlink + 1)))
    ensures FsOk(fs')
  {
    LinkedTable(fs.inodes, fs.nextInodeID, node, d, name);
  }

  /** sysLink's change keeps the invariant, whether or not the name fits. */
  lemma LinkKeeps(fs: FileSystem, node: nat, d: nat, name: string)
    requires FsOk(fs) && node < |fs.inodes| && fs.inodes[node].used && fs.inodes[node].kind != Directory
    requires d < |fs.inodes| && fs.inodes[d].kind == Directory && IsName(name)
    ensures FsOk(LinkIn(fs, node, d, name).0) && LinkIn(fs, node, d, name).0.nextInodeID == fs.nextInodeID
  {
    LinkShape(fs, node, d, name);
    var (fs', ok) := LinkIn(fs, node, d, name);
    if ok {
      LinkedFs(fs, node, d, name, fs');
    }
  }
}
