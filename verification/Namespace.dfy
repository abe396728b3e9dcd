/** What create, link and unlink do to what every path resolves to. */
module Namespace {
  import opened Common
  import opened Paths
  import opened FsModel
  import opened FsInvariant
  import opened FsUnlink
  import opened Walks

  // ----- comparing two namespaces -----

  /** Everything that resolves in `a` resolves to the same inode in `b`. */
  ghost predicate Within(a: seq<Inode>, b: seq<Inode>) {
    && |a| == |b|
    && (forall x: nat :: LookupByID(a, x).Some? ==> LookupByID(b, x) == LookupByID(a, x))
    && (forall i, part | 0 <= i < |a| :: Step(a, i, part).Some? ==> Step(b, i, part) == Step(a, i, part))
  }

  lemma {:induction false} WalkWithin(a: seq<Inode>, b: seq<Inode>, cur: nat, parts: seq<string>)
    requires Within(a, b) && cur < |a|
    ensures Walk(a, cur, parts).Some? ==> Walk(b, cur, parts) == Walk(a, cur, parts)
    decreases |parts|
  {
    if parts != [] {
      var next := Step(a, cur, parts[0]);
      if next.Some? {
        WalkWithin(a, b, next.value, parts[1..]);
      }
    }
  }

  lemma PathWithin(a: seq<Inode>, b: seq<Inode>, cwd: Option<nat>, path: string)
    requires Within(a, b)
    ensures LookupByPath(a, cwd, path).Some? ==> LookupByPath(b, cwd, path) == LookupByPath(a, cwd, path)
  {
    var start := StartingDir(a, cwd, path);
    if start.Some? {
      WalkWithin(a, b, start.value, Components(path));
    }
  }

  /** The walk starts at `n` or comes to it. */
  ghost predicate Visits(inodes: seq<Inode>, cur: nat, parts: seq<string>, n: nat)
    requires cur < |inodes|
    decreases |parts|
  {
    cur == n
    || (parts != [] && Step(inodes, cur, parts[0]).Some?
        && Visits(inodes, Step(inodes, cur, parts[0]).value, parts[1..], n))
  }

  // ----- finding entries after a change -----

  lemma {:induction false} FindElsewhere(dir: seq<DirEntry>, k: nat, e: DirEntry, name: string, i: nat)
    requires i <= |dir| && k < |dir|
    requires !(e.used && e.name == name) && !(dir[k].used && dir[k].name == name)
    ensures FindEntry(dir[k := e], name, i) == FindEntry(dir, name, i)
    decreases |dir| - i
  {
    if i < |dir| {
      FindElsewhere(dir, k, e, name, i + 1);
    }
  }

  lemma FindAdded(dir: seq<DirEntry>, k: nat, e: DirEntry, name: string)
    requires k < |dir| && !dir[k].used && e.used && FindEntry(dir, e.name, 0).None?
    ensures FindEntry(dir[k := e], name, 0) == if name == e.name then Some(k) else FindEntry(dir, name, 0)
  {
    if name == e.name {
      FindEntryIs(dir[k := e], k, 0);
    } else {
      FindElsewhere(dir, k, e, name, 0);
    }
  }

  lemma FindRemoved(dir: seq<DirEntry>, k: nat, name: string)
    requires k < |dir| && dir[k].used
    requires forall i, j | 0 <= i < j < |dir| && dir[i].used && dir[j].used :: dir[i].name != dir[j].name
    ensures FindEntry(dir[k := NO_ENTRY], name, 0) == if name == dir[k].name then None else FindEntry(dir, name, 0)
  {
    if name == dir[k].name {
      FindEntryIs(dir, k, 0);
      NameGone(dir, k, name);
    } else {
      FindElsewhere(dir, k, NO_ENTRY, name, 0);
    }
  }

  // ----- adding a name: create and link -----

  /** How steps go once directory `d` holds `n` under `name`. */
  ghost predicate NameAdded(a: seq<Inode>, b: seq<Inode>, d: nat, name: string, n: nat)
    requires |a| == |b|
  {
    forall i, part | 0 <= i < |a| && i != n ::
      Step(b, i, part) == if i == d && part == name && part != ".." then Some(n) else Step(a, i, part)
  }

  lemma NewEntryFree(inodes: seq<Inode>, d: nat, name: string)
    requires d < |inodes| && forall l | EntryUsed(inodes, d, l) :: inodes[d].dir[l].name != name
    ensures FindEntry(inodes[d].dir, name, 0).None?
  {
    var k := FindEntry(inodes[d].dir, name, 0);
    assert k.None? || EntryUsed(inodes, d, k.value);
  }

  lemma CreateLookup(inodes: seq<Inode>, next: nat, d: nat, k: nat, e: DirEntry, n: nat, node: Inode, x: nat)
    requires IdsOk(inodes, next) && next >= 1 && CreateArgs(inodes, next, d, k, e, n, node)
    ensures LookupByID(Rewire(inodes, d, k, e, n, node), x) == if x == next then Some(n) else LookupByID(inodes, x)
  {
    var after := Rewire(inodes, d, k, e, n, node);
    CreateIds(inodes, next, d, k, e, n, node);
    var c := LookupByID(inodes, x);
    if x == next {
      LookupIs(after, next + 1, n);
    } else if c.Some? {
      LookupIs(after, next + 1, c.value);
    }
  }

  lemma CreateStep(inodes: seq<Inode>, next: nat, d: nat, k: nat, e: DirEntry, n: nat, node: Inode, i: nat,
                   part: string)
    requires TableOk(inodes, next) && next >= 2 && CreateArgs(inodes, next, d, k, e, n, node) && i < |inodes|
    ensures var after := Rewire(inodes, d, k, e, n, node);
            Step(after, i, part) ==
              if i == n then (if part == ".." then Some(d) else None)
              else if i == d && part == e.name && part != ".." then Some(n)
              else Step(inodes, i, part)
    ensures i == n ==> Step(inodes, i, part).None?
  {
    var after := Rewire(inodes, d, k, e, n, node);
    NewEntryFree(inodes, d, e.name);
    if part == ".." {
      CreateLookup(inodes, next, d, k, e, n, node, after[i].parent);
      LookupIs(inodes, next, d);
    } else if i != n {
      FindAdded(inodes[d].dir, k, e, part);
      CreateChild(inodes, next, d, k, e, n, node, i, part);
    } else {
      assert forall l | 0 <= l < |node.dir| :: !node.dir[l].used;
    }
  }

  lemma CreateChild(inodes: seq<Inode>, next: nat, d: nat, k: nat, e: DirEntry, n: nat, node: Inode, i: nat,
                    part: string)
    requires ShapeOk(inodes) && IdsOk(inodes, next) && NoneDangle(inodes) && next >= 2
    requires CreateArgs(inodes, next, d, k, e, n, node) && i < |inodes| && i != n
    requires FindEntry(inodes[d].dir[k := e], part, 0) ==
               if part == e.name then Some(k) else FindEntry(inodes[d].dir, part, 0)
    ensures LookupInDir(Rewire(inodes, d, k, e, n, node), i, part) ==
              if i == d && part == e.name then Some(n) else LookupInDir(inodes, i, part)
  {
    var after := Rewire(inodes, d, k, e, n, node);
    var l := FindEntry(inodes[i].dir, part, 0);
    if i == d && part == e.name {
      CreateLookup(inodes, next, d, k, e, n, node, next);
    } else if inodes[i].kind == Directory && l.Some? {
      EntryIsLink(inodes, i, l.value);
      CreateLookup(inodes, next, d, k, e, n, node, inodes[i].dir[l.value].inodeID);
    }
  }

  /** What a creation that succeeded made of the table: everything later lemmas need to know about it. */
  ghost predicate Created(fs: FileSystem, fs': FileSystem, d: nat, name: string, n: nat) {
    && |fs'.inodes| == |fs.inodes| && d < |fs.inodes| && n < |fs.inodes| && n != d
    && fs.inodes[d].used && !fs.inodes[n].used
    && fs'.nextInodeID == fs.nextInodeID + 1 >= 3
    && (forall x: nat :: LookupByID(fs'.inodes, x) == if x == fs.nextInodeID then Some(n) else LookupByID(fs.inodes, x))
    && NameAdded(fs.inodes, fs'.inodes, d, name, n)
    && (forall part :: Step(fs.inodes, n, part).None?)
    && Step(fs'.inodes, n, "..") == Some(d)
    && LookupByID(fs.inodes, fs.nextInodeID).None?
  }

  lemma CreatedTable(inodes: seq<Inode>, next: nat, d: nat, k: nat, e: DirEntry, n: nat, node: Inode, fs: FileSystem,
                     fs': FileSystem)
    requires TableOk(inodes, next) && next >= 2 && CreateArgs(inodes, next, d, k, e, n, node)
    requires fs.inodes == inodes && fs.nextInodeID == next
    requires fs'.inodes == Rewire(inodes, d, k, e, n, node) && fs'.nextInodeID == next + 1
    ensures Created(fs, fs', d, e.name, n)
  {
    forall x: nat ensures LookupByID(fs'.inodes, x) == if x == next then Some(n) else LookupByID(inodes, x) {
      CreateLookup(inodes, next, d, k, e, n, node, x);
    }
    forall i, part | 0 <= i < |inodes| && i != n
      ensures Step(fs'.inodes, i, part) ==
                if i == d && part == e.name && part != ".." then Some(n) else Step(inodes, i, part)
    {
      CreateStep(inodes, next, d, k, e, n, node, i, part);
    }
    forall part ensures Step(inodes, n, part).None? && (part == ".." ==> Step(fs'.inodes, n, part) == Some(d)) {
      CreateStep(inodes, next, d, k, e, n, node, n, part);
    }
    assert Step(fs'.inodes, n, "..") == Some(d);
  }

  lemma CreateArgsHold(inodes: seq<Inode>, next: nat, d: nat, name: string, kind: InodeKind, device: DeviceKind, n: nat)
    requires ShapeOk(inodes) && NameFits(inodes, d, name) && IsName(name) && kind != NoKind
    requires n < |inodes| && inodes[n] == NoInode()
    ensures CreateArgs(inodes, next, d, FreeEntry(inodes[d].dir, 0).value, DirEntry(true, name, next), n,
                       NewInode(next, inodes[d].id, kind, device))
  {
    FreeNameIsNew(inodes, d, name);
    NewInodeIsBare(next, inodes[d].id, kind, device);
  }

  /** A creation succeeds exactly when the name is free and both the directory and the inode table have room;
      if not, no inode, entry or link count changes. */
  lemma CreateInOutcome(fs: FileSystem, d: nat, name: string, kind: InodeKind, device: DeviceKind)
    requires FsOk(fs) && d < |fs.inodes| && fs.inodes[d].kind == Directory && IsName(name) && kind != NoKind
    ensures var (fs', made) := CreateIn(fs, d, name, kind, device);
            && (made.Some? <==> NameFits(fs.inodes, d, name) && FreeInode(fs.inodes, 0).Some?)
            && (made.None? ==> fs'.inodes == fs.inodes)
            && (made.Some? ==> made == FreeInode(fs.inodes, 0) && Created(fs, fs', d, name, made.value)
                               && fs'.inodes[made.value] == NewInode(fs.nextInodeID, fs.inodes[d].id, kind, device))
  {
    CreateShape(fs, d, name, kind, device);
    var (fs', made) := CreateIn(fs, d, name, kind, device);
    if made.Some? {
      CreateArgsHold(fs.inodes, fs.nextInodeID, d, name, kind, device, made.value);
      CreatedTable(fs.inodes, fs.nextInodeID, d, FreeEntry(fs.inodes[d].dir, 0).value,
                   DirEntry(true, name, fs.nextInodeID), made.value,
                   NewInode(fs.nextInodeID, fs.inodes[d].id, kind, device), fs, fs');
    }
  }

  lemma CreatedKeepsPaths(fs: FileSystem, fs': FileSystem, d: nat, name: string, n: nat)
    requires Created(fs, fs', d, name, n) && (name == ".." || Step(fs.inodes, d, name).None?)
    ensures Within(fs.inodes, fs'.inodes)
  {
  }

  /** After a creation the path names the new inode exactly when it does not end in "..";
      otherwise it names an older one. */
  lemma CreatedResolves(fs: FileSystem, fs': FileSystem, cwd: Option<nat>, path: string, d: nat, name: string, n: nat)
    requires ResolveParent(fs.inodes, cwd, path) == Some((d, name)) && Created(fs, fs', d, name, n)
    requires Within(fs.inodes, fs'.inodes)
    ensures LookupByPath(fs'.inodes, cwd, path) == Some(n) <==> name != ".."
  {
    var parts := Components(path);
    PathIsParentThenStep(fs'.inodes, cwd, path);
    PathWithin(fs.inodes, fs'.inodes, cwd, ParentPath(path, parts));
  }

  lemma ResolvedParentIsNamed(inodes: seq<Inode>, cwd: Option<nat>, path: string)
    requires ResolveParent(inodes, cwd, path).Some?
    ensures var (d, name) := ResolveParent(inodes, cwd, path).value; var parts := Components(path);
            inodes[d].kind == Directory && IsName(name) && parts != [] && name == parts[|parts| - 1]
  {
    ComponentsAreNames(path);
  }

  // ----- link -----

  /** What a link that succeeds makes of the table. */
  ghost predicate Linked(a: seq<Inode>, b: seq<Inode>, d: nat, name: string, n: nat) {
    && |a| == |b| && d < |a| && n < |a|
    && (forall x: nat :: LookupByID(b, x) == LookupByID(a, x))
    && (forall i, part | 0 <= i < |a| ::
          Step(b, i, part) == if i == d && part == name && part != ".." then Some(n) else Step(a, i, part))
  }

  lemma LinkStep(inodes: seq<Inode>, next: nat, d: nat, k: nat, e: DirEntry, n: nat, node: Inode, i: nat, part: string)
    requires IdsOk(inodes, next) && n < |inodes| && LinkArgs(inodes, d, k, e, n) && i < |inodes|
    requires node == inodes[n].(nlink := node.nlink)
    ensures Step(Rewire(inodes, d, k, e, n, node), i, part) ==
              if i == d && part == e.name && part != ".." then Some(n) else Step(inodes, i, part)
  {
    var after := Rewire(inodes, d, k, e, n, node);
    NewEntryFree(inodes, d, e.name);
    FindAdded(inodes[d].dir, k, e, part);
    LookupIs(inodes, next, n);
    var l := FindEntry(after[i].dir, part, 0);
    if part == ".." {
      SameIdsResolve(inodes, after, next, after[i].parent);
    } else if l.Some? {
      SameIdsResolve(inodes, after, next, after[i].dir[l.value].inodeID);
    }
  }

  lemma LinkedTableSteps(inodes: seq<Inode>, next: nat, d: nat, k: nat, e: DirEntry, n: nat, node: Inode)
    requires IdsOk(inodes, next) && n < |inodes| && LinkArgs(inodes, d, k, e, n)
    requires node == inodes[n].(nlink := node.nlink)
    ensures Linked(inodes, Rewire(inodes, d, k, e, n, node), d, e.name, n)
  {
    var after := Rewire(inodes, d, k, e, n, node);
    forall x: nat ensures LookupByID(after, x) == LookupByID(inodes, x) {
      SameIdsResolve(inodes, after, next, x);
    }
    forall i, part | 0 <= i < |inodes|
      ensures Step(after, i, part) ==
                if i == d && part == e.name && part != ".." then Some(n) else Step(inodes, i, part)
    {
      LinkStep(inodes, next, d, k, e, n, node, i, part);
    }
  }

  lemma LinkInOutcome(fs: FileSystem, node: nat, d: nat, name: string)
    requires FsOk(fs) && node < |fs.inodes| && fs.inodes[node].used && fs.inodes[node].kind != Directory
    requires d < |fs.inodes| && fs.inodes[d].kind == Directory && IsName(name)
    ensures var (fs', ok) := LinkIn(fs, node, d, name);
            && ok == NameFits(fs.inodes, d, name)
            && (if ok then Linked(fs.inodes, fs'.inodes, d, name, node) else fs' == fs)
  {
    LinkShape(fs, node, d, name);
    if NameFits(fs.inodes, d, name) {
      LinkArgsHold(fs.inodes, node, d, name);
      LinkedTableSteps(fs.inodes, fs.nextInodeID, d, FreeEntry(fs.inodes[d].dir, 0).value,
                       DirEntry(true, name, fs.inodes[node].id), node,
                       fs.inodes[node].(nlink := fs.inodes[node].nlink + 1));
    }
  }

  /** After a link the new path names the linked inode exactly when it does not end in "..". */
  lemma LinkedResolves(fs: FileSystem, b: seq<Inode>, cwd: Option<nat>, path: string, d: nat, name: string, n: nat)
    requires FsOk(fs) && ResolveParent(fs.inodes, cwd, path) == Some((d, name)) && Linked(fs.inodes, b, d, name, n)
    requires Within(fs.inodes, b) && fs.inodes[n].kind != Directory
    ensures LookupByPath(b, cwd, path) == Some(n) <==> name != ".."
  {
    PathIsParentThenStep(b, cwd, path);
    PathWithin(fs.inodes, b, cwd, ParentPath(path, Components(path)));
    var up := ParentIsDirectory(fs.inodes, fs.nextInodeID, d);
  }

  lemma FreeNameStep(fs: FileSystem, d: nat, name: string)
    requires FsOk(fs) && NameFits(fs.inodes, d, name)
    ensures name == ".." || Step(fs.inodes, d, name).None?
  {
    PresentNamesResolve(fs, d, name);
  }

  lemma LinkedWithin(a: seq<Inode>, b: seq<Inode>, d: nat, name: string, n: nat)
    requires Linked(a, b, d, name, n) && (name == ".." || Step(a, d, name).None?)
    ensures Within(a, b)
  {
  }
}
