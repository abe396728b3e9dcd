/** What unlink does to what every path resolves to, whether it succeeds or fails. */
module Unlinking {
  import opened Common
  import opened Paths
  import opened FsModel
  import opened FsInvariant
  import opened FsUnlink
  import opened Walks
  import opened Namespace

  // ----- a successful unlink -----

  /** Ids and steps after the entry `name` of `d`, which named `n`, is gone. */
  ghost predicate Removed(a: seq<Inode>, b: seq<Inode>, d: nat, name: string, n: nat) {
    && |a| == |b| && d < |a| && n < |a| && d != n && LookupByID(a, 1) != Some(n)
    && (forall x: nat ::
          LookupByID(b, x) == if LookupByID(a, x) == Some(n) && !b[n].used then None else LookupByID(a, x))
    && (forall i, part | 0 <= i < |a| && i != n ::
          Step(b, i, part) ==
            if (i == d && part == name && part != "..") || (Step(a, i, part) == Some(n) && !b[n].used) then None
            else Step(a, i, part))
    && (forall part :: Step(b, n, part) == if b[n].used then Step(a, n, part) else None)
  }

  lemma DropLookup(inodes: seq<Inode>, next: nat, d: nat, k: nat, n: nat, x: nat)
    requires IdsOk(inodes, next) && DropArgs(inodes, d, k, n)
    ensures LookupByID(Rewire(inodes, d, k, NO_ENTRY, n, Dropped(inodes[n])), x) ==
              if LookupByID(inodes, x) == Some(n) && !Dropped(inodes[n]).used then None else LookupByID(inodes, x)
  {
    var after := Rewire(inodes, d, k, NO_ENTRY, n, Dropped(inodes[n]));
    DropIds(inodes, next, d, k, n);
    var c := LookupByID(inodes, x);
    if c.Some? {
      if after[c.value].used {
        LookupIs(after, next, c.value);
      } else {
        assert c.value == n;
      }
    }
  }

  lemma DropStep(inodes: seq<Inode>, next: nat, d: nat, k: nat, n: nat, i: nat, part: string)
    requires IdsOk(inodes, next) && DirsOk(inodes) && DropArgs(inodes, d, k, n) && i < |inodes| && i != n
    ensures Step(Rewire(inodes, d, k, NO_ENTRY, n, Dropped(inodes[n])), i, part) ==
              if (i == d && part == inodes[d].dir[k].name && part != "..")
                 || (Step(inodes, i, part) == Some(n) && !Dropped(inodes[n]).used) then None
              else Step(inodes, i, part)
  {
    var after := Rewire(inodes, d, k, NO_ENTRY, n, Dropped(inodes[n]));
    NamesUnique(inodes, d);
    FindRemoved(inodes[d].dir, k, part);
    if part == ".." {
      DropLookup(inodes, next, d, k, n, inodes[i].parent);
    } else {
      var l := FindEntry(after[i].dir, part, 0);
      if l.Some? {
        DropLookup(inodes, next, d, k, n, after[i].dir[l.value].inodeID);
      }
    }
  }

  lemma DropStepFromTarget(inodes: seq<Inode>, next: nat, d: nat, k: nat, n: nat, part: string)
    requires IdsOk(inodes, next) && TreeOk(inodes) && DropArgs(inodes, d, k, n)
    ensures var left := Dropped(inodes[n]);
            Step(Rewire(inodes, d, k, NO_ENTRY, n, left), n, part) == if left.used then Step(inodes, n, part) else None
  {
    DropLookup(inodes, next, d, k, n, inodes[n].parent);
  }

  lemma DropRemoves(inodes: seq<Inode>, next: nat, d: nat, k: nat, n: nat)
    requires TableOk(inodes, next) && DropArgs(inodes, d, k, n)
    ensures Removed(inodes, Rewire(inodes, d, k, NO_ENTRY, n, Dropped(inodes[n])), d, inodes[d].dir[k].name, n)
  {
    var left := Dropped(inodes[n]);
    var after := Rewire(inodes, d, k, NO_ENTRY, n, left);
    LookupIs(inodes, next, 0);
    forall x: nat ensures LookupByID(after, x) ==
                            if LookupByID(inodes, x) == Some(n) && !left.used then None else LookupByID(inodes, x) {
      DropLookup(inodes, next, d, k, n, x);
    }
    forall i, part | 0 <= i < |inodes| && i != n
      ensures Step(after, i, part) ==
                if (i == d && part == inodes[d].dir[k].name && part != "..")
                   || (Step(inodes, i, part) == Some(n) && !left.used) then None
                else Step(inodes, i, part)
    {
      DropStep(inodes, next, d, k, n, i, part);
    }
    forall part ensures Step(after, n, part) == if left.used then Step(inodes, n, part) else None {
      DropStepFromTarget(inodes, next, d, k, n, part);
    }
  }

  lemma RemovedWithin(a: seq<Inode>, b: seq<Inode>, d: nat, name: string, n: nat)
    requires Removed(a, b, d, name, n)
    ensures Within(b, a)
  {
  }

  /** After the name is gone its path resolves only if it ends in ".." (which never took the entry) and the parent path
      still resolves. */
  lemma RemovedPath(fs: FileSystem, fs': FileSystem, cwd: Option<nat>, path: string, d: nat, name: string, n: nat)
    requires Removed(fs.inodes, fs'.inodes, d, name, n) && ResolveParent(fs.inodes, cwd, path) == Some((d, name))
    requires FsOk(fs') && fs'.inodes[d].kind == Directory
    ensures LookupByPath(fs'.inodes, cwd, path).Some? <==>
              name == ".." && LookupByPath(fs'.inodes, cwd, ParentPath(path, Components(path))).Some?
  {
    PathIsParentThenStep(fs'.inodes, cwd, path);
    RemovedWithin(fs.inodes, fs'.inodes, d, name, n);
    PathWithin(fs'.inodes, fs.inodes, cwd, ParentPath(path, Components(path)));
    ChildIsNotParent(fs'.inodes, fs'.nextInodeID, d, name);
  }

  // ----- which paths keep their inode -----

  /** The walk never takes the entry `name` of directory `d`; ".." takes no entry. */
  ghost predicate Spares(inodes: seq<Inode>, cur: nat, parts: seq<string>, d: nat, name: string)
    requires cur < |inodes|
    decreases |parts|
  {
    parts != [] ==>
      && !(cur == d && parts[0] == name && name != "..")
      && (Step(inodes, cur, parts[0]).Some? ==> Spares(inodes, Step(inodes, cur, parts[0]).value, parts[1..], d, name))
  }

  /** Seen before the call: with other names left the path must not take the entry, otherwise it
      must not come by the inode. */
  ghost predicate KeepsPath(inodes: seq<Inode>, d: nat, name: string, n: nat, cwd: Option<nat>, path: string)
    requires n < |inodes|
  {
    var start := StartingDir(inodes, cwd, path);
    start.Some? ==>
      if inodes[n].nlink > 1 then Spares(inodes, start.value, Components(path), d, name)
      else !Visits(inodes, start.value, Components(path), n)
  }

  /** While the inode stays, walks lose the one entry. */
  lemma {:induction false} WalkSpared(a: seq<Inode>, b: seq<Inode>, d: nat, name: string, n: nat, cur: nat,
                                      parts: seq<string>)
    requires Removed(a, b, d, name, n) && b[n].used && cur < |a|
    ensures Walk(b, cur, parts) == if Spares(a, cur, parts, d, name) then Walk(a, cur, parts) else None
    decreases |parts|
  {
    if parts != [] {
      var next := Step(b, cur, parts[0]);
      if next.Some? {
        WalkSpared(a, b, d, name, n, next.value, parts[1..]);
      }
    }
  }

  /** Once the inode is gone, walks that came by it end there. */
  lemma {:induction false} WalkFreed(a: seq<Inode>, b: seq<Inode>, d: nat, name: string, n: nat, cur: nat,
                                     parts: seq<string>)
    requires Removed(a, b, d, name, n) && !b[n].used && (name == ".." || Step(a, d, name) == Some(n))
    requires cur < |a| && cur != n
    ensures Walk(b, cur, parts) == if Visits(a, cur, parts, n) then None else Walk(a, cur, parts)
    decreases |parts|
  {
    if parts != [] {
      var next := Step(b, cur, parts[0]);
      if next.Some? {
        WalkFreed(a, b, d, name, n, next.value, parts[1..]);
      }
    }
  }

  /** The starting directory stays, unless it is the inode that went away. */
  lemma RemovedStart(a: seq<Inode>, b: seq<Inode>, d: nat, name: string, n: nat, cwd: Option<nat>, path: string)
    requires Removed(a, b, d, name, n)
    ensures StartingDir(b, cwd, path) ==
              if StartingDir(a, cwd, path) == Some(n) && !b[n].used then None else StartingDir(a, cwd, path)
  {
  }

  /** What every path resolves to after an unlink: what it did before, or nothing. */
  lemma RemovedPaths(a: seq<Inode>, b: seq<Inode>, d: nat, name: string, n: nat, cwd: Option<nat>, path: string)
    requires Removed(a, b, d, name, n) && (name == ".." || Step(a, d, name) == Some(n))
    requires b[n].used <==> a[n].nlink > 1
    ensures LookupByPath(b, cwd, path) ==
              if KeepsPath(a, d, name, n, cwd, path) then LookupByPath(a, cwd, path) else None
  {
    RemovedStart(a, b, d, name, n, cwd, path);
    var start := StartingDir(a, cwd, path);
    if start.Some? {
      if b[n].used {
        WalkSpared(a, b, d, name, n, start.value, Components(path));
      } else if start.value != n {
        WalkFreed(a, b, d, name, n, start.value, Components(path));
      }
    }
  }

  // ----- a failed unlink -----

  /** The same inodes, and the same name-to-inode map in every directory; entries may have changed places. */
  ghost predicate SameNamespace(a: seq<Inode>, b: seq<Inode>) {
    && |a| == |b|
    && (forall i | 0 <= i < |a| :: b[i] == a[i].(dir := b[i].dir))
    && (forall x: nat :: LookupByID(b, x) == LookupByID(a, x))
    && (forall i, name | 0 <= i < |a| :: LookupInDir(b, i, name) == LookupInDir(a, i, name))
  }

  lemma FindMoved(dir: seq<DirEntry>, k: nat, l: nat, name: string)
    requires k < |dir| && l < |dir| && dir[k].used && (l == k || !dir[l].used)
    requires forall i, j | 0 <= i < j < |dir| && dir[i].used && dir[j].used :: dir[i].name != dir[j].name
    ensures var after := dir[k := NO_ENTRY][l := dir[k]];
            var was, now := FindEntry(dir, name, 0), FindEntry(after, name, 0);
            && (was.Some? <==> now.Some?)
            && (was.Some? ==> dir[was.value].inodeID == after[now.value].inodeID)
  {
    if name == dir[k].name {
      FindEntryIs(dir, k, 0);
      FindEntryIs(dir[k := NO_ENTRY][l := dir[k]], l, 0);
    } else {
      FindElsewhere(dir, k, NO_ENTRY, name, 0);
      FindElsewhere(dir[k := NO_ENTRY], l, dir[k], name, 0);
    }
  }

  lemma MoveIsInvisible(inodes: seq<Inode>, next: nat, d: nat, k: nat, l: nat)
    requires IdsOk(inodes, next) && DirsOk(inodes) && MoveArgs(inodes, d, k, l)
    ensures SameNamespace(inodes, Moved(inodes, d, k, l))
  {
    var after := Moved(inodes, d, k, l);
    assert SameIdentities(inodes, after);
    forall x: nat ensures LookupByID(after, x) == LookupByID(inodes, x) {
      SameIdsResolve(inodes, after, next, x);
    }
    NamesUnique(inodes, d);
    forall i, name | 0 <= i < |inodes| ensures LookupInDir(after, i, name) == LookupInDir(inodes, i, name) {
      FindMoved(inodes[d].dir, k, l, name);
    }
  }

  lemma SameNamespaceSamePaths(a: seq<Inode>, b: seq<Inode>, cwd: Option<nat>, path: string)
    requires SameNamespace(a, b)
    ensures LookupByPath(b, cwd, path) == LookupByPath(a, cwd, path)
  {
    PathWithin(a, b, cwd, path);
    PathWithin(b, a, cwd, path);
  }

  // ----- both -----

  /** Unlinking in a directory succeeds exactly when the name is there and is not that of a directory with entries; the
      inode then stays exactly when it has another name. If it fails, every directory's names and every inode apart from
      the order of entries are as before. */
  lemma UnlinkInOutcome(fs: FileSystem, d: nat, name: string)
    requires FsOk(fs) && d < |fs.inodes| && fs.inodes[d].kind == Directory
    ensures var (fs', ok) := UnlinkIn(fs, d, name); var n := LookupInDir(fs.inodes, d, name);
            && fs' == fs.(inodes := fs'.inodes)
            && (ok <==> n.Some? && (fs.inodes[n.value].kind == Directory ==> DirEmpty(fs.inodes[n.value])))
            && (if ok then Removed(fs.inodes, fs'.inodes, d, name, n.value)
                           && (fs'.inodes[n.value].used <==> fs.inodes[n.value].nlink > 1)
                else SameNamespace(fs.inodes, fs'.inodes))
  {
    var k := FindEntry(fs.inodes[d].dir, name, 0);
    if k.None? {
      UnlinkAbsent(fs, d, name);
    } else {
      var n := EntryTarget(fs.inodes, fs.nextInodeID, d, k.value);
      UnlinkShape(fs, d, name, k.value, n);
      var (fs', ok) := UnlinkIn(fs, d, name);
      OutcomeSeen(fs.inodes, fs.nextInodeID, d, name, k.value, n, fs'.inodes, ok);
    }
  }

  lemma OutcomeSeen(inodes: seq<Inode>, next: nat, d: nat, name: string, k: nat, n: nat, after: seq<Inode>, ok: bool)
    requires TableOk(inodes, next) && d < |inodes| && FindEntry(inodes[d].dir, name, 0) == Some(k)
    requires LookupByID(inodes, inodes[d].dir[k].inodeID) == Some(n) && n != d
    requires EntryUsed(inodes, d, k) && UnlinkOutcome(inodes, d, k, n, after, ok)
    ensures if ok then Removed(inodes, after, d, name, n) && (after[n].used <==> inodes[n].nlink > 1)
            else SameNamespace(inodes, after)
  {
    if ok {
      var n' := EntryTarget(inodes, next, d, k);
      DropRemoves(inodes, next, d, k, n);
    } else {
      AddBack(inodes, d, k, name);
      MoveIsInvisible(inodes, next, d, k, BackAt(inodes, d, k));
    }
  }

  /** A failed sysUnlink leaves what every path resolves to, every link count and every file as they were. */
  lemma FailedUnlinkIsInvisible(fs: FileSystem, cwd: Option<nat>, path: string, cwd2: Option<nat>, other: string)
    requires FsOk(fs) && !Unlink(fs, cwd, path).1
    ensures var fs' := Unlink(fs, cwd, path).0;
            && fs' == fs.(inodes := fs'.inodes) && SameNamespace(fs.inodes, fs'.inodes)
            && LookupByPath(fs'.inodes, cwd2, other) == LookupByPath(fs.inodes, cwd2, other)
  {
    FailedUnlinkNamespace(fs, cwd, path);
    SameNamespaceSamePaths(fs.inodes, Unlink(fs, cwd, path).0.inodes, cwd2, other);
  }

  lemma FailedUnlinkNamespace(fs: FileSystem, cwd: Option<nat>, path: string)
    requires FsOk(fs) && !Unlink(fs, cwd, path).1
    ensures var fs' := Unlink(fs, cwd, path).0;
            fs' == fs.(inodes := fs'.inodes) && SameNamespace(fs.inodes, fs'.inodes)
  {
    var at := ResolveParent(fs.inodes, cwd, path);
    if at.Some? {
      UnlinkInOutcome(fs, at.value.0, at.value.1);
    } else {
      NothingChanged(fs.inodes);
    }
  }

  lemma NothingChanged(a: seq<Inode>)
    ensures SameNamespace(a, a)
  {
  }

  /** What a successful sysUnlink does to every path, told from the state before it. The inode stays exactly when it has
      another name. Then just the paths that take the removed entry stop resolving; otherwise just those that come by
      the inode do. All others keep their inode, and none resolves that did not. The unlinked path itself stops
      resolving, unless it ends in "..", which takes no entry, and its parent path is one that keeps its inode. */
  lemma UnlinkEffect(fs: FileSystem, cwd: Option<nat>, path: string, cwd2: Option<nat>, other: string)
    requires FsOk(fs) && Unlink(fs, cwd, path).1
    ensures var after := Unlink(fs, cwd, path).0.inodes; var at := ResolveParent(fs.inodes, cwd, path);
            && at.Some? && LookupInDir(fs.inodes, at.value.0, at.value.1).Some?
            && var (d, name) := at.value; var n := LookupInDir(fs.inodes, d, name).value;
               && |after| == |fs.inodes| && (after[n].used <==> fs.inodes[n].nlink > 1)
               && LookupByPath(after, cwd2, other) ==
                    (if KeepsPath(fs.inodes, d, name, n, cwd2, other) then LookupByPath(fs.inodes, cwd2, other)
                     else None)
               && (LookupByPath(after, cwd, path).Some? <==>
                     name == ".." && KeepsPath(fs.inodes, d, name, n, cwd, ParentPath(path, Components(path))))
  {
    var (d, name) := ResolveParent(fs.inodes, cwd, path).value;
    UnlinkInOutcome(fs, d, name);
    var n := LookupInDir(fs.inodes, d, name).value;
    var fs' := UnlinkIn(fs, d, name).0;
    RemovedPaths(fs.inodes, fs'.inodes, d, name, n, cwd2, other);
    RemovedPaths(fs.inodes, fs'.inodes, d, name, n, cwd, ParentPath(path, Components(path)));
    UnlinkedPath(fs, fs', cwd, path, d, name, n);
  }

  lemma UnlinkedPath(fs: FileSystem, fs': FileSystem, cwd: Option<nat>, path: string, d: nat, name: string, n: nat)
    requires FsOk(fs) && ResolveParent(fs.inodes, cwd, path) == Some((d, name)) && fs' == UnlinkIn(fs, d, name).0
    requires Removed(fs.inodes, fs'.inodes, d, name, n)
    ensures LookupByPath(fs'.inodes, cwd, path).Some? <==>
              name == ".." && LookupByPath(fs'.inodes, cwd, ParentPath(path, Components(path))).Some?
  {
    UnlinkKeeps(fs, d, name);
    DirectoryStays(fs, d, name);
    RemovedPath(fs, fs', cwd, path, d, name, n);
  }

  lemma DirectoryStays(fs: FileSystem, d: nat, name: string)
    requires FsOk(fs) && d < |fs.inodes| && fs.inodes[d].kind == Directory
    ensures var after := UnlinkIn(fs, d, name).0.inodes; |after| == |fs.inodes| && after[d].kind == Directory
  {
    var k := FindEntry(fs.inodes[d].dir, name, 0);
    if k.Some? {
      var n := EntryTarget(fs.inodes, fs.nextInodeID, d, k.value);
      UnlinkShape(fs, d, name, k.value, n);
      AddBack(fs.inodes, d, k.value, name);
    }
  }
}
