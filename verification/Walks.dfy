/** Path walking under the filesystem's invariant: resolving through the parent, cancelling
    `d/..`, reaching every inode. */
module Walks {
  import opened Common
  import opened Paths
  import opened FsModel
  import opened FsInvariant

  // ----- walks compose -----

  lemma {:induction false} WalkConcat(inodes: seq<Inode>, cur: nat, front: seq<string>, back: seq<string>)
    requires cur < |inodes|
    ensures Walk(inodes, cur, front + back) ==
              var mid := Walk(inodes, cur, front); if mid.None? then None else Walk(inodes, mid.value, back)
    decreases |front|
  {
    if front == [] {
      assert front + back == back;
    } else {
      assert (front + back)[1..] == front[1..] + back;
      var next := Step(inodes, cur, front[0]);
      if next.Some? {
        WalkConcat(inodes, next.value, front[1..], back);
      }
    }
  }

  lemma WalkOne(inodes: seq<Inode>, cur: nat, part: string)
    requires cur < |inodes|
    ensures Walk(inodes, cur, [part]) == Step(inodes, cur, part)
  {
    var next := Step(inodes, cur, part);
    if next.Some? {
      assert Walk(inodes, next.value, [part][1..]) == next;
    }
  }

  /** Looking a path up is looking its parent path up and taking one more step. */
  lemma PathIsParentThenStep(inodes: seq<Inode>, cwd: Option<nat>, path: string)
    requires Components(path) != []
    ensures var parts := Components(path); var parent := LookupByPath(inodes, cwd, ParentPath(path, parts));
            LookupByPath(inodes, cwd, path) ==
              if parent.None? then None else Step(inodes, parent.value, parts[|parts| - 1])
  {
    var parts := Components(path);
    var front, last := parts[..|parts| - 1], parts[|parts| - 1];
    ParentPathDropsLast(path);
    var start := StartingDir(inodes, cwd, path);
    if start.Some? {
      WalkToLast(inodes, start.value, parts, front, last);
    }
  }

  lemma WalkToLast(inodes: seq<Inode>, start: nat, parts: seq<string>, front: seq<string>, last: string)
    requires start < |inodes| && parts == front + [last]
    ensures Walk(inodes, start, parts) ==
              var mid := Walk(inodes, start, front); if mid.None? then None else Step(inodes, mid.value, last)
  {
    WalkConcat(inodes, start, front, [last]);
    var mid := Walk(inodes, start, front);
    if mid.Some? {
      WalkOne(inodes, mid.value, last);
    }
  }

  /** A path whose last component is not ".." resolves to `n` exactly when its parent resolves to a directory that
      holds `n` under that component. */
  lemma LookupAgreesWithParent(inodes: seq<Inode>, cwd: Option<nat>, path: string, n: nat)
    requires var parts := Components(path); parts != [] && parts[|parts| - 1] != ".."
    ensures LookupByPath(inodes, cwd, path) == Some(n) <==>
              var parent := ResolveParent(inodes, cwd, path);
              parent.Some? && LookupInDir(inodes, parent.value.0, parent.value.1) == Some(n)
  {
    PathIsParentThenStep(inodes, cwd, path);
    if path == "/" {
      SlashHasNoComponents();
    }
  }

  // ----- parents -----

  /** A directory's parent is a live directory, no younger than it. */
  lemma ParentIsDirectory(inodes: seq<Inode>, next: nat, d: nat) returns (up: nat)
    requires TableOk(inodes, next) && d < |inodes| && inodes[d].kind == Directory
    ensures up < |inodes| && inodes[up].used && inodes[up].kind == Directory && inodes[up].id <= inodes[d].id
    ensures LookupByID(inodes, inodes[d].parent) == Some(up)
    ensures d != 0 ==>
              && inodes[up].id < inodes[d].id
              && exists k :: EntryUsed(inodes, up, k) && inodes[up].dir[k].inodeID == inodes[d].id
  {
    if d == 0 {
      up := 0;
    } else {
      var k: nat;
      up, k := LinkHasEntry(inodes, inodes[d].id);
    }
    LookupIs(inodes, next, up);
  }

  /** What a directory holds is not what holds it. */
  lemma ChildIsNotParent(inodes: seq<Inode>, next: nat, d: nat, name: string)
    requires TableOk(inodes, next) && d < |inodes| && inodes[d].kind == Directory
    ensures Step(inodes, d, "..").Some? && LookupInDir(inodes, d, name) != Step(inodes, d, "..")
  {
    var up := ParentIsDirectory(inodes, next, d);
    var k := FindEntry(inodes[d].dir, name, 0);
    if k.Some? {
      assert EntryUsed(inodes, d, k.value);
    }
  }

  /** fsLookupByPath and fsResolveParent followed by fsLookupInDir agree exactly on the paths that do not end in "..":
      an entry may be called "..", but walking never takes it. */
  lemma LookupAgreesUnlessDotDot(fs: FileSystem, cwd: Option<nat>, path: string)
    requires FsOk(fs) && ResolveParent(fs.inodes, cwd, path).Some?
    ensures var (d, name) := ResolveParent(fs.inodes, cwd, path).value;
            LookupByPath(fs.inodes, cwd, path) == LookupInDir(fs.inodes, d, name) <==> name != ".."
  {
    PathIsParentThenStep(fs.inodes, cwd, path);
    var (d, name) := ResolveParent(fs.inodes, cwd, path).value;
    ChildIsNotParent(fs.inodes, fs.nextInodeID, d, name);
  }

  // ----- d/.. cancels -----

  /** Going down to `c` and up again comes back exactly when `c` was created here; every directory was. */
  lemma DownAndUp(fs: FileSystem, p: nat, name: string, c: nat)
    requires FsOk(fs) && p < |fs.inodes| && name != ".." && LookupInDir(fs.inodes, p, name) == Some(c)
    ensures Walk(fs.inodes, p, [name, ".."]) == Some(p) <==> fs.inodes[c].parent == fs.inodes[p].id
    ensures fs.inodes[c].kind == Directory ==> fs.inodes[c].parent == fs.inodes[p].id
  {
    LookupIs(fs.inodes, fs.nextInodeID, p);
    var k := FindEntry(fs.inodes[p].dir, name, 0).value;
    assert EntryUsed(fs.inodes, p, k);
    WalkOne(fs.inodes, c, "..");
    assert [name, ".."][1..] == [".."];
  }

  lemma DetourWalk(inodes: seq<Inode>, start: nat, front: seq<string>, detour: seq<string>, back: seq<string>, p: nat)
    requires start < |inodes| && Walk(inodes, start, front) == Some(p) && Walk(inodes, p, detour) == Some(p)
    ensures Walk(inodes, start, front + detour + back) == Walk(inodes, start, front + back)
  {
    WalkConcat(inodes, start, front, back);
    WalkConcat(inodes, start, front, detour);
    WalkConcat(inodes, start, front + detour, back);
  }

  /** Inserting `d/..` into a path, where `d` is a directory at that place, does not
      change what the path resolves to. */
  lemma InsertedDetourCancels(fs: FileSystem, cwd: Option<nat>, path: string, longer: string,
                              front: seq<string>, name: string, back: seq<string>, p: nat, c: nat)
    requires FsOk(fs) && path != "" && longer != "" && Absolute(path) == Absolute(longer)
    requires Components(path) == front + back && Components(longer) == front + [name, ".."] + back && name != ".."
    requires StartingDir(fs.inodes, cwd, path).Some?
    requires Walk(fs.inodes, StartingDir(fs.inodes, cwd, path).value, front) == Some(p)
    requires LookupInDir(fs.inodes, p, name) == Some(c) && fs.inodes[c].kind == Directory
    ensures LookupByPath(fs.inodes, cwd, longer) == LookupByPath(fs.inodes, cwd, path)
  {
    DownAndUp(fs, p, name, c);
    DetourWalk(fs.inodes, StartingDir(fs.inodes, cwd, path).value, front, [name, ".."], back, p);
  }

  // ----- every inode is reachable -----

  /** Down from a directory by a chain of entries. */
  function Descend(inodes: seq<Inode>, cur: nat, names: seq<string>): (r: Option<nat>)
    requires cur < |inodes|
    ensures r.Some? ==> r.value < |inodes|
    decreases |names|
  {
    if names == [] then Some(cur)
    else
      match LookupInDir(inodes, cur, names[0])
      case None => None
      case Some(next) => Descend(inodes, next, names[1..])
  }

  lemma {:induction false} DescendOneMore(inodes: seq<Inode>, cur: nat, names: seq<string>, name: string)
    requires cur < |inodes|
    ensures var mid := Descend(inodes, cur, names);
            mid.Some? ==> Descend(inodes, cur, names + [name]) == LookupInDir(inodes, mid.value, name)
    decreases |names|
  {
    if names == [] {
      var next := LookupInDir(inodes, cur, name);
      assert ([] + [name])[1..] == [];
      if next.Some? {
        assert Descend(inodes, next.value, []) == next;
      }
    } else {
      assert (names + [name])[1..] == names[1..] + [name];
      var next := LookupInDir(inodes, cur, names[0]);
      if next.Some? {
        DescendOneMore(inodes, next.value, names[1..], name);
      }
    }
  }

  lemma EntryLookup(inodes: seq<Inode>, next: nat, d: nat, k: nat, c: nat)
    requires ShapeOk(inodes) && IdsOk(inodes, next) && DirsOk(inodes) && EntryUsed(inodes, d, k)
    requires c < |inodes| && inodes[c].used && inodes[c].id == inodes[d].dir[k].inodeID
    ensures LookupInDir(inodes, d, inodes[d].dir[k].name) == Some(c)
  {
    forall l | 0 <= l < k && inodes[d].dir[l].used ensures inodes[d].dir[l].name != inodes[d].dir[k].name {
      assert EntryUsed(inodes, d, l);
    }
    FindEntryIs(inodes[d].dir, k, 0);
    LookupIs(inodes, next, c);
  }

  /** A directory holds an inode under a name exactly when one of its entries has the name and the inode's id. */
  lemma LookupIffEntry(fs: FileSystem, d: nat, name: string, c: nat)
    requires FsOk(fs) && d < |fs.inodes| && c < |fs.inodes|
    ensures LookupInDir(fs.inodes, d, name) == Some(c) <==>
              exists k | EntryUsed(fs.inodes, d, k) ::
                && fs.inodes[d].dir[k].name == name && fs.inodes[d].dir[k].inodeID == fs.inodes[c].id
                && fs.inodes[c].used
  {
    if LookupInDir(fs.inodes, d, name) == Some(c) {
      assert EntryUsed(fs.inodes, d, FindEntry(fs.inodes[d].dir, name, 0).value);
    }
    if k :| EntryUsed(fs.inodes, d, k) && fs.inodes[d].dir[k].name == name
            && fs.inodes[d].dir[k].inodeID == fs.inodes[c].id && fs.inodes[c].used {
      EntryLookup(fs.inodes, fs.nextInodeID, d, k, c);
    }
  }

  ghost predicate AllNames(names: seq<string>) {
    forall i | 0 <= i < |names| :: IsName(names[i])
  }

  /** Every directory is reached from the root by a chain of entries. */
  lemma {:induction false} DirectoryReachable(inodes: seq<Inode>, next: nat, c: nat) returns (names: seq<string>)
    requires TableOk(inodes, next) && c < |inodes| && inodes[c].used && inodes[c].kind == Directory
    ensures AllNames(names) && Descend(inodes, 0, names) == Some(c)
    decreases inodes[c].id
  {
    if c == 0 {
      names := [];
    } else {
      var up := ParentIsDirectory(inodes, next, c);
      var k :| EntryUsed(inodes, up, k) && inodes[up].dir[k].inodeID == inodes[c].id;
      names := DirectoryReachable(inodes, next, up);
      DescendOneMore(inodes, 0, names, inodes[up].dir[k].name);
      EntryLookup(inodes, next, up, k, c);
      names := names + [inodes[up].dir[k].name];
    }
  }

  /** Every inode in use is reached from the root by a chain of entries. */
  lemma EveryInodeReachable(fs: FileSystem, c: nat) returns (names: seq<string>)
    requires FsOk(fs) && c < |fs.inodes| && fs.inodes[c].used
    ensures AllNames(names) && Descend(fs.inodes, 0, names) == Some(c)
  {
    if c == 0 {
      names := [];
    } else {
      var d, k := LinkHasEntry(fs.inodes, fs.inodes[c].id);
      names := DirectoryReachable(fs.inodes, fs.nextInodeID, d);
      DescendOneMore(fs.inodes, 0, names, fs.inodes[d].dir[k].name);
      EntryLookup(fs.inodes, fs.nextInodeID, d, k, c);
      names := names + [fs.inodes[d].dir[k].name];
    }
  }

  lemma {:induction false} DescendIsWalk(inodes: seq<Inode>, cur: nat, names: seq<string>)
    requires cur < |inodes| && ".." !in names
    ensures Walk(inodes, cur, names) == Descend(inodes, cur, names)
    decreases |names|
  {
    if names != [] {
      assert names[0] in names;
      var next := LookupInDir(inodes, cur, names[0]);
      if next.Some? {
        DescendIsWalk(inodes, next.value, names[1..]);
      }
    }
  }

  /** A chain of entries, none called "..", is an absolute path to where it leads. */
  lemma DescendHasPath(fs: FileSystem, cwd: Option<nat>, names: seq<string>)
    requires FsOk(fs) && AllNames(names) && ".." !in names
    ensures LookupByPath(fs.inodes, cwd, "/" + Join(names)) == Descend(fs.inodes, 0, names)
  {
    JoinThenSplit(names);
    LeadingSlash(Join(names));
    LookupIs(fs.inodes, fs.nextInodeID, 0);
    DescendIsWalk(fs.inodes, 0, names);
  }
}
