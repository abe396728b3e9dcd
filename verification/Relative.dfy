/** Where paths start: the root, a working directory, and changing it. */
module Relative {
  import opened Common
  import opened Paths
  import opened FsModel
  import opened FsInvariant
  import opened Walks

  /** What a path resolves to depends on its components and on whether it starts with a slash, and on nothing else. */
  lemma OnlyComponentsMatter(inodes: seq<Inode>, cwd: Option<nat>, path: string, other: string)
    requires path != "" && other != "" && Absolute(other) == Absolute(path) && Components(other) == Components(path)
    ensures LookupByPath(inodes, cwd, other) == LookupByPath(inodes, cwd, path)
  {
  }

  /** A relative path of names goes down from the working directory, if that still exists, and not from the root. With
      no working directory set, or no process, it goes down from the root. */
  lemma RelativePath(fs: FileSystem, c: nat, names: seq<string>)
    requires FsOk(fs) && AllNames(names) && names != [] && ".." !in names
    ensures var path, d := Join(names), LookupByID(fs.inodes, c);
            && LookupByPath(fs.inodes, None, path) == Descend(fs.inodes, 0, names)
            && LookupByPath(fs.inodes, Some(c), path) ==
                 if c == 0 then Descend(fs.inodes, 0, names)
                 else if d.None? then None else Descend(fs.inodes, d.value, names)
  {
    JoinThenSplit(names);
    RelativeStart(fs, c, Join(names));
    DescendIsWalk(fs.inodes, 0, names);
    var d := LookupByID(fs.inodes, c);
    if d.Some? {
      DescendIsWalk(fs.inodes, d.value, names);
    }
  }

  lemma RelativeStart(fs: FileSystem, c: nat, path: string)
    requires FsOk(fs) && path != "" && !Absolute(path)
    ensures var parts, d := Components(path), LookupByID(fs.inodes, c);
            && LookupByPath(fs.inodes, None, path) == Walk(fs.inodes, 0, parts)
            && LookupByPath(fs.inodes, Some(c), path) ==
                 if c == 0 then Walk(fs.inodes, 0, parts)
                 else if d.None? then None else Walk(fs.inodes, d.value, parts)
  {
    LookupIs(fs.inodes, fs.nextInodeID, 0);
  }

  /** The empty path names nothing. One of slashes and dots alone names where it starts. */
  lemma PathOfDots(fs: FileSystem, c: nat, path: string)
    requires FsOk(fs) && Components(path) == []
    ensures LookupByPath(fs.inodes, Some(c), path) ==
              if path == "" then None
              else if path[0] == '/' || c == 0 then Some(0)
              else LookupByID(fs.inodes, c)
  {
    LookupIs(fs.inodes, fs.nextInodeID, 0);
  }

  /** Looking up `dir/rel` is looking `dir` up, making it the working directory, and looking `rel` up from there. */
  lemma PathThroughDirectory(fs: FileSystem, cwd: Option<nat>, dir: string, n: nat, rel: string)
    requires FsOk(fs) && LookupByPath(fs.inodes, cwd, dir) == Some(n) && rel != "" && !Absolute(rel)
    ensures LookupByPath(fs.inodes, cwd, dir + "/" + rel) == LookupByPath(fs.inodes, Some(fs.inodes[n].id), rel)
  {
    LongerPath(fs.inodes, cwd, dir, n, rel);
    LiveID(fs, n);
    RelativeStart(fs, fs.inodes[n].id, rel);
  }

  lemma LiveID(fs: FileSystem, n: nat)
    requires FsOk(fs) && n < |fs.inodes| && fs.inodes[n].used
    ensures LookupByID(fs.inodes, fs.inodes[n].id) == Some(n) && fs.inodes[n].id != 0
  {
    LookupIs(fs.inodes, fs.nextInodeID, n);
  }

  lemma LongerPath(inodes: seq<Inode>, cwd: Option<nat>, dir: string, n: nat, rel: string)
    requires LookupByPath(inodes, cwd, dir) == Some(n)
    ensures LookupByPath(inodes, cwd, dir + "/" + rel) == Walk(inodes, n, Components(rel))
  {
    ComponentsConcat(dir, rel);
    WalkConcat(inodes, StartingDir(inodes, cwd, dir).value, Components(dir), Components(rel));
  }

  /** The parent of a path and its last component: `front` is any path that starts at the same place and has
      all components but the last. */
  lemma ParentIsFront(inodes: seq<Inode>, cwd: Option<nat>, path: string, front: string, name: string)
    requires front != "" && Absolute(front) == Absolute(path) && Components(path) == Components(front) + [name]
    ensures var d := LookupByPath(inodes, cwd, front);
            ResolveParent(inodes, cwd, path) ==
              if d.Some? && inodes[d.value].kind == Directory then Some((d.value, name)) else None
  {
    ParentPathDropsLast(path);
    if path == "/" {
      SlashHasNoComponents();
    }
    OnlyComponentsMatter(inodes, cwd, front, ParentPath(path, Components(path)));
  }

  /** Without a component there is no parent. */
  lemma NoParent(inodes: seq<Inode>, cwd: Option<nat>, path: string)
    requires Components(path) == []
    ensures ResolveParent(inodes, cwd, path).None?
  {
  }
}
