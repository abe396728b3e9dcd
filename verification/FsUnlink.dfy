/** What unlink does to the filesystem's invariant: it drops a name, removes an inode, or puts the entry back. */
module FsUnlink {
  import opened Common
  import opened Paths
  import opened FsModel
  import opened FsInvariant

  // ----- dropping a name -----

  /** Entry `k` of directory `d` names `n`, which has no entries of its own. */
  ghost predicate DropArgs(inodes: seq<Inode>, d: nat, k: nat, n: nat) {
    && EntryUsed(inodes, d, k) && n < |inodes| && d != n
    && inodes[n].used && inodes[n].id == inodes[d].dir[k].inodeID && Bare(inodes[n])
  }

  /** The inode with one name less. */
  function Dropped(node: Inode): Inode {
    if node.nlink - 1 <= 0 then NoInode() else node.(nlink := node.nlink - 1)
  }

  lemma DroppedIsBare(node: Inode)
    requires Bare(node)
    ensures Bare(Dropped(node))
  {
  }

  lemma DropTree(inodes: seq<Inode>, d: nat, k: nat, n: nat)
    requires TreeOk(inodes) && DropArgs(inodes, d, k, n)
    ensures TreeOk(Rewire(inodes, d, k, NO_ENTRY, n, Dropped(inodes[n])))
  {
    var after := Rewire(inodes, d, k, NO_ENTRY, n, Dropped(inodes[n]));
    forall d2, l, c | EntryUsed(after, d2, l) && 0 <= c < |after| && after[c].used
      && after[c].id == after[d2].dir[l].inodeID
      ensures c != 0 && (after[c].kind == Directory ==> after[c].parent == after[d2].id)
    {
      assert EntryUsed(inodes, d2, l) && inodes[d2].dir[l] == after[d2].dir[l];
    }
  }

  lemma DropIds(inodes: seq<Inode>, next: nat, d: nat, k: nat, n: nat)
    requires IdsOk(inodes, next) && DropArgs(inodes, d, k, n)
    ensures IdsOk(Rewire(inodes, d, k, NO_ENTRY, n, Dropped(inodes[n])), next)
  {
  }

  lemma DropCounts(inodes: seq<Inode>, next: nat, d: nat, k: nat, n: nat)
    requires IdsOk(inodes, next) && CountsOk(inodes) && DropArgs(inodes, d, k, n) && n != 0
    ensures CountsOk(Rewire(inodes, d, k, NO_ENTRY, n, Dropped(inodes[n])))
  {
    DroppedIsBare(inodes[n]);
    RewireLinks(inodes, d, k, NO_ENTRY, n, Dropped(inodes[n]));
  }

  lemma DropResolves(inodes: seq<Inode>, next: nat, d: nat, k: nat, n: nat)
    requires IdsOk(inodes, next) && CountsOk(inodes) && NoneDangle(inodes) && DropArgs(inodes, d, k, n) && n != 0
    ensures NoneDangle(Rewire(inodes, d, k, NO_ENTRY, n, Dropped(inodes[n])))
  {
    var after := Rewire(inodes, d, k, NO_ENTRY, n, Dropped(inodes[n]));
    DroppedIsBare(inodes[n]);
    RewireLinks(inodes, d, k, NO_ENTRY, n, Dropped(inodes[n]));
    DropIds(inodes, next, d, k, n);
    forall x | x in Links(after) ensures x >= 0 && LookupByID(after, x).Some? {
      var c := LookupByID(inodes, x).value;
      assert c == n ==> inodes[n].nlink >= 2;
      LookupIs(after, next, c);
    }
  }

  lemma DropTable(inodes: seq<Inode>, next: nat, d: nat, k: nat, n: nat)
    requires TableOk(inodes, next) && DropArgs(inodes, d, k, n)
    ensures TableOk(Rewire(inodes, d, k, NO_ENTRY, n, Dropped(inodes[n])), next)
  {
    DroppedIsBare(inodes[n]);
    RewireShape(inodes, d, k, NO_ENTRY, n, Dropped(inodes[n]));
    RewireDirs(inodes, d, k, NO_ENTRY, n, Dropped(inodes[n]));
    DropIds(inodes, next, d, k, n);
    DropTree(inodes, d, k, n);
    DropCounts(inodes, next, d, k, n);
    DropResolves(inodes, next, d, k, n);
  }

  // ----- putting the entry back -----

  /** Entry `k` taken out and put in the first free place, `l`. */
  ghost function Moved(inodes: seq<Inode>, d: nat, k: nat, l: nat): seq<Inode>
    requires d < |inodes| && k < |inodes[d].dir| && l < |inodes[d].dir|
  {
    WithEntry(WithEntry(inodes, d, k, NO_ENTRY), d, l, inodes[d].dir[k])
  }

  ghost predicate MoveArgs(inodes: seq<Inode>, d: nat, k: nat, l: nat) {
    EntryUsed(inodes, d, k) && l < |inodes[d].dir| && (l == k || !inodes[d].dir[l].used)
  }

  lemma MoveLinks(inodes: seq<Inode>, d: nat, k: nat, l: nat)
    requires MoveArgs(inodes, d, k, l)
    ensures Links(Moved(inodes, d, k, l)) == Links(inodes)
  {
    LinksWithEntry(inodes, d, k, NO_ENTRY);
    LinksWithEntry(WithEntry(inodes, d, k, NO_ENTRY), d, l, inodes[d].dir[k]);
  }

  /** Where an entry was before the move. */
  function Before(d: int, k: int, l: int, d2: int, m: int): int {
    if d2 == d && m == l then k else m
  }

  lemma MoveEntries(inodes: seq<Inode>, d: nat, k: nat, l: nat, d2: int, m: int)
    requires MoveArgs(inodes, d, k, l) && EntryUsed(Moved(inodes, d, k, l), d2, m)
    ensures EntryUsed(inodes, d2, Before(d, k, l, d2, m))
    ensures inodes[d2].dir[Before(d, k, l, d2, m)] == Moved(inodes, d, k, l)[d2].dir[m]
  {
  }

  lemma MoveDirs(inodes: seq<Inode>, d: nat, k: nat, l: nat)
    requires DirsOk(inodes) && MoveArgs(inodes, d, k, l)
    ensures DirsOk(Moved(inodes, d, k, l))
  {
    var after := Moved(inodes, d, k, l);
    forall d2, m | EntryUsed(after, d2, m)
      ensures after[d2].kind == Directory && IsName(after[d2].dir[m].name)
    {
      MoveEntries(inodes, d, k, l, d2, m);
    }
    forall d2, m, o | EntryUsed(after, d2, m) && EntryUsed(after, d2, o) && m < o
      ensures after[d2].dir[m].name != after[d2].dir[o].name
    {
      MoveEntries(inodes, d, k, l, d2, m);
      MoveEntries(inodes, d, k, l, d2, o);
    }
  }

  lemma MoveTree(inodes: seq<Inode>, d: nat, k: nat, l: nat)
    requires TreeOk(inodes) && MoveArgs(inodes, d, k, l)
    ensures TreeOk(Moved(inodes, d, k, l))
  {
    var after := Moved(inodes, d, k, l);
    forall d2, m, c | EntryUsed(after, d2, m) && 0 <= c < |after| && after[c].used
      && after[c].id == after[d2].dir[m].inodeID
      ensures c != 0 && (after[c].kind == Directory ==> after[c].parent == after[d2].id)
    {
      MoveEntries(inodes, d, k, l, d2, m);
    }
  }

  lemma MoveIds(inodes: seq<Inode>, next: nat, d: nat, k: nat, l: nat)
    requires IdsOk(inodes, next) && NoneDangle(inodes) && MoveArgs(inodes, d, k, l)
    ensures IdsOk(Moved(inodes, d, k, l), next) && NoneDangle(Moved(inodes, d, k, l))
  {
    var after := Moved(inodes, d, k, l);
    MoveLinks(inodes, d, k, l);
    assert SameIdentities(inodes, after);
    SameIdsResolve(inodes, after, next, 1);
    forall x | x in Links(after) ensures x >= 0 && LookupByID(after, x).Some? {
      SameIdsResolve(inodes, after, next, x);
    }
  }

  lemma MoveCounts(inodes: seq<Inode>, d: nat, k: nat, l: nat)
    requires CountsOk(inodes) && MoveArgs(inodes, d, k, l)
    ensures CountsOk(Moved(inodes, d, k, l))
  {
    MoveLinks(inodes, d, k, l);
  }

  lemma MoveShape(inodes: seq<Inode>, d: nat, k: nat, l: nat)
    requires ShapeOk(inodes) && RootOk(inodes) && MoveArgs(inodes, d, k, l) && inodes[d].used
    ensures ShapeOk(Moved(inodes, d, k, l)) && RootOk(Moved(inodes, d, k, l))
  {
  }

  lemma MoveTable(inodes: seq<Inode>, next: nat, d: nat, k: nat, l: nat)
    requires TableOk(inodes, next) && MoveArgs(inodes, d, k, l)
    ensures TableOk(Moved(inodes, d, k, l), next)
  {
    MoveShape(inodes, d, k, l);
    MoveIds(inodes, next, d, k, l);
    MoveCounts(inodes, d, k, l);
    MoveDirs(inodes, d, k, l);
    MoveTree(inodes, d, k, l);
  }

  // ----- what unlink comes to -----

  /** The inode an entry names is there, is not the entry's directory, and only a directory can have entries. */
  lemma EntryTarget(inodes: seq<Inode>, next: nat, d: nat, k: nat) returns (n: nat)
    requires ShapeOk(inodes) && IdsOk(inodes, next) && DirsOk(inodes) && TreeOk(inodes) && NoneDangle(inodes)
    requires EntryUsed(inodes, d, k)
    ensures n < |inodes| && inodes[n].used && inodes[n].id == inodes[d].dir[k].inodeID && n != d && n != 0
    ensures LookupByID(inodes, inodes[d].dir[k].inodeID) == Some(n)
    ensures inodes[n].kind == Directory || Bare(inodes[n])
  {
    EntryIsLink(inodes, d, k);
    n := LookupByID(inodes, inodes[d].dir[k].inodeID).value;
    if inodes[n].kind != Directory {
      FileIsBare(inodes, n);
    }
  }

  lemma NameGone(dir: seq<DirEntry>, k: nat, name: string)
    requires FindEntry(dir, name, 0) == Some(k)
    requires forall i, j | 0 <= i < j < |dir| && dir[i].used && dir[j].used :: dir[i].name != dir[j].name
    ensures FindEntry(dir[k := NO_ENTRY], name, 0) == None
    ensures FreeEntry(dir[k := NO_ENTRY], 0).Some?
  {
    assert !dir[k := NO_ENTRY][k].used;
  }

  lemma NamesUnique(inodes: seq<Inode>, d: nat)
    requires DirsOk(inodes) && d < |inodes|
    ensures forall i, j | 0 <= i < j < |inodes[d].dir| && inodes[d].dir[i].used && inodes[d].dir[j].used ::
              inodes[d].dir[i].name != inodes[d].dir[j].name
  {
    forall i, j | 0 <= i < j < |inodes[d].dir| && inodes[d].dir[i].used && inodes[d].dir[j].used
      ensures inodes[d].dir[i].name != inodes[d].dir[j].name
    {
      assert EntryUsed(inodes, d, i) && EntryUsed(inodes, d, j);
    }
  }

  /** The place a removed entry is put back to. */
  ghost function BackAt(inodes: seq<Inode>, d: nat, k: nat): nat
    requires d < |inodes| && k < |inodes[d].dir|
  {
    var l := FreeEntry(inodes[d].dir[k := NO_ENTRY], 0);
    if l.Some? then l.value else 0
  }

  /** Adding back what was just removed cannot fail. */
  lemma AddBack(inodes: seq<Inode>, d: nat, k: nat, name: string)
    requires DirsOk(inodes) && d < |inodes| && FindEntry(inodes[d].dir, name, 0) == Some(k)
    ensures MoveArgs(inodes, d, k, BackAt(inodes, d, k))
    ensures AddDirEntry(WithEntry(inodes, d, k, NO_ENTRY), d, name, inodes[d].dir[k].inodeID)
              == Some(Moved(inodes, d, k, BackAt(inodes, d, k)))
  {
    assert EntryUsed(inodes, d, k);
    NamesUnique(inodes, d);
    NameGone(inodes[d].dir, k, name);
  }

  lemma RemovedResolves(inodes: seq<Inode>, next: nat, d: nat, k: nat, x: nat)
    requires IdsOk(inodes, next) && d < |inodes| && k < |inodes[d].dir|
    ensures LookupByID(WithEntry(inodes, d, k, NO_ENTRY), x) == LookupByID(inodes, x)
  {
    assert SameIdentities(inodes, WithEntry(inodes, d, k, NO_ENTRY));
    SameIdsResolve(inodes, WithEntry(inodes, d, k, NO_ENTRY), next, x);
  }

  /** The two outcomes for a name that is there: a directory with entries is put back, anything else loses the name. */
  ghost predicate UnlinkOutcome(inodes: seq<Inode>, d: nat, k: nat, n: nat, after: seq<Inode>, ok: bool)
    requires EntryUsed(inodes, d, k) && n < |inodes|
  {
    && ok == !(inodes[n].kind == Directory && !DirEmpty(inodes[n]))
    && after == if ok then Rewire(inodes, d, k, NO_ENTRY, n, Dropped(inodes[n]))
                else Moved(inodes, d, k, BackAt(inodes, d, k))
  }

  lemma UnlinkShape(fs: FileSystem, d: nat, name: string, k: nat, n: nat)
    requires IdsOk(fs.inodes, fs.nextInodeID) && DirsOk(fs.inodes)
    requires d < |fs.inodes| && fs.inodes[d].kind == Directory && FindEntry(fs.inodes[d].dir, name, 0) == Some(k)
    requires LookupByID(fs.inodes, fs.inodes[d].dir[k].inodeID) == Some(n) && n != d
    ensures var (fs', ok) := UnlinkIn(fs, d, name);
            && fs' == fs.(inodes := fs'.inodes)
            && UnlinkOutcome(fs.inodes, d, k, n, fs'.inodes, ok)
  {
    RemovedResolves(fs.inodes, fs.nextInodeID, d, k, fs.inodes[d].dir[k].inodeID);
    AddBack(fs.inodes, d, k, name);
  }

  lemma UnlinkAbsent(fs: FileSystem, d: nat, name: string)
    requires d < |fs.inodes| && fs.inodes[d].kind == Directory && FindEntry(fs.inodes[d].dir, name, 0).None?
    ensures UnlinkIn(fs, d, name) == (fs, false)
  {
  }

  lemma OutcomeKeeps(inodes: seq<Inode>, next: nat, d: nat, name: string, k: nat, n: nat, after: seq<Inode>, ok: bool)
    requires TableOk(inodes, next) && d < |inodes| && FindEntry(inodes[d].dir, name, 0) == Some(k)
    requires LookupByID(inodes, inodes[d].dir[k].inodeID) == Some(n) && n != d
    requires EntryUsed(inodes, d, k) && UnlinkOutcome(inodes, d, k, n, after, ok)
    ensures TableOk(after, next)
  {
    if ok {
      var n' := EntryTarget(inodes, next, d, k);
      DropTable(inodes, next, d, k, n);
    } else {
      AddBack(inodes, d, k, name);
      MoveTable(inodes, next, d, k, BackAt(inodes, d, k));
    }
  }

  /** sysUnlink in a directory keeps the invariant, whether it removes, finds nothing, or puts the entry back. */
  lemma UnlinkKeeps(fs: FileSystem, d: nat, name: string)
    requires FsOk(fs) && d < |fs.inodes| && fs.inodes[d].kind == Directory
    ensures FsOk(UnlinkIn(fs, d, name).0) && UnlinkIn(fs, d, name).0.nextInodeID == fs.nextInodeID
  {
    var k := FindEntry(fs.inodes[d].dir, name, 0);
    if k.None? {
      UnlinkAbsent(fs, d, name);
    } else {
      var n := EntryTarget(fs.inodes, fs.nextInodeID, d, k.value);
      UnlinkShape(fs, d, name, k.value, n);
      var (fs', ok) := UnlinkIn(fs, d, name);
      OutcomeKeeps(fs.inodes, fs.nextInodeID, d, name, k.value, n, fs'.inodes, ok);
    }
  }
}
