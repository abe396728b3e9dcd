/** What read and write answer and do, through the descriptors open hands out. */
module FileTransfers {
  import opened Common
  import opened FsModel
  import opened FsInvariant
  import opened Namespace
  import opened Files
  import opened FsBoot
  import opened BootTree
  import opened FileBytes
  import opened FileRuns
  import opened FileCalls

  // ----- read and write -----

  /** The file or device a descriptor reads or writes: it is open, the transfer is not too
      large, and the inode still there. */
  ghost predicate Reaches(fs: FileSystem, ctx: FileContext, fd: int, count: nat, i: nat) {
    && 0 <= fd < |ctx.fds| && ctx.fds[fd].used && count <= 4096
    && LookupByID(fs.inodes, ctx.fds[fd].inodeID) == Some(i) && fs.inodes[i].kind in {File, Device}
  }

  /** Only this descriptor's offset moves, by `n`. */
  ghost predicate OffsetMoves(ctx: FileContext, ctx': FileContext, fd: int, n: nat) {
    && ctx'.cwd == ctx.cwd && |ctx'.fds| == |ctx.fds| && 0 <= fd < |ctx.fds|
    && ctx'.fds[fd] == ctx.fds[fd].(offset := ctx.fds[fd].offset + n)
    && forall j | 0 <= j < |ctx.fds| && j != fd :: ctx'.fds[j] == ctx.fds[j]
  }

  /** What there is to read behind a descriptor: a file's bytes; the clock of the timer;
      nothing of the other devices. */
  ghost function Readable(node: Inode, clock: seq<byte>): seq<byte>
    requires node.size <= |node.data|
  {
    if node.kind == File then node.data[..node.size] else if node.device == Timer then clock else []
  }

  /** sysRead answers the error exactly when the descriptor reaches nothing, cannot be read through, or has bytes to
      give that cannot be delivered; it then moves nothing. Otherwise it answers how many bytes it delivers, the next
      ones from the offset on, and moves the offset past them. */
  lemma ReadEffect(fs: FileSystem, ctx: FileContext, fd: int, count: nat, clock: seq<byte>, delivered: bool, i: nat)
    requires DataOk(fs) && Reaches(fs, ctx, fd, count, i) && ctx.fds[fd].readable
    ensures var all, at := Readable(fs.inodes[i], clock), ctx.fds[fd].offset;
            var bytes := if at <= |all| then Portion(all, at, count) else [];
            var (ctx', r) := SysRead(fs, ctx, fd, count, clock, delivered);
            && Fetch(fs, ctx, fd, count, clock) == Some(bytes)
            && if bytes != [] && !delivered then r.None? && ctx' == ctx
               else r == Some(|bytes|) && OffsetMoves(ctx, ctx', fd, |bytes|)
  {
    FetchIs(fs, ctx, fd, count, clock, i);
  }

  lemma FetchIs(fs: FileSystem, ctx: FileContext, fd: int, count: nat, clock: seq<byte>, i: nat)
    requires DataOk(fs) && Reaches(fs, ctx, fd, count, i) && ctx.fds[fd].readable
    ensures var all, at := Readable(fs.inodes[i], clock), ctx.fds[fd].offset;
            Fetch(fs, ctx, fd, count, clock) == Some(if at <= |all| then Portion(all, at, count) else [])
  {
    var node, at := fs.inodes[i], ctx.fds[fd].offset;
    if node.kind == File {
      if at <= node.size {
        ReadSlices(node, at, count);
      }
    } else if node.device == Timer && at < |clock| {
      assert clock[at..at + Min(count, |clock| - at)] == Portion(clock, at, count);
    }
  }

  lemma ReadRefused(fs: FileSystem, ctx: FileContext, fd: int, count: nat, clock: seq<byte>, delivered: bool)
    requires DataOk(fs) && forall i: nat | i < |fs.inodes| && Reaches(fs, ctx, fd, count, i) :: !ctx.fds[fd].readable
    ensures Fetch(fs, ctx, fd, count, clock).None? && SysRead(fs, ctx, fd, count, clock, delivered) == (ctx, None)
  {
    var i := if IsOpen(ctx, fd) then LookupByID(fs.inodes, ctx.fds[fd].inodeID) else None;
    assert i.Some? ==> (Reaches(fs, ctx, fd, count, i.value) ==> !ctx.fds[fd].readable);
  }

  /** sysWrite through a descriptor that reaches something and can be written through. To a file the bytes go from the
      offset on as far as they fit; the console and the uart each get all of them behind what they were sent before; the
      timer takes none. It answers how many went, moves the offset past them, and changes nothing else. */
  lemma WriteEffect(fs: FileSystem, ctx: FileContext, sinks: Sinks, fd: int, i: nat, bytes: seq<byte>)
    requires DataOk(fs) && Reaches(fs, ctx, fd, |bytes|, i) && ctx.fds[fd].writable
    ensures var (fs', ctx', sinks', r) := SysWrite(fs, ctx, sinks, fd, |bytes|, Some(bytes));
            var node, at := fs.inodes[i], ctx.fds[fd].offset;
            && r.Some? && OffsetMoves(ctx, ctx', fd, r.value)
            && fs' == fs.(inodes := fs'.inodes) && |fs'.inodes| == |fs.inodes|
            && (forall j | 0 <= j < |fs.inodes| && j != i :: fs'.inodes[j] == fs.inodes[j])
            && fs'.inodes[i] == node.(data := fs'.inodes[i].data, size := fs'.inodes[i].size)
            && if node.kind == File then
                 && sinks' == sinks && r.value == (if at < 4096 then Min(|bytes|, 4096 - at) else 0)
                 && fs'.inodes[i].size == (if r.value > 0 && at + r.value > node.size then at + r.value else node.size)
                 && |fs'.inodes[i].data| == 4096
                 && forall j | 0 <= j < 4096 ::
                      fs'.inodes[i].data[j] == if at <= j < at + r.value then bytes[j - at] else node.data[j]
               else
                 && fs' == fs && r.value == (if node.device in {Console, Uart} then |bytes| else 0)
                 && sinks'.console == (if node.device == Console then sinks.console + bytes else sinks.console)
                 && sinks'.uart == (if node.device == Uart then sinks.uart + bytes else sinks.uart)
  {
    if fs.inodes[i].kind == File {
      WriteInto(fs.inodes[i], ctx.fds[fd].offset, bytes);
    }
  }

  lemma WriteInto(node: Inode, at: nat, bytes: seq<byte>)
    requires IsFile(node)
    ensures var (node', n) := WriteRegular(node, at, bytes);
            && node' == node.(data := node'.data, size := node'.size)
            && n == (if at < 4096 then Min(|bytes|, 4096 - at) else 0)
            && node'.size == (if n > 0 && at + n > node.size then at + n else node.size) && |node'.data| == 4096
            && forall j | 0 <= j < 4096 :: node'.data[j] == if at <= j < at + n then bytes[j - at] else node.data[j]
  {
  }

  /** It answers the error when it reaches nothing, cannot be written through, or the bytes
      cannot be had; nothing changes. */
  lemma WriteRefused(fs: FileSystem, ctx: FileContext, sinks: Sinks, fd: int, count: nat, copied: Option<seq<byte>>)
    requires DataOk(fs)
    requires copied.None? || forall i: nat | i < |fs.inodes| && Reaches(fs, ctx, fd, count, i) :: !ctx.fds[fd].writable
    ensures SysWrite(fs, ctx, sinks, fd, count, copied) == (fs, ctx, sinks, None)
  {
    var i := WriteTarget(fs, ctx, fd, count);
    assert i.Some? && copied.Some? ==> !Reaches(fs, ctx, fd, count, i.value);
  }

  // ----- from open to open -----

  lemma OneWriteKeepsPath(fs: FileSystem, ctx: FileContext, sinks: Sinks, fd: int, chunk: seq<byte>, cwd: Option<nat>,
                          path: string)
    requires FsOk(fs)
    ensures var fs' := SysWrite(fs, ctx, sinks, fd, |chunk|, Some(chunk)).0;
            LookupByPath(fs'.inodes, cwd, path) == LookupByPath(fs.inodes, cwd, path)
              && fs'.initialized == fs.initialized
  {
    var i := WriteTarget(fs, ctx, fd, |chunk|);
    if i.Some? && fs.inodes[i.value].kind == File {
      var node := WriteRegular(fs.inodes[i.value], ctx.fds[fd].offset, chunk).0;
      WriteShape(fs.inodes, i.value, ctx.fds[fd].offset, chunk);
      WriteIsWithin(fs, i.value, node);
      PathWithin(fs.inodes, fs.inodes[i.value := node], cwd, path);
      PathWithin(fs.inodes[i.value := node], fs.inodes, cwd, path);
    }
  }

  /** Writing changes no path. */
  lemma {:induction false} WritesKeepPath(fs: FileSystem, ctx: FileContext, sinks: Sinks, fd: int,
                                          chunks: seq<seq<byte>>, cwd: Option<nat>, path: string)
    requires FsOk(fs)
    ensures var fs' := WriteAll(fs, ctx, sinks, fd, chunks).0;
            LookupByPath(fs'.inodes, cwd, path) == LookupByPath(fs.inodes, cwd, path)
              && fs'.initialized == fs.initialized
    decreases |chunks|
  {
    if chunks != [] {
      OneWriteKeeps(fs, ctx, sinks, fd, chunks[0]);
      OneWriteKeepsPath(fs, ctx, sinks, fd, chunks[0], cwd, path);
      var (fs1, ctx1, sinks1, n) := SysWrite(fs, ctx, sinks, fd, |chunks[0]|, Some(chunks[0]));
      WritesKeepPath(fs1, ctx1, sinks1, fd, chunks[1..], cwd, path);
    }
  }

  /** The path names nothing yet, or an empty file. */
  ghost predicate NothingYet(fs: FileSystem, cwd: nat, path: string) {
    var n := LookupByPath(fs.inodes, Some(cwd), path);
    n.Some? ==> fs.inodes[n.value].kind == File && fs.inodes[n.value].size == 0
  }

  /** What open for writing hands out where there was nothing: a descriptor at the start of
      an empty file the path names. */
  lemma OpenedForWriting(fs: FileSystem, ctx: FileContext, path: string, flags: nat) returns (n: nat)
    requires StoreOk(fs) && DataOk(fs) && NothingYet(Init(fs).0, ctx.cwd, path) && flags / 2 % 2 == 1
    requires SysOpen(fs, ctx, path, flags).2.Some?
    ensures var (fs', ctx', fd) := SysOpen(fs, ctx, path, flags);
            && FsOk(fs') && fs'.initialized && n < |fs'.inodes| && fs'.inodes[n].size == 0
            && OpenOn(fs', ctx', fd.value, n, 0) && ctx'.fds[fd.value].writable
            && LookupByPath(fs'.inodes, Some(ctx.cwd), path) == Some(n)
  {
    InitKeeps(fs);
    OpenDenotesPath(fs, ctx, path, flags, None, "");
    OpenStaysUp(fs, ctx, path, flags);
    var (fs', ctx', fd) := SysOpen(fs, ctx, path, flags);
    n := LookupByPath(fs'.inodes, Some(ctx.cwd), path).value;
  }

  lemma OpenStaysUp(fs: FileSystem, ctx: FileContext, path: string, flags: nat)
    requires StoreOk(fs) && DataOk(fs) && path != ""
    ensures var fs' := SysOpen(fs, ctx, path, flags).0; fs'.initialized && FsOk(fs')
  {
    InitKeeps(fs);
    OpenKeeps(fs, ctx, path, flags);
  }

  /** Opening a file for reading hands out a descriptor at its start, and changes nothing. */
  lemma OpenedForReading(fs: FileSystem, ctx: FileContext, path: string, flags: nat, n: nat)
    requires FsOk(fs) && fs.initialized && DataOk(fs) && LookupByPath(fs.inodes, Some(ctx.cwd), path) == Some(n)
    requires IsFile(fs.inodes[n]) && (flags % 2 == 1 || flags / 2 % 2 == 0)
    requires exists fd | 0 <= fd < |ctx.fds| :: !ctx.fds[fd].used
    ensures var (fs', ctx', fd) := SysOpen(fs, ctx, path, flags);
            && fd.Some? && fs'.inodes == fs.inodes && OpenOn(fs', ctx', fd.value, n, 0) && ctx'.fds[fd.value].readable
  {
    OpenDenotesPath(fs, ctx, path, flags, None, "");
  }

  /** Writing through a descriptor at the start of an empty file, opening the file again and reading it. */
  lemma WriteOpenRead(fs: FileSystem, ctx: FileContext, sinks: Sinks, fd: nat, n: nat, chunks: seq<seq<byte>>,
                      path: string, reader: FileContext, flags: nat, counts: seq<nat>)
    requires FsOk(fs) && fs.initialized && n < |fs.inodes| && fs.inodes[n].size == 0
    requires OpenOn(fs, ctx, fd, n, 0) && ctx.fds[fd].writable
    requires LookupByPath(fs.inodes, Some(reader.cwd), path) == Some(n)
    requires (flags % 2 == 1 || flags / 2 % 2 == 0) && exists fd | 0 <= fd < |reader.fds| :: !reader.fds[fd].used
    requires forall j | 0 <= j < |chunks| :: |chunks[j]| <= MAX_IO_BYTES
    requires forall j | 0 <= j < |counts| :: counts[j] <= MAX_IO_BYTES
    ensures var fs2 := WriteAll(fs, ctx, sinks, fd, chunks).0;
            DataOk(fs2) && ReadsBack(fs2, reader, path, flags, counts, chunks)
  {
    var fs2 := WrittenFile(fs, ctx, sinks, fd, n, chunks, Some(reader.cwd), path);
    OpenedIsRead(fs2, reader, path, flags, n, counts, chunks);
  }

  lemma WrittenFile(fs: FileSystem, ctx: FileContext, sinks: Sinks, fd: nat, n: nat, chunks: seq<seq<byte>>,
                    cwd: Option<nat>, path: string) returns (fs2: FileSystem)
    requires FsOk(fs) && fs.initialized && n < |fs.inodes| && fs.inodes[n].size == 0
    requires OpenOn(fs, ctx, fd, n, 0) && ctx.fds[fd].writable && LookupByPath(fs.inodes, cwd, path) == Some(n)
    requires forall j | 0 <= j < |chunks| :: |chunks[j]| <= MAX_IO_BYTES
    ensures fs2 == WriteAll(fs, ctx, sinks, fd, chunks).0 && FsOk(fs2) && fs2.initialized && DataOk(fs2)
    ensures LookupByPath(fs2.inodes, cwd, path) == Some(n)
    ensures IsFile(fs2.inodes[n]) && Contents(fs2.inodes[n]) == First(Concat(chunks), MAX_FILE_BYTES)
  {
    WritesAppend(fs, ctx, sinks, fd, n, chunks);
    WritesKeepPath(fs, ctx, sinks, fd, chunks, cwd, path);
    assert Contents(fs.inodes[n]) + Concat(chunks) == Concat(chunks);
    fs2 := WriteAll(fs, ctx, sinks, fd, chunks).0;
  }

  lemma OpenedIsRead(fs: FileSystem, reader: FileContext, path: string, flags: nat, n: nat, counts: seq<nat>,
                     chunks: seq<seq<byte>>)
    requires FsOk(fs) && fs.initialized && DataOk(fs) && LookupByPath(fs.inodes, Some(reader.cwd), path) == Some(n)
    requires IsFile(fs.inodes[n]) && Contents(fs.inodes[n]) == First(Concat(chunks), MAX_FILE_BYTES)
    requires (flags % 2 == 1 || flags / 2 % 2 == 0) && exists fd | 0 <= fd < |reader.fds| :: !reader.fds[fd].used
    requires forall j | 0 <= j < |counts| :: counts[j] <= MAX_IO_BYTES
    ensures ReadsBack(fs, reader, path, flags, counts, chunks)
  {
    OpenedForReading(fs, reader, path, flags, n);
    var (fs', ctx', fd) := SysOpen(fs, reader, path, flags);
    ReadsGiveSlice(fs', ctx', fd.value, n, 0, counts);
  }

  /** Opening the path succeeds, and reads in these sizes give what these chunks put there. */
  ghost predicate ReadsBack(fs: FileSystem, reader: FileContext, path: string, flags: nat, counts: seq<nat>,
                            chunks: seq<seq<byte>>)
    requires DataOk(fs)
  {
    var (fs', ctx', fd) := SysOpen(fs, reader, path, flags);
    && fd.Some? && DataOk(fs')
    && ReadAll(fs', ctx', fd.value, counts) == Some(First(First(Concat(chunks), 4096), Sum(counts)))
  }

  /** From open to open: where a path named nothing or an empty file, open it for writing, write any series of chunks,
      and open it again, as any process with the same working directory: that succeeds while a descriptor is free, and
      reads of any sizes give what was written, up to 4096 bytes. */
  lemma OpenWriteOpenRead(fs: FileSystem, ctx: FileContext, sinks: Sinks, path: string, flags: nat,
                          chunks: seq<seq<byte>>, reader: FileContext, flags2: nat, counts: seq<nat>)
    requires StoreOk(fs) && DataOk(fs) && NothingYet(Init(fs).0, ctx.cwd, path) && flags / 2 % 2 == 1
    requires SysOpen(fs, ctx, path, flags).2.Some?
    requires reader.cwd == ctx.cwd && (flags2 % 2 == 1 || flags2 / 2 % 2 == 0)
    requires exists fd | 0 <= fd < |reader.fds| :: !reader.fds[fd].used
    requires forall j | 0 <= j < |chunks| :: |chunks[j]| <= MAX_IO_BYTES
    requires forall j | 0 <= j < |counts| :: counts[j] <= MAX_IO_BYTES
    ensures var (fs1, ctx1, fd1) := SysOpen(fs, ctx, path, flags);
            && FsOk(fs1)
            && var fs2 := WriteAll(fs1, ctx1, sinks, fd1.value, chunks).0;
               DataOk(fs2) && ReadsBack(fs2, reader, path, flags2, counts, chunks)
  {
    var n := OpenedForWriting(fs, ctx, path, flags);
    var (fs1, ctx1, fd1) := SysOpen(fs, ctx, path, flags);
    WriteOpenRead(fs1, ctx1, sinks, fd1.value, n, chunks, path, reader, flags2, counts);
  }
}
