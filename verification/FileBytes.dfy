/** A regular file as a sequence of bytes: what writes through descriptors leave in it, and what reads give back. */
module FileBytes {
  import opened Common
  import opened FsModel
  import opened FsInvariant
  import opened Files
  import opened FsBoot

  /** The bytes of a file. */
  function Contents(node: Inode): seq<byte>
    requires node.size <= |node.data|
  {
    node.data[..node.size]
  }

  function First<T>(s: seq<T>, n: nat): seq<T> {
    s[..Min(|s|, n)]
  }

  /** The next `count` bytes from `at` on, or as many as there are. */
  function Portion(s: seq<byte>, at: nat, count: nat): (r: seq<byte>)
    requires at <= |s|
    ensures |r| == Min(count, |s| - at) && forall j | 0 <= j < |r| :: r[j] == s[at + j]
  {
    First(s[at..], count)
  }

  /** One portion and the next are one larger portion. */
  lemma PortionsJoin(s: seq<byte>, at: nat, count: nat, n: nat, more: nat)
    requires at <= |s| && n == Min(count, |s| - at)
    ensures Portion(s, at, count) + Portion(s, at + n, more) == Portion(s, at, count + more)
  {
  }

  lemma FirstAbsorbs<T>(s: seq<T>, t: seq<T>, n: nat)
    ensures First(First(s, n) + t, n) == First(s + t, n)
  {
  }

  // ----- one call -----

  ghost predicate IsFile(node: Inode) {
    node.kind == File && |node.data| == MAX_FILE_BYTES && node.size <= MAX_FILE_BYTES
  }

  /** A write at most at the end of the file replaces what it covers, extends the file as far as it fits, and leaves the
      rest. (Past the end it would uncover what a truncation left there.) */
  lemma WriteSplices(node: Inode, offset: nat, src: seq<byte>)
    requires IsFile(node) && offset <= node.size
    ensures var (node', n) := WriteRegular(node, offset, src);
            && n == Min(|src|, MAX_FILE_BYTES - offset) && IsFile(node')
            && Contents(node') == Contents(node)[..offset] + src[..n] +
                                  (if offset + n < node.size then Contents(node)[offset + n..] else [])
  {
  }

  /** A write anywhere: the bytes it covers are the source's, as far as they fit, all others are the
      array's. Where it leaves a gap behind the end, the file now shows what the array held there, for
      instance from before a truncation. */
  lemma WriteAnywhere(node: Inode, offset: nat, src: seq<byte>, j: nat)
    requires IsFile(node)
    ensures var (node', n) := WriteRegular(node, offset, src);
            && n == (if offset < MAX_FILE_BYTES then Min(|src|, MAX_FILE_BYTES - offset) else 0) && IsFile(node')
            && node'.size == (if n > 0 && offset + n > node.size then offset + n else node.size)
            && (j < node'.size ==>
                  Contents(node')[j] == if offset <= j < offset + n then src[j - offset] else node.data[j])
  {
    var (node', n) := WriteRegular(node, offset, src);
    if n > 0 && j < node'.size {
      assert node'.data == node.data[..offset] + src[..n] + node.data[offset + n..];
      assert Contents(node')[j] == node'.data[j];
    }
  }

  /** A write at the end appends what fits. */
  lemma WriteAppends(node: Inode, src: seq<byte>)
    requires IsFile(node)
    ensures var (node', n) := WriteRegular(node, node.size, src);
            && n == Min(|src|, MAX_FILE_BYTES - node.size) && IsFile(node')
            && Contents(node') == First(Contents(node) + src, MAX_FILE_BYTES) && node'.size == node.size + n
  {
    WriteSplices(node, node.size, src);
    assert Contents(node)[..node.size] == Contents(node);
  }

  /** A read gives the next bytes, as many as were asked for and are there. */
  lemma ReadSlices(node: Inode, offset: nat, count: nat)
    requires IsFile(node) && offset <= node.size
    ensures ReadRegular(node, offset, count) == Portion(Contents(node), offset, count)
  {
  }

  /** Reading back where one has just written gives what was written. */
  lemma ReadAfterWrite(node: Inode, offset: nat, src: seq<byte>)
    requires IsFile(node) && offset <= node.size
    ensures var (node', n) := WriteRegular(node, offset, src); ReadRegular(node', offset, n) == src[..n]
  {
    WriteSplices(node, offset, src);
    ReadSlices(WriteRegular(node, offset, src).0, offset, WriteRegular(node, offset, src).1);
  }

  // ----- series of calls through one descriptor -----

  /** Descriptor `fd` is open on the file in slot `i`, at `offset`. */
  ghost predicate OpenOn(fs: FileSystem, ctx: FileContext, fd: int, i: nat, offset: nat) {
    && IsOpen(ctx, fd) && LookupByID(fs.inodes, ctx.fds[fd].inodeID) == Some(i)
    && IsFile(fs.inodes[i]) && ctx.fds[fd].offset == offset
  }

  ghost function WriteAll(fs: FileSystem, ctx: FileContext, sinks: Sinks, fd: int,
                          chunks: seq<seq<byte>>): (FileSystem, FileContext)
    requires FsOk(fs)
    decreases |chunks|
  {
    if chunks == [] then (fs, ctx)
    else
      var (fs', ctx', sinks', n) := SysWrite(fs, ctx, sinks, fd, |chunks[0]|, Some(chunks[0]));
      assert FsOk(fs') by { OneWriteKeeps(fs, ctx, sinks, fd, chunks[0]); }
      WriteAll(fs', ctx', sinks', fd, chunks[1..])
  }

  lemma OneWriteKeeps(fs: FileSystem, ctx: FileContext, sinks: Sinks, fd: int, chunk: seq<byte>)
    requires FsOk(fs)
    ensures FsOk(SysWrite(fs, ctx, sinks, fd, |chunk|, Some(chunk)).0)
  {
    var i := WriteTarget(fs, ctx, fd, |chunk|);
    if i.Some? {
      WriteKeeps(fs, i.value, ctx.fds[fd].offset, chunk);
    }
  }

  /** One successful write at the end of the file. */
  lemma OneWriteAppends(fs: FileSystem, ctx: FileContext, sinks: Sinks, fd: int, i: nat, chunk: seq<byte>)
    requires FsOk(fs) && i < |fs.inodes| && OpenOn(fs, ctx, fd, i, fs.inodes[i].size) && ctx.fds[fd].writable
    requires |chunk| <= MAX_IO_BYTES
    ensures var (fs', ctx', sinks', n) := SysWrite(fs, ctx, sinks, fd, |chunk|, Some(chunk));
            && n == Some(Min(|chunk|, MAX_FILE_BYTES - fs.inodes[i].size)) && sinks' == sinks
            && |fs'.inodes| == |fs.inodes| && OpenOn(fs', ctx', fd, i, fs'.inodes[i].size) && ctx'.fds[fd].writable
            && Contents(fs'.inodes[i]) == First(Contents(fs.inodes[i]) + chunk, MAX_FILE_BYTES)
            && ctx'.fds[fd].inodeID == ctx.fds[fd].inodeID
            && LookupByID(fs'.inodes, ctx.fds[fd].inodeID) == Some(i)
  {
    WriteAppends(fs.inodes[i], chunk);
    WriteShape(fs.inodes, i, fs.inodes[i].size, chunk);
    var fs' := WriteNode(fs, i, fs.inodes[i].size, chunk).0;
    SameIdsResolve(fs.inodes, fs'.inodes, fs.nextInodeID, ctx.fds[fd].inodeID);
  }

  function Concat(chunks: seq<seq<byte>>): seq<byte> {
    if chunks == [] then [] else chunks[0] + Concat(chunks[1..])
  }

  /** Any series of writes through one descriptor that stands at the end of a file appends the concatenation of what was
      written, up to the size a file can have. */
  lemma {:induction false} WritesAppend(fs: FileSystem, ctx: FileContext, sinks: Sinks, fd: int, i: nat,
                                        chunks: seq<seq<byte>>)
    requires FsOk(fs) && i < |fs.inodes| && OpenOn(fs, ctx, fd, i, fs.inodes[i].size) && ctx.fds[fd].writable
    requires forall j | 0 <= j < |chunks| :: |chunks[j]| <= MAX_IO_BYTES
    ensures var (fs', ctx') := WriteAll(fs, ctx, sinks, fd, chunks);
            && FsOk(fs') && |fs'.inodes| == |fs.inodes| && IsFile(fs'.inodes[i])
            && LookupByID(fs'.inodes, ctx.fds[fd].inodeID) == Some(i)
            && Contents(fs'.inodes[i]) == First(Contents(fs.inodes[i]) + Concat(chunks), MAX_FILE_BYTES)
    decreases |chunks|
  {
    var was := Contents(fs.inodes[i]);
    if chunks == [] {
      assert was + Concat(chunks) == was;
    } else {
      OneWriteKeeps(fs, ctx, sinks, fd, chunks[0]);
      OneWriteAppends(fs, ctx, sinks, fd, i, chunks[0]);
      var (fs1, ctx1, sinks1, n) := SysWrite(fs, ctx, sinks, fd, |chunks[0]|, Some(chunks[0]));
      WritesAppend(fs1, ctx1, sinks1, fd, i, chunks[1..]);
      FirstStep(was, chunks[0], Concat(chunks[1..]));
    }
  }

  lemma FirstStep(was: seq<byte>, chunk: seq<byte>, rest: seq<byte>)
    ensures First(First(was + chunk, MAX_FILE_BYTES) + rest, MAX_FILE_BYTES) ==
              First(was + (chunk + rest), MAX_FILE_BYTES)
  {
    FirstAbsorbs(was + chunk, rest, MAX_FILE_BYTES);
    assert was + chunk + rest == was + (chunk + rest);
  }

  /** Reads in the sizes given, all delivered; the bytes in the order they came. */
  ghost function ReadAll(fs: FileSystem, ctx: FileContext, fd: int, counts: seq<nat>): Option<seq<byte>>
    requires DataOk(fs)
    decreases |counts|
  {
    if counts == [] then Some([])
    else
      var got := Fetch(fs, ctx, fd, counts[0], []);
      if got.None? then None
      else
        var rest := ReadAll(fs, SysRead(fs, ctx, fd, counts[0], [], true).0, fd, counts[1..]);
        if rest.None? then None else Some(got.value + rest.value)
  }

  function Sum(counts: seq<nat>): nat {
    if counts == [] then 0 else counts[0] + Sum(counts[1..])
  }

  /** Reads of any sizes through one descriptor give the file's bytes from its offset on, without gap or repetition. */
  lemma {:induction false} ReadsGiveSlice(fs: FileSystem, ctx: FileContext, fd: int, i: nat, offset: nat,
                                          counts: seq<nat>)
    requires DataOk(fs) && i < |fs.inodes| && OpenOn(fs, ctx, fd, i, offset) && ctx.fds[fd].readable
    requires offset <= fs.inodes[i].size && forall j | 0 <= j < |counts| :: counts[j] <= MAX_IO_BYTES
    ensures ReadAll(fs, ctx, fd, counts) ==
              Some(Portion(Contents(fs.inodes[i]), offset, Sum(counts)))
    decreases |counts|
  {
    if counts != [] {
      var bytes := Contents(fs.inodes[i]);
      ReadSlices(fs.inodes[i], offset, counts[0]);
      var n := Min(counts[0], |bytes| - offset);
      ReadsGiveSlice(fs, SysRead(fs, ctx, fd, counts[0], [], true).0, fd, i, offset + n, counts[1..]);
      PortionsJoin(bytes, offset, counts[0], n, Sum(counts[1..]));
    }
  }

  /** What a series of writes put into a fresh file, up to 4096 bytes, is exactly what another descriptor reads, in
      whatever sizes the two sides work. */
  lemma WrittenIsRead(fs: FileSystem, ctx: FileContext, sinks: Sinks, fd: int, i: nat, chunks: seq<seq<byte>>,
                      reader: FileContext, fd2: int, counts: seq<nat>)
    requires FsOk(fs) && i < |fs.inodes| && fs.inodes[i].size == 0 && OpenOn(fs, ctx, fd, i, 0) && ctx.fds[fd].writable
    requires forall j | 0 <= j < |chunks| :: |chunks[j]| <= MAX_IO_BYTES
    requires forall j | 0 <= j < |counts| :: counts[j] <= MAX_IO_BYTES
    requires IsOpen(reader, fd2)
    requires reader.fds[fd2] == Descriptor(true, ctx.fds[fd].inodeID, 0, true, reader.fds[fd2].writable)
    ensures var fs' := WriteAll(fs, ctx, sinks, fd, chunks).0;
            DataOk(fs')
              && ReadAll(fs', reader, fd2, counts) == Some(First(First(Concat(chunks), MAX_FILE_BYTES), Sum(counts)))
  {
    WritesAppend(fs, ctx, sinks, fd, i, chunks);
    var fs' := WriteAll(fs, ctx, sinks, fd, chunks).0;
    assert Contents(fs.inodes[i]) + Concat(chunks) == Concat(chunks);
    ReadsGiveSlice(fs', reader, fd2, i, 0, counts);
  }
}
