/** read and write with the user's memory put in: files and address spaces together. */
module UserFiles {
  import opened Common
  import opened VmModel
  import opened VmProofs
  import opened FsModel
  import opened FsInvariant
  import opened Files
  import opened FsBoot
  import opened FileBytes

  /** sysRead: copyout may grow the stack and may fail part of the way. */
  ghost function ReadCall(fs: FileSystem, ctx: FileContext, u: UserMem, fd: int, dstVA: nat, count: nat,
                          clock: seq<byte>)
    : (FileContext, UserMem, Option<nat>)
    requires DataOk(fs)
  {
    var bytes := Fetch(fs, ctx, fd, count, clock);
    if bytes.None? || bytes.value == [] then
      (ctx, u, SysRead(fs, ctx, fd, count, clock, false).1)
    else
      var (u', delivered) := CopyOut(u, dstVA, bytes.value);
      var (ctx', n) := SysRead(fs, ctx, fd, count, clock, delivered);
      (ctx', u', n)
  }

  /** sysWrite: copyin may grow the stack and may fail, before anything is written. */
  ghost function WriteCall(fs: FileSystem, ctx: FileContext, sinks: Sinks, u: UserMem, fd: int, srcVA: nat, count: nat)
    : (FileSystem, FileContext, Sinks, UserMem, Option<nat>)
    requires DataOk(fs)
  {
    if WriteTarget(fs, ctx, fd, count).None? then (fs, ctx, sinks, u, None)
    else
      var (u', copied) := CopyIn(u, srcVA, count);
      var (fs', ctx', sinks', n) := SysWrite(fs, ctx, sinks, fd, count, copied);
      (fs', ctx', sinks', u', n)
  }

  /** The descriptor is open for reading on file `i`, at an offset within it. */
  ghost predicate ReadsFrom(fs: FileSystem, ctx: FileContext, fd: int, i: nat, offset: nat) {
    i < |fs.inodes| && OpenOn(fs, ctx, fd, i, offset) && ctx.fds[fd].readable && offset <= fs.inodes[i].size
  }

  /** A read of an open file succeeds exactly when what it returns has somewhere to go, which can be told before the
      call. A failed read leaves the descriptor where it was; a successful one moves it by what it returns, and the
      bytes it returns are in the user's memory. */
  lemma ReadDelivers(fs: FileSystem, ctx: FileContext, u: UserMem, others: multiset<int>, fd: int, dstVA: nat,
                     count: nat, i: nat, offset: nat)
    requires DataOk(fs) && UserOk(u, others) && ReadsFrom(fs, ctx, fd, i, offset) && count <= MAX_IO_BYTES
    ensures var (ctx', u', n) := ReadCall(fs, ctx, u, fd, dstVA, count, []);
            && (n.Some? <==> AllWritable(u, dstVA, Min(count, fs.inodes[i].size - offset)))
            && if n.None? then ctx' == ctx
               else
                 && n.value == Min(count, fs.inodes[i].size - offset)
                 && ctx' == Advance(ctx, fd, n.value) && SameWritable(u, u')
                 && Holds(u', dstVA, Portion(Contents(fs.inodes[i]), offset, count))
  {
    ReadSlices(fs.inodes[i], offset, count);
    var bytes := ReadRegular(fs.inodes[i], offset, count);
    if bytes != [] {
      CopyOutSucceedsIff(u, others, dstVA, bytes);
      if CopyOut(u, dstVA, bytes).1 {
        CopyOutDelivers(u, others, dstVA, bytes);
      }
    }
  }

  /** What the user's memory holds goes into the file. */
  lemma WriteTakes(fs: FileSystem, ctx: FileContext, sinks: Sinks, u: UserMem, others: multiset<int>, fd: int,
                   srcVA: nat,
                   bytes: seq<byte>)
    requires DataOk(fs) && UserOk(u, others) && Holds(u, srcVA, bytes)
    ensures WriteCall(fs, ctx, sinks, u, fd, srcVA, |bytes|) ==
              var (fs', ctx', sinks', n) := SysWrite(fs, ctx, sinks, fd, |bytes|, Some(bytes));
              (fs', ctx', sinks', u, n)
  {
    CopyInReads(u, others, srcVA, bytes);
  }

  // ----- series of calls -----

  /** A buffer in user memory. */
  datatype Buffer = Buffer(va: nat, count: nat)

  /** How many bytes the buffers hold together. */
  function Total(bufs: seq<Buffer>): nat {
    if bufs == [] then 0 else bufs[0].count + Total(bufs[1..])
  }

  ghost predicate AllHeld(u: UserMem, bufs: seq<Buffer>, chunks: seq<seq<byte>>) {
    && |bufs| == |chunks|
    && forall j | 0 <= j < |bufs| :: |chunks[j]| == bufs[j].count <= MAX_IO_BYTES && Holds(u, bufs[j].va, chunks[j])
  }

  /** Write the buffers one after the other, whatever each call answers. */
  ghost function WriteFrom(fs: FileSystem, ctx: FileContext, sinks: Sinks, u: UserMem, fd: int, bufs: seq<Buffer>)
    : (FileSystem, FileContext, UserMem)
    requires FsOk(fs)
    decreases |bufs|
  {
    if bufs == [] then (fs, ctx, u)
    else
      var (fs', ctx', sinks', u', n) := WriteCall(fs, ctx, sinks, u, fd, bufs[0].va, bufs[0].count);
      assert FsOk(fs') by { OneCallKeeps(fs, ctx, sinks, u, fd, bufs[0]); }
      WriteFrom(fs', ctx', sinks', u', fd, bufs[1..])
  }

  lemma OneCallKeeps(fs: FileSystem, ctx: FileContext, sinks: Sinks, u: UserMem, fd: int, buf: Buffer)
    requires FsOk(fs)
    ensures FsOk(WriteCall(fs, ctx, sinks, u, fd, buf.va, buf.count).0)
  {
    var i := WriteTarget(fs, ctx, fd, buf.count);
    var copied := CopyIn(u, buf.va, buf.count).1;
    if i.Some? && copied.Some? {
      WriteKeeps(fs, i.value, ctx.fds[fd].offset, copied.value);
    }
  }

  /** Writing from memory writes what the memory holds, and leaves the memory as it is. */
  lemma {:induction false} WritesTake(fs: FileSystem, ctx: FileContext, sinks: Sinks, u: UserMem,
                                      others: multiset<int>, fd: int,
                                      bufs: seq<Buffer>, chunks: seq<seq<byte>>)
    requires FsOk(fs) && UserOk(u, others) && AllHeld(u, bufs, chunks)
    ensures var (fs', ctx') := WriteAll(fs, ctx, sinks, fd, chunks);
            WriteFrom(fs, ctx, sinks, u, fd, bufs) == (fs', ctx', u)
    decreases |bufs|
  {
    if bufs != [] {
      WriteTakes(fs, ctx, sinks, u, others, fd, bufs[0].va, chunks[0]);
      OneWriteKeeps(fs, ctx, sinks, fd, chunks[0]);
      var (fs', ctx', sinks', n) := SysWrite(fs, ctx, sinks, fd, |chunks[0]|, Some(chunks[0]));
      WritesTake(fs', ctx', sinks', u, others, fd, bufs[1..], chunks[1..]);
    }
  }

  /** Read into the buffers one after the other, the process looking at each as soon as it is
      filled; None if a call fails. */
  ghost function ReadInto(fs: FileSystem, ctx: FileContext, u: UserMem, fd: int, bufs: seq<Buffer>): Option<seq<byte>>
    requires DataOk(fs)
    decreases |bufs|
  {
    if bufs == [] then Some([])
    else
      var (ctx', u', n) := ReadCall(fs, ctx, u, fd, bufs[0].va, bufs[0].count, []);
      if n.None? then None
      else
        var (u'', found) := CopyIn(u', bufs[0].va, n.value);
        var rest := ReadInto(fs, ctx', u'', fd, bufs[1..]);
        if found.None? || rest.None? then None else Some(found.value + rest.value)
  }

  /** Reading `left` bytes into the buffers, every address that gets a byte is writable. */
  ghost predicate BuffersWritable(u: UserMem, bufs: seq<Buffer>, left: nat)
    decreases |bufs|
  {
    bufs != [] ==>
      var n := Min(bufs[0].count, left);
      AllWritable(u, bufs[0].va, n) && BuffersWritable(u, bufs[1..], left - n)
  }

  lemma {:induction false} SameBuffersWritable(u: UserMem, u': UserMem, bufs: seq<Buffer>, left: nat)
    requires SameWritable(u, u')
    ensures BuffersWritable(u', bufs, left) <==> BuffersWritable(u, bufs, left)
    decreases |bufs|
  {
    if bufs != [] {
      var n := Min(bufs[0].count, left);
      SameBuffersWritable(u, u', bufs[1..], left - n);
      assert AllWritable(u', bufs[0].va, n) <==> AllWritable(u, bufs[0].va, n);
    }
  }

  /** What there is to see of these bytes, from `offset` on, through the buffers: as many as they hold together, in
      order, or nothing when an address that gets a byte is not writable. */
  ghost function Sight(u: UserMem, bytes: seq<byte>, offset: nat, bufs: seq<Buffer>): Option<seq<byte>>
    requires offset <= |bytes|
  {
    if BuffersWritable(u, bufs, |bytes| - offset) then Some(Portion(bytes, offset, Total(bufs))) else None
  }

  /** What the first buffer shows, and what the others do. */
  function Joined(first: seq<byte>, rest: Option<seq<byte>>): Option<seq<byte>> {
    if rest.None? then None else Some(first + rest.value)
  }

  /** `now` shows the first buffer and then `rest`; if `rest` is what there is to see there, so is `now`. */
  lemma SightGoesOn(u: UserMem, u': UserMem, bytes: seq<byte>, offset: nat, n: nat, bufs: seq<Buffer>,
                    now: Option<seq<byte>>, rest: Option<seq<byte>>)
    requires offset <= |bytes| && bufs != [] && SameWritable(u, u') && n == Min(bufs[0].count, |bytes| - offset)
    requires AllWritable(u, bufs[0].va, n) && now == Joined(Portion(bytes, offset, bufs[0].count), rest)
    requires rest == Sight(u', bytes, offset + n, bufs[1..])
    ensures now == Sight(u, bytes, offset, bufs)
  {
    SameBuffersWritable(u, u', bufs[1..], |bytes| - offset - n);
    PortionsJoin(bytes, offset, bufs[0].count, n, Total(bufs[1..]));
  }

  /** No buffer is larger than what one call transfers. */
  predicate AllFit(bufs: seq<Buffer>) {
    bufs != [] ==> bufs[0].count <= MAX_IO_BYTES && AllFit(bufs[1..])
  }

  /** One read and a look at the buffer. */
  lemma ReadIsSeen(fs: FileSystem, ctx: FileContext, u: UserMem, others: multiset<int>, fd: int, buf: Buffer, i: nat,
                   offset: nat)
    requires DataOk(fs) && UserOk(u, others) && ReadsFrom(fs, ctx, fd, i, offset) && buf.count <= MAX_IO_BYTES
    ensures var (ctx', u', n) := ReadCall(fs, ctx, u, fd, buf.va, buf.count, []);
            && (n.Some? <==> AllWritable(u, buf.va, Min(buf.count, fs.inodes[i].size - offset)))
            && (n.Some? ==>
                  && n.value == Min(buf.count, fs.inodes[i].size - offset)
                  && ctx' == Advance(ctx, fd, n.value) && UserOk(u', others) && SameWritable(u, u')
                  && CopyIn(u', buf.va, n.value) == (u', Some(Portion(Contents(fs.inodes[i]), offset, buf.count))))
  {
    ReadDelivers(fs, ctx, u, others, fd, buf.va, buf.count, i, offset);
    ReadKeepsUser(fs, ctx, u, others, fd, buf);
    var (ctx', u', n) := ReadCall(fs, ctx, u, fd, buf.va, buf.count, []);
    if n.Some? {
      CopyInReads(u', others, buf.va, Portion(Contents(fs.inodes[i]), offset, buf.count));
    }
  }

  lemma ReadKeepsUser(fs: FileSystem, ctx: FileContext, u: UserMem, others: multiset<int>, fd: int, buf: Buffer)
    requires DataOk(fs) && UserOk(u, others)
    ensures UserOk(ReadCall(fs, ctx, u, fd, buf.va, buf.count, []).1, others)
  {
    var bytes := Fetch(fs, ctx, fd, buf.count, []);
    if bytes.Some? {
      CopyOutGrows(u, others, buf.va, bytes.value);
    }
  }

  /** What a process sees in its buffers, read after read, is the file's bytes in order; and all its reads succeed
      exactly when every address that gets a byte is writable before the first of them. */
  lemma {:induction false} ReadsSeeSlice(fs: FileSystem, ctx: FileContext, u: UserMem, others: multiset<int>, fd: int,
                                         i: nat, offset: nat, bufs: seq<Buffer>)
    requires DataOk(fs) && UserOk(u, others) && ReadsFrom(fs, ctx, fd, i, offset)
    requires AllFit(bufs)
    ensures ReadInto(fs, ctx, u, fd, bufs) == Sight(u, Contents(fs.inodes[i]), offset, bufs)
    decreases |bufs|, 2
  {
    if bufs == [] {
      NothingToSee(fs, ctx, u, fd, Contents(fs.inodes[i]), offset);
    } else if AllWritable(u, bufs[0].va, Min(bufs[0].count, fs.inodes[i].size - offset)) {
      ReadsGoOn(fs, ctx, u, others, fd, i, offset, bufs);
    } else {
      FirstReadFails(fs, ctx, u, others, fd, i, offset, bufs);
    }
  }

  lemma ReadsGoOn(fs: FileSystem, ctx: FileContext, u: UserMem, others: multiset<int>, fd: int, i: nat, offset: nat,
                  bufs: seq<Buffer>)
    requires DataOk(fs) && UserOk(u, others) && ReadsFrom(fs, ctx, fd, i, offset) && bufs != []
    requires AllFit(bufs)
    requires AllWritable(u, bufs[0].va, Min(bufs[0].count, fs.inodes[i].size - offset))
    ensures ReadInto(fs, ctx, u, fd, bufs) == Sight(u, Contents(fs.inodes[i]), offset, bufs)
    decreases |bufs|, 1
  {
    var u', n, rest := FirstAndRest(fs, ctx, u, others, fd, i, offset, bufs);
    SightGoesOn(u, u', Contents(fs.inodes[i]), offset, n, bufs, ReadInto(fs, ctx, u, fd, bufs), rest);
  }

  /** The first read, and what the others see. */
  lemma FirstAndRest(fs: FileSystem, ctx: FileContext, u: UserMem, others: multiset<int>, fd: int, i: nat, offset: nat,
                     bufs: seq<Buffer>) returns (u': UserMem, n: nat, rest: Option<seq<byte>>)
    requires DataOk(fs) && UserOk(u, others) && ReadsFrom(fs, ctx, fd, i, offset) && bufs != []
    requires bufs[0].count <= MAX_IO_BYTES && AllFit(bufs[1..])
    requires AllWritable(u, bufs[0].va, Min(bufs[0].count, fs.inodes[i].size - offset))
    ensures var bytes := Contents(fs.inodes[i]);
            && n == Min(bufs[0].count, |bytes| - offset) && AllWritable(u, bufs[0].va, n) && SameWritable(u, u')
            && ReadInto(fs, ctx, u, fd, bufs) == Joined(Portion(bytes, offset, bufs[0].count), rest)
            && rest == Sight(u', bytes, offset + n, bufs[1..])
    decreases |bufs|, 0
  {
    var ctx';
    ctx', u', n := FirstRead(fs, ctx, u, others, fd, i, offset, bufs);
    ReadsSeeSlice(fs, ctx', u', others, fd, i, offset + n, bufs[1..]);
    rest := ReadInto(fs, ctx', u', fd, bufs[1..]);
  }

  lemma NothingToSee(fs: FileSystem, ctx: FileContext, u: UserMem, fd: int, bytes: seq<byte>, offset: nat)
    requires DataOk(fs) && offset <= |bytes|
    ensures ReadInto(fs, ctx, u, fd, []) == Sight(u, bytes, offset, [])
  {
  }

  lemma FirstReadFails(fs: FileSystem, ctx: FileContext, u: UserMem, others: multiset<int>, fd: int, i: nat,
                       offset: nat, bufs: seq<Buffer>)
    requires DataOk(fs) && UserOk(u, others) && ReadsFrom(fs, ctx, fd, i, offset) && bufs != []
    requires bufs[0].count <= MAX_IO_BYTES
    requires !AllWritable(u, bufs[0].va, Min(bufs[0].count, fs.inodes[i].size - offset))
    ensures ReadInto(fs, ctx, u, fd, bufs) == Sight(u, Contents(fs.inodes[i]), offset, bufs)
  {
    ReadIsSeen(fs, ctx, u, others, fd, bufs[0], i, offset);
  }

  lemma FirstRead(fs: FileSystem, ctx: FileContext, u: UserMem, others: multiset<int>, fd: int, i: nat, offset: nat,
                  bufs: seq<Buffer>) returns (ctx': FileContext, u': UserMem, n: nat)
    requires DataOk(fs) && UserOk(u, others) && ReadsFrom(fs, ctx, fd, i, offset) && bufs != []
    requires bufs[0].count <= MAX_IO_BYTES
    requires AllWritable(u, bufs[0].va, Min(bufs[0].count, fs.inodes[i].size - offset))
    ensures n == Min(bufs[0].count, |Contents(fs.inodes[i])| - offset) && AllWritable(u, bufs[0].va, n)
    ensures UserOk(u', others) && SameWritable(u, u') && ReadsFrom(fs, ctx', fd, i, offset + n)
    ensures ReadInto(fs, ctx, u, fd, bufs) ==
              Joined(Portion(Contents(fs.inodes[i]), offset, bufs[0].count), ReadInto(fs, ctx', u', fd, bufs[1..]))
  {
    ReadIsSeen(fs, ctx, u, others, fd, bufs[0], i, offset);
    var (c, v, r) := ReadCall(fs, ctx, u, fd, bufs[0].va, bufs[0].count, []);
    ctx', u', n := c, v, r.value;
  }

  /** From one process's memory through a file into another's: what the reader sees in its buffers, however many
      and however large, is what the writer had in its own, up to the 4096 bytes a file holds, across page
      boundaries, stack growth and different address spaces; and it sees it exactly when its buffers are
      writable as far as the bytes go. */
  lemma MemoryThroughFile(fs: FileSystem, ctx: FileContext, sinks: Sinks, u: UserMem, others: multiset<int>, fd: int,
                          i: nat,
                          bufs: seq<Buffer>, chunks: seq<seq<byte>>,
                          reader: FileContext, fd2: int, u2: UserMem, others2: multiset<int>, bufs2: seq<Buffer>)
    requires FsOk(fs) && UserOk(u, others) && AllHeld(u, bufs, chunks) && UserOk(u2, others2)
    requires i < |fs.inodes| && fs.inodes[i].size == 0 && OpenOn(fs, ctx, fd, i, 0) && ctx.fds[fd].writable
    requires IsOpen(reader, fd2)
    requires reader.fds[fd2] == Descriptor(true, ctx.fds[fd].inodeID, 0, true, reader.fds[fd2].writable)
    requires AllFit(bufs2)
    ensures var (fs', ctx', u') := WriteFrom(fs, ctx, sinks, u, fd, bufs);
            && u' == u && DataOk(fs')
            && var sent := First(Concat(chunks), MAX_FILE_BYTES);
               ReadInto(fs', reader, u2, fd2, bufs2) ==
                 if BuffersWritable(u2, bufs2, |sent|) then Some(First(sent, Total(bufs2))) else None
  {
    WritesTake(fs, ctx, sinks, u, others, fd, bufs, chunks);
    var fs' := FreshFileHolds(fs, ctx, sinks, fd, i, chunks);
    ReadsSeeSlice(fs', reader, u2, others2, fd2, i, 0, bufs2);
  }

  lemma FreshFileHolds(fs: FileSystem, ctx: FileContext, sinks: Sinks, fd: int, i: nat, chunks: seq<seq<byte>>)
    returns (fs': FileSystem)
    requires FsOk(fs) && i < |fs.inodes| && fs.inodes[i].size == 0 && OpenOn(fs, ctx, fd, i, 0) && ctx.fds[fd].writable
    requires forall j | 0 <= j < |chunks| :: |chunks[j]| <= MAX_IO_BYTES
    ensures fs' == WriteAll(fs, ctx, sinks, fd, chunks).0 && DataOk(fs') && i < |fs'.inodes| && IsFile(fs'.inodes[i])
    ensures LookupByID(fs'.inodes, ctx.fds[fd].inodeID) == Some(i)
    ensures Contents(fs'.inodes[i]) == First(Concat(chunks), MAX_FILE_BYTES)
  {
    WritesAppend(fs, ctx, sinks, fd, i, chunks);
    fs' := WriteAll(fs, ctx, sinks, fd, chunks).0;
    assert Contents(fs.inodes[i]) + Concat(chunks) == Concat(chunks);
  }
}
