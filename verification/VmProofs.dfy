/** User copies: round trip, isolation, and how far stack growth goes. */
module VmProofs {
  import opened Common
  import opened PhysicalMemory
  import opened VmModel

  /** Every user translation of the space survives. */
  ghost predicate Keeps(vm: AddressSpace, vm': AddressSpace) {
    forall va: nat, w: bool | At(vm, va, w).Some? :: At(vm', va, w) == At(vm, va, w)
  }

  /** A step that may add a stack page but moves no byte and disturbs no other owner. */
  ghost predicate Grows(u: UserMem, u': UserMem, others: multiset<int>) {
    && UserOk(u', others)
    && u'.ram == u.ram && u'.fr.base == u.fr.base
    && u'.fr.Live(Kernel) == u.fr.Live(Kernel)
    && KernelMapped(u'.vm) == KernelMapped(u.vm)
    && Keeps(u.vm, u'.vm)
  }

  // ----- stack growth -----

  /** Growing takes one fresh page of the user pool and maps it just under the stack. */
  lemma GrowStackGrows(u: UserMem, others: multiset<int>, faultVA: nat)
    requires UserOk(u, others)
    ensures Grows(u, GrowStack(u, faultVA).0, others)
    ensures GrowStack(u, faultVA).0.faulted == u.faulted
  {
    var page := PageAlignDown(faultVA);
    var l := u.vm.layout;
    if l.stackFloor <= page < l.stackTop && page + 4096 == l.stackBase {
      AllocationIsNextFit(u.fr, User, 1);
      if Allocate(u.fr, User, 1).1.Some? {
        PageGrowsStack(u, others, page);
      }
    }
  }

  /** With a page to be had: it is mapped, or given back when the table is full. */
  lemma PageGrowsStack(u: UserMem, others: multiset<int>, page: nat)
    requires UserOk(u, others) && Allocate(u.fr, User, 1).1.Some?
    requires page % 4096 == 0 && STACK_FLOOR <= page && page + 4096 == u.vm.layout.stackBase
    ensures var (fr', phys) := Allocate(u.fr, User, 1);
            var u' := InstallStackPage(u.(fr := fr'), page, phys.value).0;
            Grows(u, u', others) && u'.faulted == u.faulted
  {
    var (fr', phys) := Allocate(u.fr, User, 1);
    NotMappedBelowStack(u.vm, page);
    AllocateStaysInWindow(u.fr, User, 1);
    MapOwnedFillsOneEntry(u.vm.mappings, page, phys.value, User, STACK_PERM);
    if FreeMapping(u.vm.mappings, 0).Some? {
      MapFreshPageGrows(u, others, RefreshGuard(u.vm.layout.(stackBase := page)), page);
    } else {
      PageComesBack(u.fr, phys.value);
    }
  }

  /** Taking a page and giving it back leaves both pools with what was out. */
  lemma PageComesBack(fr: Frames, page: nat)
    requires fr.Ok() && Allocate(fr, User, 1).1 == Some(page)
    ensures var fr' := Release(Allocate(fr, User, 1).0, User, page).0;
            && fr'.Ok() && fr'.base == fr.base
            && fr'.Live(User) == fr.Live(User) && fr'.Live(Kernel) == fr.Live(Kernel)
  {
    AllocateTakesFreshPages(fr, User, 1);
    AllocationIsNextFit(fr, User, 1);
    OnePage(page);
    ReleaseReturnsOnePage(Allocate(fr, User, 1).0, User, page);
  }

  lemma NotMappedBelowStack(vm: AddressSpace, page: nat)
    requires VmOk(vm) && page % 4096 == 0 && STACK_FLOOR <= page < vm.layout.stackBase
    ensures FindMapping(vm.mappings, page, 0).None?
  {
    assert PageAlignDown(page) == page;
  }

  /** Mapping a page just taken from the user pool, under a layout that keeps the stack range clear. */
  lemma MapFreshPageGrows(u: UserMem, others: multiset<int>, l: Layout, page: nat)
    requires UserOk(u, others) && LayoutOk(l) && l.stackBase <= u.vm.layout.stackBase
    requires page % 4096 == 0 && !(STACK_FLOOR <= page < l.stackBase)
    requires FindMapping(u.vm.mappings, page, 0).None? && FreeMapping(u.vm.mappings, 0).Some?
    requires Allocate(u.fr, User, 1).1.Some?
    ensures var (fr', phys) := Allocate(u.fr, User, 1);
            var m := Mapping(page, phys.value, STACK_PERM, User, true, true);
            var k := FreeMapping(u.vm.mappings, 0).value;
            Grows(u, u.(fr := fr', vm := AddressSpace(l, u.vm.mappings[k := m])), others)
  {
    var (fr', phys) := Allocate(u.fr, User, 1);
    var m := Mapping(page, phys.value, STACK_PERM, User, true, true);
    var k := FreeMapping(u.vm.mappings, 0).value;
    InsertKeepsVmOk(u.vm, l, k, m);
    InsertKeepsAll(u.vm, l, k, m);
    FlattenSame(u.vm.mappings, KernelMapping, k, m);
    InsertTakesPage(u, others, k, m);
    AllocationIsNextFit(u.fr, User, 1);
  }

  lemma InsertKeepsAll(vm: AddressSpace, l: Layout, k: nat, m: Mapping)
    requires k < |vm.mappings| && !vm.mappings[k].present
    requires m.present && m.vaddr % 4096 == 0 && FindMapping(vm.mappings, m.vaddr, 0).None?
    ensures Keeps(vm, AddressSpace(l, vm.mappings[k := m]))
  {
    forall va: nat, w: bool | At(vm, va, w).Some?
      ensures At(AddressSpace(l, vm.mappings[k := m]), va, w) == At(vm, va, w)
    {
      InsertKeepsTranslations(vm, l, k, m, va, w);
    }
  }

  /** The page just allocated becomes the page just mapped. */
  lemma InsertTakesPage(u: UserMem, others: multiset<int>, k: nat, m: Mapping)
    requires u.fr.Ok() && multiset(u.fr.Live(User)) == others + UserMapped(u.vm)
    requires k < |u.vm.mappings| && !u.vm.mappings[k].present
    requires Allocate(u.fr, User, 1).1 == Some(m.paddr) && UserMapping(m) == multiset{m.paddr}
    ensures var fr' := Allocate(u.fr, User, 1).0;
            && multiset(fr'.Live(User)) == others + Flatten(u.vm.mappings[k := m], UserMapping)
            && fr'.Live(Kernel) == u.fr.Live(Kernel)
  {
    FlattenUpdate(u.vm.mappings, UserMapping, k, m);
    AllocateTakesFreshPages(u.fr, User, 1);
    OnePage(m.paddr);
    var fr' := Allocate(u.fr, User, 1).0;
    assert multiset(fr'.Live(User)) == multiset(u.fr.Live(User)) + multiset{m.paddr};
  }

  lemma HandleFaultGrows(u: UserMem, others: multiset<int>, faultVA: nat, write: bool)
    requires UserOk(u, others)
    ensures Grows(u, HandleFault(u, faultVA, write).0, others)
  {
    GrowStackGrows(u, others, faultVA);
  }

  lemma ResolveGrows(u: UserMem, others: multiset<int>, vaddr: nat, write: bool)
    requires UserOk(u, others)
    ensures var (u', pa) := Resolve(u, vaddr, write);
            Grows(u, u', others) && (pa.Some? ==> At(u'.vm, vaddr, write) == pa)
  {
    HandleFaultGrows(u, others, vaddr, write);
  }

  /** A fault adds a page only to an empty stack: from then on the page below the stack is the guard page,
      and the guard test comes first. */
  lemma FaultGrowsOnlyAnEmptyStack(u: UserMem, others: multiset<int>, faultVA: nat, write: bool)
    requires UserOk(u, others)
    ensures HandleFault(u, faultVA, write).0.vm != u.vm <==>
            && u.vm.layout.stackBase == USER_STACK_TOP
            && PageAlignDown(faultVA) == USER_STACK_TOP - 4096
            && Allocate(u.fr, User, 1).1.Some?
            && FreeMapping(u.vm.mappings, 0).Some?
  {
    var page := PageAlignDown(faultVA);
    if page == u.vm.layout.stackBase - 4096 && STACK_FLOOR <= page {
      NotMappedBelowStack(u.vm, page);
      SamePage(u.vm.mappings, faultVA);
      AllocateStaysInWindow(u.fr, User, 1);
      var (fr', phys) := Allocate(u.fr, User, 1);
      if phys.Some? {
        MapOwnedFillsOneEntry(u.vm.mappings, page, phys.value, User, STACK_PERM);
      }
    }
  }

  lemma {:induction false} SamePage(ms: seq<Mapping>, vaddr: nat, i: nat := 0)
    requires i <= |ms|
    ensures FindMapping(ms, vaddr, i) == FindMapping(ms, PageAlignDown(vaddr), i)
    decreases |ms| - i
  {
    assert PageAlignDown(PageAlignDown(vaddr)) == PageAlignDown(vaddr);
    if i < |ms| {
      SamePage(ms, vaddr, i + 1);
    }
  }

  /** Growing succeeds exactly for the page right under the stack, above the floor, with a page and an entry to be had.
      The page is then the user's to read and write, the stack starts there, and the guard lies under it; otherwise the
      address space is as it was, and so is what is out of each pool. */
  lemma GrowStackSucceedsIff(u: UserMem, others: multiset<int>, faultVA: nat)
    requires UserOk(u, others)
    ensures var (u', grown) := GrowStack(u, faultVA); var page := PageAlignDown(faultVA);
            && (grown <==>
                  && STACK_FLOOR <= page && page + 4096 == u.vm.layout.stackBase
                  && Allocate(u.fr, User, 1).1.Some? && FreeMapping(u.vm.mappings, 0).Some?)
            && (grown ==> u'.vm.layout == u.vm.layout.(stackBase := page, guardStart := page - 4096, guardEnd := page))
            && (grown ==> forall v: nat, w: bool | page <= v < page + 4096 :: At(u'.vm, v, w).Some?)
            && (!grown ==>
                  u'.vm == u.vm && u'.fr.Live(User) == u.fr.Live(User) && u'.fr.Live(Kernel) == u.fr.Live(Kernel))
  {
    var page := PageAlignDown(faultVA);
    if STACK_FLOOR <= page && page + 4096 == u.vm.layout.stackBase && Allocate(u.fr, User, 1).1.Some? {
      var (fr', phys) := Allocate(u.fr, User, 1);
      NotMappedBelowStack(u.vm, page);
      AllocateStaysInWindow(u.fr, User, 1);
      MapOwnedFillsOneEntry(u.vm.mappings, page, phys.value, User, STACK_PERM);
      if FreeMapping(u.vm.mappings, 0).Some? {
        GrownPageIsMapped(u.vm.mappings, GrowStack(u, faultVA).0.vm, page, phys.value);
      } else {
        PageComesBack(u.fr, phys.value);
      }
    }
  }

  lemma GrownPageIsMapped(ms: seq<Mapping>, vm: AddressSpace, page: nat, phys: nat)
    requires page % 4096 == 0 && FindMapping(ms, page, 0).None? && FreeMapping(ms, 0).Some?
    requires vm.mappings == ms[FreeMapping(ms, 0).value := Mapping(page, phys, STACK_PERM, User, true, true)]
    ensures forall v: nat, w: bool | page <= v < page + 4096 :: At(vm, v, w) == Some(phys + (v - page))
  {
    forall v: nat, w: bool | page <= v < page + 4096 ensures At(vm, v, w) == Some(phys + (v - page)) {
      PageAddressIsMapped(ms, vm, page, phys, v, w);
    }
  }

  lemma PageAddressIsMapped(ms: seq<Mapping>, vm: AddressSpace, page: nat, phys: nat, v: nat, w: bool)
    requires page % 4096 == 0 && FindMapping(ms, page, 0).None? && FreeMapping(ms, 0).Some?
    requires vm.mappings == ms[FreeMapping(ms, 0).value := Mapping(page, phys, STACK_PERM, User, true, true)]
    requires page <= v < page + 4096
    ensures At(vm, v, w) == Some(phys + (v - page))
  {
    assert PageAlignDown(v) == page;
    SamePage(ms, v);
    FindAfterInsert(ms, FreeMapping(ms, 0).value, Mapping(page, phys, STACK_PERM, User, true, true), v, 0);
  }

  /** vmHandleFault answers yes exactly when the address can be accessed by then, and leaves the fault mark alone; it
      answers no exactly when it marks the process faulted. */
  lemma FaultAnswers(u: UserMem, others: multiset<int>, va: nat, write: bool)
    requires UserOk(u, others)
    ensures var (u', ok) := HandleFault(u, va, write);
            && (ok <==> At(u'.vm, va, write).Some?) && u'.faulted == (u.faulted || !ok)
  {
    ReadsAndWritesAgree(u, others, va);
    var (grownU, grown) := GrowStack(u, va);
    GrowStackSucceedsIff(u, others, va);
    GrowStackGrows(u, others, va);
  }

  // ----- distinct user addresses are distinct bytes -----

  /** The physical page a user address lands on, and its place in the table. */
  lemma UserPage(u: UserMem, others: multiset<int>, va: nat, w: bool) returns (i: nat, page: nat)
    requires UserOk(u, others) && At(u.vm, va, w).Some?
    ensures i < |u.vm.mappings| && UserMapping(u.vm.mappings[i]) == multiset{page}
    ensures u.vm.mappings[i].present && u.vm.mappings[i].vaddr == PageAlignDown(va)
    ensures At(u.vm, va, w).value == page + (va - PageAlignDown(va))
    ensures page in u.fr.Live(User) && page in UserMapped(u.vm)
    ensures u.vm.mappings[i].perm == STACK_PERM && FindMapping(u.vm.mappings, va, 0) == Some(i)
  {
    i := FindMapping(u.vm.mappings, va, 0).value;
    page := u.vm.mappings[i].paddr;
    FlattenUpdate(u.vm.mappings, UserMapping, i, u.vm.mappings[i]);
    assert page in UserMapping(u.vm.mappings[i]);
    assert page in multiset(u.fr.Live(User));
  }

  /** Bytes of two different frames, or two offsets of one frame, are different bytes. */
  lemma FrameBytesDiffer(fr: Frames, p: nat, q: nat, i: nat, j: nat)
    requires fr.FrameOf(p).Some? && fr.FrameOf(q).Some? && i < 4096 && j < 4096
    requires p != q || i != j
    ensures p + i != q + j
  {
  }

  lemma UserAddressesAreDistinct(u: UserMem, others: multiset<int>, va: nat, vb: nat, w: bool)
    requires UserOk(u, others) && va != vb && At(u.vm, va, w).Some? && At(u.vm, vb, w).Some?
    ensures At(u.vm, va, w) != At(u.vm, vb, w)
  {
    var i, p := UserPage(u, others, va, w);
    var j, q := UserPage(u, others, vb, w);
    if i != j {
      FlattenPair(u.vm.mappings, UserMapping, if i < j then i else j, if i < j then j else i);
      assert (UserMapping(u.vm.mappings[i]) + UserMapping(u.vm.mappings[j]))[p] <= multiset(u.fr.Live(User))[p] <= 1;
    }
    FrameBytesDiffer(u.fr, p, q, va - PageAlignDown(va), vb - PageAlignDown(vb));
  }

  /** Reads land where writes land: a user page is always both. */
  lemma ReadsAndWritesAgree(u: UserMem, others: multiset<int>, va: nat)
    requires UserOk(u, others)
    ensures At(u.vm, va, false) == At(u.vm, va, true)
    ensures At(u.vm, va, true).Some? ==> u.ram.Has(At(u.vm, va, true).value)
  {
    if At(u.vm, va, true).Some? {
      var i, p := UserPage(u, others, va, true);
    } else if At(u.vm, va, false).Some? {
      var i, p := UserPage(u, others, va, false);
    }
  }

  // ----- copyout -----

  /** The bytes the user sees from `va` on are exactly these. */
  ghost predicate Holds(u: UserMem, va: nat, bytes: seq<byte>) {
    forall v: nat | va <= v < va + |bytes| ::
      At(u.vm, v, true).Some? && Peek(u.ram, At(u.vm, v, true).value) == bytes[v - va]
  }

  /** No address of the range reaches this byte. */
  ghost predicate Misses(vm: AddressSpace, va: nat, n: nat, address: int) {
    forall v: nat | va <= v < va + n :: At(vm, v, true) != Some(address)
  }

  /** A copyout, finished or not, only adds stack pages: every owner keeps its pages. */
  lemma {:induction false} CopyOutGrows(u: UserMem, others: multiset<int>, va: nat, src: seq<byte>)
    requires UserOk(u, others)
    ensures var u' := CopyOut(u, va, src).0;
            |u'.ram.bytes| == |u.ram.bytes| && u'.ram.base == u.ram.base && Grows(u.(ram := u'.ram), u', others)
    decreases |src|
  {
    if src != [] {
      ResolveGrows(u, others, va, true);
      var (u1, pa) := Resolve(u, va, true);
      if pa.Some? {
        CopyOutGrows(u1.(ram := Poke(u1.ram, pa.value, src[0])), others, va + 1, src[1..]);
      }
    }
  }

  /** One turn of the copyout loop that finds its byte. */
  lemma CopyOutTurn(u: UserMem, others: multiset<int>, va: nat, src: seq<byte>) returns (u2: UserMem, pa: nat)
    requires UserOk(u, others) && src != [] && Resolve(u, va, true).1.Some?
    ensures UserOk(u2, others) && CopyOut(u, va, src) == CopyOut(u2, va + 1, src[1..])
    ensures At(u2.vm, va, true) == Some(pa) && Peek(u2.ram, pa) == src[0]
    ensures forall a: nat | a != pa :: Peek(u2.ram, a) == Peek(u.ram, a)
    ensures At(CopyOut(u, va, src).0.vm, va, true) == Some(pa)
  {
    ResolveGrows(u, others, va, true);
    var (u1, at) := Resolve(u, va, true);
    pa := at.value;
    ReadsAndWritesAgree(u1, others, va);
    u2 := u1.(ram := Poke(u1.ram, pa, src[0]));
    CopyOutGrows(u2, others, va + 1, src[1..]);
  }

  /** A copyout writes only bytes that user addresses of the requested range reach. */
  lemma {:induction false} CopyOutWritesOnlyRange(u: UserMem, others: multiset<int>, va: nat, src: seq<byte>, a: nat)
    requires UserOk(u, others)
    requires Misses(CopyOut(u, va, src).0.vm, va, |src|, a)
    ensures Peek(CopyOut(u, va, src).0.ram, a) == Peek(u.ram, a)
    decreases |src|
  {
    if src != [] {
      if Resolve(u, va, true).1.Some? {
        var u2, pa := CopyOutTurn(u, others, va, src);
        CopyOutWritesOnlyRange(u2, others, va + 1, src[1..], a);
      } else {
        ResolveGrows(u, others, va, true);
      }
    }
  }

  /** A finished copyout leaves the source bytes at the user's addresses. */
  lemma {:induction false} CopyOutDelivers(u: UserMem, others: multiset<int>, va: nat, src: seq<byte>)
    requires UserOk(u, others) && CopyOut(u, va, src).1
    ensures Holds(CopyOut(u, va, src).0, va, src)
    decreases |src|
  {
    if src != [] {
      var u2, pa := CopyOutTurn(u, others, va, src);
      CopyOutDelivers(u2, others, va + 1, src[1..]);
      FirstByteStays(u2, others, va, src[1..], pa);
      HoldsCons(CopyOut(u, va, src).0, va, src);
    }
  }

  lemma HoldsCons(u: UserMem, va: nat, bytes: seq<byte>)
    requires bytes != []
    ensures Holds(u, va, bytes) <==>
              && Holds(u, va + 1, bytes[1..])
              && At(u.vm, va, true).Some? && Peek(u.ram, At(u.vm, va, true).value) == bytes[0]
  {
    assert bytes[0] == bytes[va - va];
    if Holds(u, va + 1, bytes[1..]) && At(u.vm, va, true).Some? && Peek(u.ram, At(u.vm, va, true).value) == bytes[0] {
      forall v: nat | va <= v < va + |bytes|
        ensures At(u.vm, v, true).Some? && Peek(u.ram, At(u.vm, v, true).value) == bytes[v - va]
      {
        assert v > va ==> bytes[v - va] == bytes[1..][v - (va + 1)];
      }
    }
    if Holds(u, va, bytes) {
      forall v: nat | va + 1 <= v < va + 1 + |bytes[1..]|
        ensures At(u.vm, v, true).Some? && Peek(u.ram, At(u.vm, v, true).value) == bytes[1..][v - (va + 1)]
      {
        assert bytes[v - va] == bytes[1..][v - (va + 1)];
      }
    }
  }

  lemma FirstByteStays(u: UserMem, others: multiset<int>, va: nat, rest: seq<byte>, pa: nat)
    requires UserOk(u, others) && At(u.vm, va, true) == Some(pa)
    ensures Peek(CopyOut(u, va + 1, rest).0.ram, pa) == Peek(u.ram, pa)
  {
    CopyOutGrows(u, others, va + 1, rest);
    var u' := CopyOut(u, va + 1, rest).0;
    assert At(u'.vm, va, true) == Some(pa);
    forall v: nat | va + 1 <= v < va + 1 + |rest| ensures At(u'.vm, v, true) != Some(pa) {
      if At(u'.vm, v, true).Some? {
        UserAddressesAreDistinct(u', others, va, v, true);
      }
    }
    CopyOutWritesOnlyRange(u, others, va + 1, rest, pa);
  }

  // ----- when a copyout succeeds -----

  /** A fault can still give the process its first stack page. */
  ghost predicate CanGrow(u: UserMem) {
    && u.vm.layout.stackBase == USER_STACK_TOP
    && Allocate(u.fr, User, 1).1.Some? && FreeMapping(u.vm.mappings, 0).Some?
  }

  predicate InTopPage(va: nat) {
    USER_STACK_TOP - 4096 <= va < USER_STACK_TOP
  }

  /** A write at this address lands: the address has a user page, or lies in the one page a fault can still add. */
  ghost predicate Writable(u: UserMem, va: nat) {
    At(u.vm, va, true).Some? || (CanGrow(u) && InTopPage(va))
  }

  ghost predicate AllWritable(u: UserMem, va: nat, n: nat) {
    forall v: nat | va <= v < va + n :: Writable(u, v)
  }

  ghost predicate SameWritable(u: UserMem, u': UserMem) {
    forall v: nat :: Writable(u', v) <==> Writable(u, v)
  }

  /** A fault in the top page of an empty stack adds that page. */
  lemma FirstFaultGrows(u: UserMem, others: multiset<int>, va: nat)
    requires UserOk(u, others) && CanGrow(u) && InTopPage(va) && At(u.vm, va, true).None?
    ensures var (u', pa) := Resolve(u, va, true); pa.Some? && SameWritable(u, u')
  {
    var page, phys := PageAlignDown(va), Allocate(u.fr, User, 1).1.value;
    var k, m := FreeMapping(u.vm.mappings, 0).value, Mapping(page, phys, STACK_PERM, User, true, true);
    NotMappedBelowStack(u.vm, page);
    SamePage(u.vm.mappings, va);
    AllocateStaysInWindow(u.fr, User, 1);
    MapOwnedFillsOneEntry(u.vm.mappings, page, phys, User, STACK_PERM);
    var u' := Resolve(u, va, true).0;
    assert u'.vm.mappings == u.vm.mappings[k := m];
    forall v: nat ensures At(u'.vm, v, true).Some? <==> At(u.vm, v, true).Some? || InTopPage(v) {
      SamePage(u.vm.mappings, v);
      FindAfterInsert(u.vm.mappings, k, m, v, 0);
    }
  }

  /** One turn finds its byte exactly when the address is writable, and then no address gains or loses by it. */
  lemma ResolveSucceedsIff(u: UserMem, others: multiset<int>, va: nat)
    requires UserOk(u, others)
    ensures var (u', pa) := Resolve(u, va, true);
            (pa.Some? <==> Writable(u, va)) && (pa.Some? ==> SameWritable(u, u'))
  {
    if At(u.vm, va, true).None? && CanGrow(u) && InTopPage(va) {
      FirstFaultGrows(u, others, va);
    } else if At(u.vm, va, true).None? {
      UnwritableFaults(u, others, va);
    }
  }

  lemma UnwritableFaults(u: UserMem, others: multiset<int>, va: nat)
    requires UserOk(u, others) && !Writable(u, va)
    ensures Resolve(u, va, true).1.None?
  {
    FaultGrowsOnlyAnEmptyStack(u, others, va, true);
  }

  /** Exactly when a copyout succeeds, told before it starts: every address of the range is writable. It then leaves
      the same addresses writable. */
  lemma {:induction false} CopyOutSucceedsIff(u: UserMem, others: multiset<int>, va: nat, src: seq<byte>)
    requires UserOk(u, others)
    ensures CopyOut(u, va, src).1 <==> AllWritable(u, va, |src|)
    ensures CopyOut(u, va, src).1 ==> SameWritable(u, CopyOut(u, va, src).0)
    decreases |src|, 1
  {
    if src != [] {
      ResolveSucceedsIff(u, others, va);
      if Resolve(u, va, true).1.Some? {
        CopyOutGoesOn(u, others, va, src);
      }
    }
  }

  lemma CopyOutGoesOn(u: UserMem, others: multiset<int>, va: nat, src: seq<byte>)
    requires UserOk(u, others) && src != [] && Writable(u, va)
    requires Resolve(u, va, true).1.Some? && SameWritable(u, Resolve(u, va, true).0)
    ensures CopyOut(u, va, src).1 <==> AllWritable(u, va, |src|)
    ensures CopyOut(u, va, src).1 ==> SameWritable(u, CopyOut(u, va, src).0)
    decreases |src|, 0
  {
    var u1, pa := Resolve(u, va, true).0, Resolve(u, va, true).1.value;
    var u2 := u1.(ram := Poke(u1.ram, pa, src[0]));
    ResolveGrows(u, others, va, true);
    CopyOutSucceedsIff(u2, others, va + 1, src[1..]);
    assert SameWritable(u1, u2);
    assert AllWritable(u, va, |src|) <==> AllWritable(u2, va + 1, |src[1..]|);
  }

  lemma ResolveMarks(u: UserMem, others: multiset<int>, va: nat, write: bool)
    requires UserOk(u, others)
    ensures var (u', pa) := Resolve(u, va, write); u'.faulted == (u.faulted || pa.None?)
  {
    FaultAnswers(u, others, va, write);
  }

  /** A copyout that is refused leaves the process marked faulted, and one that is done leaves the mark as it was. */
  lemma {:induction false} CopyOutMarks(u: UserMem, others: multiset<int>, va: nat, src: seq<byte>)
    requires UserOk(u, others)
    ensures var (u', ok) := CopyOut(u, va, src); u'.faulted == (u.faulted || !ok)
    decreases |src|
  {
    if src != [] {
      ResolveMarks(u, others, va, true);
      ResolveGrows(u, others, va, true);
      var (u1, pa) := Resolve(u, va, true);
      if pa.Some? {
        CopyOutMarks(u1.(ram := Poke(u1.ram, pa.value, src[0])), others, va + 1, src[1..]);
      }
    }
  }

  // ----- copyin and the round trip -----

  /** Reading and writing find the same byte, fault alike and grow alike. */
  lemma ReadResolves(u: UserMem, others: multiset<int>, va: nat)
    requires UserOk(u, others)
    ensures Resolve(u, va, false) == Resolve(u, va, true)
  {
    ReadsAndWritesAgree(u, others, va);
    FaultsAgree(u, others, va);
    HandleFaultGrows(u, others, va, true);
    ReadsAndWritesAgree(HandleFault(u, va, true).0, others, va);
  }

  lemma FaultsAgree(u: UserMem, others: multiset<int>, va: nat)
    requires UserOk(u, others)
    ensures HandleFault(u, va, false) == HandleFault(u, va, true)
  {
    ReadsAndWritesAgree(u, others, va);
    if FindMapping(u.vm.mappings, va, 0).Some? {
      var m := u.vm.mappings[FindMapping(u.vm.mappings, va, 0).value];
      assert UserAccess in m.perm ==> m.perm == STACK_PERM;
    }
  }

  /** A copyin succeeds exactly when every address of the range is writable before it. It is marked faulted exactly as
      it answers, and what it returns is what the user then sees in the range. */
  lemma {:induction false} CopyInAnswers(u: UserMem, others: multiset<int>, va: nat, n: nat)
    requires UserOk(u, others)
    ensures var (u', bytes) := CopyIn(u, va, n);
            && (bytes.Some? <==> AllWritable(u, va, n)) && u'.faulted == (u.faulted || bytes.None?)
            && (bytes.Some? ==> |bytes.value| == n && Holds(u', va, bytes.value))
    decreases n, 1
  {
    if n > 0 {
      if Writable(u, va) {
        CopyInGoesOn(u, others, va, n);
      } else {
        CopyInStops(u, others, va, n);
      }
    }
  }

  lemma CopyInStops(u: UserMem, others: multiset<int>, va: nat, n: nat)
    requires UserOk(u, others) && n > 0 && !Writable(u, va)
    ensures CopyIn(u, va, n).1.None? && CopyIn(u, va, n).0.faulted && !AllWritable(u, va, n)
  {
    ReadResolves(u, others, va);
    ResolveSucceedsIff(u, others, va);
    ResolveMarks(u, others, va, true);
  }

  lemma CopyInGoesOn(u: UserMem, others: multiset<int>, va: nat, n: nat)
    requires UserOk(u, others) && n > 0 && Writable(u, va)
    ensures var (u', bytes) := CopyIn(u, va, n);
            && (bytes.Some? <==> AllWritable(u, va, n)) && u'.faulted == (u.faulted || bytes.None?)
            && (bytes.Some? ==> |bytes.value| == n && Holds(u', va, bytes.value))
    decreases n, 0
  {
    var u1, pa := ReadTurn(u, others, va);
    var u', rest := RestIsRead(u1, others, va + 1, n - 1);
    WritableCons(u, u1, va, n);
    DrawnByteHolds(u, u1, u', va, n, pa, rest);
  }

  lemma RestIsRead(u: UserMem, others: multiset<int>, va: nat, n: nat) returns (u': UserMem, bytes: Option<seq<byte>>)
    requires UserOk(u, others)
    ensures CopyIn(u, va, n) == (u', bytes) && Keeps(u.vm, u'.vm) && u'.ram == u.ram
    ensures (bytes.Some? <==> AllWritable(u, va, n)) && u'.faulted == (u.faulted || bytes.None?)
    ensures bytes.Some? ==> |bytes.value| == n && Holds(u', va, bytes.value)
    decreases n, 2
  {
    CopyInAnswers(u, others, va, n);
    CopyInGrows(u, others, va, n);
    u', bytes := CopyIn(u, va, n).0, CopyIn(u, va, n).1;
  }

  lemma ReadTurn(u: UserMem, others: multiset<int>, va: nat) returns (u1: UserMem, pa: nat)
    requires UserOk(u, others) && Writable(u, va)
    ensures Resolve(u, va, false) == (u1, Some(pa)) && At(u1.vm, va, true) == Some(pa)
    ensures UserOk(u1, others) && SameWritable(u, u1) && u1.faulted == u.faulted
  {
    ReadResolves(u, others, va);
    ResolveSucceedsIff(u, others, va);
    ResolveMarks(u, others, va, true);
    ResolveGrows(u, others, va, true);
    u1, pa := Resolve(u, va, true).0, Resolve(u, va, true).1.value;
  }

  lemma WritableCons(u: UserMem, u1: UserMem, va: nat, n: nat)
    requires n > 0 && Writable(u, va) && SameWritable(u, u1)
    ensures AllWritable(u, va, n) <==> AllWritable(u1, va + 1, n - 1)
  {
  }

  /** The first byte and the rest of them. */
  lemma DrawnByteHolds(u: UserMem, u1: UserMem, u': UserMem, va: nat, n: nat, pa: nat, rest: Option<seq<byte>>)
    requires n > 0 && Resolve(u, va, false) == (u1, Some(pa)) && At(u1.vm, va, true) == Some(pa)
    requires CopyIn(u1, va + 1, n - 1) == (u', rest) && Keeps(u1.vm, u'.vm) && u'.ram == u1.ram
    requires rest.Some? ==> |rest.value| == n - 1 && Holds(u', va + 1, rest.value)
    ensures var bytes := CopyIn(u, va, n).1;
            && CopyIn(u, va, n).0 == u' && (bytes.Some? <==> rest.Some?)
            && (bytes.Some? ==> |bytes.value| == n && Holds(u', va, bytes.value))
  {
    var bytes := CopyIn(u, va, n).1;
    if rest.Some? {
      assert bytes.value == [Peek(u1.ram, pa)] + rest.value;
      assert bytes.value[1..] == rest.value;
      HoldsCons(u', va, bytes.value);
    }
  }

  /** Where the user sees these bytes, copyin changes nothing and returns them. */
  lemma {:induction false} CopyInReads(u: UserMem, others: multiset<int>, va: nat, bytes: seq<byte>)
    requires UserOk(u, others) && Holds(u, va, bytes)
    ensures CopyIn(u, va, |bytes|) == (u, Some(bytes))
    decreases |bytes|
  {
    if bytes != [] {
      HoldsCons(u, va, bytes);
      ReadsAndWritesAgree(u, others, va);
      CopyInReads(u, others, va + 1, bytes[1..]);
      assert [bytes[0]] + bytes[1..] == bytes;
    }
  }

  /** What copyout wrote, copyin reads back, across pages and across stack growth in the middle. */
  lemma CopyRoundTrip(u: UserMem, others: multiset<int>, va: nat, src: seq<byte>)
    requires UserOk(u, others) && CopyOut(u, va, src).1
    ensures var u' := CopyOut(u, va, src).0;
            CopyIn(u', va, |src|) == (u', Some(src))
  {
    CopyOutGrows(u, others, va, src);
    CopyOutDelivers(u, others, va, src);
    CopyInReads(CopyOut(u, va, src).0, others, va, src);
  }

  /** Copyout changes no byte of a page that someone else holds: no other process's page, no kernel page. */
  lemma CopyOutIsIsolated(u: UserMem, others: multiset<int>, va: nat, src: seq<byte>, page: nat, offset: nat)
    requires UserOk(u, others) && offset < 4096
    requires page in others || page in u.fr.Live(Kernel)
    ensures Peek(CopyOut(u, va, src).0.ram, page + offset) == Peek(u.ram, page + offset)
  {
    CopyOutGrows(u, others, va, src);
    var u' := CopyOut(u, va, src).0;
    forall v: nat | va <= v < va + |src| ensures At(u'.vm, v, true) != Some(page + offset) {
      if At(u'.vm, v, true).Some? {
        UserMissesOthers(u', others, v, page, offset);
      }
    }
    CopyOutWritesOnlyRange(u, others, va, src, page + offset);
  }

  lemma UserMissesOthers(u: UserMem, others: multiset<int>, v: nat, page: nat, offset: nat)
    requires UserOk(u, others) && offset < 4096 && At(u.vm, v, true).Some?
    requires page in others || page in u.fr.Live(Kernel)
    ensures At(u.vm, v, true) != Some(page + offset)
  {
    var i, mine := UserPage(u, others, v, true);
    OwnerIsUnique(u, others, mine);
    if page in others {
      assert page in multiset(u.fr.Live(User));
    }
    FrameBytesDiffer(u.fr, page, mine, offset, v - PageAlignDown(v));
  }

  lemma OwnerIsUnique(u: UserMem, others: multiset<int>, page: int)
    requires UserOk(u, others) && page in UserMapped(u.vm)
    ensures page !in others && page !in u.fr.Live(Kernel)
  {
    assert (others + UserMapped(u.vm))[page] == multiset(u.fr.Live(User))[page] <= 1;
    assert page in multiset(u.fr.Live(User));
  }

  /** Copyin moves no byte and disturbs no owner, whether it succeeds or faults. */
  lemma {:induction false} CopyInGrows(u: UserMem, others: multiset<int>, va: nat, n: nat)
    requires UserOk(u, others)
    ensures Grows(u, CopyIn(u, va, n).0, others)
    decreases n
  {
    if n > 0 {
      ResolveGrows(u, others, va, false);
      var (u1, pa) := Resolve(u, va, false);
      if pa.Some? {
        CopyInGrows(u1, others, va + 1, n - 1);
      }
    }
  }
}
