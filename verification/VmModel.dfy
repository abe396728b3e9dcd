/** Address spaces of phase5_vm.go as values: the page table, stack growth, and user copies. */
module VmModel {
  import opened Common
  import opened PhysicalMemory
  import opened Ram
  import opened Loops

  const MAX_MAPPINGS: nat := 128
  const USER_TEXT_START: nat := 0x0010_0000
  const USER_DATA_START: nat := 0x0020_0000
  const USER_STACK_TOP: nat := 0x7FFF_0000
  const STACK_FLOOR: nat := 0x7FFE_0000
  const TRAP_PAGE: nat := 0x7FFF_F000
  const NO_GUARD: nat := 0

  datatype Permission = Read | Write | Exec | UserAccess
  const STACK_PERM: set<Permission> := {Read, Write, UserAccess}

  datatype Mapping = Mapping(vaddr: nat, paddr: nat, perm: set<Permission>, pool: Pool, present: bool, owned: bool)
  const NO_MAPPING: Mapping := Mapping(0, 0, {}, Kernel, false, false)

  datatype Layout = Layout(textStart: nat, dataStart: nat, stackTop: nat, stackBase: nat, stackFloor: nat,
                           guardStart: nat, guardEnd: nat, trapPage: nat)

  datatype AddressSpace = AddressSpace(layout: Layout, mappings: seq<Mapping>)

  function NoMappings(): seq<Mapping> {
    seq(MAX_MAPPINGS, _ => NO_MAPPING)
  }

  /** vmAddressSpace{} */
  function ZeroSpace(): AddressSpace {
    AddressSpace(Layout(0, 0, 0, 0, 0, 0, 0, 0), NoMappings())
  }

  /** vmInitAddressSpace */
  function FreshSpace(): AddressSpace {
    AddressSpace(Layout(USER_TEXT_START, USER_DATA_START, USER_STACK_TOP, USER_STACK_TOP, STACK_FLOOR,
                        NO_GUARD, NO_GUARD, TRAP_PAGE), NoMappings())
  }

  // ----- page table -----

  function FindMapping(ms: seq<Mapping>, vaddr: nat, i: nat): (r: Option<nat>)
    requires i <= |ms|
    ensures r.Some? ==> i <= r.value < |ms| && ms[r.value].present && ms[r.value].vaddr == PageAlignDown(vaddr)
    ensures r.None? ==> forall k | i <= k < |ms| && ms[k].present :: ms[k].vaddr != PageAlignDown(vaddr)
    decreases |ms| - i
  {
    if i == |ms| then None
    else if ms[i].present && ms[i].vaddr == PageAlignDown(vaddr) then Some(i)
    else FindMapping(ms, vaddr, i + 1)
  }

  function FreeMapping(ms: seq<Mapping>, i: nat): (r: Option<nat>)
    requires i <= |ms|
    ensures r.Some? ==> i <= r.value < |ms| && !ms[r.value].present
    ensures r.None? ==> forall k | i <= k < |ms| :: ms[k].present
    decreases |ms| - i
  {
    if i == |ms| then None else if !ms[i].present then Some(i) else FreeMapping(ms, i + 1)
  }

  /** vmMapPage: remapping keeps the entry's owner and pool. */
  function MapPage(ms: seq<Mapping>, vaddr: nat, paddr: nat, perm: set<Permission>): Option<seq<Mapping>> {
    if vaddr % 4096 != 0 || paddr % 4096 != 0 then None
    else
      match FindMapping(ms, vaddr, 0)
      case Some(i) => Some(ms[i := ms[i].(paddr := paddr, perm := perm, present := true)])
      case None =>
        match FreeMapping(ms, 0)
        case Some(i) => Some(ms[i := Mapping(vaddr, paddr, perm, Kernel, true, false)])
        case None => None
  }

  function MapOwnedPage(ms: seq<Mapping>, vaddr: nat, paddr: nat, pool: Pool,
                        perm: set<Permission>): Option<seq<Mapping>> {
    match MapPage(ms, vaddr, paddr, perm)
    case None => None
    case Some(ms') =>
      match FindMapping(ms', vaddr, 0)
      case None => None
      case Some(i) => Some(ms'[i := ms'[i].(owned := true, pool := pool)])
  }

  function Translate(ms: seq<Mapping>, vaddr: nat, required: set<Permission>, requireUser: bool): Option<nat> {
    match FindMapping(ms, vaddr, 0)
    case None => None
    case Some(i) =>
      if !(required <= ms[i].perm) || (requireUser && UserAccess !in ms[i].perm) then None
      else Some(ms[i].paddr + (vaddr - PageAlignDown(vaddr)))
  }

  /** Where a user access of this kind lands. */
  function At(vm: AddressSpace, vaddr: nat, write: bool): Option<nat> {
    Translate(vm.mappings, vaddr, if write then {Write} else {Read}, true)
  }

  // ----- stack growth and copies -----

  /** Everything a user copy of one process can touch. */
  datatype UserMem = UserMem(fr: Frames, vm: AddressSpace, faulted: bool, ram: Memory)

  function RefreshGuard(l: Layout): Layout {
    if l.stackBase == l.stackTop then l.(guardStart := NO_GUARD, guardEnd := NO_GUARD)
    else l.(guardStart := if l.stackBase >= 4096 then l.stackBase - 4096 else 0, guardEnd := l.stackBase)
  }

  /** Map a page just taken under the stack, or give it back when the table is full. */
  ghost function InstallStackPage(u: UserMem, page: nat, phys: nat): (UserMem, bool) {
    match MapOwnedPage(u.vm.mappings, page, phys, User, STACK_PERM)
    case None => (u.(fr := Release(u.fr, User, phys).0), false)
    case Some(ms) => (u.(vm := AddressSpace(RefreshGuard(u.vm.layout.(stackBase := page)), ms)), true)
  }

  ghost function GrowStack(u: UserMem, faultVA: nat): (UserMem, bool) {
    var page := PageAlignDown(faultVA);
    var l := u.vm.layout;
    if page >= l.stackTop || page < l.stackFloor || page + 4096 != l.stackBase then (u, false)
    else
      var (fr', phys) := Allocate(u.fr, User, 1);
      if phys.None? then (u.(fr := fr'), false) else InstallStackPage(u.(fr := fr'), page, phys.value)
  }

  ghost function HandleFault(u: UserMem, faultVA: nat, write: bool): (UserMem, bool) {
    var l := u.vm.layout;
    if Translate(u.vm.mappings, faultVA, if write then {Read, Write} else {Read}, true).Some? then (u, true)
    else if l.guardStart != NO_GUARD && l.guardStart <= faultVA < l.guardEnd then (u.(faulted := true), false)
    else
      var (u', grown) := GrowStack(u, faultVA);
      if grown then (u', true) else (u'.(faulted := true), false)
  }

  /** One turn of a copy loop: translate, on a miss fault and translate again. */
  ghost function Resolve(u: UserMem, vaddr: nat, write: bool): (UserMem, Option<nat>) {
    if At(u.vm, vaddr, write).Some? then (u, At(u.vm, vaddr, write))
    else
      var (u', ok) := HandleFault(u, vaddr, write);
      if !ok then (u', None)
      else if At(u'.vm, vaddr, write).None? then (u'.(faulted := true), None)
      else (u', At(u'.vm, vaddr, write))
  }

  /** Raw byte access; nothing lies outside the managed window. */
  function Peek(m: Memory, address: nat): byte {
    if m.Has(address) then m.Load(address) else 0
  }

  function Poke(m: Memory, address: nat, b: byte): Memory {
    if m.Has(address) then m.Store(address, b) else m
  }

  /** One byte of a copyin. */
  ghost function LoadOne(u: UserMem, vaddr: nat): (UserMem, Option<byte>) {
    var (u', pa) := Resolve(u, vaddr, false);
    (u', if pa.None? then None else Some(Peek(u'.ram, pa.value)))
  }

  /** One byte of a copyout. */
  ghost function StoreOne(u: UserMem, vaddr: nat, b: byte): (UserMem, bool) {
    var (u', pa) := Resolve(u, vaddr, true);
    if pa.None? then (u', false) else (u'.(ram := Poke(u'.ram, pa.value, b)), true)
  }

  ghost function CopyIn(u: UserMem, vaddr: nat, n: nat): (UserMem, Option<seq<byte>>) {
    Draw(LoadOne, u, vaddr, n)
  }

  ghost function CopyOut(u: UserMem, vaddr: nat, src: seq<byte>): (UserMem, bool) {
    Feed(StoreOne, u, vaddr, src)
  }

  // ----- what an address space owns -----

  ghost function KernelMapping(m: Mapping): multiset<int> {
    if m.present && m.owned && m.pool == Kernel then multiset{m.paddr} else multiset{}
  }

  ghost function UserMapping(m: Mapping): multiset<int> {
    if m.present && m.owned && m.pool == User then multiset{m.paddr} else multiset{}
  }

  ghost function KernelMapped(vm: AddressSpace): multiset<int> {
    Flatten(vm.mappings, KernelMapping)
  }

  ghost function UserMapped(vm: AddressSpace): multiset<int> {
    Flatten(vm.mappings, UserMapping)
  }

  /** Every mapping is an owned page; what the user can reach is a read-write page of the user pool. */
  ghost predicate MappingOk(m: Mapping) {
    && m.owned && m.vaddr % 4096 == 0
    && (UserAccess in m.perm ==> m.pool == User && m.perm == STACK_PERM)
  }

  ghost predicate LayoutOk(l: Layout) {
    && l.stackTop == USER_STACK_TOP && l.stackFloor == STACK_FLOOR && l.trapPage == TRAP_PAGE
    && STACK_FLOOR <= l.stackBase <= USER_STACK_TOP && l.stackBase % 4096 == 0
    && l == RefreshGuard(l)
  }

  ghost predicate VmOk(vm: AddressSpace) {
    && |vm.mappings| == MAX_MAPPINGS
    && LayoutOk(vm.layout)
    && (forall i | 0 <= i < |vm.mappings| && vm.mappings[i].present ::
          MappingOk(vm.mappings[i]) && !(STACK_FLOOR <= vm.mappings[i].vaddr < vm.layout.stackBase))
    && (forall i, j | 0 <= i < j < |vm.mappings| && vm.mappings[i].present && vm.mappings[j].present ::
          vm.mappings[i].vaddr != vm.mappings[j].vaddr)
  }

  /** The user pool's live pages are exactly this process's and what others hold, each page once. */
  ghost predicate UserOk(u: UserMem, others: multiset<int>) {
    && u.fr.Ok() && VmOk(u.vm)
    && u.ram.base == u.fr.base && |u.ram.bytes| == PHYSICAL_MEMORY_SIZE
    && multiset(u.fr.Live(User)) == others + UserMapped(u.vm)
  }

  lemma {:induction false} FindAfterInsert(ms: seq<Mapping>, k: nat, m: Mapping, vaddr: nat, i: nat)
    requires i <= |ms| && k < |ms| && !ms[k].present
    requires m.present && m.vaddr % 4096 == 0
    ensures m.vaddr != PageAlignDown(vaddr) ==> FindMapping(ms[k := m], vaddr, i) == FindMapping(ms, vaddr, i)
    ensures m.vaddr == PageAlignDown(vaddr) && FindMapping(ms, vaddr, i).None? && i <= k ==>
              FindMapping(ms[k := m], vaddr, i) == Some(k)
    decreases |ms| - i
  {
    if i < |ms| {
      FindAfterInsert(ms, k, m, vaddr, i + 1);
    }
  }

  /** A page just mapped is found again, so mapping an owned page fails only where mapping a page fails. */
  lemma {:induction false} MappedIsFound(ms: seq<Mapping>, k: nat, m: Mapping, i: nat)
    requires i <= k < |ms| && m.present && m.vaddr % 4096 == 0
    ensures FindMapping(ms[k := m], m.vaddr, i).Some?
    decreases |ms| - i
  {
    if i < k {
      MappedIsFound(ms, k, m, i + 1);
    }
  }

  lemma MapOwnedFailsWithMap(ms: seq<Mapping>, vaddr: nat, paddr: nat, pool: Pool, perm: set<Permission>)
    ensures MapOwnedPage(ms, vaddr, paddr, pool, perm).None? <==> MapPage(ms, vaddr, paddr, perm).None?
  {
    if vaddr % 4096 == 0 && paddr % 4096 == 0 {
      var entry := FindMapping(ms, vaddr, 0);
      if entry.Some? {
        MappedIsFound(ms, entry.value, ms[entry.value].(paddr := paddr, perm := perm, present := true), 0);
      } else if FreeMapping(ms, 0).Some? {
        MappedIsFound(ms, FreeMapping(ms, 0).value, Mapping(vaddr, paddr, perm, Kernel, true, false), 0);
      }
    }
  }

  /** The entry holds the page at `vaddr`. */
  predicate MapsPage(ms: seq<Mapping>, i: int, vaddr: nat) {
    0 <= i < |ms| && ms[i].present && ms[i].vaddr == vaddr
  }

  /** Mapping succeeds exactly when both addresses are aligned and the page has an entry or one is free. That entry
      alone changes: an entry the page had keeps its owner and pool, a new one is nobody's yet. */
  lemma MapPageOutcome(ms: seq<Mapping>, vaddr: nat, paddr: nat, perm: set<Permission>) returns (k: nat)
    ensures var r := MapPage(ms, vaddr, paddr, perm);
            && (r.Some? <==>
                  && vaddr % 4096 == 0 && paddr % 4096 == 0
                  && exists i | 0 <= i < |ms| :: MapsPage(ms, i, vaddr) || !ms[i].present)
            && (r.Some? ==>
                  && k < |ms| && if exists i :: MapsPage(ms, i, vaddr)
                  then MapsPage(ms, k, vaddr) && r.value == ms[k := ms[k].(paddr := paddr, perm := perm)]
                       && forall j | 0 <= j < k :: !MapsPage(ms, j, vaddr)
                  else !ms[k].present && r.value == ms[k := Mapping(vaddr, paddr, perm, Kernel, true, false)]
                       && forall j | 0 <= j < k :: ms[j].present)
  {
    k := 0;
    if vaddr % 4096 == 0 && paddr % 4096 == 0 {
      assert PageAlignDown(vaddr) == vaddr;
      var entry, free := FindMapping(ms, vaddr, 0), FreeMapping(ms, 0);
      if entry.Some? {
        k := entry.value;
        assert MapsPage(ms, k, vaddr);
        FindMappingIsFirst(ms, vaddr, 0);
      } else if free.Some? {
        k := free.value;
        FreeMappingIsFirst(ms, 0);
      }
    }
  }

  /** Mapping an owned page is mapping it and marking its entry owned, from the pool. */
  lemma MapOwnedMarks(ms: seq<Mapping>, vaddr: nat, paddr: nat, pool: Pool, perm: set<Permission>) returns (k: nat)
    requires MapPage(ms, vaddr, paddr, perm).Some?
    ensures var mapped := MapPage(ms, vaddr, paddr, perm).value;
            && k < |mapped| && MapsPage(mapped, k, vaddr) && (forall i | 0 <= i < k :: !MapsPage(mapped, i, vaddr))
            && MapOwnedPage(ms, vaddr, paddr, pool, perm) == Some(mapped[k := mapped[k].(owned := true, pool := pool)])
  {
    var mapped := MapPage(ms, vaddr, paddr, perm).value;
    assert PageAlignDown(vaddr) == vaddr;
    MapOwnedFailsWithMap(ms, vaddr, paddr, pool, perm);
    k := FindMapping(mapped, vaddr, 0).value;
    FindMappingIsFirst(mapped, vaddr, 0);
  }

  lemma {:induction false} FindMappingIsFirst(ms: seq<Mapping>, vaddr: nat, i: nat)
    requires i <= |ms|
    ensures var r := FindMapping(ms, vaddr, i);
            r.Some? ==> forall j | i <= j < r.value :: !MapsPage(ms, j, PageAlignDown(vaddr))
    decreases |ms| - i
  {
    if i < |ms| {
      FindMappingIsFirst(ms, vaddr, i + 1);
    }
  }

  lemma {:induction false} FreeMappingIsFirst(ms: seq<Mapping>, i: nat)
    requires i <= |ms|
    ensures var r := FreeMapping(ms, i); r.Some? ==> forall j | i <= j < r.value :: ms[j].present
    decreases |ms| - i
  {
    if i < |ms| {
      FreeMappingIsFirst(ms, i + 1);
    }
  }

  /** Where no two entries hold the same page, an address translates exactly when the entry of its page grants what is
      required, to the byte at its offset in the page behind it. */
  lemma TranslateGrants(ms: seq<Mapping>, va: nat, required: set<Permission>, requireUser: bool, pa: nat)
    requires forall i, j | 0 <= i < j < |ms| && ms[i].present && ms[j].present :: ms[i].vaddr != ms[j].vaddr
    ensures Translate(ms, va, required, requireUser) == Some(pa) <==>
              exists i | MapsPage(ms, i, PageAlignDown(va)) ::
                && required <= ms[i].perm && (requireUser ==> UserAccess in ms[i].perm)
                && pa == ms[i].paddr + va % 4096
  {
    assert va - PageAlignDown(va) == va % 4096;
    var i := FindMapping(ms, va, 0);
    if i.Some? {
      assert MapsPage(ms, i.value, PageAlignDown(va));
    }
  }

  /** Mapping a page at an address that has none fills one empty entry, and fails only when there is none. */
  lemma MapOwnedFillsOneEntry(ms: seq<Mapping>, vaddr: nat, paddr: nat, pool: Pool, perm: set<Permission>)
    requires vaddr % 4096 == 0 && paddr % 4096 == 0 && FindMapping(ms, vaddr, 0).None?
    ensures var r := MapOwnedPage(ms, vaddr, paddr, pool, perm);
            && (r.None? <==> FreeMapping(ms, 0).None?)
            && (r.Some? ==> r.value == ms[FreeMapping(ms, 0).value := Mapping(vaddr, paddr, perm, pool, true, true)])
  {
    var free := FreeMapping(ms, 0);
    if free.Some? {
      FindAfterInsert(ms, free.value, Mapping(vaddr, paddr, perm, Kernel, true, false), vaddr, 0);
    }
  }

  /** Filling an empty entry with a new page keeps an address space in order. */
  lemma InsertKeepsVmOk(vm: AddressSpace, l: Layout, k: nat, m: Mapping)
    requires VmOk(vm) && LayoutOk(l) && l.stackBase <= vm.layout.stackBase
    requires k < |vm.mappings| && !vm.mappings[k].present
    requires MappingOk(m) && FindMapping(vm.mappings, m.vaddr, 0).None? && !(STACK_FLOOR <= m.vaddr < l.stackBase)
    ensures VmOk(AddressSpace(l, vm.mappings[k := m]))
  {
  }

  /** Filling an empty entry keeps every translation the space had. */
  lemma InsertKeepsTranslations(vm: AddressSpace, l: Layout, k: nat, m: Mapping, va: nat, w: bool)
    requires k < |vm.mappings| && !vm.mappings[k].present
    requires m.present && m.vaddr % 4096 == 0 && FindMapping(vm.mappings, m.vaddr, 0).None?
    requires At(vm, va, w).Some?
    ensures At(AddressSpace(l, vm.mappings[k := m]), va, w) == At(vm, va, w)
  {
    FindAfterInsert(vm.mappings, k, m, va, 0);
  }
}
