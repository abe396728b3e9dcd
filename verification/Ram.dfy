/** The bytes of the managed window, and the kernel's clear and copy loops over them. */
module Ram {
  import opened Common
  import opened PhysicalMemory

  /** Byte memory: address `base + i` holds `bytes[i]`. */
  datatype Memory = Memory(base: nat, bytes: seq<byte>) {
    predicate Has(address: int) {
      base <= address < base + |bytes|
    }

    function Load(address: int): byte
      requires Has(address)
    {
      bytes[address - base]
    }

    function Store(address: int, b: byte): Memory
      requires Has(address)
    {
      this.(bytes := bytes[address - base := b])
    }

    predicate HasBlock(address: int, size: nat) {
      base <= address && address + size <= base + |bytes|
    }

    /** clearMemory: the block is zero, the rest is untouched. */
    ghost function Cleared(address: int, size: nat): Memory
      requires HasBlock(address, size)
    {
      this.(bytes := seq(|bytes|, i requires 0 <= i < |bytes| =>
                                    if address <= base + i < address + size then 0 else bytes[i]))
    }

    /** memmove: the destination holds what the source held before the call. */
    ghost function Copied(dst: int, src: int, size: nat): Memory
      requires HasBlock(dst, size) && HasBlock(src, size)
    {
      this.(bytes := seq(|bytes|, i requires 0 <= i < |bytes| =>
                                    if dst <= base + i < dst + size then bytes[i + src - dst] else bytes[i]))
    }
  }

  /** A byte after clearing a block, and after copying one, whether the blocks overlap or not. */
  lemma ByteAfter(m: Memory, dst: int, src: int, size: nat, x: int)
    requires m.HasBlock(dst, size) && m.HasBlock(src, size) && m.Has(x)
    ensures m.Cleared(dst, size).Has(x) && m.Copied(dst, src, size).Has(x)
    ensures m.Cleared(dst, size).Load(x) == if dst <= x < dst + size then 0 else m.Load(x)
    ensures m.Copied(dst, src, size).Load(x) == if dst <= x < dst + size then m.Load(x - dst + src) else m.Load(x)
  {
  }

  class Bytes {
    const base: nat
    const cells: array<byte>

    ghost function View(): Memory
      reads this, cells
    {
      Memory(base, cells[..])
    }

    constructor (base: nat)
      ensures this.base == base && cells.Length == PHYSICAL_MEMORY_SIZE && fresh(cells)
    {
      this.base := base;
      cells := new byte[PHYSICAL_MEMORY_SIZE](_ => 0);
    }

    method Load(address: nat) returns (b: byte)
      requires View().Has(address)
      ensures b == View().Load(address)
    {
      b := cells[address - base];
    }

    method Store(address: nat, b: byte)
      requires View().Has(address)
      modifies cells
      ensures View() == old(View()).Store(address, b)
    {
      cells[address - base] := b;
    }

    method ClearMemory(address: nat, size: nat)
      requires View().HasBlock(address, size)
      modifies cells
      ensures View() == old(View()).Cleared(address, size)
    {
      var at := address - base;
      for i := 0 to size
        invariant forall j | 0 <= j < cells.Length :: cells[j] == if at <= j < at + i then 0 else old(cells[j])
      {
        cells[at + i] := 0;
      }
    }

    /** Correct for every overlap of source and destination. */
    method CopyMemory(dst: nat, src: nat, size: nat)
      requires View().HasBlock(dst, size) && View().HasBlock(src, size)
      modifies cells
      ensures View() == old(View()).Copied(dst, src, size)
    {
      var to, from := dst - base, src - base;
      if dst == src || size == 0 {
        assert cells[..] == old(View()).Copied(dst, src, size).bytes;
        return;
      }
      if dst < src || dst >= src + size {
        for i := 0 to size
          invariant forall j | 0 <= j < cells.Length ::
              cells[j] == if to <= j < to + i then old(cells[j + from - to]) else old(cells[j])
        {
          cells[to + i] := cells[from + i];
        }
      } else {
        for i := size downto 0
          invariant forall j | 0 <= j < cells.Length ::
              cells[j] == if to + i <= j < to + size then old(cells[j + from - to]) else old(cells[j])
        {
          cells[to + i] := cells[from + i];
        }
      }
      assert cells[..] == old(View()).Copied(dst, src, size).bytes;
    }
  }
}
