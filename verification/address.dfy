/**
 * Address arithmetic of x86-64 4-level paging (section 4.5 of the Intel 64 and
 * IA-32 Architectures Software Developer's Manual, Volume 3A): the physical base
 * kept in bits 51:12 of CR3 and of every entry, the four 9-bit indices of a
 * virtual address, and the physical address of the entry slot each index selects.
 */
module AddressBits {

  /**
   * A 64-bit machine word (`unsigned long`): a virtual address, a physical address
   * or a page-table entry. The bits are wrapped so that code which only moves
   * words around reasons about them as values, not bit by bit.
   */
  datatype Word = Word(bits: bv64)

  const ZERO: Word := Word(0)

  /** Bits 51:12, the physical base of a table or of a page. */
  const FRAME_MASK: bv64 := 0x000f_ffff_ffff_f000
  /** Bit 0 of an entry: present. */
  const PRESENT: bv64 := 0x1
  /** Bit 7 of a PDPTE or PDE: page size (the entry maps a 1 GiB or 2 MiB page). */
  const PAGE_SIZE: bv64 := 0x80
  /** Bits 47:0, the part of a virtual address the walk looks at. */
  const LOW_48: bv64 := 0x0000_ffff_ffff_ffff

  predicate Present(e: Word) {
    e.bits & PRESENT != 0
  }

  predicate HugePage(e: Word) {
    e.bits & PAGE_SIZE == PAGE_SIZE
  }

  /**
   * The physical base a root register or an entry points to: bits 51:12 kept,
   * every other bit cleared. `fetch_cr3` applies it to CR3; the walk applies it to
   * each entry to find the next table or the mapped page.
   */
  function FrameBase(x: Word): (r: Word)
    ensures r.bits & 0xfff == 0
    ensures r.bits >> 52 == 0
    ensures (r.bits ^ x.bits) & FRAME_MASK == 0
  {
    Word(x.bits & FRAME_MASK)
  }

  /** The five fields of a virtual address: four 9-bit table indices and the 12-bit page offset. */
  datatype Decoded = Decoded(pml4: bv64, pdpt: bv64, pd: bv64, pt: bv64, offset: bv64)

  function Encode(d: Decoded): bv64 {
    (d.pml4 << 39) | (d.pdpt << 30) | (d.pd << 21) | (d.pt << 12) | d.offset
  }

  /** Splits bits 47:0 of a virtual address into 47:39, 38:30, 29:21, 20:12 and 11:0. */
  function Decode(v: Word): (d: Decoded)
    ensures d.pml4 < 512 && d.pdpt < 512 && d.pd < 512 && d.pt < 512 && d.offset < 4096
    ensures Encode(d) == v.bits & LOW_48
  {
    var b := v.bits;
    Decoded((b >> 39) & 0x1ff, (b >> 30) & 0x1ff, (b >> 21) & 0x1ff, (b >> 12) & 0x1ff, b & 0xfff)
  }

  /** Byte offset of the PML4E inside the PML4 table: bits 47:39 moved down to 11:3. */
  function Pml4eOffset(v: Word): (r: bv64)
    ensures r == Decode(v).pml4 << 3
    ensures r < 4096 && r & 7 == 0
  {
    (v.bits & 0x0000_ff80_0000_0000) >> 36
  }

  /** Byte offset of the PDPTE inside its table: bits 38:30 moved down to 11:3. */
  function PdpteOffset(v: Word): (r: bv64)
    ensures r == Decode(v).pdpt << 3
    ensures r < 4096 && r & 7 == 0
  {
    (v.bits & 0x0000_007f_c000_0000) >> 27
  }

  /** Byte offset of the PDE inside its table: bits 29:21 moved down to 11:3. */
  function PdeOffset(v: Word): (r: bv64)
    ensures r == Decode(v).pd << 3
    ensures r < 4096 && r & 7 == 0
  {
    (v.bits & 0x0000_0000_3fe0_0000) >> 18
  }

  /** Byte offset of the PTE inside its table: bits 20:12 moved down to 11:3. */
  function PteOffset(v: Word): (r: bv64)
    ensures r == Decode(v).pt << 3
    ensures r < 4096 && r & 7 == 0
  {
    (v.bits & 0x0000_0000_001f_f000) >> 9
  }

  /**
   * Physical address of an entry slot: the table `parent` points to, OR'd with the
   * in-table byte offset. The slot is 8-byte aligned and lies inside that 4 KiB
   * table, `offset` bytes from its start.
   */
  function SlotAddress(parent: Word, offset: bv64): (r: Word)
    requires offset < 4096 && offset & 7 == 0
    ensures r.bits & 7 == 0
    ensures r.bits & 0xfff == offset
    ensures r.bits == FrameBase(parent).bits + offset
  {
    Word(offset | FrameBase(parent).bits)
  }

  /** The translated physical address: page offset of `v` within the page the PTE maps. */
  function FinalAddress(v: Word, pte: Word): (r: Word)
    ensures r.bits & 0xfff == Decode(v).offset
    ensures FrameBase(r) == FrameBase(pte)
    ensures r.bits >> 52 == 0
  {
    Word((0xfff & v.bits) | FrameBase(pte).bits)
  }
}
