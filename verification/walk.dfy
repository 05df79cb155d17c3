/**
 * The read path: readMMU walks the four levels of the page table that CR3 roots,
 * over a snapshot of physical memory, and reports the entry found at each level.
 * Below the level where the walk stops (an entry that is not present, or a PDPTE
 * or PDE with the page-size bit) every level is reported as 0.
 */
module PageWalk {
  import opened AddressBits

  /**
   * Physical memory as independent 64-bit words, keyed by physical address; the
   * walker only reads and writes 8-byte-aligned words (its slots). Physical and
   * kernel-virtual addresses coincide (`__va` is the identity); a word that was
   * never stored reads as 0.
   */
  type PhysMem = map<Word, Word>

  function Load(m: PhysMem, a: Word): Word {
    if a in m then m[a] else ZERO
  }

  /**
   * One 64-bit word per level, nearest the root first (positions 0..3 for `At`):
   * the entries of a walk, the physical addresses of their slots, or the new
   * values writeMMU is given.
   */
  datatype PerLevel = PerLevel(pml4e: Word, pdpte: Word, pde: Word, pte: Word) {
    function At(k: nat): Word
      requires k < 4
    {
      match k
      case 0 => pml4e
      case 1 => pdpte
      case 2 => pde
      case 3 => pte
    }
  }

  /** The in-table byte offset of the entry at position `k` of the walk of `v`. */
  function LevelOffset(k: nat, v: Word): (r: bv64)
    requires k < 4
    ensures r < 4096 && r & 7 == 0
  {
    match k
    case 0 => Pml4eOffset(v)
    case 1 => PdpteOffset(v)
    case 2 => PdeOffset(v)
    case 3 => PteOffset(v)
  }

  /**
   * Whether the walk ends at entry `e` found at position `k` (0 = PML4E ...
   * 3 = PTE): it is not present, or it is a PDPTE or PDE with the page-size bit
   * set. Bit 7 of a PML4E is not looked at.
   */
  predicate Terminal(k: nat, e: Word) {
    !Present(e) || ((k == 1 || k == 2) && HugePage(e))
  }

  /**
   * One walk: how many levels it read (1 to 4), the four reported entries, the
   * physical addresses of the slots it read (0 for a level it did not reach), and
   * the reconstructed final address. The slot addresses and the final address are
   * what the source prints for diagnostics.
   */
  datatype Walk = Walk(depth: nat, entries: PerLevel, slots: PerLevel, final: Word)

  /**
   * The walk of readMMU for virtual address `v` under root register `cr3`.
   * It reads the PML4E; if present, the PDPTE; if that is present and not a
   * 1 GiB page, the PDE; if that is present and not a 2 MiB page, the PTE.
   */
  function TableWalk(m: PhysMem, cr3: Word, v: Word): (w: Walk)
    // The PML4E is always read, from the table CR3 points to.
    ensures 1 <= w.depth <= 4
    ensures w.slots.pml4e == SlotAddress(cr3, Pml4eOffset(v))
    ensures w.entries.pml4e == Load(m, w.slots.pml4e)
    // The PDPTE is read exactly when the PML4E is present, from the table the PML4E points to.
    ensures w.depth > 1 <==> Present(w.entries.pml4e)
    ensures w.depth > 1 ==> w.slots.pdpte == SlotAddress(w.entries.pml4e, PdpteOffset(v))
    ensures w.depth > 1 ==> w.entries.pdpte == Load(m, w.slots.pdpte)
    ensures w.depth <= 1 ==> w.entries.pdpte == ZERO && w.slots.pdpte == ZERO
    // The PDE is read exactly when the PDPTE was read, is present and has the page-size bit clear.
    ensures w.depth > 2 <==> w.depth > 1 && Present(w.entries.pdpte) && !HugePage(w.entries.pdpte)
    ensures w.depth > 2 ==> w.slots.pde == SlotAddress(w.entries.pdpte, PdeOffset(v))
    ensures w.depth > 2 ==> w.entries.pde == Load(m, w.slots.pde)
    ensures w.depth <= 2 ==> w.entries.pde == ZERO && w.slots.pde == ZERO
    // The PTE is read exactly when the PDE was read, is present and has the page-size bit clear;
    // it is reported as found, present or not.
    ensures w.depth > 3 <==> w.depth > 2 && Present(w.entries.pde) && !HugePage(w.entries.pde)
    ensures w.depth > 3 ==> w.slots.pte == SlotAddress(w.entries.pde, PteOffset(v))
    ensures w.depth > 3 ==> w.entries.pte == Load(m, w.slots.pte)
    ensures w.depth <= 3 ==> w.entries.pte == ZERO && w.slots.pte == ZERO
    ensures w.final == FinalAddress(v, w.entries.pte)
  {
    var s0 := SlotAddress(cr3, Pml4eOffset(v));
    var pml4e := Load(m, s0);
    if !Present(pml4e) then
      Walk(1, PerLevel(pml4e, ZERO, ZERO, ZERO), PerLevel(s0, ZERO, ZERO, ZERO), FinalAddress(v, ZERO))
    else
      var s1 := SlotAddress(pml4e, PdpteOffset(v));
      var pdpte := Load(m, s1);
      if !Present(pdpte) || HugePage(pdpte) then
        Walk(2, PerLevel(pml4e, pdpte, ZERO, ZERO), PerLevel(s0, s1, ZERO, ZERO), FinalAddress(v, ZERO))
      else
        var s2 := SlotAddress(pdpte, PdeOffset(v));
        var pde := Load(m, s2);
        if !Present(pde) || HugePage(pde) then
          Walk(3, PerLevel(pml4e, pdpte, pde, ZERO), PerLevel(s0, s1, s2, ZERO), FinalAddress(v, ZERO))
        else
          var s3 := SlotAddress(pde, PteOffset(v));
          var pte := Load(m, s3);
          Walk(4, PerLevel(pml4e, pdpte, pde, pte), PerLevel(s0, s1, s2, s3), FinalAddress(v, pte))
  }

  /**
   * The walk looks at physical memory only at the slots it reports: two memories
   * that agree there give the same walk, so nothing below a stopping entry is
   * ever dereferenced.
   */
  lemma {:induction false} WalkReadsOnlyItsSlots(m1: PhysMem, m2: PhysMem, cr3: Word, v: Word)
    requires forall k :: 0 <= k < TableWalk(m1, cr3, v).depth ==>
      Load(m1, TableWalk(m1, cr3, v).slots.At(k)) == Load(m2, TableWalk(m1, cr3, v).slots.At(k))
    ensures TableWalk(m2, cr3, v) == TableWalk(m1, cr3, v)
  {
    var w := TableWalk(m1, cr3, v);
    assert Load(m1, w.slots.At(0)) == Load(m2, w.slots.At(0));
    if 1 < w.depth {
      assert Load(m1, w.slots.At(1)) == Load(m2, w.slots.At(1));
    }
    if 2 < w.depth {
      assert Load(m1, w.slots.At(2)) == Load(m2, w.slots.At(2));
    }
    if 3 < w.depth {
      assert Load(m1, w.slots.At(3)) == Load(m2, w.slots.At(3));
    }
  }

  /** errno value for an invalid argument. */
  const EINVAL: int := 22

  /** The user-space locations readMMU copies the four entries to; 0 is NULL. */
  datatype UserPointers = UserPointers(pml4ep: Word, pdptep: Word, pdep: Word, ptep: Word)

  predicate AnyNull(p: UserPointers) {
    p.pml4ep == ZERO || p.pdptep == ZERO || p.pdep == ZERO || p.ptep == ZERO
  }

  /** What readMMU returns: the walk copied out (status 0), or a negative status. */
  datatype ReadReply = Copied(walk: Walk) | Failed(status: int)

  /**
   * readMMU. A NULL output pointer is refused with -EINVAL whatever memory holds;
   * otherwise the walk is made and copied out, and a failed copy gives -1.
   * `copyFault` stands for copy_to_user reporting bytes it could not copy.
   */
  function ReadMmu(m: PhysMem, cr3: Word, v: Word, out: UserPointers, copyFault: bool): (r: ReadReply)
    ensures r.Failed? <==> AnyNull(out) || copyFault
    ensures AnyNull(out) ==> r.status == -EINVAL
    ensures r.Failed? && !AnyNull(out) ==> r.status == -1
    ensures r.Copied? ==> r.walk == TableWalk(m, cr3, v)
  {
    if AnyNull(out) then Failed(-EINVAL)
    else
      var w := TableWalk(m, cr3, v);
      if copyFault then Failed(-1) else Copied(w)
  }
}
