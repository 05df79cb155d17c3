/**
 * The write path: writeMMU walks the same chain of entries as readMMU and
 * overwrites each entry it reaches, in place, with the caller's value. The next
 * level is located from the entry as it was BEFORE the overwrite. The PDPTE,
 * PDE and PTE stores are each followed by a full TLB flush. The walk fails with
 * -1 at the first entry that is not present, keeping the stores already made,
 * and succeeds early at a PDPTE or PDE whose original page-size bit is set.
 */
module PageWrite {
  import opened AddressBits
  import opened PageWalk

  /** What the write path does to the machine, in order: a store into physical memory, or a TLB flush. */
  datatype Event = Store(addr: Word, value: Word) | FlushTlb

  /** The status writeMMU returns, the memory it leaves and the events it performed. */
  datatype WriteOutcome = WriteOutcome(status: int, mem: PhysMem, events: seq<Event>)

  /**
   * writeMMU as a function of the memory it starts from. A PML4E that is not
   * present fails at once; otherwise it is overwritten (with no TLB flush) and
   * the walk goes on below the PML4E as it was read.
   */
  function WriteMmuEffect(m: PhysMem, events: seq<Event>, cr3: Word, v: Word, u: PerLevel): (o: WriteOutcome)
    ensures o.status == 0 || o.status == -1
  {
    var s0 := SlotAddress(cr3, Pml4eOffset(v));
    var pml4e := Load(m, s0);
    if !Present(pml4e) then WriteOutcome(-1, m, events)
    else WriteFrom(1, m[s0 := u.pml4e], events + [Store(s0, u.pml4e)], pml4e, v, u)
  }

  /**
   * The write path from position `k` on (1 = PDPTE, 2 = PDE, 3 = PTE), below the
   * entry `parent` as it was read before being overwritten; `events` is what was
   * done so far. The entry is read from memory as the earlier stores left it. If
   * it is not present the path fails; otherwise it is overwritten and the TLB
   * flushed, and the path ends with success at the PTE or at an entry whose
   * page-size bit was set.
   */
  function WriteFrom(k: nat, m: PhysMem, events: seq<Event>, parent: Word, v: Word, u: PerLevel): (o: WriteOutcome)
    requires 1 <= k <= 3
    ensures o.status == 0 || o.status == -1
    decreases 3 - k
  {
    var s := SlotAddress(parent, LevelOffset(k, v));
    var e := Load(m, s);
    if !Present(e) then WriteOutcome(-1, m, events)
    else
      var m' := m[s := u.At(k)];
      var events' := events + [Store(s, u.At(k))] + [FlushTlb];
      if k == 3 || HugePage(e) then WriteOutcome(0, m', events')
      else WriteFrom(k + 1, m', events', e, v, u)
  }

  /** The machine writeMMU acts on: physical memory, and a record of the stores and TLB flushes made. */
  class Machine {
    var mem: PhysMem
    ghost var log: seq<Event>

    constructor (m: PhysMem)
      ensures mem == m && log == []
    {
      mem := m;
      log := [];
    }

    /** Stores one word into physical memory. */
    method StoreWord(a: Word, value: Word)
      modifies this
      ensures mem == old(mem)[a := value]
      ensures log == old(log) + [Store(a, value)]
    {
      mem := mem[a := value];
      log := log + [Store(a, value)];
    }

    /** flush_tlb_all: no effect on memory; only its place among the stores is recorded. */
    method FlushTlbAll()
      modifies this
      ensures mem == old(mem)
      ensures log == old(log) + [FlushTlb]
    {
      log := log + [FlushTlb];
    }

    /** writeMMU: overwrites the entries that map `vaddr` with the four given values. */
    method WriteMmu(cr3: Word, vaddr: Word, upml4e: Word, updpte: Word, upde: Word, upte: Word)
      returns (status: int)
      modifies this
      ensures var o := WriteMmuEffect(old(mem), old(log), cr3, vaddr, PerLevel(upml4e, updpte, upde, upte));
        status == o.status && mem == o.mem && log == o.events
    {
      ghost var u := PerLevel(upml4e, updpte, upde, upte);
      var pml4eSlot := SlotAddress(cr3, Pml4eOffset(vaddr));
      var pml4e := Load(mem, pml4eSlot);
      if !Present(pml4e) {
        return -1;
      }
      StoreWord(pml4eSlot, upml4e);
      ghost var goal := WriteMmuEffect(old(mem), old(log), cr3, vaddr, u);
      assert goal == WriteFrom(1, mem, log, pml4e, vaddr, u);

      var pdpteSlot := SlotAddress(pml4e, PdpteOffset(vaddr));
      var pdpte := Load(mem, pdpteSlot);
      if !Present(pdpte) {
        return -1;
      }
      StoreWord(pdpteSlot, updpte);
      FlushTlbAll();
      if HugePage(pdpte) {
        return 0;
      }
      assert goal == WriteFrom(2, mem, log, pdpte, vaddr, u);

      var pdeSlot := SlotAddress(pdpte, PdeOffset(vaddr));
      var pde := Load(mem, pdeSlot);
      if !Present(pde) {
        return -1;
      }
      StoreWord(pdeSlot, upde);
      FlushTlbAll();
      if HugePage(pde) {
        return 0;
      }
      assert goal == WriteFrom(3, mem, log, pde, vaddr, u);

      var pteSlot := SlotAddress(pde, PteOffset(vaddr));
      var pte := Load(mem, pteSlot);
      if !Present(pte) {
        return -1;
      }
      StoreWord(pteSlot, upte);
      FlushTlbAll();
      return 0;
    }
  }
}
