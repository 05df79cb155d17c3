# x86-64 page-table walker: readMMU and writeMMU

A Dafny model of the page-table walker in `csc256.c`. It covers two system
calls:

- `readMMU` reports, for a virtual address, the PML4E, PDPTE, PDE and PTE that
  map it.
- `writeMMU` overwrites those entries in place.

Both walk the 4-level paging structures of section 4.5 of the Intel 64 and
IA-32 Architectures Software Developer's Manual, Volume 3A, starting from the
table CR3 points to.

The model has four modules:

- `AddressBits` (`address.dfy`) holds the 64-bit arithmetic. `FrameBase` keeps
  bits 51:12, as `fetch_cr3` does and as each entry is masked. The four 9-bit
  indices are cut from a virtual address and moved to bits 11:3. `SlotAddress`
  ORs that offset with the parent's frame base to give the physical address of
  an entry slot. `FinalAddress` is the reconstructed physical address. A machine
  word is a `bv64`, wrapped in the datatype `Word`.
- `PageWalk` (`walk.dfy`) models `readMMU` as a function over a snapshot of
  physical memory. Physical memory is a map from word addresses to words, and
  `__va` is the identity. `TableWalk` is the walk with its zero-fill. `ReadMmu`
  adds the NULL-pointer check and the copy-out.
- `PageWrite` (`write.dfy`) models `writeMMU` as the method `Machine.WriteMmu`
  on a class that owns physical memory. The method stores into memory in place,
  with the source's early returns. A ghost log records every store and every
  `flush_tlb_all`. The method is specified by the function `WriteMmuEffect`.
- `WriteFacts` (`write_facts.dfy`) relates the write path to the read walk:
  - which slots it stores into and in what order;
  - where the TLB flushes fall;
  - when it fails, and that a failure is not rolled back;
  - that nothing outside the walk changes;
  - what a later `readMMU` reports;
  - that the save-overwrite-restore sequence of `test3.c` restores memory.

CR3 is a parameter, because reading the register is hardware. A failing
`copy_to_user` is a boolean parameter, because it is user-memory I/O.

The write path rereads memory after each store, but it finds the next table
from the entry as it was before the store. So its walk is guaranteed to match
`readMMU`'s walk only when no slot of the walk is a slot of an earlier level (`DistinctSlots`).
The lemmas that compare the two paths assume this. `WriteBackLeavesMemory`
does not need it.

writeMMU also refuses a PTE that is not present (csc256.c:308-311), although
no lower level is found through it. `WriteFrom` checks presence at every level,
including the PTE.

## Model

| member | source | states |
|---|---|---|
| AddressBits.FrameBase | csc256.c:21-27 | the base that `fetch_cr3`, and the mask applied to each entry, produce has bits 11:0 and 63:52 clear and agrees with its input on bits 51:12 |
| AddressBits.Decode | csc256.c:88-96 | a virtual address splits into four indices below 512 and a 12-bit offset, and these fields put back together give exactly bits 47:0 of the address |
| AddressBits.Pml4eOffset | csc256.c:89-96 | the masked and shifted PML4 bits equal index bits 47:39 times 8: an 8-byte-aligned offset below 4096 |
| AddressBits.PdpteOffset | csc256.c:115-119 | the PDPT offset is index bits 38:30 times 8, 8-byte aligned and below 4096 |
| AddressBits.PdeOffset | csc256.c:138-142 | the PD offset is index bits 29:21 times 8, 8-byte aligned and below 4096 |
| AddressBits.PteOffset | csc256.c:161-165 | the PT offset is index bits 20:12 times 8, 8-byte aligned and below 4096 |
| AddressBits.SlotAddress | csc256.c:118-119 | an entry slot is 8-byte aligned and sits `offset` bytes into the 4 KiB table that the parent's bits 51:12 name: the OR is an addition |
| AddressBits.FinalAddress | csc256.c:199 | the translated address has the page offset of the virtual address in bits 11:0, the PTE's frame in bits 51:12, and nothing above bit 51 |
| PageWalk.TableWalk | csc256.c:88-177 | the PML4E is read from CR3's table. Each lower level is read exactly when the entry above is present and, for a PDPTE or PDE, has PS clear. Its slot comes from that entry's frame base. Levels not reached are reported as 0. A PTE is reported as read, present or not. The final address is built from the reported PTE |
| PageWalk.WalkReadsOnlyItsSlots | csc256.c:99-168 | two memories that agree on the slots the walk reports give the same walk, so no word below a stopping entry is read |
| PageWalk.ReadMmu | csc256.c:75-208 | a NULL output pointer gives -EINVAL whatever memory holds. Otherwise a copy fault gives -1, and success reports `TableWalk` of the unchanged memory |
| PageWrite.WriteMmuEffect | csc256.c:217-245 | writeMMU returns only 0 or -1. Its stores, flushes and failures along the walk are stated by `WriteFacts.WriteFollowsReadWalk` |
| PageWrite.WriteFrom | csc256.c:247-317 | the write path below the PML4E returns only 0 or -1. What it stores is stated by `WriteFacts.WriteFromFollows` |
| PageWrite.Machine.constructor | csc256.c:217 | the machine starts with the given physical memory and an empty log |
| PageWrite.Machine.StoreWord | csc256.c:245 | one store changes one word of memory and logs it |
| PageWrite.Machine.FlushTlbAll | csc256.c:265 | a flush leaves memory unchanged and logs its place among the stores |
| PageWrite.Machine.WriteMmu | csc256.c:217-318 | the in-place write returns `WriteMmuEffect`'s status, leaves its memory, and appends exactly its stores and flushes to the log |
| WriteFacts.TableWalkChained | csc256.c:88-177 | readMMU's walk is a chain of lookups: each level is found from the frame base of a non-terminal entry above it, and the walk ends at a terminal entry or at the PTE |
| WriteFacts.WriteFromFollows | csc256.c:247-317 | the lower levels of writeMMU, entered after storing a prefix of a chained walk with distinct slots, finish the stores along that walk |
| WriteFacts.WriteFollowsReadWalk | csc256.c:217-318 | with distinct slots, writeMMU succeeds exactly when readMMU's walk ends at a present entry. It stores the new values into the walk's slots, root first, and stops before an absent entry without rolling back. Every store after the PML4E's is followed by a TLB flush |
| WriteFacts.WriteBackFrom | csc256.c:247-317 | writing back a chained walk's entries from any lower level on leaves memory as it is and logs the stores and flushes of the walk |
| WriteFacts.WriteBackLeavesMemory | csc256.c:245-315 | writing back the entries readMMU reported leaves memory unchanged, for any memory. It succeeds exactly when the walk ended at a present entry |
| WriteFacts.WriteTouchesOnlyWalkSlots | csc256.c:245-314 | with distinct slots, no 8-byte-aligned word outside the walk's slots changes, so no byte outside them changes |
| WriteFacts.WriteStoresEveryLevel | csc256.c:239-314 | with distinct slots, every slot the write reached holds its new value afterwards. After a failure that is every level above the absent one: there is no rollback |
| WriteFacts.WalkOfStoredValues | csc256.c:88-177 | if memory holds, at the walk's slots, values that keep the walk's shape, readMMU walks the same slots to the same depth and reports those values |
| WriteFacts.ReadAfterWrite | csc256.c:217-318 | after a successful write over distinct slots that keeps the walk's shape, readMMU reports the written values at the same slots and depth |
| WriteFacts.ReadEntriesPresent | csc256.c:106-177 | when the walk ends at a present entry, every reported entry is present and is the word in its slot |
| WriteFacts.RestoreUndoesWrite | test3.c:106-123 | overwriting the entries and then writing back the ones read before succeeds and restores memory exactly. This needs distinct slots, new values that keep the walk's shape, and a present last entry |
| WriteFacts.StoreLevelsFrame | csc256.c:245-314 | a run of stores changes only the slots stored into |
| WriteFacts.StoreLevelsAt | csc256.c:245-314 | after a run of stores into distinct slots, each slot holds its value |
| WriteFacts.StoreLevelsOverwrite | csc256.c:245-314 | storing a second run of values into the same slots leaves what the second run alone would |
| WriteFacts.StoreLevelsSame | csc256.c:245-314 | storing into each slot the present word it already holds leaves memory unchanged |

## Left out

- `allocPage` and `freePage` (csc256.c:38-62) are not modelled. They only wrap kernel page-allocation calls, which are not part of this model.
- `printk` diagnostics are not modelled. Only the final-address expression (csc256.c:199) is kept, as `Walk.final`, and so are the slot addresses it prints, as `Walk.slots`.
- `copy_to_user` is not modelled as a transfer. A successful read returns the walk. A copy failure is a boolean input that gives -1, and partial copies are not distinguished.
- `__read_cr3` is not modelled. CR3 is a parameter of every operation.
- `flush_tlb_all` has no modelled effect on address translation. Only its position among the stores is recorded in the ghost log.
- The user-space programs `test1.c` to `test4.c` are not modelled. Only the save-overwrite-restore sequence of `test3.c` is stated, as `RestoreUndoesWrite`.
- Concurrent readers and writers of the same tables are not modelled. Each call sees one memory state and is atomic.
- Physical memory is modelled as independent 8-byte words at 8-byte-aligned addresses, which are the only words the walker reads or writes (every slot is 8-byte aligned). A word that was never stored reads as 0. Bytes shared by overlapping unaligned words are not modelled, and neither is a fault on unmapped physical memory.
- WriteFacts.WriteTouchesOnlyWalkSlots: stated only for 8-byte-aligned words, because the model does not relate an unaligned word to the aligned words whose bytes it shares.
- Bits 63:48 of the virtual address are never looked at, as in the source. Non-canonical addresses are not rejected.
- PageWalk.ReadMmu: "before touching any table" is stated as independence from memory (the -EINVAL result does not depend on `m`), not as an ordering of reads.
- WriteFacts.WriteFollowsReadWalk, WriteFacts.ReadAfterWrite, WriteFacts.WriteStoresEveryLevel and WriteFacts.WriteTouchesOnlyWalkSlots assume that the walk's slots are distinct. When a table is reached through one of its own earlier slots, the write path reads the value it has just stored. Its walk then departs from the read walk, and these lemmas say nothing about that case.
- AddressBits.SlotAddress does not state, as a clause of its own, that the slot has the parent's frame base. It states the slot as the base plus an offset below 4096.
