/**
 * What writeMMU does, stated against readMMU's walk of the memory it starts
 * from: which slots it stores into, in what order the stores and TLB flushes
 * come, when it succeeds, and what a later read or a second write then sees.
 */
module WriteFacts {
  import opened AddressBits
  import opened PageWalk
  import opened PageWrite

  /** Memory after storing `vals.At(k)` into `slots.At(k)` for k = 0, 1, ..., n - 1, in that order. */
  function StoreLevels(m: PhysMem, slots: PerLevel, vals: PerLevel, n: nat): PhysMem
    requires n <= 4
  {
    if n == 0 then m
    else StoreLevels(m, slots, vals, n - 1)[slots.At(n - 1) := vals.At(n - 1)]
  }

  /**
   * The events after `ev` once those n stores are made: the first (the PML4E)
   * without a flush, each later one followed by a TLB flush.
   */
  function StoreLog(ev: seq<Event>, slots: PerLevel, vals: PerLevel, n: nat): seq<Event>
    requires n <= 4
  {
    if n == 0 then ev
    else if n == 1 then ev + [Store(slots.At(0), vals.At(0))]
    else StoreLog(ev, slots, vals, n - 1) + [Store(slots.At(n - 1), vals.At(n - 1))] + [FlushTlb]
  }

  /** The first `n` slots are pairwise different. */
  predicate DistinctUpTo(slots: PerLevel, n: nat)
    requires n <= 4
  {
    forall i, j :: 0 <= i < j < n ==> slots.At(i) != slots.At(j)
  }

  /** No table of the walk is reached through one of its own earlier slots. */
  predicate DistinctSlots(w: Walk)
    requires w.depth <= 4
  {
    DistinctUpTo(w.slots, w.depth)
  }

  /** The entry where the walk stopped is present (a present PTE, or a present 1 GiB or 2 MiB page). */
  predicate EndsPresent(w: Walk)
    requires 1 <= w.depth <= 4
  {
    Present(w.entries.At(w.depth - 1))
  }

  /** How many levels writeMMU stores into along walk `w`: all of them if the last entry is present, else all but that one. */
  function StoreCount(w: Walk): nat
    requires 1 <= w.depth <= 4
  {
    if EndsPresent(w) then w.depth else w.depth - 1
  }

  /** Positions below `n` kept, the others read as 0 (what readMMU reports for a walk of depth `n`). */
  function Truncate(u: PerLevel, n: nat): PerLevel {
    PerLevel(if n > 0 then u.pml4e else ZERO,
            if n > 1 then u.pdpte else ZERO,
            if n > 2 then u.pde else ZERO,
            if n > 3 then u.pte else ZERO)
  }

  /**
   * Position `k` of walk `w` (1 = PDPTE ... 3 = PTE) was reached from the entry
   * above it: that entry does not end the walk, it selects the slot of position
   * `k`, and position `k` reports what memory holds in that slot.
   */
  predicate Linked(m: PhysMem, v: Word, w: Walk, k: nat)
    requires 1 <= k < 4
  {
    && !Terminal(k - 1, w.entries.At(k - 1))
    && w.slots.At(k) == SlotAddress(w.entries.At(k - 1), LevelOffset(k, v))
    && w.entries.At(k) == Load(m, w.slots.At(k))
  }

  /** `w` is a chain of table lookups rooted at `cr3`, each level linked to the one above, ending where an entry is terminal. */
  predicate Chained(m: PhysMem, cr3: Word, v: Word, w: Walk) {
    && 1 <= w.depth <= 4
    && w.slots.At(0) == SlotAddress(cr3, LevelOffset(0, v))
    && w.entries.At(0) == Load(m, w.slots.At(0))
    && (forall k :: 1 <= k < w.depth ==> Linked(m, v, w, k))
    && (w.depth < 4 ==> Terminal(w.depth - 1, w.entries.At(w.depth - 1)))
  }

  /** Entry `e`, stored at position `k` in place of `orig`, lets the walk go on to the same next table. */
  predicate Continues(k: nat, e: Word, orig: Word) {
    !Terminal(k, e) && FrameBase(e) == FrameBase(orig)
  }

  /**
   * The new values keep the shape of walk `w`: above its last level each leads on
   * to the table the old entry led to, and at its last level (unless that is the
   * PTE) the walk still stops.
   */
  predicate KeepsShape(w: Walk, u: PerLevel)
    requires 1 <= w.depth <= 4
  {
    (forall k :: 0 <= k < w.depth - 1 ==> Continues(k, u.At(k), w.entries.At(k)))
    && (w.depth < 4 ==> Terminal(w.depth - 1, u.At(w.depth - 1)))
  }

  lemma LoadAfterStore(m: PhysMem, a: Word, x: Word, b: Word)
    ensures Load(m[a := x], b) == if a == b then x else Load(m, b)
  {
  }

  /** Storing back the present word a slot already holds changes nothing. */
  lemma StoreSameWord(m: PhysMem, a: Word)
    requires Present(Load(m, a))
    ensures m[a := Load(m, a)] == m
  {
  }

  /** PerLevel with the same physical base select the same slot. */
  lemma SameFrameSameSlot(p: Word, q: Word, offset: bv64)
    requires offset < 4096 && offset & 7 == 0
    requires FrameBase(p) == FrameBase(q)
    ensures SlotAddress(p, offset) == SlotAddress(q, offset)
  {
  }

  /** Only the slots written to change. */
  lemma {:induction false} StoreLevelsFrame(m: PhysMem, slots: PerLevel, vals: PerLevel, n: nat, a: Word)
    requires n <= 4
    requires forall k :: 0 <= k < n ==> slots.At(k) != a
    ensures Load(StoreLevels(m, slots, vals, n), a) == Load(m, a)
  {
    if n > 0 {
      StoreLevelsFrame(m, slots, vals, n - 1, a);
      LoadAfterStore(StoreLevels(m, slots, vals, n - 1), slots.At(n - 1), vals.At(n - 1), a);
    }
  }

  /** With distinct slots, every slot written to holds its value afterwards. */
  lemma {:induction false} StoreLevelsAt(m: PhysMem, slots: PerLevel, vals: PerLevel, n: nat, k: nat)
    requires k < n <= 4
    requires DistinctUpTo(slots, n)
    ensures Load(StoreLevels(m, slots, vals, n), slots.At(k)) == vals.At(k)
  {
    var before := StoreLevels(m, slots, vals, n - 1);
    LoadAfterStore(before, slots.At(n - 1), vals.At(n - 1), slots.At(k));
    if k < n - 1 {
      assert slots.At(k) != slots.At(n - 1);
      StoreLevelsAt(m, slots, vals, n - 1, k);
    }
  }

  /** A store into `a` made before a run of stores is lost once `a` is stored into again after it. */
  lemma {:induction false} StoreAbsorbed(m: PhysMem, a: Word, x: Word, z: Word, slots: PerLevel, vals: PerLevel, n: nat)
    requires n <= 4
    ensures StoreLevels(m[a := x], slots, vals, n)[a := z] == StoreLevels(m, slots, vals, n)[a := z]
  {
    if n == 0 {
      assert m[a := x][a := z] == m[a := z];
    } else {
      var s, y := slots.At(n - 1), vals.At(n - 1);
      var p, q := StoreLevels(m[a := x], slots, vals, n - 1), StoreLevels(m, slots, vals, n - 1);
      StoreAbsorbed(m, a, x, z, slots, vals, n - 1);
      assert p[a := z] == q[a := z];
      if s == a {
        assert p[s := y][a := z] == p[a := z];
        assert q[s := y][a := z] == q[a := z];
      } else {
        assert p[s := y][a := z] == p[a := z][s := y];
        assert q[s := y][a := z] == q[a := z][s := y];
      }
    }
  }

  /** Storing a second run of values into the same slots leaves what the second run alone would. */
  lemma {:induction false} StoreLevelsOverwrite(m: PhysMem, slots: PerLevel, first: PerLevel, second: PerLevel, n: nat)
    requires n <= 4
    ensures StoreLevels(StoreLevels(m, slots, first, n), slots, second, n) == StoreLevels(m, slots, second, n)
  {
    if n > 0 {
      var a := slots.At(n - 1);
      var inner := StoreLevels(m, slots, first, n - 1);
      StoreAbsorbed(inner, a, first.At(n - 1), second.At(n - 1), slots, second, n - 1);
      StoreLevelsOverwrite(m, slots, first, second, n - 1);
    }
  }

  /** Storing into each slot the present word it already holds leaves memory as it was. */
  lemma {:induction false} StoreLevelsSame(m: PhysMem, slots: PerLevel, vals: PerLevel, n: nat)
    requires n <= 4
    requires forall k :: 0 <= k < n ==> vals.At(k) == Load(m, slots.At(k)) && Present(vals.At(k))
    ensures StoreLevels(m, slots, vals, n) == m
  {
    if n > 0 {
      StoreLevelsSame(m, slots, vals, n - 1);
      assert vals.At(n - 1) == Load(m, slots.At(n - 1)) && Present(vals.At(n - 1));
      StoreSameWord(m, slots.At(n - 1));
    }
  }

  /** readMMU's walk is such a chain: each level is found from the entry above it, until a terminal entry or the PTE. */
  lemma TableWalkChained(m: PhysMem, cr3: Word, v: Word)
    ensures Chained(m, cr3, v, TableWalk(m, cr3, v))
  {
  }

  /**
   * The write path from position `k` on, entered after the first `k` slots of
   * chained walk `w` were stored into, finishes the stores along `w`.
   */
  lemma {:induction false} WriteFromFollows(k: nat, m: PhysMem, ev: seq<Event>, cr3: Word, v: Word, w: Walk, u: PerLevel)
    requires Chained(m, cr3, v, w) && DistinctSlots(w)
    requires 1 <= k < w.depth
    ensures WriteFrom(k, StoreLevels(m, w.slots, u, k), StoreLog(ev, w.slots, u, k), w.entries.At(k - 1), v, u)
      == WriteOutcome(if EndsPresent(w) then 0 else -1,
                      StoreLevels(m, w.slots, u, StoreCount(w)), StoreLog(ev, w.slots, u, StoreCount(w)))
    decreases 4 - k
  {
    var mk := StoreLevels(m, w.slots, u, k);
    var e := w.entries.At(k);
    assert Linked(m, v, w, k);
    StoreLevelsFrame(m, w.slots, u, k, w.slots.At(k));
    assert Load(mk, w.slots.At(k)) == e;
    if k + 1 < w.depth {
      assert Linked(m, v, w, k + 1);
      WriteFromFollows(k + 1, m, ev, cr3, v, w, u);
    }
  }

  /**
   * When the walk's slots are distinct, writeMMU follows readMMU's walk of the
   * memory it starts from: it succeeds exactly when the walk ends at a present
   * entry; it stores into the walk's slots, nearest the root first, stopping
   * before an entry that is not present and undoing nothing; and every store
   * but the PML4E's is followed by a TLB flush.
   */
  lemma WriteFollowsReadWalk(m: PhysMem, ev: seq<Event>, cr3: Word, v: Word, u: PerLevel)
    requires DistinctSlots(TableWalk(m, cr3, v))
    ensures var w, o := TableWalk(m, cr3, v), WriteMmuEffect(m, ev, cr3, v, u);
      && (o.status == 0 <==> EndsPresent(w))
      && o.mem == StoreLevels(m, w.slots, u, StoreCount(w))
      && o.events == StoreLog(ev, w.slots, u, StoreCount(w))
  {
    var w := TableWalk(m, cr3, v);
    TableWalkChained(m, cr3, v);
    if Present(w.entries.pml4e) {
      WriteFromFollows(1, m, ev, cr3, v, w, u);
    }
  }

  /**
   * The write path from position `k` on, writing back the entries of chained
   * walk `w` into the memory they were read from, leaves that memory as it is.
   */
  lemma {:induction false} WriteBackFrom(k: nat, m: PhysMem, ev: seq<Event>, cr3: Word, v: Word, w: Walk)
    requires Chained(m, cr3, v, w)
    requires 1 <= k < w.depth
    ensures WriteFrom(k, m, StoreLog(ev, w.slots, w.entries, k), w.entries.At(k - 1), v, w.entries)
      == WriteOutcome(if EndsPresent(w) then 0 else -1, m, StoreLog(ev, w.slots, w.entries, StoreCount(w)))
    decreases 4 - k
  {
    assert Linked(m, v, w, k);
    if Present(w.entries.At(k)) {
      StoreSameWord(m, w.slots.At(k));
    }
    if k + 1 < w.depth {
      assert Linked(m, v, w, k + 1);
      WriteBackFrom(k + 1, m, ev, cr3, v, w);
    }
  }

  /**
   * Writing back the entries readMMU reported leaves memory unchanged, with no
   * condition on the slots: each store puts back the word already there, so the
   * write walk reads what the read walk read.
   */
  lemma WriteBackLeavesMemory(m: PhysMem, ev: seq<Event>, cr3: Word, v: Word)
    ensures var w := TableWalk(m, cr3, v);
      var o := WriteMmuEffect(m, ev, cr3, v, w.entries);
      && (o.status == 0 <==> EndsPresent(w))
      && o.mem == m
      && o.events == StoreLog(ev, w.slots, w.entries, StoreCount(w))
  {
    var w := TableWalk(m, cr3, v);
    TableWalkChained(m, cr3, v);
    if Present(w.entries.pml4e) {
      StoreSameWord(m, w.slots.pml4e);
      WriteBackFrom(1, m, ev, cr3, v, w);
    }
  }

  /**
   * Outside the slots of the walk, a write over distinct slots changes no word
   * of memory. Slots are 8-byte aligned, so an 8-byte-aligned word other than a
   * slot shares no byte with any slot.
   */
  lemma WriteTouchesOnlyWalkSlots(m: PhysMem, ev: seq<Event>, cr3: Word, v: Word, u: PerLevel, a: Word)
    requires DistinctSlots(TableWalk(m, cr3, v))
    requires a.bits & 7 == 0
    requires forall k :: 0 <= k < TableWalk(m, cr3, v).depth ==> TableWalk(m, cr3, v).slots.At(k) != a
    ensures Load(WriteMmuEffect(m, ev, cr3, v, u).mem, a) == Load(m, a)
  {
    var w := TableWalk(m, cr3, v);
    WriteFollowsReadWalk(m, ev, cr3, v, u);
    StoreLevelsFrame(m, w.slots, u, StoreCount(w), a);
  }

  /**
   * A memory holding `u` at the slots of walk `w` of `m`, where `u` keeps the
   * walk's shape, is walked through the same slots to the same depth, and the
   * walk reports `u`.
   */
  lemma WalkOfStoredValues(m: PhysMem, m': PhysMem, cr3: Word, v: Word, u: PerLevel)
    requires KeepsShape(TableWalk(m, cr3, v), u)
    requires forall k :: 0 <= k < TableWalk(m, cr3, v).depth ==>
      Load(m', TableWalk(m, cr3, v).slots.At(k)) == u.At(k)
    ensures var w, w' := TableWalk(m, cr3, v), TableWalk(m', cr3, v);
      && w'.depth == w.depth
      && w'.slots == w.slots
      && w'.entries == Truncate(u, w.depth)
  {
    var w := TableWalk(m, cr3, v);
    var w' := TableWalk(m', cr3, v);
    assert Load(m', w.slots.At(0)) == u.At(0);
    assert w'.entries.pml4e == u.pml4e;
    if w.depth == 1 {
      assert !Present(u.pml4e);
      return;
    }
    assert Continues(0, u.At(0), w.entries.At(0));
    SameFrameSameSlot(u.pml4e, w.entries.pml4e, PdpteOffset(v));
    assert w'.depth > 1 && w'.slots.pdpte == w.slots.pdpte;
    assert Load(m', w.slots.At(1)) == u.At(1);
    assert w'.entries.pdpte == u.pdpte;
    if w.depth == 2 {
      assert Terminal(1, u.At(1));
      assert w'.depth == 2;
      return;
    }
    assert Continues(1, u.At(1), w.entries.At(1));
    SameFrameSameSlot(u.pdpte, w.entries.pdpte, PdeOffset(v));
    assert w'.depth > 2 && w'.slots.pde == w.slots.pde;
    assert Load(m', w.slots.At(2)) == u.At(2);
    assert w'.entries.pde == u.pde;
    if w.depth == 3 {
      assert Terminal(2, u.At(2));
      assert w'.depth == 3;
      return;
    }
    assert Continues(2, u.At(2), w.entries.At(2));
    SameFrameSameSlot(u.pde, w.entries.pde, PteOffset(v));
    assert w'.depth > 3 && w'.slots.pte == w.slots.pte;
    assert Load(m', w.slots.At(3)) == u.At(3);
  }

  /**
   * Over distinct slots, each slot the write reached holds the value written to
   * it afterwards, whether the write succeeded (every level of the walk) or
   * failed (every level above the absent entry): nothing is rolled back.
   */
  lemma WriteStoresEveryLevel(m: PhysMem, ev: seq<Event>, cr3: Word, v: Word, u: PerLevel)
    requires DistinctSlots(TableWalk(m, cr3, v))
    ensures var w, o := TableWalk(m, cr3, v), WriteMmuEffect(m, ev, cr3, v, u);
      forall k :: 0 <= k < (if o.status == 0 then w.depth else w.depth - 1) ==>
        Load(o.mem, w.slots.At(k)) == u.At(k)
  {
    var w := TableWalk(m, cr3, v);
    WriteFollowsReadWalk(m, ev, cr3, v, u);
    forall k | 0 <= k < StoreCount(w)
      ensures Load(StoreLevels(m, w.slots, u, StoreCount(w)), w.slots.At(k)) == u.At(k)
    {
      StoreLevelsAt(m, w.slots, u, StoreCount(w), k);
    }
  }

  /**
   * After a successful write over distinct slots whose new values keep the
   * walk's shape, readMMU walks the same slots to the same depth and reports the
   * values written.
   */
  lemma ReadAfterWrite(m: PhysMem, ev: seq<Event>, cr3: Word, v: Word, u: PerLevel)
    requires DistinctSlots(TableWalk(m, cr3, v))
    requires WriteMmuEffect(m, ev, cr3, v, u).status == 0
    requires KeepsShape(TableWalk(m, cr3, v), u)
    ensures var w, w' := TableWalk(m, cr3, v), TableWalk(WriteMmuEffect(m, ev, cr3, v, u).mem, cr3, v);
      && w'.depth == w.depth
      && w'.slots == w.slots
      && w'.entries == Truncate(u, w.depth)
  {
    WriteStoresEveryLevel(m, ev, cr3, v, u);
    WriteFollowsReadWalk(m, ev, cr3, v, u);
    WalkOfStoredValues(m, WriteMmuEffect(m, ev, cr3, v, u).mem, cr3, v, u);
  }

  /** When the walk ends at a present entry, every entry it reports is present and is the word in its slot. */
  lemma ReadEntriesPresent(m: PhysMem, cr3: Word, v: Word)
    requires EndsPresent(TableWalk(m, cr3, v))
    ensures var w := TableWalk(m, cr3, v);
      forall k :: 0 <= k < w.depth ==> w.entries.At(k) == Load(m, w.slots.At(k)) && Present(w.entries.At(k))
  {
  }

  /**
   * Writing a set of entries and then writing back the ones read before (the
   * save, overwrite and restore sequence of the user-level test) restores
   * memory exactly, provided the slots are distinct, the new values keep the
   * walk's shape and the entry at its last level is present.
   */
  lemma RestoreUndoesWrite(m: PhysMem, ev: seq<Event>, cr3: Word, v: Word, u: PerLevel)
    requires DistinctSlots(TableWalk(m, cr3, v))
    requires WriteMmuEffect(m, ev, cr3, v, u).status == 0
    requires KeepsShape(TableWalk(m, cr3, v), u)
    requires Present(u.At(TableWalk(m, cr3, v).depth - 1))
    ensures var o := WriteMmuEffect(m, ev, cr3, v, u);
      var back := WriteMmuEffect(o.mem, o.events, cr3, v, TableWalk(m, cr3, v).entries);
      back.status == 0 && back.mem == m
  {
    var w := TableWalk(m, cr3, v);
    var o := WriteMmuEffect(m, ev, cr3, v, u);
    WriteFollowsReadWalk(m, ev, cr3, v, u);
    ReadAfterWrite(m, ev, cr3, v, u);
    var w' := TableWalk(o.mem, cr3, v);
    assert w'.entries.At(w.depth - 1) == u.At(w.depth - 1);
    WriteFollowsReadWalk(o.mem, o.events, cr3, v, w.entries);
    assert o.mem == StoreLevels(m, w.slots, u, w.depth);
    StoreLevelsOverwrite(m, w.slots, u, w.entries, w.depth);
    ReadEntriesPresent(m, cr3, v);
    StoreLevelsSame(m, w.slots, w.entries, w.depth);
  }
}
