/**
 * The VRAM arena of the Vulkan context: a fixed table of 512 allocation
 * slots, a count of the occupied ones, and the remaining size of each
 * memory heap. An allocation picks the first memory type that fits,
 * charges its heap, asks the driver for memory and records it in the first
 * empty slot; freeing a slot gives its size back to its heap.
 *
 * The arena's behaviour is first stated on values (`Arena`, `Allocate`,
 * `Free`); the class `VulkanMemory` then carries out those steps in place
 * and is proved to follow them.
 */
module Vram {
  import opened Base
  import opened Memory

  const MAX_VRAM_ALLOCATIONS: nat := 512

  /** One slot of the table; a slot whose size is 0 is empty. */
  datatype Allocation = Allocation(memory: nat, size: nat, heapId: nat, typeId: nat)

  const EMPTY_ALLOCATION: Allocation := Allocation(0, 0, 0, 0)

  /** The arena's whole state: heap sizes, slot table, occupied count. */
  datatype Arena = Arena(heaps: seq<nat>, slots: seq<Allocation>, count: nat)

  // ---------------------------------------------------------------
  // Measures of the slot table
  // ---------------------------------------------------------------

  /** Number of occupied slots. */
  function Occupied(slots: seq<Allocation>): (n: nat)
    ensures n <= |slots|
  {
    if |slots| == 0 then 0
    else Occupied(slots[..|slots| - 1]) + (if slots[|slots| - 1].size != 0 then 1 else 0)
  }

  /** Total size recorded in the slots. */
  function TotalSize(slots: seq<Allocation>): nat
  {
    if |slots| == 0 then 0 else TotalSize(slots[..|slots| - 1]) + slots[|slots| - 1].size
  }

  /** Total remaining size over all heaps. */
  function HeapTotal(heaps: seq<nat>): nat
  {
    if |heaps| == 0 then 0 else HeapTotal(heaps[..|heaps| - 1]) + heaps[|heaps| - 1]
  }

  /** The lowest empty slot at or after `from`. */
  function FirstEmpty(slots: seq<Allocation>, from: nat): (r: Option<nat>)
    ensures r.Some? ==> from <= r.value < |slots| && slots[r.value].size == 0
    ensures r.Some? ==> forall j | from <= j < r.value :: slots[j].size != 0
    ensures r.None? <==> forall j | from <= j < |slots| :: slots[j].size != 0
    decreases |slots| - from
  {
    if from >= |slots| then None
    else if slots[from].size == 0 then Some(from)
    else FirstEmpty(slots, from + 1)
  }

  /**
   * The arena's invariant: a table of 512 slots, a count equal to the
   * number of occupied slots, empty slots wholly zero, and every occupied
   * slot naming an existing heap and memory type.
   */
  predicate ArenaValid(types: seq<MemoryType>, a: Arena)
  {
    WellFormed(types, a.heaps)
    && |a.slots| == MAX_VRAM_ALLOCATIONS
    && a.count == Occupied(a.slots)
    && (forall k | 0 <= k < |a.slots| :: a.slots[k].size == 0 ==> a.slots[k] == EMPTY_ALLOCATION)
    && (forall k | 0 <= k < |a.slots| :: a.slots[k].size != 0 ==> a.slots[k].heapId < |a.heaps| && a.slots[k].typeId < |types|)
  }

  function InitialArena(heaps: seq<nat>): Arena
  {
    Arena(heaps, seq(MAX_VRAM_ALLOCATIONS, _ => EMPTY_ALLOCATION), 0)
  }

  // ---------------------------------------------------------------
  // The two operations on values
  // ---------------------------------------------------------------

  predicate GuardRejects(a: Arena, req: Request)
  {
    a.count >= MAX_VRAM_ALLOCATIONS || req.size == 0 || req.memoryTypeFlags == 0
  }

  /**
   * An allocation: the new arena and the slot it filled, if any. The type
   * is chosen with the mask test given: the engine as written tests the
   * property bits, the intended test is the type-index bit.
   */
  function Allocate(test: MaskTest, types: seq<MemoryType>, a: Arena, req: Request, driver: DriverAnswer): (Arena, Option<nat>)
    requires ArenaValid(types, a)
  {
    if GuardRejects(a, req) then (a, None)
    else
      match FirstFit(test, types, a.heaps, req, 0)
      case None => (a, None)
      case Some(t) =>
        assert types[t] in types;
        var h := types[t].heapIndex;
        var heaps' := a.heaps[h := a.heaps[h] - req.size];
        match driver
        case Refused => (a.(heaps := heaps'), None)
        case Granted(memory) =>
          EmptySlotExists(a.slots);
          var k := FirstEmpty(a.slots, 0).value;
          (Arena(heaps', a.slots[k := Allocation(memory, req.size, h, t)], a.count + 1), Some(k))
  }

  /** Freeing slot `k`: nothing happens when it is empty. */
  function Free(types: seq<MemoryType>, a: Arena, k: nat): Arena
    requires ArenaValid(types, a) && k < |a.slots|
  {
    var s := a.slots[k];
    if s.size == 0 then a
    else
      OccupiedUpdate(a.slots, k, EMPTY_ALLOCATION);
      Arena(a.heaps[s.heapId := a.heaps[s.heapId] + s.size], a.slots[k := EMPTY_ALLOCATION], a.count - 1)
  }

  // ---------------------------------------------------------------
  // Helper lemmas on the measures
  // ---------------------------------------------------------------

  lemma {:induction false} EmptySlotExists(slots: seq<Allocation>)
    requires Occupied(slots) < |slots|
    ensures FirstEmpty(slots, 0).Some?
  {
    var n := |slots|;
    if slots[n - 1].size != 0 {
      EmptySlotExists(slots[..n - 1]);
      var k := FirstEmpty(slots[..n - 1], 0).value;
      assert slots[k] == slots[..n - 1][k];
    }
  }

  lemma {:induction false} OccupiedUpdate(slots: seq<Allocation>, k: nat, x: Allocation)
    requires k < |slots|
    ensures Occupied(slots[k := x]) + (if slots[k].size != 0 then 1 else 0)
         == Occupied(slots) + (if x.size != 0 then 1 else 0)
  {
    var n := |slots|;
    if k == n - 1 {
      assert slots[k := x][..n - 1] == slots[..n - 1];
    } else {
      assert slots[k := x][..n - 1] == slots[..n - 1][k := x];
      OccupiedUpdate(slots[..n - 1], k, x);
    }
  }

  lemma {:induction false} TotalSizeUpdate(slots: seq<Allocation>, k: nat, x: Allocation)
    requires k < |slots|
    ensures TotalSize(slots[k := x]) + slots[k].size == TotalSize(slots) + x.size
  {
    var n := |slots|;
    if k == n - 1 {
      assert slots[k := x][..n - 1] == slots[..n - 1];
    } else {
      assert slots[k := x][..n - 1] == slots[..n - 1][k := x];
      TotalSizeUpdate(slots[..n - 1], k, x);
    }
  }

  lemma {:induction false} HeapTotalUpdate(heaps: seq<nat>, h: nat, x: nat)
    requires h < |heaps|
    ensures HeapTotal(heaps[h := x]) + heaps[h] == HeapTotal(heaps) + x
  {
    var n := |heaps|;
    if h == n - 1 {
      assert heaps[h := x][..n - 1] == heaps[..n - 1];
    } else {
      assert heaps[h := x][..n - 1] == heaps[..n - 1][h := x];
      HeapTotalUpdate(heaps[..n - 1], h, x);
    }
  }

  /** With no occupied slot, nothing is recorded. */
  lemma {:induction false} NothingOccupiedNothingRecorded(slots: seq<Allocation>)
    requires Occupied(slots) == 0
    ensures TotalSize(slots) == 0
  {
    if |slots| > 0 {
      NothingOccupiedNothingRecorded(slots[..|slots| - 1]);
    }
  }

  lemma {:induction false} InitialArenaEmpty(n: nat)
    ensures Occupied(seq(n, _ => EMPTY_ALLOCATION)) == 0
  {
    if n > 0 {
      assert seq(n, _ => EMPTY_ALLOCATION)[..n - 1] == seq(n - 1, _ => EMPTY_ALLOCATION);
      InitialArenaEmpty(n - 1);
    }
  }

  /** The shape of an allocation that filled a slot. */
  lemma AllocateFilled(test: MaskTest, types: seq<MemoryType>, a: Arena, req: Request, driver: DriverAnswer)
    requires ArenaValid(types, a)
    ensures var (a', r) := Allocate(test, types, a, req, driver);
      r.Some? ==>
        !GuardRejects(a, req) && driver.Granted?
        && FirstFit(test, types, a.heaps, req, 0).Some?
        && FirstEmpty(a.slots, 0) == r
        && var t := FirstFit(test, types, a.heaps, req, 0).value;
           t < |types| && types[t].heapIndex < |a.heaps|
           && var h := types[t].heapIndex;
           a' == Arena(a.heaps[h := a.heaps[h] - req.size],
                       a.slots[r.value := Allocation(driver.memory, req.size, h, t)], a.count + 1)
  {
    if !GuardRejects(a, req) && FirstFit(test, types, a.heaps, req, 0).Some? && driver.Granted? {
      EmptySlotExists(a.slots);
      var t := FirstFit(test, types, a.heaps, req, 0).value;
      assert types[t] in types;
    }
  }

  // ---------------------------------------------------------------
  // Properties of Allocate and Free
  // ---------------------------------------------------------------

  /** A fresh arena over a well-formed device is valid and empty. */
  lemma InitialArenaValid(types: seq<MemoryType>, heaps: seq<nat>)
    requires WellFormed(types, heaps)
    ensures ArenaValid(types, InitialArena(heaps))
    ensures TotalSize(InitialArena(heaps).slots) == 0
  {
    InitialArenaEmpty(MAX_VRAM_ALLOCATIONS);
    NothingOccupiedNothingRecorded(InitialArena(heaps).slots);
  }

  /** A full table, a zero size or an empty type mask: nothing changes. */
  lemma AllocateGuard(test: MaskTest, types: seq<MemoryType>, a: Arena, req: Request, driver: DriverAnswer)
    requires ArenaValid(types, a)
    requires a.count >= MAX_VRAM_ALLOCATIONS || req.size == 0 || req.memoryTypeFlags == 0
    ensures Allocate(test, types, a, req, driver) == (a, None)
  {
  }

  /** No memory type fits: nothing changes. */
  lemma AllocateNoFit(test: MaskTest, types: seq<MemoryType>, a: Arena, req: Request, driver: DriverAnswer)
    requires ArenaValid(types, a)
    requires forall i | 0 <= i < |types| :: !Fits(test, types, a.heaps, req, i)
    ensures Allocate(test, types, a, req, driver) == (a, None)
  {
  }

  /**
   * A successful allocation charges exactly the chosen type's heap, fills
   * the first empty slot with the request and counts one more slot. The
   * chosen type is the lowest index meeting the four conditions.
   */
  lemma AllocateGranted(test: MaskTest, types: seq<MemoryType>, a: Arena, req: Request, memory: nat, t: nat)
    requires ArenaValid(types, a) && !GuardRejects(a, req)
    requires t < |types| && Fits(test, types, a.heaps, req, t)
    requires forall j | 0 <= j < t :: !Fits(test, types, a.heaps, req, j)
    ensures var (a', r) := Allocate(test, types, a, req, Granted(memory));
      var h := types[t].heapIndex;
      r.Some? && r.value < |a.slots|
      && a.slots[r.value].size == 0
      && (forall j | 0 <= j < r.value :: a.slots[j].size != 0)
      && a'.slots == a.slots[r.value := Allocation(memory, req.size, h, t)]
      && |a'.heaps| == |a.heaps|
      && a'.heaps[h] == a.heaps[h] - req.size
      && (forall i | 0 <= i < |a.heaps| && i != h :: a'.heaps[i] == a.heaps[i])
      && a'.count == a.count + 1
  {
    assert FirstFit(test, types, a.heaps, req, 0) == Some(t);
    EmptySlotExists(a.slots);
  }

  /**
   * The driver refuses after a type is chosen: no slot is filled, yet the
   * chosen heap stays charged.
   */
  lemma AllocateRefused(test: MaskTest, types: seq<MemoryType>, a: Arena, req: Request, t: nat)
    requires ArenaValid(types, a) && !GuardRejects(a, req)
    requires t < |types| && Fits(test, types, a.heaps, req, t)
    requires forall j | 0 <= j < t :: !Fits(test, types, a.heaps, req, j)
    ensures var (a', r) := Allocate(test, types, a, req, Refused);
      var h := types[t].heapIndex;
      r.None? && a'.slots == a.slots && a'.count == a.count
      && a'.heaps == a.heaps[h := a.heaps[h] - req.size]
      && HeapTotal(a'.heaps) + req.size == HeapTotal(a.heaps)
  {
    assert FirstFit(test, types, a.heaps, req, 0) == Some(t);
    assert types[t] in types;
    var h := types[t].heapIndex;
    HeapTotalUpdate(a.heaps, h, a.heaps[h] - req.size);
  }

  /**
   * The chosen type is always one the mask test admits; under the
   * type-index test that is a type whose bit the request's mask sets.
   */
  lemma AllocateRespectsTypeMask(test: MaskTest, types: seq<MemoryType>, a: Arena, req: Request, driver: DriverAnswer)
    requires ArenaValid(types, a)
    ensures var (a', r) := Allocate(test, types, a, req, driver);
      r.Some? ==>
        r.value < |a'.slots| && a'.slots[r.value].typeId < |types|
        && MaskAdmits(test, types[a'.slots[r.value].typeId], a'.slots[r.value].typeId, req.memoryTypeFlags)
        && (test == TypeIndexBit ==> TypeAllowed(req.memoryTypeFlags, a'.slots[r.value].typeId))
  {
    AllocateFilled(test, types, a, req, driver);
  }

  /**
   * The arena as written records a type the mask forbids: over a
   * host-visible type 0 and a device-local type 1 with one heap, a granted
   * request whose mask admits only type 1 fills slot 0 with type 0, where
   * the type-index test fills it with type 1.
   */
  lemma AsWrittenRecordsForbiddenType()
    ensures var types := [MemoryType(MEMORY_PROPERTY_HOST_VISIBLE, 0), MemoryType(MEMORY_PROPERTY_DEVICE_LOCAL, 0)];
      var a := InitialArena([1024]);
      var req := Request(16, 0, 0, 0x2);
      ArenaValid(types, a)
      && var (written, r) := Allocate(PropertyBits, types, a, req, Granted(7));
         var (intended, q) := Allocate(TypeIndexBit, types, a, req, Granted(7));
         r == Some(0) && written.slots[0].typeId == 0 && !TypeAllowed(req.memoryTypeFlags, 0)
         && q == Some(0) && intended.slots[0].typeId == 1 && TypeAllowed(req.memoryTypeFlags, 1)
  {
    var types := [MemoryType(MEMORY_PROPERTY_HOST_VISIBLE, 0), MemoryType(MEMORY_PROPERTY_DEVICE_LOCAL, 0)];
    var a := InitialArena([1024]);
    var req := Request(16, 0, 0, 0x2);
    assert types[0] in types && types[1] in types;
    InitialArenaValid(types, [1024]);
    PropertyBitsIgnoresTypeMask();
    assert !GuardRejects(a, req);
    AllocateGranted(PropertyBits, types, a, req, 7, 0);
    assert !Fits(TypeIndexBit, types, a.heaps, req, 0);
    AllocateGranted(TypeIndexBit, types, a, req, 7, 1);
  }

  lemma AllocatePreservesValid(test: MaskTest, types: seq<MemoryType>, a: Arena, req: Request, driver: DriverAnswer)
    requires ArenaValid(types, a)
    ensures ArenaValid(types, Allocate(test, types, a, req, driver).0)
  {
    if !GuardRejects(a, req) && FirstFit(test, types, a.heaps, req, 0).Some? && driver.Granted? {
      EmptySlotExists(a.slots);
      var t := FirstFit(test, types, a.heaps, req, 0).value;
      assert types[t] in types;
      var k := FirstEmpty(a.slots, 0).value;
      var x := Allocation(driver.memory, req.size, types[t].heapIndex, t);
      OccupiedUpdate(a.slots, k, x);
    }
  }

  lemma FreePreservesValid(types: seq<MemoryType>, a: Arena, k: nat)
    requires ArenaValid(types, a) && k < |a.slots|
    ensures ArenaValid(types, Free(types, a, k))
  {
    if a.slots[k].size != 0 {
      OccupiedUpdate(a.slots, k, EMPTY_ALLOCATION);
    }
  }

  /** Freeing an empty slot changes nothing. */
  lemma FreeEmptySlot(types: seq<MemoryType>, a: Arena, k: nat)
    requires ArenaValid(types, a) && k < |a.slots| && a.slots[k].size == 0
    ensures Free(types, a, k) == a
  {
  }

  /**
   * Freeing an occupied slot gives its size back to its heap, empties the
   * slot and counts one slot less; nothing else changes.
   */
  lemma FreeOccupiedSlot(types: seq<MemoryType>, a: Arena, k: nat)
    requires ArenaValid(types, a) && k < |a.slots| && a.slots[k].size != 0
    ensures var a' := Free(types, a, k); var s := a.slots[k];
      a'.slots == a.slots[k := EMPTY_ALLOCATION]
      && a'.heaps == a.heaps[s.heapId := a.heaps[s.heapId] + s.size]
      && a'.count + 1 == a.count
      && HeapTotal(a'.heaps) == HeapTotal(a.heaps) + s.size
      && TotalSize(a'.slots) + s.size == TotalSize(a.slots)
  {
    var s := a.slots[k];
    HeapTotalUpdate(a.heaps, s.heapId, a.heaps[s.heapId] + s.size);
    TotalSizeUpdate(a.slots, k, EMPTY_ALLOCATION);
  }

  /**
   * Allocating and then freeing the slot just filled restores the arena
   * exactly: every heap size, every slot and the count.
   */
  lemma AllocateThenFree(test: MaskTest, types: seq<MemoryType>, a: Arena, req: Request, driver: DriverAnswer)
    requires ArenaValid(types, a)
    ensures var (a', r) := Allocate(test, types, a, req, driver);
      r.Some? ==> ArenaValid(types, a') && r.value < |a'.slots| && Free(types, a', r.value) == a
  {
    var (a', r) := Allocate(test, types, a, req, driver);
    AllocateFilled(test, types, a, req, driver);
    if r.Some? {
      AllocatePreservesValid(test, types, a, req, driver);
      var t := FirstFit(test, types, a.heaps, req, 0).value;
      assert types[t] in types;
      var h := types[t].heapIndex;
      var k := r.value;
      assert a.slots[k] == EMPTY_ALLOCATION;
      assert a'.slots[k := EMPTY_ALLOCATION] == a.slots;
      assert a'.heaps[h := a'.heaps[h] + req.size] == a.heaps;
    }
  }

  /**
   * A granted allocation moves size from the heaps into the table: the sum
   * of the remaining heap sizes and the recorded sizes is unchanged.
   */
  lemma AllocateConservesSize(test: MaskTest, types: seq<MemoryType>, a: Arena, req: Request, driver: DriverAnswer)
    requires ArenaValid(types, a)
    ensures var (a', r) := Allocate(test, types, a, req, driver);
      r.Some? ==> HeapTotal(a'.heaps) + TotalSize(a'.slots) == HeapTotal(a.heaps) + TotalSize(a.slots)
  {
    var (a', r) := Allocate(test, types, a, req, driver);
    AllocateFilled(test, types, a, req, driver);
    if r.Some? {
      var t := FirstFit(test, types, a.heaps, req, 0).value;
      assert types[t] in types;
      var h := types[t].heapIndex;
      HeapTotalUpdate(a.heaps, h, a.heaps[h] - req.size);
      TotalSizeUpdate(a.slots, r.value, Allocation(driver.memory, req.size, h, t));
    }
  }

  // ---------------------------------------------------------------
  // The arena in place
  // ---------------------------------------------------------------

  /** The memory bookkeeping fields of the Vulkan context. */
  class VulkanMemory {
    const memoryTypes: seq<MemoryType>
    var memoryHeaps: seq<nat>
    const allocations: array<Allocation>
    var allocationCount: nat

    function State(): Arena
      reads this, allocations
    {
      Arena(memoryHeaps, allocations[..], allocationCount)
    }

    predicate Valid()
      reads this, allocations
    {
      ArenaValid(memoryTypes, State())
    }

    /** A zeroed context that has just read the device's memory properties. */
    constructor (types: seq<MemoryType>, heaps: seq<nat>)
      requires WellFormed(types, heaps)
      ensures Valid() && memoryTypes == types && State() == InitialArena(heaps)
      ensures fresh(allocations)
    {
      memoryTypes := types;
      memoryHeaps := heaps;
      allocations := new Allocation[MAX_VRAM_ALLOCATIONS](_ => EMPTY_ALLOCATION);
      allocationCount := 0;
      new;
      assert allocations[..] == seq(MAX_VRAM_ALLOCATIONS, _ => EMPTY_ALLOCATION);
      InitialArenaValid(types, heaps);
    }

    method AllocateVram(test: MaskTest, req: Request, driver: DriverAnswer) returns (slot: Option<nat>)
      requires Valid()
      modifies this, allocations
      ensures Valid()
      ensures (State(), slot) == Allocate(test, memoryTypes, old(State()), req, driver)
    {
      ghost var a := State();
      AllocatePreservesValid(test, memoryTypes, a, req, driver);
      if allocationCount >= MAX_VRAM_ALLOCATIONS || req.size == 0 || req.memoryTypeFlags == 0 {
        return None;
      }
      // the first empty slot
      var k := 0;
      while k < MAX_VRAM_ALLOCATIONS && allocations[k].size != 0
        invariant 0 <= k <= MAX_VRAM_ALLOCATIONS
        invariant forall j | 0 <= j < k :: allocations[j].size != 0
      {
        k := k + 1;
      }
      // the first memory type that fits
      var t := 0;
      while t < |memoryTypes| && !Fits(test, memoryTypes, memoryHeaps, req, t)
        invariant 0 <= t <= |memoryTypes|
        invariant forall j | 0 <= j < t :: !Fits(test, memoryTypes, memoryHeaps, req, j)
      {
        t := t + 1;
      }
      if t == |memoryTypes| {
        return None;
      }
      assert FirstFit(test, memoryTypes, memoryHeaps, req, 0) == Some(t);
      assert memoryTypes[t] in memoryTypes;
      var h := memoryTypes[t].heapIndex;
      memoryHeaps := memoryHeaps[h := memoryHeaps[h] - req.size];
      match driver
      case Refused =>
        return None;
      case Granted(memory) =>
        EmptySlotExists(a.slots);
        assert FirstEmpty(a.slots, 0) == Some(k);
        allocations[k] := Allocation(memory, req.size, h, t);
        allocationCount := allocationCount + 1;
        slot := Some(k);
    }

    method FreeVram(k: nat)
      requires Valid() && k < MAX_VRAM_ALLOCATIONS
      modifies this, allocations
      ensures Valid()
      ensures State() == Free(memoryTypes, old(State()), k)
    {
      ghost var a := State();
      FreePreservesValid(memoryTypes, a, k);
      var s := allocations[k];
      if s.size == 0 {
        return;
      }
      OccupiedUpdate(a.slots, k, EMPTY_ALLOCATION);
      memoryHeaps := memoryHeaps[s.heapId := memoryHeaps[s.heapId] + s.size];
      allocations[k] := EMPTY_ALLOCATION;
      allocationCount := allocationCount - 1;
    }

    /** The size freed when the context is destroyed: all recorded sizes. */
    method ArenaSize() returns (total: nat)
      requires Valid()
      ensures total == TotalSize(allocations[..])
    {
      total := 0;
      var count := allocationCount;
      var i := 0;
      while i < MAX_VRAM_ALLOCATIONS && count != 0
        invariant 0 <= i <= MAX_VRAM_ALLOCATIONS
        invariant total == TotalSize(allocations[..i])
        invariant count == 0 ==> i == 0
      {
        assert allocations[..i + 1][..i] == allocations[..i];
        if allocations[i].size != 0 {
          total := total + allocations[i].size;
        }
        i := i + 1;
      }
      if count == 0 {
        NothingOccupiedNothingRecorded(allocations[..]);
      } else {
        assert allocations[..i] == allocations[..];
      }
    }
  }
}
