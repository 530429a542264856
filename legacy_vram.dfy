/**
 * The older VRAM arena: process-wide state holding the device's memory
 * properties, a table of up to 512 memory handles filled from the front,
 * their count and the device handle. Handles and the device are numbers,
 * 0 standing for a null handle.
 *
 * As in the newer arena, the behaviour is stated on values first
 * (`LegacyState`, `LegacyAllocate`, `LegacyTerminate`) and the class
 * `LegacyArena` follows those steps in place.
 */
module LegacyVram {
  import opened Base
  import opened Memory

  const VRAM_MAX_ALLOCATIONS: nat := 512

  /** The arena's allocation state: heap sizes, handle table and count. */
  datatype LegacyState = LegacyState(heaps: seq<nat>, allocations: seq<nat>, count: nat)

  /**
   * The arena's invariant: a table of 512 entries, at most 512 of them
   * used, and every entry from the count on still null.
   */
  predicate LegacyValid(types: seq<MemoryType>, s: LegacyState)
  {
    WellFormed(types, s.heaps)
    && |s.allocations| == VRAM_MAX_ALLOCATIONS
    && s.count <= VRAM_MAX_ALLOCATIONS
    && forall k | s.count <= k < |s.allocations| :: s.allocations[k] == 0
  }

  /**
   * The count guard as the arena writes it: it refuses only a count above
   * the table size.
   */
  predicate AsWrittenGuardRejects(count: nat)
  {
    count > VRAM_MAX_ALLOCATIONS
  }

  /** The count guard that keeps the write inside the table. */
  predicate GuardRejects(count: nat)
  {
    count >= VRAM_MAX_ALLOCATIONS
  }

  /**
   * An allocation: the new state and the handle returned, if any. The
   * handle is written to the entry at the current count. The type is
   * chosen with the mask test given, as in the newer arena.
   */
  function LegacyAllocate(test: MaskTest, types: seq<MemoryType>, s: LegacyState, req: Request, driver: DriverAnswer): (LegacyState, Option<nat>)
    requires LegacyValid(types, s)
  {
    if GuardRejects(s.count) then (s, None)
    else
      match FirstFit(test, types, s.heaps, req, 0)
      case None => (s, None)
      case Some(t) =>
        assert types[t] in types;
        var h := types[t].heapIndex;
        var heaps' := s.heaps[h := s.heaps[h] - req.size];
        match driver
        case Refused => (s.(heaps := heaps'), None)
        case Granted(memory) =>
          (LegacyState(heaps', s.allocations[s.count := memory], s.count + 1), Some(memory))
  }

  /**
   * The entry a granted allocation writes its handle to, given the guard's
   * verdict on the count: none when the guard refuses, no type fits or the
   * driver refuses, and otherwise the entry the count names.
   */
  function WriteTarget(test: MaskTest, types: seq<MemoryType>, s: LegacyState, req: Request, driver: DriverAnswer, guardRejects: bool): (r: Option<nat>)
    requires WellFormed(types, s.heaps)
    ensures r.Some? <==> !guardRejects && FirstFit(test, types, s.heaps, req, 0).Some? && driver.Granted?
    ensures r.Some? ==> r.value == s.count
  {
    if guardRejects || FirstFit(test, types, s.heaps, req, 0).None? || driver.Refused? then None
    else Some(s.count)
  }

  /** The handles released on termination, in table order. */
  function Released(s: LegacyState): seq<nat>
    requires s.count <= |s.allocations|
  {
    s.allocations[..s.count]
  }

  /** Termination: every used entry cleared and the count reset. */
  function LegacyTerminate(s: LegacyState): LegacyState
    requires s.count <= |s.allocations|
  {
    LegacyState([], seq(|s.allocations|, k requires 0 <= k < |s.allocations| => if k < s.count then 0 else s.allocations[k]), 0)
  }

  // ---------------------------------------------------------------
  // Properties
  // ---------------------------------------------------------------

  /**
   * Under the corrected guard the entry written is inside the table, and
   * it is the one entry the allocation changes.
   */
  lemma WriteTargetInTable(test: MaskTest, types: seq<MemoryType>, s: LegacyState, req: Request, driver: DriverAnswer)
    requires LegacyValid(types, s)
    ensures var w := WriteTarget(test, types, s, req, driver, GuardRejects(s.count));
      var (s', r) := LegacyAllocate(test, types, s, req, driver);
      (w.Some? ==> w.value < |s.allocations| && s'.allocations == s.allocations[w.value := driver.memory] && r == Some(driver.memory))
      && (w.None? ==> s'.allocations == s.allocations && r.None?)
  {
  }

  /**
   * At a full table the written guard lets the request through, so a
   * granted request for a fitting type writes its handle to entry 512,
   * one past the table's end; the corrected guard refuses and leaves the
   * state unchanged.
   */
  lemma AsWrittenGuardAdmitsFullTable(test: MaskTest, types: seq<MemoryType>, s: LegacyState, req: Request, driver: DriverAnswer)
    requires LegacyValid(types, s) && s.count == VRAM_MAX_ALLOCATIONS
    ensures !AsWrittenGuardRejects(s.count) && s.count >= |s.allocations|
    ensures FirstFit(test, types, s.heaps, req, 0).Some? && driver.Granted? ==>
      WriteTarget(test, types, s, req, driver, AsWrittenGuardRejects(s.count)) == Some(|s.allocations|)
    ensures WriteTarget(test, types, s, req, driver, GuardRejects(s.count)).None?
    ensures LegacyAllocate(test, types, s, req, driver) == (s, None)
  {
  }

  /** A full table can be reached: a granted request at count 511 fills the last entry. */
  lemma LastEntryReachable(test: MaskTest, types: seq<MemoryType>, s: LegacyState, req: Request, memory: nat)
    requires LegacyValid(types, s) && s.count == VRAM_MAX_ALLOCATIONS - 1 && memory != 0
    requires FirstFit(test, types, s.heaps, req, 0).Some?
    ensures LegacyAllocate(test, types, s, req, Granted(memory)).0.count == VRAM_MAX_ALLOCATIONS
  {
  }

  /** No memory type fits: nothing changes. */
  lemma LegacyAllocateNoFit(test: MaskTest, types: seq<MemoryType>, s: LegacyState, req: Request, driver: DriverAnswer)
    requires LegacyValid(types, s)
    requires forall i | 0 <= i < |types| :: !Fits(test, types, s.heaps, req, i)
    ensures LegacyAllocate(test, types, s, req, driver) == (s, None)
  {
  }

  /**
   * A granted request charges exactly the lowest fitting type's heap,
   * records the handle at the entry the count names and counts it.
   */
  lemma LegacyAllocateGranted(test: MaskTest, types: seq<MemoryType>, s: LegacyState, req: Request, memory: nat, t: nat)
    requires LegacyValid(types, s) && !GuardRejects(s.count)
    requires t < |types| && Fits(test, types, s.heaps, req, t)
    requires forall j | 0 <= j < t :: !Fits(test, types, s.heaps, req, j)
    ensures var (s', r) := LegacyAllocate(test, types, s, req, Granted(memory));
      var h := types[t].heapIndex;
      r == Some(memory)
      && s'.allocations == s.allocations[s.count := memory]
      && s'.count == s.count + 1
      && |s'.heaps| == |s.heaps|
      && s'.heaps[h] == s.heaps[h] - req.size
      && (forall i | 0 <= i < |s.heaps| && i != h :: s'.heaps[i] == s.heaps[i])
  {
    assert FirstFit(test, types, s.heaps, req, 0) == Some(t);
  }

  /** The driver refuses: no entry is recorded, yet the heap stays charged. */
  lemma LegacyAllocateRefused(test: MaskTest, types: seq<MemoryType>, s: LegacyState, req: Request, t: nat)
    requires LegacyValid(types, s) && !GuardRejects(s.count)
    requires t < |types| && Fits(test, types, s.heaps, req, t)
    requires forall j | 0 <= j < t :: !Fits(test, types, s.heaps, req, j)
    ensures var (s', r) := LegacyAllocate(test, types, s, req, Refused);
      var h := types[t].heapIndex;
      r.None? && s'.allocations == s.allocations && s'.count == s.count
      && s'.heaps == s.heaps[h := s.heaps[h] - req.size]
  {
    assert FirstFit(test, types, s.heaps, req, 0) == Some(t);
  }

  lemma LegacyAllocatePreservesValid(test: MaskTest, types: seq<MemoryType>, s: LegacyState, req: Request, driver: DriverAnswer)
    requires LegacyValid(types, s)
    ensures LegacyValid(types, LegacyAllocate(test, types, s, req, driver).0)
  {
  }

  /**
   * Termination of a valid arena leaves a table of null entries and
   * releases exactly the handles recorded, in order.
   */
  lemma TerminateClearsTable(types: seq<MemoryType>, s: LegacyState)
    requires LegacyValid(types, s)
    ensures LegacyTerminate(s).allocations == seq(VRAM_MAX_ALLOCATIONS, _ => 0)
    ensures LegacyTerminate(s).count == 0
    ensures |Released(s)| == s.count
    ensures forall k | 0 <= k < s.count :: Released(s)[k] == s.allocations[k]
  {
  }

  // ---------------------------------------------------------------
  // The arena in place
  // ---------------------------------------------------------------

  /** The arena's process-wide state. */
  class LegacyArena {
    var memoryTypes: seq<MemoryType>
    var memoryHeaps: seq<nat>
    const allocations: array<nat>
    var allocationCount: nat
    var device: nat

    function State(): LegacyState
      reads this, allocations
    {
      LegacyState(memoryHeaps, allocations[..], allocationCount)
    }

    predicate Valid()
      reads this, allocations
    {
      LegacyValid(memoryTypes, State())
    }

    /** The zero-initialised state before the arena is set up. */
    constructor ()
      ensures Valid()
      ensures memoryTypes == [] && memoryHeaps == [] && device == 0
      ensures allocations[..] == seq(VRAM_MAX_ALLOCATIONS, _ => 0) && allocationCount == 0
    {
      memoryTypes := [];
      memoryHeaps := [];
      allocations := new nat[VRAM_MAX_ALLOCATIONS](_ => 0);
      allocationCount := 0;
      device := 0;
      new;
      assert allocations[..] == seq(VRAM_MAX_ALLOCATIONS, _ => 0);
    }

    /**
     * Takes a snapshot of the device's memory properties and its handle;
     * the table and the count are left as they are.
     */
    method Init(types: seq<MemoryType>, heaps: seq<nat>, deviceHandle: nat) returns (code: i32)
      requires Valid() && WellFormed(types, heaps)
      modifies this
      ensures Valid()
      ensures memoryTypes == types && memoryHeaps == heaps && device == deviceHandle
      ensures allocationCount == old(allocationCount)
      ensures code == MSG_CODE_SUCCESS
    {
      memoryTypes := types;
      memoryHeaps := heaps;
      device := deviceHandle;
      code := MSG_CODE_SUCCESS;
    }

    /**
     * Releases every recorded handle, in order, and resets the arena to its
     * zero-initialised state.
     */
    method Terminate() returns (released: seq<nat>)
      requires Valid()
      modifies this, allocations
      ensures Valid()
      ensures released == Released(old(State()))
      ensures State() == LegacyTerminate(old(State()))
      ensures memoryTypes == [] && device == 0
    {
      ghost var s := State();
      released := [];
      var i := 0;
      while i < allocationCount
        invariant 0 <= i <= allocationCount
        invariant allocationCount == s.count && memoryHeaps == s.heaps
        invariant released == s.allocations[..i]
        invariant forall k | 0 <= k < |s.allocations| :: allocations[k] == if k < i then 0 else s.allocations[k]
        invariant allocations.Length == |s.allocations|
      {
        released := released + [allocations[i]];
        allocations[i] := 0;
        i := i + 1;
      }
      allocationCount := 0;
      memoryTypes := [];
      memoryHeaps := [];
      device := 0;
      TerminateClearsTable(old(memoryTypes), s);
      assert allocations[..] == LegacyTerminate(s).allocations;
    }

    method Allocate(test: MaskTest, req: Request, driver: DriverAnswer) returns (memory: Option<nat>)
      requires Valid()
      modifies this, allocations
      ensures Valid()
      ensures memoryTypes == old(memoryTypes) && device == old(device)
      ensures (State(), memory) == LegacyAllocate(test, memoryTypes, old(State()), req, driver)
    {
      ghost var s := State();
      LegacyAllocatePreservesValid(test, memoryTypes, s, req, driver);
      if allocationCount >= VRAM_MAX_ALLOCATIONS {
        return None;
      }
      var t := 0;
      while t < |memoryTypes| && !Fits(test, memoryTypes, memoryHeaps, req, t)
        invariant 0 <= t <= |memoryTypes|
        invariant forall j | 0 <= j < t :: !Fits(test, memoryTypes, memoryHeaps, req, j)
      {
        t := t + 1;
      }
      if t == |memoryTypes| {
        return None;
      }
      assert FirstFit(test, memoryTypes, memoryHeaps, req, 0) == Some(t);
      assert memoryTypes[t] in memoryTypes;
      var h := memoryTypes[t].heapIndex;
      memoryHeaps := memoryHeaps[h := memoryHeaps[h] - req.size];
      match driver
      case Refused =>
        return None;
      case Granted(handle) =>
        allocations[allocationCount] := handle;
        allocationCount := allocationCount + 1;
        memory := Some(handle);
    }
  }
}
