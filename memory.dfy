/**
 * The memory-type choice shared by both VRAM arenas: a first-fit scan over
 * the device's memory types, each tested against the request's required
 * and forbidden property flags, its type mask and the remaining size of
 * the heap the type draws from.
 */
module Memory {
  import opened Base

  /** Limits of a device's memory-property record. */
  const MAX_MEMORY_TYPES: nat := 32
  const MAX_MEMORY_HEAPS: nat := 16

  const MEMORY_PROPERTY_DEVICE_LOCAL: bv32 := 0x1
  const MEMORY_PROPERTY_HOST_VISIBLE: bv32 := 0x2
  const MEMORY_PROPERTY_HOST_COHERENT: bv32 := 0x4

  /** One memory type of the device: its property bits and its heap. */
  datatype MemoryType = MemoryType(propertyFlags: bv32, heapIndex: nat)

  /**
   * A request to an arena: the size, the property bits the type must have,
   * the bits it must not have, and the mask of admissible type indices.
   */
  datatype Request = Request(size: nat, positiveFlags: bv32, negativeFlags: bv32, memoryTypeFlags: bv32)

  /** What the driver answered to a memory request, given from outside. */
  datatype DriverAnswer = Granted(memory: nat) | Refused

  /**
   * How the request's type mask is tested against a memory type. The
   * engine tests it against the type's property bits; the mask a device
   * reports is a set of type indices, so the test it stands for is bit
   * `i` of the mask for the type at index `i`.
   */
  datatype MaskTest = PropertyBits | TypeIndexBit

  /** A device's memory-property record: every type names an existing heap. */
  predicate WellFormed(types: seq<MemoryType>, heaps: seq<nat>)
  {
    |types| <= MAX_MEMORY_TYPES && |heaps| <= MAX_MEMORY_HEAPS
    && forall t | t in types :: t.heapIndex < |heaps|
  }

  /** Bit `i` of a type mask is set. */
  predicate TypeAllowed(mask: bv32, i: nat)
  {
    i < 32 && (mask >> i) & 1 == 1
  }

  predicate MaskAdmits(test: MaskTest, t: MemoryType, i: nat, mask: bv32)
  {
    match test
    case PropertyBits => t.propertyFlags & mask != 0
    case TypeIndexBit => TypeAllowed(mask, i)
  }

  /** The four conditions the type at index `i` must meet. */
  predicate Fits(test: MaskTest, types: seq<MemoryType>, heaps: seq<nat>, req: Request, i: nat)
    requires WellFormed(types, heaps) && i < |types|
  {
    var t := types[i];
    assert t in types;
    t.propertyFlags & req.positiveFlags == req.positiveFlags
    && t.propertyFlags & req.negativeFlags == 0
    && MaskAdmits(test, t, i, req.memoryTypeFlags)
    && heaps[t.heapIndex] > req.size
  }

  /**
   * The scan over the types from index `from` on: the lowest index that
   * fits, or None when there is none.
   */
  function FirstFit(test: MaskTest, types: seq<MemoryType>, heaps: seq<nat>, req: Request, from: nat): (r: Option<nat>)
    requires WellFormed(types, heaps)
    ensures r.Some? ==> from <= r.value < |types| && Fits(test, types, heaps, req, r.value)
    ensures r.Some? ==> forall j | from <= j < r.value :: !Fits(test, types, heaps, req, j)
    ensures r.None? <==> forall j | from <= j < |types| :: !Fits(test, types, heaps, req, j)
    decreases |types| - from
  {
    if from >= |types| then None
    else if Fits(test, types, heaps, req, from) then Some(from)
    else FirstFit(test, types, heaps, req, from + 1)
  }

  /**
   * The property-bit test lets through a type the mask forbids: with a
   * host-visible type at index 0 and a device-local type at index 1, a
   * request whose mask admits only type 1 (mask 0x2) gets type 0, while the
   * index-bit test gives type 1.
   */
  lemma PropertyBitsIgnoresTypeMask()
    ensures var types := [MemoryType(MEMORY_PROPERTY_HOST_VISIBLE, 0), MemoryType(MEMORY_PROPERTY_DEVICE_LOCAL, 0)];
      var req := Request(16, 0, 0, 0x2);
      FirstFit(PropertyBits, types, [1024], req, 0) == Some(0)
      && !TypeAllowed(req.memoryTypeFlags, 0)
      && FirstFit(TypeIndexBit, types, [1024], req, 0) == Some(1)
  {
    var types := [MemoryType(MEMORY_PROPERTY_HOST_VISIBLE, 0), MemoryType(MEMORY_PROPERTY_DEVICE_LOCAL, 0)];
    var req := Request(16, 0, 0, 0x2);
    assert types[0] in types && types[1] in types;
    assert WellFormed(types, [1024]);
    assert Fits(PropertyBits, types, [1024], req, 0);
    assert !Fits(TypeIndexBit, types, [1024], req, 0);
    assert Fits(TypeIndexBit, types, [1024], req, 1);
  }
}
