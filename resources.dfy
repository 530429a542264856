/**
 * Resource declarations of the render context: their validation, the
 * running layout of their buffers inside one device block and one host
 * block, the grid of resources indexed by descriptor set and binding, and
 * the request of the two blocks from the VRAM arena.
 *
 * Buffer creation and memory requirements are the driver's: each resource
 * comes with the requirements the driver reports for its device buffer and
 * for its host buffer, and only those of buffers actually created are read.
 */
module Resources {
  import opened Base
  import opened Memory
  import opened Vram

  const RENDER_RESOURCE_TYPE_NONE: nat := 0
  const RENDER_RESOURCE_TYPE_UNIFORM_BUFFER: nat := 1
  const RENDER_RESOURCE_TYPE_STORAGE_BUFFER: nat := 2

  const RENDER_RESOURCE_HOST_IMMUTABLE: nat := 0
  const RENDER_RESOURCE_HOST_MUTABLE: nat := 1

  const MAX_DESCRIPTOR_SETS: nat := 16
  const MAX_BINDINGS_PER_SET: nat := 16

  const U32_ALL_BITS: bv32 := 0xffff_ffff

  /** The kind of the physical device the context runs on. */
  datatype DeviceType = DeviceTypeNone | Discrete | Integrated

  /** A declared resource; type and mutability are the raw enumeration values. */
  datatype ResourceInfo = ResourceInfo(rtype: nat, mutability: nat, binding: nat, setIndex: nat, size: nat)

  predicate IsBuffer(rtype: nat)
  {
    rtype == RENDER_RESOURCE_TYPE_UNIFORM_BUFFER || rtype == RENDER_RESOURCE_TYPE_STORAGE_BUFFER
  }

  predicate MutabilityValid(r: ResourceInfo)
  {
    r.mutability == RENDER_RESOURCE_HOST_IMMUTABLE || r.mutability == RENDER_RESOURCE_HOST_MUTABLE
  }

  predicate SameLocation(a: ResourceInfo, b: ResourceInfo)
  {
    a.setIndex == b.setIndex && a.binding == b.binding
  }

  // ---------------------------------------------------------------
  // Validation
  // ---------------------------------------------------------------

  /** The checks made of entry `i`: its type, its location against every earlier entry, its mutability. */
  predicate EntryValid(infos: seq<ResourceInfo>, i: nat)
    requires i < |infos|
  {
    IsBuffer(infos[i].rtype)
    && (forall j | 0 <= j < i :: !SameLocation(infos[i], infos[j]))
    && MutabilityValid(infos[i])
  }

  predicate ResourcesValid(infos: seq<ResourceInfo>)
  {
    forall i | 0 <= i < |infos| :: EntryValid(infos, i)
  }

  /** No two entries, in whichever order, share a descriptor location. */
  predicate DistinctLocations(infos: seq<ResourceInfo>)
  {
    forall i, j | 0 <= i < |infos| && 0 <= j < |infos| && i != j :: !SameLocation(infos[i], infos[j])
  }

  /**
   * Checking each entry only against the earlier ones catches every
   * duplicate: the declarations are valid exactly when every entry has a
   * buffer type and a known mutability and all locations are distinct.
   */
  lemma ValidIffDistinct(infos: seq<ResourceInfo>)
    ensures ResourcesValid(infos) <==>
      (forall i | 0 <= i < |infos| :: IsBuffer(infos[i].rtype) && MutabilityValid(infos[i]))
      && DistinctLocations(infos)
  {
    if ResourcesValid(infos) {
      forall i | 0 <= i < |infos|
        ensures IsBuffer(infos[i].rtype) && MutabilityValid(infos[i])
      {
        assert EntryValid(infos, i);
      }
      forall i, j | 0 <= i < |infos| && 0 <= j < |infos| && i != j
        ensures !SameLocation(infos[i], infos[j])
      {
        if j < i {
          assert EntryValid(infos, i);
        } else {
          assert EntryValid(infos, j);
        }
      }
    }
    if (forall i | 0 <= i < |infos| :: IsBuffer(infos[i].rtype) && MutabilityValid(infos[i])) && DistinctLocations(infos) {
      forall i | 0 <= i < |infos|
        ensures EntryValid(infos, i)
      {
        forall j | 0 <= j < i
          ensures !SameLocation(infos[i], infos[j])
        {
          assert i != j;
        }
        assert IsBuffer(infos[i].rtype) && MutabilityValid(infos[i]);
      }
    }
  }

  /**
   * The validation loop: the first failing check reports the invalid-info
   * code, which ends the context's creation.
   */
  method ValidateResources(infos: seq<ResourceInfo>) returns (code: i32)
    ensures code == MSG_CODE_SUCCESS <==> ResourcesValid(infos)
    ensures code == MSG_CODE_SUCCESS || code == MSG_CODE_ERROR_VK_RESOURCE_INFO_INVALID
  {
    var i := 0;
    while i < |infos|
      invariant 0 <= i <= |infos|
      invariant forall k | 0 <= k < i :: EntryValid(infos, k)
    {
      if infos[i].rtype != RENDER_RESOURCE_TYPE_STORAGE_BUFFER && infos[i].rtype != RENDER_RESOURCE_TYPE_UNIFORM_BUFFER {
        assert !EntryValid(infos, i);
        return MSG_CODE_ERROR_VK_RESOURCE_INFO_INVALID;
      }
      var j := 0;
      while j < i
        invariant 0 <= j <= i
        invariant forall k | 0 <= k < j :: !SameLocation(infos[i], infos[k])
      {
        if infos[i].setIndex == infos[j].setIndex && infos[i].binding == infos[j].binding {
          assert !EntryValid(infos, i);
          return MSG_CODE_ERROR_VK_RESOURCE_INFO_INVALID;
        }
        j := j + 1;
      }
      if infos[i].mutability != RENDER_RESOURCE_HOST_IMMUTABLE && infos[i].mutability != RENDER_RESOURCE_HOST_MUTABLE {
        assert !EntryValid(infos, i);
        return MSG_CODE_ERROR_VK_RESOURCE_INFO_INVALID;
      }
      i := i + 1;
    }
    return MSG_CODE_SUCCESS;
  }

  // ---------------------------------------------------------------
  // Block layout
  // ---------------------------------------------------------------

  /** Memory requirements the driver reports for one buffer. */
  datatype Requirements = Requirements(size: nat, alignment: nat, memoryTypeBits: bv32)

  /** A running block request: its size so far and its type mask. */
  datatype Aggregate = Aggregate(size: nat, memoryTypeFlags: bv32)

  const EMPTY_AGGREGATE: Aggregate := Aggregate(0, U32_ALL_BITS)

  /** Where a resource's device and host buffers sit in their blocks, if created. */
  datatype Placement = Placement(deviceOffset: Option<nat>, hostOffset: Option<nat>)

  const NO_PLACEMENT: Placement := Placement(None, None)

  datatype Layout = Layout(device: Aggregate, host: Aggregate, placements: seq<Placement>)

  const EMPTY_LAYOUT: Layout := Layout(EMPTY_AGGREGATE, EMPTY_AGGREGATE, [])

  /** A device buffer is created for every immutable buffer, and for a mutable one on a discrete or integrated device. */
  predicate UsesDevice(dt: DeviceType, r: ResourceInfo)
  {
    IsBuffer(r.rtype)
    && (r.mutability == RENDER_RESOURCE_HOST_IMMUTABLE
        || (r.mutability == RENDER_RESOURCE_HOST_MUTABLE && (dt == Discrete || dt == Integrated)))
  }

  /** A host buffer is created only for a mutable buffer on a discrete device. */
  predicate UsesHost(dt: DeviceType, r: ResourceInfo)
  {
    IsBuffer(r.rtype) && r.mutability == RENDER_RESOURCE_HOST_MUTABLE && dt == Discrete
  }

  /** The device block's mask is narrowed for mutable buffers only. */
  predicate NarrowsDevice(dt: DeviceType, r: ResourceInfo)
  {
    UsesDevice(dt, r) && r.mutability == RENDER_RESOURCE_HOST_MUTABLE
  }

  predicate RequirementsAligned(reqs: seq<Requirements>)
  {
    forall i | 0 <= i < |reqs| :: IsPowerOfTwo(reqs[i].alignment)
  }

  /** Where a buffer appended to a block starts: the block size rounded up to the buffer's alignment. */
  function OffsetIn(agg: Aggregate, req: Requirements): (o: nat)
    requires IsPowerOfTwo(req.alignment)
    ensures o % req.alignment == 0 && agg.size <= o < agg.size + req.alignment
  {
    Align(agg.size, req.alignment)
  }

  /** The block once the buffer is appended, with its mask now `mask`. */
  function Grown(agg: Aggregate, req: Requirements, mask: bv32): Aggregate
    requires IsPowerOfTwo(req.alignment)
  {
    Aggregate(OffsetIn(agg, req) + req.size, mask)
  }

  /** One iteration of the creation loop. */
  function LayoutStep(dt: DeviceType, r: ResourceInfo, dreq: Requirements, hreq: Requirements, acc: Layout): (l: Layout)
    requires IsPowerOfTwo(dreq.alignment) && IsPowerOfTwo(hreq.alignment)
    ensures |l.placements| == |acc.placements| + 1 && l.placements[..|acc.placements|] == acc.placements
  {
    if !IsBuffer(r.rtype) then
      acc.(placements := acc.placements + [NO_PLACEMENT])
    else if r.mutability == RENDER_RESOURCE_HOST_IMMUTABLE then
      Layout(Grown(acc.device, dreq, acc.device.memoryTypeFlags), acc.host,
             acc.placements + [Placement(Some(OffsetIn(acc.device, dreq)), None)])
    else if dt == Discrete && r.mutability == RENDER_RESOURCE_HOST_MUTABLE then
      Layout(Grown(acc.device, dreq, acc.device.memoryTypeFlags & dreq.memoryTypeBits),
             Grown(acc.host, hreq, acc.host.memoryTypeFlags & hreq.memoryTypeBits),
             acc.placements + [Placement(Some(OffsetIn(acc.device, dreq)), Some(OffsetIn(acc.host, hreq)))])
    else if dt == Integrated && r.mutability == RENDER_RESOURCE_HOST_MUTABLE then
      Layout(Grown(acc.device, dreq, acc.device.memoryTypeFlags & dreq.memoryTypeBits), acc.host,
             acc.placements + [Placement(Some(OffsetIn(acc.device, dreq)), None)])
    else
      acc.(placements := acc.placements + [NO_PLACEMENT])
  }

  /** The layout after the first `n` declarations. */
  function LayoutOf(dt: DeviceType, infos: seq<ResourceInfo>, dreqs: seq<Requirements>, hreqs: seq<Requirements>, n: nat): (l: Layout)
    requires n <= |infos| == |dreqs| == |hreqs|
    requires RequirementsAligned(dreqs) && RequirementsAligned(hreqs)
    ensures |l.placements| == n
  {
    if n == 0 then EMPTY_LAYOUT
    else LayoutStep(dt, infos[n - 1], dreqs[n - 1], hreqs[n - 1], LayoutOf(dt, infos, dreqs, hreqs, n - 1))
  }

  /** The two blocks, so that their properties are stated once. */
  datatype Side = DeviceSide | HostSide

  function Block(l: Layout, side: Side): Aggregate
  {
    match side
    case DeviceSide => l.device
    case HostSide => l.host
  }

  function OffsetOn(p: Placement, side: Side): Option<nat>
  {
    match side
    case DeviceSide => p.deviceOffset
    case HostSide => p.hostOffset
  }

  function ReqsOn(dreqs: seq<Requirements>, hreqs: seq<Requirements>, side: Side): seq<Requirements>
  {
    match side
    case DeviceSide => dreqs
    case HostSide => hreqs
  }

  predicate UsesOn(dt: DeviceType, r: ResourceInfo, side: Side)
  {
    match side
    case DeviceSide => UsesDevice(dt, r)
    case HostSide => UsesHost(dt, r)
  }

  /** Whether a buffer narrows the block's type mask: every host buffer does. */
  predicate NarrowsOn(dt: DeviceType, r: ResourceInfo, side: Side)
  {
    match side
    case DeviceSide => NarrowsDevice(dt, r)
    case HostSide => UsesHost(dt, r)
  }

  // The device-block facts of one iteration, one lemma each to keep their proofs small.
  lemma StepDevicePresence(dt: DeviceType, r: ResourceInfo, dreq: Requirements, hreq: Requirements, acc: Layout)
    requires IsPowerOfTwo(dreq.alignment) && IsPowerOfTwo(hreq.alignment)
    ensures var l := LayoutStep(dt, r, dreq, hreq, acc);
      var o := l.placements[|acc.placements|].deviceOffset;
      (o.Some? <==> UsesDevice(dt, r))
  {
  }
  lemma StepDeviceOffset(dt: DeviceType, r: ResourceInfo, dreq: Requirements, hreq: Requirements, acc: Layout)
    requires IsPowerOfTwo(dreq.alignment) && IsPowerOfTwo(hreq.alignment)
    ensures var l := LayoutStep(dt, r, dreq, hreq, acc);
      var o := l.placements[|acc.placements|].deviceOffset;
      (o.Some? ==> o.value % dreq.alignment == 0 && acc.device.size <= o.value && o.value + dreq.size == l.device.size)
  {
  }
  lemma StepDeviceNarrow(dt: DeviceType, r: ResourceInfo, dreq: Requirements, hreq: Requirements, acc: Layout)
    requires IsPowerOfTwo(dreq.alignment) && IsPowerOfTwo(hreq.alignment)
    ensures var l := LayoutStep(dt, r, dreq, hreq, acc);
      (NarrowsDevice(dt, r) ==> l.device.memoryTypeFlags == acc.device.memoryTypeFlags & dreq.memoryTypeBits)
  {
  }
  lemma StepDeviceKeep(dt: DeviceType, r: ResourceInfo, dreq: Requirements, hreq: Requirements, acc: Layout)
    requires IsPowerOfTwo(dreq.alignment) && IsPowerOfTwo(hreq.alignment)
    ensures var l := LayoutStep(dt, r, dreq, hreq, acc);
      (!NarrowsDevice(dt, r) ==> l.device.memoryTypeFlags == acc.device.memoryTypeFlags)
      && (!UsesDevice(dt, r) ==> l.device == acc.device)
  {
  }

  /** What one iteration does to the device block. */
  predicate StepDeviceFacts(dt: DeviceType, r: ResourceInfo, dreq: Requirements, hreq: Requirements, acc: Layout)
    requires IsPowerOfTwo(dreq.alignment) && IsPowerOfTwo(hreq.alignment)
  {
    var l := LayoutStep(dt, r, dreq, hreq, acc);
    var o := l.placements[|acc.placements|].deviceOffset;
    (o.Some? <==> UsesDevice(dt, r))
    && (o.Some? ==> o.value % dreq.alignment == 0 && acc.device.size <= o.value && o.value + dreq.size == l.device.size)
    && acc.device.size <= l.device.size
    && (NarrowsDevice(dt, r) ==> l.device.memoryTypeFlags == acc.device.memoryTypeFlags & dreq.memoryTypeBits)
    && (!NarrowsDevice(dt, r) ==> l.device.memoryTypeFlags == acc.device.memoryTypeFlags)
    && (!UsesDevice(dt, r) ==> l.device == acc.device)
  }

  lemma StepDevice(dt: DeviceType, r: ResourceInfo, dreq: Requirements, hreq: Requirements, acc: Layout)
    requires IsPowerOfTwo(dreq.alignment) && IsPowerOfTwo(hreq.alignment)
    ensures StepDeviceFacts(dt, r, dreq, hreq, acc)
  {
    StepDevicePresence(dt, r, dreq, hreq, acc);
    StepDeviceOffset(dt, r, dreq, hreq, acc);
    StepDeviceNarrow(dt, r, dreq, hreq, acc);
    StepDeviceKeep(dt, r, dreq, hreq, acc);
  }

  /** What one iteration does to the host block. */
  predicate StepHostFacts(dt: DeviceType, r: ResourceInfo, dreq: Requirements, hreq: Requirements, acc: Layout)
    requires IsPowerOfTwo(dreq.alignment) && IsPowerOfTwo(hreq.alignment)
  {
    var l := LayoutStep(dt, r, dreq, hreq, acc);
    var o := l.placements[|acc.placements|].hostOffset;
    (o.Some? <==> UsesHost(dt, r))
    && (o.Some? ==> o.value % hreq.alignment == 0 && acc.host.size <= o.value && o.value + hreq.size == l.host.size)
    && acc.host.size <= l.host.size
    && (UsesHost(dt, r) ==> l.host.memoryTypeFlags == acc.host.memoryTypeFlags & hreq.memoryTypeBits)
    && (!UsesHost(dt, r) ==> l.host == acc.host)
  }

  lemma StepHost(dt: DeviceType, r: ResourceInfo, dreq: Requirements, hreq: Requirements, acc: Layout)
    requires IsPowerOfTwo(dreq.alignment) && IsPowerOfTwo(hreq.alignment)
    ensures StepHostFacts(dt, r, dreq, hreq, acc)
  {
    if UsesHost(dt, r) {
      var _ := OffsetIn(acc.host, hreq);
    }
  }

  /**
   * One iteration seen from one block: the placements grow by one, the new
   * placement has an offset exactly when the resource uses the block, the
   * offset is aligned and the buffer closes the grown block, and the mask
   * is ANDed with the buffer's bits exactly when the resource narrows it.
   */
  predicate Stepped(acc: Layout, l: Layout, side: Side, req: Requirements, uses: bool, narrows: bool)
    requires IsPowerOfTwo(req.alignment)
  {
    |l.placements| == |acc.placements| + 1 && l.placements[..|acc.placements|] == acc.placements
    && var o := OffsetOn(l.placements[|acc.placements|], side);
    (o.Some? <==> uses)
    && (o.Some? ==> o.value % req.alignment == 0 && Block(acc, side).size <= o.value
                    && o.value + req.size == Block(l, side).size)
    && Block(acc, side).size <= Block(l, side).size
    && (narrows ==> Block(l, side).memoryTypeFlags == Block(acc, side).memoryTypeFlags & req.memoryTypeBits)
    && (!narrows ==> Block(l, side).memoryTypeFlags == Block(acc, side).memoryTypeFlags)
    && (!uses ==> Block(l, side) == Block(acc, side))
  }

  lemma StepOn(dt: DeviceType, r: ResourceInfo, dreq: Requirements, hreq: Requirements, acc: Layout, side: Side)
    requires IsPowerOfTwo(dreq.alignment) && IsPowerOfTwo(hreq.alignment)
    ensures Stepped(acc, LayoutStep(dt, r, dreq, hreq, acc), side, if side == DeviceSide then dreq else hreq,
                    UsesOn(dt, r, side), NarrowsOn(dt, r, side))
  {
    match side
    case DeviceSide => StepDevice(dt, r, dreq, hreq, acc);
    case HostSide => StepHost(dt, r, dreq, hreq, acc);
  }

  /** The layout after `n + 1` declarations is one step from the layout after `n`. */
  lemma StepOf(dt: DeviceType, infos: seq<ResourceInfo>, dreqs: seq<Requirements>, hreqs: seq<Requirements>, n: nat, side: Side)
    requires n < |infos| == |dreqs| == |hreqs|
    requires RequirementsAligned(dreqs) && RequirementsAligned(hreqs)
    ensures IsPowerOfTwo(ReqsOn(dreqs, hreqs, side)[n].alignment)
    ensures Stepped(LayoutOf(dt, infos, dreqs, hreqs, n), LayoutOf(dt, infos, dreqs, hreqs, n + 1), side,
                    ReqsOn(dreqs, hreqs, side)[n], UsesOn(dt, infos[n], side), NarrowsOn(dt, infos[n], side))
  {
    StepOn(dt, infos[n], dreqs[n], hreqs[n], LayoutOf(dt, infos, dreqs, hreqs, n), side);
  }

  /** A buffer is placed in a block exactly when it has a buffer of that block's kind. */
  predicate PresenceFacts(dt: DeviceType, infos: seq<ResourceInfo>, n: nat, l: Layout, side: Side)
    requires n <= |infos| && |l.placements| == n
  {
    forall i | 0 <= i < n :: OffsetOn(l.placements[i], side).Some? <==> UsesOn(dt, infos[i], side)
  }

  /** Every placed buffer starts aligned and ends inside its block. */
  predicate PlacedInside(reqs: seq<Requirements>, n: nat, l: Layout, side: Side)
    requires n <= |reqs| && |l.placements| == n && RequirementsAligned(reqs)
  {
    forall i | 0 <= i < n && OffsetOn(l.placements[i], side).Some? ::
      OffsetOn(l.placements[i], side).value % reqs[i].alignment == 0
      && OffsetOn(l.placements[i], side).value + reqs[i].size <= Block(l, side).size
  }

  /** A placed buffer ends no later than any buffer placed after it starts. */
  predicate Disjoint(reqs: seq<Requirements>, n: nat, l: Layout, side: Side)
    requires n <= |reqs| && |l.placements| == n
  {
    forall i, j | 0 <= i < j < n && OffsetOn(l.placements[i], side).Some? && OffsetOn(l.placements[j], side).Some? ::
      OffsetOn(l.placements[i], side).value + reqs[i].size <= OffsetOn(l.placements[j], side).value
  }

  /**
   * The block's mask keeps no bit that a narrowing buffer's requirements
   * lack, and stays all ones when no buffer narrows it.
   */
  predicate MaskFacts(dt: DeviceType, infos: seq<ResourceInfo>, reqs: seq<Requirements>, n: nat, l: Layout, side: Side)
    requires n <= |infos| && n <= |reqs|
  {
    (forall i | 0 <= i < n && NarrowsOn(dt, infos[i], side) ::
       Block(l, side).memoryTypeFlags & reqs[i].memoryTypeBits == Block(l, side).memoryTypeFlags)
    && ((forall i | 0 <= i < n :: !NarrowsOn(dt, infos[i], side)) ==> Block(l, side).memoryTypeFlags == U32_ALL_BITS)
  }

  // Each fact carried over one iteration, stated without the iteration itself.

  lemma PresenceStep(dt: DeviceType, infos: seq<ResourceInfo>, reqs: seq<Requirements>, n: nat, acc: Layout, l: Layout, side: Side)
    requires n < |infos| && n < |reqs| && IsPowerOfTwo(reqs[n].alignment) && |acc.placements| == n
    requires Stepped(acc, l, side, reqs[n], UsesOn(dt, infos[n], side), NarrowsOn(dt, infos[n], side))
    requires PresenceFacts(dt, infos, n, acc, side)
    ensures PresenceFacts(dt, infos, n + 1, l, side)
  {
    assert forall i | 0 <= i < n :: l.placements[i] == acc.placements[i];
  }

  lemma PlacedInsideStep(dt: DeviceType, infos: seq<ResourceInfo>, reqs: seq<Requirements>, n: nat, acc: Layout, l: Layout, side: Side)
    requires n < |infos| && n < |reqs| && RequirementsAligned(reqs) && |acc.placements| == n
    requires Stepped(acc, l, side, reqs[n], UsesOn(dt, infos[n], side), NarrowsOn(dt, infos[n], side))
    requires PlacedInside(reqs, n, acc, side)
    ensures PlacedInside(reqs, n + 1, l, side)
  {
    assert forall i | 0 <= i < n :: l.placements[i] == acc.placements[i];
  }

  lemma DisjointStep(dt: DeviceType, infos: seq<ResourceInfo>, reqs: seq<Requirements>, n: nat, acc: Layout, l: Layout, side: Side)
    requires n < |infos| && n < |reqs| && RequirementsAligned(reqs) && |acc.placements| == n
    requires Stepped(acc, l, side, reqs[n], UsesOn(dt, infos[n], side), NarrowsOn(dt, infos[n], side))
    requires PlacedInside(reqs, n, acc, side) && Disjoint(reqs, n, acc, side)
    ensures Disjoint(reqs, n + 1, l, side)
  {
    assert forall i | 0 <= i < n :: l.placements[i] == acc.placements[i];
  }

  lemma MaskStep(dt: DeviceType, infos: seq<ResourceInfo>, reqs: seq<Requirements>, n: nat, acc: Layout, l: Layout, side: Side)
    requires n < |infos| && n < |reqs| && IsPowerOfTwo(reqs[n].alignment) && |acc.placements| == n
    requires Stepped(acc, l, side, reqs[n], UsesOn(dt, infos[n], side), NarrowsOn(dt, infos[n], side))
    requires MaskFacts(dt, infos, reqs, n, acc, side)
    ensures MaskFacts(dt, infos, reqs, n + 1, l, side)
  {
  }

  lemma {:induction false} PresenceHolds(dt: DeviceType, infos: seq<ResourceInfo>, dreqs: seq<Requirements>, hreqs: seq<Requirements>, n: nat, side: Side)
    requires n <= |infos| == |dreqs| == |hreqs|
    requires RequirementsAligned(dreqs) && RequirementsAligned(hreqs)
    ensures PresenceFacts(dt, infos, n, LayoutOf(dt, infos, dreqs, hreqs, n), side)
  {
    if n > 0 {
      PresenceHolds(dt, infos, dreqs, hreqs, n - 1, side);
      StepOf(dt, infos, dreqs, hreqs, n - 1, side);
      PresenceStep(dt, infos, ReqsOn(dreqs, hreqs, side), n - 1, LayoutOf(dt, infos, dreqs, hreqs, n - 1), LayoutOf(dt, infos, dreqs, hreqs, n), side);
    }
  }

  lemma {:induction false} PlacedInsideHolds(dt: DeviceType, infos: seq<ResourceInfo>, dreqs: seq<Requirements>, hreqs: seq<Requirements>, n: nat, side: Side)
    requires n <= |infos| == |dreqs| == |hreqs|
    requires RequirementsAligned(dreqs) && RequirementsAligned(hreqs)
    ensures PlacedInside(ReqsOn(dreqs, hreqs, side), n, LayoutOf(dt, infos, dreqs, hreqs, n), side)
  {
    if n > 0 {
      PlacedInsideHolds(dt, infos, dreqs, hreqs, n - 1, side);
      StepOf(dt, infos, dreqs, hreqs, n - 1, side);
      PlacedInsideStep(dt, infos, ReqsOn(dreqs, hreqs, side), n - 1, LayoutOf(dt, infos, dreqs, hreqs, n - 1), LayoutOf(dt, infos, dreqs, hreqs, n), side);
    }
  }

  lemma {:induction false} DisjointHolds(dt: DeviceType, infos: seq<ResourceInfo>, dreqs: seq<Requirements>, hreqs: seq<Requirements>, n: nat, side: Side)
    requires n <= |infos| == |dreqs| == |hreqs|
    requires RequirementsAligned(dreqs) && RequirementsAligned(hreqs)
    ensures Disjoint(ReqsOn(dreqs, hreqs, side), n, LayoutOf(dt, infos, dreqs, hreqs, n), side)
  {
    if n > 0 {
      DisjointHolds(dt, infos, dreqs, hreqs, n - 1, side);
      PlacedInsideHolds(dt, infos, dreqs, hreqs, n - 1, side);
      DisjointOnStep(dt, infos, dreqs, hreqs, n - 1, side);
    }
  }

  /** Disjointness carried from the layout after `n` declarations to the one after `n + 1`. */
  lemma DisjointOnStep(dt: DeviceType, infos: seq<ResourceInfo>, dreqs: seq<Requirements>, hreqs: seq<Requirements>, n: nat, side: Side)
    requires n < |infos| == |dreqs| == |hreqs|
    requires RequirementsAligned(dreqs) && RequirementsAligned(hreqs)
    requires PlacedInside(ReqsOn(dreqs, hreqs, side), n, LayoutOf(dt, infos, dreqs, hreqs, n), side)
    requires Disjoint(ReqsOn(dreqs, hreqs, side), n, LayoutOf(dt, infos, dreqs, hreqs, n), side)
    ensures Disjoint(ReqsOn(dreqs, hreqs, side), n + 1, LayoutOf(dt, infos, dreqs, hreqs, n + 1), side)
  {
    StepOf(dt, infos, dreqs, hreqs, n, side);
    DisjointStep(dt, infos, ReqsOn(dreqs, hreqs, side), n, LayoutOf(dt, infos, dreqs, hreqs, n), LayoutOf(dt, infos, dreqs, hreqs, n + 1), side);
  }

  lemma {:induction false} MaskHolds(dt: DeviceType, infos: seq<ResourceInfo>, dreqs: seq<Requirements>, hreqs: seq<Requirements>, n: nat, side: Side)
    requires n <= |infos| == |dreqs| == |hreqs|
    requires RequirementsAligned(dreqs) && RequirementsAligned(hreqs)
    ensures MaskFacts(dt, infos, ReqsOn(dreqs, hreqs, side), n, LayoutOf(dt, infos, dreqs, hreqs, n), side)
  {
    if n > 0 {
      MaskHolds(dt, infos, dreqs, hreqs, n - 1, side);
      MaskOnStep(dt, infos, dreqs, hreqs, n, side);
    }
  }

  /** The mask facts carried from the layout after `n - 1` declarations to the one after `n`. */
  lemma MaskOnStep(dt: DeviceType, infos: seq<ResourceInfo>, dreqs: seq<Requirements>, hreqs: seq<Requirements>, n: nat, side: Side)
    requires 0 < n <= |infos| == |dreqs| == |hreqs|
    requires RequirementsAligned(dreqs) && RequirementsAligned(hreqs)
    requires MaskFacts(dt, infos, ReqsOn(dreqs, hreqs, side), n - 1, LayoutOf(dt, infos, dreqs, hreqs, n - 1), side)
    ensures MaskFacts(dt, infos, ReqsOn(dreqs, hreqs, side), n, LayoutOf(dt, infos, dreqs, hreqs, n), side)
  {
    StepOf(dt, infos, dreqs, hreqs, n - 1, side);
    MaskStep(dt, infos, ReqsOn(dreqs, hreqs, side), n - 1, LayoutOf(dt, infos, dreqs, hreqs, n - 1), LayoutOf(dt, infos, dreqs, hreqs, n), side);
  }

  /** With no host buffer the host block is never touched. */
  lemma {:induction false} HostUntouched(dt: DeviceType, infos: seq<ResourceInfo>, dreqs: seq<Requirements>, hreqs: seq<Requirements>, n: nat)
    requires n <= |infos| == |dreqs| == |hreqs|
    requires RequirementsAligned(dreqs) && RequirementsAligned(hreqs)
    requires forall i | 0 <= i < n :: !UsesHost(dt, infos[i])
    ensures LayoutOf(dt, infos, dreqs, hreqs, n).host == EMPTY_AGGREGATE
  {
    if n > 0 {
      HostUntouched(dt, infos, dreqs, hreqs, n - 1);
      StepOf(dt, infos, dreqs, hreqs, n - 1, HostSide);
    }
  }

  /**
   * The block layout of all declarations, for either block: a buffer is
   * placed exactly when it has a buffer of that kind, every placed buffer
   * starts at a multiple of its alignment and ends inside the block, placed
   * buffers do not overlap, and the mask is narrowed only by AND.
   */
  lemma BlockLayout(dt: DeviceType, infos: seq<ResourceInfo>, dreqs: seq<Requirements>, hreqs: seq<Requirements>, side: Side)
    requires |infos| == |dreqs| == |hreqs|
    requires RequirementsAligned(dreqs) && RequirementsAligned(hreqs)
    ensures var l := LayoutOf(dt, infos, dreqs, hreqs, |infos|);
      var reqs := ReqsOn(dreqs, hreqs, side);
      PresenceFacts(dt, infos, |infos|, l, side)
      && PlacedInside(reqs, |infos|, l, side)
      && Disjoint(reqs, |infos|, l, side)
      && MaskFacts(dt, infos, reqs, |infos|, l, side)
  {
    PresenceHolds(dt, infos, dreqs, hreqs, |infos|, side);
    PlacedInsideHolds(dt, infos, dreqs, hreqs, |infos|, side);
    DisjointHolds(dt, infos, dreqs, hreqs, |infos|, side);
    MaskHolds(dt, infos, dreqs, hreqs, |infos|, side);
  }

  /**
   * Only a discrete device has a host block: on any other device, and
   * whenever no buffer is mutable, it stays empty with an all-ones mask.
   */
  lemma HostBlockOnlyDiscrete(dt: DeviceType, infos: seq<ResourceInfo>, dreqs: seq<Requirements>, hreqs: seq<Requirements>)
    requires |infos| == |dreqs| == |hreqs|
    requires RequirementsAligned(dreqs) && RequirementsAligned(hreqs)
    ensures dt != Discrete ==> LayoutOf(dt, infos, dreqs, hreqs, |infos|).host == EMPTY_AGGREGATE
    ensures (forall i | 0 <= i < |infos| :: infos[i].mutability != RENDER_RESOURCE_HOST_MUTABLE) ==>
      LayoutOf(dt, infos, dreqs, hreqs, |infos|).host == EMPTY_AGGREGATE
  {
    if dt != Discrete || (forall i | 0 <= i < |infos| :: infos[i].mutability != RENDER_RESOURCE_HOST_MUTABLE) {
      HostUntouched(dt, infos, dreqs, hreqs, |infos|);
    }
  }

  /** An immutable buffer gets a device placement and no host placement, and does not narrow the mask. */
  lemma ImmutableDeviceOnly(dt: DeviceType, infos: seq<ResourceInfo>, dreqs: seq<Requirements>, hreqs: seq<Requirements>, k: nat)
    requires |infos| == |dreqs| == |hreqs| && k < |infos|
    requires RequirementsAligned(dreqs) && RequirementsAligned(hreqs)
    requires IsBuffer(infos[k].rtype) && infos[k].mutability == RENDER_RESOURCE_HOST_IMMUTABLE
    ensures var p := LayoutOf(dt, infos, dreqs, hreqs, |infos|).placements[k];
      p.deviceOffset.Some? && p.hostOffset.None?
    ensures !NarrowsDevice(dt, infos[k])
  {
    PresenceHolds(dt, infos, dreqs, hreqs, |infos|, DeviceSide);
    PresenceHolds(dt, infos, dreqs, hreqs, |infos|, HostSide);
  }

  /** A placement, once made, is not moved by later declarations. */
  lemma {:induction false} PlacementStable(dt: DeviceType, infos: seq<ResourceInfo>, dreqs: seq<Requirements>, hreqs: seq<Requirements>, k: nat, n: nat)
    requires k < n <= |infos| == |dreqs| == |hreqs|
    requires RequirementsAligned(dreqs) && RequirementsAligned(hreqs)
    ensures LayoutOf(dt, infos, dreqs, hreqs, n).placements[k] == LayoutOf(dt, infos, dreqs, hreqs, k + 1).placements[k]
  {
    if n > k + 1 {
      PlacementStable(dt, infos, dreqs, hreqs, k, n - 1);
    }
  }

  // ---------------------------------------------------------------
  // The resource grid
  // ---------------------------------------------------------------

  /** One cell of the grid; a cell whose type is NONE is unused. */
  datatype Resource = Resource(rtype: nat, size: nat, placement: Placement)

  const NO_RESOURCE: Resource := Resource(RENDER_RESOURCE_TYPE_NONE, 0, NO_PLACEMENT)

  datatype Location = Location(setIndex: nat, binding: nat)

  predicate InGrid(infos: seq<ResourceInfo>)
  {
    forall i | 0 <= i < |infos| :: infos[i].setIndex < MAX_DESCRIPTOR_SETS && infos[i].binding < MAX_BINDINGS_PER_SET
  }

  /** The locations of the first `n` declarations, in order. */
  function Locations(infos: seq<ResourceInfo>, n: nat): (r: seq<Location>)
    requires n <= |infos|
    ensures |r| == n
    ensures forall i | 0 <= i < n :: r[i] == Location(infos[i].setIndex, infos[i].binding)
  {
    if n == 0 then [] else Locations(infos, n - 1) + [Location(infos[n - 1].setIndex, infos[n - 1].binding)]
  }

  /**
   * The cell at set `s`, binding `b` after the first `n` declarations were
   * written into a grid whose cell held `initial`: the last declaration
   * at that location wins.
   */
  function CellAfter(initial: Resource, dt: DeviceType, infos: seq<ResourceInfo>, dreqs: seq<Requirements>, hreqs: seq<Requirements>, s: nat, b: nat, n: nat): Resource
    requires n <= |infos| == |dreqs| == |hreqs|
    requires RequirementsAligned(dreqs) && RequirementsAligned(hreqs)
  {
    if n == 0 then initial
    else if infos[n - 1].setIndex == s && infos[n - 1].binding == b then
      Resource(infos[n - 1].rtype, infos[n - 1].size, LayoutOf(dt, infos, dreqs, hreqs, n).placements[n - 1])
    else CellAfter(initial, dt, infos, dreqs, hreqs, s, b, n - 1)
  }

  lemma {:induction false} CellOfResource(initial: Resource, dt: DeviceType, infos: seq<ResourceInfo>, dreqs: seq<Requirements>, hreqs: seq<Requirements>, k: nat, n: nat)
    requires k < n <= |infos| == |dreqs| == |hreqs|
    requires RequirementsAligned(dreqs) && RequirementsAligned(hreqs)
    requires ResourcesValid(infos)
    ensures CellAfter(initial, dt, infos, dreqs, hreqs, infos[k].setIndex, infos[k].binding, n)
      == Resource(infos[k].rtype, infos[k].size, LayoutOf(dt, infos, dreqs, hreqs, k + 1).placements[k])
  {
    if n > k + 1 {
      assert EntryValid(infos, n - 1);
      assert !SameLocation(infos[n - 1], infos[k]);
      CellOfResource(initial, dt, infos, dreqs, hreqs, k, n - 1);
    }
  }

  lemma {:induction false} CellUntouched(initial: Resource, dt: DeviceType, infos: seq<ResourceInfo>, dreqs: seq<Requirements>, hreqs: seq<Requirements>, s: nat, b: nat, n: nat)
    requires n <= |infos| == |dreqs| == |hreqs|
    requires RequirementsAligned(dreqs) && RequirementsAligned(hreqs)
    requires forall k | 0 <= k < n :: !(infos[k].setIndex == s && infos[k].binding == b)
    ensures CellAfter(initial, dt, infos, dreqs, hreqs, s, b, n) == initial
  {
    if n > 0 {
      CellUntouched(initial, dt, infos, dreqs, hreqs, s, b, n - 1);
    }
  }

  /**
   * With valid declarations each one lands in its own cell, carrying its
   * type, size and placement; a cell no declaration names keeps its value.
   */
  lemma GridHoldsEachResource(initial: Resource, dt: DeviceType, infos: seq<ResourceInfo>, dreqs: seq<Requirements>, hreqs: seq<Requirements>)
    requires |infos| == |dreqs| == |hreqs|
    requires RequirementsAligned(dreqs) && RequirementsAligned(hreqs)
    requires ResourcesValid(infos)
    ensures forall k | 0 <= k < |infos| ::
      CellAfter(initial, dt, infos, dreqs, hreqs, infos[k].setIndex, infos[k].binding, |infos|)
      == Resource(infos[k].rtype, infos[k].size, LayoutOf(dt, infos, dreqs, hreqs, |infos|).placements[k])
    ensures forall s: nat, b: nat | (forall k | 0 <= k < |infos| :: !(infos[k].setIndex == s && infos[k].binding == b)) ::
      CellAfter(initial, dt, infos, dreqs, hreqs, s, b, |infos|) == initial
  {
    forall k | 0 <= k < |infos|
      ensures CellAfter(initial, dt, infos, dreqs, hreqs, infos[k].setIndex, infos[k].binding, |infos|)
        == Resource(infos[k].rtype, infos[k].size, LayoutOf(dt, infos, dreqs, hreqs, |infos|).placements[k])
    {
      CellOfResource(initial, dt, infos, dreqs, hreqs, k, |infos|);
      PlacementStable(dt, infos, dreqs, hreqs, k, |infos|);
    }
    forall s: nat, b: nat | (forall k | 0 <= k < |infos| :: !(infos[k].setIndex == s && infos[k].binding == b))
      ensures CellAfter(initial, dt, infos, dreqs, hreqs, s, b, |infos|) == initial
    {
      CellUntouched(initial, dt, infos, dreqs, hreqs, s, b, |infos|);
    }
  }

  /** The grid and plain list of the render context. */
  class ResourceTable {
    const grid: array2<Resource>
    var plain: seq<Location>

    predicate Valid()
      reads this
    {
      grid.Length0 == MAX_DESCRIPTOR_SETS && grid.Length1 == MAX_BINDINGS_PER_SET
    }

    /** The zeroed grid of a freshly allocated render context. */
    constructor ()
      ensures Valid() && fresh(grid) && plain == []
      ensures forall s, b | 0 <= s < MAX_DESCRIPTOR_SETS && 0 <= b < MAX_BINDINGS_PER_SET :: grid[s, b] == NO_RESOURCE
    {
      grid := new Resource[MAX_DESCRIPTOR_SETS, MAX_BINDINGS_PER_SET]((_, _) => NO_RESOURCE);
      plain := [];
    }

    /**
     * The creation loop: each declaration is written into its grid cell
     * and listed, and its buffers are placed in the device and host blocks.
     * The grid indices are not checked, so they must lie inside the grid.
     */
    method CreateResources(dt: DeviceType, infos: seq<ResourceInfo>, dreqs: seq<Requirements>, hreqs: seq<Requirements>)
      returns (layout: Layout)
      requires Valid() && InGrid(infos)
      requires |infos| == |dreqs| == |hreqs|
      requires RequirementsAligned(dreqs) && RequirementsAligned(hreqs)
      modifies this, grid
      ensures Valid()
      ensures layout == LayoutOf(dt, infos, dreqs, hreqs, |infos|)
      ensures plain == old(plain) + Locations(infos, |infos|)
      ensures forall s, b | 0 <= s < MAX_DESCRIPTOR_SETS && 0 <= b < MAX_BINDINGS_PER_SET ::
        grid[s, b] == CellAfter(old(grid[s, b]), dt, infos, dreqs, hreqs, s, b, |infos|)
    {
      layout := EMPTY_LAYOUT;
      var i := 0;
      while i < |infos|
        invariant 0 <= i <= |infos|
        invariant layout == LayoutOf(dt, infos, dreqs, hreqs, i)
        invariant plain == old(plain) + Locations(infos, i)
        invariant forall s, b | 0 <= s < MAX_DESCRIPTOR_SETS && 0 <= b < MAX_BINDINGS_PER_SET ::
          grid[s, b] == CellAfter(old(grid[s, b]), dt, infos, dreqs, hreqs, s, b, i)
      {
        var r := infos[i];
        plain := plain + [Location(r.setIndex, r.binding)];
        layout := LayoutStep(dt, r, dreqs[i], hreqs[i], layout);
        grid[r.setIndex, r.binding] := Resource(r.rtype, r.size, layout.placements[i]);
        i := i + 1;
      }
    }
  }

  // ---------------------------------------------------------------
  // Arena blocks
  // ---------------------------------------------------------------

  /** The arena request for a block: no property bits are required or forbidden. */
  function BlockRequest(agg: Aggregate): Request
  {
    Request(agg.size, 0, 0, agg.memoryTypeFlags)
  }

  /** The slots granted to the two blocks. */
  datatype Blocks = Blocks(host: Option<nat>, device: Option<nat>)

  /**
   * The block requests: the host block first and then the device block,
   * each only when its size is non-zero; a refused request reports the
   * VRAM allocation error.
   */
  function AllocateBlocks(types: seq<MemoryType>, a: Arena, layout: Layout, hostDriver: DriverAnswer, deviceDriver: DriverAnswer): (Arena, Result<Blocks>)
    requires ArenaValid(types, a)
  {
    var (a1, host) := if layout.host.size != 0 then Allocate(TypeIndexBit, types, a, BlockRequest(layout.host), hostDriver) else (a, None);
    AllocatePreservesValid(TypeIndexBit, types, a, BlockRequest(layout.host), hostDriver);
    if layout.host.size != 0 && host.None? then (a1, Err(MSG_CODE_ERROR_VK_ALLOCATE_VRAM))
    else
      var (a2, device) := if layout.device.size != 0 then Allocate(TypeIndexBit, types, a1, BlockRequest(layout.device), deviceDriver) else (a1, None);
      if layout.device.size != 0 && device.None? then (a2, Err(MSG_CODE_ERROR_VK_ALLOCATE_VRAM))
      else (a2, Ok(Blocks(host, device)))
  }

  /** A block is asked for only when it is non-empty; two empty blocks leave the arena untouched. */
  lemma BlocksOnlyWhenNonEmpty(types: seq<MemoryType>, a: Arena, layout: Layout, hostDriver: DriverAnswer, deviceDriver: DriverAnswer)
    requires ArenaValid(types, a)
    ensures var (a', r) := AllocateBlocks(types, a, layout, hostDriver, deviceDriver);
      (r.Ok? && layout.host.size == 0 ==> r.value.host.None?)
      && (r.Ok? && layout.device.size == 0 ==> r.value.device.None?)
      && (r.Ok? && layout.host.size != 0 ==> r.value.host.Some?)
      && (r.Ok? && layout.device.size != 0 ==> r.value.device.Some?)
      && (layout.host.size == 0 && layout.device.size == 0 ==> a' == a && r == Ok(Blocks(None, None)))
      && (r.Err? ==> r.code == MSG_CODE_ERROR_VK_ALLOCATE_VRAM)
  {
  }

  /** Requesting the blocks through the context's arena. */
  method RequestBlocks(mem: VulkanMemory, layout: Layout, hostDriver: DriverAnswer, deviceDriver: DriverAnswer)
    returns (r: Result<Blocks>)
    requires mem.Valid()
    modifies mem, mem.allocations
    ensures mem.Valid()
    ensures (mem.State(), r) == AllocateBlocks(mem.memoryTypes, old(mem.State()), layout, hostDriver, deviceDriver)
  {
    var host: Option<nat> := None;
    if layout.host.size != 0 {
      host := mem.AllocateVram(TypeIndexBit, BlockRequest(layout.host), hostDriver);
      if host.None? {
        return Err(MSG_CODE_ERROR_VK_ALLOCATE_VRAM);
      }
    }
    var device: Option<nat> := None;
    if layout.device.size != 0 {
      device := mem.AllocateVram(TypeIndexBit, BlockRequest(layout.device), deviceDriver);
      if device.None? {
        return Err(MSG_CODE_ERROR_VK_ALLOCATE_VRAM);
      }
    }
    return Ok(Blocks(host, device));
  }
}
