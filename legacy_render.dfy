/**
 * The older render context's bindings: the mapping of declared bindings to
 * descriptor-set layout entries, the resource nodes built from them with
 * the running layout of their buffers inside one device block and one host
 * block, and the binding of those buffers to the two blocks.
 *
 * Buffer creation is the driver's: the iteration that creates a node's
 * buffers is given the memory requirements the driver reports for its
 * device buffer and for its host buffer.
 *
 * The node loop reads the first declared binding on every iteration
 * instead of the current one; `Reading` makes both that and the evident
 * intent available, and the properties of the node list are proved for the
 * intended one.
 */
module LegacyRender {
  import opened Base
  import Memory
  import Resources
  import Descriptors

  const MAX_DESCRIPTOR_BINDING_COUNT: nat := 32

  type Requirements = Resources.Requirements

  datatype BindingType = BindingNone | BindingUniform | BindingStorage | BindingOther
  datatype BindingUsage = DeviceOnly | HostDevice | UsageOther

  /** One declared binding; the two write callbacks are represented by their presence. */
  datatype RenderBinding = RenderBinding(btype: BindingType, usage: BindingUsage, binding: nat, size: nat,
                                         hasInitialBatch: bool, hasFrameBatch: bool)

  /** The errors this part of context creation reports before returning. */
  datatype LegacyError = TooManyBindings | InvalidBindingType | BindingUsageInvalid | BindingTypeInvalid

  // ---------------------------------------------------------------
  // Descriptor-set layout entries
  // ---------------------------------------------------------------

  /** The descriptor type a binding type maps to, if it maps to one. */
  function DescriptorTypeOf(t: BindingType): Option<nat>
  {
    match t
    case BindingUniform => Some(Descriptors.DESCRIPTOR_TYPE_UNIFORM_BUFFER)
    case BindingStorage => Some(Descriptors.DESCRIPTOR_TYPE_STORAGE_BUFFER)
    case _ => None
  }

  /** Whether every declared binding maps to a descriptor type, within the entry cap. */
  predicate DescriptorsMap(bindings: seq<RenderBinding>)
  {
    |bindings| <= MAX_DESCRIPTOR_BINDING_COUNT
    && forall i | 0 <= i < |bindings| :: DescriptorTypeOf(bindings[i].btype).Some?
  }

  /** Entry `i` of the layout carries binding `i`'s slot and its descriptor type. */
  predicate LayoutOf(bindings: seq<RenderBinding>, layout: seq<Descriptors.LayoutBinding>)
  {
    |layout| == |bindings|
    && forall i | 0 <= i < |bindings| ::
         layout[i].binding == bindings[i].binding
         && DescriptorTypeOf(bindings[i].btype) == Some(layout[i].descriptorType)
  }

  /**
   * The layout entries of the declared bindings, one per binding in order.
   * More than 32 bindings is rejected before any entry is written; a binding
   * that is neither a uniform nor a storage buffer is rejected when reached.
   */
  method MapDescriptorBindings(bindings: seq<RenderBinding>) returns (failure: Option<LegacyError>, layout: seq<Descriptors.LayoutBinding>)
    ensures failure == Some(TooManyBindings) <==> |bindings| > MAX_DESCRIPTOR_BINDING_COUNT
    ensures failure.None? <==> DescriptorsMap(bindings)
    ensures failure.Some? ==> failure == Some(TooManyBindings) || failure == Some(InvalidBindingType)
    ensures failure.None? ==> LayoutOf(bindings, layout)
  {
    layout := [];
    if |bindings| > MAX_DESCRIPTOR_BINDING_COUNT {
      return Some(TooManyBindings), layout;
    }
    var i := 0;
    while i < |bindings|
      invariant 0 <= i <= |bindings| && |layout| == i
      invariant forall j | 0 <= j < i :: DescriptorTypeOf(bindings[j].btype).Some?
      invariant LayoutOf(bindings[..i], layout)
    {
      var entry := Descriptors.LayoutBinding(bindings[i].binding, 0);
      if bindings[i].btype == BindingUniform {
        entry := entry.(descriptorType := Descriptors.DESCRIPTOR_TYPE_UNIFORM_BUFFER);
      } else if bindings[i].btype == BindingStorage {
        entry := entry.(descriptorType := Descriptors.DESCRIPTOR_TYPE_STORAGE_BUFFER);
      } else {
        return Some(InvalidBindingType), layout;
      }
      assert bindings[..i + 1] == bindings[..i] + [bindings[i]];
      layout := layout + [entry];
      i := i + 1;
    }
    assert bindings[..i] == bindings;
    failure := None;
  }

  // ---------------------------------------------------------------
  // Resource nodes
  // ---------------------------------------------------------------

  /** A created buffer: the requirements the driver reported for it and its offset in its block. */
  datatype BufferPlacement = BufferPlacement(memory: Requirements, offset: nat)

  /** A resource node; every node built is a uniform buffer. */
  datatype ResourceNode = ResourceNode(size: nat, device: Option<BufferPlacement>, host: Option<BufferPlacement>)

  /** The requirements the driver reports for the buffers one iteration creates. */
  datatype BufferMemory = BufferMemory(device: Requirements, host: Requirements)

  /** The running device and host block requests and the nodes built so far. */
  datatype NodeBuild = NodeBuild(device: Requirements, host: Requirements, nodes: seq<ResourceNode>)

  datatype Outcome = Built(build: NodeBuild) | Failed(error: LegacyError)

  /** A block request starts empty, unaligned and admitting every memory type. */
  const EMPTY_BLOCK: Requirements := Resources.Requirements(0, 0, Resources.U32_ALL_BITS)
  const EMPTY_BUILD: NodeBuild := NodeBuild(EMPTY_BLOCK, EMPTY_BLOCK, [])

  /** Which binding iteration `i` reads: the first one as the loop is written, or binding `i`. */
  datatype Reading = AsWritten | Corrected

  predicate MemoriesAligned(mems: seq<BufferMemory>)
  {
    forall i | 0 <= i < |mems| :: IsPowerOfTwo(mems[i].device.alignment) && IsPowerOfTwo(mems[i].host.alignment)
  }

  /** A block request after appending one buffer to it. */
  function Place(block: Requirements, memory: Requirements): (r: Requirements)
    requires IsPowerOfTwo(memory.alignment)
  {
    Resources.Requirements(Align(block.size, memory.alignment) + memory.size,
                           Max(block.alignment, memory.alignment),
                           block.memoryTypeBits & memory.memoryTypeBits)
  }

  /** A buffer appended to a block, placed at the block size rounded up to its alignment. */
  function PlacementIn(block: Requirements, memory: Requirements): BufferPlacement
    requires IsPowerOfTwo(memory.alignment)
  {
    BufferPlacement(memory, Align(block.size, memory.alignment))
  }

  /** A device-only binding must come without write callbacks, a host-device one with at least one. */
  predicate UsageAccepted(b: RenderBinding)
  {
    (b.usage == DeviceOnly && !b.hasInitialBatch && !b.hasFrameBatch)
    || (b.usage == HostDevice && (b.hasInitialBatch || b.hasFrameBatch))
  }

  /** Whether the node loop gets past a binding: it is skipped, or a uniform buffer with an accepted usage. */
  predicate Acceptable(b: RenderBinding)
  {
    b.btype == BindingNone || (b.btype == BindingUniform && UsageAccepted(b))
  }

  /** The error the node loop reports for a binding it does not get past. */
  function Rejection(b: RenderBinding): LegacyError
  {
    if b.btype == BindingUniform then BindingUsageInvalid else BindingTypeInvalid
  }

  /** One iteration of the node loop on the binding it reads. */
  function NodeStep(acc: NodeBuild, b: RenderBinding, m: BufferMemory): Outcome
    requires IsPowerOfTwo(m.device.alignment) && IsPowerOfTwo(m.host.alignment)
  {
    match b.btype
    case BindingNone => Built(acc)
    case BindingUniform =>
      if b.usage == DeviceOnly then
        if b.hasInitialBatch || b.hasFrameBatch then Failed(BindingUsageInvalid)
        else
          var node := ResourceNode(b.size, Some(PlacementIn(acc.device, m.device)), None);
          Built(NodeBuild(Place(acc.device, m.device), acc.host, acc.nodes + [node]))
      else if b.usage == HostDevice then
        if !b.hasInitialBatch && !b.hasFrameBatch then Failed(BindingUsageInvalid)
        else
          var node := ResourceNode(b.size, Some(PlacementIn(acc.device, m.device)), Some(PlacementIn(acc.host, m.host)));
          Built(NodeBuild(Place(acc.device, m.device), Place(acc.host, m.host), acc.nodes + [node]))
      else Failed(BindingUsageInvalid)
    case _ => Failed(BindingTypeInvalid)
  }

  function BindingRead(bindings: seq<RenderBinding>, i: nat, reading: Reading): RenderBinding
    requires i < |bindings|
  {
    if reading == AsWritten then bindings[0] else bindings[i]
  }

  /** The node loop after its first `n` iterations; iteration `i` creates buffers with requirements `mems[i]`. */
  function Build(bindings: seq<RenderBinding>, mems: seq<BufferMemory>, reading: Reading, n: nat): Outcome
    requires n <= |bindings| <= |mems| && MemoriesAligned(mems)
    decreases n
  {
    if n == 0 then Built(EMPTY_BUILD)
    else match Build(bindings, mems, reading, n - 1)
      case Failed(e) => Failed(e)
      case Built(acc) => NodeStep(acc, BindingRead(bindings, n - 1, reading), mems[n - 1])
  }

  /** Once an iteration fails, the loop has returned with that error. */
  lemma {:induction false} FailurePersists(bindings: seq<RenderBinding>, mems: seq<BufferMemory>, reading: Reading, i: nat, n: nat)
    requires i <= n <= |bindings| <= |mems| && MemoriesAligned(mems)
    requires Build(bindings, mems, reading, i).Failed?
    ensures Build(bindings, mems, reading, n) == Build(bindings, mems, reading, i)
    decreases n
  {
    if n > i {
      FailurePersists(bindings, mems, reading, i, n - 1);
    }
  }

  /** Iteration `i` works on what the first `i` iterations built. */
  lemma BuildNext(bindings: seq<RenderBinding>, mems: seq<BufferMemory>, reading: Reading, i: nat)
    requires i < |bindings| <= |mems| && MemoriesAligned(mems)
    requires Build(bindings, mems, reading, i).Built?
    ensures IsPowerOfTwo(mems[i].device.alignment) && IsPowerOfTwo(mems[i].host.alignment)
    ensures Build(bindings, mems, reading, i + 1)
            == NodeStep(Build(bindings, mems, reading, i).build, BindingRead(bindings, i, reading), mems[i])
  {
  }

  /** Appends a buffer to a block: its offset and the grown block. */
  method PlaceBuffer(block: Requirements, memory: Requirements) returns (offset: nat, grown: Requirements)
    requires IsPowerOfTwo(memory.alignment)
    ensures BufferPlacement(memory, offset) == PlacementIn(block, memory) && grown == Place(block, memory)
    ensures block.size <= offset && offset + memory.size == grown.size
  {
    offset := Align(block.size, memory.alignment);
    grown := Resources.Requirements(offset + memory.size, Max(block.alignment, memory.alignment),
                                    block.memoryTypeBits & memory.memoryTypeBits);
  }

  /**
   * The node loop; `reading` chooses which binding an iteration reads. The
   * block requests and the node list are updated field by field as the
   * engine does, and reporting an error returns it.
   */
  method BuildResourceNodes(bindings: seq<RenderBinding>, mems: seq<BufferMemory>, reading: Reading) returns (r: Outcome)
    requires |bindings| <= |mems| && MemoriesAligned(mems)
    ensures r == Build(bindings, mems, reading, |bindings|)
  {
    var device := EMPTY_BLOCK;
    var host := EMPTY_BLOCK;
    var nodes: seq<ResourceNode> := [];
    var i := 0;
    while i < |bindings|
      invariant 0 <= i <= |bindings|
      invariant Build(bindings, mems, reading, i) == Built(NodeBuild(device, host, nodes))
    {
      var binding := if reading == AsWritten then bindings[0] else bindings[i];
      var m := mems[i];
      BuildNext(bindings, mems, reading, i);
      if binding.btype == BindingUniform {
        var node := ResourceNode(binding.size, None, None);
        if binding.usage == DeviceOnly {
          if binding.hasInitialBatch || binding.hasFrameBatch {
            FailurePersists(bindings, mems, reading, i + 1, |bindings|);
            return Failed(BindingUsageInvalid);
          }
          var offset;
          offset, device := PlaceBuffer(device, m.device);
          node := node.(device := Some(BufferPlacement(m.device, offset)));
        } else if binding.usage == HostDevice {
          if !binding.hasInitialBatch && !binding.hasFrameBatch {
            FailurePersists(bindings, mems, reading, i + 1, |bindings|);
            return Failed(BindingUsageInvalid);
          }
          var deviceOffset, hostOffset;
          deviceOffset, device := PlaceBuffer(device, m.device);
          hostOffset, host := PlaceBuffer(host, m.host);
          node := node.(device := Some(BufferPlacement(m.device, deviceOffset)),
                        host := Some(BufferPlacement(m.host, hostOffset)));
        } else {
          FailurePersists(bindings, mems, reading, i + 1, |bindings|);
          return Failed(BindingUsageInvalid);
        }
        nodes := nodes + [node];
      } else if binding.btype != BindingNone {
        FailurePersists(bindings, mems, reading, i + 1, |bindings|);
        return Failed(BindingTypeInvalid);
      }
      i := i + 1;
    }
    r := Built(NodeBuild(device, host, nodes));
  }

  // ---------------------------------------------------------------
  // The block layout, for either reading
  // ---------------------------------------------------------------

  /** The two blocks, so that their properties are stated once. */
  datatype Arena = DeviceArena | HostArena

  function BlockOn(b: NodeBuild, a: Arena): Requirements
  {
    if a == DeviceArena then b.device else b.host
  }

  function PlacementOn(node: ResourceNode, a: Arena): Option<BufferPlacement>
  {
    if a == DeviceArena then node.device else node.host
  }

  /** A placed buffer starts at a multiple of its own alignment. */
  predicate AlignedPlacement(p: BufferPlacement)
  {
    IsPowerOfTwo(p.memory.alignment) && p.offset % p.memory.alignment == 0
  }

  /** A placed buffer ends inside the block, which is aligned at least as strictly and admits only types the buffer admits. */
  predicate WithinBlock(p: BufferPlacement, block: Requirements)
  {
    p.offset + p.memory.size <= block.size
    && p.memory.alignment <= block.alignment
    && block.memoryTypeBits & p.memory.memoryTypeBits == block.memoryTypeBits
  }

  predicate PlacementsAligned(b: NodeBuild, a: Arena)
  {
    forall k | 0 <= k < |b.nodes| && PlacementOn(b.nodes[k], a).Some? :: AlignedPlacement(PlacementOn(b.nodes[k], a).value)
  }

  predicate PlacementsWithin(b: NodeBuild, a: Arena)
  {
    forall k | 0 <= k < |b.nodes| && PlacementOn(b.nodes[k], a).Some? :: WithinBlock(PlacementOn(b.nodes[k], a).value, BlockOn(b, a))
  }

  /** Buffers of one block follow each other in node order without overlapping. */
  predicate PlacementsDisjoint(b: NodeBuild, a: Arena)
  {
    forall k, l | 0 <= k < l < |b.nodes| && PlacementOn(b.nodes[k], a).Some? && PlacementOn(b.nodes[l], a).Some? ::
      PlacementOn(b.nodes[k], a).value.offset + PlacementOn(b.nodes[k], a).value.memory.size
        <= PlacementOn(b.nodes[l], a).value.offset
  }

  predicate LayoutFacts(b: NodeBuild, a: Arena)
  {
    PlacementsAligned(b, a) && PlacementsWithin(b, a) && PlacementsDisjoint(b, a)
  }

  /**
   * One iteration seen from one block: either nothing changes, or one node
   * is appended and, when it has a buffer in this block, the buffer is
   * placed at the rounded-up block size and the block grows by it.
   */
  predicate Stepped(b: NodeBuild, b2: NodeBuild, a: Arena)
  {
    (b2.nodes == b.nodes && BlockOn(b2, a) == BlockOn(b, a))
    || (|b2.nodes| == |b.nodes| + 1 && b2.nodes[..|b.nodes|] == b.nodes
        && match PlacementOn(b2.nodes[|b.nodes|], a)
           case None => BlockOn(b2, a) == BlockOn(b, a)
           case Some(p) =>
             IsPowerOfTwo(p.memory.alignment) && p == PlacementIn(BlockOn(b, a), p.memory)
             && BlockOn(b2, a) == Place(BlockOn(b, a), p.memory))
  }

  lemma NodeStepStepped(acc: NodeBuild, bd: RenderBinding, m: BufferMemory, a: Arena)
    requires IsPowerOfTwo(m.device.alignment) && IsPowerOfTwo(m.host.alignment)
    requires NodeStep(acc, bd, m).Built?
    ensures Stepped(acc, NodeStep(acc, bd, m).build, a)
  {
    var b2 := NodeStep(acc, bd, m).build;
    if b2.nodes != acc.nodes {
      assert b2.nodes[..|acc.nodes|] == acc.nodes;
    }
  }

  lemma SteppedPrefix(b: NodeBuild, b2: NodeBuild, a: Arena, k: nat)
    requires Stepped(b, b2, a) && k < |b.nodes|
    ensures k < |b2.nodes| && b2.nodes[k] == b.nodes[k]
  {
    if b2.nodes != b.nodes {
      assert b2.nodes[..|b.nodes|][k] == b2.nodes[k];
    }
  }

  lemma SteppedKeepsAligned(b: NodeBuild, b2: NodeBuild, a: Arena)
    requires Stepped(b, b2, a) && PlacementsAligned(b, a)
    ensures PlacementsAligned(b2, a)
  {
    forall k | 0 <= k < |b2.nodes| && PlacementOn(b2.nodes[k], a).Some?
      ensures AlignedPlacement(PlacementOn(b2.nodes[k], a).value)
    {
      if k < |b.nodes| {
        SteppedPrefix(b, b2, a, k);
      }
    }
  }

  /** Appending a buffer keeps every earlier buffer of the block inside it. */
  lemma PlaceKeepsWithin(p: BufferPlacement, block: Requirements, memory: Requirements)
    requires IsPowerOfTwo(memory.alignment) && WithinBlock(p, block)
    ensures WithinBlock(p, Place(block, memory))
  {
  }

  /** The appended buffer itself ends inside the grown block. */
  lemma PlacedWithin(block: Requirements, memory: Requirements)
    requires IsPowerOfTwo(memory.alignment)
    ensures WithinBlock(PlacementIn(block, memory), Place(block, memory))
  {
  }

  lemma SteppedKeepsWithin(b: NodeBuild, b2: NodeBuild, a: Arena)
    requires Stepped(b, b2, a) && PlacementsWithin(b, a)
    ensures PlacementsWithin(b2, a)
  {
    if b2.nodes != b.nodes {
      var block := BlockOn(b, a);
      forall k | 0 <= k < |b.nodes|
        ensures b2.nodes[k] == b.nodes[k]
      {
        SteppedPrefix(b, b2, a, k);
      }
      match PlacementOn(b2.nodes[|b.nodes|], a)
      case None =>
      case Some(p) =>
        PlacedWithin(block, p.memory);
        forall k | 0 <= k < |b.nodes| && PlacementOn(b.nodes[k], a).Some?
          ensures WithinBlock(PlacementOn(b.nodes[k], a).value, BlockOn(b2, a))
        {
          PlaceKeepsWithin(PlacementOn(b.nodes[k], a).value, block, p.memory);
        }
    }
  }

  lemma SteppedKeepsDisjoint(b: NodeBuild, b2: NodeBuild, a: Arena)
    requires Stepped(b, b2, a) && PlacementsWithin(b, a) && PlacementsDisjoint(b, a)
    ensures PlacementsDisjoint(b2, a)
  {
    forall k, l | 0 <= k < l < |b2.nodes| && PlacementOn(b2.nodes[k], a).Some? && PlacementOn(b2.nodes[l], a).Some?
      ensures PlacementOn(b2.nodes[k], a).value.offset + PlacementOn(b2.nodes[k], a).value.memory.size
                <= PlacementOn(b2.nodes[l], a).value.offset
    {
      SteppedPrefix(b, b2, a, k);
      if l < |b.nodes| {
        SteppedPrefix(b, b2, a, l);
      }
    }
  }

  /** For either reading, every buffer the loop places in a block is aligned, inside the block and clear of the others. */
  lemma {:induction false} BuildLayout(bindings: seq<RenderBinding>, mems: seq<BufferMemory>, reading: Reading, n: nat, a: Arena)
    requires n <= |bindings| <= |mems| && MemoriesAligned(mems)
    requires Build(bindings, mems, reading, n).Built?
    ensures LayoutFacts(Build(bindings, mems, reading, n).build, a)
    decreases n
  {
    if n > 0 {
      BuildLayout(bindings, mems, reading, n - 1, a);
      var acc := Build(bindings, mems, reading, n - 1).build;
      var b2 := Build(bindings, mems, reading, n).build;
      NodeStepStepped(acc, BindingRead(bindings, n - 1, reading), mems[n - 1], a);
      SteppedKeepsAligned(acc, b2, a);
      SteppedKeepsWithin(acc, b2, a);
      SteppedKeepsDisjoint(acc, b2, a);
    }
  }

  // ---------------------------------------------------------------
  // The node list, for the corrected reading
  // ---------------------------------------------------------------

  /** The uniform-buffer bindings among the first `n`, in order. */
  function UniformsUpTo(bindings: seq<RenderBinding>, n: nat): seq<RenderBinding>
    requires n <= |bindings|
  {
    if n == 0 then []
    else UniformsUpTo(bindings, n - 1) + (if bindings[n - 1].btype == BindingUniform then [bindings[n - 1]] else [])
  }

  /** Node `k` belongs to uniform binding `k`: its size, a device buffer always, a host buffer exactly for host-device usage. */
  predicate NodesMirror(nodes: seq<ResourceNode>, uniforms: seq<RenderBinding>)
  {
    |nodes| == |uniforms|
    && forall k | 0 <= k < |nodes| ::
         nodes[k].size == uniforms[k].size && nodes[k].device.Some?
         && (nodes[k].host.Some? <==> uniforms[k].usage == HostDevice)
  }

  /** The loop gets through its first `n` iterations exactly when it can get past every one of their bindings. */
  lemma {:induction false} BuildSucceedsIff(bindings: seq<RenderBinding>, mems: seq<BufferMemory>, n: nat)
    requires n <= |bindings| <= |mems| && MemoriesAligned(mems)
    ensures Build(bindings, mems, Corrected, n).Built? <==> forall i | 0 <= i < n :: Acceptable(bindings[i])
    decreases n
  {
    if n > 0 {
      BuildSucceedsIff(bindings, mems, n - 1);
    }
  }

  /** The binding at `i` is the first the loop does not get past. */
  predicate FirstRejectedAt(bindings: seq<RenderBinding>, i: nat)
  {
    i < |bindings| && !Acceptable(bindings[i]) && forall j | 0 <= j < i :: Acceptable(bindings[j])
  }

  /** A failed loop reports the error of the first binding it could not get past. */
  lemma {:induction false} BuildFailsAtFirst(bindings: seq<RenderBinding>, mems: seq<BufferMemory>, n: nat)
    requires n <= |bindings| <= |mems| && MemoriesAligned(mems)
    requires Build(bindings, mems, Corrected, n).Failed?
    ensures exists i | 0 <= i < n :: FirstRejectedAt(bindings, i) && Build(bindings, mems, Corrected, n).error == Rejection(bindings[i])
    decreases n
  {
    if Build(bindings, mems, Corrected, n - 1).Failed? {
      BuildFailsAtFirst(bindings, mems, n - 1);
    } else {
      BuildSucceedsIff(bindings, mems, n - 1);
      assert FirstRejectedAt(bindings, n - 1);
    }
  }

  /** The corrected loop builds one node per uniform binding, in declaration order. */
  lemma {:induction false} BuildNodesMirror(bindings: seq<RenderBinding>, mems: seq<BufferMemory>, n: nat)
    requires n <= |bindings| <= |mems| && MemoriesAligned(mems)
    requires Build(bindings, mems, Corrected, n).Built?
    ensures NodesMirror(Build(bindings, mems, Corrected, n).build.nodes, UniformsUpTo(bindings, n))
    decreases n
  {
    if n > 0 {
      BuildNodesMirror(bindings, mems, n - 1);
    }
  }

  /**
   * What the whole context creation accepts: the layout mapping rejects
   * every binding that is not a uniform or storage buffer and the node
   * loop every storage buffer, so together only uniform buffers get through.
   */
  lemma OnlyUniformsAccepted(bindings: seq<RenderBinding>, mems: seq<BufferMemory>)
    requires |bindings| <= |mems| && MemoriesAligned(mems)
    requires DescriptorsMap(bindings) && Build(bindings, mems, Corrected, |bindings|).Built?
    ensures forall i | 0 <= i < |bindings| :: bindings[i].btype == BindingUniform
  {
    BuildSucceedsIff(bindings, mems, |bindings|);
  }

  // ---------------------------------------------------------------
  // The loop as written
  // ---------------------------------------------------------------

  function Repeated(b: RenderBinding, n: nat): (r: seq<RenderBinding>)
    ensures |r| == n && forall i | 0 <= i < n :: r[i] == b
  {
    seq(n, _ => b)
  }

  /** As written, the loop behaves as the intended one on a declaration list that repeats the first binding. */
  lemma {:induction false} AsWrittenRepeatsFirst(bindings: seq<RenderBinding>, mems: seq<BufferMemory>, n: nat)
    requires 0 < |bindings| && n <= |bindings| <= |mems| && MemoriesAligned(mems)
    ensures Build(bindings, mems, AsWritten, n) == Build(Repeated(bindings[0], |bindings|), mems, Corrected, n)
    decreases n
  {
    if n > 0 {
      AsWrittenRepeatsFirst(bindings, mems, n - 1);
    }
  }

  /**
   * The input that shows it: a device-only uniform buffer followed by a
   * skipped binding gives two nodes as written, one as intended.
   */
  lemma AsWrittenDuplicatesFirst(size: nat, mems: seq<BufferMemory>)
    requires |mems| >= 2 && MemoriesAligned(mems)
    ensures var bindings := [RenderBinding(BindingUniform, DeviceOnly, 0, size, false, false),
                             RenderBinding(BindingNone, DeviceOnly, 1, 0, false, false)];
      Build(bindings, mems, AsWritten, 2).Built? && |Build(bindings, mems, AsWritten, 2).build.nodes| == 2
      && Build(bindings, mems, Corrected, 2).Built? && |Build(bindings, mems, Corrected, 2).build.nodes| == 1
  {
  }

  // ---------------------------------------------------------------
  // The two block requests
  // ---------------------------------------------------------------

  /**
   * The blocks requested once at least one node exists: the device block
   * from device-local memory that is not host-visible, the host block from
   * host-visible memory that is not device-local.
   */
  function BlockRequests(b: NodeBuild): seq<Memory.Request>
  {
    if |b.nodes| == 0 then []
    else [Memory.Request(b.device.size, Memory.MEMORY_PROPERTY_DEVICE_LOCAL, Memory.MEMORY_PROPERTY_HOST_VISIBLE, b.device.memoryTypeBits),
          Memory.Request(b.host.size, Memory.MEMORY_PROPERTY_HOST_VISIBLE, Memory.MEMORY_PROPERTY_DEVICE_LOCAL, b.host.memoryTypeBits)]
  }

  /** Each requested block is large enough for every buffer placed in it and admits only types every such buffer admits. */
  lemma BlockRequestsCover(bindings: seq<RenderBinding>, mems: seq<BufferMemory>, reading: Reading)
    requires |bindings| <= |mems| && MemoriesAligned(mems)
    requires Build(bindings, mems, reading, |bindings|).Built?
    ensures var b := Build(bindings, mems, reading, |bindings|).build;
      var reqs := BlockRequests(b);
      (|reqs| == 0 <==> |b.nodes| == 0)
      && (|reqs| == 2 ==>
            (forall k | 0 <= k < |b.nodes| && b.nodes[k].device.Some? ::
               b.nodes[k].device.value.offset + b.nodes[k].device.value.memory.size <= reqs[0].size
               && reqs[0].memoryTypeFlags & b.nodes[k].device.value.memory.memoryTypeBits == reqs[0].memoryTypeFlags)
            && (forall k | 0 <= k < |b.nodes| && b.nodes[k].host.Some? ::
               b.nodes[k].host.value.offset + b.nodes[k].host.value.memory.size <= reqs[1].size
               && reqs[1].memoryTypeFlags & b.nodes[k].host.value.memory.memoryTypeBits == reqs[1].memoryTypeFlags))
  {
    var b := Build(bindings, mems, reading, |bindings|).build;
    BuildLayout(bindings, mems, reading, |bindings|, DeviceArena);
    BuildLayout(bindings, mems, reading, |bindings|, HostArena);
    assert forall k | 0 <= k < |b.nodes| && b.nodes[k].device.Some? :: WithinBlock(PlacementOn(b.nodes[k], DeviceArena).value, b.device);
    assert forall k | 0 <= k < |b.nodes| && b.nodes[k].host.Some? :: WithinBlock(PlacementOn(b.nodes[k], HostArena).value, b.host);
  }

  // ---------------------------------------------------------------
  // Binding buffers to the blocks
  // ---------------------------------------------------------------

  /** One buffer bound to a block at an offset. */
  datatype BindCall = BindCall(arena: Arena, memory: Requirements, offset: nat)

  function CallFor(p: BufferPlacement, a: Arena): BindCall
  {
    BindCall(a, p.memory, p.offset)
  }

  /** The calls for one node as written: both are guarded by the presence of the host buffer. */
  function NodeBindsAsWritten(node: ResourceNode): seq<BindCall>
  {
    match node.host
    case None => []
    case Some(h) => [CallFor(h, HostArena)] + (match node.device case None => [] case Some(d) => [CallFor(d, DeviceArena)])
  }

  /** The calls for one node as intended: each buffer guarded by its own presence. */
  function NodeBinds(node: ResourceNode): seq<BindCall>
  {
    (match node.host case None => [] case Some(h) => [CallFor(h, HostArena)])
    + (match node.device case None => [] case Some(d) => [CallFor(d, DeviceArena)])
  }

  function BindsAsWritten(nodes: seq<ResourceNode>): seq<BindCall>
  {
    if |nodes| == 0 then [] else BindsAsWritten(nodes[..|nodes| - 1]) + NodeBindsAsWritten(nodes[|nodes| - 1])
  }

  function Binds(nodes: seq<ResourceNode>): seq<BindCall>
  {
    if |nodes| == 0 then [] else Binds(nodes[..|nodes| - 1]) + NodeBinds(nodes[|nodes| - 1])
  }

  /** Call `c` binds one of the node's buffers where it was placed. */
  predicate PlacedCall(node: ResourceNode, c: BindCall)
  {
    PlacementOn(node, c.arena) == Some(BufferPlacement(c.memory, c.offset))
  }

  lemma NodeBindsExactly(node: ResourceNode, c: BindCall)
    ensures c in NodeBinds(node) <==> PlacedCall(node, c)
  {
  }

  /** The intended calls bind every placed buffer to its own block at its offset, and nothing else. */
  lemma {:induction false} BindsExactly(nodes: seq<ResourceNode>, c: BindCall)
    ensures c in Binds(nodes) <==> exists k | 0 <= k < |nodes| :: PlacedCall(nodes[k], c)
    decreases |nodes|
  {
    if |nodes| > 0 {
      var front := nodes[..|nodes| - 1];
      BindsExactly(front, c);
      NodeBindsExactly(nodes[|nodes| - 1], c);
      assert forall k | 0 <= k < |front| :: front[k] == nodes[k];
      if c in Binds(nodes) && c !in Binds(front) {
        assert PlacedCall(nodes[|nodes| - 1], c);
      }
      if exists k | 0 <= k < |nodes| :: PlacedCall(nodes[k], c) {
        var k :| 0 <= k < |nodes| && PlacedCall(nodes[k], c);
        if k < |front| {
          assert PlacedCall(front[k], c);
        }
      }
    }
  }

  /** The input that shows it: as written, the device buffer of a device-only node is never bound. */
  lemma AsWrittenSkipsDeviceOnly(size: nat, memory: Requirements, offset: nat)
    ensures var node := ResourceNode(size, Some(BufferPlacement(memory, offset)), None);
      BindsAsWritten([node]) == [] && Binds([node]) == [BindCall(DeviceArena, memory, offset)]
  {
    var node := ResourceNode(size, Some(BufferPlacement(memory, offset)), None);
    assert [node][..0] == [];
  }
}
