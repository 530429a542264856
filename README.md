# Wreck engine core in Dafny

This project models the bookkeeping core of Wreck, a small C rendering
engine over Vulkan and GLFW. The bookkeeping decides which Vulkan objects
the engine creates and with which parameters. Both snapshots of the engine
are modelled: the newer one under `src/vulkan/`, which the demo program
calls, and the older one under `src/vk/`.

Every call into the Vulkan driver, GLFW or the file system becomes an input
of the model. Such inputs are memory requirements, memory types and heaps,
format lists, capability records, extension lists, queue-family flags, and
"succeeded or failed" answers. What the engine records into a command
buffer becomes a trace of commands.

Modules, one per component:

- `Base`: the common header's helpers.
  - `MIN`, `MAX`, `CLAMP` and `ALIGN`.
  - Message-code classification and the report-and-return rule of `MSG_CALLBACK`.
  - `MAKE_VERSION` and the error codes.
- `Messages`: the demo's message receiver, `msgCallback`.
- `DecimalText`: `strcat_u32` and `strcat_u64`, which append decimal digits to a NUL-terminated buffer held in an `array<char>`.
- `Memory`: the first-fit memory-type choice that both VRAM arenas share.
- `Vram`: the newer VRAM arena.
  - `allocateVram` and `freeVram` over a 512-slot table and per-heap remaining sizes.
  - The VRAM total taken when the context is destroyed.
  - The class is `VulkanMemory`; it is specified by value-level functions with invariant and round-trip lemmas.
- `LegacyVram`: the older arena of static globals (init, allocate, terminate), as the class `LegacyArena`.
- `Resources`: the newer renderer's resource declarations.
  - Their validation.
  - The running layout of buffers inside one device block and one host block.
  - The grid of resources indexed by descriptor set and binding, as the class `ResourceTable`.
  - The block requests.
- `Descriptors`: derivation of the set layouts, the descriptor writes and the full pipeline layout from that grid.
- `Pipelines`:
  - pipeline validation;
  - the growable shader read buffer, as the class `ReadBuffer`;
  - the building of graphics pipelines in the newer renderer and the render-node loop of the older one.
- `Commands`: command recording.
  - `cmdDraw` and the frame bookends, on the class `CmdContext`.
  - The frame's command trace.
- `Surface`: surface and swapchain parameter selection in both renderers, and the resize extent.
- `Device`:
  - physical-device suitability and queue-family roles in both renderer generations;
  - scoring and selecting the best device;
  - the required instance extensions;
  - the run-info check of the older engine.
- `LegacyRender`: the older render context.
  - Mapping bindings to descriptor layout entries.
  - The resource-node loop with its block layout.
  - The block requests and the memory binding of the nodes.
- `Demo`: the demo program's resource and pipeline tables and its per-frame draw, as concrete instances.

Where the code stores into a fixed-size array or fills a table in place,
the model does the same:

- the slot tables are `array`s;
- the grid is an `array2`;
- the decimal append writes an `array<char>`.

Each such method is tied by its `ensures` to a function of the old state.
That function's properties are then proved as lemmas.

## Model

| member | source | states |
|---|---|---|
| Base.Min | src/main.h:32 | The result is no larger than either argument and is one of them. |
| Base.Max | src/main.h:33 | The result is no smaller than either argument and is one of them. |
| Base.Clamp | src/main.h:34 | Below `lo` the result is `lo`; above `hi` (with `t >= lo`) it is `hi`; inside the range it is `t`; with `lo <= hi` it always lies in the range. |
| Base.Align | src/main.h:36 | For a power-of-two alignment `a`, the result is a multiple of `a`, lies in `[p, p + a)`, and equals `p` when `p` is already aligned. |
| Base.MsgClassesPartition | src/main.h:45-47 | Every code is exactly one of error (negative), warning (positive) and success (zero). |
| Base.MsgCallbackFlow | src/main.h:66-67 | After reporting, the enclosing function returns the reported code exactly when the callback answered non-zero, and falls through otherwise. |
| Base.VkErrorCodesAreErrors | src/main.h:74-122 | `VK_CODES` lists all 49 declared Vulkan-interface codes. Each of them lies in the interface range above the reserved first error code and is negative, that is, an error. |
| Base.AllocateDescriptorSetsSharesVramCode | src/main.h:98-99 | Two error codes share one value, so codes are not unique. |
| Base.MakeVersion | src/main.h:283 | When major, minor and patch fit 10, 10 and 12 bits, each one can be read back from the packed word. |
| Messages.MsgCallback | src/main.c:7-23 | The receiver asks to stop for every error code, and never for a warning or success code. |
| Messages.ReportedErrorsReturn | src/main.c:7-23 | With this receiver, a reported code makes the engine return exactly when the code is an error; warnings and logs fall through. |
| DecimalText.DecimalRoundTrip | src/main.h:239-257 | The decimal text of `n` reads back as `n`. |
| DecimalText.DigitsRoundTrip | src/main.h:245-256 | The digit string of a positive number (no leading zero) reads back as that number. |
| DecimalText.AppendedExtendsString | src/main.h:239-257 | Appending text puts it right after the old string and re-terminates, so the new length is the old length plus the text's. |
| DecimalText.StrcatU32 | src/main.h:239-257 | The buffer afterwards is the old buffer with the decimal text of `src` appended after its terminator and re-terminated; `0` appends "0". |
| DecimalText.StrcatU64 | src/main.h:259-277 | Same as `StrcatU32` for any u64 `src`. |
| DecimalText.FindTerminator | src/main.h:241 | The index returned is that of the first NUL, the string's length. |
| DecimalText.ReverseDigits | src/main.h:245-249 | The loop yields the value of the reversed digit string and the digit count. |
| DecimalText.AsWrittenCorrectIffReversalFits | src/main.h:245-255 | The code as written, with a wrapping `reverse` variable, produces the right text exactly when the digit reversal fits the variable's width. |
| DecimalText.AsWrittenCorrectBelow | src/main.h:245-255 | The code as written is correct for every value with fewer digits than the width holds (below 10^9 for u32, below 10^19 for u64). |
| DecimalText.StrcatU32ReversalOverflows | src/main.h:247 | For 1000000009 the u32 reversal wraps and the text as written is not its decimal text. |
| DecimalText.StrcatU64ReversalOverflows | src/main.h:267 | For 10000000000000000019 the u64 reversal wraps and the text as written is wrong. |
| Memory.FirstFit | src/vulkan/vulkan.c:140-153 | The chosen type is the lowest index meeting all four conditions (required bits present, forbidden bits absent, mask test, heap strictly larger than the request); the result is None exactly when no type meets them. |
| Memory.PropertyBitsIgnoresTypeMask | src/vulkan/vulkan.c:145 | Testing the mask against property bits picks type 0 for a request whose mask admits only type 1, while testing bit `i` picks type 1. |
| Vram.InitialArenaValid | src/vulkan/vulkan.c:124-134 | The empty table with the device's heaps satisfies the arena invariant and records no size. |
| Vram.AllocateGuard | src/vulkan/vulkan.c:125 | With the table full (count of 512 or more), a zero size or a zero type mask, the call returns None and changes nothing, for either mask test, the property bits as written or the type-index bit. |
| Vram.AllocateNoFit | src/vulkan/vulkan.c:154-155 | When no memory type qualifies under the mask test given, the call returns None and heaps, slots and count are unchanged; this holds for either mask test, the property bits as written or the type-index bit. |
| Vram.AllocateGranted | src/vulkan/vulkan.c:128-175 | On success, with `t` the lowest type meeting the four conditions under the mask test given, exactly `t`'s heap drops by the size, the first empty slot is filled with size, heap and type `t`, the count grows by one, and that slot is returned; for either mask test, the property bits as written or the type-index bit. |
| Vram.AllocateRefused | src/vulkan/vulkan.c:150-167 | When the driver refuses after type `t` was chosen under the mask test given, the result is None, `t`'s heap stays decremented, and slots and count are unchanged; for either mask test, the property bits as written or the type-index bit. |
| Vram.AllocateRespectsTypeMask | src/vulkan/vulkan.c:140-153 | The granted slot's type is one the mask test given admits; under the type-index test bit `typeId` of the request's mask is set. |
| Vram.AsWrittenRecordsForbiddenType | src/vulkan/vulkan.c:140-155 | Over a host-visible type 0 and a device-local type 1, a granted request whose mask admits only type 1 fills slot 0 with type 0 under the property-bit test as written, and with type 1 under the type-index test. |
| Vram.AllocatePreservesValid | src/vulkan/vulkan.c:124-175 | Allocation keeps the invariant, for either mask test, the property bits as written or the type-index bit: the count equals the number of occupied slots, and every occupied slot names an existing heap and type. |
| Vram.FreePreservesValid | src/vulkan/vulkan.c:179-185 | Freeing keeps the arena invariant. |
| Vram.FreeEmptySlot | src/vulkan/vulkan.c:179-185 | Freeing an empty slot changes nothing. |
| Vram.FreeOccupiedSlot | src/vulkan/vulkan.c:179-185 | Freeing an occupied slot adds its size back to its heap, zeroes the slot and decrements the count, touching nothing else. |
| Vram.AllocateThenFree | src/vulkan/vulkan.c:124-185 | Freeing the slot a successful allocation returned restores the arena, including every heap size, for either mask test, the property bits as written or the type-index bit. |
| Vram.AllocateConservesSize | src/vulkan/vulkan.c:150-175 | A successful allocation moves exactly the request's size from the heaps into the recorded slots, for either mask test, the property bits as written or the type-index bit. |
| Vram.VulkanMemory.constructor | src/vulkan/vulkan.c:124-134 | The arena starts with an empty table over the device's heaps. |
| Vram.VulkanMemory.AllocateVram | src/vulkan/vulkan.c:124-177 | The new table, heaps and count, and the slot returned, are those of the value-level allocation on the old state with the same mask test. |
| Vram.VulkanMemory.FreeVram | src/vulkan/vulkan.c:179-185 | The new state is the value-level free of the old state. |
| Vram.VulkanMemory.ArenaSize | src/vulkan/vulkan.c:522-530 | The total taken at destruction is the sum of the sizes recorded in the occupied slots. |
| LegacyVram.AsWrittenGuardAdmitsFullTable | src/vk/vram.c:27 | At a count of 512 the written `>` guard lets the request through; a granted request for a fitting type then writes entry 512, one past the 512-entry table. The corrected guard writes nothing, refuses and changes nothing. |
| LegacyVram.WriteTarget | src/vk/vram.c:27-56 | The entry a granted handle is written to is the one the count names, and there is one exactly when the guard passes, some type fits and the driver grants. |
| LegacyVram.WriteTargetInTable | src/vk/vram.c:26-57 | Under the corrected guard the entry written lies inside the table, and the allocation changes that entry alone, to the handle it returns; without a write the table is unchanged. |
| LegacyVram.LastEntryReachable | src/vk/vram.c:53-56 | A granted request at count 511 fills the last entry, so a full table is reachable. |
| LegacyVram.LegacyAllocateNoFit | src/vk/vram.c:43-44 | When no type qualifies under the mask test given, the result is None and heaps and count are unchanged; for either mask test, the property bits as written or the type-index bit. |
| LegacyVram.LegacyAllocateGranted | src/vk/vram.c:30-56 | On success the lowest qualifying type's heap drops by the size, the memory is recorded at entry `count`, and the count grows by one; for either mask test, the property bits as written or the type-index bit. |
| LegacyVram.LegacyAllocateRefused | src/vk/vram.c:39-54 | When the driver refuses, the result is None, the chosen heap stays decremented, and the table is unchanged; for either mask test, the property bits as written or the type-index bit. |
| LegacyVram.LegacyAllocatePreservesValid | src/vk/vram.c:26-57 | Allocation keeps the invariant, for either mask test, the property bits as written or the type-index bit: the count stays at most 512 and the entries from the count on are empty. |
| LegacyVram.TerminateClearsTable | src/vk/vram.c:16-24 | Termination releases exactly the recorded entries, in order, and leaves an all-empty table with count 0. |
| LegacyVram.LegacyArena.constructor | src/vk/vram.c:6-8 | The static state starts zeroed. |
| LegacyVram.LegacyArena.Init | src/vk/vram.c:10-14 | Init records the device's memory properties and handle, keeps the table, and reports success. |
| LegacyVram.LegacyArena.Terminate | src/vk/vram.c:16-24 | The new state is the value-level termination; the entries released are those recorded; properties and device are cleared. |
| LegacyVram.LegacyArena.Allocate | src/vk/vram.c:26-57 | The new state and the memory returned are those of the value-level allocation with the corrected guard and the same mask test. |
| Resources.ValidIffDistinct | src/vulkan/render.c:767-802 | Checking each entry only against earlier ones catches every duplicate: the declarations pass exactly when all have buffer types and known mutabilities and all `(set, binding)` pairs are distinct. |
| Resources.ValidateResources | src/vulkan/render.c:767-802 | The loop returns success exactly when every declaration passes its checks, and the invalid-info code otherwise. |
| Resources.OffsetIn | src/vulkan/render.c:846 | A buffer's offset is a multiple of its alignment, at least the block's size so far and less than that size plus the alignment. |
| Resources.LayoutStep | src/vulkan/render.c:810-936 | One iteration adds exactly one placement and leaves the earlier ones alone. |
| Resources.PresenceHolds | src/vulkan/render.c:825-934 | After `n` declarations, a buffer is placed in a block exactly when its mutability and the device type create a buffer of that kind. |
| Resources.PlacedInsideHolds | src/vulkan/render.c:846-847 | Every placed buffer starts at a multiple of its alignment and ends inside its block. |
| Resources.DisjointHolds | src/vulkan/render.c:894-899 | A placed buffer ends no later than any later buffer in the same block starts, so buffers never overlap. |
| Resources.MaskHolds | src/vulkan/render.c:805-807 | A block's type mask keeps no bit that a narrowing buffer's requirements lack, and stays all ones if no buffer narrows it. |
| Resources.HostUntouched | src/vulkan/render.c:851-903 | With no host buffer among the declarations, the host block stays empty with an all-ones mask. |
| Resources.BlockLayout | src/vulkan/render.c:805-936 | For either block, over all declarations: presence, alignment and containment, no overlap, and a mask narrowed only by AND. |
| Resources.HostBlockOnlyDiscrete | src/vulkan/render.c:851-934 | Off a discrete device, and whenever no declaration is mutable, the host block stays empty. |
| Resources.ImmutableDeviceOnly | src/vulkan/render.c:825-849 | An immutable buffer gets a device placement and no host placement, and does not narrow the device mask. |
| Resources.PlacementStable | src/vulkan/render.c:810-936 | A placement, once made, is not moved by later declarations. |
| Resources.Locations | src/vulkan/render.c:811-812 | The plain list holds each declaration's location, in declaration order. |
| Resources.CellOfResource | src/vulkan/render.c:811-817 | The cell a declaration names carries that declaration's type, size and placement unless a later one names the same cell. |
| Resources.CellUntouched | src/vulkan/render.c:811 | A cell no declaration names keeps its value. |
| Resources.GridHoldsEachResource | src/vulkan/render.c:810-936 | With valid declarations, each one lands in its own cell with its type, size and placement, and every other cell is unchanged. |
| Resources.ResourceTable.constructor | src/vulkan/render.c:811 | The grid starts with every cell unused and the plain list empty. |
| Resources.ResourceTable.CreateResources | src/vulkan/render.c:810-936 | The grid, plain list and block layout after the loop are those of the value-level step function over every declaration. |
| Resources.BlocksOnlyWhenNonEmpty | src/vulkan/render.c:939-948 | A block is requested only when its size is non-zero; two empty blocks leave the arena untouched and succeed. |
| Resources.RequestBlocks | src/vulkan/render.c:939-948 | The arena and the outcome are those of requesting the host block and then the device block, where a refusal gives the VRAM allocation error. |
| Descriptors.SetBindings | src/vulkan/render.c:993-1028 | A set yields at most one layout binding per slot. |
| Descriptors.UsedSets | src/vulkan/render.c:990-1050 | Of the first `n` set indices, at most `n` are used. |
| Descriptors.BindingsExact | src/vulkan/render.c:993-1028 | A set's layout bindings are exactly those of its used slots, numbered by slot, with the slot's descriptor type, in strictly ascending order. |
| Descriptors.WritesFollowBindings | src/vulkan/render.c:1023-1037 | A set's writes match its layout bindings one for one: same binding, same descriptor type, tagged with the set's index. |
| Descriptors.UsedSetsExact | src/vulkan/render.c:1039-1050 | The set indices that get a layout are exactly those with a used slot, in strictly ascending order. |
| Descriptors.LayoutsFollowUsedSets | src/vulkan/render.c:1039-1050 | The k-th compacted layout is the layout of the k-th used set index. |
| Descriptors.SetWritesExact | src/vulkan/render.c:1029-1037 | A set's writes are exactly the writes of its used slots, in ascending binding order. |
| Descriptors.OneWritePerUsedSlot | src/vulkan/render.c:990-1038 | There is exactly one write per used slot of the grid, in strict set-then-binding order. |
| Descriptors.SetUsedIffSlotUsed | src/vulkan/render.c:1039-1040 | A set index gets a layout exactly when one of its slots is used. |
| Descriptors.FullLayoutIffAnySlotUsed | src/vulkan/render.c:1099-1109 | The full pipeline layout is made exactly when some slot of the grid is used. |
| Descriptors.WritesReachOwnLayoutIffContiguous | src/vulkan/render.c:1064-1066 | Every write lands in the set allocated from its own layout exactly when the used set indices are 0..k-1; nothing in the engine checks this. |
| Descriptors.UsedSetReached | src/vulkan/render.c:1064-1066 | A used set index whose writes reach its own layout equals its rank among the used sets. |
| Descriptors.EmptyGridDerivesNothing | src/vulkan/render.c:990-1050 | A grid with no used slot yields no layout and no write. |
| Descriptors.GapMisaimsWrite | src/vulkan/render.c:1030-1066 | A single resource at set 1 gives one layout, allocated as set 0, and one write that keeps set index 1; that write is aimed at a set never allocated. |
| Descriptors.Cells | src/vulkan/render.c:994 | The value view of the grid has the grid's shape and holds every cell. |
| Descriptors.DeriveDescriptors | src/vulkan/render.c:990-1109 | The double scan over the grid returns exactly the specified layouts and writes, and reports a full layout exactly when some cell is used. |
| Pipelines.PipelineValidIffStages | src/vulkan/render.c:1118-1152 | A pipeline passes exactly when it is graphics with only vertex and fragment stages, or compute with only the compute stage. |
| Pipelines.ValidatePipelines | src/vulkan/render.c:1118-1152 | The loop returns success exactly when every pipeline passes, and the invalid-pipeline code otherwise. |
| Pipelines.Reserved | src/vulkan/render.c:627-628 | After making room the buffer holds the file and never shrinks; a file that fits leaves it alone, and a larger one grows it by at least a page. |
| Pipelines.SizeAfterCoversAll | src/vulkan/render.c:627-629 | After a run of reads the buffer is no smaller than at the start and holds every file read. |
| Pipelines.LoadCode | src/vulkan/render.c:611-660 | The shader step succeeds exactly when the file opens, any needed resize succeeds, the read is complete and the module is created; a file that does not open gives the open-file code. |
| Pipelines.ReadBuffer.constructor | src/vulkan/render.c:1159-1162 | The read buffer starts at four pages. |
| Pipelines.ReadBuffer.LoadShader | src/vulkan/render.c:611-660 | The code returned and the new size are those of the shader step on the old size; the size stays raised even when the resize fails. |
| Pipelines.ReadBuffer.LoadLegacyShader | src/vk/render.c:75-106 | The older step, with the file's open checked, yields a module exactly when the newer step would succeed, with the same growth of the size; a file that does not open yields no module and leaves the size alone. |
| Pipelines.LegacyLoadAsWritten | src/vk/render.c:75-106 | As written the older step seeks in the file exactly when it does not open; for a file that opens it makes a module exactly when the newer step would succeed. |
| Pipelines.AsWrittenSeeksUnopenedFile | src/vk/render.c:78-82 | For a file that does not open, the step as written seeks through the null file, while the checked step gives the open-file code and leaves the buffer size alone. |
| Pipelines.BuildCodes | src/vulkan/render.c:1169-1208 | Building ends only in success or in the shader-module or pipeline-creation code. |
| Pipelines.BuildListsGraphics | src/vulkan/render.c:1169-1208 | A successful build has built exactly the graphics entries, in order. |
| Pipelines.BuildBufferHolds | src/vulkan/render.c:1169-1208 | The read buffer never shrinks and, after a success, holds every graphics shader read. |
| Pipelines.BuildSucceeds | src/vulkan/render.c:1169-1208 | When every graphics entry gets good answers, the build succeeds. |
| Pipelines.BuildStaysFailed | src/vulkan/render.c:1169-1208 | Once failed, the build keeps its code, its buffer size and the indices it built. |
| Pipelines.BuildFails | src/vulkan/render.c:1174-1207 | A graphics entry with an answer that always fails stops the build. |
| Pipelines.BuildPipelines | src/vulkan/render.c:1154-1211 | The loop returns the specified code, buffer size and built indices on every path; on success every entry is recorded with its type and the built indices are exactly the graphics entries. |
| Pipelines.NodesCountGraphics | src/vk/render.c:1035-1065 | While no node failed, the pipeline-node count is the number of graphics nodes seen. |
| Pipelines.NodesSucceed | src/vk/render.c:1035-1065 | The node loop gets through when every node is accepted (none, or graphics with vertex and fragment and no compute) and the driver answers well. |
| Pipelines.NodesStayFailed | src/vk/render.c:1035-1065 | A node failure persists with the size and count it left, whatever follows. |
| Pipelines.NodeRejected | src/vk/render.c:1047-1064 | A graphics node with the wrong shaders, or a node of any other type, stops the loop. |
| Pipelines.UnopenedShaderStopsNodes | src/vk/render.c:1047-1058 | A well-formed graphics node whose vertex or fragment file does not open, reached with no earlier failure, stops the loop as a failed shader module. |
| Pipelines.BuildPipelineNodes | src/vk/render.c:1020-1065 | The loop returns the specified failure, buffer size and count on every path; without a failure the count is the number of graphics nodes. |
| Commands.BoundAfter | src/vulkan/render.c:547-601 | After a draw the bound pipeline is none or graphics; it changes exactly when the new pipeline differs and is graphics, and then becomes it. |
| Commands.DrawCommands | src/vulkan/render.c:543-607 | A draw's commands always end with `Draw(vertexCount, instanceCount, 0, 0)`. |
| Commands.DrawsOf | src/vulkan/render.c:606 | The draw commands picked out of a trace; its contract only bounds their number, and what they are is stated by `Commands.DrawsTraceDraws`. |
| Commands.CountsAppend | src/vulkan/render.c:543-607 | Draws and begin, end and bind counts add up over a concatenation of traces. |
| Commands.DrawIssuesOneDraw | src/vulkan/render.c:543-607 | One call issues exactly one draw; it begins rendering (with viewport and scissor) only on a transition into graphics, and binds only when the pipeline changes. |
| Commands.BeginsOnlyFromNone | src/vulkan/render.c:553 | As the bound pipeline is always none or graphics, rendering begins exactly when nothing is bound and the new pipeline is graphics. |
| Commands.BoundAfterDraws | src/vulkan/render.c:418-419 | After any number of draws the bound pipeline is none or graphics. |
| Commands.BoundIsLastGraphics | src/vulkan/render.c:547-601 | After `n` draws nothing is bound exactly when none was graphics, and otherwise the last graphics pipeline drawn is bound. |
| Commands.DrawsTraceDraws | src/vulkan/render.c:543-607 | The draw commands of a frame's calls are theirs, one per call, in order. |
| Commands.DrawsTraceBegins | src/vulkan/render.c:553-575 | A frame's calls begin rendering once if any was graphics, and never end it. |
| Commands.FrameBracketsRendering | src/vulkan/render.c:467-474 | A frame issues one draw per call, in order, and begins and ends rendering in one matching pair exactly when some call drew with a graphics pipeline. |
| Commands.CmdContext.constructor | src/vulkan/render.c:371-376 | The context starts with no pipeline bound and an empty trace. |
| Commands.CmdContext.BeginFrame | src/vulkan/render.c:418-419 | A frame starts with no pipeline bound. |
| Commands.CmdContext.CmdDraw | src/vulkan/render.c:543-607 | The bound pipeline and the trace are updated as the draw rules specify. |
| Commands.CmdContext.EndFrame | src/vulkan/render.c:467-474 | Rendering is ended exactly when a graphics pipeline is still bound. |
| Commands.CmdContext.RecordFrame | src/vulkan/render.c:418-474 | The trace recorded for a frame is the frame's trace, and the final bound pipeline is the one after its draws. |
| Surface.Fetched | src/vulkan/render.c:141-147 | The part of a reported list that fits the query buffer is the list's prefix of length `min(count, capacity)`. |
| Surface.FirstDepth | src/vulkan/render.c:160-176 | The depth format is the first candidate (D32, D32S8, D24S8) with the depth-stencil attachment feature, and there is none exactly when no candidate has it. |
| Surface.ClampExtent | src/vulkan/render.c:215-217 | Per axis the extent lies within the surface's limits, and is the current extent when that already does. |
| Surface.ResizeExtent | src/vulkan/render.c:352-355 | Per axis the resized extent is the smaller of the framebuffer and the current extent. |
| Surface.SurfaceDataOf | src/vulkan/render.c:149-217 | The surface record or the first error, checked in order: no format, no usable depth format, no present mode, a minimum image count above 8; each error comes with its own code. The colour format is the preferred one if listed, else the first one's format, in the sRGB non-linear space. The depth format is the first usable candidate. The mode is mailbox if listed, else FIFO. The image counts are the minimum plus one and the maximum, the transform is the current one, and the extent is the current one clamped to the limits. |
| Surface.GetSurfaceData | src/vulkan/render.c:133-221 | The scans return exactly the specified surface record. |
| Surface.SwapchainParamsOf | src/vk/render.c:251-326 | The older parameters, or none exactly when there is no format, no present mode or no usable depth format. The format is the preferred pair if listed, else the whole first entry; the mode is mailbox or FIFO. The image count is the minimum capped at 8, the transform is the current one, the extent is the framebuffer size clamped to the limits, and the depth format is the first usable candidate. |
| Surface.GetSwapchainParams | src/vk/render.c:251-326 | The older scans, which run to the end of each list, return exactly the specified parameters. |
| Surface.SelectionsAgree | src/vk/render.c:258-303 | Both renderers agree on the mode, and on the format whenever the preferred one is listed; the newer asks for one image more than the minimum, the older for at most 8. |
| Device.Capped | src/vulkan/vulkan.c:55-60 | A query fills at most the buffer's capacity with the list's prefix. |
| Device.ExtensionsPresent | src/vulkan/vulkan.c:54-72 | A device passes the extension check exactly when every required name is in its list. |
| Device.FirstServing | src/vulkan/vulkan.c:85-99 | The newer rules pick the first family with the role's flag pattern among those still free, and none exactly when no family serves. |
| Device.LastServing | src/vk/vk.c:82-99 | The older rules pick the last family with the pattern, and none exactly when no family serves. |
| Device.RoleFamily | src/vulkan/vulkan.c:76-103 | Each role gets the family its generation's rules select: render is G\|C\|T, compute is C\|T (exactly C in the older engine), and transfer is exactly T. |
| Device.RolesDistinct | src/vulkan/vulkan.c:85-99 | Two different roles never share a family. |
| Device.QueueRoles | src/vulkan/vulkan.c:76-103 | The scan over the families returns the specified family for each role. |
| Device.Score | src/vulkan/vulkan.c:108-114 | A discrete device scores 1000, an integrated one 500, any other type 0. |
| Device.TypeOf | src/vulkan/vulkan.c:108-114 | The recorded type is discrete or integrated exactly for those device types, and none for every other type. |
| Device.CheckDevice | src/vulkan/vulkan.c:45-121 | A device is suitable exactly when all required extensions are present and a render family exists; it is then recorded with the families each role selects, the score of its type and its type, and a score of 1000 goes with exactly the discrete type. |
| Device.CheckPhysicalDevice | src/vulkan/vulkan.c:45-121 | The check returns exactly the specified device information. |
| Device.PickBest | src/vulkan/vulkan.c:404-409 | The index picked has the largest score, and is the first with that score. |
| Device.SelectDevice | src/vulkan/vulkan.c:384-409 | Selection fails with the no-GPU code exactly when no device (of up to 8) is suitable; otherwise it returns the first suitable device of maximal score. |
| Device.RequiredInstanceExtensions | src/vulkan/vulkan.c:254-263 | The names are the GLFW list, capped to leave room, followed by debug-utils exactly when the debug flag is set. |
| Device.ValidateRunInfo | src/vk/vk.c:382-391 | A missing info or callback returns the info-invalid code directly. A missing name or a zero window size is reported as info-invalid, and the run returns when the callback halts. |
| LegacyRender.MapDescriptorBindings | src/vk/render.c:843-867 | More than 32 bindings fail with too-many, and a binding that is neither uniform nor storage fails; otherwise entry `i` carries binding `i`'s slot and descriptor type. |
| LegacyRender.BuildNext | src/vk/render.c:902-983 | The node outcome after `i + 1` iterations is one step from the one after `i`. |
| LegacyRender.FailurePersists | src/vk/render.c:902-983 | Once the node loop fails it keeps that failure. |
| LegacyRender.PlaceBuffer | src/vk/render.c:943-945 | A buffer's offset is the block size rounded up to its alignment, and the grown block ends with the buffer. |
| LegacyRender.BuildResourceNodes | src/vk/render.c:902-983 | The loop's outcome is that of the value-level node build over every binding. |
| LegacyRender.BuildLayout | src/vk/render.c:910-972 | In either block, every placed buffer is aligned and lies within the block (size, alignment and type mask), and buffers do not overlap. |
| LegacyRender.BuildSucceedsIff | src/vk/render.c:922-983 | Reading each binding, the node loop succeeds exactly when every binding is acceptable (a skipped NONE, or a valid uniform binding). |
| LegacyRender.BuildFailsAtFirst | src/vk/render.c:922-983 | A failure carries the rejection of the first binding that is not acceptable. |
| LegacyRender.BuildNodesMirror | src/vk/render.c:902-983 | On success the nodes are one per uniform binding, in order, each with that binding's size, a device buffer, and a host buffer exactly for host-device usage. |
| LegacyRender.OnlyUniformsAccepted | src/vk/render.c:846-983 | Bindings that pass both the descriptor mapping and the node loop are all uniform buffers. |
| LegacyRender.AsWrittenRepeatsFirst | src/vk/render.c:915 | The loop as written behaves as the intended loop over a list that repeats the first binding. |
| LegacyRender.AsWrittenDuplicatesFirst | src/vk/render.c:915 | For a uniform binding followed by a NONE binding, the loop as written builds two nodes where the intended one builds one. |
| LegacyRender.BlockRequestsCover | src/vk/render.c:985-993 | With nodes built, the device block is asked for as device-local and not host-visible, and the host block the other way round; each request is large enough for every buffer placed in its block and admits only memory types that every such buffer admits. The request list is empty exactly when no node was built. |
| LegacyRender.NodeBindsExactly | src/vk/render.c:995-1009 | A node's bind calls are exactly one per buffer it has, with that buffer's block and offset. |
| LegacyRender.BindsExactly | src/vk/render.c:995-1009 | A bind call is issued exactly when it is the call of some node's placed buffer. |
| LegacyRender.AsWrittenSkipsDeviceOnly | src/vk/render.c:1004-1005 | As written, a device-only node binds nothing, because the host buffer's presence guards both calls; the intended loop binds its device buffer. |
| Demo.DemoDeclarationsValid | src/main.c:141-189 | The demo's four resources pass validation with distinct locations, and its two pipelines pass validation with the recorded types. |
| Demo.DemoFrameDrawsCube | src/main.c:125-126 | Every demo frame issues exactly the cube's draw (36 vertices, 16 instances) and begins and ends rendering once. |
| Demo.DemoLayout | src/main.c:141-166 | Whatever the driver reports, the two grid buffers are device-only, and off a discrete device the host block stays empty. |

## Left out

- Driver, GLFW and file-system calls are inputs of the model rather than calls. These are memory requirements and types, format, mode and feature lists, capabilities, extension lists, queue-family flags, file sizes, and success or failure answers.
- Object handles (buffers, memories, modules, pipelines, sets) become numbers or requirement records. Creating, destroying and freeing driver objects is not modelled.
- Buffer-creation, `malloc` and descriptor-creation failures are not modelled as separate outcomes. These failures are failed `vkCreateBuffer`, the temporary descriptor buffer, `vkCreateDescriptorSetLayout` and `vkAllocateDescriptorSets`. Whether they happen is a driver answer, and each one only reports and returns.
- The newer renderer's memory binding loop (src/vulkan/render.c:950-964) is left out: it only passes the layout's placements to the driver. The older renderer's bind loop is modelled because its guard is wrong.
- Messages: the message text is left out, and so is the printing in `msgCallback`. Only the codes and the receiver's answer are modelled.
- Error flow: `MSG_CALLBACK` returns when the receiver answers non-zero. The model takes the answer of the demo's receiver, which halts exactly on errors, so a reported error is a returned `Err` code. `ValidateRunInfo` keeps the answer as an input.
- Integer widths: sizes, offsets and heap sizes are unbounded naturals, so u64 overflow of a heap restore or a running block size is not modelled.
- `Base.Align`: modelled as rounding up on naturals. It does not model the header's bit mask for alignments that are not powers of two, or u64 overflow near the top of the range.
- `DecimalText.StrcatU32` and `DecimalText.StrcatU64`: they model the evidently intended append. The code as written is `DecimalAsWritten`, which wraps the reversal.
- `LegacyVram.LegacyArena.Allocate`: it uses the corrected `>=` guard. The written `>` guard and the out-of-range write it admits are stated separately.
- The memory-type mask: both arenas take the mask test as a parameter (`Memory.MaskTest`), so their properties hold for the property-bit test as written and for the evidently intended type-index test. The resource code allocates with the type-index test.
- Device names and identifiers copied into the device information are left out. So is the logical-device and queue creation in `createVulkanContext`, which is driver calls.
- Fixed-function pipeline state in `createGraphicsPipeline` is left out: it is constant configuration.
- Synchronisation is left out. This covers fences, semaphores, submit and present ordering, and the swapchain-image acquire.
- The GLFW wait loops on a zero extent are left out. The extent is taken as given.
- The shader read buffer's contents and the leak of the old block on a failed `realloc` are left out. Only its size is modelled.
- Floating-point data is left out: viewport floats, the demo's vertex data and its performance-counter timing.
- `cmdCompute`, `cmdBeginWriteResource` and `cmdEndWriteResource` are only declared in the header. They have no body to model.
- The older renderer's enumeration values for node and binding types are modelled as datatype constructors, and their numbers are not kept. The older code references types whose headers are not part of this model.
- `Surface.GetSwapchainParams`: it models the scans up to the 512 entries fetched. The depth and format choices are the same as the newer renderer's.
- `Resources.ResourceTable.CreateResources`: it requires every set and binding to lie inside the 16 x 16 grid, because the engine writes the grid without checking them.

## Findings

| source | as written | input that shows it | evidently intended | confidence | as-written member | corrected member |
|---|---|---|---|---|---|---|
| src/vulkan/vulkan.c:145 | The type mask is ANDed with the memory type's property bits | Type 0 host-visible and type 1 device-local, with mask 0x2 (only type 1 admitted): type 0 is chosen and recorded | Test bit `i` of the mask for the type at index `i` | not executed | Vram.AsWrittenRecordsForbiddenType | Vram.AllocateRespectsTypeMask |
| src/vk/vram.c:27 | The guard rejects only when the count is above 512 | A granted request at count 512 writes entry 512 of a 512-entry table | Reject when the count is 512 or more | not executed | LegacyVram.AsWrittenGuardAdmitsFullTable | LegacyVram.LegacyArena.Allocate |
| src/vk/render.c:78 | The shader file is opened and then sought in without checking that it opened | A shader path whose file does not open: `fseek` is called on a null file | Check the open and yield no module, as the newer loader does | not executed | Pipelines.AsWrittenSeeksUnopenedFile | Pipelines.ReadBuffer.LoadLegacyShader |
| src/main.h:247 | The u32 digit reversal wraps | `strcat_u32` of 1000000009: the reversal 9000000001 exceeds u32 | Append the decimal text of every u32 | not executed | DecimalText.StrcatU32ReversalOverflows | DecimalText.StrcatU32 |
| src/main.h:267 | The u64 digit reversal wraps | `strcat_u64` of 10000000000000000019: the reversal exceeds u64 | Append the decimal text of every u64 | not executed | DecimalText.StrcatU64ReversalOverflows | DecimalText.StrcatU64 |
| src/vk/render.c:915 | Every iteration of the node loop reads `bindings[0]` | A uniform binding followed by a NONE binding builds two nodes | Read `bindings[i]` | not executed | LegacyRender.AsWrittenDuplicatesFirst | LegacyRender.BuildNodesMirror |
| src/vk/render.c:1004 | The host buffer's presence guards the binding of the device buffer too | A device-only node: its device buffer is never bound | Bind the device buffer whenever it exists | not executed | LegacyRender.AsWrittenSkipsDeviceOnly | LegacyRender.BindsExactly |
