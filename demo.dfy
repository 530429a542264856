/**
 * The demo program's declarations: four buffers (a mutable uniform buffer
 * with the screen and time parameters, a mutable storage buffer with the
 * cube's 36 vertices, and two immutable storage buffers with 16 grid
 * positions each), a compute pipeline and a graphics pipeline, and the
 * per-frame callback that draws the cube with the graphics pipeline.
 * Sizes are those of the demo's structures of four-byte floats.
 */
module Demo {
  import opened Base
  import opened Resources
  import opened Pipelines
  import opened Commands
  import Surface

  const DEMO_RESOURCES: seq<ResourceInfo> := [
    ResourceInfo(RENDER_RESOURCE_TYPE_UNIFORM_BUFFER, RENDER_RESOURCE_HOST_MUTABLE, 0, 0, 8 * 4),
    ResourceInfo(RENDER_RESOURCE_TYPE_STORAGE_BUFFER, RENDER_RESOURCE_HOST_MUTABLE, 1, 0, 36 * 4 * 4),
    ResourceInfo(RENDER_RESOURCE_TYPE_STORAGE_BUFFER, RENDER_RESOURCE_HOST_IMMUTABLE, 2, 0, 16 * 4 * 4),
    ResourceInfo(RENDER_RESOURCE_TYPE_STORAGE_BUFFER, RENDER_RESOURCE_HOST_IMMUTABLE, 3, 0, 16 * 4 * 4)
  ]

  const DEMO_PIPELINES: seq<PipelineInfo> := [
    PipelineInfo(RENDER_PIPELINE_TYPE_COMPUTE, false, false, true),
    PipelineInfo(RENDER_PIPELINE_TYPE_GRAPHICS, true, true, false)
  ]

  /** The pipeline types as the render context records them. */
  const DEMO_TYPES: seq<nat> := [RENDER_PIPELINE_TYPE_COMPUTE, RENDER_PIPELINE_TYPE_GRAPHICS]

  /** The draw the per-frame callback issues: pipeline 1, 36 vertices, 16 instances. */
  const DEMO_DRAWS: seq<DrawCall> := [DrawCall(1, 36, 16)]

  /** The demo's declarations pass both validations, and no two buffers share a location. */
  lemma DemoDeclarationsValid()
    ensures ResourcesValid(DEMO_RESOURCES) && DistinctLocations(DEMO_RESOURCES)
    ensures PipelinesValid(DEMO_PIPELINES)
    ensures forall i | 0 <= i < |DEMO_PIPELINES| :: DEMO_TYPES[i] == DEMO_PIPELINES[i].ptype
  {
    ValidIffDistinct(DEMO_RESOURCES);
  }

  /**
   * Every frame of the demo opens and closes rendering once and issues
   * exactly the cube's draw.
   */
  lemma DemoFrameDrawsCube(extent: Surface.Extent)
    ensures DrawsInRange(DEMO_TYPES, DEMO_DRAWS)
    ensures var t := FrameTrace(DEMO_TYPES, extent, DEMO_DRAWS);
      DrawsOf(t) == [Draw(36, 16, 0, 0)] && BeginCount(t) == 1 && EndCount(t) == 1
  {
    FrameBracketsRendering(DEMO_TYPES, extent, DEMO_DRAWS);
    assert IsGraphics(DEMO_TYPES, DEMO_DRAWS[0].pipelineId);
    assert DrawsGraphics(DEMO_TYPES, DEMO_DRAWS, 1);
  }

  /**
   * Whatever requirements the driver reports, the two grid buffers live in
   * the device block only, and off a discrete device the host block stays
   * empty, so the demo then needs one block.
   */
  lemma DemoLayout(dt: DeviceType, dreqs: seq<Requirements>, hreqs: seq<Requirements>)
    requires |dreqs| == |hreqs| == |DEMO_RESOURCES|
    requires RequirementsAligned(dreqs) && RequirementsAligned(hreqs)
    ensures var l := LayoutOf(dt, DEMO_RESOURCES, dreqs, hreqs, |DEMO_RESOURCES|);
      l.placements[2].deviceOffset.Some? && l.placements[2].hostOffset.None?
      && l.placements[3].deviceOffset.Some? && l.placements[3].hostOffset.None?
      && (dt != Discrete ==> l.host == EMPTY_AGGREGATE)
  {
    ImmutableDeviceOnly(dt, DEMO_RESOURCES, dreqs, hreqs, 2);
    ImmutableDeviceOnly(dt, DEMO_RESOURCES, dreqs, hreqs, 3);
    HostBlockOnlyDiscrete(dt, DEMO_RESOURCES, dreqs, hreqs);
  }
}
