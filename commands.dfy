/**
 * Command recording in the newer renderer. The frame loop resets the
 * bound pipeline, the user's callback issues draws, and the frame is
 * closed by ending rendering when a graphics pipeline is still bound.
 * What is recorded into the command buffer is modelled as a trace of
 * commands.
 */
module Commands {
  import opened Base
  import opened Surface
  import Pipelines

  /** The commands the recording issues. */
  datatype Command =
    | ImageToAttachment
    | BeginRendering(area: Extent)
    | SetViewport(size: Extent)
    | SetScissor(area: Extent)
    | BindPipeline(pipelineId: nat)
    | Draw(vertexCount: nat, instanceCount: nat, firstVertex: nat, firstInstance: nat)
    | EndRendering
    | ImageToPresent

  predicate IsGraphics(types: seq<nat>, id: nat)
    requires id < |types|
  {
    types[id] == Pipelines.RENDER_PIPELINE_TYPE_GRAPHICS
  }

  /** The bound pipeline is none (all bits set) or a graphics pipeline. */
  predicate BoundValid(types: seq<nat>, bound: nat)
  {
    bound == U32_MAX || (bound < |types| && IsGraphics(types, bound))
  }

  // ---------------------------------------------------------------
  // One draw
  // ---------------------------------------------------------------

  /** Rendering is begun when a graphics pipeline follows none or a non-graphics one. */
  predicate Begins(types: seq<nat>, bound: nat, id: nat)
    requires id < |types| && BoundValid(types, bound)
  {
    bound != id && IsGraphics(types, id) && (bound == U32_MAX || !IsGraphics(types, bound))
  }

  /** The pipeline bound after a draw: a new graphics pipeline replaces the bound one. */
  function BoundAfter(types: seq<nat>, bound: nat, id: nat): (b: nat)
    requires id < |types| && BoundValid(types, bound)
    ensures BoundValid(types, b)
    ensures b == id || b == bound
    ensures b != bound <==> bound != id && IsGraphics(types, id)
  {
    if bound != id && IsGraphics(types, id) then id else bound
  }

  /** The commands one draw issues. */
  function DrawCommands(types: seq<nat>, extent: Extent, bound: nat, id: nat, vertexCount: nat, instanceCount: nat): (t: seq<Command>)
    requires id < |types| && BoundValid(types, bound)
    ensures |t| > 0 && t[|t| - 1] == Draw(vertexCount, instanceCount, 0, 0)
  {
    (if bound != id && IsGraphics(types, id) then
      (if bound == U32_MAX || !IsGraphics(types, bound) then
        OpenRendering(extent)
      else [])
      + [BindPipeline(id)]
    else [])
    + [Draw(vertexCount, instanceCount, 0, 0)]
  }

  /** The commands that close the frame. */
  function EndCommands(types: seq<nat>, bound: nat): seq<Command>
    requires BoundValid(types, bound)
  {
    (if bound != U32_MAX && IsGraphics(types, bound) then [EndRendering] else []) + [ImageToPresent]
  }

  // ---------------------------------------------------------------
  // Counting commands
  // ---------------------------------------------------------------

  /** The draw commands of a trace, in order. */
  function DrawsOf(t: seq<Command>): (r: seq<Command>)
    ensures |r| <= |t|
  {
    if |t| == 0 then [] else (if t[0].Draw? then [t[0]] else []) + DrawsOf(t[1..])
  }

  function BeginCount(t: seq<Command>): nat
  {
    if |t| == 0 then 0 else (if t[0].BeginRendering? then 1 else 0) + BeginCount(t[1..])
  }

  function EndCount(t: seq<Command>): nat
  {
    if |t| == 0 then 0 else (if t[0] == EndRendering then 1 else 0) + EndCount(t[1..])
  }

  function BindCount(t: seq<Command>): nat
  {
    if |t| == 0 then 0 else (if t[0].BindPipeline? then 1 else 0) + BindCount(t[1..])
  }

  lemma {:induction false} CountsAppend(a: seq<Command>, b: seq<Command>)
    ensures DrawsOf(a + b) == DrawsOf(a) + DrawsOf(b)
    ensures BeginCount(a + b) == BeginCount(a) + BeginCount(b)
    ensures EndCount(a + b) == EndCount(a) + EndCount(b)
    ensures BindCount(a + b) == BindCount(a) + BindCount(b)
    decreases |a|
  {
    if |a| == 0 {
      assert a + b == b;
    } else {
      assert (a + b)[0] == a[0];
      assert (a + b)[1..] == a[1..] + b;
      CountsAppend(a[1..], b);
    }
  }

  /** The counts of a single command. */
  lemma CountsOne(c: Command)
    ensures DrawsOf([c]) == (if c.Draw? then [c] else [])
    ensures BeginCount([c]) == (if c.BeginRendering? then 1 else 0)
    ensures EndCount([c]) == (if c == EndRendering then 1 else 0)
    ensures BindCount([c]) == (if c.BindPipeline? then 1 else 0)
  {
    assert [c][1..] == [];
  }

  /** The three commands that open rendering. */
  function OpenRendering(extent: Extent): seq<Command>
  {
    [BeginRendering(extent), SetViewport(extent), SetScissor(extent)]
  }

  lemma CountsOpen(extent: Extent)
    ensures DrawsOf(OpenRendering(extent)) == [] && BeginCount(OpenRendering(extent)) == 1
    ensures BindCount(OpenRendering(extent)) == 0 && EndCount(OpenRendering(extent)) == 0
  {
    assert OpenRendering(extent) == [BeginRendering(extent)] + [SetViewport(extent)] + [SetScissor(extent)];
    CountsOne(BeginRendering(extent));
    CountsOne(SetViewport(extent));
    CountsOne(SetScissor(extent));
    CountsAppend([BeginRendering(extent)], [SetViewport(extent)]);
    CountsAppend([BeginRendering(extent)] + [SetViewport(extent)], [SetScissor(extent)]);
  }

  /**
   * One draw issues exactly one draw command, with the given counts and
   * first vertex and instance zero; rendering is begun with viewport and
   * scissor, and a pipeline bound, only as the draw's rules say.
   */
  lemma DrawIssuesOneDraw(types: seq<nat>, extent: Extent, bound: nat, id: nat, vertexCount: nat, instanceCount: nat)
    requires id < |types| && BoundValid(types, bound)
    ensures var t := DrawCommands(types, extent, bound, id, vertexCount, instanceCount);
      DrawsOf(t) == [Draw(vertexCount, instanceCount, 0, 0)]
      && BeginCount(t) == (if Begins(types, bound, id) then 1 else 0)
      && BindCount(t) == (if BoundAfter(types, bound, id) != bound then 1 else 0)
      && EndCount(t) == 0
      && (Begins(types, bound, id) ==> t[..3] == OpenRendering(extent))
  {
    var t := DrawCommands(types, extent, bound, id, vertexCount, instanceCount);
    var d := [Draw(vertexCount, instanceCount, 0, 0)];
    var bind := [BindPipeline(id)];
    var open := OpenRendering(extent);
    CountsOne(Draw(vertexCount, instanceCount, 0, 0));
    CountsOne(BindPipeline(id));
    CountsOpen(extent);
    if bound != id && IsGraphics(types, id) {
      if bound == U32_MAX || !IsGraphics(types, bound) {
        assert t == open + bind + d;
        CountsAppend(open, bind);
        CountsAppend(open + bind, d);
      } else {
        assert t == bind + d;
        CountsAppend(bind, d);
      }
    } else {
      assert t == d;
    }
  }

  /**
   * While a graphics pipeline is bound, no new rendering is begun: with the
   * bound pipeline always none or graphics, the "previous was not graphics"
   * half of the rule never fires.
   */
  lemma BeginsOnlyFromNone(types: seq<nat>, bound: nat, id: nat)
    requires id < |types| <= U32_MAX && BoundValid(types, bound)
    ensures Begins(types, bound, id) <==> bound == U32_MAX && IsGraphics(types, id)
  {
  }

  // ---------------------------------------------------------------
  // A frame
  // ---------------------------------------------------------------

  /** A draw issued by the user's callback. */
  datatype DrawCall = DrawCall(pipelineId: nat, vertexCount: nat, instanceCount: nat)

  predicate DrawsInRange(types: seq<nat>, draws: seq<DrawCall>)
  {
    forall k | 0 <= k < |draws| :: draws[k].pipelineId < |types|
  }

  /** The pipeline bound after the first `n` draws of a frame. */
  function BoundAfterDraws(types: seq<nat>, draws: seq<DrawCall>, n: nat): (b: nat)
    requires n <= |draws| && DrawsInRange(types, draws)
    ensures BoundValid(types, b)
  {
    if n == 0 then U32_MAX
    else BoundAfter(types, BoundAfterDraws(types, draws, n - 1), draws[n - 1].pipelineId)
  }

  /** The commands the first `n` draws issue. */
  function DrawsTrace(types: seq<nat>, extent: Extent, draws: seq<DrawCall>, n: nat): seq<Command>
    requires n <= |draws| && DrawsInRange(types, draws)
  {
    if n == 0 then []
    else
      var d := draws[n - 1];
      DrawsTrace(types, extent, draws, n - 1)
      + DrawCommands(types, extent, BoundAfterDraws(types, draws, n - 1), d.pipelineId, d.vertexCount, d.instanceCount)
  }

  /** A whole frame: the opening transition, the draws and the closing commands. */
  function FrameTrace(types: seq<nat>, extent: Extent, draws: seq<DrawCall>): seq<Command>
    requires DrawsInRange(types, draws)
  {
    [ImageToAttachment] + DrawsTrace(types, extent, draws, |draws|) + EndCommands(types, BoundAfterDraws(types, draws, |draws|))
  }

  /** Some of the first `n` draws uses a graphics pipeline. */
  predicate DrawsGraphics(types: seq<nat>, draws: seq<DrawCall>, n: nat)
    requires n <= |draws| && DrawsInRange(types, draws)
  {
    exists k | 0 <= k < n :: IsGraphics(types, draws[k].pipelineId)
  }

  /**
   * After the first `n` draws the bound pipeline is none exactly when none
   * of them was graphics, and otherwise the last graphics pipeline drawn.
   */
  lemma {:induction false} BoundIsLastGraphics(types: seq<nat>, draws: seq<DrawCall>, n: nat)
    requires n <= |draws| && DrawsInRange(types, draws) && |types| <= U32_MAX
    ensures BoundAfterDraws(types, draws, n) == U32_MAX <==> !DrawsGraphics(types, draws, n)
    ensures n > 0 && IsGraphics(types, draws[n - 1].pipelineId) ==> BoundAfterDraws(types, draws, n) == draws[n - 1].pipelineId
    ensures n > 0 && !IsGraphics(types, draws[n - 1].pipelineId) ==> BoundAfterDraws(types, draws, n) == BoundAfterDraws(types, draws, n - 1)
  {
    if n > 0 {
      BoundIsLastGraphics(types, draws, n - 1);
      var id := draws[n - 1].pipelineId;
      assert id != U32_MAX;
      if IsGraphics(types, id) {
        assert DrawsGraphics(types, draws, n);
      } else if DrawsGraphics(types, draws, n) {
        var k :| 0 <= k < n && IsGraphics(types, draws[k].pipelineId);
        assert k < n - 1;
      }
    }
  }

  lemma DrawsGraphicsStep(types: seq<nat>, draws: seq<DrawCall>, n: nat)
    requires 0 < n <= |draws| && DrawsInRange(types, draws)
    ensures DrawsGraphics(types, draws, n) <==> DrawsGraphics(types, draws, n - 1) || IsGraphics(types, draws[n - 1].pipelineId)
  {
    if DrawsGraphics(types, draws, n) && !IsGraphics(types, draws[n - 1].pipelineId) {
      var k :| 0 <= k < n && IsGraphics(types, draws[k].pipelineId);
      assert k < n - 1;
    }
  }

  /** The commands of the `n`-th draw, given the pipeline bound before it. */
  function StepCommands(types: seq<nat>, extent: Extent, draws: seq<DrawCall>, n: nat): seq<Command>
    requires 0 < n <= |draws| && DrawsInRange(types, draws)
  {
    var d := draws[n - 1];
    DrawCommands(types, extent, BoundAfterDraws(types, draws, n - 1), d.pipelineId, d.vertexCount, d.instanceCount)
  }

  /** The draw commands of the first `n` calls are theirs, one per call, in order. */
  lemma {:induction false} DrawsTraceDraws(types: seq<nat>, extent: Extent, draws: seq<DrawCall>, n: nat)
    requires n <= |draws| && DrawsInRange(types, draws)
    ensures DrawsOf(DrawsTrace(types, extent, draws, n)) == seq(n, k requires 0 <= k < n => Draw(draws[k].vertexCount, draws[k].instanceCount, 0, 0))
  {
    if n > 0 {
      DrawsTraceDraws(types, extent, draws, n - 1);
      var d := draws[n - 1];
      DrawIssuesOneDraw(types, extent, BoundAfterDraws(types, draws, n - 1), d.pipelineId, d.vertexCount, d.instanceCount);
      assert DrawsTrace(types, extent, draws, n) == DrawsTrace(types, extent, draws, n - 1) + StepCommands(types, extent, draws, n);
      CountsAppend(DrawsTrace(types, extent, draws, n - 1), StepCommands(types, extent, draws, n));
    }
  }

  /** The first `n` calls begin rendering once if any was graphics, and never end it. */
  lemma {:induction false} DrawsTraceBegins(types: seq<nat>, extent: Extent, draws: seq<DrawCall>, n: nat)
    requires n <= |draws| && DrawsInRange(types, draws) && |types| <= U32_MAX
    ensures BeginCount(DrawsTrace(types, extent, draws, n)) == (if DrawsGraphics(types, draws, n) then 1 else 0)
    ensures EndCount(DrawsTrace(types, extent, draws, n)) == 0
  {
    if n > 0 {
      DrawsTraceBegins(types, extent, draws, n - 1);
      BoundIsLastGraphics(types, draws, n - 1);
      DrawsGraphicsStep(types, draws, n);
      var d := draws[n - 1];
      var bound := BoundAfterDraws(types, draws, n - 1);
      DrawIssuesOneDraw(types, extent, bound, d.pipelineId, d.vertexCount, d.instanceCount);
      BeginsOnlyFromNone(types, bound, d.pipelineId);
      assert DrawsTrace(types, extent, draws, n) == DrawsTrace(types, extent, draws, n - 1) + StepCommands(types, extent, draws, n);
      CountsAppend(DrawsTrace(types, extent, draws, n - 1), StepCommands(types, extent, draws, n));
    }
  }

  /**
   * A frame issues one draw command per call, in order, and begins and ends
   * rendering in one matching pair when some call drew with a graphics
   * pipeline, and not at all otherwise.
   */
  lemma FrameBracketsRendering(types: seq<nat>, extent: Extent, draws: seq<DrawCall>)
    requires DrawsInRange(types, draws) && |types| <= U32_MAX
    ensures var t := FrameTrace(types, extent, draws);
      DrawsOf(t) == seq(|draws|, k requires 0 <= k < |draws| => Draw(draws[k].vertexCount, draws[k].instanceCount, 0, 0))
      && BeginCount(t) == EndCount(t)
      && BeginCount(t) == (if DrawsGraphics(types, draws, |draws|) then 1 else 0)
      && t[0] == ImageToAttachment && t[|t| - 1] == ImageToPresent
  {
    var body := DrawsTrace(types, extent, draws, |draws|);
    var bound := BoundAfterDraws(types, draws, |draws|);
    var close := EndCommands(types, bound);
    DrawsTraceDraws(types, extent, draws, |draws|);
    DrawsTraceBegins(types, extent, draws, |draws|);
    BoundIsLastGraphics(types, draws, |draws|);
    var first := [ImageToAttachment];
    var last := [ImageToPresent];
    var end := [EndRendering];
    CountsOne(ImageToAttachment);
    CountsOne(ImageToPresent);
    CountsOne(EndRendering);
    if bound != U32_MAX && IsGraphics(types, bound) {
      assert close == end + last;
      CountsAppend(end, last);
    } else {
      assert close == last;
    }
    CountsAppend(first, body);
    CountsAppend(first + body, close);
  }

  // ---------------------------------------------------------------
  // The recording context
  // ---------------------------------------------------------------

  /**
   * The recording context handed to the user's callback: the pipeline types
   * of the render context, the surface extent, the bound pipeline and the
   * frame's commands so far.
   */
  class CmdContext {
    const types: seq<nat>
    const extent: Extent
    var boundPipelineId: nat
    var trace: seq<Command>

    predicate Valid()
      reads this
    {
      |types| <= U32_MAX && BoundValid(types, boundPipelineId)
    }

    constructor (pipelineTypes: seq<nat>, surfaceExtent: Extent)
      requires |pipelineTypes| <= U32_MAX
      ensures Valid()
      ensures types == pipelineTypes && extent == surfaceExtent
      ensures boundPipelineId == U32_MAX && trace == []
    {
      types := pipelineTypes;
      extent := surfaceExtent;
      boundPipelineId := U32_MAX;
      trace := [];
    }

    /** The start of a frame: no pipeline bound, the image made an attachment. */
    method BeginFrame()
      requires Valid()
      modifies this
      ensures Valid()
      ensures boundPipelineId == U32_MAX && trace == [ImageToAttachment]
    {
      boundPipelineId := U32_MAX;
      trace := [ImageToAttachment];
    }

    /**
     * A draw with the given pipeline. The pipeline index is not checked by
     * the engine; it must name a pipeline of the render context.
     */
    method CmdDraw(pipelineId: nat, vertexCount: nat, instanceCount: nat)
      requires Valid() && pipelineId < |types|
      modifies this
      ensures Valid()
      ensures boundPipelineId == BoundAfter(types, old(boundPipelineId), pipelineId)
      ensures trace == old(trace) + DrawCommands(types, extent, old(boundPipelineId), pipelineId, vertexCount, instanceCount)
    {
      if boundPipelineId != pipelineId {
        if types[pipelineId] == Pipelines.RENDER_PIPELINE_TYPE_GRAPHICS {
          if boundPipelineId == U32_MAX || types[boundPipelineId] != Pipelines.RENDER_PIPELINE_TYPE_GRAPHICS {
            trace := trace + OpenRendering(extent);
          }
          boundPipelineId := pipelineId;
          trace := trace + [BindPipeline(pipelineId)];
        }
      }
      trace := trace + [Draw(vertexCount, instanceCount, 0, 0)];
    }

    /** The end of a frame: rendering is ended if a graphics pipeline is bound. */
    method EndFrame()
      requires Valid()
      modifies this
      ensures Valid() && boundPipelineId == old(boundPipelineId)
      ensures trace == old(trace) + EndCommands(types, boundPipelineId)
    {
      if boundPipelineId != U32_MAX {
        if types[boundPipelineId] == Pipelines.RENDER_PIPELINE_TYPE_GRAPHICS {
          trace := trace + [EndRendering];
        }
      }
      trace := trace + [ImageToPresent];
    }

    /**
     * One frame with the given draws in place of the user's callback: the
     * trace recorded is the frame's trace.
     */
    method RecordFrame(draws: seq<DrawCall>)
      requires Valid() && DrawsInRange(types, draws)
      modifies this
      ensures Valid()
      ensures trace == FrameTrace(types, extent, draws)
      ensures boundPipelineId == BoundAfterDraws(types, draws, |draws|)
    {
      BeginFrame();
      var i := 0;
      while i < |draws|
        invariant 0 <= i <= |draws| && Valid()
        invariant boundPipelineId == BoundAfterDraws(types, draws, i)
        invariant trace == [ImageToAttachment] + DrawsTrace(types, extent, draws, i)
      {
        CmdDraw(draws[i].pipelineId, draws[i].vertexCount, draws[i].instanceCount);
        i := i + 1;
      }
      EndFrame();
    }
  }
}
