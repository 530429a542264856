/**
 * Pipeline declarations: the shader-shape validation of the declared
 * pipelines, the growable buffer shader files are read into, and the
 * building of the graphics pipelines, in the newer renderer and in the
 * older render-node form.
 *
 * Shader paths are reduced to whether they are given; what the file
 * system and the driver answer (the file opens, its size, whether the
 * buffer could be resized, the read, the module and the pipeline) is an
 * input of the model.
 */
module Pipelines {
  import opened Base

  const RENDER_PIPELINE_TYPE_NONE: nat := 0
  const RENDER_PIPELINE_TYPE_GRAPHICS: nat := 1
  const RENDER_PIPELINE_TYPE_COMPUTE: nat := 2

  /** The shader read buffer starts at four pages and grows by at least one. */
  const READ_BUFFER_INITIAL_SIZE: nat := 4096 * 4
  const READ_BUFFER_GROWTH: nat := 4096

  /** A declared pipeline: its raw type and which shader paths are given. */
  datatype PipelineInfo = PipelineInfo(ptype: nat, hasVertex: bool, hasFragment: bool, hasCompute: bool)

  // ---------------------------------------------------------------
  // Validation
  // ---------------------------------------------------------------

  /** The three checks made on each declared pipeline, in the engine's order. */
  predicate PipelineValid(p: PipelineInfo)
  {
    (p.ptype == RENDER_PIPELINE_TYPE_GRAPHICS || p.ptype == RENDER_PIPELINE_TYPE_COMPUTE)
    && !(p.ptype == RENDER_PIPELINE_TYPE_GRAPHICS && (!p.hasVertex || !p.hasFragment || p.hasCompute))
    && !(p.ptype == RENDER_PIPELINE_TYPE_COMPUTE && (!p.hasCompute || p.hasVertex || p.hasFragment))
  }

  predicate PipelinesValid(infos: seq<PipelineInfo>)
  {
    forall i | 0 <= i < |infos| :: PipelineValid(infos[i])
  }

  datatype Stage = VertexStage | FragmentStage | ComputeStage

  /** The shader stages a pipeline declares. */
  function Stages(p: PipelineInfo): set<Stage>
  {
    (if p.hasVertex then {VertexStage} else {})
    + (if p.hasFragment then {FragmentStage} else {})
    + (if p.hasCompute then {ComputeStage} else {})
  }

  /**
   * A pipeline passes exactly when it is a graphics pipeline with the
   * vertex and fragment stages only, or a compute pipeline with the
   * compute stage only.
   */
  lemma PipelineValidIffStages(p: PipelineInfo)
    ensures PipelineValid(p) <==>
      (p.ptype == RENDER_PIPELINE_TYPE_GRAPHICS && Stages(p) == {VertexStage, FragmentStage})
      || (p.ptype == RENDER_PIPELINE_TYPE_COMPUTE && Stages(p) == {ComputeStage})
  {
    if p.ptype == RENDER_PIPELINE_TYPE_GRAPHICS && Stages(p) == {VertexStage, FragmentStage} {
      assert VertexStage in Stages(p) && FragmentStage in Stages(p) && ComputeStage !in Stages(p);
    }
    if p.ptype == RENDER_PIPELINE_TYPE_COMPUTE && Stages(p) == {ComputeStage} {
      assert VertexStage !in Stages(p) && FragmentStage !in Stages(p) && ComputeStage in Stages(p);
    }
  }

  /**
   * The validation loop: the first pipeline that fails a check is reported
   * and ends the creation.
   */
  method ValidatePipelines(infos: seq<PipelineInfo>) returns (code: i32)
    ensures code == MSG_CODE_SUCCESS <==> PipelinesValid(infos)
    ensures code == MSG_CODE_SUCCESS || code == MSG_CODE_ERROR_VK_RENDER_PIPELINE_INVALID
  {
    var i := 0;
    while i < |infos|
      invariant 0 <= i <= |infos|
      invariant forall k | 0 <= k < i :: PipelineValid(infos[k])
    {
      var p := infos[i];
      if p.ptype != RENDER_PIPELINE_TYPE_GRAPHICS && p.ptype != RENDER_PIPELINE_TYPE_COMPUTE {
        return MSG_CODE_ERROR_VK_RENDER_PIPELINE_INVALID;
      }
      if p.ptype == RENDER_PIPELINE_TYPE_GRAPHICS && (!p.hasVertex || !p.hasFragment || p.hasCompute) {
        return MSG_CODE_ERROR_VK_RENDER_PIPELINE_INVALID;
      }
      if p.ptype == RENDER_PIPELINE_TYPE_COMPUTE && (!p.hasCompute || p.hasVertex || p.hasFragment) {
        return MSG_CODE_ERROR_VK_RENDER_PIPELINE_INVALID;
      }
      i := i + 1;
    }
    return MSG_CODE_SUCCESS;
  }

  // ---------------------------------------------------------------
  // The shader read buffer
  // ---------------------------------------------------------------

  /**
   * The buffer size after making room for a file of `need` bytes: a file
   * that fits leaves it alone, a larger one grows it to the file size or
   * by one page, whichever is more.
   */
  function Reserved(size: nat, need: nat): (r: nat)
    ensures r >= need && r >= size
    ensures need <= size ==> r == size
    ensures need > size ==> r >= size + READ_BUFFER_GROWTH
  {
    if need > size then Max(need, size + READ_BUFFER_GROWTH) else size
  }

  /** The buffer size after reading the files of the given sizes in order. */
  function SizeAfter(size: nat, needs: seq<nat>): nat
    decreases |needs|
  {
    if |needs| == 0 then size else SizeAfter(Reserved(size, needs[0]), needs[1..])
  }

  /** After a run of reads the buffer holds every file read and never shrank. */
  lemma {:induction false} SizeAfterCoversAll(size: nat, needs: seq<nat>)
    ensures SizeAfter(size, needs) >= size
    ensures forall k | 0 <= k < |needs| :: SizeAfter(size, needs) >= needs[k]
    decreases |needs|
  {
    if |needs| > 0 {
      SizeAfterCoversAll(Reserved(size, needs[0]), needs[1..]);
      forall k | 0 <= k < |needs|
        ensures SizeAfter(size, needs) >= needs[k]
      {
        if k > 0 {
          assert needs[k] == needs[1..][k - 1];
        }
      }
    }
  }

  /**
   * What the file system and the driver answer when a shader file is read:
   * whether it opens, its size, whether the buffer could be resized, whether
   * the whole file was read and whether the module was created.
   */
  datatype ShaderFile = ShaderFile(opens: bool, size: nat, reallocOk: bool, readOk: bool, moduleOk: bool)

  /** The code the shader-module step returns, given the buffer size before it. */
  function LoadCode(size: nat, f: ShaderFile): (code: i32)
    ensures code == MSG_CODE_SUCCESS <==> f.opens && (f.size > size ==> f.reallocOk) && f.readOk && f.moduleOk
    ensures !f.opens ==> code == MSG_CODE_ERROR_VK_OPEN_FILE
  {
    if !f.opens then MSG_CODE_ERROR_VK_OPEN_FILE
    else if f.size > size && !f.reallocOk then MSG_CODE_ERROR_VK_BUFFER_MALLOC_FAIL
    else if !f.readOk then MSG_CODE_ERROR_VK_READ_FILE_TO_BUFFER
    else if !f.moduleOk then MSG_CODE_ERROR_VK_SHADER_MODULE_CREATE
    else MSG_CODE_SUCCESS
  }

  /**
   * The buffer size after the step: the size is raised before the resize is
   * attempted, so it stays raised when the resize fails.
   */
  function SizeAfterLoad(size: nat, f: ShaderFile): nat
  {
    if f.opens then Reserved(size, f.size) else size
  }

  /** The buffer shader files are read into; only its size is modelled. */
  class ReadBuffer {
    var size: nat

    constructor ()
      ensures size == READ_BUFFER_INITIAL_SIZE
    {
      size := READ_BUFFER_INITIAL_SIZE;
    }

    /** The shader-module step of the newer renderer. */
    method LoadShader(f: ShaderFile) returns (code: i32)
      modifies this
      ensures code == LoadCode(old(size), f)
      ensures size == SizeAfterLoad(old(size), f)
    {
      if !f.opens {
        return MSG_CODE_ERROR_VK_OPEN_FILE;
      }
      if f.size > size {
        size := Max(f.size, size + READ_BUFFER_GROWTH);
        if !f.reallocOk {
          return MSG_CODE_ERROR_VK_BUFFER_MALLOC_FAIL;
        }
      }
      if !f.readOk {
        return MSG_CODE_ERROR_VK_READ_FILE_TO_BUFFER;
      }
      if !f.moduleOk {
        return MSG_CODE_ERROR_VK_SHADER_MODULE_CREATE;
      }
      return MSG_CODE_SUCCESS;
    }

    /**
     * The shader-module step of the older renderer, with the open checked
     * as the newer step checks it: any failure, a file that does not open
     * included, only yields a null module.
     */
    method LoadLegacyShader(f: ShaderFile) returns (ok: bool)
      modifies this
      ensures ok <==> LoadCode(old(size), f) == MSG_CODE_SUCCESS
      ensures !f.opens ==> !ok
      ensures size == SizeAfterLoad(old(size), f)
    {
      if !f.opens {
        return false;
      }
      if f.size > size {
        size := Max(f.size, size + READ_BUFFER_GROWTH);
        if !f.reallocOk {
          return false;
        }
      }
      return f.readOk && f.moduleOk;
    }
  }

  /**
   * What the older step does as written. It never checks that the file
   * opened and goes on to seek in it: with a file that does not open it
   * seeks through a null file, which is undefined.
   */
  datatype LegacyLoadOutcome = ModuleMade | NullModule | SeeksUnopenedFile

  function LegacyLoadAsWritten(size: nat, f: ShaderFile): (o: LegacyLoadOutcome)
    ensures o == SeeksUnopenedFile <==> !f.opens
    ensures f.opens ==> (o == ModuleMade <==> LoadCode(size, f) == MSG_CODE_SUCCESS)
  {
    if !f.opens then SeeksUnopenedFile
    else if (f.size > size && !f.reallocOk) || !f.readOk || !f.moduleOk then NullModule
    else ModuleMade
  }

  /**
   * A shader file that does not open: as written the older step seeks in
   * it, where the checked step reports the failure and leaves the buffer
   * alone.
   */
  lemma AsWrittenSeeksUnopenedFile(size: nat, f: ShaderFile)
    requires !f.opens
    ensures LegacyLoadAsWritten(size, f) == SeeksUnopenedFile
    ensures LoadCode(size, f) == MSG_CODE_ERROR_VK_OPEN_FILE && SizeAfterLoad(size, f) == size
  {
  }

  // ---------------------------------------------------------------
  // Building the graphics pipelines
  // ---------------------------------------------------------------

  /** The answers met while building one graphics pipeline. */
  datatype GraphicsLoad = GraphicsLoad(vertex: ShaderFile, fragment: ShaderFile, pipelineOk: bool)

  /** The buffer size, the indices of the pipelines built so far and the code. */
  datatype BuildState = BuildState(size: nat, built: seq<nat>, code: i32)

  /**
   * One entry of the building loop: a graphics entry loads its vertex and
   * fragment shaders and creates its pipeline; any other entry is only
   * recorded with its type. A failed step keeps its code.
   */
  function BuildStep(st: BuildState, p: PipelineInfo, l: GraphicsLoad, i: nat): BuildState
  {
    if st.code != MSG_CODE_SUCCESS || p.ptype != RENDER_PIPELINE_TYPE_GRAPHICS then st
    else if LoadCode(st.size, l.vertex) != MSG_CODE_SUCCESS then
      BuildState(SizeAfterLoad(st.size, l.vertex), st.built, MSG_CODE_ERROR_VK_SHADER_MODULE_CREATE)
    else
      var s1 := SizeAfterLoad(st.size, l.vertex);
      if LoadCode(s1, l.fragment) != MSG_CODE_SUCCESS then
        BuildState(SizeAfterLoad(s1, l.fragment), st.built, MSG_CODE_ERROR_VK_SHADER_MODULE_CREATE)
      else if !l.pipelineOk then
        BuildState(SizeAfterLoad(s1, l.fragment), st.built, MSG_CODE_ERROR_VK_PIPELINE_CREATE)
      else
        BuildState(SizeAfterLoad(s1, l.fragment), st.built + [i], MSG_CODE_SUCCESS)
  }

  /** The state after the first `n` entries. */
  function Build(size: nat, infos: seq<PipelineInfo>, loads: seq<GraphicsLoad>, n: nat): BuildState
    requires n <= |infos| == |loads|
  {
    if n == 0 then BuildState(size, [], MSG_CODE_SUCCESS)
    else BuildStep(Build(size, infos, loads, n - 1), infos[n - 1], loads[n - 1], n - 1)
  }

  /** `built` lists the graphics entries among the first `n`, in order. */
  predicate ListsGraphics(infos: seq<PipelineInfo>, n: nat, built: seq<nat>)
    requires n <= |infos|
  {
    (forall k | 0 <= k < |built| :: built[k] < n && infos[built[k]].ptype == RENDER_PIPELINE_TYPE_GRAPHICS)
    && (forall k, k' | 0 <= k < k' < |built| :: built[k] < built[k'])
    && (forall i | 0 <= i < n && infos[i].ptype == RENDER_PIPELINE_TYPE_GRAPHICS :: i in built)
  }

  /** Every shader file of the first `n` graphics entries fits in `size`. */
  predicate HoldsGraphicsShaders(infos: seq<PipelineInfo>, loads: seq<GraphicsLoad>, n: nat, size: nat)
    requires n <= |infos| == |loads|
  {
    forall i | 0 <= i < n && infos[i].ptype == RENDER_PIPELINE_TYPE_GRAPHICS ::
      size >= loads[i].vertex.size && size >= loads[i].fragment.size
  }

  /** The answers that let a graphics entry be built whatever the buffer size. */
  predicate LoadSucceeds(l: GraphicsLoad)
  {
    l.vertex.opens && l.vertex.reallocOk && l.vertex.readOk && l.vertex.moduleOk
    && l.fragment.opens && l.fragment.reallocOk && l.fragment.readOk && l.fragment.moduleOk
    && l.pipelineOk
  }

  /** An answer that stops a graphics entry whatever the buffer size. */
  predicate LoadFails(l: GraphicsLoad)
  {
    !l.vertex.opens || !l.vertex.readOk || !l.vertex.moduleOk
    || !l.fragment.opens || !l.fragment.readOk || !l.fragment.moduleOk
    || !l.pipelineOk
  }

  /** The building only ever ends in success or one of its two codes. */
  lemma {:induction false} BuildCodes(size: nat, infos: seq<PipelineInfo>, loads: seq<GraphicsLoad>, n: nat)
    requires n <= |infos| == |loads|
    ensures var c := Build(size, infos, loads, n).code;
      c == MSG_CODE_SUCCESS || c == MSG_CODE_ERROR_VK_SHADER_MODULE_CREATE || c == MSG_CODE_ERROR_VK_PIPELINE_CREATE
  {
    if n > 0 {
      BuildCodes(size, infos, loads, n - 1);
    }
  }

  /** A successful build has built exactly the graphics entries, in order. */
  lemma {:induction false} BuildListsGraphics(size: nat, infos: seq<PipelineInfo>, loads: seq<GraphicsLoad>, n: nat)
    requires n <= |infos| == |loads|
    requires Build(size, infos, loads, n).code == MSG_CODE_SUCCESS
    ensures ListsGraphics(infos, n, Build(size, infos, loads, n).built)
  {
    if n > 0 {
      var prev := Build(size, infos, loads, n - 1);
      assert prev.code == MSG_CODE_SUCCESS;
      BuildListsGraphics(size, infos, loads, n - 1);
    }
  }

  /** The buffer never shrinks and, after a success, holds every graphics shader. */
  lemma {:induction false} BuildBufferHolds(size: nat, infos: seq<PipelineInfo>, loads: seq<GraphicsLoad>, n: nat)
    requires n <= |infos| == |loads|
    ensures Build(size, infos, loads, n).size >= size
    ensures Build(size, infos, loads, n).code == MSG_CODE_SUCCESS ==>
      HoldsGraphicsShaders(infos, loads, n, Build(size, infos, loads, n).size)
  {
    if n > 0 {
      BuildBufferHolds(size, infos, loads, n - 1);
    }
  }

  /** When every graphics entry gets good answers, the build succeeds. */
  lemma {:induction false} BuildSucceeds(size: nat, infos: seq<PipelineInfo>, loads: seq<GraphicsLoad>, n: nat)
    requires n <= |infos| == |loads|
    requires forall i | 0 <= i < n && infos[i].ptype == RENDER_PIPELINE_TYPE_GRAPHICS :: LoadSucceeds(loads[i])
    ensures Build(size, infos, loads, n).code == MSG_CODE_SUCCESS
  {
    if n > 0 {
      BuildSucceeds(size, infos, loads, n - 1);
    }
  }

  /** A failed build stays failed: its code, its buffer size and what it built stay. */
  lemma {:induction false} BuildStaysFailed(size: nat, infos: seq<PipelineInfo>, loads: seq<GraphicsLoad>, m: nat, n: nat)
    requires m <= n <= |infos| == |loads|
    requires Build(size, infos, loads, m).code != MSG_CODE_SUCCESS
    ensures Build(size, infos, loads, n) == Build(size, infos, loads, m)
    decreases n - m
  {
    if n > m {
      BuildStaysFailed(size, infos, loads, m, n - 1);
    }
  }

  /** A graphics entry with an answer that always fails stops the build. */
  lemma BuildFails(size: nat, infos: seq<PipelineInfo>, loads: seq<GraphicsLoad>, i: nat)
    requires i < |infos| == |loads|
    requires infos[i].ptype == RENDER_PIPELINE_TYPE_GRAPHICS && LoadFails(loads[i])
    ensures Build(size, infos, loads, |infos|).code != MSG_CODE_SUCCESS
  {
    assert Build(size, infos, loads, i + 1).code != MSG_CODE_SUCCESS;
    BuildStaysFailed(size, infos, loads, i + 1, |infos|);
  }

  /**
   * The building loop, run only when pipelines were declared. Every entry
   * is recorded with its type; the graphics entries get their modules and
   * pipeline. Returns the first failure's code and the indices built.
   */
  method BuildPipelines(infos: seq<PipelineInfo>, loads: seq<GraphicsLoad>, buffer: ReadBuffer) returns (code: i32, types: seq<nat>, built: seq<nat>)
    requires |infos| == |loads|
    modifies buffer
    ensures code == Build(old(buffer.size), infos, loads, |infos|).code
    ensures buffer.size == Build(old(buffer.size), infos, loads, |infos|).size
    ensures built == Build(old(buffer.size), infos, loads, |infos|).built
    ensures code == MSG_CODE_SUCCESS ==>
      |types| == |infos| && forall k | 0 <= k < |infos| :: types[k] == infos[k].ptype
  {
    ghost var size0 := buffer.size;
    types := [];
    built := [];
    var i := 0;
    while i < |infos|
      invariant 0 <= i <= |infos|
      invariant Build(size0, infos, loads, i) == BuildState(buffer.size, built, MSG_CODE_SUCCESS)
      invariant |types| == i && forall k | 0 <= k < i :: types[k] == infos[k].ptype
    {
      types := types + [infos[i].ptype];
      if infos[i].ptype == RENDER_PIPELINE_TYPE_GRAPHICS {
        var c := buffer.LoadShader(loads[i].vertex);
        if c != MSG_CODE_SUCCESS {
          BuildStaysFailed(size0, infos, loads, i + 1, |infos|);
          return MSG_CODE_ERROR_VK_SHADER_MODULE_CREATE, types, built;
        }
        c := buffer.LoadShader(loads[i].fragment);
        if c != MSG_CODE_SUCCESS {
          BuildStaysFailed(size0, infos, loads, i + 1, |infos|);
          return MSG_CODE_ERROR_VK_SHADER_MODULE_CREATE, types, built;
        }
        if !loads[i].pipelineOk {
          BuildStaysFailed(size0, infos, loads, i + 1, |infos|);
          return MSG_CODE_ERROR_VK_PIPELINE_CREATE, types, built;
        }
        built := built + [i];
      }
      i := i + 1;
    }
    return MSG_CODE_SUCCESS, types, built;
  }

  // ---------------------------------------------------------------
  // The older render nodes
  // ---------------------------------------------------------------

  /** The older node types; their numeric values are not part of this model. */
  datatype NodeType = NodeNone | NodeGraphics | NodeOther

  /** A render node: its type and which shader paths are given. */
  datatype RenderNode = RenderNode(ntype: NodeType, hasVertex: bool, hasFragment: bool, hasCompute: bool)

  /** Why turning the nodes into pipeline nodes stopped. */
  datatype NodeFailure = InvalidShaders | ShaderModuleFailed | PipelineFailed | InvalidNodeType

  /** The buffer size, the pipeline-node count and the failure, if any. */
  datatype NodeState = NodeState(size: nat, count: nat, failure: Option<NodeFailure>)

  /**
   * One node: a none node is skipped, a graphics node must name vertex and
   * fragment shaders and no compute shader before its modules and pipeline
   * are made and it is counted, and any other node stops the loop.
   */
  function NodeStep(st: NodeState, node: RenderNode, l: GraphicsLoad): NodeState
  {
    if st.failure.Some? || node.ntype == NodeNone then st
    else if node.ntype == NodeOther then st.(failure := Some(InvalidNodeType))
    else if !node.hasVertex || !node.hasFragment || node.hasCompute then st.(failure := Some(InvalidShaders))
    else if LoadCode(st.size, l.vertex) != MSG_CODE_SUCCESS then
      st.(size := SizeAfterLoad(st.size, l.vertex), failure := Some(ShaderModuleFailed))
    else
      var s1 := SizeAfterLoad(st.size, l.vertex);
      if LoadCode(s1, l.fragment) != MSG_CODE_SUCCESS then
        st.(size := SizeAfterLoad(s1, l.fragment), failure := Some(ShaderModuleFailed))
      else if !l.pipelineOk then
        st.(size := SizeAfterLoad(s1, l.fragment), failure := Some(PipelineFailed))
      else
        NodeState(SizeAfterLoad(s1, l.fragment), st.count + 1, None)
  }

  function Nodes(size: nat, nodes: seq<RenderNode>, loads: seq<GraphicsLoad>, n: nat): NodeState
    requires n <= |nodes| == |loads|
  {
    if n == 0 then NodeState(size, 0, None)
    else NodeStep(Nodes(size, nodes, loads, n - 1), nodes[n - 1], loads[n - 1])
  }

  /** The number of graphics nodes among the first `n`. */
  function GraphicsNodeCount(nodes: seq<RenderNode>, n: nat): nat
    requires n <= |nodes|
  {
    if n == 0 then 0
    else GraphicsNodeCount(nodes, n - 1) + (if nodes[n - 1].ntype == NodeGraphics then 1 else 0)
  }

  /** A node the loop accepts whatever the driver answers. */
  predicate NodeAccepted(node: RenderNode)
  {
    node.ntype == NodeNone
    || (node.ntype == NodeGraphics && node.hasVertex && node.hasFragment && !node.hasCompute)
  }

  /** While no node failed, the count is the number of graphics nodes seen. */
  lemma {:induction false} NodesCountGraphics(size: nat, nodes: seq<RenderNode>, loads: seq<GraphicsLoad>, n: nat)
    requires n <= |nodes| == |loads|
    ensures Nodes(size, nodes, loads, n).failure.None? ==> Nodes(size, nodes, loads, n).count == GraphicsNodeCount(nodes, n)
  {
    if n > 0 {
      NodesCountGraphics(size, nodes, loads, n - 1);
    }
  }

  /**
   * The loop gets through every node exactly when each node is accepted
   * and the graphics nodes get good answers from the driver.
   */
  lemma {:induction false} NodesSucceed(size: nat, nodes: seq<RenderNode>, loads: seq<GraphicsLoad>, n: nat)
    requires n <= |nodes| == |loads|
    requires forall i | 0 <= i < n :: NodeAccepted(nodes[i])
    requires forall i | 0 <= i < n && nodes[i].ntype == NodeGraphics :: LoadSucceeds(loads[i])
    ensures Nodes(size, nodes, loads, n).failure.None?
  {
    if n > 0 {
      NodesSucceed(size, nodes, loads, n - 1);
    }
  }

  /** A failure stays, with the size and count it left, whatever comes after it. */
  lemma {:induction false} NodesStayFailed(size: nat, nodes: seq<RenderNode>, loads: seq<GraphicsLoad>, m: nat, n: nat)
    requires m <= n <= |nodes| == |loads|
    requires Nodes(size, nodes, loads, m).failure.Some?
    ensures Nodes(size, nodes, loads, n) == Nodes(size, nodes, loads, m)
    decreases n - m
  {
    if n > m {
      NodesStayFailed(size, nodes, loads, m, n - 1);
    }
  }

  /** A node the loop does not accept stops it. */
  lemma NodeRejected(size: nat, nodes: seq<RenderNode>, loads: seq<GraphicsLoad>, i: nat)
    requires i < |nodes| == |loads|
    requires !NodeAccepted(nodes[i])
    ensures Nodes(size, nodes, loads, |nodes|).failure.Some?
  {
    assert Nodes(size, nodes, loads, i + 1).failure.Some?;
    NodesStayFailed(size, nodes, loads, i + 1, |nodes|);
  }

  /**
   * A well-formed graphics node whose vertex or fragment file does not
   * open, reached with no failure before it, stops the loop as a failed
   * shader module.
   */
  lemma UnopenedShaderStopsNodes(size: nat, nodes: seq<RenderNode>, loads: seq<GraphicsLoad>, i: nat)
    requires i < |nodes| == |loads|
    requires nodes[i].ntype == NodeGraphics && nodes[i].hasVertex && nodes[i].hasFragment && !nodes[i].hasCompute
    requires !loads[i].vertex.opens || !loads[i].fragment.opens
    requires Nodes(size, nodes, loads, i).failure.None?
    ensures Nodes(size, nodes, loads, |nodes|).failure == Some(ShaderModuleFailed)
  {
    assert Nodes(size, nodes, loads, i + 1).failure == Some(ShaderModuleFailed);
    NodesStayFailed(size, nodes, loads, i + 1, |nodes|);
  }

  /**
   * The older loop over the render nodes, run only when nodes were given.
   * The pipeline-node count grows by one per graphics node built.
   */
  method BuildPipelineNodes(nodes: seq<RenderNode>, loads: seq<GraphicsLoad>, buffer: ReadBuffer) returns (failure: Option<NodeFailure>, count: nat)
    requires |nodes| == |loads|
    modifies buffer
    ensures failure == Nodes(old(buffer.size), nodes, loads, |nodes|).failure
    ensures buffer.size == Nodes(old(buffer.size), nodes, loads, |nodes|).size
    ensures count == Nodes(old(buffer.size), nodes, loads, |nodes|).count
    ensures failure.None? ==> count == GraphicsNodeCount(nodes, |nodes|)
  {
    ghost var size0 := buffer.size;
    count := 0;
    var i := 0;
    while i < |nodes|
      invariant 0 <= i <= |nodes|
      invariant Nodes(size0, nodes, loads, i) == NodeState(buffer.size, count, None)
    {
      var node := nodes[i];
      if node.ntype == NodeNone {
        i := i + 1;
        continue;
      }
      if node.ntype == NodeGraphics {
        if !node.hasVertex || !node.hasFragment || node.hasCompute {
          NodesStayFailed(size0, nodes, loads, i + 1, |nodes|);
          return Some(InvalidShaders), count;
        }
        var ok := buffer.LoadLegacyShader(loads[i].vertex);
        if !ok {
          NodesStayFailed(size0, nodes, loads, i + 1, |nodes|);
          return Some(ShaderModuleFailed), count;
        }
        ok := buffer.LoadLegacyShader(loads[i].fragment);
        if !ok {
          NodesStayFailed(size0, nodes, loads, i + 1, |nodes|);
          return Some(ShaderModuleFailed), count;
        }
        if !loads[i].pipelineOk {
          NodesStayFailed(size0, nodes, loads, i + 1, |nodes|);
          return Some(PipelineFailed), count;
        }
        count := count + 1;
        i := i + 1;
        continue;
      }
      NodesStayFailed(size0, nodes, loads, i + 1, |nodes|);
      return Some(InvalidNodeType), count;
    }
    NodesCountGraphics(size0, nodes, loads, |nodes|);
    return None, count;
  }
}
