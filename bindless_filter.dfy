/**
 * BindlessFilter.cpp: setting up one compute pass that reads a source image
 * and writes a result image through descriptor-heap indices, and recording
 * that pass. Every call into the graphics library that can fail is an input
 * (an External value) saying how that call turned out.
 */
module Filter {
  import opened Types
  import opened ResourceIndexLayout
  import opened Commands

  /** Edge of the image-processing shader's thread group, the divisor of the dispatch. */
  const GROUP_SIZE: nat := 8

  /** XUSG_DIV_UP: division rounded up, so that q blocks of n cover x and q - 1 do not. */
  function DivUp(x: nat, n: nat): (q: nat)
    requires n > 0
    ensures q * n >= x && (q - 1) * n < x
  {
    var q := (x + n - 1) / n;
    assert x + n - 1 == q * n + (x + n - 1) % n;
    q
  }

  /** m_addressHi: the buffer's GPU virtual address with its low 32 bits cleared. */
  function AddressHi(va: uint64): (hi: uint64)
    ensures hi % TWO_POW_32 == 0
    ensures hi + va % TWO_POW_32 == va
    ensures hi <= va
  {
    (va / TWO_POW_32) * TWO_POW_32
  }

  /** XUSG_UINT32_SIZE_OF(uint64_t): a virtual address spans two root constants. */
  const ADDRESS_WORDS: nat := 8 / WORD_SIZE

  /**
   * The root constants passed by SetCompute32BitConstants for a virtual
   * address: its two 32-bit words in memory order, the low word first.
   */
  function AddressWords(va: uint64): (w: seq<uint32>)
    ensures |w| == ADDRESS_WORDS
    ensures w[0] + w[1] * TWO_POW_32 == va
    ensures AddressHi(va) + w[0] == va
  {
    [va % TWO_POW_32, va / TWO_POW_32]
  }

  /** What the DDS loader reports for a texture it created. */
  datatype LoadedImage = LoadedImage(width: uint64, height: uint32)

  /** How each call into the graphics library turns out, for one run of Init. */
  datatype External = External(
    image: Option<LoadedImage>,   // DDS::Loader::CreateTextureFromFile
    resultCreated: bool,          // Texture::Create of the result image
    indexBuffer: Option<uint64>,  // Buffer::Create of the index buffer, then its GPU virtual address
    pipelineLayout: nat,          // PipelineLayout::GetPipelineLayout, 0 standing for null
    shaderCreated: bool,          // ShaderLib::CreateShader
    pipeline: nat,                // Compute::State::GetPipeline, 0 standing for null
    texInIndex: uint32,           // GetCbvSrvUavTableIndex for the source's SRV
    texOutIndex: uint32,          // GetCbvSrvUavTableIndex for the result's UAV
    samplerIndex: uint32,         // GetSamplerTableIndex for the sampler preset
    uploaded: bool)               // Buffer::Upload of the index record

  /** The fallible steps of Init, including those of the helpers it calls. */
  datatype Step =
    | LoadImage | CreateResult | CreateIndexBuffer
    | CreatePipelineLayout | CreateShader | CreatePipeline
    | GetTexInIndex | GetTexOutIndex | GetSamplerIndex | UploadIndices

  predicate Succeeds(e: External, s: Step)
  {
    match s
    case LoadImage => e.image.Some?
    case CreateResult => e.resultCreated
    case CreateIndexBuffer => e.indexBuffer.Some?
    case CreatePipelineLayout => e.pipelineLayout != 0
    case CreateShader => e.shaderCreated
    case CreatePipeline => e.pipeline != 0
    case GetTexInIndex => e.texInIndex != UINT32_MAX
    case GetTexOutIndex => e.texOutIndex != UINT32_MAX
    case GetSamplerIndex => e.samplerIndex != UINT32_MAX
    case UploadIndices => e.uploaded
  }

  const LOAD_ORDER: seq<Step> := [LoadImage]
  const RESOURCE_ORDER: seq<Step> := [CreateResult, CreateIndexBuffer]
  const LAYOUT_ORDER: seq<Step> := [CreatePipelineLayout]
  const PIPELINE_ORDER: seq<Step> := [CreateShader, CreatePipeline]
  const DESCRIPTOR_TABLE_ORDER: seq<Step> := [GetTexInIndex, GetTexOutIndex, GetSamplerIndex, UploadIndices]

  /** The steps of Init through each of its blocks. */
  const THROUGH_RESOURCES: seq<Step> := LOAD_ORDER + RESOURCE_ORDER
  const THROUGH_LAYOUTS: seq<Step> := THROUGH_RESOURCES + LAYOUT_ORDER
  const THROUGH_PIPELINES: seq<Step> := THROUGH_LAYOUTS + PIPELINE_ORDER
  const INIT_ORDER: seq<Step> := THROUGH_PIPELINES + DESCRIPTOR_TABLE_ORDER

  /**
   * run is what a sequence of fallible steps attempts: the steps of order up
   * to and including the first that fails (all of them if none fails), and
   * ok says whether every step succeeded.
   */
  ghost predicate StopsAtFirstFailure(e: External, order: seq<Step>, run: seq<Step>, ok: bool)
  {
    && run != [] && run <= order
    && (forall i :: 0 <= i < |run| - 1 ==> Succeeds(e, run[i]))
    && (ok ==> run == order && Succeeds(e, run[|run| - 1]))
    && (!ok ==> !Succeeds(e, run[|run| - 1]))
  }

  /** A sequence of steps succeeds exactly when each of its steps does. */
  lemma OkIffAllSucceed(e: External, order: seq<Step>, run: seq<Step>, ok: bool)
    requires StopsAtFirstFailure(e, order, run, ok)
    ensures ok <==> forall s :: s in order ==> Succeeds(e, s)
  {
    if ok {
      forall s | s in order ensures Succeeds(e, s) {
        var i :| 0 <= i < |order| && order[i] == s;
        assert run[i] == s;
      }
    } else {
      assert run[|run| - 1] in order by { assert order[|run| - 1] == run[|run| - 1]; }
    }
  }

  /** The steps attempted and the outcome are determined by the order and the outcomes of the steps. */
  lemma RunIsDetermined(e: External, order: seq<Step>, run1: seq<Step>, ok1: bool, run2: seq<Step>, ok2: bool)
    requires StopsAtFirstFailure(e, order, run1, ok1)
    requires StopsAtFirstFailure(e, order, run2, ok2)
    ensures run1 == run2 && ok1 == ok2
  {
    assert run1 == order[..|run1|] && run2 == order[..|run2|];
  }

  /** Init gives up inside part, the block that follows the steps done, all of which succeeded. */
  lemma Abandon(e: External, whole: seq<Step>, done: seq<Step>, part: seq<Step>, run: seq<Step>)
    requires done + part <= whole
    requires forall i :: 0 <= i < |done| ==> Succeeds(e, done[i])
    requires StopsAtFirstFailure(e, part, run, false)
    ensures StopsAtFirstFailure(e, whole, done + run, false)
  {
    var r := done + run;
    assert r == whole[..|r|] by {
      assert run == part[..|run|];
      assert done + part == whole[..|done + part|];
    }
    forall i | 0 <= i < |r| - 1 ensures Succeeds(e, r[i]) {
      if i >= |done| {
        assert r[i] == run[i - |done|];
      }
    }
    assert r[|r| - 1] == run[|run| - 1];
  }

  /** Init gets through part, the block that follows the steps done. */
  lemma Continue(e: External, done: seq<Step>, part: seq<Step>)
    requires forall i :: 0 <= i < |done| ==> Succeeds(e, done[i])
    requires StopsAtFirstFailure(e, part, part, true)
    ensures forall i :: 0 <= i < |done + part| ==> Succeeds(e, (done + part)[i])
  {
    forall i | 0 <= i < |done + part| ensures Succeeds(e, (done + part)[i]) {
      if i >= |done| {
        assert (done + part)[i] == part[i - |done|];
        assert i - |done| == |part| - 1 || Succeeds(e, part[i - |done|]);
      }
    }
  }

  /** Init's last block decides its outcome. */
  lemma Finish(e: External, done: seq<Step>, part: seq<Step>, run: seq<Step>, ok: bool)
    requires forall i :: 0 <= i < |done| ==> Succeeds(e, done[i])
    requires StopsAtFirstFailure(e, part, run, ok)
    ensures StopsAtFirstFailure(e, done + part, done + run, ok)
  {
    var r := done + run;
    assert r <= done + part by {
      assert run == part[..|run|];
      assert (done + part)[..|r|] == done + part[..|run|];
    }
    forall i | 0 <= i < |r| - 1 ensures Succeeds(e, r[i]) {
      if i >= |done| {
        assert r[i] == run[i - |done|];
      }
    }
    assert r[|r| - 1] == run[|run| - 1];
  }

  lemma InitBlocksArePrefixes()
    ensures [] + LOAD_ORDER <= INIT_ORDER && LOAD_ORDER + RESOURCE_ORDER <= INIT_ORDER
    ensures THROUGH_RESOURCES + LAYOUT_ORDER <= INIT_ORDER && THROUGH_LAYOUTS + PIPELINE_ORDER <= INIT_ORDER
    ensures |THROUGH_PIPELINES| == 6 && |INIT_ORDER| == 10
  {
    assert INIT_ORDER == [LoadImage, CreateResult, CreateIndexBuffer, CreatePipelineLayout, CreateShader,
      CreatePipeline, GetTexInIndex, GetTexOutIndex, GetSamplerIndex, UploadIndices];
  }

  class BindlessFilter {
    var imageWidth: uint32
    var imageHeight: uint32
    var sourceLoaded: bool                  // m_source is set
    var resultCreated: bool                 // m_result is set
    var indexBufferAddress: Option<uint64>  // m_resIndices, by its GPU virtual address
    var indexBufferSize: nat
    var addressHi: uint64
    var pipelineLayouts: array<nat>         // 0 stands for a null layout
    var pipelines: array<nat>               // 0 stands for a null pipeline
    ghost var uploads: seq<seq<uint8>>       // the bytes handed to the index buffer's Upload

    ghost predicate Valid()
      reads this
    {
      pipelineLayouts.Length == NUM_PIPELINE && pipelines.Length == NUM_PIPELINE && pipelineLayouts != pipelines
    }

    /** What a successful Init leaves behind, and what Process relies on. */
    ghost predicate Ready()
      reads this, pipelineLayouts, pipelines
    {
      && Valid() && sourceLoaded && resultCreated
      && indexBufferAddress.Some? && indexBufferSize == SIZE_OF_RESOURCE_INDICES
      && addressHi == AddressHi(indexBufferAddress.value)
      && pipelineLayouts[IMAGE_PROC] != 0 && pipelines[IMAGE_PROC] != 0
    }

    constructor ()
      ensures Valid() && fresh(pipelineLayouts) && fresh(pipelines)
      ensures imageWidth == 1 && imageHeight == 1
      ensures !sourceLoaded && !resultCreated && indexBufferAddress.None?
      ensures uploads == []
    {
      imageWidth, imageHeight := 1, 1;
      sourceLoaded, resultCreated := false, false;
      indexBufferAddress, indexBufferSize := None, 0;
      addressHi := 0;  // not read before Init assigns it
      pipelineLayouts := new nat[NUM_PIPELINE];
      pipelines := new nat[NUM_PIPELINE];
      uploads := [];
    }

    /** GetImageSize: the size taken from the source texture; 1 x 1 until an image is loaded. */
    method GetImageSize() returns (width: uint32, height: uint32)
      ensures width == imageWidth && height == imageHeight
    {
      width, height := imageWidth, imageHeight;
    }

    method CreatePipelineLayouts(e: External) returns (ok: bool, ghost run: seq<Step>)
      requires Valid()
      modifies pipelineLayouts
      ensures StopsAtFirstFailure(e, LAYOUT_ORDER, run, ok)
      ensures pipelineLayouts[IMAGE_PROC] == e.pipelineLayout
    {
      run := [CreatePipelineLayout];
      pipelineLayouts[IMAGE_PROC] := e.pipelineLayout;
      ok := pipelineLayouts[IMAGE_PROC] != 0;
    }

    method CreatePipelines(e: External) returns (ok: bool, ghost run: seq<Step>)
      requires Valid()
      modifies pipelines
      ensures StopsAtFirstFailure(e, PIPELINE_ORDER, run, ok)
      ensures ok ==> pipelines[IMAGE_PROC] == e.pipeline
    {
      run := [CreateShader];
      if !e.shaderCreated {
        return false, run;
      }
      run := run + [CreatePipeline];
      pipelines[IMAGE_PROC] := e.pipeline;
      ok := pipelines[IMAGE_PROC] != 0;
    }

    /**
     * createDescriptorTables: asks the allocator for the three indices in
     * field order, gives up at the first sentinel, and otherwise appends one
     * staging buffer and uploads the record.
     */
    method CreateDescriptorTables(e: External, uploaders: Uploaders) returns (ok: bool, ghost run: seq<Step>)
      modifies this`uploads, uploaders
      ensures StopsAtFirstFailure(e, DESCRIPTOR_TABLE_ORDER, run, ok)
      ensures var indicesValid := e.texInIndex != UINT32_MAX && e.texOutIndex != UINT32_MAX && e.samplerIndex != UINT32_MAX;
        && uploaders.items == old(uploaders.items) + (if indicesValid then [IndexRecordStaging] else [])
        && uploads == old(uploads) + (if indicesValid then [Serialize(ResourceIndices(e.texInIndex, e.texOutIndex, e.samplerIndex))] else [])
        && (ok <==> indicesValid && e.uploaded)
        && (indicesValid <==> |run| == |DESCRIPTOR_TABLE_ORDER|)
    {
      var resIndices := Defaults();

      run := [GetTexInIndex];
      resIndices := resIndices.(TexIn := e.texInIndex);
      if resIndices.TexIn == UINT32_MAX {
        return false, run;
      }

      run := run + [GetTexOutIndex];
      resIndices := resIndices.(TexOut := e.texOutIndex);
      if resIndices.TexOut == UINT32_MAX {
        return false, run;
      }

      run := run + [GetSamplerIndex];
      resIndices := resIndices.(SmpLinear := e.samplerIndex);
      if resIndices.SmpLinear == UINT32_MAX {
        return false, run;
      }

      uploaders.EmplaceBack(IndexRecordStaging);
      run := run + [UploadIndices];
      uploads := uploads + [Serialize(resIndices)];
      ok := e.uploaded;
    }

    /** Init's first block: a staging buffer for the image, the load, and the image size it reports. */
    method LoadSource(e: External, uploaders: Uploaders) returns (ok: bool, ghost run: seq<Step>)
      modifies this`sourceLoaded, this`imageWidth, this`imageHeight, uploaders
      ensures StopsAtFirstFailure(e, LOAD_ORDER, run, ok)
      ensures uploaders.items == old(uploaders.items) + [ImageStaging]
      ensures ok == sourceLoaded == e.image.Some?
      ensures if ok then imageWidth == TruncateToUint32(e.image.value.width) && imageHeight == e.image.value.height
              else imageWidth == old(imageWidth) && imageHeight == old(imageHeight)
    {
      uploaders.EmplaceBack(ImageStaging);
      run := [LoadImage];
      ok := e.image.Some?;
      sourceLoaded := ok;
      if ok {
        imageWidth := TruncateToUint32(e.image.value.width);
        imageHeight := e.image.value.height;
      }
    }

    /** Init's second block: the result texture, then the index buffer and the high part of its address. */
    method CreateResources(e: External) returns (ok: bool, ghost run: seq<Step>)
      modifies this`resultCreated, this`indexBufferAddress, this`indexBufferSize, this`addressHi
      ensures StopsAtFirstFailure(e, RESOURCE_ORDER, run, ok)
      ensures ok ==> resultCreated && indexBufferAddress == e.indexBuffer
      ensures ok ==> indexBufferSize == SIZE_OF_RESOURCE_INDICES && addressHi == AddressHi(e.indexBuffer.value)
    {
      run := [CreateResult];
      if !e.resultCreated {
        return false, run;
      }
      resultCreated := true;

      run := run + [CreateIndexBuffer];
      if e.indexBuffer.None? {
        return false, run;
      }
      indexBufferAddress := e.indexBuffer;
      indexBufferSize := SIZE_OF_RESOURCE_INDICES;
      addressHi := AddressHi(e.indexBuffer.value);
      ok := true;
    }

    /**
     * Init: loads the image, creates the result texture and the index buffer,
     * then the pipeline layout, the pipeline and the descriptor tables,
     * stopping with false at the first step that fails.
     */
    method Init(e: External, uploaders: Uploaders) returns (ok: bool, ghost run: seq<Step>)
      requires Valid()
      modifies this, pipelineLayouts, pipelines, uploaders
      ensures Valid() && pipelineLayouts == old(pipelineLayouts) && pipelines == old(pipelines)
      ensures StopsAtFirstFailure(e, INIT_ORDER, run, ok)
      ensures var uploadReached := |run| == |INIT_ORDER|;
        && uploaders.items == old(uploaders.items) + [ImageStaging] + (if uploadReached then [IndexRecordStaging] else [])
        && uploads == old(uploads)
          + (if uploadReached then [Serialize(ResourceIndices(e.texInIndex, e.texOutIndex, e.samplerIndex))] else [])
      ensures if e.image.Some? then imageWidth == TruncateToUint32(e.image.value.width) && imageHeight == e.image.value.height
              else imageWidth == old(imageWidth) && imageHeight == old(imageHeight)
      ensures ok ==> Ready()
      ensures ok ==> indexBufferAddress == e.indexBuffer && addressHi == AddressHi(e.indexBuffer.value)
      ensures ok ==> pipelineLayouts[IMAGE_PROC] == e.pipelineLayout && pipelines[IMAGE_PROC] == e.pipeline
    {
      InitBlocksArePrefixes();
      ghost var part;
      ok, run := LoadSource(e, uploaders);
      if !ok {
        Abandon(e, INIT_ORDER, [], LOAD_ORDER, run);
        return;
      }
      assert run == LOAD_ORDER;

      ok, part := CreateResources(e);
      if !ok {
        Abandon(e, INIT_ORDER, LOAD_ORDER, RESOURCE_ORDER, part);
        return ok, run + part;
      }
      Continue(e, LOAD_ORDER, RESOURCE_ORDER);
      run := run + part;
      assert run == THROUGH_RESOURCES;

      ok, part := CreatePipelineLayouts(e);
      if !ok {
        Abandon(e, INIT_ORDER, THROUGH_RESOURCES, LAYOUT_ORDER, part);
        return ok, run + part;
      }
      Continue(e, THROUGH_RESOURCES, LAYOUT_ORDER);
      run := run + part;
      assert run == THROUGH_LAYOUTS;

      ok, part := CreatePipelines(e);
      if !ok {
        Abandon(e, INIT_ORDER, THROUGH_LAYOUTS, PIPELINE_ORDER, part);
        return ok, run + part;
      }
      Continue(e, THROUGH_LAYOUTS, PIPELINE_ORDER);
      run := run + part;
      assert run == THROUGH_PIPELINES;

      ok, part := CreateDescriptorTables(e, uploaders);
      Finish(e, THROUGH_PIPELINES, DESCRIPTOR_TABLE_ORDER, part, ok);
      run := run + part;
    }

    /** The commands Process records, given the number of barriers the result's tracker writes. */
    function ProcessCommands(barrierCount: nat): (cmds: seq<Command>)
      reads this, pipelineLayouts, pipelines
      requires Ready()
      ensures |cmds| == 6
      ensures cmds[0] == Barrier([Transition(FilterResult, UnorderedAccess)], barrierCount)
      ensures cmds[1] == SetComputePipelineLayout(pipelineLayouts[IMAGE_PROC]) && cmds[1].layout != 0
      ensures cmds[2] == SetPipelineState(pipelines[IMAGE_PROC]) && cmds[2].pipeline != 0
      ensures cmds[3].SetCompute32BitConstants? && cmds[3].rootIndex == 0 && |cmds[3].words| == 2
      ensures cmds[3].words[0] + cmds[3].words[1] * TWO_POW_32 == indexBufferAddress.value
      ensures cmds[4].SetComputeRootUnorderedAccessView? && cmds[4].rootIndex == 1
      ensures cmds[4].address % TWO_POW_32 == 0 && cmds[4].address + cmds[3].words[0] == indexBufferAddress.value
      ensures cmds[5].Dispatch? && cmds[5].z == 1
      ensures cmds[5].x * GROUP_SIZE >= imageWidth && (cmds[5].x - 1) * GROUP_SIZE < imageWidth
      ensures cmds[5].y * GROUP_SIZE >= imageHeight && (cmds[5].y - 1) * GROUP_SIZE < imageHeight
    {
      var va := indexBufferAddress.value;
      [ Barrier([Transition(FilterResult, UnorderedAccess)], barrierCount),
        SetComputePipelineLayout(pipelineLayouts[IMAGE_PROC]),
        SetPipelineState(pipelines[IMAGE_PROC]),
        SetCompute32BitConstants(0, AddressWords(va)),
        SetComputeRootUnorderedAccessView(1, addressHi),
        Dispatch(DivUp(imageWidth, GROUP_SIZE), DivUp(imageHeight, GROUP_SIZE), 1) ]
    }

    /**
     * Process: moves the result image to unordered access (the tracker writes
     * at most the one barrier it is given room for), binds the pipeline,
     * passes the index buffer's address and dispatches one group per 8 x 8
     * tile of the image.
     */
    method Process(cmd: CommandList, barrierCount: nat)
      requires Ready() && barrierCount <= 1
      modifies cmd
      ensures cmd.recorded == old(cmd.recorded) + ProcessCommands(barrierCount)
    {
      var numBarriers := barrierCount;
      cmd.Record(Barrier([Transition(FilterResult, UnorderedAccess)], numBarriers));
      cmd.Record(SetComputePipelineLayout(pipelineLayouts[IMAGE_PROC]));
      cmd.Record(SetPipelineState(pipelines[IMAGE_PROC]));
      var resIdxBufferVA := indexBufferAddress.value;
      cmd.Record(SetCompute32BitConstants(0, AddressWords(resIdxBufferVA)));
      cmd.Record(SetComputeRootUnorderedAccessView(1, addressHi));
      cmd.Record(Dispatch(DivUp(imageWidth, GROUP_SIZE), DivUp(imageHeight, GROUP_SIZE), 1));
    }
  }
}
