/** The frame-interpolation engine (`OnnxInference`): loads a model, and
    for each pair of frames converts both to planar tensors, runs the model,
    converts its output back into a texture and keeps frame statistics
    against a per-mode time budget. `onnxBuild` tells apart the build with
    the ONNX Runtime from the build without it, whose Initialize and
    Interpolate always fail. The runtime, the Direct3D calls and the clock
    are replaced by oracle values that say what each call returned. */
module Inference {
  import opened Native
  import opened TensorLayout

  /** `InterpolationMode`, an `enum class` over `int`: any value can be
      stored, three of them are named. */
  type InterpolationMode = i32

  const FAST: InterpolationMode := 0
  const BALANCED: InterpolationMode := 1
  const QUALITY: InterpolationMode := 2

  /** `GetTimeBudgetMs` for a mode: the longest an interpolation may take
      before its frame counts as dropped. */
  function TimeBudgetMs(mode: InterpolationMode): (ms: real)
    ensures ms in {8.0, 12.0, 20.0}
    ensures mode !in {BALANCED, QUALITY} ==> ms == 8.0
  {
    match mode
    case 0 => 8.0
    case 1 => 12.0
    case 2 => 20.0
    case _ => 8.0
  }

  /** Better quality buys a larger budget; a mode that is not one of the
      three named ones gets the budget of FAST. */
  lemma TimeBudgetOrdered(other: InterpolationMode)
    requires other !in {FAST, BALANCED, QUALITY}
    ensures TimeBudgetMs(FAST) < TimeBudgetMs(BALANCED) < TimeBudgetMs(QUALITY)
    ensures TimeBudgetMs(other) == TimeBudgetMs(FAST)
  {
  }

  /** `InferenceStats` */
  datatype InferenceStats = InferenceStats(lastInferenceMs: real, totalFrames: nat, droppedFrames: nat, vramUsageMB: nat)

  const ZeroStats: InferenceStats := InferenceStats(0.0, 0, 0, 0)

  const DefaultHeight: u32 := 1080
  const DefaultWidth: u32 := 1920

  /** The tensor size the engine converts frames to, (height, width), taken
      from the model's first input shape (N, C, H, W) with a positive
      dimension kept (truncated to 32 bits) and any other replaced by the
      1080p default. */
  function InputDims(shape: seq<i64>): (dims: (u32, u32))
    ensures |shape| < 4 ==> dims == (DefaultHeight, DefaultWidth)
    ensures |shape| >= 4 && 0 < shape[2] < TWO_TO_THE_32 ==> dims.0 == shape[2]
    ensures |shape| >= 4 && 0 < shape[3] < TWO_TO_THE_32 ==> dims.1 == shape[3]
    ensures |shape| >= 4 && shape[2] > 0 ==> dims.0 == Wrap32(shape[2])
    ensures |shape| >= 4 && shape[3] > 0 ==> dims.1 == Wrap32(shape[3])
    ensures |shape| >= 4 && shape[2] <= 0 ==> dims.0 == DefaultHeight
    ensures |shape| >= 4 && shape[3] <= 0 ==> dims.1 == DefaultWidth
    ensures dims.0 == 0 <==> |shape| >= 4 && shape[2] > 0 && shape[2] % TWO_TO_THE_32 == 0
    ensures dims.1 == 0 <==> |shape| >= 4 && shape[3] > 0 && shape[3] % TWO_TO_THE_32 == 0
  {
    if |shape| >= 4 then
      (Wrap32(if shape[2] > 0 then shape[2] else DefaultHeight as int),
       Wrap32(if shape[3] > 0 then shape[3] else DefaultWidth as int))
    else
      (DefaultHeight, DefaultWidth)
  }

  /** `std::vector<float>::resize`: the first elements kept, new ones 0. */
  function Resized(s: seq<real>, n: nat): (r: seq<real>)
    ensures |r| == n
    ensures forall i | 0 <= i < n && i < |s| :: r[i] == s[i]
    ensures forall i | |s| <= i < n :: r[i] == 0.0
  {
    if n <= |s| then s[..n] else s + seq(n - |s|, _ => 0.0)
  }

  /** How loading the model ends: an exception while creating the runtime
      environment, while setting up the session options or creating the
      session, or while reading the input shape; or the input shape. */
  datatype LoadOutcome = EnvThrows | SessionThrows | InfoThrows | Loaded(shape: seq<i64>)

  /** What the native calls of one `Initialize` return. `texturesCreated`
      counts the GPU textures (first input, second input, output) created
      before the first failure; 3 or more means all of them. */
  datatype InitOracle = InitOracle(load: LoadOutcome, texturesCreated: nat)

  /** The result of `Map` on a staging texture: failure, or the mapped bytes
      and their row pitch. */
  datatype Mapping = MapFailed | Mapped(data: seq<u8>, rowPitch: nat)

  /** Direct3D maps a `width` by `height` texture with rows that hold each
      pixel and data that holds each row. */
  predicate MapFits(m: Mapping, w: nat, h: nat)
  {
    m.Mapped? ==> FitsImage(|m.data|, m.rowPitch, w, h)
  }

  /** `Session::Run`: an exception, or the output tensor's values. */
  datatype RunOutcome = RunThrows | Output(values: seq<real>)

  /** What the native calls of one `Interpolate` return. `stagingCreated`
      and `outStagingCreated` are the outcomes of creating the input and the
      output staging textures, used only when they do not exist yet;
      `elapsedMs` is the time the clock reports for the interpolation. */
  datatype InterpolateOracle = InterpolateOracle(
    stagingCreated: bool,
    mapA: Mapping,
    mapB: Mapping,
    run: RunOutcome,
    outStagingCreated: bool,
    mapOut: Mapping,
    elapsedMs: real)

  /** Both input conversions of an initialized engine succeed, given
      whether the input staging texture existed beforehand (the context is
      always present then). */
  predicate Converted(o: InterpolateOracle, hadStaging: bool)
  {
    (hadStaging || o.stagingCreated) && o.mapA.Mapped? && o.mapB.Mapped?
  }

  /** The output conversion succeeds, given whether the output staging
      texture existed beforehand. */
  predicate Written(o: InterpolateOracle, hadStaging: bool)
  {
    (hadStaging || o.outStagingCreated) && o.mapOut.Mapped?
  }

  /** The first and second input tensors, which `TextureToTensor` fills. */
  datatype InputTensor = TensorA | TensorB

  class OnnxInference {
    /** Whether this is the build with the ONNX Runtime (`HAS_ONNX`). */
    const onnxBuild: bool

    /** `device_` and `context_` are not null. */
    var hasDevice: bool
    var hasContext: bool
    /** `env_` and `session_` are not null. */
    var hasEnv: bool
    var hasSession: bool
    var gpuInputA: Texture
    var gpuInputB: Texture
    var gpuOutput: Texture
    /** `stagingTextureA_` and `stagingOutput_` are not null. */
    var stagingA: bool
    var stagingOutput: bool
    var inputTensorA: seq<real>
    var inputTensorB: seq<real>
    var outputTensor: seq<real>
    var mode: InterpolationMode
    var stats: InferenceStats
    var width: u32
    var height: u32
    var initialized: bool

    /** The number of values in one tensor: three planes of the frame size. */
    function TensorSize(): nat
      reads this
    {
      3 * (height as nat * width as nat)
    }

    /** Holds in every reachable state: an engine is initialized only with
        a device, a session and its GPU textures; the input staging texture
        and the three tensors are created together, sized for the frame; the
        build without the runtime never acquires anything. */
    ghost predicate Valid()
      reads this
    {
      && (initialized ==> hasDevice && hasContext && hasEnv && hasSession)
      && (initialized ==> gpuInputA.Texture? && gpuInputB.Texture? && gpuOutput.Texture?)
      && (stagingA ==> initialized)
      && (stagingA ==> |inputTensorA| == TensorSize() && |inputTensorB| == TensorSize() && |outputTensor| == TensorSize())
      && (!stagingA ==> inputTensorA == [] && inputTensorB == [] && outputTensor == [])
      && (stagingOutput ==> initialized)
      && (!onnxBuild ==> !initialized && !hasDevice && !hasContext && !hasEnv && !hasSession && !stagingOutput)
    }

    constructor (onnxBuild: bool)
      ensures Valid() && this.onnxBuild == onnxBuild
      ensures !initialized && !hasDevice && !hasContext && !hasEnv && !hasSession
      ensures gpuInputA == NullTexture && gpuInputB == NullTexture && gpuOutput == NullTexture
      ensures !stagingA && !stagingOutput
      ensures mode == FAST && stats == ZeroStats && width == 0 && height == 0
    {
      this.onnxBuild := onnxBuild;
      hasDevice, hasContext, hasEnv, hasSession := false, false, false, false;
      gpuInputA, gpuInputB, gpuOutput := NullTexture, NullTexture, NullTexture;
      stagingA, stagingOutput := false, false;
      inputTensorA, inputTensorB, outputTensor := [], [], [];
      mode, stats := FAST, ZeroStats;
      width, height := 0, 0;
      initialized := false;
    }

    /** Loads the model at `modelPath` on `device` and creates the GPU
        textures. An initialized engine reports success and changes
        nothing; an empty path fails and changes nothing; otherwise the
        device and the mode are taken before loading starts, and the engine
        is initialized exactly when the model loads and all three textures
        are created. */
    method Initialize(device: bool, modelPath: string, mode: InterpolationMode, o: InitOracle) returns (ok: bool)
      requires Valid()
      requires onnxBuild && !initialized && modelPath != [] ==> device
      modifies this
      ensures Valid()
      ensures ok == initialized
      ensures !onnxBuild ==> !ok && unchanged(this)
      ensures onnxBuild && old(initialized) ==> ok && unchanged(this)
      ensures onnxBuild && !old(initialized) && modelPath == [] ==> !ok && unchanged(this)
      ensures onnxBuild && !old(initialized) && modelPath != [] ==>
                && hasDevice && hasContext && this.mode == mode
                && (ok <==> o.load.Loaded? && o.texturesCreated >= 3)
                && hasEnv == (old(hasEnv) || !o.load.EnvThrows?)
                && hasSession == (old(hasSession) || o.load.InfoThrows? || o.load.Loaded?)
                && (o.load.Loaded? ==> (height, width) == InputDims(o.load.shape))
                && (!o.load.Loaded? ==> height == old(height) && width == old(width))
                && (o.load.Loaded? ==> gpuInputA.Texture? == (o.texturesCreated >= 1))
                && (o.load.Loaded? ==> gpuInputB == if o.texturesCreated < 1 then old(gpuInputB)
                                                     else if o.texturesCreated < 2 then NullTexture else Texture(BlankImage))
                && (o.load.Loaded? ==> gpuOutput == if o.texturesCreated < 2 then old(gpuOutput)
                                                     else if o.texturesCreated < 3 then NullTexture else Texture(BlankImage))
      ensures stats == old(stats) && stagingA == old(stagingA) && stagingOutput == old(stagingOutput)
      ensures inputTensorA == old(inputTensorA) && inputTensorB == old(inputTensorB) && outputTensor == old(outputTensor)
    {
      if !onnxBuild {
        return false;
      }
      if initialized {
        return true;
      }
      if modelPath == [] {
        return false;
      }
      hasDevice := device;
      hasContext := true;
      this.mode := mode;
      if o.load.EnvThrows? {
        return false;
      }
      hasEnv := true;
      if o.load.SessionThrows? {
        return false;
      }
      hasSession := true;
      if o.load.InfoThrows? {
        return false;
      }
      height, width := InputDims(o.load.shape).0, InputDims(o.load.shape).1;
      gpuInputA := if o.texturesCreated >= 1 then Texture(BlankImage) else NullTexture;
      if o.texturesCreated < 1 {
        return false;
      }
      gpuInputB := if o.texturesCreated >= 2 then Texture(BlankImage) else NullTexture;
      if o.texturesCreated < 2 {
        return false;
      }
      gpuOutput := if o.texturesCreated >= 3 then Texture(BlankImage) else NullTexture;
      if o.texturesCreated < 3 {
        return false;
      }
      initialized := true;
      ok := true;
    }

    /** Releases the session, the textures and the tensors. The build
        without the runtime only clears the initialized flag. */
    method Shutdown()
      requires Valid()
      modifies this
      ensures Valid() && !initialized
      ensures onnxBuild ==> !hasEnv && !hasSession && !stagingA && !stagingOutput
      ensures onnxBuild ==> gpuInputA == NullTexture && gpuInputB == NullTexture && gpuOutput == NullTexture
      ensures onnxBuild ==> inputTensorA == [] && inputTensorB == [] && outputTensor == []
      ensures !onnxBuild ==> hasEnv == old(hasEnv) && hasSession == old(hasSession)
      ensures !onnxBuild ==> stagingA == old(stagingA) && stagingOutput == old(stagingOutput)
      ensures !onnxBuild ==> gpuInputA == old(gpuInputA) && gpuInputB == old(gpuInputB) && gpuOutput == old(gpuOutput)
      ensures !onnxBuild ==> inputTensorA == old(inputTensorA) && inputTensorB == old(inputTensorB) && outputTensor == old(outputTensor)
      ensures hasDevice == old(hasDevice) && hasContext == old(hasContext)
      ensures mode == old(mode) && stats == old(stats) && width == old(width) && height == old(height)
    {
      if onnxBuild {
        hasSession, hasEnv := false, false;
        gpuInputA, gpuInputB, gpuOutput := NullTexture, NullTexture, NullTexture;
        stagingA, stagingOutput := false, false;
        inputTensorA, inputTensorB, outputTensor := [], [], [];
      }
      initialized := false;
    }

    /** Re-creates the engine for another mode: a shutdown, then an
        initialization with the retained device. */
    method SetMode(mode: InterpolationMode, modelPath: string, o: InitOracle) returns (ok: bool)
      requires Valid()
      requires onnxBuild && modelPath != [] ==> hasDevice
      modifies this
      ensures Valid() && ok == initialized
      ensures ok <==> onnxBuild && modelPath != [] && o.load.Loaded? && o.texturesCreated >= 3
      ensures onnxBuild && modelPath != [] ==> this.mode == mode
      ensures !(onnxBuild && modelPath != []) ==> this.mode == old(this.mode)
      ensures ok ==> (height, width) == InputDims(o.load.shape)
      ensures onnxBuild ==> !stagingA && !stagingOutput && inputTensorA == [] && inputTensorB == [] && outputTensor == []
      ensures stats == old(stats) && hasDevice == old(hasDevice)
    {
      Shutdown();
      ok := Initialize(hasDevice, modelPath, mode, o);
    }

    /** Reads `texture` back through the input staging texture into the
        chosen input tensor. The staging texture is created on first use,
        and all three tensors are then sized for the frame. */
    method TextureToTensor(which: InputTensor, texture: Texture, stagingCreated: bool, mapped: Mapping) returns (ok: bool)
      requires Valid() && initialized && MapFits(mapped, width as nat, height as nat)
      modifies this
      ensures Valid()
      ensures stagingA == (old(stagingA) || (texture.Texture? && hasContext && stagingCreated))
      ensures initialized && hasDevice == old(hasDevice) && hasContext == old(hasContext)
      ensures hasEnv == old(hasEnv) && hasSession == old(hasSession) && stagingOutput == old(stagingOutput)
      ensures gpuInputA == old(gpuInputA) && gpuInputB == old(gpuInputB) && gpuOutput == old(gpuOutput)
      ensures mode == old(mode) && stats == old(stats) && width == old(width) && height == old(height)
      ensures ok <==> texture.Texture? && hasContext && (old(stagingA) || stagingCreated) && mapped.Mapped?
      ensures ok && which == TensorA ==> IsPlanarOf(inputTensorA, mapped.data, mapped.rowPitch, width as nat, height as nat)
      ensures ok && which == TensorB ==> IsPlanarOf(inputTensorB, mapped.data, mapped.rowPitch, width as nat, height as nat)
      ensures !(ok && which == TensorA) ==> inputTensorA == if stagingA && !old(stagingA) then Resized([], TensorSize()) else old(inputTensorA)
      ensures !(ok && which == TensorB) ==> inputTensorB == if stagingA && !old(stagingA) then Resized([], TensorSize()) else old(inputTensorB)
      ensures outputTensor == if stagingA && !old(stagingA) then Resized([], TensorSize()) else old(outputTensor)
    {
      if texture.NullTexture? || !hasContext {
        return false;
      }
      if !stagingA {
        if !stagingCreated {
          return false;
        }
        stagingA := true;
        var n := TensorSize();
        inputTensorA := Resized(inputTensorA, n);
        inputTensorB := Resized(inputTensorB, n);
        outputTensor := Resized(outputTensor, n);
      }
      if mapped.MapFailed? {
        return false;
      }
      if which == TensorA {
        inputTensorA := UnpackBgra(mapped.data, mapped.rowPitch, width as nat, height as nat, inputTensorA);
      } else {
        inputTensorB := UnpackBgra(mapped.data, mapped.rowPitch, width as nat, height as nat, inputTensorB);
      }
      ok := true;
    }

    /** Writes `tensor` through the output staging texture, created on first
        use, into `texture`. `written` is what `texture` then holds: the
        mapped bytes with every pixel packed from the tensor. */
    method TensorToTexture(tensor: seq<real>, texture: Texture, stagingCreated: bool, mapped: Mapping) returns (ok: bool, written: Option<seq<u8>>)
      requires Valid() && initialized && MapFits(mapped, width as nat, height as nat)
      requires |tensor| >= TensorSize()
      modifies this
      ensures Valid()
      ensures stagingOutput == (old(stagingOutput) || (texture.Texture? && hasContext && stagingCreated))
      ensures initialized && hasDevice == old(hasDevice) && hasContext == old(hasContext)
      ensures hasEnv == old(hasEnv) && hasSession == old(hasSession) && stagingA == old(stagingA)
      ensures gpuInputA == old(gpuInputA) && gpuInputB == old(gpuInputB) && gpuOutput == old(gpuOutput)
      ensures inputTensorA == old(inputTensorA) && inputTensorB == old(inputTensorB) && outputTensor == old(outputTensor)
      ensures mode == old(mode) && stats == old(stats) && width == old(width) && height == old(height)
      ensures ok <==> texture.Texture? && hasContext && (old(stagingOutput) || stagingCreated) && mapped.Mapped?
      ensures written.Some? <==> ok
      ensures ok ==> IsPackedOf(written.value, mapped.data, tensor, mapped.rowPitch, width as nat, height as nat)
    {
      written := None;
      if texture.NullTexture? || !hasContext {
        return false, written;
      }
      if !stagingOutput {
        if !stagingCreated {
          return false, written;
        }
        stagingOutput := true;
      }
      if mapped.MapFailed? {
        return false, written;
      }
      var bytes := PackBgra(tensor, width as nat, height as nat, mapped.data, mapped.rowPitch);
      written := Some(bytes);
      ok := true;
    }

    /** `Interpolate` once every guard has passed: both frames become input
        tensors; a run that throws drops the frame; otherwise the output is
        written to `output`, the frame is counted and timed, and it is
        dropped when over the mode's budget. */
    method InterpolateReady(frameA: Texture, frameB: Texture, output: Texture, o: InterpolateOracle)
      returns (ok: bool, written: Option<seq<u8>>)
      requires Valid() && initialized && hasSession
      requires frameA.Texture? && frameB.Texture? && output.Texture?
      requires MapFits(o.mapA, width as nat, height as nat) && MapFits(o.mapB, width as nat, height as nat)
      requires MapFits(o.mapOut, width as nat, height as nat)
      requires o.run.Output? ==> |o.run.values| >= TensorSize()
      modifies this
      ensures Valid() && initialized
      ensures stats.vramUsageMB == old(stats.vramUsageMB)
      ensures mode == old(mode) && width == old(width) && height == old(height) && gpuOutput == old(gpuOutput)
      ensures hasEnv == old(hasEnv) && hasSession == old(hasSession)
      ensures hasDevice == old(hasDevice) && hasContext == old(hasContext)
      ensures gpuInputA == Texture(frameA.image) && gpuInputB == Texture(frameB.image)
      ensures ok ==> written.Some? && o.elapsedMs <= TimeBudgetMs(mode)
      ensures ok <==> Converted(o, old(stagingA)) && o.run.Output? && Written(o, old(stagingOutput)) && o.elapsedMs <= TimeBudgetMs(mode)
      ensures written.Some? <==> Converted(o, old(stagingA)) && o.run.Output? && Written(o, old(stagingOutput))
      ensures Converted(o, old(stagingA)) ==>
                && IsPlanarOf(inputTensorA, o.mapA.data, o.mapA.rowPitch, width as nat, height as nat)
                && IsPlanarOf(inputTensorB, o.mapB.data, o.mapB.rowPitch, width as nat, height as nat)
      ensures Converted(o, old(stagingA)) && o.run.Output? ==> outputTensor == o.run.values[..TensorSize()]
      ensures written.Some? ==> IsPackedOf(written.value, o.mapOut.data, outputTensor, o.mapOut.rowPitch, width as nat, height as nat)
      ensures stats.totalFrames == old(stats.totalFrames) + (if written.Some? then 1 else 0)
      ensures stats.droppedFrames == old(stats.droppedFrames)
                + (if Converted(o, old(stagingA)) && o.run.RunThrows? then 1 else 0)
                + (if written.Some? && o.elapsedMs > TimeBudgetMs(mode) then 1 else 0)
      ensures stats.lastInferenceMs == if written.Some? then o.elapsedMs else old(stats.lastInferenceMs)
    {
      written := None;
      gpuInputA := Texture(frameA.image);
      gpuInputB := Texture(frameB.image);
      ok := TextureToTensor(TensorA, frameA, o.stagingCreated, o.mapA);
      if !ok {
        return false, written;
      }
      ok := TextureToTensor(TensorB, frameB, o.stagingCreated, o.mapB);
      if !ok {
        return false, written;
      }
      ok, written := RunAndWrite(output, o);
    }

    /** The part of `Interpolate` after both inputs are converted: runs the
        model, writes its output to `output`, and counts and times the
        frame. */
    method RunAndWrite(output: Texture, o: InterpolateOracle) returns (ok: bool, written: Option<seq<u8>>)
      requires Valid() && initialized && stagingA && output.Texture?
      requires MapFits(o.mapOut, width as nat, height as nat)
      requires o.run.Output? ==> |o.run.values| >= TensorSize()
      modifies this
      ensures Valid() && initialized && stagingA
      ensures mode == old(mode) && width == old(width) && height == old(height)
      ensures inputTensorA == old(inputTensorA) && inputTensorB == old(inputTensorB)
      ensures gpuInputA == old(gpuInputA) && gpuInputB == old(gpuInputB) && gpuOutput == old(gpuOutput)
      ensures hasEnv == old(hasEnv) && hasSession == old(hasSession)
      ensures hasDevice == old(hasDevice) && hasContext == old(hasContext)
      ensures stats.vramUsageMB == old(stats.vramUsageMB)
      ensures written.Some? <==> o.run.Output? && Written(o, old(stagingOutput))
      ensures ok <==> written.Some? && o.elapsedMs <= TimeBudgetMs(mode)
      ensures o.run.Output? ==> outputTensor == o.run.values[..TensorSize()]
      ensures written.Some? ==> IsPackedOf(written.value, o.mapOut.data, outputTensor, o.mapOut.rowPitch, width as nat, height as nat)
      ensures stats.totalFrames == old(stats.totalFrames) + (if written.Some? then 1 else 0)
      ensures stats.droppedFrames == old(stats.droppedFrames)
                + (if o.run.RunThrows? then 1 else 0)
                + (if written.Some? && o.elapsedMs > TimeBudgetMs(mode) then 1 else 0)
      ensures stats.lastInferenceMs == if written.Some? then o.elapsedMs else old(stats.lastInferenceMs)
    {
      written := None;
      if o.run.RunThrows? {
        stats := stats.(droppedFrames := stats.droppedFrames + 1);
        return false, written;
      }
      outputTensor := o.run.values[..TensorSize()];
      ok, written := TensorToTexture(outputTensor, output, o.outStagingCreated, o.mapOut);
      if !ok {
        return false, written;
      }
      stats := stats.(lastInferenceMs := o.elapsedMs, totalFrames := stats.totalFrames + 1);
      if o.elapsedMs > TimeBudgetMs(mode) {
        stats := stats.(droppedFrames := stats.droppedFrames + 1);
        return false, written;
      }
      ok := true;
    }

    /** Interpolates between `frameA` and `frameB` into `output`. It fails
        without any effect in the build without the runtime, when the
        engine is not initialized, and when any texture is null. `written`
        is what `output` holds afterwards when it was overwritten. */
    method Interpolate(frameA: Texture, frameB: Texture, output: Texture, o: InterpolateOracle)
      returns (ok: bool, written: Option<seq<u8>>)
      requires Valid()
      requires MapFits(o.mapA, width as nat, height as nat) && MapFits(o.mapB, width as nat, height as nat)
      requires MapFits(o.mapOut, width as nat, height as nat)
      requires o.run.Output? ==> |o.run.values| >= TensorSize()
      modifies this
      ensures Valid()
      ensures mode == old(mode) && width == old(width) && height == old(height) && initialized == old(initialized)
      ensures !old(Ready(frameA, frameB, output)) ==> !ok && written == None && unchanged(this)
      ensures ok ==> written.Some? && o.elapsedMs <= TimeBudgetMs(mode)
      ensures old(Ready(frameA, frameB, output)) ==>
                && (ok <==> Converted(o, old(stagingA)) && o.run.Output? && Written(o, old(stagingOutput)) && o.elapsedMs <= TimeBudgetMs(mode))
                && (written.Some? <==> Converted(o, old(stagingA)) && o.run.Output? && Written(o, old(stagingOutput)))
                && stats.totalFrames == old(stats.totalFrames) + (if written.Some? then 1 else 0)
                && stats.droppedFrames == old(stats.droppedFrames)
                     + (if Converted(o, old(stagingA)) && o.run.RunThrows? then 1 else 0)
                     + (if written.Some? && o.elapsedMs > TimeBudgetMs(mode) then 1 else 0)
      ensures stats.lastInferenceMs == if written.Some? then o.elapsedMs else old(stats.lastInferenceMs)
      ensures stats.vramUsageMB == old(stats.vramUsageMB)
      ensures old(Ready(frameA, frameB, output)) && !Converted(o, old(stagingA)) ==> stats == old(stats)
      ensures written.Some? ==>
                && IsPlanarOf(inputTensorA, o.mapA.data, o.mapA.rowPitch, width as nat, height as nat)
                && IsPlanarOf(inputTensorB, o.mapB.data, o.mapB.rowPitch, width as nat, height as nat)
                && outputTensor == o.run.values[..TensorSize()]
                && IsPackedOf(written.value, o.mapOut.data, outputTensor, o.mapOut.rowPitch, width as nat, height as nat)
    {
      written := None;
      if !onnxBuild {
        return false, written;
      }
      if !initialized || !hasSession || frameA.NullTexture? || frameB.NullTexture? || output.NullTexture? {
        return false, written;
      }
      ok, written := InterpolateReady(frameA, frameB, output, o);
    }

    /** Every guard of `Interpolate` passes. */
    predicate Ready(frameA: Texture, frameB: Texture, output: Texture)
      reads this
    {
      onnxBuild && initialized && hasSession && frameA.Texture? && frameB.Texture? && output.Texture?
    }
  }
}
