# Deep-Frame core, modelled in Dafny

Deep-Frame captures the Windows desktop and interpolates between frames with
an ONNX model. It then presents the frames in an overlay window on top of
the target window. This project models the native core:

- the lock-free frame ring buffer (`RingBuffer`);
- the DXGI desktop-duplication capture (`DxgiCapture`);
- the ONNX interpolation engine (`OnnxInference`), including its BGRA/planar
  tensor conversions;
- the frame pipeline that ties capture and presentation together
  (`FramePipeline`);
- the state of the overlay presenter (`FramePresenter`) that the pipeline
  drives.

Each native call (Direct3D, DXGI, the ONNX Runtime, the clock) is replaced
by an oracle value. The oracle says what that call returned, so every branch
the code takes on those results is modelled. Textures are identified by the
image they hold. A ghost log records the calls the capture makes on its
output and duplication interfaces.

Files and modules:

| file | module | models |
|---|---|---|
| `native.dfy` | `Native` | integer widths, 32-bit truncation, `Option`, textures |
| `ring_buffer.dfy` | `RingBuffers` | `core/pipeline/RingBuffer.h` |
| `dxgi_capture.dfy` | `Capture` | `core/capture/DxgiCapture.cpp` |
| `tensor_layout.dfy` | `TensorLayout` | the conversion loops of `core/inference/OnnxInference.cpp` |
| `onnx_inference.dfy` | `Inference` | `core/inference/OnnxInference.cpp` |
| `frame_presenter.dfy` | `Presenter` | the presenter state used by the pipeline (`core/present/FramePresenter.cpp`) |
| `frame_pipeline.dfy` | `Pipeline` | `core/pipeline/FramePipeline.cpp` |

The ring buffer is specified by its queue of entries (`Contents`). The
queue is the slots from the read index onward, `count` of them, wrapping
around the slot array. Push appends to it, Pop removes its head, and
PeekLatest returns its last element.

The capture's `AcquireFrame` is specified by two functions of the oracle:
the result it reports (`AcquireOutcome`) and the duplication calls it makes
(`AcquireCalls`). The lemmas about these functions state:

- a frame that is still held is released first;
- the duplication is re-created exactly when access was lost;
- at most one acquisition is retried.

The tensor conversions are specified by two predicates. `IsPlanarOf` says a
tensor is the planar form of a mapped texture. `IsPackedOf` says a mapped
texture was written from a tensor. The round-trip lemma proves that packing
the planar form of a texture gives back the texture's blue, green and red
bytes, with alpha 255.

The pipeline's worker loop is specified by a fold (`Windows`) of its
per-pass step (`WindowStep`) over the passes it makes. Lemmas prove that the
published present rate never exceeds the capture rate.

## Model

| member | source | states |
|---|---|---|
| Native.Wrap32 | core/capture/DxgiCapture.cpp:148-151 | `static_cast<uint32_t>` of a signed value: the result agrees with the input modulo 2^32, and equals it when it is already in range |
| RingBuffers.RingPos | core/pipeline/RingBuffer.h:80-89 | the slot `i` places after the read index, wrapped around the array, is a valid slot index |
| RingBuffers.ModBelowTwice | core/pipeline/RingBuffer.h:87 | advancing an index below the size by one and wrapping it modulo the size is the same as wrapping it by one subtraction |
| RingBuffers.QueueAfterPush | core/pipeline/RingBuffer.h:80-89 | writing the slot after the last queued one and counting it appends that slot's entry to the queue |
| RingBuffers.QueueAfterPop | core/pipeline/RingBuffer.h:102-114 | invalidating the head slot and advancing the read index removes the first entry of the queue and keeps the rest |
| RingBuffers.FlagsAfterPush | core/pipeline/RingBuffer.h:80-89 | after a push, exactly the slots in the queue window are still marked valid |
| RingBuffers.FlagsAfterPop | core/pipeline/RingBuffer.h:102-114 | after a pop, exactly the slots in the queue window are still marked valid |
| RingBuffers.LatestIsNewest | core/pipeline/RingBuffer.h:125-127 | the slot before the write index is the last slot of the queue, so it holds the last entry |
| RingBuffers.RingBuffer.constructor | core/pipeline/RingBuffer.h:24-30 | a new buffer has `SIZE` empty, invalid slots, both indices 0 and no entries |
| RingBuffers.RingBuffer.Initialize | core/pipeline/RingBuffer.h:34-63 | succeeds iff every slot texture is created; on success every slot is reset and the buffer is empty; on the first failure the earlier slots are reset, the failed slot has no texture, later slots and the indices are untouched |
| RingBuffers.RingBuffer.Shutdown | core/pipeline/RingBuffer.h:65-70 | every slot loses its texture and its valid flag; the indices and the count stay |
| RingBuffers.RingBuffer.Push | core/pipeline/RingBuffer.h:74-92 | refuses exactly when full and then changes nothing; otherwise fills the write slot, advances the write index modulo the size, counts one more, and appends `(frame, timestamp)` to the queue |
| RingBuffers.RingBuffer.Pop | core/pipeline/RingBuffer.h:96-117 | succeeds iff the buffer is not empty and the read slot is valid; returns the queue's first entry, invalidates that slot, advances the read index and leaves the rest of the queue |
| RingBuffers.RingBuffer.PeekLatest | core/pipeline/RingBuffer.h:120-128 | null when empty; otherwise the texture of the slot before the write index if it is valid, which is the newest queued frame |
| RingBuffers.RingBuffer.IsFull | core/pipeline/RingBuffer.h:130-132 | true iff the queue holds `SIZE` entries |
| RingBuffers.RingBuffer.IsEmpty | core/pipeline/RingBuffer.h:134-136 | true iff the queue is empty |
| RingBuffers.RingBuffer.Count | core/pipeline/RingBuffer.h:138-140 | the queue's length, at most `SIZE` |
| Capture.AcquireOutcome | core/capture/DxgiCapture.cpp:193-286 | the result of acquiring from an initialized capture, each as an iff over the native results: Timeout, AccessLost (no recovery, or a failed retry), DeviceLost, InvalidCall (another failure, or a frame that cannot be copied), Success; never Uninitialized |
| Capture.OccurrencesAppend | core/capture/DxgiCapture.cpp:180-287 | counting calls in a concatenated log adds the counts of the two parts |
| Capture.OccurrencesOfShort | core/capture/DxgiCapture.cpp:180-287 | a log of at most one call counts that call once |
| Capture.AcquireCallsShape | core/capture/DxgiCapture.cpp:189-256 | one acquisition releases a held frame first, acquires once or (after recovery) twice, re-creates the duplication exactly on access loss, and releases again only for a frame it could not copy |
| Capture.DxgiCapture.constructor | core/capture/DxgiCapture.h:38-76 | a new capture holds nothing and is not initialized |
| Capture.DxgiCapture.MoveFrom | core/capture/DxgiCapture.cpp:16-28 | the new capture takes every handle and field of `other`; `other` is left empty and uninitialized |
| Capture.DxgiCapture.MoveAssign | core/capture/DxgiCapture.cpp:30-50 | self-assignment changes nothing; otherwise this capture is shut down (releasing a held frame), takes every handle and field of `other`, and leaves `other` empty |
| Capture.DxgiCapture.Initialize | core/capture/DxgiCapture.cpp:52-72 | shuts an initialized capture down first; succeeds iff the device and the duplication are created; on success it holds a duplication and the size is the desktop rectangle's width and height truncated to 32 bits |
| Capture.DxgiCapture.Shutdown | core/capture/DxgiCapture.cpp:74-89 | releases a held frame, drops every handle and leaves the capture uninitialized; the output index stays |
| Capture.DxgiCapture.ReinitializeDuplication | core/capture/DxgiCapture.cpp:164-178 | releases a held frame and the duplication; succeeds iff the device and the output exist and duplicating again works, and holds a duplication exactly then |
| Capture.DxgiCapture.AcquireFrame | core/capture/DxgiCapture.cpp:180-287 | Uninitialized and nothing changed without a duplication; otherwise the result is `AcquireOutcome`, the logged calls are `AcquireCalls`, a frame is held iff the result is Success, and the frame is filled in from the desktop texture and the frame info exactly then |
| Capture.DxgiCapture.AcquireUnheld | core/capture/DxgiCapture.cpp:193-286 | the acquisition after a held frame is released: the same result, log and frame as `AcquireFrame` with nothing held |
| Capture.DxgiCapture.CopyAcquired | core/capture/DxgiCapture.cpp:217-286 | the end of an acquisition: DeviceLost on removal or reset, InvalidCall on any other failure or a failed copy (releasing an acquired frame), Success with the frame filled in otherwise |
| Capture.DxgiCapture.ReleaseFrame | core/capture/DxgiCapture.cpp:289-294 | releases a held frame (one logged Release) and nothing else |
| TensorLayout.RadixLess | core/inference/OnnxInference.cpp:269 | row-major positions grow with (row, column) in lexicographic order |
| TensorLayout.PlaneIndex | core/inference/OnnxInference.cpp:269-272 | the tensor position of a channel of a pixel lies inside the three planes |
| TensorLayout.ByteIndex | core/inference/OnnxInference.cpp:267-272 | the mapped-texture position of a byte of a pixel lies inside the mapped rows |
| TensorLayout.PlaneIndexDistinct | core/inference/OnnxInference.cpp:269-272 | different (channel, row, column) triples have different tensor positions |
| TensorLayout.ByteIndexDistinct | core/inference/OnnxInference.cpp:312-325 | different (row, byte-in-row) pairs have different texture positions |
| TensorLayout.PlaneIndexOnto | core/inference/OnnxInference.cpp:264-274 | every tensor position below `3 * height * width` is the position of some channel of some pixel |
| TensorLayout.Denormalize | core/inference/OnnxInference.cpp:319-324 | a tensor value becomes the largest byte not above `value * 255`, clamped to 0 below and 255 above |
| TensorLayout.DenormalizeNormalize | core/inference/OnnxInference.cpp:270-272 | converting a byte to a tensor value (`/255`) and back gives the byte |
| TensorLayout.DenormalizeMonotone | core/inference/OnnxInference.cpp:319-324 | larger tensor values never give smaller bytes |
| TensorLayout.PlanarUnique | core/inference/OnnxInference.cpp:266-274 | the planar tensor of a texture is determined by the texture on all of its three planes |
| TensorLayout.PackUnpackRoundTrip | core/inference/OnnxInference.cpp:266-274 | packing the planar tensor of a texture gives back that texture's blue, green and red bytes, with alpha 255 |
| TensorLayout.UnpackBgra | core/inference/OnnxInference.cpp:266-274 | the conversion loop writes the planar tensor of the mapped texture (red, green, blue planes of normalised bytes) and leaves the tensor past the three planes unchanged |
| TensorLayout.UnpackPixel | core/inference/OnnxInference.cpp:269-272 | one pass of the inner loop writes the three channel values of one pixel and no other position |
| TensorLayout.PackBgra | core/inference/OnnxInference.cpp:311-327 | the conversion loop writes, for every pixel, the denormalised blue, green and red values and alpha 255, and leaves the row padding and the bytes past the last row unchanged |
| TensorLayout.PackPixel | core/inference/OnnxInference.cpp:314-325 | one pass of the inner loop writes the four bytes of one pixel and no other byte |
| Inference.TimeBudgetMs | core/inference/OnnxInference.cpp:209-220 | the budget is 8, 12 or 20 ms; any mode other than BALANCED and QUALITY gets 8 |
| Inference.TimeBudgetOrdered | core/inference/OnnxInference.cpp:209-220 | FAST < BALANCED < QUALITY in budget, and an unnamed mode gets FAST's budget |
| Inference.InputDims | core/inference/OnnxInference.cpp:61-67 | the tensor size taken from the model's input shape: a positive dimension is kept, truncated to 32 bits by `Wrap32`, a missing or non-positive dimension becomes 1080 by 1920; a dimension is 0 iff a positive dimension is a multiple of 2^32 |
| Inference.Resized | core/inference/OnnxInference.cpp:250-252 | `vector::resize`: the new length, the old elements kept, the new ones 0 |
| Inference.OnnxInference.constructor | core/inference/OnnxInference.h:78-106 | a new engine holds nothing, is not initialized, has mode FAST and zero statistics |
| Inference.OnnxInference.Initialize | core/inference/OnnxInference.cpp:16-98 | always fails without the ONNX build; an initialized engine succeeds and changes nothing; an empty model path fails; otherwise it succeeds iff the runtime loads the model and all three textures are created, takes its size from `InputDims`, and stores the mode; a failure after loading keeps the textures created so far |
| Inference.OnnxInference.Shutdown | core/inference/OnnxInference.cpp:100-113 | releases the session, the environment, the textures, the staging textures and the tensors; the non-ONNX build only clears the initialized flag |
| Inference.OnnxInference.SetMode | core/inference/OnnxInference.cpp:222-226 | shuts down and initializes again with the same device; in the ONNX build it succeeds iff a model path is given, the model loads and the textures are created, and the mode is stored iff a model path is given; without the ONNX build it always fails and keeps the mode |
| Inference.OnnxInference.TextureToTensor | core/inference/OnnxInference.cpp:228-278 | succeeds iff the texture and the context exist, the staging texture exists or is created, and mapping works; creating the staging texture resizes all three tensors; on success the chosen input tensor is the planar form of the mapped texture |
| Inference.OnnxInference.TensorToTexture | core/inference/OnnxInference.cpp:280-332 | succeeds iff the texture and the context exist, the output staging texture exists or is created, and mapping works; on success the written bytes are the packed form of the tensor |
| Inference.OnnxInference.InterpolateReady | core/inference/OnnxInference.cpp:121-185 | with both inputs converted the model runs; a thrown run counts a dropped frame; a written output counts a frame and records its time, and the frame also counts as dropped when over budget; success iff written within budget |
| Inference.OnnxInference.RunAndWrite | core/inference/OnnxInference.cpp:160-185 | the output tensor is the first `3 * height * width` model outputs, packed into the output texture; the statistics as in `Interpolate` |
| Inference.OnnxInference.Interpolate | core/inference/OnnxInference.cpp:115-186 | refuses and changes nothing unless initialized, with a session and all three textures non-null (always in the non-ONNX build); otherwise a frame counts iff both inputs convert, the model runs and the output is written; dropped frames count throws and over-budget frames; a written frame records its elapsed time as the last inference time, which otherwise stays, and the VRAM estimate never changes; success iff written within budget |
| Presenter.FramePresenter.constructor | core/present/FramePresenter.h:61-90 | a new presenter holds nothing, is hidden and shows statistics |
| Presenter.FramePresenter.Initialize | core/present/FramePresenter.cpp:33-71 | an initialized presenter succeeds unchanged; otherwise it succeeds iff the window, the swap chain and the drawing resources are created, and a later failure shuts it down again |
| Presenter.FramePresenter.Shutdown | core/present/FramePresenter.cpp:73-93 | releases every resource and is no longer initialized; the visibility flag stays |
| Presenter.FramePresenter.SetTargetWindow | core/present/FramePresenter.cpp:238-241 | the target window is stored and nothing else changes |
| Presenter.FramePresenter.SetShowStats | core/present/FramePresenter.h:50 | the statistics flag is stored and nothing else changes |
| Presenter.FramePresenter.Show | core/present/FramePresenter.cpp:243-248 | an existing overlay becomes visible |
| Presenter.FramePresenter.Hide | core/present/FramePresenter.cpp:250-255 | an existing overlay becomes hidden |
| Presenter.FramePresenter.DrawStats | core/present/FramePresenter.cpp:316-343 | with statistics shown and a drawing target the given rates and latency are drawn; otherwise nothing changes |
| Presenter.FramePresenter.PresentFrame | core/present/FramePresenter.cpp:277-314 | ignored unless initialized with a swap chain and a non-null frame; otherwise the overlay is shown, the frame is copied into the back buffer and one more frame is presented |
| Pipeline.TruncateToInt | core/pipeline/FramePipeline.cpp:148-149 | `static_cast<int>` of a float: the integer next to the value toward zero |
| Pipeline.WindowStepCounts | core/pipeline/FramePipeline.cpp:162-173 | within a second of the window's start the pass's capture and presentation are counted and the statistics stay; after a second or more the window restarts now and the published rates times the elapsed time equal the window's counts |
| Pipeline.WindowStepOrdered | core/pipeline/FramePipeline.cpp:138-173 | a pass that presents only what it captured keeps presented ≤ captured in the window and present rate ≤ capture rate |
| Pipeline.DivideMonotone | core/pipeline/FramePipeline.cpp:167-170 | dividing by the same positive elapsed time keeps the order of the counts |
| Pipeline.WindowsOrdered | core/pipeline/FramePipeline.cpp:126-174 | over any run of the worker loop the published present rate never exceeds the capture rate |
| Pipeline.PublishedRateBounded | core/pipeline/FramePipeline.cpp:164-170 | a published capture rate is non-negative and at most the captures of its window of a second or more |
| Pipeline.WindowCountsSuccesses | core/pipeline/FramePipeline.cpp:138-173 | while less than a second has passed since the window started, the window counts exactly the successful captures, as captures and as presented frames, and the statistics stay as they were |
| Pipeline.FoldsExtend | core/pipeline/FramePipeline.cpp:126-174 | one more pass extends the window and statistics fold by `WindowStep`, the duplication call log by that pass's calls, and the success count by that pass's success |
| Pipeline.OutcomesPointwise | core/pipeline/FramePipeline.cpp:135-136 | the pass-by-pass statement that every pass reaching the duplication interface reports its oracle's outcome holds iff the pointwise statement over all passes does |
| Pipeline.FramePipeline.constructor | core/pipeline/FramePipeline.h:76-104 | a new pipeline owns fresh components, is neither initialized nor running, and has zero counters and statistics |
| Pipeline.FramePipeline.Initialize | core/pipeline/FramePipeline.cpp:9-44 | an initialized pipeline succeeds unchanged; otherwise it stores the configuration and succeeds iff the capture and then the presenter initialize, shutting the capture down if the presenter fails; the presenter gets the capture's size, the statistics flag, and the target window when one is configured |
| Pipeline.FramePipeline.Shutdown | core/pipeline/FramePipeline.cpp:46-54 | stops the loop, then shuts down the inference engine, the presenter and the capture, leaving it uninitialized; the presenter keeps its target window, statistics flag, size, present count, back buffer and drawn statistics, so a later `Initialize` finds them |
| Pipeline.FramePipeline.Start | core/pipeline/FramePipeline.cpp:56-79 | succeeds iff initialized and not running; then it is running with zero counters and statistics and the overlay is shown; every other presenter field stays |
| Pipeline.FramePipeline.Stop | core/pipeline/FramePipeline.cpp:81-93 | a running pipeline stops and hides the overlay, and every other presenter field stays; a stopped one is untouched |
| Pipeline.FramePipeline.SetTargetWindow | core/pipeline/FramePipeline.cpp:95-98 | the configuration and the presenter get the new target window; every other presenter field (visibility, statistics flag, present count, back buffer, size, drawn statistics, resources) stays |
| Pipeline.FramePipeline.SetShowStats | core/pipeline/FramePipeline.cpp:100-103 | the configuration and the presenter get the new statistics flag; every other presenter field (visibility, target window, present count, back buffer, size, drawn statistics, resources) stays |
| Pipeline.FramePipeline.SetMode | core/pipeline/FramePipeline.cpp:105-110 | only the configuration's mode and model path change, and it always succeeds |
| Pipeline.FramePipeline.WorkerLoop | core/pipeline/FramePipeline.cpp:119-176 | the loop runs exactly until the first pass that observes the running flag cleared; each pass's result is the capture's outcome; the statistics are the `Windows` fold over the passes, so a present rate that did not exceed the capture rate before the loop does not exceed it afterwards; presented frames and the presenter's present count both grow by exactly the successful captures; the capture's call log grows by exactly the acquisitions (16 ms timeout) and releases of the passes; after at least one pass no frame is held; captured frames never change |
| Pipeline.FramePipeline.WorkerStep | core/pipeline/FramePipeline.cpp:126-174 | one pass after the passes whose results are given keeps the capture and presenter invariants and extends every fold (window and statistics, call log, present count, presented frames, outcomes) by that pass |
| Pipeline.FramePipeline.WorkerPass | core/pipeline/FramePipeline.cpp:127-173 | one pass: the result is `Uninitialized` iff the capture had no duplication, otherwise the oracle's outcome; the capture's log grows by the acquisition with a 16 ms timeout and, on success, one release, and no frame is held afterwards; on success the presenter shows the captured image, its present count grows by one and, with the overlay on, it receives the capture and present rates truncated toward zero and the inference latency read before the pass; otherwise the presenter is untouched; presented frames grow by the success; the window advances by `WindowStep` |

## Left out

- Concurrency is left out: the worker, capture, inference and present threads, the atomics, the memory orders and the ring buffer's single-producer/single-consumer discipline. Every operation is modelled as one atomic step, and `Stop` clearing the running flag from another thread is modelled as the flag value that each loop test observes.
- Floating point is modelled as exact reals. Single-precision rounding of `/ 255.0f`, of `* 255.0f`, of the frame rates and of the millisecond timings is not modelled.
- The clocks (`std::chrono::high_resolution_clock`, the QPC timestamps) are values in the oracles and ticks.
- The native Direct3D, DXGI, Direct2D and ONNX Runtime calls are oracle values. The GPU copies (`CopyResource`, `CopySubresourceRegion`) are modelled as the texture taking the source image.
- Logging with `printf`/`OutputDebugString` is left out.
- The destructors are left out. Those of the capture, the inference engine, the presenter and the pipeline only call `Shutdown`; the ring buffer's destructor is defaulted (`core/pipeline/RingBuffer.h:31`) and only releases the slot textures.
- Pipeline.FramePipeline.WorkerLoop: a run in which the running flag is never cleared does not terminate, and it is not modelled. The loop is modelled only for runs that end.
- The 64-bit counters (`totalFrames`, `droppedFrames`, `capturedFrames_`, `presentedFrames_`) are unbounded `nat`s. Their wrap-around after 2^64 increments is not modelled.
- Presenter.FramePresenter.PresentFrame: the source counts presented frames in a function-local `static int presentCount` (`core/present/FramePresenter.cpp:278`), which is 32-bit, signed and shared by every presenter. The model keeps an unbounded per-object `presentCount` instead, so neither the sharing between presenters nor the signed overflow is modelled.
- Inference.OnnxInference.TextureToTensor: the index arithmetic is computed on 32-bit `uint32_t` operands in the source: `3 * height_ * width_`, `channelSize`, `pixelIdx` and `y * mapped.RowPitch` (`core/inference/OnnxInference.cpp:249`, `264-269`). Its wrap-around is not modelled, because Direct3D limits texture sizes far below where it could wrap.
- Inference.OnnxInference.TensorToTexture: the same 32-bit index arithmetic (`channelSize`, `pixelIdx`, `y * mapped.RowPitch`, `core/inference/OnnxInference.cpp:309-314`) is modelled without wrap-around, for the same reason.
- The three-stage pipeline is left out. `CaptureThread`, `InferenceThread` and `PresentThread` are empty in `core/pipeline/FramePipeline.cpp:180-182`, and the pipeline's ring buffers, `interpolatedFrame_` and the inference engine are never used by the worker loop. The pipeline therefore only shuts the engine down (`core/pipeline/FramePipeline.cpp:49`); neither its `Initialize` nor its `SetMode` touches the engine.
- `Interpolate`'s blend parameter `t` is left out; the body never reads it.
- The second input staging texture (`stagingTextureB_`) is left out. Both input conversions go through the first staging texture, and the second is never created.
- The getters `GetStats`, `IsInitialized`, `IsRunning`, `GetWidth`, `GetHeight` and `GetMode` are left out. Each only reads a field of the model.
- The presenter's window procedure, message pump, `UpdatePosition`, swap-chain creation details and Direct2D drawing are left out; only the state that the pipeline observes is modelled.
- The N-API binding and the UI are left out; they are not part of the core.
- RingBuffers.RingBuffer.Pop: the source hands out the slot's own texture pointer (`core/pipeline/RingBuffer.h:108`), so the consumer's frame aliases the slot. When the buffer was full, the next `Push` writes into that very slot and overwrites the frame the consumer still holds. The model returns the entry by value, so the consumer keeps the frame; this aliasing is not modelled.
- RingBuffers.RingBuffer.Push: requires the write slot to have a texture whenever the buffer is not full. The source does not check this: after `Shutdown` or a failed `Initialize` it copies into a null slot texture (`core/pipeline/RingBuffer.h:83`), which Direct3D does not define. That case is not modelled.
- Inference.OnnxInference.Interpolate: requires the model's output to hold at least `3 * height * width` values (likewise `InterpolateReady` and `RunAndWrite`). The source copies that many floats without checking the output's size (`core/inference/OnnxInference.cpp:164-166`), so a smaller output reads past its end. That case is not modelled.
- Inference.OnnxInference.Initialize: requires a device whenever a model path is given to an uninitialized engine of the ONNX build, and `SetMode` requires the stored device likewise. The source dereferences `device_` without checking (`core/inference/OnnxInference.cpp:24`), and `SetMode` forwards a stored `device_` that may be null (`core/inference/OnnxInference.cpp:222-225`). The null-device case is undefined behaviour and is not modelled.
