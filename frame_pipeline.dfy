/** The frame pipeline (`FramePipeline`): owns a capture, an inference
    engine and a presenter; `Initialize` brings up capture and presentation,
    `Start` and `Stop` run and end the worker loop, and the worker loop
    captures frames, presents each one with the statistics overlay and
    recomputes the frame rates once a second. The worker thread is modelled
    as a call to `WorkerLoop`, and the running flag it polls, which `Stop`
    clears from another thread, as the value each poll observes. */
module Pipeline {
  import opened Native
  import Capture
  import Inference
  import Presenter

  /** `PipelineStats` */
  datatype PipelineStats = PipelineStats(
    captureFps: real,
    presentFps: real,
    inferenceTimeMs: real,
    droppedFrames: nat,
    vramUsageMB: nat,
    e2eLatencyMs: real)

  const ZeroStats: PipelineStats := PipelineStats(0.0, 0.0, 0.0, 0, 0, 0.0)

  /** `PipelineConfig` */
  datatype PipelineConfig = PipelineConfig(
    mode: Inference.InterpolationMode,
    modelPath: string,
    showStats: bool,
    targetWindow: Presenter.WindowHandle)

  /** The worker loop's frame-rate window: when it started (in seconds),
      and the frames presented and captured since. */
  datatype FpsWindow = FpsWindow(lastFpsTime: real, framesSince: nat, capturesSince: nat)

  /** One pass of the worker loop as its environment determines it: the
      running flag observed at the loop test, what the capture's native
      calls return, and the clock reading taken after the frame. */
  datatype Tick = Tick(running: bool, acquire: Capture.AcquireOracle, now: real)

  /** `static_cast<int>` of a float: truncation toward zero. */
  function TruncateToInt(x: real): (r: int)
    ensures x >= 0.0 ==> r as real <= x < r as real + 1.0
    ensures x < 0.0 ==> r as real - 1.0 < x <= r as real
  {
    if x >= 0.0 then x.Floor else -((-x).Floor)
  }

  /** The end of one worker pass on the frame-rate window and the
      statistics: the capture and the presentation of this pass are
      counted; once a second or more has passed since the window started,
      the rates of the window are published and a new window starts now. */
  function WindowStep(w: FpsWindow, s: PipelineStats, captured: bool, presented: bool, now: real): (FpsWindow, PipelineStats)
  {
    var captures := w.capturesSince + (if captured then 1 else 0);
    var frames := w.framesSince + (if presented then 1 else 0);
    var elapsed := now - w.lastFpsTime;
    if elapsed >= 1.0 then
      (FpsWindow(now, 0, 0), s.(captureFps := captures as real / elapsed, presentFps := frames as real / elapsed))
    else
      (FpsWindow(w.lastFpsTime, frames, captures), s)
  }

  /** Within a second of the window's start the pass is counted in the
      window and the statistics stay; after a second or more the window
      restarts now and the published rates times the elapsed time are the
      window's counts, the other statistics staying. */
  lemma WindowStepCounts(w: FpsWindow, s: PipelineStats, captured: bool, presented: bool, now: real)
    ensures var r := WindowStep(w, s, captured, presented, now);
            now - w.lastFpsTime < 1.0 ==>
              && r.1 == s
              && r.0 == FpsWindow(w.lastFpsTime, w.framesSince + (if presented then 1 else 0),
                                  w.capturesSince + (if captured then 1 else 0))
    ensures var r := WindowStep(w, s, captured, presented, now);
            now - w.lastFpsTime >= 1.0 ==>
              && r.0 == FpsWindow(now, 0, 0)
              && r.1.captureFps * (now - w.lastFpsTime) == (w.capturesSince + (if captured then 1 else 0)) as real
              && r.1.presentFps * (now - w.lastFpsTime) == (w.framesSince + (if presented then 1 else 0)) as real
              && r.1 == s.(captureFps := r.1.captureFps, presentFps := r.1.presentFps)
  {
  }

  /** The window and the statistics after the worker passes whose capture
      results are `results`, the pass `i` reading the clock at
      `ticks[i].now`. A pass presents exactly when it captures, since a
      captured frame always has a texture. */
  function Windows(w0: FpsWindow, s0: PipelineStats, results: seq<Capture.CaptureResult>, ticks: seq<Tick>): (FpsWindow, PipelineStats)
    requires |results| <= |ticks|
    decreases |results|
  {
    if results == [] then (w0, s0)
    else
      var n := |results| - 1;
      var prev := Windows(w0, s0, results[..n], ticks);
      WindowStep(prev.0, prev.1, results[n] == Capture.Success, results[n] == Capture.Success, ticks[n].now)
  }

  /** The number of successful captures among `results`. */
  function Successes(results: seq<Capture.CaptureResult>): nat
    decreases |results|
  {
    if results == [] then 0
    else Successes(results[..|results| - 1]) + (if results[|results| - 1] == Capture.Success then 1 else 0)
  }

  /** A pass never presents more than it captures, so a window never counts
      more presented frames than captured ones, and the published present
      rate never exceeds the capture rate. */
  lemma {:induction false} WindowStepOrdered(w: FpsWindow, s: PipelineStats, captured: bool, presented: bool, now: real)
    requires w.framesSince <= w.capturesSince && s.presentFps <= s.captureFps
    requires presented ==> captured
    ensures WindowStep(w, s, captured, presented, now).0.framesSince <= WindowStep(w, s, captured, presented, now).0.capturesSince
    ensures WindowStep(w, s, captured, presented, now).1.presentFps <= WindowStep(w, s, captured, presented, now).1.captureFps
  {
    var elapsed := now - w.lastFpsTime;
    if elapsed >= 1.0 {
      var captures := w.capturesSince + (if captured then 1 else 0);
      var frames := w.framesSince + (if presented then 1 else 0);
      DivideMonotone(frames as real, captures as real, elapsed);
    }
  }

  lemma {:induction false} DivideMonotone(a: real, b: real, e: real)
    requires 0.0 <= a <= b && e > 0.0
    ensures a / e <= b / e
  {
    assert b / e - a / e == (b - a) / e;
  }

  /** Over any run of the worker loop from a fresh window, the present rate
      never exceeds the capture rate. */
  lemma {:induction false} WindowsOrdered(w0: FpsWindow, s0: PipelineStats, results: seq<Capture.CaptureResult>, ticks: seq<Tick>)
    requires |results| <= |ticks|
    requires w0.framesSince <= w0.capturesSince && s0.presentFps <= s0.captureFps
    ensures Windows(w0, s0, results, ticks).0.framesSince <= Windows(w0, s0, results, ticks).0.capturesSince
    ensures Windows(w0, s0, results, ticks).1.presentFps <= Windows(w0, s0, results, ticks).1.captureFps
    decreases |results|
  {
    if results != [] {
      var n := |results| - 1;
      WindowsOrdered(w0, s0, results[..n], ticks);
      var prev := Windows(w0, s0, results[..n], ticks);
      WindowStepOrdered(prev.0, prev.1, results[n] == Capture.Success, results[n] == Capture.Success, ticks[n].now);
    }
  }

  /** A published capture rate is the number of captures in the window over
      the window's length, and a window of a second or more never shows
      more frames per second than it captured frames. */
  lemma {:induction false} PublishedRateBounded(w: FpsWindow, s: PipelineStats, captured: bool, presented: bool, now: real)
    requires now - w.lastFpsTime >= 1.0
    ensures WindowStep(w, s, captured, presented, now).1.captureFps <= (w.capturesSince + (if captured then 1 else 0)) as real
    ensures WindowStep(w, s, captured, presented, now).1.captureFps >= 0.0
  {
    var elapsed := now - w.lastFpsTime;
    var captures := (w.capturesSince + (if captured then 1 else 0)) as real;
    var fps := WindowStep(w, s, captured, presented, now).1.captureFps;
    assert fps * elapsed == captures;
  }

  /** As long as no second has passed since the window started, the window
      counts exactly the successful captures, as captures and as
      presentations, and the statistics stay as they were. */
  lemma {:induction false} WindowCountsSuccesses(w0: FpsWindow, s0: PipelineStats, results: seq<Capture.CaptureResult>, ticks: seq<Tick>)
    requires |results| <= |ticks|
    requires forall i | 0 <= i < |results| :: ticks[i].now - w0.lastFpsTime < 1.0
    ensures Windows(w0, s0, results, ticks).0
         == FpsWindow(w0.lastFpsTime, w0.framesSince + Successes(results), w0.capturesSince + Successes(results))
    ensures Windows(w0, s0, results, ticks).1 == s0
    decreases |results|
  {
    if results != [] {
      WindowCountsSuccesses(w0, s0, results[..|results| - 1], ticks);
    }
  }

  /** The duplication calls of one worker pass whose capture result is
      `r`: none when the capture is not initialized, otherwise those of the
      acquisition with a 16 ms timeout, followed by the release of a frame
      that was captured. */
  function PassCalls(held: bool, r: Capture.CaptureResult, tick: Tick): seq<Capture.DuplicationCall>
  {
    if r == Capture.Uninitialized then []
    else Capture.AcquireCalls(held, tick.acquire, 16) + (if r == Capture.Success then [Capture.Release] else [])
  }

  /** The duplication calls of the worker passes whose results are
      `results`; only the first pass can find a frame still held. */
  function LoopCalls(held: bool, results: seq<Capture.CaptureResult>, ticks: seq<Tick>): seq<Capture.DuplicationCall>
    requires |results| <= |ticks|
    decreases |results|
  {
    if results == [] then []
    else
      var n := |results| - 1;
      LoopCalls(held, results[..n], ticks) + PassCalls(held && n == 0, results[n], ticks[n])
  }

  /** One more worker pass extends each fold over the passes by one step:
      the window and statistics by `WindowStep`, the call log by
      `PassCalls`, and the successes by the pass's own. */
  lemma FoldsExtend(w0: FpsWindow, s0: PipelineStats, held: bool, calls0: seq<Capture.DuplicationCall>,
                    results: seq<Capture.CaptureResult>, r: Capture.CaptureResult, ticks: seq<Tick>,
                    before: (FpsWindow, PipelineStats), calls: seq<Capture.DuplicationCall>,
                    after: (FpsWindow, PipelineStats), calls': seq<Capture.DuplicationCall>)
    requires |results| < |ticks|
    requires before == Windows(w0, s0, results, ticks)
    requires calls == calls0 + LoopCalls(held, results, ticks)
    requires after == WindowStep(before.0, before.1, r == Capture.Success, r == Capture.Success, ticks[|results|].now)
    requires calls' == calls + PassCalls(held && |results| == 0, r, ticks[|results|])
    ensures after == Windows(w0, s0, results + [r], ticks)
    ensures calls' == calls0 + LoopCalls(held, results + [r], ticks)
    ensures Successes(results + [r]) == Successes(results) + (if r == Capture.Success then 1 else 0)
  {
    WindowsExtend(w0, s0, results, r, ticks);
    LoopCallsExtend(held, calls0, results, r, ticks);
    assert (results + [r])[..|results|] == results;
  }

  /** `Windows` over one more pass is `WindowStep` on the previous fold. */
  lemma WindowsExtend(w0: FpsWindow, s0: PipelineStats, results: seq<Capture.CaptureResult>, r: Capture.CaptureResult, ticks: seq<Tick>)
    requires |results| < |ticks|
    ensures Windows(w0, s0, results + [r], ticks)
         == WindowStep(Windows(w0, s0, results, ticks).0, Windows(w0, s0, results, ticks).1,
                       r == Capture.Success, r == Capture.Success, ticks[|results|].now)
  {
    assert (results + [r])[..|results|] == results;
  }

  /** `LoopCalls` over one more pass appends that pass's `PassCalls`. */
  lemma LoopCallsExtend(held: bool, calls0: seq<Capture.DuplicationCall>, results: seq<Capture.CaptureResult>,
                        r: Capture.CaptureResult, ticks: seq<Tick>)
    requires |results| < |ticks|
    ensures calls0 + LoopCalls(held, results + [r], ticks)
         == calls0 + LoopCalls(held, results, ticks) + PassCalls(held && |results| == 0, r, ticks[|results|])
  {
    assert (results + [r])[..|results|] == results;
    AppendAssociative(calls0, LoopCalls(held, results, ticks), PassCalls(held && |results| == 0, r, ticks[|results|]));
  }

  /** Concatenation of sequences is associative. */
  lemma AppendAssociative<T>(a: seq<T>, b: seq<T>, c: seq<T>)
    ensures a + (b + c) == a + b + c
  {
  }

  /** Every pass among `results` that reached the duplication interface
      reports the outcome its oracle in `ticks` dictates; stated pass by
      pass, from the last one back. */
  ghost predicate Outcomes(results: seq<Capture.CaptureResult>, ticks: seq<Tick>)
    decreases |results|
  {
    && |results| <= |ticks|
    && (results != [] ==>
          var n := |results| - 1;
          && Outcomes(results[..n], ticks)
          && (results[n] != Capture.Uninitialized ==> results[n] == Capture.AcquireOutcome(ticks[n].acquire)))
  }

  /** One more pass that reports its oracle's outcome keeps `Outcomes`. */
  lemma OutcomesExtend(results: seq<Capture.CaptureResult>, r: Capture.CaptureResult, ticks: seq<Tick>)
    requires Outcomes(results, ticks) && |results| < |ticks|
    requires r != Capture.Uninitialized ==> r == Capture.AcquireOutcome(ticks[|results|].acquire)
    ensures Outcomes(results + [r], ticks)
  {
    assert (results + [r])[..|results|] == results;
  }

  /** `Outcomes` holds exactly when every pass reports its oracle's outcome. */
  lemma {:induction false} OutcomesPointwise(results: seq<Capture.CaptureResult>, ticks: seq<Tick>)
    requires |results| <= |ticks|
    ensures Outcomes(results, ticks) <==>
              forall i | 0 <= i < |results| :: results[i] != Capture.Uninitialized ==> results[i] == Capture.AcquireOutcome(ticks[i].acquire)
    decreases |results|
  {
    if results != [] {
      var n := |results| - 1;
      OutcomesPointwise(results[..n], ticks);
      assert forall i | 0 <= i < n :: results[..n][i] == results[i];
    }
  }

  class FramePipeline {
    const capture: Capture.DxgiCapture
    const inference: Inference.OnnxInference
    const presenter: Presenter.FramePresenter

    var config: PipelineConfig
    var stats: PipelineStats
    var running: bool
    var initialized: bool
    /** `capturedFrames_` and `presentedFrames_` */
    var capturedFrames: nat
    var presentedFrames: nat

    /** Holds in every reachable state: the components keep their own
        invariants, the pipeline runs only when initialized, and it is
        initialized exactly when its capture and its presenter are. */
    ghost predicate Valid()
      reads this, capture, inference, presenter
    {
      inference.Valid() && Core()
    }

    /** The part of Valid that the worker thread touches: the capture and
        the presenter keep their invariants and agree with the flags. */
    ghost predicate Core()
      reads this, capture, presenter
    {
      && capture.Valid() && presenter.Valid()
      && (running ==> initialized)
      && capture.initialized == initialized && presenter.initialized == initialized
    }

    constructor (onnxBuild: bool)
      ensures Valid() && fresh(capture) && fresh(inference) && fresh(presenter)
      ensures !initialized && !running && capturedFrames == 0 && presentedFrames == 0 && stats == ZeroStats
      ensures config == PipelineConfig(Inference.FAST, [], true, 0)
      ensures inference.onnxBuild == onnxBuild
    {
      capture := new Capture.DxgiCapture();
      inference := new Inference.OnnxInference(onnxBuild);
      presenter := new Presenter.FramePresenter();
      config := PipelineConfig(Inference.FAST, [], true, 0);
      stats := ZeroStats;
      running, initialized := false, false;
      capturedFrames, presentedFrames := 0, 0;
    }

    /** Brings up capture of the first output of the first adapter, then the
        presenter at the capture's size, and hands it the configured target
        window and statistics flag. An initialized pipeline reports success
        and changes nothing; a failed presenter shuts the capture down
        again. */
    method Initialize(config: PipelineConfig, co: Capture.InitOracle, po: Presenter.PresenterInitOracle) returns (ok: bool)
      requires Valid()
      modifies this, capture, presenter
      ensures Valid() && ok == initialized && running == old(running)
      ensures old(initialized) ==> ok && unchanged(this, capture, presenter)
      ensures !old(initialized) ==> this.config == config
      ensures !old(initialized) ==> (ok <==> co.deviceCreated && co.output.Some? && po.windowCreated && po.swapChainCreated && po.drawingCreated)
      ensures !old(initialized) && !(co.deviceCreated && co.output.Some?) ==> unchanged(presenter) && !capture.initialized
      ensures !old(initialized) && co.deviceCreated && co.output.Some? && !ok ==> !capture.initialized && !presenter.initialized
      ensures ok && !old(initialized) ==>
                && capture.initialized && presenter.initialized
                && presenter.width == capture.width && presenter.height == capture.height
                && presenter.showStats == config.showStats
                && presenter.targetWindow == if config.targetWindow != 0 then config.targetWindow else old(presenter.targetWindow)
      ensures stats == old(stats) && capturedFrames == old(capturedFrames) && presentedFrames == old(presentedFrames)
    {
      if initialized {
        return true;
      }
      this.config := config;
      var captured := capture.Initialize(0, 0, co);
      if !captured {
        return false;
      }
      var presenting := presenter.Initialize(capture.width, capture.height, po);
      if !presenting {
        capture.Shutdown();
        return false;
      }
      if config.targetWindow != 0 {
        presenter.SetTargetWindow(config.targetWindow);
      }
      presenter.SetShowStats(config.showStats);
      initialized := true;
      ok := true;
    }

    /** Stops the worker, then shuts the inference engine, the presenter and
        the capture down. */
    method Shutdown()
      requires Valid()
      modifies this, capture, inference, presenter
      ensures Valid() && !initialized && !running
      ensures !capture.initialized && !inference.initialized && !presenter.initialized
      ensures old(running) ==> presenter.visible == (old(presenter.visible) && !old(presenter.hasWindow))
      ensures !old(running) ==> presenter.visible == old(presenter.visible)
      ensures presenter.showStats == old(presenter.showStats) && presenter.targetWindow == old(presenter.targetWindow)
      ensures presenter.presentCount == old(presenter.presentCount) && presenter.backBuffer == old(presenter.backBuffer)
      ensures presenter.width == old(presenter.width) && presenter.height == old(presenter.height)
      ensures presenter.lastBaseFps == old(presenter.lastBaseFps) && presenter.lastVisualFps == old(presenter.lastVisualFps)
      ensures presenter.lastLatencyMs == old(presenter.lastLatencyMs)
      ensures config == old(config) && stats == old(stats)
      ensures capturedFrames == old(capturedFrames) && presentedFrames == old(presentedFrames)
    {
      Stop();
      inference.Shutdown();
      presenter.Shutdown();
      capture.Shutdown();
      initialized := false;
    }

    /** Starts the worker on an initialized, stopped pipeline: the counters
        and the statistics are reset and the overlay is shown. */
    method Start() returns (ok: bool)
      requires Valid()
      modifies this, presenter
      ensures Valid()
      ensures ok <==> old(initialized && !running)
      ensures !ok ==> unchanged(this, presenter)
      ensures ok ==> running && capturedFrames == 0 && presentedFrames == 0 && stats == ZeroStats
      ensures ok ==> presenter.visible == (old(presenter.visible) || presenter.hasWindow)
      ensures initialized == old(initialized) && config == old(config)
      ensures presenter.initialized == old(presenter.initialized) && presenter.hasWindow == old(presenter.hasWindow)
      ensures presenter.hasSwapChain == old(presenter.hasSwapChain) && presenter.hasDrawing == old(presenter.hasDrawing)
      ensures presenter.showStats == old(presenter.showStats) && presenter.targetWindow == old(presenter.targetWindow)
      ensures presenter.presentCount == old(presenter.presentCount) && presenter.backBuffer == old(presenter.backBuffer)
      ensures presenter.width == old(presenter.width) && presenter.height == old(presenter.height)
      ensures presenter.lastBaseFps == old(presenter.lastBaseFps) && presenter.lastVisualFps == old(presenter.lastVisualFps)
      ensures presenter.lastLatencyMs == old(presenter.lastLatencyMs)
    {
      if !initialized || running {
        return false;
      }
      running := true;
      capturedFrames, presentedFrames := 0, 0;
      stats := ZeroStats;
      presenter.Show();
      ok := true;
    }

    /** Stops a running worker (joining its thread) and hides the overlay;
        a stopped pipeline is left as it is. */
    method Stop()
      requires Valid()
      modifies this, presenter
      ensures Valid() && !running
      ensures !old(running) ==> unchanged(this, presenter)
      ensures old(running) ==> presenter.visible == (old(presenter.visible) && !presenter.hasWindow)
      ensures initialized == old(initialized) && config == old(config) && stats == old(stats)
      ensures capturedFrames == old(capturedFrames) && presentedFrames == old(presentedFrames)
      ensures presenter.initialized == old(presenter.initialized) && presenter.hasWindow == old(presenter.hasWindow)
      ensures presenter.hasSwapChain == old(presenter.hasSwapChain) && presenter.hasDrawing == old(presenter.hasDrawing)
      ensures presenter.showStats == old(presenter.showStats) && presenter.targetWindow == old(presenter.targetWindow)
      ensures presenter.presentCount == old(presenter.presentCount) && presenter.backBuffer == old(presenter.backBuffer)
      ensures presenter.width == old(presenter.width) && presenter.height == old(presenter.height)
      ensures presenter.lastBaseFps == old(presenter.lastBaseFps) && presenter.lastVisualFps == old(presenter.lastVisualFps)
      ensures presenter.lastLatencyMs == old(presenter.lastLatencyMs)
    {
      if !running {
        return;
      }
      running := false;
      presenter.Hide();
    }

    method SetTargetWindow(target: Presenter.WindowHandle)
      requires Valid()
      modifies this, presenter
      ensures Valid() && config == old(config).(targetWindow := target) && presenter.targetWindow == target
      ensures initialized == old(initialized) && running == old(running) && stats == old(stats)
      ensures capturedFrames == old(capturedFrames) && presentedFrames == old(presentedFrames)
      ensures presenter.initialized == old(presenter.initialized) && presenter.visible == old(presenter.visible)
      ensures presenter.showStats == old(presenter.showStats) && presenter.presentCount == old(presenter.presentCount)
      ensures presenter.backBuffer == old(presenter.backBuffer) && presenter.width == old(presenter.width) && presenter.height == old(presenter.height)
      ensures presenter.lastBaseFps == old(presenter.lastBaseFps) && presenter.lastVisualFps == old(presenter.lastVisualFps)
      ensures presenter.lastLatencyMs == old(presenter.lastLatencyMs)
      ensures presenter.hasWindow == old(presenter.hasWindow) && presenter.hasSwapChain == old(presenter.hasSwapChain)
      ensures presenter.hasDrawing == old(presenter.hasDrawing)
    {
      config := config.(targetWindow := target);
      presenter.SetTargetWindow(target);
    }

    method SetShowStats(show: bool)
      requires Valid()
      modifies this, presenter
      ensures Valid() && config == old(config).(showStats := show) && presenter.showStats == show
      ensures initialized == old(initialized) && running == old(running) && stats == old(stats)
      ensures capturedFrames == old(capturedFrames) && presentedFrames == old(presentedFrames)
      ensures presenter.initialized == old(presenter.initialized) && presenter.visible == old(presenter.visible)
      ensures presenter.targetWindow == old(presenter.targetWindow) && presenter.presentCount == old(presenter.presentCount)
      ensures presenter.backBuffer == old(presenter.backBuffer) && presenter.width == old(presenter.width) && presenter.height == old(presenter.height)
      ensures presenter.lastBaseFps == old(presenter.lastBaseFps) && presenter.lastVisualFps == old(presenter.lastVisualFps)
      ensures presenter.lastLatencyMs == old(presenter.lastLatencyMs)
      ensures presenter.hasWindow == old(presenter.hasWindow) && presenter.hasSwapChain == old(presenter.hasSwapChain)
      ensures presenter.hasDrawing == old(presenter.hasDrawing)
    {
      config := config.(showStats := show);
      presenter.SetShowStats(show);
    }

    /** Records a new mode and model path in the configuration only; the
        inference engine is not touched, and the call always succeeds. */
    method SetMode(mode: Inference.InterpolationMode, modelPath: string) returns (ok: bool)
      requires Valid()
      modifies this
      ensures Valid()
      ensures ok && config == old(config).(mode := mode, modelPath := modelPath)
      ensures initialized == old(initialized) && running == old(running) && stats == old(stats)
      ensures capturedFrames == old(capturedFrames) && presentedFrames == old(presentedFrames)
    {
      config := config.(mode := mode, modelPath := modelPath);
      ok := true;
    }

    /** The worker loop, started at clock reading `start`: one pass per tick
        while the observed running flag holds. `results` are the capture
        results of the passes made. Each pass acquires a frame with a 16 ms
        timeout and, on success, draws the statistics, presents the frame
        and releases it; the frame-rate window then advances. The captured
        frame counter is never incremented. */
    method WorkerLoop(start: real, ticks: seq<Tick>) returns (results: seq<Capture.CaptureResult>)
      requires Valid()
      requires exists k | 0 <= k < |ticks| :: !ticks[k].running
      modifies this, capture, presenter
      ensures Valid()
      ensures |results| < |ticks| && !ticks[|results|].running
      ensures forall i | 0 <= i < |results| :: ticks[i].running
      ensures forall i | 0 <= i < |results| :: results[i] != Capture.Uninitialized ==> results[i] == Capture.AcquireOutcome(ticks[i].acquire)
      ensures presentedFrames == old(presentedFrames) + Successes(results)
      ensures capturedFrames == old(capturedFrames)
      ensures presenter.presentCount == old(presenter.presentCount) + Successes(results)
      ensures capture.calls == old(capture.calls) + LoopCalls(old(capture.frameAcquired), results, ticks)
      ensures |results| > 0 ==> !capture.frameAcquired
      ensures stats == Windows(FpsWindow(start, 0, 0), old(stats), results, ticks).1
      ensures old(stats.presentFps <= stats.captureFps) ==> stats.presentFps <= stats.captureFps
      ensures initialized == old(initialized) && running == old(running) && config == old(config)
    {
      var window := FpsWindow(start, 0, 0);
      ghost var s0, held0, calls0, count0 := stats, capture.frameAcquired, capture.calls, presenter.presentCount;
      ghost var presented0 := presentedFrames;
      ghost var stop :| 0 <= stop < |ticks| && !ticks[stop].running;
      results := [];
      while ticks[|results|].running
        invariant |results| <= stop
        invariant forall j | 0 <= j < |results| :: ticks[j].running
        invariant unchanged(inference) && inference.Valid()
        invariant Core()
        invariant Outcomes(results, ticks)
        invariant Progress(FpsWindow(start, 0, 0), s0, held0, calls0, count0, presented0, window, results, ticks)
        invariant capturedFrames == old(capturedFrames)
        invariant initialized == old(initialized) && running == old(running) && config == old(config)
        decreases stop - |results|
      {
        var r;
        r, window := WorkerStep(window, ticks, results, start, s0, held0, calls0, count0, presented0);
        results := results + [r];
      }
      OutcomesPointwise(results, ticks);
      if s0.presentFps <= s0.captureFps {
        WindowsOrdered(FpsWindow(start, 0, 0), s0, results, ticks);
      }
    }

    /** After the worker passes whose results are `results`, begun on the
        window `w0` with statistics `s0`, `held` telling whether a frame was
        held, a call log `calls0`, a present count `count0` and a presented
        frame counter `presented0`: every fold over the passes matches the
        state, and a frame is held only if it was and no pass was made. */
    ghost predicate Progress(w0: FpsWindow, s0: PipelineStats, held: bool, calls0: seq<Capture.DuplicationCall>,
                             count0: nat, presented0: nat, window: FpsWindow,
                             results: seq<Capture.CaptureResult>, ticks: seq<Tick>)
      reads this, capture, presenter
    {
      && |results| <= |ticks|
      && (window, stats) == Windows(w0, s0, results, ticks)
      && presentedFrames == presented0 + Successes(results)
      && presenter.presentCount == count0 + Successes(results)
      && capture.calls == calls0 + LoopCalls(held, results, ticks)
      && capture.frameAcquired == (held && |results| == 0)
    }

    /** The pass of the worker loop after the passes whose results are
        `results`: it extends every fold over the passes by one step. */
    method WorkerStep(window: FpsWindow, ticks: seq<Tick>, results: seq<Capture.CaptureResult>, ghost start: real,
                      ghost s0: PipelineStats, ghost held0: bool, ghost calls0: seq<Capture.DuplicationCall>,
                      ghost count0: nat, ghost presented0: nat)
      returns (r: Capture.CaptureResult, window': FpsWindow)
      requires Core() && |results| < |ticks|
      requires Outcomes(results, ticks)
      requires Progress(FpsWindow(start, 0, 0), s0, held0, calls0, count0, presented0, window, results, ticks)
      modifies this, capture, presenter
      ensures Core()
      ensures Outcomes(results + [r], ticks)
      ensures Progress(FpsWindow(start, 0, 0), s0, held0, calls0, count0, presented0, window', results + [r], ticks)
      ensures capturedFrames == old(capturedFrames)
      ensures initialized == old(initialized) && running == old(running) && config == old(config)
    {
      ghost var before, callsBefore := (window, stats), capture.calls;
      r, window' := WorkerPass(window, ticks[|results|]);
      FoldsExtend(FpsWindow(start, 0, 0), s0, held0, calls0, results, r, ticks, before, callsBefore, (window', stats), capture.calls);
      OutcomesExtend(results, r, ticks);
    }

    /** One pass of the worker loop on the window `w`. */
    method WorkerPass(w: FpsWindow, tick: Tick) returns (r: Capture.CaptureResult, w': FpsWindow)
      requires Core()
      modifies this, capture, presenter
      ensures Core()
      ensures r != Capture.Uninitialized ==> r == Capture.AcquireOutcome(tick.acquire)
      ensures (w', stats) == WindowStep(w, old(stats), r == Capture.Success, r == Capture.Success, tick.now)
      ensures presentedFrames == old(presentedFrames) + (if r == Capture.Success then 1 else 0)
      ensures r == Capture.Uninitialized <==> !old(capture.initialized && capture.hasDuplication)
      ensures capture.calls == old(capture.calls) + PassCalls(old(capture.frameAcquired), r, tick)
      ensures !capture.frameAcquired
      ensures presenter.presentCount == old(presenter.presentCount) + (if r == Capture.Success then 1 else 0)
      ensures r == Capture.Success ==> presenter.visible && presenter.backBuffer == Texture(tick.acquire.desktop.image)
      ensures r == Capture.Success && presenter.showStats ==>
                && presenter.lastBaseFps == TruncateToInt(old(stats.captureFps))
                && presenter.lastVisualFps == TruncateToInt(old(stats.presentFps))
                && presenter.lastLatencyMs == old(stats.inferenceTimeMs)
      ensures r != Capture.Success ==> unchanged(presenter)
      ensures capturedFrames == old(capturedFrames)
      ensures initialized == old(initialized) && running == old(running) && config == old(config)
    {
      var frame;
      r, frame := capture.AcquireFrame(Capture.EmptyFrame, 16, tick.acquire);
      var captured := r == Capture.Success;
      var presented := false;
      if captured {
        if frame.texture.Texture? {
          var baseFps := TruncateToInt(stats.captureFps);
          var visualFps := TruncateToInt(stats.presentFps);
          var latency := stats.inferenceTimeMs;
          presenter.DrawStats(baseFps, visualFps, latency);
          presenter.PresentFrame(frame.texture);
          presented := true;
          presentedFrames := presentedFrames + 1;
        }
        capture.ReleaseFrame();
      }
      w', stats := WindowStep(w, stats, captured, presented, tick.now).0, WindowStep(w, stats, captured, presented, tick.now).1;
    }
  }
}
