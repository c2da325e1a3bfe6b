/** The overlay presenter (`FramePresenter`), kept to the state the frame
    pipeline drives: whether it is initialized, whether its overlay window,
    swap chain and Direct2D target exist, whether the overlay is visible,
    the statistics it last drew and the frames it presented. The window,
    swap-chain and drawing calls themselves are replaced by oracle values
    or left out. */
module Presenter {
  import opened Native

  /** A window handle (`HWND`); 0 is null. */
  type WindowHandle = int

  /** What creating the overlay window, the swap chain (with its back
      buffer and render target) and the Direct2D resources returns during
      `Initialize`. */
  datatype PresenterInitOracle = PresenterInitOracle(windowCreated: bool, swapChainCreated: bool, drawingCreated: bool)

  class FramePresenter {
    var initialized: bool
    /** `overlayWindow_`, `swapChain_` and `d2dTarget_` are not null. */
    var hasWindow: bool
    var hasSwapChain: bool
    var hasDrawing: bool
    var visible: bool
    var showStats: bool
    var targetWindow: WindowHandle
    var width: u32
    var height: u32
    var lastBaseFps: int
    var lastVisualFps: int
    var lastLatencyMs: real
    /** The frame last copied into the back buffer. */
    var backBuffer: Texture
    /** The number of frames presented (the `presentCount` counter). */
    var presentCount: nat

    /** Holds in every reachable state: an initialized presenter has all of
        its resources. */
    ghost predicate Valid()
      reads this
    {
      initialized ==> hasWindow && hasSwapChain && hasDrawing
    }

    constructor ()
      ensures Valid() && !initialized && !hasWindow && !hasSwapChain && !hasDrawing
      ensures !visible && showStats && targetWindow == 0 && presentCount == 0
    {
      initialized, hasWindow, hasSwapChain, hasDrawing := false, false, false, false;
      visible, showStats, targetWindow := false, true, 0;
      width, height := 0, 0;
      lastBaseFps, lastVisualFps, lastLatencyMs := 0, 0, 0.0;
      backBuffer, presentCount := NullTexture, 0;
    }

    /** Creates the overlay window and the rendering resources for a
        `width` by `height` frame. An initialized presenter reports success
        and changes nothing; a failed swap chain or drawing setup shuts the
        presenter down again. */
    method Initialize(width: u32, height: u32, o: PresenterInitOracle) returns (ok: bool)
      requires Valid()
      modifies this
      ensures Valid() && ok == initialized
      ensures old(initialized) ==> unchanged(this)
      ensures !old(initialized) ==> this.width == width && this.height == height
      ensures !old(initialized) ==> (ok <==> o.windowCreated && o.swapChainCreated && o.drawingCreated)
      ensures !old(initialized) && !o.windowCreated ==> hasWindow == old(hasWindow) && hasSwapChain == old(hasSwapChain)
      ensures !old(initialized) && o.windowCreated && !ok ==> !hasWindow && !hasSwapChain && !hasDrawing
      ensures visible == old(visible) && showStats == old(showStats) && targetWindow == old(targetWindow)
      ensures presentCount == old(presentCount) && backBuffer == old(backBuffer)
      ensures lastBaseFps == old(lastBaseFps) && lastVisualFps == old(lastVisualFps) && lastLatencyMs == old(lastLatencyMs)
    {
      if initialized {
        return true;
      }
      this.width, this.height := width, height;
      if !o.windowCreated {
        return false;
      }
      hasWindow := true;
      if !o.swapChainCreated {
        Shutdown();
        return false;
      }
      hasSwapChain := true;
      if !o.drawingCreated {
        Shutdown();
        return false;
      }
      hasDrawing := true;
      initialized := true;
      ok := true;
    }

    /** Destroys the overlay window and releases every resource. The
        visibility flag is kept. */
    method Shutdown()
      modifies this
      ensures Valid() && !initialized && !hasWindow && !hasSwapChain && !hasDrawing
      ensures visible == old(visible) && showStats == old(showStats) && targetWindow == old(targetWindow)
      ensures width == old(width) && height == old(height)
      ensures presentCount == old(presentCount) && backBuffer == old(backBuffer)
      ensures lastBaseFps == old(lastBaseFps) && lastVisualFps == old(lastVisualFps) && lastLatencyMs == old(lastLatencyMs)
    {
      hasWindow, hasSwapChain, hasDrawing := false, false, false;
      initialized := false;
    }

    /** Follows `target` with the overlay (the repositioning is not
        modelled). */
    method SetTargetWindow(target: WindowHandle)
      modifies this
      ensures targetWindow == target
      ensures initialized == old(initialized) && hasWindow == old(hasWindow) && hasSwapChain == old(hasSwapChain)
      ensures hasDrawing == old(hasDrawing) && visible == old(visible) && showStats == old(showStats)
      ensures width == old(width) && height == old(height)
      ensures presentCount == old(presentCount) && backBuffer == old(backBuffer)
      ensures lastBaseFps == old(lastBaseFps) && lastVisualFps == old(lastVisualFps) && lastLatencyMs == old(lastLatencyMs)
    {
      targetWindow := target;
    }

    method SetShowStats(show: bool)
      modifies this
      ensures showStats == show
      ensures initialized == old(initialized) && hasWindow == old(hasWindow) && hasSwapChain == old(hasSwapChain)
      ensures hasDrawing == old(hasDrawing) && visible == old(visible) && targetWindow == old(targetWindow)
      ensures width == old(width) && height == old(height)
      ensures presentCount == old(presentCount) && backBuffer == old(backBuffer)
      ensures lastBaseFps == old(lastBaseFps) && lastVisualFps == old(lastVisualFps) && lastLatencyMs == old(lastLatencyMs)
    {
      showStats := show;
    }

    /** Shows the overlay if it exists. */
    method Show()
      modifies this
      ensures visible == (old(visible) || hasWindow)
      ensures initialized == old(initialized) && hasWindow == old(hasWindow) && hasSwapChain == old(hasSwapChain)
      ensures hasDrawing == old(hasDrawing) && showStats == old(showStats) && targetWindow == old(targetWindow)
      ensures width == old(width) && height == old(height)
      ensures presentCount == old(presentCount) && backBuffer == old(backBuffer)
      ensures lastBaseFps == old(lastBaseFps) && lastVisualFps == old(lastVisualFps) && lastLatencyMs == old(lastLatencyMs)
    {
      if hasWindow && !visible {
        visible := true;
      }
    }

    /** Hides the overlay if it exists. */
    method Hide()
      modifies this
      ensures visible == (old(visible) && !hasWindow)
      ensures initialized == old(initialized) && hasWindow == old(hasWindow) && hasSwapChain == old(hasSwapChain)
      ensures hasDrawing == old(hasDrawing) && showStats == old(showStats) && targetWindow == old(targetWindow)
      ensures width == old(width) && height == old(height)
      ensures presentCount == old(presentCount) && backBuffer == old(backBuffer)
      ensures lastBaseFps == old(lastBaseFps) && lastVisualFps == old(lastVisualFps) && lastLatencyMs == old(lastLatencyMs)
    {
      if hasWindow && visible {
        visible := false;
      }
    }

    /** Draws the statistics overlay (only when statistics are shown and
        the Direct2D target exists) and remembers what it drew. */
    method DrawStats(baseFps: int, visualFps: int, latencyMs: real)
      modifies this
      ensures showStats && hasDrawing ==> lastBaseFps == baseFps && lastVisualFps == visualFps && lastLatencyMs == latencyMs
      ensures !(showStats && hasDrawing) ==> unchanged(this)
      ensures initialized == old(initialized) && hasWindow == old(hasWindow) && hasSwapChain == old(hasSwapChain)
      ensures hasDrawing == old(hasDrawing) && visible == old(visible) && showStats == old(showStats)
      ensures targetWindow == old(targetWindow) && width == old(width) && height == old(height)
      ensures presentCount == old(presentCount) && backBuffer == old(backBuffer)
    {
      if !showStats || !hasDrawing {
        return;
      }
      lastBaseFps, lastVisualFps, lastLatencyMs := baseFps, visualFps, latencyMs;
    }

    /** Presents `frame`: ignored unless the presenter is initialized, has a
        swap chain and the frame is not null; otherwise the overlay is shown,
        the frame copied into the back buffer and presented. */
    method PresentFrame(frame: Texture)
      requires Valid()
      modifies this
      ensures Valid()
      ensures !(initialized && hasSwapChain && frame.Texture?) ==> unchanged(this)
      ensures initialized && hasSwapChain && frame.Texture? ==>
                visible && backBuffer == frame && presentCount == old(presentCount) + 1
      ensures initialized == old(initialized) && hasWindow == old(hasWindow) && hasSwapChain == old(hasSwapChain)
      ensures hasDrawing == old(hasDrawing) && showStats == old(showStats) && targetWindow == old(targetWindow)
      ensures width == old(width) && height == old(height)
      ensures lastBaseFps == old(lastBaseFps) && lastVisualFps == old(lastVisualFps) && lastLatencyMs == old(lastLatencyMs)
    {
      if !initialized || !hasSwapChain || frame.NullTexture? {
        return;
      }
      if !visible {
        Show();
      }
      backBuffer := frame;
      if showStats && hasDrawing {
        DrawStats(lastBaseFps, lastVisualFps, lastLatencyMs);
      }
      presentCount := presentCount + 1;
    }
  }
}
