/** Desktop-duplication capture (`DxgiCapture`): binds to one display
    output, hands out one copied frame per `AcquireFrame`, and recovers once
    from a lost duplication. The native DXGI/D3D11 calls are replaced by
    oracle values that say what each call returned; the handles are
    modelled by whether they are held. A ghost log records, in order, the
    calls made on the duplication interface. */
module Capture {
  import opened Native

  /** `CaptureResult` */
  datatype CaptureResult = Success | Timeout | AccessLost | DeviceLost | InvalidCall | Uninitialized

  /** The HRESULTs of `IDXGIOutputDuplication::AcquireNextFrame` that the
      capture code tells apart. */
  datatype HResult = Ok | WaitTimeout | AccessLostError | DeviceRemoved | DeviceReset | OtherFailure

  predicate Failed(hr: HResult)
  {
    !hr.Ok?
  }

  /** `CapturedFrame` */
  datatype CapturedFrame = CapturedFrame(
    texture: Texture,
    width: u32,
    height: u32,
    timestampQpc: i64,
    cursorVisible: bool,
    cursorX: i32,
    cursorY: i32)

  /** A value-initialized `CapturedFrame{}`. */
  const EmptyFrame: CapturedFrame := CapturedFrame(NullTexture, 0, 0, 0, false, 0, 0)

  /** The parts of `DXGI_OUTDUPL_FRAME_INFO` that are copied into a frame. */
  datatype FrameInfo = FrameInfo(lastPresentTime: i64, pointerVisible: bool, pointerX: i32, pointerY: i32)

  /** The acquired desktop texture: its pixels and its descriptor's size. */
  datatype DesktopTexture = DesktopTexture(image: Image, width: u32, height: u32)

  /** What the native calls of one `AcquireFrame` return. */
  datatype AcquireOracle = AcquireOracle(
    first: HResult,        // the first AcquireNextFrame
    reduplicated: bool,    // DuplicateOutput while recovering from access loss
    retry: HResult,        // the single retried AcquireNextFrame
    isTexture: bool,       // the acquired resource converts to ID3D11Texture2D
    copyCreated: bool,     // CreateTexture2D of the destination copy
    info: FrameInfo,
    desktop: DesktopTexture)

  /** `DXGI_OUTPUT_DESC::DesktopCoordinates` */
  datatype Rect = Rect(left: i32, top: i32, right: i32, bottom: i32)

  /** What the native calls of one `Initialize` return. `output` is the
      desktop rectangle when output enumeration, the `IDXGIOutput1` cast,
      `GetDesc` and `DuplicateOutput` all succeed, and None when any of them
      fails (each such failure ends in `Shutdown`, so they leave the same
      state). `deviceCreated` covers factory, adapter and device creation,
      whose failures likewise leave the same state. */
  datatype InitOracle = InitOracle(deviceCreated: bool, output: Option<Rect>)

  /** Calls on the duplication interface, as the ghost log records them. */
  datatype DuplicationCall = Acquire(timeoutMs: u32) | Release | Recreate

  /** A frame was obtained, on the first attempt or on the one retry. */
  predicate Acquired(o: AcquireOracle)
  {
    o.first == Ok || (o.first == AccessLostError && o.reduplicated && o.retry == Ok)
  }

  /** The result `AcquireFrame` reports once the capture is initialized and
      holds a duplication. */
  function AcquireOutcome(o: AcquireOracle): (r: CaptureResult)
    ensures r != Uninitialized
    ensures r == Timeout <==> o.first == WaitTimeout || (o.first == AccessLostError && o.reduplicated && o.retry == WaitTimeout)
    ensures r == AccessLost <==> o.first == AccessLostError && (!o.reduplicated || o.retry !in {Ok, WaitTimeout})
    ensures r == DeviceLost <==> o.first in {DeviceRemoved, DeviceReset}
    ensures r == Success <==> Acquired(o) && o.isTexture && o.copyCreated
    ensures r == InvalidCall <==> o.first == OtherFailure || (Acquired(o) && !(o.isTexture && o.copyCreated))
  {
    if o.first == WaitTimeout then Timeout
    else if o.first == AccessLostError && !o.reduplicated then AccessLost
    else if o.first == AccessLostError && o.retry == WaitTimeout then Timeout
    else if o.first == AccessLostError && Failed(o.retry) then AccessLost
    else if o.first == DeviceRemoved || o.first == DeviceReset then DeviceLost
    else if Failed(o.first) && o.first != AccessLostError then InvalidCall
    else if !o.isTexture || !o.copyCreated then InvalidCall
    else Success
  }

  /** The frame a successful acquisition fills in. */
  function FrameOf(o: AcquireOracle): CapturedFrame
  {
    CapturedFrame(Texture(o.desktop.image), o.desktop.width, o.desktop.height,
                  o.info.lastPresentTime, o.info.pointerVisible, o.info.pointerX, o.info.pointerY)
  }

  /** The duplication calls one `AcquireFrame` makes, given whether a frame
      was still held when it started. */
  function AcquireCalls(held: bool, o: AcquireOracle, timeoutMs: u32): seq<DuplicationCall>
  {
    (if held then [Release] else [])
    + [Acquire(timeoutMs)]
    + (if o.first == AccessLostError then [Recreate] else [])
    + (if o.first == AccessLostError && o.reduplicated then [Acquire(timeoutMs)] else [])
    + (if Acquired(o) && !(o.isTexture && o.copyCreated) then [Release] else [])
  }

  function Occurrences(calls: seq<DuplicationCall>, c: DuplicationCall): nat
  {
    if calls == [] then 0 else (if calls[0] == c then 1 else 0) + Occurrences(calls[1..], c)
  }

  lemma {:induction false} OccurrencesAppend(a: seq<DuplicationCall>, b: seq<DuplicationCall>, c: DuplicationCall)
    ensures Occurrences(a + b, c) == Occurrences(a, c) + Occurrences(b, c)
  {
    if a == [] {
      assert a + b == b;
    } else {
      assert (a + b)[1..] == a[1..] + b;
      OccurrencesAppend(a[1..], b, c);
    }
  }

  lemma OccurrencesOfShort(s: seq<DuplicationCall>, c: DuplicationCall)
    requires |s| <= 1
    ensures Occurrences(s, c) == if s != [] && s[0] == c then 1 else 0
  {
    if s != [] {
      assert s[1..] == [];
    }
  }

  /** One `AcquireFrame` releases a still-held frame before anything else,
      attempts at most two acquisitions, re-creates the duplication exactly
      once on access loss and never otherwise, and releases again only when
      a frame was acquired but could not be copied. */
  lemma {:induction false} AcquireCallsShape(held: bool, o: AcquireOracle, t: u32)
    ensures held ==> AcquireCalls(held, o, t)[0] == Release
    ensures !held ==> AcquireCalls(held, o, t)[0] == Acquire(t)
    ensures Occurrences(AcquireCalls(held, o, t), Recreate) == if o.first == AccessLostError then 1 else 0
    ensures Occurrences(AcquireCalls(held, o, t), Acquire(t)) == if o.first == AccessLostError && o.reduplicated then 2 else 1
    ensures Occurrences(AcquireCalls(held, o, t), Release)
         == (if held then 1 else 0) + (if Acquired(o) && !(o.isTexture && o.copyCreated) then 1 else 0)
  {
    var p0: seq<DuplicationCall> := if held then [Release] else [];
    var p1: seq<DuplicationCall> := [Acquire(t)];
    var p2: seq<DuplicationCall> := if o.first == AccessLostError then [Recreate] else [];
    var p3: seq<DuplicationCall> := if o.first == AccessLostError && o.reduplicated then [Acquire(t)] else [];
    var p4: seq<DuplicationCall> := if Acquired(o) && !(o.isTexture && o.copyCreated) then [Release] else [];
    assert AcquireCalls(held, o, t) == p0 + p1 + p2 + p3 + p4;
    forall c: DuplicationCall
      ensures Occurrences(AcquireCalls(held, o, t), c)
           == Occurrences(p0, c) + Occurrences(p1, c) + Occurrences(p2, c) + Occurrences(p3, c) + Occurrences(p4, c)
    {
      OccurrencesAppend(p0 + p1 + p2 + p3, p4, c);
      OccurrencesAppend(p0 + p1 + p2, p3, c);
      OccurrencesAppend(p0 + p1, p2, c);
      OccurrencesAppend(p0, p1, c);
    }
    forall c: DuplicationCall
      ensures Occurrences(p0, c) == (if held && c == Release then 1 else 0)
      ensures Occurrences(p1, c) == (if c == Acquire(t) then 1 else 0)
      ensures Occurrences(p2, c) == (if o.first == AccessLostError && c == Recreate then 1 else 0)
      ensures Occurrences(p3, c) == (if o.first == AccessLostError && o.reduplicated && c == Acquire(t) then 1 else 0)
      ensures Occurrences(p4, c) == (if Acquired(o) && !(o.isTexture && o.copyCreated) && c == Release then 1 else 0)
    {
      OccurrencesOfShort(p0, c);
      OccurrencesOfShort(p1, c);
      OccurrencesOfShort(p2, c);
      OccurrencesOfShort(p3, c);
      OccurrencesOfShort(p4, c);
    }
  }

  class DxgiCapture {
    /** `device_` and `context_`, which are always created and released together. */
    var hasDevice: bool
    /** `output_` */
    var hasOutput: bool
    /** `duplication_` */
    var hasDuplication: bool
    var width: u32
    var height: u32
    var outputIndex: u32
    var initialized: bool
    var frameAcquired: bool
    ghost var calls: seq<DuplicationCall>

    /** Holds in every reachable state. */
    ghost predicate Valid()
      reads this
    {
      && (!initialized ==> !hasDevice && !hasOutput && !hasDuplication && width == 0 && height == 0)
      && (initialized ==> hasDevice && hasOutput)
      && (frameAcquired ==> hasDuplication)
    }

    constructor ()
      ensures Valid() && !initialized && !frameAcquired && outputIndex == 0 && calls == []
    {
      hasDevice, hasOutput, hasDuplication := false, false, false;
      width, height, outputIndex := 0, 0, 0;
      initialized, frameAcquired := false, false;
      calls := [];
    }

    /** The move constructor: takes every handle and field of `other` and
        leaves it empty. */
    constructor MoveFrom(other: DxgiCapture)
      requires other.Valid()
      modifies other
      ensures Valid() && other.Valid() && calls == []
      ensures hasDevice == old(other.hasDevice) && hasOutput == old(other.hasOutput) && hasDuplication == old(other.hasDuplication)
      ensures width == old(other.width) && height == old(other.height) && outputIndex == old(other.outputIndex)
      ensures initialized == old(other.initialized) && frameAcquired == old(other.frameAcquired)
      ensures !other.hasDevice && !other.hasOutput && !other.hasDuplication
      ensures other.width == 0 && other.height == 0 && other.outputIndex == 0
      ensures !other.initialized && !other.frameAcquired && other.calls == old(other.calls)
    {
      hasDevice, hasOutput, hasDuplication := other.hasDevice, other.hasOutput, other.hasDuplication;
      width, height, outputIndex := other.width, other.height, other.outputIndex;
      initialized, frameAcquired := other.initialized, other.frameAcquired;
      calls := [];
      new;
      other.hasDevice, other.hasOutput, other.hasDuplication := false, false, false;
      other.width, other.height, other.outputIndex := 0, 0, 0;
      other.initialized, other.frameAcquired := false, false;
    }

    /** Move assignment: a no-op on itself; otherwise shuts this capture
        down, takes everything from `other` and leaves `other` empty. */
    method MoveAssign(other: DxgiCapture)
      requires Valid() && other.Valid()
      modifies this, other
      ensures Valid() && other.Valid()
      ensures other == this ==> unchanged(this)
      ensures other != this ==> calls == old(calls) + (if old(frameAcquired) then [Release] else [])
      ensures other != this ==> hasDevice == old(other.hasDevice) && hasOutput == old(other.hasOutput) && hasDuplication == old(other.hasDuplication)
      ensures other != this ==> width == old(other.width) && height == old(other.height) && outputIndex == old(other.outputIndex)
      ensures other != this ==> initialized == old(other.initialized) && frameAcquired == old(other.frameAcquired)
      ensures other != this ==> !other.hasDevice && !other.hasOutput && !other.hasDuplication
      ensures other != this ==> other.width == 0 && other.height == 0 && other.outputIndex == 0
      ensures other != this ==> !other.initialized && !other.frameAcquired && other.calls == old(other.calls)
    {
      if this != other {
        Shutdown();
        hasDevice, hasOutput, hasDuplication := other.hasDevice, other.hasOutput, other.hasDuplication;
        width, height, outputIndex := other.width, other.height, other.outputIndex;
        initialized, frameAcquired := other.initialized, other.frameAcquired;
        other.hasDevice, other.hasOutput, other.hasDuplication := false, false, false;
        other.width, other.height, other.outputIndex := 0, 0, 0;
        other.initialized, other.frameAcquired := false, false;
      }
    }

    /** Binds to one display output. An initialized capture is shut down
        first; it is initialized again only if both the device and the
        duplication are created. */
    method Initialize(adapterIndex: u32, outputIndex: u32, o: InitOracle) returns (ok: bool)
      requires Valid()
      modifies this
      ensures Valid() && this.outputIndex == outputIndex && !frameAcquired
      ensures calls == old(calls) + (if old(frameAcquired) then [Release] else [])
      ensures ok <==> o.deviceCreated && o.output.Some?
      ensures initialized == ok
      ensures ok ==> hasDuplication
      ensures ok ==> width == Wrap32(o.output.value.right - o.output.value.left)
      ensures ok ==> height == Wrap32(o.output.value.bottom - o.output.value.top)
    {
      if initialized {
        Shutdown();
      }
      this.outputIndex := outputIndex;
      if !o.deviceCreated {
        return false;
      }
      hasDevice := true;
      if o.output.None? {
        Shutdown();
        return false;
      }
      var desktop := o.output.value;
      hasOutput := true;
      width := Wrap32(desktop.right - desktop.left);
      height := Wrap32(desktop.bottom - desktop.top);
      hasDuplication := true;
      initialized := true;
      ok := true;
    }

    /** Releases a held frame and every handle, and zeroes the size. */
    method Shutdown()
      requires frameAcquired ==> hasDuplication
      modifies this
      ensures Valid() && !initialized && !frameAcquired && outputIndex == old(outputIndex)
      ensures calls == old(calls) + (if old(frameAcquired) then [Release] else [])
    {
      if frameAcquired && hasDuplication {
        calls := calls + [Release];
        frameAcquired := false;
      }
      hasDuplication, hasOutput, hasDevice := false, false, false;
      width, height := 0, 0;
      initialized := false;
    }

    /** Drops the duplication (releasing a held frame) and creates it again
        on the retained output and device; `reduplicated` is the outcome of
        `DuplicateOutput`. */
    method ReinitializeDuplication(reduplicated: bool) returns (ok: bool)
      requires Valid()
      modifies this
      ensures Valid() && !frameAcquired
      ensures ok <==> old(hasOutput && hasDevice) && reduplicated
      ensures hasDuplication == ok
      ensures calls == old(calls) + (if old(frameAcquired) then [Release] else [])
                                  + (if old(hasOutput && hasDevice) then [Recreate] else [])
      ensures initialized == old(initialized) && hasDevice == old(hasDevice) && hasOutput == old(hasOutput)
      ensures width == old(width) && height == old(height) && outputIndex == old(outputIndex)
    {
      if frameAcquired && hasDuplication {
        calls := calls + [Release];
        frameAcquired := false;
      }
      hasDuplication := false;
      if !hasOutput || !hasDevice {
        return false;
      }
      calls := calls + [Recreate];
      hasDuplication := reduplicated;
      ok := reduplicated;
    }

    /** Acquires the next desktop frame into a fresh copy. `frame` is the
        caller's frame before the call; `out` is that frame afterwards, which
        only a successful acquisition overwrites. */
    method AcquireFrame(frame: CapturedFrame, timeoutMs: u32, o: AcquireOracle) returns (r: CaptureResult, out: CapturedFrame)
      requires Valid()
      modifies this
      ensures Valid()
      ensures !old(initialized && hasDuplication) ==> r == Uninitialized && out == frame && unchanged(this)
      ensures old(initialized && hasDuplication) ==> r == AcquireOutcome(o)
      ensures old(initialized && hasDuplication) ==> calls == old(calls) + AcquireCalls(old(frameAcquired), o, timeoutMs)
      ensures old(initialized && hasDuplication) ==> hasDuplication == (o.first != AccessLostError || o.reduplicated)
      ensures frameAcquired <==> r == Success
      ensures out == if r == Success then FrameOf(o) else frame
      ensures initialized == old(initialized) && hasDevice == old(hasDevice) && hasOutput == old(hasOutput)
      ensures width == old(width) && height == old(height) && outputIndex == old(outputIndex)
    {
      out := frame;
      if !initialized || !hasDuplication {
        return Uninitialized, out;
      }
      ghost var held := frameAcquired;
      if frameAcquired {
        calls := calls + [Release];
        frameAcquired := false;
      }
      r, out := AcquireUnheld(frame, timeoutMs, o);
      assert AcquireCalls(held, o, timeoutMs) == (if held then [Release] else []) + AcquireCalls(false, o, timeoutMs);
    }

    /** `AcquireFrame` once no frame is held: the first attempt, the one
        recovery from access loss, and the copy. */
    method AcquireUnheld(frame: CapturedFrame, timeoutMs: u32, o: AcquireOracle) returns (r: CaptureResult, out: CapturedFrame)
      requires Valid() && initialized && hasDuplication && !frameAcquired
      modifies this
      ensures Valid()
      ensures r == AcquireOutcome(o)
      ensures calls == old(calls) + AcquireCalls(false, o, timeoutMs)
      ensures hasDuplication == (o.first != AccessLostError || o.reduplicated)
      ensures frameAcquired <==> r == Success
      ensures out == if r == Success then FrameOf(o) else frame
      ensures initialized == old(initialized) && hasDevice == old(hasDevice) && hasOutput == old(hasOutput)
      ensures width == old(width) && height == old(height) && outputIndex == old(outputIndex)
    {
      out := frame;
      calls := calls + [Acquire(timeoutMs)];
      var hr := o.first;
      if hr == WaitTimeout {
        return Timeout, out;
      }
      if hr == AccessLostError {
        var recovered := ReinitializeDuplication(o.reduplicated);
        if recovered {
          calls := calls + [Acquire(timeoutMs)];
          hr := o.retry;
          if hr == WaitTimeout {
            return Timeout, out;
          }
          if Failed(hr) {
            return AccessLost, out;
          }
        } else {
          return AccessLost, out;
        }
      }
      r, out := CopyAcquired(hr, frame, o);
    }

    /** The tail of `AcquireFrame` once `hr` is the HRESULT of the last
        acquisition attempt: a device loss or other failure is reported as
        such; an acquired frame is copied, or released if it cannot be. */
    method CopyAcquired(hr: HResult, frame: CapturedFrame, o: AcquireOracle) returns (r: CaptureResult, out: CapturedFrame)
      requires Valid() && hasDuplication && !frameAcquired
      modifies this
      ensures Valid() && hasDuplication
      ensures r == (if hr in {DeviceRemoved, DeviceReset} then DeviceLost
                    else if Failed(hr) || !o.isTexture || !o.copyCreated then InvalidCall
                    else Success)
      ensures calls == old(calls) + (if hr == Ok && !(o.isTexture && o.copyCreated) then [Release] else [])
      ensures frameAcquired <==> r == Success
      ensures out == if r == Success then FrameOf(o) else frame
      ensures initialized == old(initialized) && hasDevice == old(hasDevice) && hasOutput == old(hasOutput)
      ensures width == old(width) && height == old(height) && outputIndex == old(outputIndex)
    {
      out := frame;
      if hr == DeviceRemoved || hr == DeviceReset {
        return DeviceLost, out;
      }
      if Failed(hr) {
        return InvalidCall, out;
      }
      frameAcquired := true;
      if !o.isTexture || !o.copyCreated {
        calls := calls + [Release];
        frameAcquired := false;
        return InvalidCall, out;
      }
      out := FrameOf(o);
      r := Success;
    }

    /** Releases the held frame, if any; repeating it changes nothing. */
    method ReleaseFrame()
      requires Valid()
      modifies this
      ensures Valid() && !frameAcquired
      ensures calls == old(calls) + (if old(frameAcquired) then [Release] else [])
      ensures initialized == old(initialized) && hasDevice == old(hasDevice) && hasOutput == old(hasOutput)
      ensures hasDuplication == old(hasDuplication)
      ensures width == old(width) && height == old(height) && outputIndex == old(outputIndex)
    {
      if frameAcquired && hasDuplication {
        calls := calls + [Release];
        frameAcquired := false;
      }
    }
  }
}
