/** `VulkanSurface`: the per-surface swapchain state and its frame cycle
    (`render`, `recreate_swapchain`) together with its construction
    (`Vulkan::for_surface`). Every GPU call is replaced by its outcome,
    supplied by the caller; drawing is recorded as a trace of steps. */
module Presentation {
  import opened Common
  import opened FractionalScale
  import opened Geometry
  import opened DeviceSelection

  datatype ImageId = ImageId(id: nat)

  datatype Format = B8G8R8A8Unorm | OtherFormat(code: nat)

  /** What `previous_frame_end` can hold: `sync::now(device)` or the future
      of a flushed present. */
  datatype FrameFuture = Now | Flushed(id: nat)

  datatype Swapchain = Swapchain(extent: Dims, minImageCount: nat, imageFormat: Format, images: seq<ImageId>)

  /** `imageViews[i]` is the default view of image `imageViews[i]`. */
  datatype VulkanSurface = VulkanSurface(
    recreateSwapchain: bool,
    previousFrameEnd: Option<FrameFuture>,
    swapchain: Swapchain,
    imageViews: seq<ImageId>,
    selection: Selection)

  /** The errors `render` and `for_surface` report. `VulkanFailure` stands
      for every wrapped `VulkanError` / `Validated<VulkanError>`. */
  datatype SurfaceError = VulkanFailure | UnsupportedBGRA | SkiaCreationError | SkiaSurfaceError

  /** The physical size of `size` as a swapchain extent (`as u32` casts). */
  function ExtentFor(size: Size): Dims {
    Dims(SaturateU32(PhysicalSize(size).0), SaturateU32(PhysicalSize(size).1))
  }

  /** The outcome of `Swapchain::recreate` followed by building the views. */
  datatype RecreateOutcome =
    | Recreated(newImages: seq<ImageId>)
    | SwapchainRecreateFailed
    | ImageViewCreationFailed

  /** `VulkanSurface::recreate_swapchain`: on success the swapchain is
      rebuilt at the physical size with one view per new image and the flag
      is cleared; on failure the error is returned and nothing changes. */
  function RecreateSwapchain(s: VulkanSurface, size: Size, outcome: RecreateOutcome): (r: Result<VulkanSurface, SurfaceError>)
    ensures r.Ok? <==> outcome.Recreated?
    ensures r.Err? ==> r.error == VulkanFailure
    ensures r.Ok? ==>
              && r.value.swapchain.extent.width as nat == SaturateU32(PhysicalSize(size).0)
              && r.value.swapchain.extent.height as nat == SaturateU32(PhysicalSize(size).1)
              && r.value.swapchain.images == outcome.newImages
              && |r.value.imageViews| == |r.value.swapchain.images|
              && (forall i :: 0 <= i < |r.value.imageViews| ==> r.value.imageViews[i] == r.value.swapchain.images[i])
              && !r.value.recreateSwapchain
              && r.value.swapchain.minImageCount == s.swapchain.minImageCount
              && r.value.swapchain.imageFormat == s.swapchain.imageFormat
              && r.value.previousFrameEnd == s.previousFrameEnd
              && r.value.selection == s.selection
  {
    match outcome
    case SwapchainRecreateFailed => Err(VulkanFailure)
    case ImageViewCreationFailed => Err(VulkanFailure)
    case Recreated(images) =>
      var sc := s.swapchain.(extent := ExtentFor(size), images := images);
      Ok(s.(swapchain := sc, imageViews := images, recreateSwapchain := false))
  }

  /** `acquire_next_image`: an image index with the suboptimal bit, or an
      error. A validation error is unwrapped by `Validated::unwrap`, which
      panics; any other error is a `VulkanError`. */
  datatype AcquireOutcome =
    | Acquired(imageIndex: nat, suboptimal: bool)
    | AcquireOutOfDate
    | AcquireFailed
    | AcquireValidationFailed

  /** `then_signal_fence_and_flush` on the joined present future, with the
      same split between validation errors and `VulkanError`s. */
  datatype PresentOutcome =
    | PresentFlushed(future: nat)
    | PresentOutOfDate
    | PresentFailed
    | PresentValidationFailed

  /** The GPU's answers during one `render` call. `skiaSurface` says whether
      wrapping the acquired image in a Skia surface succeeded. */
  datatype FrameOutcomes = FrameOutcomes(
    recreate: RecreateOutcome,
    acquire: AcquireOutcome,
    skiaSurface: bool,
    present: PresentOutcome)

  datatype Colour = Colour(r: real, g: real, b: real, a: real)

  const OPAQUE_WHITE: Colour := Colour(1.0, 1.0, 1.0, 1.0)

  /** What a `render` call did, in order. */
  datatype Step =
    | RecreateStep
    | AcquireStep
    | ScaleCanvasStep(factor: ScaleFactor)
    | ClearCanvasStep(colour: Colour)
    | CallbackStep
    | PresentStep

  datatype RenderResult = Rendered | RenderFailed(error: SurfaceError) | RenderPanicked

  datatype RenderOutput = RenderOutput(surface: VulkanSurface, flags: FlagStore, result: RenderResult, trace: seq<Step>)

  /** `Size::scale_canvas`: a scale is applied only when one is set. */
  function ScaleCanvas(size: Size): (steps: seq<Step>)
    ensures size.scaleFactor.Some? ==> steps == [ScaleCanvasStep(size.scaleFactor.value)]
    ensures size.scaleFactor.None? ==> steps == []
  {
    match size.scaleFactor
    case Some(f) => [ScaleCanvasStep(f)]
    case None => []
  }

  /** The complete frame, in order. Every `render` call performs a prefix
      of it, stopping at the first failure. */
  function FrameSteps(size: Size): seq<Step> {
    [RecreateStep, AcquireStep] + ScaleCanvas(size) + [ClearCanvasStep(OPAQUE_WHITE), CallbackStep, PresentStep]
  }

  /** The callback ran at most once, and only right after the canvas was
      scaled (when a scale is set) and cleared to opaque white. */
  ghost predicate CallbackWellPrepared(trace: seq<Step>, size: Size) {
    && (forall k1, k2 :: 0 <= k1 < |trace| && 0 <= k2 < |trace| && trace[k1] == CallbackStep && trace[k2] == CallbackStep ==> k1 == k2)
    && (forall k :: 0 <= k < |trace| && trace[k] == CallbackStep ==>
          && k >= 1 + |ScaleCanvas(size)|
          && trace[k - 1] == ClearCanvasStep(OPAQUE_WHITE)
          && trace[k - 1 - |ScaleCanvas(size)| .. k - 1] == ScaleCanvas(size))
  }

  /** Any prefix of the frame runs the callback at most once, after the
      canvas has been prepared. */
  lemma FramePrefixIsWellPrepared(trace: seq<Step>, size: Size)
    requires trace <= FrameSteps(size)
    ensures CallbackWellPrepared(trace, size)
  {
    var full := FrameSteps(size);
    var m := |ScaleCanvas(size)|;
    assert |full| == m + 5;
    assert forall k :: 0 <= k < |full| && full[k] == CallbackStep ==> k == m + 3 by {
      forall k | 0 <= k < |full| && full[k] == CallbackStep
        ensures k == m + 3
      {
        if 2 + m <= k {
          assert full[k] == [ClearCanvasStep(OPAQUE_WHITE), CallbackStep, PresentStep][k - 2 - m];
        }
      }
    }
    assert full[m + 2] == ClearCanvasStep(OPAQUE_WHITE);
    assert full[2 .. m + 2] == ScaleCanvas(size);
    forall k | 0 <= k < |trace| && trace[k] == CallbackStep
      ensures k == m + 3 && trace[k - 1 - m .. k - 1] == ScaleCanvas(size)
    {
      assert full[k] == CallbackStep;
      assert trace[2 .. m + 2] == full[2 .. m + 2];
    }
  }

  /** The last stage: present, then refill `previous_frame_end`. A
      validation error panics after the future has been taken. */
  function Present(s: VulkanSurface, flags: FlagStore, outcome: PresentOutcome, trace: seq<Step>): (out: RenderOutput)
    ensures out.flags == flags && out.surface.swapchain == s.swapchain
    ensures out.trace == trace || out.trace == trace + [PresentStep]
    ensures out.result == RenderPanicked <==> s.previousFrameEnd.None? || outcome.PresentValidationFailed?
    ensures out.result != RenderPanicked ==> out.surface.previousFrameEnd.Some?
    ensures s.recreateSwapchain ==> out.surface.recreateSwapchain
  {
    if s.previousFrameEnd.None? then
      RenderOutput(s, flags, RenderPanicked, trace)
    else
      var t := trace + [PresentStep];
      match outcome
      case PresentFlushed(f) =>
        RenderOutput(s.(previousFrameEnd := Some(Flushed(f))), flags, Rendered, t)
      case PresentOutOfDate =>
        RenderOutput(s.(recreateSwapchain := true, previousFrameEnd := Some(Now)), flags, Rendered, t)
      case PresentFailed =>
        RenderOutput(s.(previousFrameEnd := Some(Now)), flags, RenderFailed(VulkanFailure), t)
      case PresentValidationFailed =>
        RenderOutput(s.(previousFrameEnd := None), flags, RenderPanicked, t)
  }

  /** Everything `render` does once the swapchain is current. */
  function AcquireDrawPresent(s: VulkanSurface, size: Size, flags: FlagStore, o: FrameOutcomes): (out: RenderOutput)
    ensures out.flags == flags && out.surface.swapchain == s.swapchain
    ensures |out.trace| >= 2 && out.trace <= FrameSteps(size)
    ensures s.previousFrameEnd.Some? && out.result != RenderPanicked ==> out.surface.previousFrameEnd.Some?
  {
    var t1 := [RecreateStep, AcquireStep];
    match o.acquire
    case AcquireOutOfDate => RenderOutput(s.(recreateSwapchain := true), flags, Rendered, t1)
    case AcquireFailed => RenderOutput(s, flags, RenderFailed(VulkanFailure), t1)
    case AcquireValidationFailed => RenderOutput(s, flags, RenderPanicked, t1)
    case Acquired(index, suboptimal) =>
      var s1 := if suboptimal then s.(recreateSwapchain := true) else s;
      if index >= |s1.imageViews| then
        RenderOutput(s1, flags, RenderPanicked, t1)
      else if !o.skiaSurface then
        RenderOutput(s1, flags, RenderFailed(SkiaSurfaceError), t1)
      else
        var drawn := t1 + ScaleCanvas(size) + [ClearCanvasStep(OPAQUE_WHITE), CallbackStep];
        assert drawn + [PresentStep] == FrameSteps(size);
        Present(s1, flags, o.present, drawn)
  }

  /** `VulkanSurface::render`. The change handler always runs and sets the
      recreate flag, so every call rebuilds the swapchain before acquiring;
      the steps taken are a prefix of the frame. */
  function Render(s: VulkanSurface, size: Size, flags: FlagStore, o: FrameOutcomes): (out: RenderOutput)
    requires Valid(size, flags)
    ensures |out.trace| > 0 && out.trace <= FrameSteps(size)
    ensures |out.trace| > 1 <==> o.recreate.Recreated?
    ensures Valid(size, out.flags) && !Changed(size, out.flags)
    ensures OthersUnchanged(flags, out.flags, size.hasChanged)
    ensures s.previousFrameEnd.Some? && out.result != RenderPanicked ==> out.surface.previousFrameEnd.Some?
    ensures o.recreate.Recreated? ==> out.surface.swapchain.extent == ExtentFor(size)
    ensures !o.recreate.Recreated? ==>
              && out.result == RenderFailed(VulkanFailure)
              && out.surface.recreateSwapchain
              && out.surface.swapchain == s.swapchain
  {
    var (calls, flags1) := HandleChanges(size, flags);
    var s1 := if |calls| > 0 then s.(recreateSwapchain := true) else s;
    // The handler has just run, so the flag is set and the rebuild always
    // happens.
    match RecreateSwapchain(s1, size, o.recreate)
    case Err(e) => RenderOutput(s1, flags1, RenderFailed(e), [RecreateStep])
    case Ok(s2) => AcquireDrawPresent(s2, size, flags1, o)
  }

  /** Within one `render` the callback runs at most once, right after the
      canvas was scaled and cleared to opaque white. */
  lemma RenderPreparesCanvasBeforeCallback(s: VulkanSurface, size: Size, flags: FlagStore, o: FrameOutcomes)
    requires Valid(size, flags)
    ensures CallbackWellPrepared(Render(s, size, flags, o).trace, size)
  {
    FramePrefixIsWellPrepared(Render(s, size, flags, o).trace, size);
  }

  /** Geometry changes between two frames coalesce: the next `render`
      rebuilds the swapchain exactly once, at the extent given by the last
      logical size and the last scale applied. */
  lemma RenderUsesLastGeometry(s: VulkanSurface, size: Size, flags: FlagStore, ops: seq<GeometryOp>, o: FrameOutcomes)
    requires Valid(size, flags) && o.recreate.Recreated?
    ensures var (size', flags') := ApplyAll(size, flags, ops);
      var out := Render(s, size', flags', o);
      && out.trace[0] == RecreateStep && RecreateStep !in out.trace[1..]
      && out.surface.swapchain.extent
         == ExtentFor(Size(LastLogical(size.logical, ops), LastScale(size.scaleFactor, ops), size.hasChanged))
  {
    ApplyAllKeepsOnlyTheLast(size, flags, ops);
    var (size', flags') := ApplyAll(size, flags, ops);
    var out := Render(s, size', flags', o);
    assert out.trace[1..] <= FrameSteps(size')[1..];
  }

  /** An out-of-date image is not an error: `render` returns `Ok` without
      drawing and leaves the flag set. Any other `VulkanError` is returned,
      again without drawing; a validation error panics before drawing. */
  lemma AcquireFailuresSkipTheCallback(s: VulkanSurface, size: Size, flags: FlagStore, o: FrameOutcomes)
    requires Valid(size, flags) && o.recreate.Recreated?
    ensures var out := Render(s, size, flags, o);
      && (o.acquire.AcquireOutOfDate? ==>
            out.result == Rendered && CallbackStep !in out.trace && out.surface.recreateSwapchain)
      && (o.acquire.AcquireFailed? ==>
            out.result == RenderFailed(VulkanFailure) && CallbackStep !in out.trace)
      && (o.acquire.AcquireValidationFailed? ==>
            out.result == RenderPanicked && CallbackStep !in out.trace)
  {
  }

  /** A suboptimal image is still drawn and presented, and the swapchain is
      marked for recreation on the next call. */
  lemma SuboptimalStillPresents(s: VulkanSurface, size: Size, flags: FlagStore, o: FrameOutcomes)
    requires Valid(size, flags) && o.recreate.Recreated? && o.skiaSurface
    requires s.previousFrameEnd.Some?
    requires o.acquire.Acquired? && o.acquire.suboptimal && o.acquire.imageIndex < |o.recreate.newImages|
    ensures var out := Render(s, size, flags, o);
      && CallbackStep in out.trace && PresentStep in out.trace
      && out.surface.recreateSwapchain
  {
    var out := Render(s, size, flags, o);
    assert out.trace[|out.trace| - 2] == CallbackStep;
  }

  /** Every `VulkanError` present outcome refills `previous_frame_end`: the
      new future on success, "now" otherwise; only a non-out-of-date error
      is reported. A validation error panics with the slot emptied. */
  lemma PresentOutcomes(s: VulkanSurface, size: Size, flags: FlagStore, o: FrameOutcomes)
    requires Valid(size, flags) && o.recreate.Recreated? && o.skiaSurface
    requires s.previousFrameEnd.Some?
    requires o.acquire.Acquired? && o.acquire.imageIndex < |o.recreate.newImages|
    ensures var out := Render(s, size, flags, o);
      && (o.present.PresentFlushed? ==>
            out.surface.previousFrameEnd == Some(Flushed(o.present.future)) && out.result == Rendered)
      && (o.present.PresentOutOfDate? ==>
            out.surface.previousFrameEnd == Some(Now) && out.result == Rendered && out.surface.recreateSwapchain)
      && (o.present.PresentFailed? ==>
            out.surface.previousFrameEnd == Some(Now) && out.result == RenderFailed(VulkanFailure))
      && (o.present.PresentValidationFailed? ==>
            out.surface.previousFrameEnd.None? && out.result == RenderPanicked)
  {
  }

  /** Renders one call after another against one geometry record, each
      call with its own GPU outcomes, until a call panics. The last
      component says whether one did. */
  function RenderAll(s: VulkanSurface, size: Size, flags: FlagStore, os: seq<FrameOutcomes>): (out: (VulkanSurface, FlagStore, bool))
    requires Valid(size, flags)
    ensures Valid(size, out.1)
    decreases |os|
  {
    if os == [] then (s, flags, false)
    else
      var r := Render(s, size, flags, os[0]);
      if r.result == RenderPanicked then (r.surface, r.flags, true)
      else RenderAll(r.surface, size, r.flags, os[1..])
  }

  /** Once set, `previous_frame_end` is never left empty by a sequence of
      `render` calls that does not panic, so the `take().unwrap()` before
      presenting cannot fail on a surface built by `for_surface`. */
  lemma {:induction false} PreviousFrameEndStaysSet(s: VulkanSurface, size: Size, flags: FlagStore, os: seq<FrameOutcomes>)
    requires Valid(size, flags) && s.previousFrameEnd.Some?
    ensures !RenderAll(s, size, flags, os).2 ==> RenderAll(s, size, flags, os).0.previousFrameEnd.Some?
    decreases |os|
  {
    if os != [] {
      var r := Render(s, size, flags, os[0]);
      if r.result != RenderPanicked {
        PreviousFrameEndStaysSet(r.surface, size, r.flags, os[1..]);
      }
    }
  }

  /** The answers of the set-up calls in `for_surface`. `None` marks a failed
      query or creation. */
  datatype SurfaceSetup = SurfaceSetup(
    khrSurfaceCreated: bool,
    devices: Option<seq<PhysicalDevice>>,
    deviceCreated: bool,
    minImageCount: Option<nat>,
    formats: Option<seq<Format>>,
    swapchainImages: Option<seq<ImageId>>,
    imageViewsCreated: bool,
    skiaContextCreated: bool)

  datatype SetupResult = SurfaceCreated(surface: VulkanSurface) | SetupFailed(error: SurfaceError) | SetupPanicked

  /** Some enumerated device passes the selection filters. */
  ghost predicate HasCandidate(devs: seq<PhysicalDevice>) {
    exists j :: 0 <= j < |devs| && Candidate(devs[j], REQUIRED_EXTENSIONS)
  }

  /** Set-up reaches the format search: every earlier step succeeded. */
  ghost predicate ReachesFormatSearch(setup: SurfaceSetup) {
    && setup.khrSurfaceCreated
    && setup.devices.Some? && HasCandidate(setup.devices.value)
    && setup.deviceCreated
    && setup.minImageCount.Some?
  }

  /** A failed format query reads as an empty list (`into_iter().flatten()`). */
  predicate OffersBgra(formats: Option<seq<Format>>) {
    formats.Some? && B8G8R8A8Unorm in formats.value
  }

  /** `Vulkan::for_surface`. */
  method ForSurface(setup: SurfaceSetup, size: Size) returns (r: SetupResult)
    ensures r.SetupPanicked? <==>
              setup.khrSurfaceCreated && (setup.devices.None? || !HasCandidate(setup.devices.value))
    ensures r == SetupFailed(UnsupportedBGRA) <==> ReachesFormatSearch(setup) && !OffersBgra(setup.formats)
    ensures r.SurfaceCreated? ==>
              && ReachesFormatSearch(setup) && OffersBgra(setup.formats)
              && setup.swapchainImages.Some? && setup.imageViewsCreated && setup.skiaContextCreated
              && IsBestChoice(setup.devices.value, REQUIRED_EXTENSIONS, r.surface.selection)
              && r.surface.swapchain.minImageCount == setup.minImageCount.value + 1
              && r.surface.swapchain.imageFormat == B8G8R8A8Unorm
              && r.surface.swapchain.extent == ExtentFor(size)
              && r.surface.swapchain.images == setup.swapchainImages.value
              && r.surface.imageViews == r.surface.swapchain.images
              && !r.surface.recreateSwapchain
              && r.surface.previousFrameEnd == Some(Now)
  {
    if !setup.khrSurfaceCreated {
      return SetupFailed(VulkanFailure);
    }
    if setup.devices.None? {
      return SetupPanicked;
    }
    var best := BestPhysicalDevice(setup.devices.value, REQUIRED_EXTENSIONS);
    if best.None? {
      return SetupPanicked;
    }
    if !setup.deviceCreated || setup.minImageCount.None? {
      return SetupFailed(VulkanFailure);
    }
    if !OffersBgra(setup.formats) {
      return SetupFailed(UnsupportedBGRA);
    }
    if setup.swapchainImages.None? || !setup.imageViewsCreated {
      return SetupFailed(VulkanFailure);
    }
    if !setup.skiaContextCreated {
      return SetupFailed(SkiaCreationError);
    }
    var images := setup.swapchainImages.value;
    var swapchain := Swapchain(ExtentFor(size), setup.minImageCount.value + 1, B8G8R8A8Unorm, images);
    r := SurfaceCreated(VulkanSurface(false, Some(Now), swapchain, images, best.value));
  }
}
