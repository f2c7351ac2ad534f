/** The demo program's frame loop: dispatch compositor events, recreate the
    swapchain when flagged, acquire, draw one colour of the schedule,
    present. GPU calls are replaced by their outcomes; the wall clock and
    the event loop's own errors are not modelled. */
module DemoLoop {
  import opened Common
  import opened Client
  import opened Presentation
  import opened ColourSchedule

  const INIT_WIDTH: u32 := 1920
  const INIT_HEIGHT: u32 := 60

  /** The demo cycles through four colours, 60 frames per transition. */
  const COLOUR_COUNT: nat := 4
  const TRANSITION: nat := 60

  datatype LoopState = LoopState(
    requestedExtent: Dims,
    extent: Dims,
    images: seq<ImageId>,
    imageViews: seq<ImageId>,
    recreateSwapchain: bool,
    previousFrameEnd: Option<FrameFuture>,
    frames: nat,
    rainbow: Coroutine,
    lastColour: Option<Mix>,
    app: App)

  /** The state entering the loop: the extent is read once from the client
      and the first swapchain is built at it. */
  function InitialLoopState(extent: Dims, images: seq<ImageId>, app: App): (st: LoopState)
    ensures Inv(st) && st.frames == 0 && st.extent == extent
    ensures st.previousFrameEnd == Some(Now) && !st.recreateSwapchain
    ensures st.images == images && st.imageViews == images
    ensures st.rainbow == Unstarted && st.app == app
  {
    LoopState(extent, extent, images, images, false, Some(Now), 0, Unstarted, None, app)
  }

  /** What holds at the top of every iteration: the swapchain is at the
      extent read before the loop, a previous-frame future exists, and the
      colour coroutine has yielded exactly once per counted frame. */
  ghost predicate Inv(st: LoopState) {
    && st.extent == st.requestedExtent
    && st.previousFrameEnd.Some?
    && st.rainbow == Position(TRANSITION, st.frames)
  }

  /** The recreation block as written: the swapchain is rebuilt at the
      extent read before the loop, but the views are built from the
      pre-recreation `images`. */
  function RecreateInLoopAsWritten(st: LoopState, outcome: RecreateOutcome): (r: Result<LoopState, SurfaceError>)
    ensures r.Ok? <==> outcome.Recreated?
    ensures r.Ok? ==> r.value.images == outcome.newImages && r.value.imageViews == st.images
  {
    match outcome
    case Recreated(newImages) =>
      Ok(st.(extent := st.requestedExtent, imageViews := st.images, images := newImages, recreateSwapchain := false))
    case _ => Err(VulkanFailure)
  }

  /** The recreation block with one view per new image, as the surface's
      own `recreate_swapchain` does. */
  function RecreateInLoop(st: LoopState, outcome: RecreateOutcome): (r: Result<LoopState, SurfaceError>)
    ensures r.Ok? <==> outcome.Recreated?
    ensures r.Ok? ==>
              && r.value.images == outcome.newImages
              && |r.value.imageViews| == |r.value.images|
              && (forall i :: 0 <= i < |r.value.images| ==> r.value.imageViews[i] == r.value.images[i])
              && r.value.extent == st.requestedExtent
              && !r.value.recreateSwapchain
              && r.value.(extent := st.extent, images := st.images, imageViews := st.imageViews,
                          recreateSwapchain := st.recreateSwapchain) == st
  {
    match outcome
    case Recreated(newImages) =>
      Ok(st.(extent := st.requestedExtent, imageViews := newImages, images := newImages, recreateSwapchain := false))
    case _ => Err(VulkanFailure)
  }

  /** With the code as written, a recreation that grows the swapchain from
      two images to three leaves two stale views, so a valid acquired index
      2 finds no view and the `unwrap` panics. */
  lemma StaleViewsAfterRecreate()
    ensures var st := InitialLoopState(Dims(INIT_WIDTH, INIT_HEIGHT), [ImageId(0), ImageId(1)], NewApp(Dims(INIT_WIDTH, INIT_HEIGHT)));
      var r := RecreateInLoopAsWritten(st, Recreated([ImageId(2), ImageId(3), ImageId(4)]));
      && r.Ok? && r.value.imageViews == [ImageId(0), ImageId(1)]
      && 2 < |r.value.images| && 2 >= |r.value.imageViews|
  {
  }

  /** The GPU's and the compositor's answers during one iteration. */
  datatype IterationInputs = IterationInputs(
    events: seq<AppEvent>,
    recreate: RecreateOutcome,
    acquire: AcquireOutcome,
    skiaSurface: bool,
    present: PresentOutcome)

  /** How an iteration ends: on to the next one (`presented` says whether
      it reached presentation), `main` returning an error, a panic, or the
      colour coroutine never coming back. */
  datatype Iteration =
    | Continued(state: LoopState, presented: bool)
    | MainReturnedError
    | Panicked
    | Hung

  /** Which recreation block the loop runs: the one in the program, or the
      one with a view per new image. */
  datatype RecreateBlock = AsWritten | Corrected

  function RecreateWith(block: RecreateBlock, st: LoopState, outcome: RecreateOutcome): (r: Result<LoopState, SurfaceError>)
    ensures r.Ok? <==> outcome.Recreated?
    ensures r.Ok? ==> r.value.extent == st.requestedExtent && r.value.requestedExtent == st.requestedExtent
    ensures r.Ok? ==> r.value.(imageViews := st.imageViews, images := st.images, extent := st.extent,
                                recreateSwapchain := st.recreateSwapchain) == st
  {
    match block
    case AsWritten => RecreateInLoopAsWritten(st, outcome)
    case Corrected => RecreateInLoop(st, outcome)
  }

  /** Draws and presents once an image has been acquired and checked. A
      present validation error is unwrapped by `Validated::unwrap` and
      panics; every `VulkanError` keeps the loop going. */
  function DrawAndPresent(st: LoopState, present: PresentOutcome): (r: Iteration)
    requires WellFormed(COLOUR_COUNT, TRANSITION, st.rainbow)
    ensures r.Continued? ==>
              && r.presented
              && r.state.frames == st.frames + 1
              && r.state.previousFrameEnd.Some?
              && r.state.extent == st.extent && r.state.images == st.images
    ensures present.PresentValidationFailed? ==> !r.Continued?
  {
    match Resume(COLOUR_COUNT, TRANSITION, st.rainbow)
    case Yielded(colour, next) =>
      if st.previousFrameEnd.None? then Panicked
      else
        var st1 := st.(rainbow := next, lastColour := Some(colour), frames := st.frames + 1);
        (match present
         case PresentFlushed(f) => Continued(st1.(previousFrameEnd := Some(Flushed(f))), true)
         case PresentOutOfDate => Continued(st1.(recreateSwapchain := true, previousFrameEnd := Some(Now)), true)
         case PresentFailed => Continued(st1.(previousFrameEnd := Some(Now)), true)
         case PresentValidationFailed => Panicked)
    case Hangs => Hung
    case Returned => Panicked
    case ResumedAfterCompletion => Panicked
  }

  /** One pass of the loop body, with the given recreation block. */
  function Iterate(block: RecreateBlock, st: LoopState, input: IterationInputs): (r: Iteration)
    requires WellFormed(COLOUR_COUNT, TRANSITION, st.rainbow)
    ensures r.Continued? ==>
              && r.state.requestedExtent == st.requestedExtent
              && (r.state.extent == st.extent || r.state.extent == st.requestedExtent)
              && r.state.frames == st.frames + (if r.presented then 1 else 0)
              && r.state.app == HandleAll(st.app, input.events)
    ensures st.recreateSwapchain && !input.recreate.Recreated? ==> r == MainReturnedError
  {
    var st0 := st.(app := HandleAll(st.app, input.events));
    var recreated := if st0.recreateSwapchain then RecreateWith(block, st0, input.recreate) else Ok(st0);
    match recreated
    case Err(_) => MainReturnedError
    case Ok(st1) =>
      match input.acquire
      case AcquireOutOfDate => Continued(st1.(recreateSwapchain := true), false)
      case AcquireFailed => Panicked
      case AcquireValidationFailed => Panicked
      case Acquired(index, suboptimal) =>
        var st2 := if suboptimal then st1.(recreateSwapchain := true) else st1;
        if TryIntoI32(st2.extent.width).None? || TryIntoI32(st2.extent.height).None? then Panicked
        else if index >= |st2.imageViews| then Panicked
        else if !input.skiaSurface then Panicked
        else DrawAndPresent(st2, input.present)
  }

  /** The stale views of the program as written panic where the corrected
      block draws: after the swapchain grows from two images to three, the
      acquired index 2 has no view. */
  lemma AsWrittenLoopPanicsAfterGrowth()
    ensures var st := InitialLoopState(Dims(INIT_WIDTH, INIT_HEIGHT), [ImageId(0), ImageId(1)], NewApp(Dims(INIT_WIDTH, INIT_HEIGHT)))
                        .(recreateSwapchain := true);
      var input := IterationInputs([], Recreated([ImageId(2), ImageId(3), ImageId(4)]), Acquired(2, false), true, PresentFlushed(0));
      && Iterate(AsWritten, st, input) == Panicked
      && Iterate(Corrected, st, input).Continued? && Iterate(Corrected, st, input).presented
  {
    ResumeFollowsSchedule(COLOUR_COUNT, TRANSITION, 0);
  }

  /** An out-of-date image sends the loop round again with the flag set,
      drawing nothing and counting no frame; any other acquire error
      panics, a `VulkanError` through `panic!` and a validation error
      through `Validated::unwrap`. */
  lemma AcquireOutcomesInLoop(block: RecreateBlock, st: LoopState, input: IterationInputs)
    requires WellFormed(COLOUR_COUNT, TRANSITION, st.rainbow)
    requires !st.recreateSwapchain || input.recreate.Recreated?
    ensures input.acquire.AcquireOutOfDate? ==>
              var r := Iterate(block, st, input);
              && r.Continued? && !r.presented && r.state.recreateSwapchain
              && r.state.frames == st.frames && r.state.rainbow == st.rainbow
    ensures input.acquire.AcquireFailed? || input.acquire.AcquireValidationFailed? ==>
              Iterate(block, st, input) == Panicked
  {
  }

  /** No `VulkanError` from presenting ends the loop: an iteration that gets
      as far as presenting continues with a refilled `previous_frame_end`,
      one more frame and, on out-of-date, the flag set. Only a validation
      error, unwrapped, ends it with a panic. */
  lemma PresentNeverEndsLoop(st: LoopState, input: IterationInputs)
    requires Inv(st)
    requires !st.recreateSwapchain || input.recreate.Recreated?
    requires input.acquire.Acquired? && input.skiaSurface
    requires st.requestedExtent.width <= I32_MAX && st.requestedExtent.height <= I32_MAX
    requires input.acquire.imageIndex <
             |if st.recreateSwapchain then input.recreate.newImages else st.imageViews|
    ensures var r := Iterate(Corrected, st, input);
      && (!input.present.PresentValidationFailed? ==>
            && r.Continued? && r.presented && r.state.frames == st.frames + 1
            && r.state.previousFrameEnd.Some?
            && (input.present.PresentOutOfDate? ==> r.state.recreateSwapchain))
      && (input.present.PresentValidationFailed? ==> r == Panicked)
  {
    ResumeFollowsSchedule(COLOUR_COUNT, TRANSITION, st.frames);
  }

  /** Each iteration keeps the loop invariant, and the frame it draws uses
      the colour the schedule assigns to that frame's number: the swapchain
      is only ever rebuilt at the extent read before the loop, whatever
      sizes the compositor configures in between. */
  lemma IterationKeepsInvariant(block: RecreateBlock, st: LoopState, input: IterationInputs)
    requires Inv(st)
    ensures WellFormed(COLOUR_COUNT, TRANSITION, st.rainbow)
    ensures var r := Iterate(block, st, input);
      r.Continued? ==>
        && Inv(r.state)
        && r.state.extent == st.requestedExtent
        && (r.presented ==> r.state.lastColour == Some(Scheduled(COLOUR_COUNT, TRANSITION, st.frames)))
  {
    ResumeFollowsSchedule(COLOUR_COUNT, TRANSITION, st.frames);
  }

  /** Runs iterations until one does not continue. However many run and
      whatever the compositor configures, the swapchain stays at the extent
      read before the loop, the frame count never falls, and the colour
      coroutine has advanced once per drawn frame. */
  function Run(block: RecreateBlock, st: LoopState, inputs: seq<IterationInputs>): (r: Iteration)
    requires Inv(st)
    ensures r.Continued? ==>
              && r.state.extent == st.requestedExtent
              && r.state.requestedExtent == st.requestedExtent
              && r.state.frames >= st.frames
              && r.state.rainbow == Position(TRANSITION, r.state.frames)
    ensures r.Continued? ==> Inv(r.state)
    decreases |inputs|
  {
    if inputs == [] then Continued(st, false)
    else
      IterationKeepsInvariant(block, st, inputs[0]);
      match Iterate(block, st, inputs[0])
      case Continued(st', _) => Run(block, st', inputs[1..])
      case other => other
  }
}
