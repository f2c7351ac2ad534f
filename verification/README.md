# Avy: a Dafny model of the layer-shell client core

Avy is a Wayland layer-shell client that draws with Skia on a Vulkan
swapchain. This project models the parts of it that are arithmetic or state
transitions, and proves properties of them:

- the wp-fractional-scale-v1 scale factor: a numerator over 120, with a
  dimension scaled by it and rounded half away from zero (`fractional_scale.dfy`);
- the `Size` geometry record, whose change flag is shared by every clone
  (`geometry.dfy`);
- the `App` client state: layer-surface configure, the scale callback with
  its viewport requests, and seat capability bookkeeping (`client.dfy`);
- the choice of GPU and queue family (`device_selection.dfy`);
- the per-surface presentation state machine: `VulkanSurface::render`,
  `recreate_swapchain` and `Vulkan::for_surface` (`presentation.dfy`);
- the colour coroutine of the demo program, as index arithmetic only
  (`colour_schedule.dfy`);
- the demo program's own frame loop (`demo_loop.dfy`);
- the VK_EXT_debug_utils flag decoders and the debug callback (`debugging.dfy`).

GPU, Skia and compositor calls are not modelled. Their results are inputs:
an acquire gives an image index and a suboptimal bit, out-of-date, a
Vulkan error, or a validation error; a present gives a flushed future,
out-of-date, a Vulkan error, or a validation error; a recreation gives new images or a failure. The shared `Arc<AtomicBool>` flag
of `Size` is an index into a `FlagStore`, a sequence of booleans, so that
clones holding the same index see the same flag. Panics (`unwrap`,
`expect`, `unimplemented!`, and `Validated::unwrap` on a validation error) appear as explicit outcomes: `None`,
`Panicked`, `RenderPanicked`, `SetupPanicked` or `CallbackPanicked`.
Rust's casts are written out:
- `as u32` on a float saturates;
- `u32 as i32` wraps modulo 2^32;
- `try_into` fails when the value does not fit.

Four behaviours of the code are easy to miss:
- `Size::handle_changes` calls its handler whether or not the flag is set
  (src/util/size.rs:53-56). So every `render` recreates the swapchain, and a
  render without any geometry change recreates too.
- After recreating, `render` goes on to acquire, draw and present in the
  same call (src/graphics/vulkan.rs:257-331). It does not return early.
- The viewport source and destination are set only when the scale changes
  (src/app.rs:240-249). A configure, which is a resize, does not set them.
- No keyboard-focus or touch-id routing exists. The input handlers only
  print.

## Model

| member | source | states |
|---|---|---|
| Common.SaturateU32 | src/graphics/vulkan.rs:337-338 | The `as u32` cast of a whole, non-negative physical dimension keeps the value when it fits in u32 and gives u32::MAX above that, never more than the input. |
| Common.WrapToI32 | src/app.rs:248 | `u32 as i32` gives a value in the i32 range congruent to the input modulo 2^32; it equals the input exactly when the input is at most i32::MAX. |
| Common.TryIntoI32 | src/main.rs:353-355 | `try_into::<i32>` succeeds exactly when the value is at most i32::MAX, and then keeps it. |
| FractionalScale.AsReal | src/wayland/protocol/fractional_scale.rs:20-38 | A scale factor stores the protocol numerator n; its value times the denominator 120 is n. |
| FractionalScale.Scale | src/wayland/protocol/fractional_scale.rs:40-42 | The scaled dimension r satisfies d·n/120 − 1/2 < r ≤ d·n/120 + 1/2, which is round to nearest with ties away from zero. |
| FractionalScale.ScaleIsUnique | src/wayland/protocol/fractional_scale.rs:40-42 | Any integer satisfying that rounding rule is the scaled dimension, so the rule determines the result. |
| FractionalScale.ScaleIsNearestInteger | src/wayland/protocol/fractional_scale.rs:40-42 | In real arithmetic, scale(d) lies in (x − 1/2, x + 1/2] for x = d times the scale's value. |
| FractionalScale.ScaleFixedPoints | src/wayland/protocol/fractional_scale.rs:40-42 | scale(0) = 0 for every factor, and the factor 120/120 maps every dimension to itself. |
| FractionalScale.ScaleMonotone | src/wayland/protocol/fractional_scale.rs:40-42 | For a fixed factor, d1 ≤ d2 implies scale(d1) ≤ scale(d2). |
| FractionalScale.FractionalScaling | src/wayland/protocol/fractional_scale.rs:59-69 | The per-surface scale object records the surface it was requested for. |
| FractionalScale.Dispatch | src/wayland/protocol/fractional_scale.rs:86-121 | An event is handled if and only if it is `preferred_scale` on a per-surface object; then exactly one `scale_factor_changed` call is made, for the recorded surface, carrying the event's numerator. Every other event, and every event on the manager, is unimplemented. |
| FractionalScale.PreferredScaleReachesCreatingSurface | src/wayland/protocol/fractional_scale.rs:59-100 | A `preferred_scale` event on the object made for surface s yields exactly the one call for s with that numerator. |
| Geometry.New | src/util/size.rs:16-22 | A new record has the given logical size, no scale, and a freshly allocated flag that is cleared; existing flags are untouched. |
| Geometry.PhysicalSize | src/util/size.rs:34-41 | With no scale the physical size is the logical size; with a scale each component satisfies the scaling rounding rule for the logical width and height. |
| Geometry.Resize | src/util/size.rs:43-46 | Only the logical size is replaced; the scale and flag reference are kept; the record's flag becomes set and no other flag changes. |
| Geometry.Rescale | src/util/size.rs:48-51 | Only the scale is replaced, with Some(factor); the logical size is kept; the flag becomes set and no other flag changes. |
| Geometry.HandleChanges | src/util/size.rs:53-56 | The handler is called exactly once, with the record, whatever the flag says; afterwards the flag is cleared and no other flag changes. |
| Geometry.ClonesShareTheFlag | src/util/size.rs:8-22 | A clone reads the same flag as its original; clearing it or setting it through the clone is seen through the original. |
| Geometry.ApplyAllKeepsOnlyTheLast | src/util/size.rs:34-51 | After any sequence of resizes and rescales the record holds the last logical size and the last scale applied, so its physical size depends only on those two; a non-empty sequence leaves the flag set, and an empty one changes no flag. |
| Client.NewApp | src/app.rs:84-95 | A new client holds no pointer, relative pointer, keyboard or touch; it is running, with no size change pending, the first configure still to come, no scale, no viewport, and the given logical size. |
| Client.Configure | src/app.rs:216-224 | A configure makes the new size the logical size, marks the size changed, ends the first configure, and changes nothing else. |
| Client.FirstConfigureTracksConfigures | src/app.rs:220-223 | After any event sequence, `first_configure` is true exactly when it was true before and no configure arrived, so once false it never becomes true again. |
| Client.ScaleFactorChanged | src/app.rs:237-249 | The scale is stored and the size marked changed, and nothing else in the client changes. With no viewport no request is sent. With a viewport two requests are sent: the source (0, 0, w', h'), where w' and h' are the rounded scaled logical sizes, then the destination, the logical size cast to i32. |
| Client.NewCapability | src/app.rs:289-308 | The pointer slot is never filled. A pointer capability stores the relative pointer only when no pointer is held and one was obtained. A keyboard capability stores the new keyboard only when none is held. A touch capability always replaces the touch object. No other field changes. |
| Client.RemoveCapability | src/app.rs:318-329 | Exactly the named capability's objects are dropped: the keyboard; or the pointer together with the relative pointer; or the touch object. No other field changes. |
| Client.RemoveSeat | src/app.rs:338-340 | The keyboard, pointer and relative pointer are dropped; the touch object and everything else are kept. |
| Client.PointerNeverPopulated | src/app.rs:289-298 | From a client without a pointer, no sequence of events ever stores one. |
| Client.RepeatedKeyboardKeepsFirst | src/app.rs:300-303 | A keyboard capability announced twice keeps the first keyboard object. |
| Client.RepeatedTouchReplaces | src/app.rs:305-308 | A touch capability announced twice ends with the second touch object. |
| DeviceSelection.Rank | src/graphics/vulkan.rs:415-421 | Device types rank from 0 to 4 in the order discrete GPU, integrated GPU, virtual GPU, CPU, other: each rank belongs to exactly one type. |
| DeviceSelection.RankIsInjective | src/graphics/vulkan.rs:415-421 | Distinct device types have distinct ranks. |
| DeviceSelection.FirstUsable | src/graphics/vulkan.rs:406-413 | The chosen queue family is the first one with graphics support whose surface-support query succeeded with true. No family is chosen exactly when none qualifies. |
| DeviceSelection.BestPhysicalDevice | src/graphics/vulkan.rs:396-423 | A selection is made exactly when some device has the required extensions and a usable queue family. The selected device is such a candidate, comes with its first usable queue family, has rank no greater than any candidate, and has strictly smaller rank than every earlier candidate, so the first device wins ties. |
| DeviceSelection.BestChoiceIsUnique | src/main.rs:79-106 | The rule, which the demo program repeats with `min_by_key` keeping the first minimum, admits at most one selection for any device list. |
| Presentation.RecreateSwapchain | src/graphics/vulkan.rs:336-357 | Succeeds exactly when the swapchain and the views are rebuilt. On success, the extent is the physical size cast to u32, there is one view per new image in order, the flag is cleared, and image count, format, frame future and device are kept. A failure returns the Vulkan error. |
| Presentation.ScaleCanvas | src/util/size.rs:61-66 | The canvas is scaled exactly once, by the stored factor, when a scale is set, and left alone otherwise. |
| Presentation.FramePrefixIsWellPrepared | src/graphics/vulkan.rs:289-299 | In any prefix of the frame, the callback runs at most once, and only right after the canvas was scaled (when a scale is set) and cleared to opaque white. |
| Presentation.Present | src/graphics/vulkan.rs:305-331 | Presenting keeps the swapchain and any pending recreation. It panics exactly when `previous_frame_end` is empty or the present returns a validation error; otherwise `previous_frame_end` is set afterwards. |
| Presentation.AcquireDrawPresent | src/graphics/vulkan.rs:263-331 | Once the swapchain is current, the steps taken are a prefix of the frame that includes the acquire, the swapchain is unchanged, and unless a validation error panics, `previous_frame_end` stays set. |
| Presentation.Render | src/graphics/vulkan.rs:248-332 | Every call rebuilds the swapchain first, because the change handler always runs. The steps taken are a prefix of recreate, acquire, scale, clear, callback, present, and go past recreation exactly when the rebuild succeeds. The size flag ends cleared, and no other flag changes. A successful rebuild uses the physical size. A failed one returns the error, keeps the old swapchain and leaves the recreate flag set. Unless the frame panics, `previous_frame_end` ends set. |
| Presentation.RenderPreparesCanvasBeforeCallback | src/graphics/vulkan.rs:289-299 | Within one render the callback runs at most once, immediately after the canvas was scaled (if a scale is set) and cleared to opaque white. |
| Presentation.RenderUsesLastGeometry | src/graphics/vulkan.rs:253-261 | After any resizes and rescales between frames, the next render rebuilds the swapchain exactly once, at the extent given by the last logical size and the last scale. |
| Presentation.AcquireFailuresSkipTheCallback | src/graphics/vulkan.rs:263-273 | An out-of-date acquire returns Ok without running the callback and leaves the flag set. Any other Vulkan error is returned, also without running the callback. A validation error panics in `Validated::unwrap` before the callback. |
| Presentation.SuboptimalStillPresents | src/graphics/vulkan.rs:275-278 | A suboptimal image is still drawn and presented, and the swapchain is marked for recreation. |
| Presentation.PresentOutcomes | src/graphics/vulkan.rs:317-331 | A flushed present stores its future. Out-of-date stores "now" and sets the flag, without reporting an error. Any other Vulkan error stores "now" and is returned. A validation error panics in `Validated::unwrap`, after `take()` has emptied `previous_frame_end`. |
| Presentation.PreviousFrameEndStaysSet | src/graphics/vulkan.rs:305-329 | Across any sequence of render calls that stops at the first panic, `previous_frame_end` is set at the end unless a panic occurred, so its `take().unwrap()` cannot fail on a surface built by `for_surface`. |
| Presentation.ForSurface | src/graphics/vulkan.rs:110-227 | Set-up panics exactly when device enumeration fails or no device is a candidate. It fails with UnsupportedBGRA exactly when it gets as far as the format search and no B8G8R8A8_UNORM format is offered. On success it has the best device and queue family, min_image_count = the minimum + 1, the BGRA format, an extent equal to the physical size, one view per image, the recreate flag false and `previous_frame_end` = now. |
| ColourSchedule.Resume | src/main.rs:60-77 | Every yielded mix names two valid colour indices and a ratio step below the transition. The first resume returns exactly when the colour list is empty, and it never comes back exactly when there are colours but the transition is zero. |
| ColourSchedule.ResumeFollowsSchedule | src/main.rs:64-75 | Resuming after k yields gives the k-th value of the closed form: colours (k div t) mod n and (k div t + 1) mod n, at ratio (k mod t)/t. |
| ColourSchedule.DriveFollowsSchedule | src/main.rs:64-76 | For n > 0 colours and t > 0, k resumes yield exactly the first k values of the closed form and never return. |
| ColourSchedule.TargetReachedOnlyByNextPair | src/main.rs:71-73 | Every ratio is below 1, and a pair's target colour is first used as the ratio-0 start of the next pair. |
| ColourSchedule.DegenerateSchedules | src/main.rs:64-76 | With no colours the first resume returns, which the demo treats as a panic. With colours but a zero transition the first resume never comes back. |
| DemoLoop.InitialLoopState | src/main.rs:216-306 | The loop starts with the swapchain at the extent read before the loop and requested at that extent, the images and one view per image, `previous_frame_end` = now, no recreation pending, no frames, the colour coroutine unstarted and the given client, so the loop invariant holds. |
| DemoLoop.RecreateInLoopAsWritten | src/main.rs:316-335 | As written, the rebuilt loop state holds the new images but views built from the previous images. |
| DemoLoop.RecreateInLoop | src/main.rs:316-335 | The corrected recreation: the swapchain is rebuilt at the extent read before the loop, with one view per new image and the flag cleared; a failure ends `main` with an error. |
| DemoLoop.StaleViewsAfterRecreate | src/main.rs:325-329 | A recreation from two images to three leaves two views under the code as written, so the acquired index 2 is a valid image with no view. |
| DemoLoop.DrawAndPresent | src/main.rs:399-448 | An iteration that continues after drawing counts one more frame, has a refilled `previous_frame_end` and keeps the swapchain. A present validation error never continues. |
| DemoLoop.RecreateWith | src/main.rs:316-335 | Either recreation block succeeds exactly when the rebuild does, sets the extent to the one read before the loop, and changes nothing but the swapchain, images, views and flag. |
| DemoLoop.AsWrittenLoopPanicsAfterGrowth | src/main.rs:325-357 | Starting from two images with a recreation pending, a rebuild to three images followed by an acquire of index 2 panics in the loop as written, while the corrected loop draws and presents the frame. |
| DemoLoop.Iterate | src/main.rs:309-449 | With either recreation block, a recreation failure ends `main` with an error. An iteration that continues keeps the requested extent, leaves the swapchain at either its old extent or the requested one, counts exactly one frame when it presented and none otherwise, and applies the dispatched events to the client. |
| DemoLoop.AcquireOutcomesInLoop | src/main.rs:337-347 | An out-of-date acquire continues with the flag set, drawing nothing, counting no frame and leaving the colour coroutine unchanged. Any other Vulkan error panics, and so does a validation error, through `Validated::unwrap`. |
| DemoLoop.PresentNeverEndsLoop | src/main.rs:435-448 | Once an iteration of the corrected loop reaches presentation, every Vulkan present outcome continues the loop with one more frame and `previous_frame_end` set; out-of-date also sets the flag. A validation error panics in `Validated::unwrap`. |
| DemoLoop.IterationKeepsInvariant | src/main.rs:316-401 | Each iteration keeps the swapchain at the extent read before the loop, whatever sizes are configured, and keeps the coroutine one yield per frame. A frame drawn as frame number k uses the k-th scheduled colour. |
| DemoLoop.Run | src/main.rs:309-449 | However many iterations run, with either recreation block, a loop still going keeps the invariant, the swapchain stays at the extent read before the loop, the frame count never falls, and the coroutine's position matches the frame count. |
| Debugging.SeverityBits | src/debugging.rs:15-19 | Each severity's flag is a single bit. |
| Debugging.MessageTypeBits | src/debugging.rs:35-41 | Each message type's flag is a single bit. |
| Debugging.DecodeSeverity | src/debugging.rs:13-23 | A decoded severity is the one whose flag equals the input. |
| Debugging.DecodeMessageType | src/debugging.rs:33-45 | A decoded message type is the one whose flag equals the input. |
| Debugging.SeverityRoundTrip | src/debugging.rs:15-20 | Every severity decodes from its own flag, and a value decodes exactly when it is one of the four severity flags; everything else is unimplemented. |
| Debugging.MessageTypeRoundTrip | src/debugging.rs:35-42 | Every message type decodes from its own flag, and a value decodes exactly when it is one of the four type flags. |
| Debugging.CombinedFlagsAreRejected | src/debugging.rs:20 | A value with zero or several bits set decodes as neither a severity nor a message type. |
| Debugging.FormatLine | src/debugging.rs:66-71 | The printed line ends with the message text, after the bracketed type and severity names. |
| Debugging.FormatLineRoundTrip | src/debugging.rs:66-71 | A printed line determines the message type, the severity and the text it was made from. |
| Debugging.DebugCallback | src/debugging.rs:48-74 | The callback panics exactly when the severity or the type does not decode. Otherwise it returns 0 and prints a line exactly when the callback data is present and its message is valid UTF-8; that line reads back as the decoded type, the decoded severity and the message. |
| Debugging.CallbackNeverAborts | src/debugging.rs:73 | For every severity and type flag, the callback returns 0 (VK_FALSE), with the formatted line when there is a valid message. |

## Findings

| source | as written | input that shows it | evidently intended | confidence | as-written member | corrected member |
|---|---|---|---|---|---|---|
| src/main.rs:325 | On recreation, the demo loop rebuilds the image views from the old `images` before it replaces them with `new_images` | a recreation from a two-image swapchain to a three-image one, followed by an acquire of index 2 | build the views from `new_images`, as `VulkanSurface::recreate_swapchain` does at src/graphics/vulkan.rs:345-349 | high, not executed | DemoLoop.RecreateInLoopAsWritten, DemoLoop.StaleViewsAfterRecreate, DemoLoop.AsWrittenLoopPanicsAfterGrowth | DemoLoop.RecreateInLoop |

With the code as written, the views after that recreation belong to the
retired swapchain, and index 2 finds no view, so the `unwrap` at
src/main.rs:357 panics. `DemoLoop.Iterate` takes the recreation block as a
parameter; `DemoLoop.AsWrittenLoopPanicsAfterGrowth` shows the panic with
the block as written and the frame presented with the corrected one.

## Left out

- The Wayland connection, registry, event queue and object creation, including wayland/surface/layer.rs and wayland/protocol/viewporter.rs. These files only sequence requests through the toolkit.
- The traits `AvySurface`, `GraphicsBackend`, `GraphicsSurface` and `AsAny`, and the constants in lib.rs. They hold signatures only.
- Every Vulkan, vulkano and Skia call: device creation, swapchain internals, futures and fences, drawing, fonts. Their results are inputs.
- FractionalScale.Scale: exact rational arithmetic replaces the f64 product `dim * (n / 120.0)`. Float rounding of the quotient can move a result that lies exactly on a .5 boundary.
- Presentation.ScaleCanvas: records which factor the canvas is scaled by, not the f32 transform.
- ColourSchedule.Resume: yields colour indices and a ratio step, not the LCh colour `mix` or its conversion to RGB.
- The frame counter's FPS report and the demo's text and circle drawing.
- Concurrency: the `RwLock` around `Size`, the atomic ordering of the change flag, `unsafe impl Send`, and the `START_TIME` once-cell with its elapsed-seconds prefix on debug lines.
- DemoLoop.PresentNeverEndsLoop: stated for the corrected recreation only. Its bound on the acquired index (the number of new images after a recreation) holds for the corrected program; with the block as written the views are those of the old images, and an index beyond them panics, as `DemoLoop.AsWrittenLoopPanicsAfterGrowth` shows.
- DemoLoop.Iterate: the ten-second wall-clock break and the error from `event_loop.dispatch` are not modelled. The dispatched events are an input list.
- Presentation.ForSurface: `min_image_count + 1` is unbounded here, so the u32 overflow at u32::MAX is not modelled. Set-up failures before the format search are modelled only as the error they return.
- Presentation.Render: whether Skia can wrap the image is an input. The `as i32` cast of the physical size for the render target is not modelled.
- The `CompositorHandler` integer-scale and transform callbacks, the pointer, keyboard and touch event handlers, and `new_seat`. They are empty or only print.
- Debugging.DebugCallback: whether the message bytes are valid UTF-8 is an input rather than a check on bytes.
- src/lib.rs:8 re-exports a type that src/app.rs does not define, and src/main.rs:216 reads a field that `App` lacks. Each file's logic is modelled on its own terms. The extent read at src/main.rs:216 is a parameter of `DemoLoop.InitialLoopState`.
