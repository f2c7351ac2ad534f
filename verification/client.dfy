/** The client state `App` and its handlers: layer-surface configure, the
    fractional-scale callback with its viewport requests, and the seat
    capability bookkeeping. Protocol objects are abstract ids. */
module Client {
  import opened Common
  import opened FractionalScale

  /** A protocol object (`WlPointer`, `WlKeyboard`, `WpViewport`, ...). */
  datatype ObjectId = ObjectId(id: nat)

  datatype Capability = Pointer | Keyboard | Touch

  datatype App = App(
    pointer: Option<ObjectId>,
    relativePointer: Option<ObjectId>,
    keyboard: Option<ObjectId>,
    touch: Option<ObjectId>,
    running: bool,
    logicalSize: Dims,
    changedSize: bool,
    firstConfigure: bool,
    viewport: Option<ObjectId>,
    scaleFactor: Option<ScaleFactor>)

  /** Requests sent on the viewport: `set_source(x, y, w, h)` in buffer
      pixels and `set_destination(w, h)` in surface-local `i32` units. */
  datatype ViewportRequest =
    | SetSource(x: nat, y: nat, sourceWidth: nat, sourceHeight: nat)
    | SetDestination(destinationWidth: int, destinationHeight: int)

  /** No seat object is held. */
  predicate NoSeatObjects(a: App) {
    a.pointer.None? && a.relativePointer.None? && a.keyboard.None? && a.touch.None?
  }

  /** `App::new` once every global has been bound. */
  function NewApp(logicalSize: Dims): (a: App)
    ensures NoSeatObjects(a)
    ensures a.running && !a.changedSize && a.firstConfigure
    ensures a.scaleFactor.None? && a.viewport.None?
    ensures a.logicalSize == logicalSize
  {
    App(None, None, None, None, true, logicalSize, false, true, None, None)
  }

  /** `LayerShellHandler::configure`: the configured size becomes the
      logical size, the size is marked changed and the first configure is
      over; nothing else moves. */
  function Configure(a: App, newSize: Dims): (a': App)
    ensures a'.logicalSize == newSize && a'.changedSize && !a'.firstConfigure
    ensures a' == a.(logicalSize := newSize, changedSize := true, firstConfigure := false)
  {
    var a1 := a.(logicalSize := newSize, changedSize := true);
    if a1.firstConfigure then a1.(firstConfigure := false) else a1
  }

  /** `FractionalScaleHandler::scale_factor_changed`. The scale is stored
      and the size marked changed; with a viewport, its source becomes the
      scaled logical size and its destination the logical size. */
  function ScaleFactorChanged(a: App, factor: ScaleFactor): (r: (App, seq<ViewportRequest>))
    ensures r.0 == a.(scaleFactor := Some(factor), changedSize := true)
    ensures a.viewport.None? ==> r.1 == []
    ensures a.viewport.Some? ==>
              && |r.1| == 2
              && r.1[0].SetSource? && r.1[0].x == 0 && r.1[0].y == 0
              && RoundsHalfAway(factor, a.logicalSize.width, r.1[0].sourceWidth)
              && RoundsHalfAway(factor, a.logicalSize.height, r.1[0].sourceHeight)
              && r.1[1] == SetDestination(WrapToI32(a.logicalSize.width), WrapToI32(a.logicalSize.height))
  {
    var a' := a.(scaleFactor := Some(factor), changedSize := true);
    if a'.viewport.Some? then
      (a', [SetSource(0, 0, Scale(factor, a.logicalSize.width), Scale(factor, a.logicalSize.height)),
            SetDestination(WrapToI32(a.logicalSize.width), WrapToI32(a.logicalSize.height))])
    else
      (a', [])
  }

  /** `SeatHandler::new_capability`. `created` is the object the seat hands
      out for the capability (`get_pointer`, `get_keyboard`, `get_touch`);
      `relative` is the outcome of `get_relative_pointer` on a new pointer.
      The new `WlPointer` itself is never stored. */
  function NewCapability(a: App, cap: Capability, created: ObjectId, relative: Option<ObjectId>): (a': App)
    ensures a'.pointer == a.pointer
    ensures a'.relativePointer ==
              if cap == Pointer && a.pointer.None? && relative.Some? then relative else a.relativePointer
    ensures a'.keyboard == if cap == Keyboard && a.keyboard.None? then Some(created) else a.keyboard
    ensures a'.touch == if cap == Touch then Some(created) else a.touch
    ensures a'.(relativePointer := a.relativePointer, keyboard := a.keyboard, touch := a.touch) == a
  {
    var a1 :=
      if cap == Pointer && a.pointer.None? then
        (match relative
         case Some(rel) => a.(relativePointer := Some(rel))
         case None => a)
      else a;
    var a2 := if cap == Keyboard && a1.keyboard.None? then a1.(keyboard := Some(created)) else a1;
    if cap == Touch then a2.(touch := Some(created)) else a2
  }

  /** `SeatHandler::remove_capability`: drops exactly that capability's
      objects; the pointer capability owns the relative pointer too. */
  function RemoveCapability(a: App, cap: Capability): (a': App)
    ensures a'.keyboard == if cap == Keyboard then None else a.keyboard
    ensures a'.pointer == if cap == Pointer then None else a.pointer
    ensures a'.relativePointer == if cap == Pointer then None else a.relativePointer
    ensures a'.touch == if cap == Touch then None else a.touch
    ensures a'.(pointer := a.pointer, relativePointer := a.relativePointer,
                keyboard := a.keyboard, touch := a.touch) == a
  {
    var a1 := if cap == Keyboard then a.(keyboard := None) else a;
    var a2 := if cap == Pointer then a1.(pointer := None, relativePointer := None) else a1;
    if cap == Touch then a2.(touch := None) else a2
  }

  /** `SeatHandler::remove_seat`: keyboard, pointer and relative pointer are
      dropped, the touch object is kept. */
  function RemoveSeat(a: App): (a': App)
    ensures a'.keyboard.None? && a'.pointer.None? && a'.relativePointer.None?
    ensures a'.touch == a.touch
    ensures a'.(keyboard := a.keyboard, pointer := a.pointer, relativePointer := a.relativePointer) == a
  {
    a.(keyboard := None, pointer := None, relativePointer := None)
  }

  /** The compositor events that reach the handlers above. */
  datatype AppEvent =
    | Configured(newSize: Dims)
    | PreferredScaleChanged(factor: ScaleFactor)
    | CapabilityAdded(cap: Capability, created: ObjectId, relative: Option<ObjectId>)
    | CapabilityRemoved(cap: Capability)
    | SeatRemoved

  function Handle(a: App, e: AppEvent): App {
    match e
    case Configured(size) => Configure(a, size)
    case PreferredScaleChanged(f) => ScaleFactorChanged(a, f).0
    case CapabilityAdded(cap, created, rel) => NewCapability(a, cap, created, rel)
    case CapabilityRemoved(cap) => RemoveCapability(a, cap)
    case SeatRemoved => RemoveSeat(a)
  }

  function HandleAll(a: App, es: seq<AppEvent>): App
    decreases |es|
  {
    if es == [] then a else HandleAll(Handle(a, es[0]), es[1..])
  }

  predicate HasConfigure(es: seq<AppEvent>) {
    exists i :: 0 <= i < |es| && es[i].Configured?
  }

  /** `first_configure` records whether a configure has ever arrived: it
      stays true exactly while none has, and once false it never returns. */
  lemma {:induction false} FirstConfigureTracksConfigures(a: App, es: seq<AppEvent>)
    ensures HandleAll(a, es).firstConfigure <==> a.firstConfigure && !HasConfigure(es)
    decreases |es|
  {
    if es != [] {
      FirstConfigureTracksConfigures(Handle(a, es[0]), es[1..]);
      if es[0].Configured? {
        assert HasConfigure(es);
      } else if HasConfigure(es) {
        var i :| 0 <= i < |es| && es[i].Configured?;
        assert es[1..][i - 1].Configured?;
      }
    }
  }

  /** No handler ever stores a `WlPointer`: starting from `App::new`, the
      pointer slot stays empty whatever events arrive. */
  lemma {:induction false} PointerNeverPopulated(a: App, es: seq<AppEvent>)
    requires a.pointer.None?
    ensures HandleAll(a, es).pointer.None?
    decreases |es|
  {
    if es != [] {
      PointerNeverPopulated(Handle(a, es[0]), es[1..]);
    }
  }

  /** A keyboard announced twice keeps the first keyboard object. */
  lemma RepeatedKeyboardKeepsFirst(a: App, k1: ObjectId, k2: ObjectId, r1: Option<ObjectId>, r2: Option<ObjectId>)
    requires a.keyboard.None?
    ensures NewCapability(NewCapability(a, Keyboard, k1, r1), Keyboard, k2, r2).keyboard == Some(k1)
  {
  }

  /** A touch capability announced twice replaces the first touch object. */
  lemma RepeatedTouchReplaces(a: App, t1: ObjectId, t2: ObjectId, r1: Option<ObjectId>, r2: Option<ObjectId>)
    ensures NewCapability(NewCapability(a, Touch, t1, r1), Touch, t2, r2).touch == Some(t2)
  {
  }
}
