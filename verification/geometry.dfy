/** `Size`: a surface's logical size, its optional fractional scale, and a
    change flag that every clone of the record shares (an `Arc<AtomicBool>`
    in the client). The shared flags live in a `FlagStore`, and a `Size`
    holds the index of its flag there. */
module Geometry {
  import opened Common
  import opened FractionalScale

  /** The shared atomic booleans, indexed by reference. */
  type FlagStore = seq<bool>

  datatype Size = Size(logical: Dims, scaleFactor: Option<ScaleFactor>, hasChanged: nat)

  /** The record's flag reference points into the store. */
  predicate Valid(s: Size, store: FlagStore) {
    s.hasChanged < |store|
  }

  /** The current value of the record's (shared) change flag. */
  function Changed(s: Size, store: FlagStore): bool
    requires Valid(s, store)
  {
    store[s.hasChanged]
  }

  /** Flags other than `k` are left alone. */
  ghost predicate OthersUnchanged(store: FlagStore, store': FlagStore, k: nat) {
    |store'| == |store| && forall i :: 0 <= i < |store| && i != k ==> store'[i] == store[i]
  }

  /** `Size::new`: a fresh, cleared flag is allocated; no scale is set. */
  function New(logical: Dims, store: FlagStore): (r: (Size, FlagStore))
    ensures Valid(r.0, r.1)
    ensures r.0.logical == logical && r.0.scaleFactor.None?
    ensures !Changed(r.0, r.1)
    ensures r.0.hasChanged >= |store|
    ensures |r.1| == |store| + 1 && r.1[..|store|] == store
  {
    (Size(logical, None, |store|), store + [false])
  }

  /** `Clone`: copies the sizes and shares the flag. */
  function Clone(s: Size): Size {
    s
  }

  /** `Size::physical_size`: the logical size, each dimension scaled by the
      fractional scale when one is set. */
  function PhysicalSize(s: Size): (r: (nat, nat))
    ensures s.scaleFactor.None? ==> r == (s.logical.width as nat, s.logical.height as nat)
    ensures s.scaleFactor.Some? ==>
              && RoundsHalfAway(s.scaleFactor.value, s.logical.width, r.0)
              && RoundsHalfAway(s.scaleFactor.value, s.logical.height, r.1)
  {
    match s.scaleFactor
    case None => (s.logical.width, s.logical.height)
    case Some(f) => (Scale(f, s.logical.width), Scale(f, s.logical.height))
  }

  /** `Size::resize`: only the logical size is replaced; the flag is set. */
  function Resize(s: Size, store: FlagStore, logical: Dims): (r: (Size, FlagStore))
    requires Valid(s, store)
    ensures Valid(r.0, r.1) && Changed(r.0, r.1)
    ensures r.0.logical == logical
    ensures r.0.scaleFactor == s.scaleFactor && r.0.hasChanged == s.hasChanged
    ensures OthersUnchanged(store, r.1, s.hasChanged)
  {
    (s.(logical := logical), store[s.hasChanged := true])
  }

  /** `Size::rescale`: only the scale is replaced; the flag is set. */
  function Rescale(s: Size, store: FlagStore, f: ScaleFactor): (r: (Size, FlagStore))
    requires Valid(s, store)
    ensures Valid(r.0, r.1) && Changed(r.0, r.1)
    ensures r.0.scaleFactor == Some(f)
    ensures r.0.logical == s.logical && r.0.hasChanged == s.hasChanged
    ensures OthersUnchanged(store, r.1, s.hasChanged)
  {
    (s.(scaleFactor := Some(f)), store[s.hasChanged := true])
  }

  /** `Size::handle_changes`: the handler is called once with the record,
      whatever the flag says, and the flag is cleared afterwards. The result
      lists the handler's arguments in call order. */
  function HandleChanges(s: Size, store: FlagStore): (r: (seq<Size>, FlagStore))
    requires Valid(s, store)
    ensures |r.0| == 1 && r.0[0] == s
    ensures Valid(s, r.1) && !Changed(s, r.1)
    ensures OthersUnchanged(store, r.1, s.hasChanged)
  {
    ([s], store[s.hasChanged := false])
  }

  /** A clone sees the flag its original sees, before and after it is
      cleared through either of them. */
  lemma ClonesShareTheFlag(s: Size, store: FlagStore)
    requires Valid(s, store)
    ensures Valid(Clone(s), store) && Changed(Clone(s), store) == Changed(s, store)
    ensures !Changed(s, HandleChanges(Clone(s), store).1)
    ensures Changed(s, Resize(Clone(s), store, s.logical).1)
  {
  }

  /** The geometry updates the compositor can trigger. */
  datatype GeometryOp = ResizeTo(logical: Dims) | RescaleTo(factor: ScaleFactor)

  function Apply(s: Size, store: FlagStore, op: GeometryOp): (r: (Size, FlagStore))
    requires Valid(s, store)
    ensures Valid(r.0, r.1) && r.0.hasChanged == s.hasChanged && |r.1| == |store|
  {
    match op
    case ResizeTo(l) => Resize(s, store, l)
    case RescaleTo(f) => Rescale(s, store, f)
  }

  function ApplyAll(s: Size, store: FlagStore, ops: seq<GeometryOp>): (r: (Size, FlagStore))
    requires Valid(s, store)
    ensures Valid(r.0, r.1) && r.0.hasChanged == s.hasChanged && |r.1| == |store|
    decreases |ops|
  {
    if ops == [] then (s, store)
    else
      var (s', store') := Apply(s, store, ops[0]);
      ApplyAll(s', store', ops[1..])
  }

  /** The logical size named by the last resize in `ops`, or `initial`. */
  function LastLogical(initial: Dims, ops: seq<GeometryOp>): Dims
    decreases |ops|
  {
    if ops == [] then initial
    else if ops[|ops| - 1].ResizeTo? then ops[|ops| - 1].logical
    else LastLogical(initial, ops[..|ops| - 1])
  }

  /** The scale named by the last rescale in `ops`, or `initial`. */
  function LastScale(initial: Option<ScaleFactor>, ops: seq<GeometryOp>): Option<ScaleFactor>
    decreases |ops|
  {
    if ops == [] then initial
    else if ops[|ops| - 1].RescaleTo? then Some(ops[|ops| - 1].factor)
    else LastScale(initial, ops[..|ops| - 1])
  }

  /** Geometry changes coalesce: after any run of resizes and rescales the
      record holds only the last size and the last scale applied, so the
      physical size depends on nothing else; a non-empty run leaves the
      flag set. */
  lemma {:induction false} ApplyAllKeepsOnlyTheLast(s: Size, store: FlagStore, ops: seq<GeometryOp>)
    requires Valid(s, store)
    ensures var (s', store') := ApplyAll(s, store, ops);
      && s'.logical == LastLogical(s.logical, ops)
      && s'.scaleFactor == LastScale(s.scaleFactor, ops)
      && PhysicalSize(s') == PhysicalSize(Size(LastLogical(s.logical, ops), LastScale(s.scaleFactor, ops), s.hasChanged))
      && (ops != [] ==> Changed(s', store'))
      && (ops == [] ==> store' == store)
    decreases |ops|
  {
    if ops != [] {
      var (s1, store1) := Apply(s, store, ops[0]);
      ApplyAllKeepsOnlyTheLast(s1, store1, ops[1..]);
      LastOfTail(s.logical, s.scaleFactor, ops);
    }
  }

  /** Looking for the last update in `ops` after the first one has been
      applied to the starting values finds the same as looking in all of `ops`. */
  lemma {:induction false} LastOfTail(l: Dims, f: Option<ScaleFactor>, ops: seq<GeometryOp>)
    requires ops != []
    ensures LastLogical(if ops[0].ResizeTo? then ops[0].logical else l, ops[1..]) == LastLogical(l, ops)
    ensures LastScale(if ops[0].RescaleTo? then Some(ops[0].factor) else f, ops[1..]) == LastScale(f, ops)
    decreases |ops|
  {
    if |ops| > 1 {
      var init := ops[..|ops| - 1];
      assert ops[1..][..|ops[1..]| - 1] == init[1..];
      assert init[0] == ops[0];
      LastOfTail(l, f, init);
    }
  }
}
