/** `best_physical_device`: the rule that picks a GPU and a queue family
    for the surface. Devices are abstract records of what the rule looks at:
    supported extensions, queue families and the device type. */
module DeviceSelection {
  import opened Common

  datatype DeviceType = DiscreteGpu | IntegratedGpu | VirtualGpu | Cpu | OtherDeviceType

  /** The outcome of `surface_support(i, surface)`; a failed query counts as
      unsupported (`unwrap_or(false)`). */
  datatype SurfaceSupport = SupportQueried(supported: bool) | SupportQueryFailed

  datatype QueueFamily = QueueFamily(graphics: bool, surfaceSupport: SurfaceSupport)

  datatype PhysicalDevice = PhysicalDevice(
    extensions: set<string>,
    queueFamilies: seq<QueueFamily>,
    deviceType: DeviceType)

  /** The chosen device (its position in enumeration order) and queue family. */
  datatype Selection = Selection(device: nat, queueFamily: nat)

  /** The only device extension the client asks for. */
  const REQUIRED_EXTENSIONS: set<string> := {"VK_KHR_swapchain"}

  /** Preference order of device types: lower is better. */
  function Rank(t: DeviceType): (r: nat)
    ensures r <= 4
    ensures t == DiscreteGpu <==> r == 0
    ensures t == IntegratedGpu <==> r == 1
    ensures t == VirtualGpu <==> r == 2
    ensures t == Cpu <==> r == 3
    ensures t == OtherDeviceType <==> r == 4
  {
    match t
    case DiscreteGpu => 0
    case IntegratedGpu => 1
    case VirtualGpu => 2
    case Cpu => 3
    case OtherDeviceType => 4
  }

  lemma RankIsInjective(s: DeviceType, t: DeviceType)
    requires Rank(s) == Rank(t)
    ensures s == t
  {
  }

  /** A queue family that can draw and present to the surface. */
  predicate Usable(q: QueueFamily) {
    q.graphics && q.surfaceSupport == SupportQueried(true)
  }

  /** The `position` of the first usable queue family. */
  function FirstUsable(qs: seq<QueueFamily>): (r: Option<nat>)
    ensures r.Some? ==> r.value < |qs| && Usable(qs[r.value])
    ensures r.Some? ==> forall j :: 0 <= j < r.value ==> !Usable(qs[j])
    ensures r.None? <==> forall j :: 0 <= j < |qs| ==> !Usable(qs[j])
    decreases |qs|
  {
    if qs == [] then None
    else if Usable(qs[0]) then Some(0)
    else
      match FirstUsable(qs[1..])
      case Some(i) => Some(i + 1)
      case None => None
  }

  /** A device survives both filters: it has the extensions and a usable
      queue family. */
  predicate Candidate(d: PhysicalDevice, required: set<string>) {
    required <= d.extensions && FirstUsable(d.queueFamilies).Some?
  }

  /** The rule, stated on its own: a candidate of least rank, the first one
      enumerated among equals, with its first usable queue family. */
  ghost predicate IsBestChoice(devs: seq<PhysicalDevice>, required: set<string>, sel: Selection) {
    && sel.device < |devs|
    && Candidate(devs[sel.device], required)
    && FirstUsable(devs[sel.device].queueFamilies) == Some(sel.queueFamily)
    && (forall j :: 0 <= j < |devs| && Candidate(devs[j], required) ==>
          Rank(devs[sel.device].deviceType) <= Rank(devs[j].deviceType))
    && (forall j :: 0 <= j < sel.device && Candidate(devs[j], required) ==>
          Rank(devs[sel.device].deviceType) < Rank(devs[j].deviceType))
  }

  /** The filter / filter_map / min_by_key pipeline. `None` is the
      "no device available" panic. */
  method BestPhysicalDevice(devs: seq<PhysicalDevice>, required: set<string>) returns (sel: Option<Selection>)
    ensures sel.Some? ==> IsBestChoice(devs, required, sel.value)
    ensures sel.None? <==> forall j :: 0 <= j < |devs| ==> !Candidate(devs[j], required)
  {
    sel := None;
    var i := 0;
    while i < |devs|
      invariant 0 <= i <= |devs|
      invariant sel.None? <==> forall j :: 0 <= j < i ==> !Candidate(devs[j], required)
      invariant sel.Some? ==>
                  && sel.value.device < i
                  && Candidate(devs[sel.value.device], required)
                  && FirstUsable(devs[sel.value.device].queueFamilies) == Some(sel.value.queueFamily)
                  && (forall j :: 0 <= j < i && Candidate(devs[j], required) ==>
                        Rank(devs[sel.value.device].deviceType) <= Rank(devs[j].deviceType))
                  && (forall j :: 0 <= j < sel.value.device && Candidate(devs[j], required) ==>
                        Rank(devs[sel.value.device].deviceType) < Rank(devs[j].deviceType))
    {
      var d := devs[i];
      if required <= d.extensions {
        var q := FirstUsable(d.queueFamilies);
        if q.Some? {
          if sel.None? || Rank(d.deviceType) < Rank(devs[sel.value.device].deviceType) {
            sel := Some(Selection(i, q.value));
          }
        }
      }
      i := i + 1;
    }
  }

  /** At most one selection meets the rule, so ties cannot be resolved two
      ways: the earliest device of least rank is the only answer. */
  lemma BestChoiceIsUnique(devs: seq<PhysicalDevice>, required: set<string>, s1: Selection, s2: Selection)
    requires IsBestChoice(devs, required, s1) && IsBestChoice(devs, required, s2)
    ensures s1 == s2
  {
  }
}
