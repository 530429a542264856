/**
 * Choosing the physical device: the required-extension check, the
 * assignment of queue families to the render, compute and transfer roles,
 * the score of the device type, and the pick of the best suitable device.
 * Both snapshots are covered; they differ only in which family a role gets
 * (`Rules`). Also the instance-extension list and the run-info validation
 * of the older snapshot.
 *
 * Enumerations are the driver's and GLFW's: a device is given as its
 * extension names, its queue-family flags and its type, and the lists are
 * cut at the engine's array sizes before anything reads them.
 */
module Device {
  import opened Base
  import Resources

  const PHYSICAL_DEVICE_MAX_QUEUE_FAMILIES: nat := 64
  const PHYSICAL_DEVICE_MAX_EXTENSIONS: nat := 512
  const MAX_PHYSICAL_DEVICE_COUNT: nat := 8
  const MAX_REQUIRED_EXT_COUNT: nat := 128

  const QUEUE_GRAPHICS: bv32 := 0x1
  const QUEUE_COMPUTE: bv32 := 0x2
  const QUEUE_TRANSFER: bv32 := 0x4
  const QUEUE_FLAGS_MASK: bv32 := 0x7

  const PHYSICAL_DEVICE_TYPE_INTEGRATED_GPU: nat := 1
  const PHYSICAL_DEVICE_TYPE_DISCRETE_GPU: nat := 2

  const VULKAN_FLAG_DEBUG: bv32 := 0x1

  const REQUIRED_DEVICE_EXTENSIONS: seq<string> := ["VK_KHR_dynamic_rendering", "VK_KHR_swapchain", "VK_KHR_spirv_1_4"]
  const DEBUG_UTILS_EXTENSION: string := "VK_EXT_debug_utils"

  datatype PhysicalDevice = PhysicalDevice(extensions: seq<string>, families: seq<bv32>, deviceType: nat)

  /** What the check records for a suitable device; a role without a family is `None`. */
  datatype DeviceInfo = DeviceInfo(renderFamily: nat, computeFamily: Option<nat>, transferFamily: Option<nat>,
                                   score: nat, dtype: Resources.DeviceType)

  /** The newer snapshot gives a role its first matching family, the older one its last. */
  datatype Rules = FirstFamily | LastFamily

  datatype Role = RenderRole | ComputeRole | TransferRole

  /** The first `n` elements, or all of them when there are fewer. */
  function Capped<T>(s: seq<T>, n: nat): (r: seq<T>)
    ensures |r| == Min(|s|, n) && forall i | 0 <= i < |r| :: r[i] == s[i]
  {
    s[..Min(|s|, n)]
  }

  // ---------------------------------------------------------------
  // Extensions
  // ---------------------------------------------------------------

  predicate AllPresent(required: seq<string>, available: seq<string>)
  {
    forall i | 0 <= i < |required| :: required[i] in Capped(available, PHYSICAL_DEVICE_MAX_EXTENSIONS)
  }

  /** Every required name is among the first 512 names the device reports. */
  method ExtensionsPresent(required: seq<string>, available: seq<string>) returns (ok: bool)
    ensures ok <==> AllPresent(required, available)
  {
    var names := Capped(available, PHYSICAL_DEVICE_MAX_EXTENSIONS);
    for i := 0 to |required|
      invariant forall k | 0 <= k < i :: required[k] in names
    {
      var j := 0;
      while j < |names| && names[j] != required[i]
        invariant 0 <= j <= |names|
        invariant forall l | 0 <= l < j :: names[l] != required[i]
      {
        j := j + 1;
      }
      if j == |names| {
        return false;
      }
    }
    return true;
  }

  // ---------------------------------------------------------------
  // Queue roles
  // ---------------------------------------------------------------

  /** The masked flags a family must have exactly to take a role. */
  function Pattern(rules: Rules, role: Role): bv32
  {
    match role
    case RenderRole => QUEUE_GRAPHICS | QUEUE_COMPUTE | QUEUE_TRANSFER
    case ComputeRole => if rules == FirstFamily then QUEUE_COMPUTE | QUEUE_TRANSFER else QUEUE_COMPUTE
    case TransferRole => QUEUE_TRANSFER
  }

  predicate Serves(families: seq<bv32>, i: nat, pattern: bv32)
    requires i < |families|
  {
    families[i] & QUEUE_FLAGS_MASK == pattern
  }

  /** The lowest of the first `n` families with the pattern. */
  function FirstServing(families: seq<bv32>, pattern: bv32, n: nat): (r: Option<nat>)
    requires n <= |families|
    ensures r.Some? ==> r.value < n && Serves(families, r.value, pattern)
                        && forall j | 0 <= j < r.value :: !Serves(families, j, pattern)
    ensures r.None? ==> forall j | 0 <= j < n :: !Serves(families, j, pattern)
  {
    if n == 0 then None
    else match FirstServing(families, pattern, n - 1)
      case Some(i) => Some(i)
      case None => if Serves(families, n - 1, pattern) then Some(n - 1) else None
  }

  /** The highest of the first `n` families with the pattern. */
  function LastServing(families: seq<bv32>, pattern: bv32, n: nat): (r: Option<nat>)
    requires n <= |families|
    ensures r.Some? ==> r.value < n && Serves(families, r.value, pattern)
                        && forall j | r.value < j < n :: !Serves(families, j, pattern)
    ensures r.None? ==> forall j | 0 <= j < n :: !Serves(families, j, pattern)
  {
    if n == 0 then None
    else if Serves(families, n - 1, pattern) then Some(n - 1)
    else LastServing(families, pattern, n - 1)
  }

  function Serving(rules: Rules, families: seq<bv32>, pattern: bv32, n: nat): Option<nat>
    requires n <= |families|
  {
    if rules == FirstFamily then FirstServing(families, pattern, n) else LastServing(families, pattern, n)
  }

  /**
   * The family a role gets among the first 64: one whose masked flags are
   * exactly the role's pattern, the first such under the newer rules and
   * the last under the older ones, and none when no family has it.
   */
  function RoleFamily(rules: Rules, families: seq<bv32>, role: Role): (r: Option<nat>)
    ensures var fs := Capped(families, PHYSICAL_DEVICE_MAX_QUEUE_FAMILIES);
      (r.Some? ==> r.value < |fs| && Serves(fs, r.value, Pattern(rules, role))
                   && (rules == FirstFamily ==> forall j | 0 <= j < r.value :: !Serves(fs, j, Pattern(rules, role)))
                   && (rules == LastFamily ==> forall j | r.value < j < |fs| :: !Serves(fs, j, Pattern(rules, role))))
      && (r.None? ==> forall j | 0 <= j < |fs| :: !Serves(fs, j, Pattern(rules, role)))
  {
    var fs := Capped(families, PHYSICAL_DEVICE_MAX_QUEUE_FAMILIES);
    Serving(rules, fs, Pattern(rules, role), |fs|)
  }

  /** No family takes two roles: the three patterns differ. */
  lemma RolesDistinct(rules: Rules, families: seq<bv32>, a: Role, b: Role)
    requires a != b && RoleFamily(rules, families, a).Some? && RoleFamily(rules, families, b).Some?
    ensures RoleFamily(rules, families, a) != RoleFamily(rules, families, b)
  {
    assert Pattern(rules, a) != Pattern(rules, b);
  }

  /**
   * The family scan. Under the newer rules a role is taken only while it is
   * still unassigned; under the older ones every match overwrites it. A
   * family taking a role is not tried for the later ones.
   */
  method QueueRoles(rules: Rules, families: seq<bv32>) returns (render: Option<nat>, compute: Option<nat>, transfer: Option<nat>)
    ensures render == RoleFamily(rules, families, RenderRole)
    ensures compute == RoleFamily(rules, families, ComputeRole)
    ensures transfer == RoleFamily(rules, families, TransferRole)
  {
    var fs := Capped(families, PHYSICAL_DEVICE_MAX_QUEUE_FAMILIES);
    render, compute, transfer := None, None, None;
    for i := 0 to |fs|
      invariant render == Serving(rules, fs, Pattern(rules, RenderRole), i)
      invariant compute == Serving(rules, fs, Pattern(rules, ComputeRole), i)
      invariant transfer == Serving(rules, fs, Pattern(rules, TransferRole), i)
    {
      var flags := fs[i] & QUEUE_FLAGS_MASK;
      if (rules == LastFamily || render.None?) && flags == Pattern(rules, RenderRole) {
        render := Some(i);
      } else if (rules == LastFamily || compute.None?) && flags == Pattern(rules, ComputeRole) {
        compute := Some(i);
      } else if (rules == LastFamily || transfer.None?) && flags == Pattern(rules, TransferRole) {
        transfer := Some(i);
      }
    }
  }

  // ---------------------------------------------------------------
  // The device check
  // ---------------------------------------------------------------

  /** A discrete device scores 1000, an integrated one 500, any other type nothing. */
  function Score(deviceType: nat): (s: nat)
    ensures deviceType == PHYSICAL_DEVICE_TYPE_DISCRETE_GPU ==> s == 1000
    ensures deviceType == PHYSICAL_DEVICE_TYPE_INTEGRATED_GPU ==> s == 500
    ensures deviceType != PHYSICAL_DEVICE_TYPE_DISCRETE_GPU && deviceType != PHYSICAL_DEVICE_TYPE_INTEGRATED_GPU ==> s == 0
  {
    if deviceType == PHYSICAL_DEVICE_TYPE_DISCRETE_GPU then 1000
    else if deviceType == PHYSICAL_DEVICE_TYPE_INTEGRATED_GPU then 500
    else 0
  }

  /** The recorded type: discrete, integrated, or none for every other type. */
  function TypeOf(deviceType: nat): (t: Resources.DeviceType)
    ensures t == Resources.Discrete <==> deviceType == PHYSICAL_DEVICE_TYPE_DISCRETE_GPU
    ensures t == Resources.Integrated <==> deviceType == PHYSICAL_DEVICE_TYPE_INTEGRATED_GPU
    ensures t == Resources.DeviceTypeNone <==>
      deviceType != PHYSICAL_DEVICE_TYPE_DISCRETE_GPU && deviceType != PHYSICAL_DEVICE_TYPE_INTEGRATED_GPU
  {
    if deviceType == PHYSICAL_DEVICE_TYPE_DISCRETE_GPU then Resources.Discrete
    else if deviceType == PHYSICAL_DEVICE_TYPE_INTEGRATED_GPU then Resources.Integrated
    else Resources.DeviceTypeNone
  }

  /**
   * A device is suitable when it has every required extension and some
   * family can render; it is then recorded with its roles, its score and
   * its type, a discrete device outranking an integrated one and that one
   * any other.
   */
  function CheckDevice(rules: Rules, required: seq<string>, d: PhysicalDevice): (r: Option<DeviceInfo>)
    ensures r.Some? <==> AllPresent(required, d.extensions) && RoleFamily(rules, d.families, RenderRole).Some?
    ensures r.Some? ==> Some(r.value.renderFamily) == RoleFamily(rules, d.families, RenderRole)
                        && r.value.computeFamily == RoleFamily(rules, d.families, ComputeRole)
                        && r.value.transferFamily == RoleFamily(rules, d.families, TransferRole)
    ensures r.Some? ==> r.value.score == Score(d.deviceType) && r.value.dtype == TypeOf(d.deviceType)
    ensures r.Some? ==> (r.value.dtype == Resources.Discrete <==> r.value.score == 1000)
                        && (r.value.dtype == Resources.Integrated <==> r.value.score == 500)
                        && (r.value.dtype == Resources.DeviceTypeNone <==> r.value.score == 0)
  {
    if !AllPresent(required, d.extensions) then None
    else match RoleFamily(rules, d.families, RenderRole)
      case None => None
      case Some(render) =>
        Some(DeviceInfo(render, RoleFamily(rules, d.families, ComputeRole), RoleFamily(rules, d.families, TransferRole),
                        Score(d.deviceType), TypeOf(d.deviceType)))
  }

  method CheckPhysicalDevice(rules: Rules, required: seq<string>, d: PhysicalDevice) returns (r: Option<DeviceInfo>)
    ensures r == CheckDevice(rules, required, d)
  {
    var ok := ExtensionsPresent(required, d.extensions);
    if !ok {
      return None;
    }
    var render, compute, transfer := QueueRoles(rules, d.families);
    if render.None? {
      return None;
    }
    var score := 0;
    var dtype := Resources.DeviceTypeNone;
    if d.deviceType == PHYSICAL_DEVICE_TYPE_DISCRETE_GPU {
      score, dtype := score + 1000, Resources.Discrete;
    } else if d.deviceType == PHYSICAL_DEVICE_TYPE_INTEGRATED_GPU {
      score, dtype := score + 500, Resources.Integrated;
    }
    r := Some(DeviceInfo(render.value, compute, transfer, score, dtype));
  }

  // ---------------------------------------------------------------
  // Picking the device
  // ---------------------------------------------------------------

  /** The infos of the suitable devices, in enumeration order. */
  function SuitableInfos(rules: Rules, required: seq<string>, devices: seq<PhysicalDevice>): seq<DeviceInfo>
  {
    if |devices| == 0 then []
    else
      var front := SuitableInfos(rules, required, devices[..|devices| - 1]);
      match CheckDevice(rules, required, devices[|devices| - 1])
      case None => front
      case Some(info) => front + [info]
  }

  /** Entry `k` has the highest score, and no earlier entry has it. */
  predicate BestAt(infos: seq<DeviceInfo>, k: nat)
  {
    k < |infos|
    && (forall j | 0 <= j < |infos| :: infos[j].score <= infos[k].score)
    && (forall j | 0 <= j < k :: infos[j].score < infos[k].score)
  }

  /** The scan keeps the first entry and replaces it only by a strictly higher score. */
  method PickBest(infos: seq<DeviceInfo>) returns (best: nat)
    requires |infos| > 0
    ensures BestAt(infos, best)
  {
    best := 0;
    for i := 0 to |infos|
      invariant best < |infos| && best <= i
      invariant forall j | 0 <= j < i :: infos[j].score <= infos[best].score
      invariant forall j | 0 <= j < best :: infos[j].score < infos[best].score
    {
      if infos[best].score < infos[i].score {
        best := i;
      }
    }
  }

  /**
   * Checks the first eight devices and picks the best suitable one; with
   * no suitable device the creation fails with FAILED_TO_FIND_GPU.
   */
  method SelectDevice(rules: Rules, required: seq<string>, devices: seq<PhysicalDevice>) returns (r: Result<DeviceInfo>)
    ensures var suitable := SuitableInfos(rules, required, Capped(devices, MAX_PHYSICAL_DEVICE_COUNT));
      (r.Err? <==> |suitable| == 0)
      && (r.Err? ==> r.code == MSG_CODE_ERROR_VK_FAILED_TO_FIND_GPU)
      && (r.Ok? ==> exists k: nat :: BestAt(suitable, k) && r.value == suitable[k])
  {
    var ds := Capped(devices, MAX_PHYSICAL_DEVICE_COUNT);
    var infos: seq<DeviceInfo> := [];
    for i := 0 to |ds|
      invariant infos == SuitableInfos(rules, required, ds[..i])
    {
      assert ds[..i + 1][..i] == ds[..i];
      var info := CheckPhysicalDevice(rules, required, ds[i]);
      if info.Some? {
        infos := infos + [info.value];
      }
    }
    assert ds[..|ds|] == ds;
    if |infos| == 0 {
      return Err(MSG_CODE_ERROR_VK_FAILED_TO_FIND_GPU);
    }
    var best := PickBest(infos);
    r := Ok(infos[best]);
  }

  // ---------------------------------------------------------------
  // Instance extensions and run info
  // ---------------------------------------------------------------

  /**
   * The instance extensions asked for: GLFW's list cut to 126 names,
   * followed by the debug-utils extension exactly when the debug flag is set.
   */
  method RequiredInstanceExtensions(glfw: seq<string>, flags: bv32) returns (names: seq<string>)
    ensures var n := Min(|glfw|, MAX_REQUIRED_EXT_COUNT - 2);
      |names| == n + (if flags & VULKAN_FLAG_DEBUG != 0 then 1 else 0)
      && (forall i | 0 <= i < n :: names[i] == glfw[i])
      && (flags & VULKAN_FLAG_DEBUG != 0 ==> names[n] == DEBUG_UTILS_EXTENSION)
  {
    var count := Min(|glfw|, MAX_REQUIRED_EXT_COUNT - 2);
    names := [];
    for i := 0 to count
      invariant |names| == i && forall k | 0 <= k < i :: names[k] == glfw[k]
    {
      names := names + [glfw[i]];
    }
    if flags & VULKAN_FLAG_DEBUG != 0 {
      names := names + [DEBUG_UTILS_EXTENSION];
    }
  }

  /**
   * The run info as the validation sees it: whether the callback is set
   * and whether it halts on the INFO_INVALID code, whether the name is set,
   * and the window size.
   */
  datatype RunInfo = RunInfo(hasCallback: bool, callbackHalts: bool, hasName: bool, x: nat, y: nat)

  /**
   * A missing info record or callback returns INFO_INVALID at once; a
   * missing name or a zero size is reported through the callback, which
   * decides whether the run stops there.
   */
  function ValidateRunInfo(info: Option<RunInfo>): (f: Flow)
    ensures f.ReturnCode? ==> f.code == MSG_CODE_ERROR_VK_INFO_INVALID
    ensures f.ReturnCode? <==>
              (info.None? || !info.value.hasCallback
               || (info.value.callbackHalts && (!info.value.hasName || info.value.x == 0 || info.value.y == 0)))
  {
    match info
    case None => ReturnCode(MSG_CODE_ERROR_VK_INFO_INVALID)
    case Some(i) =>
      if !i.hasCallback then ReturnCode(MSG_CODE_ERROR_VK_INFO_INVALID)
      else
        var nameFlow := if !i.hasName then MsgCallbackFlow(i.callbackHalts, MSG_CODE_ERROR_VK_INFO_INVALID) else FallThrough;
        if nameFlow.ReturnCode? then nameFlow
        else if i.x == 0 || i.y == 0 then MsgCallbackFlow(i.callbackHalts, MSG_CODE_ERROR_VK_INFO_INVALID)
        else FallThrough
  }
}
