/**
 * Choice of the surface parameters a swapchain is made with: the colour
 * format, the depth format, the present mode, the image count and the
 * extent, from what the device reports about the window surface. Both the
 * newer renderer's selection and the older one's are modelled; the
 * reported lists, feature bits and capabilities are inputs.
 *
 * The numeric values of the Vulkan enumerants are those of the Vulkan
 * API registry (vulkan_core.h).
 */
module Surface {
  import opened Base

  const FORMAT_B8G8R8A8_SRGB: nat := 50
  const FORMAT_D32_SFLOAT: nat := 126
  const FORMAT_D24_UNORM_S8_UINT: nat := 129
  const FORMAT_D32_SFLOAT_S8_UINT: nat := 130
  const COLOR_SPACE_SRGB_NONLINEAR: nat := 0
  const PRESENT_MODE_MAILBOX: nat := 1
  const PRESENT_MODE_FIFO: nat := 2
  const FORMAT_FEATURE_DEPTH_STENCIL_ATTACHMENT: bv32 := 0x200

  /** At most eight swapchain images are kept. */
  const MAX_SWAPCHAIN_IMAGE_COUNT: nat := 8

  /** How many reported formats and present modes each renderer looks at. */
  const MAX_SURFACE_FORMATS_COUNT: nat := 1024
  const LEGACY_MAX_SURFACE_FORMATS_COUNT: nat := 512
  const MAX_PRESENT_MODES_COUNT: nat := 256

  /** The depth formats tried, in order of preference. */
  const DEPTH_CANDIDATES: seq<nat> := [FORMAT_D32_SFLOAT, FORMAT_D32_SFLOAT_S8_UINT, FORMAT_D24_UNORM_S8_UINT]

  datatype SurfaceFormat = SurfaceFormat(format: nat, colorSpace: nat)

  datatype Extent = Extent(width: nat, height: nat)

  /** The part of the surface capabilities the selection reads. */
  datatype Capabilities = Capabilities(
    minImageCount: nat, maxImageCount: nat, currentTransform: nat,
    currentExtent: Extent, minImageExtent: Extent, maxImageExtent: Extent)

  /** The newer renderer's surface record. */
  datatype SurfaceData = SurfaceData(
    colorFormat: nat, colorSpace: nat, depthFormat: nat, presentMode: nat,
    minImageCount: nat, maxImageCount: nat, transform: nat, extent: Extent)

  /** The older renderer's swapchain parameters. */
  datatype SwapchainParams = SwapchainParams(
    surfaceFormat: SurfaceFormat, presentMode: nat, minImageCount: nat,
    transform: nat, extent: Extent, depthFormat: nat)

  // ---------------------------------------------------------------
  // The choices
  // ---------------------------------------------------------------

  predicate PreferredFormat(f: SurfaceFormat)
  {
    f.format == FORMAT_B8G8R8A8_SRGB && f.colorSpace == COLOR_SPACE_SRGB_NONLINEAR
  }

  predicate PreferredListed(formats: seq<SurfaceFormat>)
  {
    exists k | 0 <= k < |formats| :: PreferredFormat(formats[k])
  }

  /** The part of a reported list that fits the fixed-size query buffer. */
  function Fetched<T>(list: seq<T>, cap: nat): (r: seq<T>)
    ensures |r| == Min(|list|, cap) && r == list[..|r|]
  {
    list[..Min(|list|, cap)]
  }

  /** The device reports the depth-stencil attachment feature for a candidate. */
  predicate DepthUsable(features: bv32)
  {
    features & FORMAT_FEATURE_DEPTH_STENCIL_ATTACHMENT != 0
  }

  /**
   * The index of the first depth candidate the device can attach, given the
   * features reported for the three candidates.
   */
  function FirstDepth(features: seq<bv32>): (r: Option<nat>)
    requires |features| == |DEPTH_CANDIDATES|
    ensures r.Some? ==> r.value < |DEPTH_CANDIDATES| && DepthUsable(features[r.value])
    ensures r.Some? ==> forall j | 0 <= j < r.value :: !DepthUsable(features[j])
    ensures r.None? <==> forall j | 0 <= j < |DEPTH_CANDIDATES| :: !DepthUsable(features[j])
  {
    if DepthUsable(features[0]) then Some(0)
    else if DepthUsable(features[1]) then Some(1)
    else if DepthUsable(features[2]) then Some(2)
    else None
  }

  /** `t` limited, per axis, to the range from `lo` to `hi`. */
  function ClampExtent(lo: Extent, hi: Extent, t: Extent): (e: Extent)
    ensures lo.width <= hi.width ==> lo.width <= e.width <= hi.width
    ensures lo.height <= hi.height ==> lo.height <= e.height <= hi.height
    ensures lo.width <= t.width <= hi.width ==> e.width == t.width
    ensures lo.height <= t.height <= hi.height ==> e.height == t.height
  {
    Extent(Clamp(lo.width, hi.width, t.width), Clamp(lo.height, hi.height, t.height))
  }

  /**
   * The extent after a resize: per axis, the smaller of the framebuffer and
   * the surface's current extent.
   */
  function ResizeExtent(framebuffer: Extent, current: Extent): (e: Extent)
    ensures e.width <= framebuffer.width && e.width <= current.width
    ensures e.height <= framebuffer.height && e.height <= current.height
    ensures e.width == framebuffer.width || e.width == current.width
    ensures e.height == framebuffer.height || e.height == current.height
  {
    Extent(Min(framebuffer.width, current.width), Min(framebuffer.height, current.height))
  }

  // ---------------------------------------------------------------
  // The newer renderer
  // ---------------------------------------------------------------

  /**
   * The surface record, or the first error met: no format, no usable depth
   * format, no present mode, or a minimum image count above eight.
   */
  function SurfaceDataOf(formats: seq<SurfaceFormat>, depthFeatures: seq<bv32>, modes: seq<nat>, caps: Capabilities): (r: Result<SurfaceData>)
    requires |depthFeatures| == |DEPTH_CANDIDATES|
    ensures r.Err? <==>
      |formats| == 0 || FirstDepth(depthFeatures).None? || |modes| == 0 || caps.minImageCount > MAX_SWAPCHAIN_IMAGE_COUNT
    ensures |formats| == 0 ==> r == Err(MSG_CODE_ERROR_VK_NO_SURFACE_FORMATS_AVAILABLE)
    ensures |formats| != 0 && FirstDepth(depthFeatures).None? ==> r == Err(MSG_CODE_ERROR_VK_NO_DEPTH_MODES_AVAILABLE)
    ensures |formats| != 0 && FirstDepth(depthFeatures).Some? && |modes| == 0 ==>
      r == Err(MSG_CODE_ERROR_VK_NO_PRESENT_MODES_AVAILABLE)
    ensures |formats| != 0 && FirstDepth(depthFeatures).Some? && |modes| != 0 && caps.minImageCount > MAX_SWAPCHAIN_IMAGE_COUNT ==>
      r == Err(MSG_CODE_ERROR_VK_SWAPCHAIN_TOO_MANY_IMAGES)
    ensures r.Ok? ==>
      var d := r.value;
      (d.colorFormat == FORMAT_B8G8R8A8_SRGB <==> PreferredListed(Fetched(formats, MAX_SURFACE_FORMATS_COUNT)) || formats[0].format == FORMAT_B8G8R8A8_SRGB)
      && (!PreferredListed(Fetched(formats, MAX_SURFACE_FORMATS_COUNT)) ==> d.colorFormat == formats[0].format)
      && d.colorSpace == COLOR_SPACE_SRGB_NONLINEAR
      && d.depthFormat == DEPTH_CANDIDATES[FirstDepth(depthFeatures).value]
      && (d.presentMode == PRESENT_MODE_MAILBOX <==> PRESENT_MODE_MAILBOX in Fetched(modes, MAX_PRESENT_MODES_COUNT))
      && (d.presentMode == PRESENT_MODE_MAILBOX || d.presentMode == PRESENT_MODE_FIFO)
      && d.minImageCount == caps.minImageCount + 1 && 1 <= d.minImageCount <= MAX_SWAPCHAIN_IMAGE_COUNT + 1
      && d.maxImageCount == caps.maxImageCount
      && d.transform == caps.currentTransform
      && d.extent == ClampExtent(caps.minImageExtent, caps.maxImageExtent, caps.currentExtent)
  {
    var listed := Fetched(formats, MAX_SURFACE_FORMATS_COUNT);
    var listedModes := Fetched(modes, MAX_PRESENT_MODES_COUNT);
    if |listed| == 0 then Err(MSG_CODE_ERROR_VK_NO_SURFACE_FORMATS_AVAILABLE)
    else
      var depth := FirstDepth(depthFeatures);
      if depth.None? then Err(MSG_CODE_ERROR_VK_NO_DEPTH_MODES_AVAILABLE)
      else if |listedModes| == 0 then Err(MSG_CODE_ERROR_VK_NO_PRESENT_MODES_AVAILABLE)
      else if caps.minImageCount > MAX_SWAPCHAIN_IMAGE_COUNT then Err(MSG_CODE_ERROR_VK_SWAPCHAIN_TOO_MANY_IMAGES)
      else
        Ok(SurfaceData(
          if PreferredListed(listed) then FORMAT_B8G8R8A8_SRGB else formats[0].format,
          COLOR_SPACE_SRGB_NONLINEAR,
          DEPTH_CANDIDATES[depth.value],
          if PRESENT_MODE_MAILBOX in listedModes then PRESENT_MODE_MAILBOX else PRESENT_MODE_FIFO,
          caps.minImageCount + 1,
          caps.maxImageCount,
          caps.currentTransform,
          ClampExtent(caps.minImageExtent, caps.maxImageExtent, caps.currentExtent)))
  }

  /**
   * The newer selection, written as the engine's scans: the record starts
   * zeroed, the format scan stops at the preferred entry, the depth scan at
   * the first usable candidate and the mode scan at mailbox.
   */
  method GetSurfaceData(formats: seq<SurfaceFormat>, depthFeatures: seq<bv32>, modes: seq<nat>, caps: Capabilities) returns (r: Result<SurfaceData>)
    requires |depthFeatures| == |DEPTH_CANDIDATES|
    ensures r == SurfaceDataOf(formats, depthFeatures, modes, caps)
  {
    var formatCount := Min(|formats|, MAX_SURFACE_FORMATS_COUNT);
    if formatCount == 0 {
      return Err(MSG_CODE_ERROR_VK_NO_SURFACE_FORMATS_AVAILABLE);
    }
    var colorFormat := formats[0].format;
    var colorSpace := 0;
    var i := 0;
    while i < formatCount
      invariant 0 <= i <= formatCount
      invariant forall k | 0 <= k < i :: !PreferredFormat(formats[k])
      invariant colorFormat == formats[0].format && colorSpace == 0
    {
      if formats[i].format == FORMAT_B8G8R8A8_SRGB && formats[i].colorSpace == COLOR_SPACE_SRGB_NONLINEAR {
        colorFormat := FORMAT_B8G8R8A8_SRGB;
        colorSpace := COLOR_SPACE_SRGB_NONLINEAR;
        break;
      }
      i := i + 1;
    }
    assert colorFormat == if PreferredListed(Fetched(formats, MAX_SURFACE_FORMATS_COUNT)) then FORMAT_B8G8R8A8_SRGB else formats[0].format by {
      if i < formatCount {
        assert PreferredFormat(Fetched(formats, MAX_SURFACE_FORMATS_COUNT)[i]);
      }
    }

    var depthFormat := 0;
    var d := 0;
    while d < |DEPTH_CANDIDATES|
      invariant 0 <= d <= |DEPTH_CANDIDATES|
      invariant forall j | 0 <= j < d :: !DepthUsable(depthFeatures[j])
    {
      if depthFeatures[d] & FORMAT_FEATURE_DEPTH_STENCIL_ATTACHMENT != 0 {
        depthFormat := DEPTH_CANDIDATES[d];
        break;
      }
      d := d + 1;
    }
    if d == |DEPTH_CANDIDATES| {
      return Err(MSG_CODE_ERROR_VK_NO_DEPTH_MODES_AVAILABLE);
    }

    var modeCount := Min(|modes|, MAX_PRESENT_MODES_COUNT);
    if modeCount == 0 {
      return Err(MSG_CODE_ERROR_VK_NO_PRESENT_MODES_AVAILABLE);
    }
    var presentMode := PRESENT_MODE_FIFO;
    var m := 0;
    while m < modeCount
      invariant 0 <= m <= modeCount
      invariant PRESENT_MODE_MAILBOX !in modes[..m] && presentMode == PRESENT_MODE_FIFO
    {
      if modes[m] == PRESENT_MODE_MAILBOX {
        presentMode := PRESENT_MODE_MAILBOX;
        break;
      }
      assert modes[..m + 1] == modes[..m] + [modes[m]];
      m := m + 1;
    }
    assert presentMode == if PRESENT_MODE_MAILBOX in Fetched(modes, MAX_PRESENT_MODES_COUNT) then PRESENT_MODE_MAILBOX else PRESENT_MODE_FIFO by {
      if m < modeCount {
        assert Fetched(modes, MAX_PRESENT_MODES_COUNT)[m] == PRESENT_MODE_MAILBOX;
      } else {
        assert Fetched(modes, MAX_PRESENT_MODES_COUNT) == modes[..m];
      }
    }

    if caps.minImageCount > MAX_SWAPCHAIN_IMAGE_COUNT {
      return Err(MSG_CODE_ERROR_VK_SWAPCHAIN_TOO_MANY_IMAGES);
    }
    var extent := Extent(
      Clamp(caps.minImageExtent.width, caps.maxImageExtent.width, caps.currentExtent.width),
      Clamp(caps.minImageExtent.height, caps.maxImageExtent.height, caps.currentExtent.height));
    r := Ok(SurfaceData(colorFormat, colorSpace, depthFormat, presentMode,
      caps.minImageCount + 1, caps.maxImageCount, caps.currentTransform, extent));
  }

  // ---------------------------------------------------------------
  // The older renderer
  // ---------------------------------------------------------------

  /**
   * The older parameters, or None when there is no format, no present mode
   * or no usable depth format. The whole first format is the fallback, the
   * image count is capped at eight and the extent is the framebuffer size
   * clamped to the surface's limits.
   */
  function SwapchainParamsOf(formats: seq<SurfaceFormat>, modes: seq<nat>, caps: Capabilities, framebuffer: Extent, depthFeatures: seq<bv32>): (r: Option<SwapchainParams>)
    requires |depthFeatures| == |DEPTH_CANDIDATES|
    ensures r.None? <==> |formats| == 0 || |modes| == 0 || FirstDepth(depthFeatures).None?
    ensures r.Some? ==>
      var p := r.value;
      (PreferredListed(Fetched(formats, LEGACY_MAX_SURFACE_FORMATS_COUNT)) ==> p.surfaceFormat == SurfaceFormat(FORMAT_B8G8R8A8_SRGB, COLOR_SPACE_SRGB_NONLINEAR))
      && (!PreferredListed(Fetched(formats, LEGACY_MAX_SURFACE_FORMATS_COUNT)) ==> p.surfaceFormat == formats[0])
      && (p.presentMode == PRESENT_MODE_MAILBOX <==> PRESENT_MODE_MAILBOX in Fetched(modes, MAX_PRESENT_MODES_COUNT))
      && p.minImageCount == Min(MAX_SWAPCHAIN_IMAGE_COUNT, caps.minImageCount)
      && p.minImageCount <= MAX_SWAPCHAIN_IMAGE_COUNT && p.minImageCount <= caps.minImageCount
      && p.transform == caps.currentTransform
      && p.extent == ClampExtent(caps.minImageExtent, caps.maxImageExtent, framebuffer)
      && p.depthFormat == DEPTH_CANDIDATES[FirstDepth(depthFeatures).value]
  {
    var listed := Fetched(formats, LEGACY_MAX_SURFACE_FORMATS_COUNT);
    var listedModes := Fetched(modes, MAX_PRESENT_MODES_COUNT);
    var depth := FirstDepth(depthFeatures);
    if |listed| == 0 || |listedModes| == 0 || depth.None? then None
    else
      Some(SwapchainParams(
        if PreferredListed(listed) then SurfaceFormat(FORMAT_B8G8R8A8_SRGB, COLOR_SPACE_SRGB_NONLINEAR) else formats[0],
        if PRESENT_MODE_MAILBOX in listedModes then PRESENT_MODE_MAILBOX else PRESENT_MODE_FIFO,
        Min(MAX_SWAPCHAIN_IMAGE_COUNT, caps.minImageCount),
        caps.currentTransform,
        ClampExtent(caps.minImageExtent, caps.maxImageExtent, framebuffer),
        DEPTH_CANDIDATES[depth.value]))
  }

  /**
   * The older selection as written: its format and mode scans run to the
   * end of the list instead of stopping at the first match.
   */
  method GetSwapchainParams(formats: seq<SurfaceFormat>, modes: seq<nat>, caps: Capabilities, framebuffer: Extent, depthFeatures: seq<bv32>) returns (r: Option<SwapchainParams>)
    requires |depthFeatures| == |DEPTH_CANDIDATES|
    ensures r == SwapchainParamsOf(formats, modes, caps, framebuffer, depthFeatures)
  {
    var formatCount := Min(|formats|, LEGACY_MAX_SURFACE_FORMATS_COUNT);
    if formatCount == 0 {
      return None;
    }
    var surfaceFormat := formats[0];
    var i := 0;
    while i < formatCount
      invariant 0 <= i <= formatCount
      invariant surfaceFormat == if PreferredListed(formats[..i]) then SurfaceFormat(FORMAT_B8G8R8A8_SRGB, COLOR_SPACE_SRGB_NONLINEAR) else formats[0]
    {
      if formats[i].format == FORMAT_B8G8R8A8_SRGB && formats[i].colorSpace == COLOR_SPACE_SRGB_NONLINEAR {
        surfaceFormat := SurfaceFormat(FORMAT_B8G8R8A8_SRGB, COLOR_SPACE_SRGB_NONLINEAR);
      }
      assert PreferredListed(formats[..i + 1]) <==> PreferredListed(formats[..i]) || PreferredFormat(formats[i]) by {
        if PreferredListed(formats[..i + 1]) {
          var k :| 0 <= k < i + 1 && PreferredFormat(formats[..i + 1][k]);
          if k < i {
            assert formats[..i][k] == formats[k];
          }
        }
        if PreferredFormat(formats[i]) {
          assert formats[..i + 1][i] == formats[i];
        }
        if PreferredListed(formats[..i]) {
          var k :| 0 <= k < i && PreferredFormat(formats[..i][k]);
          assert formats[..i + 1][k] == formats[k];
        }
      }
      i := i + 1;
    }

    var modeCount := Min(|modes|, MAX_PRESENT_MODES_COUNT);
    if modeCount == 0 {
      return None;
    }
    var presentMode := PRESENT_MODE_FIFO;
    var m := 0;
    while m < modeCount
      invariant 0 <= m <= modeCount
      invariant presentMode == if PRESENT_MODE_MAILBOX in modes[..m] then PRESENT_MODE_MAILBOX else PRESENT_MODE_FIFO
    {
      if modes[m] == PRESENT_MODE_MAILBOX {
        presentMode := PRESENT_MODE_MAILBOX;
      }
      assert modes[..m + 1] == modes[..m] + [modes[m]];
      m := m + 1;
    }

    var minImageCount := Min(MAX_SWAPCHAIN_IMAGE_COUNT, caps.minImageCount);
    var extent := Extent(
      Clamp(caps.minImageExtent.width, caps.maxImageExtent.width, framebuffer.width),
      Clamp(caps.minImageExtent.height, caps.maxImageExtent.height, framebuffer.height));

    var d := 0;
    while d < |DEPTH_CANDIDATES|
      invariant 0 <= d <= |DEPTH_CANDIDATES|
      invariant forall j | 0 <= j < d :: !DepthUsable(depthFeatures[j])
    {
      if depthFeatures[d] & FORMAT_FEATURE_DEPTH_STENCIL_ATTACHMENT != 0 {
        return Some(SwapchainParams(surfaceFormat, presentMode, minImageCount, caps.currentTransform, extent, DEPTH_CANDIDATES[d]));
      }
      d := d + 1;
    }
    return None;
  }

  /**
   * Both renderers agree on the mode and, whenever the preferred format is
   * listed among the first 512, on the format; they differ in the image
   * count: the newer asks for one image more than the minimum, the older
   * for the minimum capped at eight.
   */
  lemma SelectionsAgree(formats: seq<SurfaceFormat>, depthFeatures: seq<bv32>, modes: seq<nat>, caps: Capabilities, framebuffer: Extent)
    requires |depthFeatures| == |DEPTH_CANDIDATES|
    requires SurfaceDataOf(formats, depthFeatures, modes, caps).Ok?
    ensures var d := SurfaceDataOf(formats, depthFeatures, modes, caps).value;
      var p := SwapchainParamsOf(formats, modes, caps, framebuffer, depthFeatures);
      p.Some?
      && d.presentMode == p.value.presentMode
      && d.depthFormat == p.value.depthFormat
      && (PreferredListed(Fetched(formats, LEGACY_MAX_SURFACE_FORMATS_COUNT)) ==> d.colorFormat == p.value.surfaceFormat.format)
      && d.minImageCount == p.value.minImageCount + 1
  {
    var listed := Fetched(formats, LEGACY_MAX_SURFACE_FORMATS_COUNT);
    if PreferredListed(listed) {
      var k :| 0 <= k < |listed| && PreferredFormat(listed[k]);
      assert Fetched(formats, MAX_SURFACE_FORMATS_COUNT)[k] == listed[k];
    }
  }
}
