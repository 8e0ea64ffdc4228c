// wsi/headless/surface_properties.cpp: what the headless backend reports
// about its surfaces, and vkCreateHeadlessSurfaceEXT. Driver answers are
// parameters: the device's 2D image limit, which formats the driver
// supports as colour attachments, and the results of the calls the layer
// forwards.
module HeadlessSurfaceProperties {
  import opened VkTypes
  import opened SurfaceProperties
  import opened Enumeration

  /** max_core_1_0_formats: VK_FORMAT_ASTC_12x12_SRGB_BLOCK (184) + 1. */
  const MAX_CORE_FORMATS: nat := 185

  /**
   * get_surface_capabilities: the headless backend fills in the same
   * capabilities as every other backend, and always succeeds.
   */
  function GetSurfaceCapabilities(maxImageDimension2D: nat, maxSwapchainImages: nat): (r: (VkResult, Capabilities))
    ensures r.0 == Success
    ensures r.1 == GetSurfaceCapabilitiesCommon(maxImageDimension2D, maxSwapchainImages)
  {
    (Success,
     Capabilities(1, maxSwapchainImages, Extent(UINT32_MAX, UINT32_MAX), Extent(1, 1),
                  Extent(maxImageDimension2D, maxImageDimension2D), 1, TRANSFORM_IDENTITY, TRANSFORM_IDENTITY,
                  ALL_COMPOSITE_ALPHA, SUPPORTED_USAGE))
  }

  /** The format IDs below n that the driver supports, in increasing order. */
  function SupportedIds(supported: seq<bool>, n: nat): (ids: seq<nat>)
    requires n <= |supported|
    ensures |ids| <= n && forall k :: 0 <= k < |ids| ==> ids[k] < n
  {
    if n == 0 then [] else SupportedIds(supported, n - 1) + (if supported[n - 1] then [n - 1] else [])
  }

  /** SupportedIds holds exactly the supported IDs below n, each once and in increasing order. */
  lemma {:induction false} SupportedIdsMeaning(supported: seq<bool>, n: nat)
    requires n <= |supported|
    ensures |SupportedIds(supported, n)| <= n
    ensures forall x: nat :: x in SupportedIds(supported, n) <==> (x < n && supported[x])
    ensures forall i, j :: 0 <= i < j < |SupportedIds(supported, n)| ==>
      SupportedIds(supported, n)[i] < SupportedIds(supported, n)[j]
  {
    if n > 0 {
      SupportedIdsMeaning(supported, n - 1);
      var prev := SupportedIds(supported, n - 1);
      var s := SupportedIds(supported, n);
      assert s == prev + (if supported[n - 1] then [n - 1] else []);
      forall i, j | 0 <= i < j < |s|
        ensures s[i] < s[j]
      {
        if j >= |prev| {
          assert s[j] == n - 1 && s[i] == prev[i] && prev[i] in prev;
        }
      }
    }
  }

  /** VK_COLOR_SPACE_SRGB_NONLINEAR_KHR, the colour space of every format entry the layer builds. */
  const COLOR_SPACE_SRGB_NONLINEAR: nat := 0

  /**
   * The compression support a kept format ends with: what the driver's
   * compression query reported for it when the instance has compression
   * support and the query succeeded, none otherwise.
   */
  function CompressionOf(hasCompression: bool, query: (VkResult, CompressionProps)): CompressionProps
  {
    if hasCompression && query.0 == Success then query.1 else CompressionProps(0, 0)
  }

  /**
   * fill_supported_formats: every core format ID is tried in turn, written
   * at the next free slot and kept (the slot taken) when the driver
   * supports it; a kept format also gets the device's compression support
   * when the instance has compression support. supported[id] is whether
   * the driver's colour-attachment query for that ID succeeded and
   * queries[id] the driver's answer to its compression query.
   */
  method FillSupportedFormats(supported: seq<bool>, hasCompression: bool, queries: seq<(VkResult, CompressionProps)>)
    returns (formats: array<SurfaceFormatProperties?>, count: nat)
    requires |supported| == MAX_CORE_FORMATS && |queries| == MAX_CORE_FORMATS
    ensures fresh(formats) && formats.Length == MAX_CORE_FORMATS
    ensures count == |SupportedIds(supported, MAX_CORE_FORMATS)| && count <= MAX_CORE_FORMATS
    ensures forall i :: 0 <= i < count ==>
      formats[i] != null &&
      formats[i].surfaceFormat == SurfaceFormat(SupportedIds(supported, MAX_CORE_FORMATS)[i], COLOR_SPACE_SRGB_NONLINEAR) &&
      formats[i].compression == CompressionOf(hasCompression, queries[SupportedIds(supported, MAX_CORE_FORMATS)[i]])
  {
    formats := new SurfaceFormatProperties?[MAX_CORE_FORMATS];
    count := 0;
    var id := 0;
    while id < MAX_CORE_FORMATS
      invariant id <= MAX_CORE_FORMATS && count == |SupportedIds(supported, id)| && count <= id
      invariant forall i :: 0 <= i < count ==>
        formats[i] != null &&
        formats[i].surfaceFormat == SurfaceFormat(SupportedIds(supported, id)[i], COLOR_SPACE_SRGB_NONLINEAR) &&
        formats[i].compression == CompressionOf(hasCompression, queries[SupportedIds(supported, id)[i]])
    {
      SupportedIdsMeaning(supported, id);
      var entry := new SurfaceFormatProperties(SurfaceFormat(id, COLOR_SPACE_SRGB_NONLINEAR));
      formats[count] := entry;
      if supported[id] {
        if hasCompression {
          var _ := entry.AddDeviceCompressionSupport(queries[id].0, queries[id].1);
          assert CompressionProps(0, 0).flags | queries[id].1.flags == queries[id].1.flags;
          assert CompressionProps(0, 0).fixedRateFlags | queries[id].1.fixedRateFlags == queries[id].1.fixedRateFlags;
        }
        count := count + 1;
      }
      id := id + 1;
    }
  }

  /** The present modes the headless backend offers. */
  const HEADLESS_PRESENT_MODES: seq<PresentMode> := [Fifo, FifoRelaxed]

  /** get_surface_present_modes: FIFO and FIFO_RELAXED through the two-call idiom. */
  method GetSurfacePresentModes(q: Query<PresentMode>) returns (res: VkResult, q': Query<PresentMode>)
    requires WellFormedQuery(q)
    ensures (res, q') == EnumerateOutcome(HEADLESS_PRESENT_MODES, q)
  {
    res, q' := Enumerate(HEADLESS_PRESENT_MODES, q);
  }

  /** What vkCreateHeadlessSurfaceEXT did: its result, and the driver calls it made. */
  datatype SurfaceCreation = SurfaceCreation(result: VkResult, driverCreateCalled: bool, driverSurfaceDestroyed: bool)

  /**
   * CreateHeadlessSurfaceEXT: allocOk is whether the layer's surface
   * object could be allocated, driverResult the driver's create result and
   * addResult the result of registering the surface with the instance.
   */
  function CreateHeadlessSurface(allocOk: bool, driverResult: VkResult, addResult: VkResult): (c: SurfaceCreation)
    ensures !allocOk ==> c == SurfaceCreation(ErrorOutOfHostMemory, false, false)
    ensures allocOk ==> c.driverCreateCalled
    ensures allocOk && driverResult != Success ==> c.result == driverResult && !c.driverSurfaceDestroyed
    ensures allocOk && driverResult == Success ==> c.result == addResult
    // a driver surface is left behind exactly when the call succeeded
    ensures (c.result == Success) <==>
      (c.driverCreateCalled && driverResult == Success && !c.driverSurfaceDestroyed)
  {
    if !allocOk then SurfaceCreation(ErrorOutOfHostMemory, false, false)
    else if driverResult != Success then SurfaceCreation(driverResult, true, false)
    else SurfaceCreation(addResult, true, addResult != Success)
  }

  /** get_proc_addr: the layer exports its own entry point for vkCreateHeadlessSurfaceEXT and nothing else. */
  function GetProcAddr(name: string): (exported: bool)
    ensures exported ==> name == "vkCreateHeadlessSurfaceEXT"
    ensures name == "vkCreateHeadlessSurfaceEXT" ==> exported
  {
    name == "vkCreateHeadlessSurfaceEXT"
  }
}
