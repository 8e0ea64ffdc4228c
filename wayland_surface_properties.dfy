// wsi/wayland/surface_properties.cpp: what the Wayland backend reports
// about a surface. The compositor's answers (registry, roundtrip and the
// dmabuf format events) and the device's answers are parameters; the DRM
// to Vulkan format tables are the DrmUtils tables.
module WaylandSurfaceProperties {
  import opened VkTypes
  import opened DrmUtils
  import opened Enumeration
  import opened SurfaceProperties
  import opened ExtensionList
  import opened WaylandSurface

  /**
   * get_surface_capabilities: the common capabilities, except that at
   * least two images are needed and there is no upper limit.
   */
  function GetSurfaceCapabilities(maxImageDimension2D: nat): (c: Capabilities)
    ensures c.minImageCount == 2 && c.maxImageCount == UINT32_MAX
    ensures c == GetSurfaceCapabilitiesCommon(maxImageDimension2D, UINT32_MAX).(minImageCount := 2)
  {
    Capabilities(2, UINT32_MAX, Extent(UINT32_MAX, UINT32_MAX), Extent(1, 1),
                 Extent(maxImageDimension2D, maxImageDimension2D), 1, TRANSFORM_IDENTITY, TRANSFORM_IDENTITY,
                 ALL_COMPOSITE_ALPHA, SUPPORTED_USAGE)
  }

  /**
   * The Vulkan formats one DRM fourcc contributes: none when it has no
   * Vulkan format, otherwise its format and, when there is one, its sRGB
   * twin.
   */
  function FourccFormats(main: seq<FormatPair>, srgb: seq<FormatPair>, fourcc: nat): set<VkFormat>
  {
    var vk := DrmToVkFormat(main, fourcc);
    var srgbVk := DrmToVkSrgbFormat(srgb, fourcc);
    if vk == VK_FORMAT_UNDEFINED then {}
    else if srgbVk != VK_FORMAT_UNDEFINED then {srgbVk, vk}
    else {vk}
  }

  /** The formats all the pairs contribute. */
  function VkFormatsOf(main: seq<FormatPair>, srgb: seq<FormatPair>, pairs: seq<DrmFormatPair>): set<VkFormat>
  {
    if pairs == [] then {}
    else VkFormatsOf(main, srgb, pairs[..|pairs| - 1]) + FourccFormats(main, srgb, pairs[|pairs| - 1].fourcc)
  }

  /**
   * A format is supported exactly when some advertised fourcc maps to a
   * Vulkan format that is it, or whose sRGB twin is it; UNDEFINED is
   * never supported.
   */
  lemma {:induction false} VkFormatsOfMeaning(main: seq<FormatPair>, srgb: seq<FormatPair>,
                                              pairs: seq<DrmFormatPair>, f: VkFormat)
    ensures f in VkFormatsOf(main, srgb, pairs) <==>
      exists i :: 0 <= i < |pairs| && DrmToVkFormat(main, pairs[i].fourcc) != VK_FORMAT_UNDEFINED &&
        (f == DrmToVkFormat(main, pairs[i].fourcc) ||
         (f == DrmToVkSrgbFormat(srgb, pairs[i].fourcc) && f != VK_FORMAT_UNDEFINED))
    ensures VK_FORMAT_UNDEFINED !in VkFormatsOf(main, srgb, pairs)
  {
    if pairs != [] {
      var front := pairs[..|pairs| - 1];
      VkFormatsOfMeaning(main, srgb, front, f);
      assert forall i :: 0 <= i < |front| ==> front[i] == pairs[i];
      if f in FourccFormats(main, srgb, pairs[|pairs| - 1].fourcc) {
        assert DrmToVkFormat(main, pairs[|pairs| - 1].fourcc) != VK_FORMAT_UNDEFINED;
      }
    }
  }

  /** A pair listed anywhere contributes its formats. */
  lemma {:induction false} FourccFormatsIncluded(main: seq<FormatPair>, srgb: seq<FormatPair>,
                                                 pairs: seq<DrmFormatPair>, x: DrmFormatPair)
    requires x in pairs
    ensures FourccFormats(main, srgb, x.fourcc) <= VkFormatsOf(main, srgb, pairs)
  {
    var last := pairs[|pairs| - 1];
    if x != last {
      var front := pairs[..|pairs| - 1];
      assert pairs == front + [last];
      FourccFormatsIncluded(main, srgb, front, x);
    }
  }

  /** Listing only pairs that b lists gives no format b does not give. */
  lemma {:induction false} VkFormatsOfSubset(main: seq<FormatPair>, srgb: seq<FormatPair>,
                                             a: seq<DrmFormatPair>, b: seq<DrmFormatPair>)
    requires forall i :: 0 <= i < |a| ==> a[i] in b
    ensures VkFormatsOf(main, srgb, a) <= VkFormatsOf(main, srgb, b)
  {
    if a != [] {
      var front := a[..|a| - 1];
      assert forall i :: 0 <= i < |front| ==> front[i] == a[i];
      VkFormatsOfSubset(main, srgb, front, b);
      FourccFormatsIncluded(main, srgb, b, a[|a| - 1]);
    }
  }

  /** The order in which the compositor lists the pairs, and repetitions, do not change the set. */
  lemma VkFormatsOfSameMembers(main: seq<FormatPair>, srgb: seq<FormatPair>,
                               a: seq<DrmFormatPair>, b: seq<DrmFormatPair>)
    requires forall x :: x in a <==> x in b
    ensures VkFormatsOf(main, srgb, a) == VkFormatsOf(main, srgb, b)
  {
    VkFormatsOfSubset(main, srgb, a, b);
    VkFormatsOfSubset(main, srgb, b, a);
  }

  /** get_vk_supported_formats: each advertised pair inserts the formats of its fourcc. */
  method GetVkSupportedFormats(main: seq<FormatPair>, srgb: seq<FormatPair>, pairs: seq<DrmFormatPair>,
                               formats: set<VkFormat>)
    returns (formats': set<VkFormat>)
    ensures formats' == formats + VkFormatsOf(main, srgb, pairs)
  {
    formats' := formats;
    var i := 0;
    while i < |pairs|
      invariant i <= |pairs| && formats' == formats + VkFormatsOf(main, srgb, pairs[..i])
    {
      assert pairs[..i + 1][..i] == pairs[..i];
      var vk := DrmToVkFormat(main, pairs[i].fourcc);
      if vk != VK_FORMAT_UNDEFINED {
        var srgbVk := DrmToVkSrgbFormat(srgb, pairs[i].fourcc);
        if srgbVk != VK_FORMAT_UNDEFINED {
          formats' := formats' + {srgbVk, vk};
        } else {
          formats' := formats' + {vk};
        }
      }
      i := i + 1;
    }
    assert pairs[..i] == pairs;
  }

  /** What the compositor answers during query_supported_formats. */
  datatype FormatsQuery = FormatsQuery(
    registryOk: bool, listenerOk: bool, roundtripOk: bool, dmabufFound: bool,
    formatsResult: VkResult, pairs: seq<DrmFormatPair>)

  /** Whether the query reaches get_supported_formats_and_modifiers. */
  predicate ReachesFormats(w: FormatsQuery)
  {
    w.registryOk && w.listenerOk && w.roundtripOk && w.dmabufFound
  }

  /**
   * query_supported_formats: a failure to reach the dmabuf interface is
   * SURFACE_LOST; the formats query's UNKNOWN becomes SURFACE_LOST and its
   * other errors pass through; on success the advertised pairs' formats
   * are added to the set.
   */
  method QuerySupportedFormats(main: seq<FormatPair>, srgb: seq<FormatPair>, w: FormatsQuery, formats: set<VkFormat>)
    returns (r: VkResult, formats': set<VkFormat>)
    ensures r != ErrorUnknown
    ensures r == Success <==> ReachesFormats(w) && w.formatsResult == Success
    ensures !ReachesFormats(w) ==> r == ErrorSurfaceLost
    ensures ReachesFormats(w) && w.formatsResult != Success ==>
      r == (if w.formatsResult == ErrorUnknown then ErrorSurfaceLost else w.formatsResult)
    ensures formats' == if r == Success then formats + VkFormatsOf(main, srgb, w.pairs) else formats
  {
    if !ReachesFormats(w) {
      return ErrorSurfaceLost, formats;
    }
    if w.formatsResult != Success {
      r := if w.formatsResult == ErrorUnknown then ErrorSurfaceLost else w.formatsResult;
      return r, formats;
    }
    formats' := GetVkSupportedFormats(main, srgb, w.pairs, formats);
    r := Success;
  }

  /** VK_COLOR_SPACE_SRGB_NONLINEAR_KHR. */
  const COLOR_SPACE_SRGB_NONLINEAR: nat := 0

  /**
   * The formats written by one get_surface_formats call over the set
   * formats: as many as the caller's count allows, each a distinct member
   * with the sRGB non-linear colour space, the rest of the array
   * untouched, and all of them when the count is large enough. The set
   * is unordered, so the order they come in is not determined.
   */
  predicate WritesFormats(formats: set<VkFormat>, q: Query<SurfaceFormat>, q': Query<SurfaceFormat>)
    requires WellFormedQuery(q) && q.out.Some?
  {
    q'.out.Some? && q'.count == Min(q.count, |formats|) && |q'.out.value| == |q.out.value| &&
    (forall i :: 0 <= i < q'.count ==>
      q'.out.value[i].format in formats && q'.out.value[i].colorSpace == COLOR_SPACE_SRGB_NONLINEAR) &&
    (forall i, j :: 0 <= i < j < q'.count ==> q'.out.value[i].format != q'.out.value[j].format) &&
    (forall i :: q'.count <= i < |q'.out.value| ==> q'.out.value[i] == q.out.value[i]) &&
    (q.count >= |formats| ==> forall f :: f in formats ==> exists i :: 0 <= i < q'.count && q'.out.value[i].format == f)
  }

  /** The formats loop: formats are taken from the set, in whatever order, until the array is full. */
  method WriteFormats(formats: set<VkFormat>, q: Query<SurfaceFormat>) returns (q': Query<SurfaceFormat>)
    requires WellFormedQuery(q) && q.out.Some?
    ensures WritesFormats(formats, q, q')
  {
    var out := q.out.value;
    var remaining := formats;
    var k := 0;
    while k < q.count && remaining != {}
      invariant k <= q.count && |out| == |q.out.value|
      invariant remaining <= formats && |remaining| + k == |formats|
      invariant forall i :: 0 <= i < k ==>
        out[i].format in formats && out[i].format !in remaining && out[i].colorSpace == COLOR_SPACE_SRGB_NONLINEAR
      invariant forall i, j :: 0 <= i < j < k ==> out[i].format != out[j].format
      invariant forall i :: k <= i < |out| ==> out[i] == q.out.value[i]
      invariant forall f :: f in formats && f !in remaining ==> exists i :: 0 <= i < k && out[i].format == f
    {
      var f :| f in remaining;
      ghost var before := out;
      out := out[k := SurfaceFormat(f, COLOR_SPACE_SRGB_NONLINEAR)];
      forall g | g in formats && g !in remaining - {f}
        ensures exists i :: 0 <= i < k + 1 && out[i].format == g
      {
        if g == f {
          assert out[k].format == g;
        } else {
          var i :| 0 <= i < k && before[i].format == g;
          assert out[i] == before[i];
        }
      }
      remaining := remaining - {f};
      k := k + 1;
    }
    q' := Query(k, Some(out));
  }

  /**
   * get_surface_formats: the query's error is returned as it is; without
   * an array the count of supported formats is returned; with one, the
   * formats are written as WritesFormats says and the result is
   * INCOMPLETE exactly when some did not fit.
   */
  method GetSurfaceFormats(main: seq<FormatPair>, srgb: seq<FormatPair>, w: FormatsQuery, q: Query<SurfaceFormat>)
    returns (r: VkResult, q': Query<SurfaceFormat>)
    requires WellFormedQuery(q)
    ensures !(ReachesFormats(w) && w.formatsResult == Success) ==> r != Success && q' == q
    ensures ReachesFormats(w) && w.formatsResult == Success && q.out.None? ==>
      r == Success && q' == Query(|VkFormatsOf(main, srgb, w.pairs)|, None)
    ensures ReachesFormats(w) && w.formatsResult == Success && q.out.Some? ==>
      WritesFormats(VkFormatsOf(main, srgb, w.pairs), q, q') &&
      (r == Incomplete <==> |VkFormatsOf(main, srgb, w.pairs)| > q.count) &&
      (r != Incomplete ==> r == Success)
  {
    var formats;
    r, formats := QuerySupportedFormats(main, srgb, w, {});
    if r != Success {
      return r, q;
    }
    assert formats == VkFormatsOf(main, srgb, w.pairs);
    if q.out.None? {
      return Success, Query(|formats|, None);
    }
    r := if |formats| > q.count then Incomplete else Success;
    q' := WriteFormats(formats, q);
  }

  /** The present modes the Wayland backend offers. */
  const WAYLAND_PRESENT_MODES: seq<PresentMode> := [Fifo, Mailbox]

  /** get_surface_present_modes: FIFO and MAILBOX through the two-call idiom. */
  method GetSurfacePresentModes(q: Query<PresentMode>) returns (res: VkResult, q': Query<PresentMode>)
    requires WellFormedQuery(q)
    ensures (res, q') == EnumerateOutcome(WAYLAND_PRESENT_MODES, q)
  {
    res, q' := Enumerate(WAYLAND_PRESENT_MODES, q);
  }

  /** required_device_extensions: what a device needs for Wayland presentation. */
  const REQUIRED_DEVICE_EXTENSIONS: seq<string> := [
    "VK_EXT_image_drm_format_modifier", "VK_KHR_bind_memory2", "VK_KHR_image_format_list",
    "VK_KHR_sampler_ycbcr_conversion", "VK_KHR_maintenance1", "VK_KHR_get_memory_requirements2",
    "VK_EXT_external_memory_dma_buf", "VK_KHR_external_memory_fd", "VK_KHR_external_memory"]

  /** Every required name fits in an extension name. */
  lemma RequiredNamesFit()
    ensures forall i :: 0 <= i < |REQUIRED_DEVICE_EXTENSIONS| ==>
      |REQUIRED_DEVICE_EXTENSIONS[i]| < MAX_EXTENSION_NAME_SIZE
  {
  }

  /** Whether a device's extensions include every required one: what physical_device_supported is meant to answer. */
  function PhysicalDeviceSupported(deviceExtensions: seq<ExtProp>): (b: bool)
    ensures b <==> forall i :: 0 <= i < |REQUIRED_DEVICE_EXTENSIONS| ==>
      ContainsName(deviceExtensions, REQUIRED_DEVICE_EXTENSIONS[i])
  {
    ContainsAll(deviceExtensions, FromNames(REQUIRED_DEVICE_EXTENSIONS))
  }

  /** The answer for a device depends on that device's extensions alone. */
  lemma PhysicalDeviceSupportedOwnExtensions(a: seq<ExtProp>, b: seq<ExtProp>)
    requires forall n :: ContainsName(a, n) <==> ContainsName(b, n)
    ensures PhysicalDeviceSupported(a) == PhysicalDeviceSupported(b)
  {
  }

  /**
   * The backend's surface_properties singleton, with the two function
   * static extension lists of physical_device_supported, which live for
   * the whole process.
   */
  class WaylandSurfaceProperties {
    const deviceExtensions: ExtensionList
    const requiredExtensions: ExtensionList

    constructor ()
      ensures fresh(deviceExtensions) && fresh(requiredExtensions) && deviceExtensions != requiredExtensions
      ensures deviceExtensions.props == [] && requiredExtensions.props == []
    {
      deviceExtensions := new ExtensionList();
      requiredExtensions := new ExtensionList();
    }

    /**
     * physical_device_supported as written: the device's extensions are
     * appended to the static device list and the required names to the
     * static required list (each add reporting devAddOk / reqAddOk, the
     * result being ignored), and the answer is whether the device list,
     * holding every device asked about so far, contains the required
     * list.
     */
    method PhysicalDeviceSupportedAsWritten(devExts: seq<ExtProp>, devAddOk: bool, reqAddOk: bool)
      returns (b: bool)
      requires deviceExtensions != requiredExtensions
      modifies deviceExtensions, requiredExtensions
      ensures deviceExtensions.props == old(deviceExtensions.props) + (if devAddOk then devExts else [])
      ensures requiredExtensions.props ==
        old(requiredExtensions.props) + (if reqAddOk then FromNames(REQUIRED_DEVICE_EXTENSIONS) else [])
      ensures b == ContainsAll(deviceExtensions.props, requiredExtensions.props)
    {
      var _ := deviceExtensions.AddProps(devExts, devAddOk);
      RequiredNamesFit();
      var _ := requiredExtensions.AddNames(REQUIRED_DEVICE_EXTENSIONS, reqAddOk);
      b := ContainsAll(deviceExtensions.props, requiredExtensions.props);
    }
  }

  /**
   * Because the device list accumulates, a device that has none of the
   * required extensions is reported as supported when an earlier device
   * that has them all was asked about first, although
   * PhysicalDeviceSupported says it is not: the second call checks the
   * required names, listed twice by now, against earlier + [].
   */
  method AccumulatedListAnswersForEarlierDevice(earlier: seq<ExtProp>) returns (first: bool, second: bool)
    requires PhysicalDeviceSupported(earlier)
    ensures first && second
    ensures !PhysicalDeviceSupported([])
  {
    var props := new WaylandSurfaceProperties();
    first := props.PhysicalDeviceSupportedAsWritten(earlier, true, true);
    second := props.PhysicalDeviceSupportedAsWritten([], true, true);
    var req := FromNames(REQUIRED_DEVICE_EXTENSIONS);
    assert props.deviceExtensions.props == earlier + [] && props.requiredExtensions.props == req + req;
    forall j | 0 <= j < |req + req|
      ensures ContainsName(earlier + [], (req + req)[j].name)
    {
      var k := if j < |req| then j else j - |req|;
      assert (req + req)[j] == req[k];
      assert ContainsName(earlier, req[k].name);
      assert earlier + [] == earlier;
    }
    assert !ContainsName([], REQUIRED_DEVICE_EXTENSIONS[0]);
  }
}
