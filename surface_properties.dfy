// wsi/surface_properties.cpp: what every backend shares when it reports
// surface properties: per-format compression support and the common
// surface capabilities.
module SurfaceProperties {
  import opened VkTypes

  /** VkImageCompressionFlagBitsEXT. */
  const COMPRESSION_DEFAULT: bv32 := 0
  const COMPRESSION_FIXED_RATE_DEFAULT: bv32 := 1
  const COMPRESSION_FIXED_RATE_EXPLICIT: bv32 := 2
  const COMPRESSION_DISABLED: bv32 := 4

  /** VkImageCompressionPropertiesEXT: compression flags and fixed-rate flags. */
  datatype CompressionProps = CompressionProps(flags: bv32, fixedRateFlags: bv32)

  /** VkSurfaceFormatKHR: a format and its colour space. */
  datatype SurfaceFormat = SurfaceFormat(format: nat, colorSpace: nat)

  /** surface_format_properties: a surface format and the compression the device supports for it. */
  class SurfaceFormatProperties {
    var surfaceFormat: SurfaceFormat
    /** m_compression: what the successful device queries reported, OR-ed together. */
    var compression: CompressionProps

    constructor (f: SurfaceFormat)
      ensures surfaceFormat == f && compression == CompressionProps(0, 0)
    {
      surfaceFormat := f;
      compression := CompressionProps(0, 0);
    }

    /**
     * add_device_compression_support: queryResult and reported are the
     * driver's answer to the image format query with a default fixed-rate
     * compression control chained in. On success the reported flags are
     * OR-ed in; FORMAT_NOT_SUPPORTED is SUCCESS with no change; any other
     * error is returned with no change. The support only ever grows.
     */
    method AddDeviceCompressionSupport(queryResult: VkResult, reported: CompressionProps) returns (r: VkResult)
      modifies this
      ensures surfaceFormat == old(surfaceFormat)
      ensures r == (if queryResult == ErrorFormatNotSupported then Success else queryResult)
      ensures compression == if queryResult == Success
        then CompressionProps(old(compression).flags | reported.flags,
                              old(compression).fixedRateFlags | reported.fixedRateFlags)
        else old(compression)
      ensures old(compression).flags & compression.flags == old(compression).flags
      ensures old(compression).fixedRateFlags & compression.fixedRateFlags == old(compression).fixedRateFlags
    {
      if queryResult == Success {
        compression := CompressionProps(compression.flags | reported.flags,
                                        compression.fixedRateFlags | reported.fixedRateFlags);
        return Success;
      } else if queryResult != ErrorFormatNotSupported {
        return queryResult;
      }
      return Success;
    }

    /**
     * fill_format_properties: the surface format, and, when the caller
     * chained a VkImageCompressionPropertiesEXT (query), the compression
     * it reports: FIXED_RATE_EXPLICIT with the accumulated fixed-rate flags
     * once that bit was accumulated, otherwise DEFAULT with the caller's
     * fixed-rate flags untouched. DISABLED is never reported.
     */
    function FillFormatProperties(query: Option<CompressionProps>): (r: (SurfaceFormat, Option<CompressionProps>))
      reads this
      ensures r.0 == surfaceFormat
      ensures r.1.Some? <==> query.Some?
      ensures r.1.Some? ==> r.1.value.flags == COMPRESSION_DEFAULT || r.1.value.flags == COMPRESSION_FIXED_RATE_EXPLICIT
      ensures r.1.Some? ==>
        (r.1.value.flags == COMPRESSION_FIXED_RATE_EXPLICIT <==> compression.flags & COMPRESSION_FIXED_RATE_EXPLICIT != 0)
      ensures r.1.Some? && r.1.value.flags == COMPRESSION_FIXED_RATE_EXPLICIT ==>
        r.1.value.fixedRateFlags == compression.fixedRateFlags
      ensures r.1.Some? && r.1.value.flags == COMPRESSION_DEFAULT ==>
        r.1.value.fixedRateFlags == query.value.fixedRateFlags
    {
      if query.None? then (surfaceFormat, None)
      else if compression.flags & COMPRESSION_FIXED_RATE_EXPLICIT != 0 then
        (surfaceFormat, Some(CompressionProps(COMPRESSION_FIXED_RATE_EXPLICIT, compression.fixedRateFlags)))
      else (surfaceFormat, Some(query.value.(flags := COMPRESSION_DEFAULT)))
    }
  }

  /** A 2D extent. */
  datatype Extent = Extent(width: nat, height: nat)

  /** VK_SURFACE_TRANSFORM_IDENTITY_BIT_KHR. */
  const TRANSFORM_IDENTITY: bv32 := 1
  /** INHERIT | OPAQUE | PRE_MULTIPLIED | POST_MULTIPLIED composite alpha. */
  const ALL_COMPOSITE_ALPHA: bv32 := 0xF
  /** TRANSFER_SRC | TRANSFER_DST | SAMPLED | STORAGE | COLOR_ATTACHMENT | INPUT_ATTACHMENT usage. */
  const SUPPORTED_USAGE: bv32 := 0x1 | 0x2 | 0x4 | 0x8 | 0x10 | 0x80

  /** VkSurfaceCapabilitiesKHR. */
  datatype Capabilities = Capabilities(
    minImageCount: nat, maxImageCount: nat,
    currentExtent: Extent, minImageExtent: Extent, maxImageExtent: Extent,
    maxImageArrayLayers: nat, supportedTransforms: bv32, currentTransform: bv32,
    supportedCompositeAlpha: bv32, supportedUsageFlags: bv32)

  /**
   * get_surface_capabilities_common: maxImageDimension2D is the device
   * limit the driver reports and maxSwapchainImages the layer's
   * MAX_SWAPCHAIN_IMAGE_COUNT.
   */
  function GetSurfaceCapabilitiesCommon(maxImageDimension2D: nat, maxSwapchainImages: nat): (c: Capabilities)
    ensures c.minImageCount == 1 && c.maxImageCount == maxSwapchainImages
    ensures c.currentExtent == Extent(UINT32_MAX, UINT32_MAX) && c.minImageExtent == Extent(1, 1)
    ensures c.maxImageExtent == Extent(maxImageDimension2D, maxImageDimension2D)
    ensures c.maxImageArrayLayers == 1
    ensures c.supportedTransforms == TRANSFORM_IDENTITY && c.currentTransform == TRANSFORM_IDENTITY
    ensures c.supportedCompositeAlpha == ALL_COMPOSITE_ALPHA && c.supportedUsageFlags == SUPPORTED_USAGE
  {
    Capabilities(1, maxSwapchainImages, Extent(UINT32_MAX, UINT32_MAX), Extent(1, 1),
                 Extent(maxImageDimension2D, maxImageDimension2D), 1, TRANSFORM_IDENTITY, TRANSFORM_IDENTITY,
                 ALL_COMPOSITE_ALPHA, SUPPORTED_USAGE)
  }
}
