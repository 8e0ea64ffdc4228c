// wsi/extensions/image_compression_control.cpp: the swapchain's copy of the
// application's VkImageCompressionControlEXT, with its fixed-rate flags kept
// in an array owned by the object.
module ImageCompressionControl {
  import opened VkTypes

  /** util::MAX_PLANES: the size of the owned fixed-rate flag array. */
  const MAX_PLANES: nat := 4

  /** VkImageCompressionControlEXT: flags, plane count and the plane flags it points to. */
  datatype CompressionControl = CompressionControl(flags: bv32, planeCount: nat, fixedRateFlags: seq<bv32>)

  /** A structure the constructor can copy: its flags array holds the plane count, at most MAX_PLANES. */
  predicate Copyable(c: CompressionControl)
  {
    c.planeCount <= MAX_PLANES && |c.fixedRateFlags| >= c.planeCount
  }

  /** wsi_ext_image_compression_control. */
  class CompressionControlExt {
    /** m_compression_control.flags. */
    var flags: bv32
    /** m_compression_control.compressionControlPlaneCount. */
    var planeCount: nat
    /** m_array_fixed_rate_flags, which m_compression_control.pFixedRateFlags points to. */
    const fixedRate: array<bv32>

    ghost predicate Valid()
      reads this
    {
      fixedRate.Length == MAX_PLANES && planeCount <= MAX_PLANES
    }

    /**
     * Construction from a VkImageCompressionControlEXT: flags and plane
     * count are copied, and the first plane-count fixed-rate flags are
     * copied into the owned array (pNext becomes null).
     */
    constructor (ext: CompressionControl)
      requires Copyable(ext)
      ensures Valid() && fresh(fixedRate)
      ensures GetProperties() == CompressionControl(ext.flags, ext.planeCount, ext.fixedRateFlags[..ext.planeCount])
    {
      flags := ext.flags;
      planeCount := ext.planeCount;
      var a := new bv32[MAX_PLANES];
      var i := 0;
      while i < ext.planeCount
        invariant i <= ext.planeCount
        invariant a[..i] == ext.fixedRateFlags[..i]
      {
        a[i] := ext.fixedRateFlags[i];
        i := i + 1;
      }
      fixedRate := a;
    }

    /** The copy constructor: equal flags, count and fixed-rate flags, in an array of its own. */
    constructor CopyOf(other: CompressionControlExt)
      requires other.Valid()
      ensures Valid() && fresh(fixedRate)
      ensures GetProperties() == other.GetProperties()
    {
      flags := other.flags;
      planeCount := other.planeCount;
      var a := new bv32[MAX_PLANES];
      var i := 0;
      while i < other.planeCount
        invariant i <= other.planeCount
        invariant a[..i] == other.fixedRate[..i]
      {
        a[i] := other.fixedRate[i];
        i := i + 1;
      }
      fixedRate := a;
    }

    /** get_compression_control_properties: the stored structure, its flags read through pFixedRateFlags. */
    function GetProperties(): (c: CompressionControl)
      reads this, fixedRate
      requires Valid()
      ensures Copyable(c) && |c.fixedRateFlags| == c.planeCount
      ensures c.flags == flags && c.planeCount == planeCount
    {
      CompressionControl(flags, planeCount, fixedRate[..planeCount])
    }

    /** get_bitmask_for_image_compression_flags: the stored flags. */
    function GetBitmask(): (b: bv32)
      reads this
      requires Valid()
      ensures b == GetProperties().flags
    {
      flags
    }
  }

  /**
   * create: compression is the VkImageCompressionControlEXT found in the
   * swapchain create info's chain (None when absent) and enabled whether
   * the device enabled swapchain compression control. An object exists
   * exactly when both hold, holding a copy of the structure.
   */
  method Create(compression: Option<CompressionControl>, enabled: bool) returns (r: Option<CompressionControlExt>)
    requires compression.Some? ==> Copyable(compression.value)
    ensures r.Some? <==> enabled && compression.Some?
    ensures r.Some? ==> fresh(r.value) && r.value.Valid()
    ensures r.Some? ==>
      r.value.GetProperties() == CompressionControl(compression.value.flags, compression.value.planeCount,
                                                    compression.value.fixedRateFlags[..compression.value.planeCount])
  {
    if enabled && compression.Some? {
      var ext := new CompressionControlExt(compression.value);
      return Some(ext);
    }
    return None;
  }
}
