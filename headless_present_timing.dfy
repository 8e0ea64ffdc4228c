// wsi/headless/present_timing_handler.cpp: the headless backend's present
// timing: a fixed table of time domains and fixed timing properties.
module HeadlessPresentTiming {
  import opened VkTypes
  import opened PresentTiming

  /**
   * The domain array built by create: QUEUE_OPERATIONS_END on the device
   * domain, the three image stages on CLOCK_MONOTONIC_RAW.
   */
  function HeadlessDomains(): (d: seq<VulkanTimeDomain>)
    ensures |d| == 4
  {
    [VulkanTimeDomain(STAGE_QUEUE_OPERATIONS_END, Device),
     VulkanTimeDomain(STAGE_IMAGE_LATCHED, ClockMonotonicRaw),
     VulkanTimeDomain(STAGE_IMAGE_FIRST_PIXEL_OUT, ClockMonotonicRaw),
     VulkanTimeDomain(STAGE_IMAGE_FIRST_PIXEL_VISIBLE, ClockMonotonicRaw)]
  }

  /**
   * wsi_ext_present_timing_headless::create: all four domains are non-null
   * when their allocation succeeded (allocOk), and room pushes succeed. The
   * extension exists exactly when every allocation and push succeeded, and
   * then holds the table in order.
   */
  method CreateHeadless(allocOk: seq<bool>, room: nat) returns (r: Option<PresentTimingExt>)
    requires |allocOk| == 4
    ensures r.Some? <==> (forall i :: 0 <= i < 4 ==> allocOk[i]) && room >= 4
    ensures r.Some? ==> fresh(r.value) && r.value.timeDomains.domains == HeadlessDomains() && r.value.queue == []
  {
    var table := HeadlessDomains();
    var domains := seq(4, i requires 0 <= i < 4 => if allocOk[i] then Some(table[i]) else None);
    assert forall i :: 0 <= i < 4 ==> (domains[i].Some? <==> allocOk[i]);
    r := Create(domains, room);
    if r.Some? {
      assert forall i :: 0 <= i < 4 ==> r.value.timeDomains.domains[i] == table[i];
    }
  }

  /** Calibrating any single present stage on the headless table succeeds, with the listed domain. */
  lemma EveryStageCalibrates()
    ensures Calibrate(HeadlessDomains(), STAGE_QUEUE_OPERATIONS_END) == Some(CalibratedTime(Device, 0))
    ensures Calibrate(HeadlessDomains(), STAGE_IMAGE_LATCHED) == Some(CalibratedTime(ClockMonotonicRaw, 0))
    ensures Calibrate(HeadlessDomains(), STAGE_IMAGE_FIRST_PIXEL_OUT) == Some(CalibratedTime(ClockMonotonicRaw, 0))
    ensures Calibrate(HeadlessDomains(), STAGE_IMAGE_FIRST_PIXEL_VISIBLE) == Some(CalibratedTime(ClockMonotonicRaw, 0))
  {
    var d := HeadlessDomains();
    assert Serves(d[0], STAGE_QUEUE_OPERATIONS_END);
    assert !Serves(d[0], STAGE_IMAGE_LATCHED) && Serves(d[1], STAGE_IMAGE_LATCHED);
    assert d[1..][0] == d[1];
    assert !Serves(d[0], STAGE_IMAGE_FIRST_PIXEL_OUT) && !Serves(d[1], STAGE_IMAGE_FIRST_PIXEL_OUT);
    assert d[1..][1..] == d[2..] && d[2..][0] == d[2] && Serves(d[2], STAGE_IMAGE_FIRST_PIXEL_OUT);
    assert !Serves(d[2], STAGE_IMAGE_FIRST_PIXEL_VISIBLE);
    assert d[2..][1..] == d[3..] && d[3..][0] == d[3] && Serves(d[3], STAGE_IMAGE_FIRST_PIXEL_VISIBLE);
  }

  /** VkSwapchainTimingPropertiesEXT as the headless backend fills it. */
  datatype TimingProperties = TimingProperties(refreshDuration: nat, variableRefreshDelay: nat)

  /** The approximate refresh duration the headless backend reports: 5 ms in nanoseconds. */
  const FIXED_REFRESH_DURATION_NS: nat := 5_000_000

  /**
   * get_swapchain_timing_properties: always SUCCESS, with counter 1, a
   * 5 ms refresh duration and UINT64_MAX as the variable refresh delay.
   */
  function GetSwapchainTimingProperties(): (r: (VkResult, nat, TimingProperties))
    ensures r.0 == Success && r.1 == 1
    ensures r.2.refreshDuration == FIXED_REFRESH_DURATION_NS && r.2.variableRefreshDelay == UINT64_MAX
  {
    (Success, 1, TimingProperties(FIXED_REFRESH_DURATION_NS, UINT64_MAX))
  }
}
