// wsi/extensions/present_timing.hpp/.cpp and wsi/time_domains.cpp: the
// VK_EXT_present_timing state of a swapchain: its queue of presentation
// entries and the time domains that calibrate each present stage.
module PresentTiming {
  import opened VkTypes

  /** VkTimeDomainKHR values the layer uses. */
  datatype TimeDomain = Device | ClockMonotonic | ClockMonotonicRaw | PresentStageLocal

  /** VkPresentStageFlagBitsEXT. */
  const STAGE_QUEUE_OPERATIONS_END: bv32 := 1
  const STAGE_IMAGE_LATCHED: bv32 := 2
  const STAGE_IMAGE_FIRST_PIXEL_OUT: bv32 := 4
  const STAGE_IMAGE_FIRST_PIXEL_VISIBLE: bv32 := 8

  /** swapchain_presentation_entry; a default entry is Entry(false, 0). */
  datatype Entry = Entry(isOutstanding: bool, presentId: nat)

  /** swapchain_calibrated_time. */
  datatype CalibratedTime = CalibratedTime(domain: TimeDomain, offset: nat)

  /**
   * vulkan_time_domain: the present stages it serves (get_present_stages
   * returns the value given to the constructor) and its Vulkan domain.
   */
  datatype VulkanTimeDomain = VulkanTimeDomain(stages: bv32, domain: TimeDomain)

  /** vulkan_time_domain::calibrate: its own domain with offset 0. */
  function CalibrateDomain(d: VulkanTimeDomain): (t: CalibratedTime)
    ensures t.domain == d.domain && t.offset == 0
  {
    CalibratedTime(d.domain, 0)
  }

  /** Whether a domain serves a stage: their masks share a bit. */
  predicate Serves(d: VulkanTimeDomain, stage: bv32)
  {
    d.stages & stage != 0
  }

  /**
   * swapchain_time_domains::calibrate: the calibration of the first domain
   * in list order that serves the stage, or None (OUT_OF_HOST_MEMORY in
   * the source) when none does.
   */
  function Calibrate(domains: seq<VulkanTimeDomain>, stage: bv32): (r: Option<CalibratedTime>)
    ensures r.None? <==> forall i :: 0 <= i < |domains| ==> !Serves(domains[i], stage)
    ensures r.Some? ==> exists i :: 0 <= i < |domains| && Serves(domains[i], stage) &&
                                    r.value == CalibrateDomain(domains[i]) &&
                                    forall j :: 0 <= j < i ==> !Serves(domains[j], stage)
  {
    if domains == [] then None
    else if Serves(domains[0], stage) then Some(CalibrateDomain(domains[0]))
    else
      var rest := Calibrate(domains[1..], stage);
      if rest.Some? then
        ghost var i :| 0 <= i < |domains| - 1 && Serves(domains[1..][i], stage) &&
                       rest.value == CalibrateDomain(domains[1..][i]) &&
                       forall j :: 0 <= j < i ==> !Serves(domains[1..][j], stage);
        assert Serves(domains[i + 1], stage);
        rest
      else rest
  }

  /** The calibrate result code: SUCCESS with a match, else OUT_OF_HOST_MEMORY. */
  function CalibrateResult(domains: seq<VulkanTimeDomain>, stage: bv32): (r: VkResult)
    ensures r == Success <==> exists i :: 0 <= i < |domains| && Serves(domains[i], stage)
    ensures r != Success ==> r == ErrorOutOfHostMemory
  {
    if Calibrate(domains, stage).Some? then Success else ErrorOutOfHostMemory
  }

  /** Adding a domain behind the existing ones never changes a calibration that already succeeded. */
  lemma {:induction false} CalibrateStableUnderAppend(domains: seq<VulkanTimeDomain>, d: VulkanTimeDomain, stage: bv32)
    requires Calibrate(domains, stage).Some?
    ensures Calibrate(domains + [d], stage) == Calibrate(domains, stage)
  {
    if !Serves(domains[0], stage) {
      assert (domains + [d])[1..] == domains[1..] + [d];
      CalibrateStableUnderAppend(domains[1..], d, stage);
    }
  }

  /**
   * VkSwapchainTimeDomainPropertiesEXT: the count and the two caller
   * arrays (None: a null pointer).
   */
  datatype DomainProperties = DomainProperties(count: nat, domains: Option<seq<TimeDomain>>, ids: Option<seq<nat>>)

  /** The source writes pTimeDomains[0] (and, corrected, pTimeDomainIds[0]) whenever these are reached. */
  predicate WritableFirst<T>(a: Option<seq<T>>)
  {
    a.Some? ==> |a.value| >= 1
  }

  /**
   * set_swapchain_time_domain_properties (wsi/time_domains.cpp) and its
   * copy get_swapchain_time_domain_properties (present_timing.cpp), as
   * written: the id array pointer is set to null (`pTimeDomainIds = 0`)
   * instead of receiving the id. Returns the result, the counter and the
   * properties.
   */
  function DomainPropertiesAsWritten(props: Option<DomainProperties>, counter: Option<nat>)
    : (r: (VkResult, Option<nat>, Option<DomainProperties>))
    requires counter.Some? && props.Some? ==> props.value.domains.Some? && WritableFirst(props.value.domains)
    requires props.Some? ==> WritableFirst(props.value.domains)
    ensures r.0 == Incomplete <==> counter.Some? && props.Some? && counter.value < 1
    ensures r.1 == if counter.Some? && props.None? then Some(1) else counter
    ensures r.2.Some? == props.Some?
    ensures r.2.Some? && r.2.value.ids.Some? ==> r.2 == props
    ensures r.2.Some? && r.2 != props && r.2.value.domains.Some? ==>
      |r.2.value.domains.value| >= 1 && r.2.value.domains.value[0] == PresentStageLocal
  {
    if counter.Some? then
      if props.None? then (Success, Some(1), props)
      else
        var p := props.value;
        (if counter.value < 1 then Incomplete else Success, counter,
         Some(DomainProperties(1, Some(p.domains.value[0 := PresentStageLocal]), None)))
    else if props.Some? && props.value.domains.None? && props.value.ids.None? then
      (Success, counter, Some(props.value.(count := 1)))
    else if props.Some? && props.value.domains.Some? && props.value.ids.Some? then
      (Success, counter, Some(DomainProperties(1, Some(props.value.domains.value[0 := PresentStageLocal]), None)))
    else (Success, counter, props)
  }

  /** As written, a caller that supplies both arrays gets its id array pointer cleared and no id. */
  lemma AsWrittenLosesIds(domains: seq<TimeDomain>, ids: seq<nat>)
    requires |domains| >= 1 && |ids| >= 1
    ensures var r := DomainPropertiesAsWritten(Some(DomainProperties(1, Some(domains), Some(ids))), None);
      r.2.Some? && r.2.value.ids.None?
  {
  }

  /**
   * The properties with the single domain PRESENT_STAGE_LOCAL, id 0,
   * written into the first slot of each non-null caller array.
   */
  function Filled(p: DomainProperties): (f: DomainProperties)
    requires WritableFirst(p.domains) && WritableFirst(p.ids)
    ensures f.count == 1
    ensures f.domains.Some? == p.domains.Some? && f.ids.Some? == p.ids.Some?
    ensures f.domains.Some? ==>
              (|f.domains.value| == |p.domains.value| && f.domains.value[0] == PresentStageLocal &&
               f.domains.value[1..] == p.domains.value[1..])
    ensures f.ids.Some? ==>
              (|f.ids.value| == |p.ids.value| && f.ids.value[0] == 0 && f.ids.value[1..] == p.ids.value[1..])
  {
    DomainProperties(1, if p.domains.Some? then Some(p.domains.value[0 := PresentStageLocal]) else None,
                     if p.ids.Some? then Some(p.ids.value[0 := 0]) else None)
  }

  /**
   * The same operation with the id written into the caller's id array.
   * With a counter: no properties give counter 1; properties are filled and
   * INCOMPLETE tells a counter below 1. Without a counter: two null arrays
   * get count 1, two non-null arrays are filled, anything else is left as
   * it is. The result is always SUCCESS otherwise.
   */
  function DomainPropertiesFixed(props: Option<DomainProperties>, counter: Option<nat>)
    : (r: (VkResult, Option<nat>, Option<DomainProperties>))
    requires counter.Some? && props.Some? ==> props.value.domains.Some?
    requires props.Some? ==> WritableFirst(props.value.domains) && WritableFirst(props.value.ids)
    ensures r.0 == Success || r.0 == Incomplete
    ensures r.0 == Incomplete <==> counter.Some? && props.Some? && counter.value < 1
    ensures r.1 == if counter.Some? && props.None? then Some(1) else counter
    ensures props.None? ==> r.2 == None
    ensures props.Some? && (counter.Some? || (props.value.domains.Some? && props.value.ids.Some?)) ==>
      r.2 == Some(Filled(props.value))
    ensures props.Some? && counter.None? && props.value.domains.None? && props.value.ids.None? ==>
      r.2 == Some(props.value.(count := 1))
    ensures props.Some? && counter.None? && props.value.domains.Some? != props.value.ids.Some? ==> r.2 == props
  {
    if counter.Some? then
      if props.None? then (Success, Some(1), props)
      else (if counter.value < 1 then Incomplete else Success, counter, Some(Filled(props.value)))
    else if props.Some? && props.value.domains.None? && props.value.ids.None? then
      (Success, counter, Some(props.value.(count := 1)))
    else if props.Some? && props.value.domains.Some? && props.value.ids.Some? then
      (Success, counter, Some(Filled(props.value)))
    else (Success, counter, props)
  }

  /** The fixed version keeps the caller's id array where the written one drops it. */
  lemma FixedKeepsIds(domains: seq<TimeDomain>, ids: seq<nat>)
    requires |domains| >= 1 && |ids| >= 1
    ensures var p := Some(DomainProperties(1, Some(domains), Some(ids)));
      DomainPropertiesFixed(p, None).2 == Some(DomainProperties(1, Some(domains[0 := PresentStageLocal]), Some(ids[0 := 0]))) &&
      DomainPropertiesAsWritten(p, None).2 == Some(DomainProperties(1, Some(domains[0 := PresentStageLocal]), None))
  {
  }

  /** swapchain_time_domains: the time domains of a swapchain, in the order they were added. */
  class TimeDomains {
    var domains: seq<VulkanTimeDomain>

    constructor ()
      ensures domains == []
    {
      domains := [];
    }

    /**
     * add_time_domain: null is rejected (false, no change); otherwise the
     * push result (pushOk) is returned and a successful push appends it.
     */
    method AddTimeDomain(d: Option<VulkanTimeDomain>, pushOk: bool) returns (ok: bool)
      modifies this
      ensures ok <==> d.Some? && pushOk
      ensures domains == if ok then old(domains) + [d.value] else old(domains)
    {
      if d.None? {
        return false;
      }
      if pushOk {
        domains := domains + [d.value];
      }
      ok := pushOk;
    }

    /** calibrate: SUCCESS with the first serving domain's calibration, else OUT_OF_HOST_MEMORY. */
    method CalibrateStage(stage: bv32) returns (r: VkResult, t: Option<CalibratedTime>)
      ensures t == Calibrate(domains, stage)
      ensures r == CalibrateResult(domains, stage)
    {
      var i := 0;
      while i < |domains|
        invariant i <= |domains|
        invariant forall j :: 0 <= j < i ==> !Serves(domains[j], stage)
        invariant Calibrate(domains[i..], stage) == Calibrate(domains, stage)
      {
        if domains[i].stages & stage != 0 {
          return Success, Some(CalibrateDomain(domains[i]));
        }
        assert domains[i..][1..] == domains[i + 1..];
        i := i + 1;
      }
      return ErrorOutOfHostMemory, None;
    }
  }

  /** The number of outstanding entries. */
  function CountOutstanding(q: seq<Entry>): (n: nat)
    ensures n <= |q|
  {
    if q == [] then 0 else CountOutstanding(q[..|q| - 1]) + (if q[|q| - 1].isOutstanding then 1 else 0)
  }

  /** The outstanding entries, in queue order. */
  function Outstanding(q: seq<Entry>): (r: seq<Entry>)
    ensures forall i :: 0 <= i < |r| ==> r[i].isOutstanding && r[i] in q
  {
    if q == [] then []
    else Outstanding(q[..|q| - 1]) + (if q[|q| - 1].isOutstanding then [q[|q| - 1]] else [])
  }

  /** Keeping only the outstanding entries keeps all of them: the count is preserved. */
  lemma {:induction false} OutstandingCount(q: seq<Entry>)
    ensures |Outstanding(q)| == CountOutstanding(q)
    ensures CountOutstanding(Outstanding(q)) == CountOutstanding(q)
  {
    if q != [] {
      var init := q[..|q| - 1];
      OutstandingCount(init);
      var r := Outstanding(q);
      if q[|q| - 1].isOutstanding {
        assert r[..|r| - 1] == Outstanding(init);
      } else {
        assert r == Outstanding(init);
      }
    }
  }

  /** wsi_ext_present_timing: the timings queue and the swapchain time domains. */
  class PresentTimingExt {
    /** m_queue.m_timings. */
    var queue: seq<Entry>
    /** m_time_domains. */
    const timeDomains: TimeDomains

    constructor ()
      ensures queue == [] && fresh(timeDomains) && timeDomains.domains == []
    {
      queue := [];
      timeDomains := new TimeDomains();
    }

    /** present_timing_get_num_outstanding_results: counts the outstanding entries. */
    method NumOutstanding() returns (n: nat)
      ensures n == CountOutstanding(queue)
    {
      n := 0;
      var i := 0;
      while i < |queue|
        invariant i <= |queue|
        invariant n == CountOutstanding(queue[..i])
      {
        assert queue[..i + 1][..i] == queue[..i];
        if queue[i].isOutstanding {
          n := n + 1;
        }
        i := i + 1;
      }
      assert queue[..i] == queue;
    }

    /**
     * present_timing_queue_set_size: NOT_READY with no change when more
     * entries are outstanding than the new size; OUT_OF_HOST_MEMORY with no
     * change when the reservation fails (reserveOk); otherwise the queue
     * becomes its outstanding entries in order (pushes stay within the
     * reservation, so they do not fail).
     */
    method SetQueueSize(size: nat, reserveOk: bool) returns (r: VkResult)
      modifies this
      ensures r == NotReady <==> CountOutstanding(old(queue)) > size
      ensures r == ErrorOutOfHostMemory <==> CountOutstanding(old(queue)) <= size && !reserveOk
      ensures r == Success <==> CountOutstanding(old(queue)) <= size && reserveOk
      ensures queue == if r == Success then Outstanding(old(queue)) else old(queue)
      ensures r == Success ==> CountOutstanding(queue) == CountOutstanding(old(queue)) && |queue| <= size
    {
      var outstanding := NumOutstanding();
      if outstanding > size {
        return NotReady;
      }
      if !reserveOk {
        return ErrorOutOfHostMemory;
      }
      var kept: seq<Entry> := [];
      var i := 0;
      while i < |queue|
        invariant i <= |queue| && queue == old(queue)
        invariant kept == Outstanding(queue[..i])
      {
        assert queue[..i + 1][..i] == queue[..i];
        if queue[i].isOutstanding {
          kept := kept + [queue[i]];
        }
        i := i + 1;
      }
      assert queue[..i] == queue;
      OutstandingCount(queue);
      queue := kept;
      r := Success;
    }

    /** add_presentation_entry: appended at the end when the push succeeds, else OUT_OF_HOST_MEMORY. */
    method AddPresentationEntry(e: Entry, pushOk: bool) returns (r: VkResult)
      modifies this
      ensures r == (if pushOk then Success else ErrorOutOfHostMemory)
      ensures queue == if pushOk then old(queue) + [e] else old(queue)
    {
      if !pushOk {
        return ErrorOutOfHostMemory;
      }
      queue := queue + [e];
      r := Success;
    }
  }

  /**
   * wsi_ext_present_timing::create: domains are the time domains of the
   * backend's array (None: a null pointer, which add_time_domain rejects)
   * and room the number of pushes that succeed. Any failed add gives null;
   * otherwise every domain is added, in array order.
   */
  method Create(domains: seq<Option<VulkanTimeDomain>>, room: nat) returns (r: Option<PresentTimingExt>)
    ensures r.Some? <==> (forall i :: 0 <= i < |domains| ==> domains[i].Some?) && |domains| <= room
    ensures r.Some? ==> fresh(r.value) && fresh(r.value.timeDomains) && r.value.queue == []
    ensures r.Some? ==> |r.value.timeDomains.domains| == |domains|
    ensures r.Some? ==> forall i :: 0 <= i < |domains| ==> Some(r.value.timeDomains.domains[i]) == domains[i]
  {
    var pt := new PresentTimingExt();
    var i := 0;
    while i < |domains|
      invariant i <= |domains| && fresh(pt) && fresh(pt.timeDomains) && pt.queue == []
      invariant i <= room && |pt.timeDomains.domains| == i
      invariant forall j :: 0 <= j < i ==> domains[j].Some? && Some(pt.timeDomains.domains[j]) == domains[j]
    {
      var ok := pt.timeDomains.AddTimeDomain(domains[i], i < room);
      if !ok {
        return None;
      }
      i := i + 1;
    }
    r := Some(pt);
  }
}
