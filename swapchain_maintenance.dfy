// wsi/extensions/swapchain_maintenance.cpp: the VK_EXT_swapchain_maintenance1
// state of a swapchain: the present modes it may switch between and the one
// in use, plus the scaling check done at creation.
module SwapchainMaintenance {
  import opened VkTypes
  import opened CompatiblePresentModes

  /**
   * util::vector::try_resize(n): truncates, or appends value-initialised
   * entries (0, which is VK_PRESENT_MODE_IMMEDIATE_KHR).
   */
  function Resized(modes: seq<PresentMode>, n: nat): (r: seq<PresentMode>)
    ensures |r| == n
    ensures forall i :: 0 <= i < n && i < |modes| ==> r[i] == modes[i]
    ensures forall i :: |modes| <= i < n ==> r[i] == Immediate
  {
    if n <= |modes| then modes[..n] else modes + seq(n - |modes|, _ => Immediate)
  }

  /** The first requested mode not compatible with current, or |requested| when all are. */
  function FirstIncompatible(table: seq<Compatibility>, current: PresentMode, requested: seq<PresentMode>): (k: nat)
    requires WellFormedTable(table)
    ensures k <= |requested|
    ensures forall i :: 0 <= i < k ==> IsCompatible(table, current, requested[i])
    ensures k < |requested| ==> !IsCompatible(table, current, requested[k])
  {
    if requested == [] then 0
    else if !IsCompatible(table, current, requested[0]) then 0
    else 1 + FirstIncompatible(table, current, requested[1..])
  }

  /**
   * The outcome of handle_swapchain_present_modes_create_info for a
   * current mode: the result and the new list of allowed modes.
   */
  function CreateInfoOutcome(table: seq<Compatibility>, current: PresentMode, allowed: seq<PresentMode>,
                             requested: Option<seq<PresentMode>>, resizeOk: bool): (r: (VkResult, seq<PresentMode>))
    requires WellFormedTable(table)
  {
    if requested.None? then (Success, allowed)
    else if !resizeOk then (ErrorOutOfHostMemory, allowed)
    else
      var k := FirstIncompatible(table, current, requested.value);
      var modes := requested.value[..k] + Resized(allowed, |requested.value|)[k..];
      (if k < |requested.value| then ErrorInitializationFailed else Success, modes)
  }

  /** On success the allowed modes are exactly the requested ones, all compatible with the current mode. */
  lemma CreateInfoSuccess(table: seq<Compatibility>, current: PresentMode, allowed: seq<PresentMode>,
                          requested: seq<PresentMode>)
    requires WellFormedTable(table)
    requires CreateInfoOutcome(table, current, allowed, Some(requested), true).0 == Success
    ensures CreateInfoOutcome(table, current, allowed, Some(requested), true).1 == requested
    ensures forall i :: 0 <= i < |requested| ==> IsCompatible(table, current, requested[i])
  {
    var k := FirstIncompatible(table, current, requested);
    assert k == |requested|;
    assert requested[..k] == requested;
  }

  /** The result is INITIALIZATION_FAILED exactly when some requested mode is incompatible. */
  lemma CreateInfoFailsIffIncompatible(table: seq<Compatibility>, current: PresentMode, allowed: seq<PresentMode>,
                                       requested: seq<PresentMode>)
    requires WellFormedTable(table)
    ensures CreateInfoOutcome(table, current, allowed, Some(requested), true).0 == ErrorInitializationFailed <==>
            exists i :: 0 <= i < |requested| && !IsCompatible(table, current, requested[i])
  {
    var k := FirstIncompatible(table, current, requested);
    if k < |requested| {
      assert !IsCompatible(table, current, requested[k]);
    }
  }

  /**
   * The wsi_ext_swapchain_maintenance1 constructor leaves m_present_mode
   * uninitialised, yet handle_swapchain_present_modes_create_info reads it
   * before any switch: the outcome then depends on an indeterminate value.
   * Here two possible contents of that member give different results.
   */
  lemma IndeterminateModeChangesOutcome()
    ensures var table := [Compatibility(Fifo, 1, [Fifo, Fifo, Fifo, Fifo, Fifo, Fifo]),
                          Compatibility(Mailbox, 1, [Mailbox, Mailbox, Mailbox, Mailbox, Mailbox, Mailbox])];
      CreateInfoOutcome(table, Fifo, [], Some([Fifo]), true).0 == Success &&
      CreateInfoOutcome(table, Mailbox, [], Some([Fifo]), true).0 == ErrorInitializationFailed
  {
    var table := [Compatibility(Fifo, 1, [Fifo, Fifo, Fifo, Fifo, Fifo, Fifo]),
                  Compatibility(Mailbox, 1, [Mailbox, Mailbox, Mailbox, Mailbox, Mailbox, Mailbox])];
    assert FindRow(table, Fifo) == 0;
    assert FindRow(table, Mailbox) == 1;
    assert table[0].modes[0] == Fifo;
    assert IsCompatible(table, Fifo, Fifo);
    assert FirstIncompatible(table, Fifo, [Fifo]) == 1;
    assert FirstIncompatible(table, Mailbox, [Fifo]) == 0;
  }

  class Maintenance {
    /** m_present_modes: the modes the swapchain may switch between. */
    var presentModes: seq<PresentMode>
    /** m_present_mode: the mode in use. */
    var presentMode: PresentMode

    /**
     * The constructor, initialising the mode in use to the swapchain's
     * creation mode (the source leaves m_present_mode uninitialised).
     */
    constructor (mode: PresentMode)
      ensures presentModes == [] && presentMode == mode
    {
      presentModes := [];
      presentMode := mode;
    }

    /**
     * handle_switching_presentation_mode: a mode in the allowed list
     * becomes the mode in use and the result is SUCCESS; any other mode
     * gives SURFACE_LOST and changes nothing. An empty list is asserted
     * against in debug builds; in release builds it finds no mode and so
     * gives SURFACE_LOST.
     */
    method SwitchPresentMode(mode: PresentMode) returns (r: VkResult)
      modifies this
      ensures presentModes == old(presentModes)
      ensures r == Success <==> mode in presentModes
      ensures r != Success ==> r == ErrorSurfaceLost
      ensures presentMode == if r == Success then mode else old(presentMode)
    {
      var i := 0;
      while i < |presentModes|
        invariant i <= |presentModes|
        invariant forall j :: 0 <= j < i ==> presentModes[j] != mode
      {
        if presentModes[i] == mode {
          presentMode := mode;
          return Success;
        }
        i := i + 1;
      }
      return ErrorSurfaceLost;
    }

    /**
     * handle_swapchain_present_modes_create_info: requested is the mode
     * array of the VkSwapchainPresentModesCreateInfoEXT found in the chain
     * (None when absent), table the surface's compatibility table and
     * resizeOk the outcome of try_resize. The list is resized to the
     * requested count and filled in order until a mode incompatible with
     * the current one stops the copy with INITIALIZATION_FAILED.
     * Compatibility is the corrected IsCompatible (see Findings).
     */
    method HandlePresentModesCreateInfo(table: seq<Compatibility>, requested: Option<seq<PresentMode>>, resizeOk: bool)
      returns (r: VkResult)
      requires WellFormedTable(table)
      modifies this
      ensures presentMode == old(presentMode)
      ensures (r, presentModes) == CreateInfoOutcome(table, presentMode, old(presentModes), requested, resizeOk)
    {
      if requested.None? {
        return Success;
      }
      if !resizeOk {
        return ErrorOutOfHostMemory;
      }
      var req := requested.value;
      ghost var allowed := presentModes;
      var resized := Resized(presentModes, |req|);
      presentModes := resized;
      var i := 0;
      while i < |req|
        invariant i <= |req| && presentMode == old(presentMode)
        invariant forall j :: 0 <= j < i ==> IsCompatible(table, presentMode, req[j])
        invariant presentModes == req[..i] + resized[i..]
      {
        if !IsCompatible(table, presentMode, req[i]) {
          OutcomeAt(table, presentMode, allowed, req, i);
          return ErrorInitializationFailed;
        }
        SpliceStep(req, resized, i);
        presentModes := presentModes[i := req[i]];
        i := i + 1;
      }
      OutcomeAt(table, presentMode, allowed, req, i);
      r := Success;
    }
  }

  /**
   * The outcome when the first k requested modes are compatible and the
   * next one, if any, is not: the first k modes are copied over the resized
   * list.
   */
  lemma OutcomeAt(table: seq<Compatibility>, current: PresentMode, allowed: seq<PresentMode>,
                  requested: seq<PresentMode>, k: nat)
    requires WellFormedTable(table) && k <= |requested|
    requires forall j :: 0 <= j < k ==> IsCompatible(table, current, requested[j])
    requires k < |requested| ==> !IsCompatible(table, current, requested[k])
    ensures CreateInfoOutcome(table, current, allowed, Some(requested), true) ==
      (if k < |requested| then ErrorInitializationFailed else Success,
       requested[..k] + Resized(allowed, |requested|)[k..])
  {
    FirstIncompatibleIs(table, current, requested, k);
  }

  /** Writing the next requested mode moves the boundary between copied and resized modes by one. */
  lemma SpliceStep(req: seq<PresentMode>, resized: seq<PresentMode>, i: nat)
    requires i < |req| == |resized|
    ensures (req[..i] + resized[i..])[i := req[i]] == req[..i + 1] + resized[i + 1..]
  {
    var before := req[..i] + resized[i..];
    var after := req[..i + 1] + resized[i + 1..];
    assert |before[i := req[i]]| == |after|;
    forall j | 0 <= j < |after|
      ensures before[i := req[i]][j] == after[j]
    {
      if j < i {
        assert after[j] == req[j] && before[j] == req[j];
      } else if j > i {
        assert after[j] == resized[j] && before[j] == resized[j];
      }
    }
  }

  /** FirstIncompatible is the first index whose mode fails the check. */
  lemma {:induction false} FirstIncompatibleIs(table: seq<Compatibility>, current: PresentMode, requested: seq<PresentMode>, k: nat)
    requires WellFormedTable(table) && k <= |requested|
    requires forall j :: 0 <= j < k ==> IsCompatible(table, current, requested[j])
    requires k < |requested| ==> !IsCompatible(table, current, requested[k])
    ensures FirstIncompatible(table, current, requested) == k
  {
    if requested != [] && k > 0 {
      FirstIncompatibleIs(table, current, requested[1..], k - 1);
    }
  }

  /** VkSwapchainPresentScalingCreateInfoEXT: the requested bits of each field. */
  datatype ScalingRequest = ScalingRequest(behavior: bv32, gravityX: bv32, gravityY: bv32)

  /** VkSurfacePresentScalingCapabilitiesEXT: the supported bits of each field. */
  datatype ScalingCaps = ScalingCaps(scaling: bv32, gravityX: bv32, gravityY: bv32)

  /** A requested field is unsupported when it is nonzero and shares no bit with the supported mask. */
  predicate Unsupported(requested: bv32, supported: bv32)
  {
    requested != 0 && supported & requested == 0
  }

  /**
   * handle_scaling_create_info: request is the struct found in the chain
   * (None when absent) and caps what the surface reports.
   */
  function HandleScalingCreateInfo(request: Option<ScalingRequest>, caps: ScalingCaps): (r: VkResult)
    ensures r == Success || r == ErrorInitializationFailed
    ensures request.None? ==> r == Success
  {
    if request.Some? &&
       (Unsupported(request.value.behavior, caps.scaling) ||
        Unsupported(request.value.gravityX, caps.gravityX) ||
        Unsupported(request.value.gravityY, caps.gravityY))
    then ErrorInitializationFailed
    else Success
  }

  /** A request whose every field is a subset of the supported bits is accepted. */
  lemma SupportedScalingAccepted(request: ScalingRequest, caps: ScalingCaps)
    requires caps.scaling & request.behavior == request.behavior
    requires caps.gravityX & request.gravityX == request.gravityX
    requires caps.gravityY & request.gravityY == request.gravityY
    ensures HandleScalingCreateInfo(Some(request), caps) == Success
  {
  }

  /**
   * Each field names a single bit in a well-formed request; when any of the
   * three requested bits is missing from the surface's mask, creation fails
   * with VK_ERROR_INITIALIZATION_FAILED.
   */
  lemma UnsupportedScalingRejected(request: ScalingRequest, caps: ScalingCaps, b: bv32)
    requires b != 0 && b & (b - 1) == 0
    requires (request.behavior == b && caps.scaling & b == 0) ||
             (request.gravityX == b && caps.gravityX & b == 0) ||
             (request.gravityY == b && caps.gravityY & b == 0)
    ensures HandleScalingCreateInfo(Some(request), caps) == ErrorInitializationFailed
  {
  }

  /** Asking for nothing is always accepted, whatever the surface supports. */
  lemma EmptyScalingAccepted(caps: ScalingCaps)
    ensures HandleScalingCreateInfo(Some(ScalingRequest(0, 0, 0)), caps) == Success
  {
  }
}
