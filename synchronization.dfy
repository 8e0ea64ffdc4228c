// Fence-based present synchronisation (wsi/synchronization.cpp): a Vulkan
// fence plus two flags recording whether a payload was submitted and
// whether it is known to have finished. Every Vulkan call is represented
// by its result.
module Synchronization {
  import opened VkTypes

  /** VK_NULL_HANDLE. */
  const NULL_FENCE: nat := 0

  /** The observable state of a fence_sync: handle, device, and the two payload flags. */
  datatype FenceState = FenceState(fence: nat, dev: nat, hasPayload: bool, payloadFinished: bool)

  /** Whether wait_payload has to call vkWaitForFences. */
  predicate MustWait(s: FenceState): (w: bool)
    ensures w ==> s.hasPayload
    ensures s.payloadFinished ==> !w
  {
    s.hasPayload && !s.payloadFinished
  }

  /** wait_payload as a state transition; waitResult is what vkWaitForFences would return. */
  function AfterWait(s: FenceState, waitResult: VkResult): (r: (FenceState, VkResult))
    ensures !MustWait(s) ==> r == (s, Success)
    ensures MustWait(s) ==> r.1 == waitResult && r.0.hasPayload
    ensures r.0.fence == s.fence && r.0.dev == s.dev && r.0.hasPayload == s.hasPayload
    ensures r.0.payloadFinished <==> s.payloadFinished || (MustWait(s) && waitResult == Success)
  {
    if MustWait(s) then
      (if waitResult == Success then s.(payloadFinished := true) else s, waitResult)
    else (s, Success)
  }

  /** set_payload as a state transition, given the results of vkResetFences and vkQueueSubmit. */
  function AfterSetPayload(s: FenceState, resetResult: VkResult, submitResult: VkResult): (r: (FenceState, VkResult))
    ensures resetResult != Success ==> r == (s, resetResult)
    ensures resetResult == Success ==> r.1 == submitResult && (r.0.hasPayload <==> submitResult == Success)
    ensures resetResult == Success && submitResult == Success ==> !r.0.payloadFinished
    ensures resetResult == Success && submitResult != Success ==> r.0.payloadFinished == s.payloadFinished
    ensures r.0.fence == s.fence && r.0.dev == s.dev
  {
    if resetResult != Success then (s, resetResult)
    else if submitResult == Success then (s.(hasPayload := true, payloadFinished := false), submitResult)
    else (s.(hasPayload := false), submitResult)
  }

  /** swap_payload as a state transition: returns the old payload flag. */
  function AfterSwap(s: FenceState, newPayload: bool): (r: (FenceState, bool))
    ensures r.1 == s.hasPayload && r.0.hasPayload == newPayload && !r.0.payloadFinished
    ensures r.0.fence == s.fence && r.0.dev == s.dev
  {
    (s.(hasPayload := newPayload, payloadFinished := false), s.hasPayload)
  }

  /** Once a wait has succeeded, the next wait makes no call and succeeds. */
  lemma WaitIsIdempotent(s: FenceState, first: VkResult, second: VkResult)
    requires AfterWait(s, first).1 == Success
    ensures !MustWait(AfterWait(s, first).0)
    ensures AfterWait(AfterWait(s, first).0, second) == (AfterWait(s, first).0, Success)
  {
  }

  /** A successful submit makes the next wait call the driver. */
  lemma SubmittedPayloadIsWaitedFor(s: FenceState, submit: VkResult, wait: VkResult)
    ensures AfterSetPayload(s, Success, submit).1 == Success ==>
      MustWait(AfterSetPayload(s, Success, submit).0) &&
      AfterWait(AfterSetPayload(s, Success, submit).0, wait).1 == wait
  {
  }

  /** A failed submit leaves no payload, so a later wait is a no-op. */
  lemma FailedSubmitNeedsNoWait(s: FenceState, submit: VkResult, wait: VkResult)
    requires submit != Success
    ensures AfterWait(AfterSetPayload(s, Success, submit).0, wait).1 == Success
  {
  }

  /** The driver calls ~fence_sync makes. */
  datatype FenceCall = WaitForFences(fence: nat) | DestroyFence(fence: nat)

  /**
   * ~fence_sync: a fence that exists is waited for, when a payload is
   * still outstanding, and then destroyed; an empty object makes no call.
   */
  function DestructionCalls(s: FenceState): (calls: seq<FenceCall>)
    ensures calls == [] <==> s.fence == NULL_FENCE
    ensures s.fence != NULL_FENCE ==> calls[|calls| - 1] == DestroyFence(s.fence)
    ensures WaitForFences(s.fence) in calls <==> s.fence != NULL_FENCE && MustWait(s)
    ensures forall c :: c in calls ==> c.fence == s.fence
  {
    if s.fence == NULL_FENCE then []
    else (if MustWait(s) then [WaitForFences(s.fence)] else []) + [DestroyFence(s.fence)]
  }

  /** A fence whose wait succeeded is destroyed without another wait. */
  lemma WaitedFenceIsDestroyedWithoutWait(s: FenceState, waitResult: VkResult)
    requires s.fence != NULL_FENCE && AfterWait(s, waitResult).1 == Success
    ensures DestructionCalls(AfterWait(s, waitResult).0) == [DestroyFence(s.fence)]
  {
  }

  /** A fence_sync: a Vulkan fence and the payload flags. */
  class FenceSync {
    var fence: nat
    var dev: nat
    var hasPayload: bool
    var payloadFinished: bool

    function State(): FenceState
      reads this
    {
      FenceState(fence, dev, hasPayload, payloadFinished)
    }

    /** The protected constructor: the given fence, no payload. */
    constructor (device: nat, vkFence: nat)
      ensures State() == FenceState(vkFence, device, false, false)
    {
      fence := vkFence;
      dev := device;
      hasPayload := false;
      payloadFinished := false;
    }

    /** The default constructor: no fence, no device, no payload. */
    constructor Empty()
      ensures State() == FenceState(NULL_FENCE, 0, false, false)
    {
      fence := NULL_FENCE;
      dev := 0;
      hasPayload := false;
      payloadFinished := false;
    }

    /**
     * create: (createResult, newFence) is the outcome of vkCreateFence;
     * the result is empty exactly when it failed.
     */
    static method Create(device: nat, createResult: VkResult, newFence: nat) returns (r: Option<FenceSync>)
      ensures r.None? <==> createResult != Success
      ensures r.Some? ==> fresh(r.value) && r.value.State() == FenceState(newFence, device, false, false)
    {
      if createResult != Success {
        return None;
      }
      var f := new FenceSync(device, newFence);
      r := Some(f);
    }

    /**
     * ~fence_sync. The payload flags the wait updates belong to the object
     * being destroyed, so the wait's result is not kept.
     */
    method Destroy() returns (calls: seq<FenceCall>)
      ensures calls == DestructionCalls(State())
    {
      calls := [];
      if fence != NULL_FENCE {
        if hasPayload && !payloadFinished {
          calls := [WaitForFences(fence)];
        }
        calls := calls + [DestroyFence(fence)];
      }
    }

    /** Move assignment: swaps all four fields with rhs (a no-op when rhs is this). */
    method MoveAssign(rhs: FenceSync)
      modifies this, rhs
      ensures State() == old(rhs.State()) && rhs.State() == old(State())
    {
      fence, rhs.fence := rhs.fence, fence;
      hasPayload, rhs.hasPayload := rhs.hasPayload, hasPayload;
      payloadFinished, rhs.payloadFinished := rhs.payloadFinished, payloadFinished;
      dev, rhs.dev := rhs.dev, dev;
    }

    /** Move construction: a default object move-assigned from rhs, which is left empty. */
    static method MoveFrom(rhs: FenceSync) returns (f: FenceSync)
      modifies rhs
      ensures fresh(f) && f.State() == old(rhs.State())
      ensures rhs.State() == FenceState(NULL_FENCE, 0, false, false)
    {
      f := new FenceSync.Empty();
      f.MoveAssign(rhs);
    }

    /** wait_payload; waitResult is the result vkWaitForFences would give, and waited whether it was called. */
    method WaitPayload(waitResult: VkResult) returns (res: VkResult, waited: bool)
      modifies this
      ensures (State(), res) == AfterWait(old(State()), waitResult)
      ensures waited <==> MustWait(old(State()))
    {
      res := Success;
      waited := false;
      if hasPayload && !payloadFinished {
        waited := true;
        res := waitResult;
        if res == Success {
          payloadFinished := true;
        }
      }
    }

    /** set_payload, given the results of vkResetFences and vkQueueSubmit. */
    method SetPayload(resetResult: VkResult, submitResult: VkResult) returns (res: VkResult)
      modifies this
      ensures (State(), res) == AfterSetPayload(old(State()), resetResult, submitResult)
    {
      res := resetResult;
      if res != Success {
        return;
      }
      hasPayload := false;
      res := submitResult;
      if res == Success {
        hasPayload := true;
        payloadFinished := false;
      }
    }

    /** swap_payload. */
    method SwapPayload(newPayload: bool) returns (oldPayload: bool)
      modifies this
      ensures (State(), oldPayload) == AfterSwap(old(State()), newPayload)
    {
      oldPayload := hasPayload;
      hasPayload := newPayload;
      payloadFinished := false;
    }

    /**
     * sync_fd_fence_sync::export_sync_fd, given the outcome of
     * vkGetFenceFdKHR: on success the payload moves into the fd.
     */
    method ExportSyncFd(getFdResult: VkResult, exportedFd: int) returns (fd: Option<int>)
      modifies this
      ensures getFdResult == Success ==> fd == Some(exportedFd) && State() == AfterSwap(old(State()), false).0
      ensures getFdResult == Success ==> !hasPayload
      ensures getFdResult != Success ==> fd.None? && State() == old(State())
    {
      if getFdResult == Success {
        var hadPayload := SwapPayload(false);
        return Some(exportedFd);
      }
      fd := None;
    }
  }
}
