// layer/swapchain_api.cpp: the swapchain entry points the layer exports.
// Each swapchain's own present and initialisation are outside this file,
// so their results are parameters.
module SwapchainApi {
  import opened VkTypes

  /**
   * The result vkQueuePresentKHR reports for a batch: DEVICE_LOST if any
   * swapchain lost the device, else SURFACE_LOST if any lost its surface,
   * else OUT_OF_DATE if any was out of date, else SUCCESS; any other
   * per-swapchain result does not show in it.
   */
  function AggregatePresentResult(results: seq<VkResult>): (r: VkResult)
    ensures r == ErrorDeviceLost <==> ErrorDeviceLost in results
    ensures r != Success ==> r in results
  {
    if ErrorDeviceLost in results then ErrorDeviceLost
    else if ErrorSurfaceLost in results then ErrorSurfaceLost
    else if ErrorOutOfDate in results then ErrorOutOfDate
    else Success
  }

  /** The aggregate is one of four results, and SUCCESS exactly when no swapchain reported one of the three. */
  lemma AggregateMeaning(results: seq<VkResult>)
    ensures AggregatePresentResult(results) in {Success, ErrorDeviceLost, ErrorSurfaceLost, ErrorOutOfDate}
    ensures AggregatePresentResult(results) == Success <==>
      forall i :: 0 <= i < |results| ==> results[i] !in {ErrorDeviceLost, ErrorSurfaceLost, ErrorOutOfDate}
    ensures AggregatePresentResult(results) != Success ==> AggregatePresentResult(results) in results
  {
    if AggregatePresentResult(results) == Success {
      forall i | 0 <= i < |results|
        ensures results[i] !in {ErrorDeviceLost, ErrorSurfaceLost, ErrorOutOfDate}
      {
        assert results[i] in results;
      }
    }
  }

  /** The aggregate does not depend on the order in which the swapchains are listed. */
  lemma AggregateOrderIndependent(a: seq<VkResult>, b: seq<VkResult>)
    requires multiset(a) == multiset(b)
    ensures AggregatePresentResult(a) == AggregatePresentResult(b)
  {
    forall x | true
      ensures x in a <==> x in b
    {
      assert x in a <==> x in multiset(a);
      assert x in b <==> x in multiset(b);
    }
  }

  /** Presenting more swapchains never makes the aggregate better than it was for the first ones. */
  lemma AggregateKeepsWorst(a: seq<VkResult>, b: seq<VkResult>)
    ensures AggregatePresentResult(a) == ErrorDeviceLost ==> AggregatePresentResult(a + b) == ErrorDeviceLost
    ensures AggregatePresentResult(a) != Success ==> AggregatePresentResult(a + b) != Success
  {
    forall x | x in a
      ensures x in a + b
    {
      var i :| 0 <= i < |a| && a[i] == x;
      assert (a + b)[i] == x;
    }
  }

  /**
   * wsi_layer_vkQueuePresentKHR: presented[i] is what swapchain i's
   * queue_present returns. Each result is written to pResults[i] when the
   * caller passed that array, and the DEVICE_LOST, SURFACE_LOST and
   * OUT_OF_DATE results are collected as bits 1, 2 and 3 of a mask that
   * then decides the aggregate.
   */
  method QueuePresent(presented: seq<VkResult>, pResults: array?<VkResult>) returns (r: VkResult)
    requires pResults != null ==> pResults.Length >= |presented|
    modifies pResults
    ensures r == AggregatePresentResult(presented)
    ensures pResults != null ==> pResults[..|presented|] == presented &&
                                 pResults[|presented|..] == old(pResults[|presented|..])
  {
    var resultMask: bv32 := 0;
    var i := 0;
    while i < |presented|
      invariant i <= |presented|
      invariant pResults != null ==> pResults[..i] == presented[..i] &&
                                     pResults[i..] == old(pResults[i..])
      invariant (resultMask & 2 != 0) <==> ErrorDeviceLost in presented[..i]
      invariant (resultMask & 4 != 0) <==> ErrorSurfaceLost in presented[..i]
      invariant (resultMask & 8 != 0) <==> ErrorOutOfDate in presented[..i]
    {
      var res := presented[i];
      if pResults != null {
        pResults[i] := res;
        assert pResults[i + 1..] == old(pResults[i..])[1..];
      }
      assert presented[..i + 1] == presented[..i] + [res];
      if res == ErrorDeviceLost {
        resultMask := resultMask | 2;
      } else if res == ErrorSurfaceLost {
        resultMask := resultMask | 4;
      } else if res == ErrorOutOfDate {
        resultMask := resultMask | 8;
      }
      i := i + 1;
    }
    assert presented[..i] == presented;
    if resultMask & 2 != 0 {
      r := ErrorDeviceLost;
    } else if resultMask & 4 != 0 {
      r := ErrorSurfaceLost;
    } else if resultMask & 8 != 0 {
      r := ErrorOutOfDate;
    } else {
      r := Success;
    }
  }

  /** What vkCreateSwapchainKHR did: its result, whether *pSwapchain was written, and whether the object was freed again. */
  datatype SwapchainCreation = SwapchainCreation(result: VkResult, handleWritten: bool, freed: bool)

  /**
   * wsi_layer_vkCreateSwapchainKHR: allocOk is whether the allocator
   * returned memory for the headless swapchain and initResult what its
   * init returns. Allocation failure is OUT_OF_HOST_MEMORY; a failed init
   * destroys and frees the object and returns the error; only success
   * writes the handle.
   */
  function CreateSwapchain(allocOk: bool, initResult: VkResult): (c: SwapchainCreation)
    ensures !allocOk ==> c == SwapchainCreation(ErrorOutOfHostMemory, false, false)
    ensures allocOk ==> c.result == initResult
    ensures c.handleWritten <==> c.result == Success
    ensures allocOk ==> (c.freed <==> !c.handleWritten)
  {
    if !allocOk then SwapchainCreation(ErrorOutOfHostMemory, false, false)
    else if initResult != Success then SwapchainCreation(initResult, false, true)
    else SwapchainCreation(Success, true, false)
  }
}
