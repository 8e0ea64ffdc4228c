// util/helpers.hpp: the pNext-chain search and the TRY early-return macro.
module Helpers {
  import opened VkTypes

  /** The VkStructureType tags the layer looks for in pNext chains. */
  datatype SType =
    | SurfacePresentModeExt
    | SurfacePresentModeCompatibilityExt
    | SwapchainPresentModesCreateInfoExt
    | SwapchainPresentScalingCreateInfoExt
    | PresentIdKhr
    | FrameBoundaryExt
    | ImageCompressionControlExt
    | ImageCompressionPropertiesExt
    | LoaderInstanceCreateInfo
    | LoaderDeviceCreateInfo
    | OtherSType(code: nat)

  /**
   * One structure of a pNext chain: its sType and whatever it carries.
   * A chain is the sequence of structures reached by following pNext from
   * the head; the null chain is the empty sequence.
   */
  datatype Node<B> = Node(sType: SType, body: B)

  /**
   * find_extension: the position of the first structure in chain order
   * whose sType matches, or None when no structure matches (in particular
   * for the null chain). The const and non-const overloads walk the chain
   * identically, so one definition models both.
   */
  function FindExtension<B>(sType: SType, chain: seq<Node<B>>): (r: Option<nat>)
    ensures r.Some? ==> r.value < |chain| && chain[r.value].sType == sType
    ensures r.Some? ==> forall j :: 0 <= j < r.value ==> chain[j].sType != sType
    ensures r.None? <==> forall j :: 0 <= j < |chain| ==> chain[j].sType != sType
  {
    if |chain| == 0 then None
    else if chain[0].sType == sType then Some(0)
    else
      match FindExtension(sType, chain[1..])
      case None => None
      case Some(k) => Some(k + 1)
  }

  /** The structure find_extension returns, or None for a null result. */
  function FindBody<B>(sType: SType, chain: seq<Node<B>>): (r: Option<B>)
    ensures r.Some? <==> exists j :: 0 <= j < |chain| && chain[j].sType == sType
    ensures r.Some? ==> r.value == chain[FindExtension(sType, chain).value].body
  {
    match FindExtension(sType, chain)
    case None => None
    case Some(k) => Some(chain[k].body)
  }

  /**
   * A run of TRY(...) statements: the result of the first step that is not
   * VK_SUCCESS is returned, and VK_SUCCESS falls through when every step
   * succeeded.
   */
  function TrySequence(steps: seq<VkResult>): (r: VkResult)
    ensures r == Success <==> forall i :: 0 <= i < |steps| ==> steps[i] == Success
    ensures r != Success ==>
      exists i :: 0 <= i < |steps| && steps[i] == r && forall j :: 0 <= j < i ==> steps[j] == Success
  {
    if |steps| == 0 then Success
    else if steps[0] != Success then steps[0]
    else
      var rest := TrySequence(steps[1..]);
      assert forall j :: 1 <= j < |steps| ==> steps[j] == steps[1..][j - 1];
      rest
  }

  /** Appending a successful step to a run of TRYs does not change its result. */
  lemma {:induction false} TrySequenceSuccessTail(steps: seq<VkResult>)
    ensures TrySequence(steps + [Success]) == TrySequence(steps)
  {
    if |steps| > 0 && steps[0] == Success {
      assert (steps + [Success])[1..] == steps[1..] + [Success];
      TrySequenceSuccessTail(steps[1..]);
    }
  }
}
