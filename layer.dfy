// layer/layer.cpp: the layer's loader-facing entry points: the two-call
// property enumerations, the search of the loader's create-info chain,
// instance and device creation through the layer link, and interface
// negotiation.
module Layer {
  import opened VkTypes
  import opened Helpers
  import opened Enumeration

  /** VkExtensionProperties: name and spec version. */
  datatype ExtensionProperty = ExtensionProperty(name: string, specVersion: nat)
  /** VkLayerProperties. */
  datatype LayerProperty = LayerProperty(layerName: string, specVersion: nat, implementationVersion: nat, description: string)

  const LAYER_NAME: string := "VK_LAYER_window_system_integration"

  /**
   * global_layer. specVersion is VK_LAYER_API_VERSION, which depends on
   * the Vulkan headers the layer is built with.
   */
  function GlobalLayer(apiVersion: nat): LayerProperty
  {
    LayerProperty(LAYER_NAME, apiVersion, 1, "Window system integration layer")
  }

  /** device_extension: VK_KHR_swapchain, revision 70 of its specification. */
  const DEVICE_EXTENSIONS: seq<ExtensionProperty> := [ExtensionProperty("VK_KHR_swapchain", 70)]
  /** instance_extension: VK_KHR_surface, revision 25 of its specification. */
  const INSTANCE_EXTENSIONS: seq<ExtensionProperty> := [ExtensionProperty("VK_KHR_surface", 25)]

  /** sizeof(VkExtensionProperties): a 256-byte name and a 32-bit version. */
  const SIZEOF_EXTENSION_PROPERTIES: nat := 256 + 4
  /** sizeof(VkLayerProperties): a 256-byte name, two 32-bit versions and a 256-byte description. */
  const SIZEOF_LAYER_PROPERTIES: nat := 256 + 4 + 4 + 256

  /**
   * The bytes extension_properties copies as written: min(*pCount, count)
   * elements of sizeof(VkLayerProperties) each.
   */
  function ExtensionCopyBytesAsWritten(count: nat, callerCount: nat): (b: nat)
    ensures b == 2 * (Min(callerCount, count) * SIZEOF_EXTENSION_PROPERTIES)
    ensures b == 0 <==> count == 0 || callerCount == 0
  {
    Min(callerCount, count) * SIZEOF_LAYER_PROPERTIES
  }

  /**
   * As written, every non-empty copy moves twice the bytes of the entries
   * it copies, so it reads past the layer's array or writes past the
   * caller's: for the layer's one-entry arrays, 520 bytes from a 260-byte
   * array.
   */
  lemma AsWrittenOverrunsBuffers(count: nat, callerCount: nat)
    requires count >= 1 && callerCount >= 1
    ensures ExtensionCopyBytesAsWritten(count, callerCount) > count * SIZEOF_EXTENSION_PROPERTIES ||
            ExtensionCopyBytesAsWritten(count, callerCount) > callerCount * SIZEOF_EXTENSION_PROPERTIES
    ensures ExtensionCopyBytesAsWritten(1, callerCount) == 2 * |DEVICE_EXTENSIONS| * SIZEOF_EXTENSION_PROPERTIES
  {
  }

  /** The bytes the corrected copy moves: min(*pCount, count) elements of sizeof(VkExtensionProperties). */
  function ExtensionCopyBytes(count: nat, callerCount: nat): (b: nat)
    ensures b <= count * SIZEOF_EXTENSION_PROPERTIES && b <= callerCount * SIZEOF_EXTENSION_PROPERTIES
    ensures count >= 1 && callerCount >= 1 ==> b < ExtensionCopyBytesAsWritten(count, callerCount)
  {
    Min(callerCount, count) * SIZEOF_EXTENSION_PROPERTIES
  }

  /**
   * extension_properties, with the copy sized by VkExtensionProperties (the
   * corrected copy, see Findings):
   * the two-call enumeration of the layer's own extensions.
   */
  method ExtensionProperties(available: seq<ExtensionProperty>, q: Query<ExtensionProperty>)
    returns (res: VkResult, q': Query<ExtensionProperty>)
    requires WellFormedQuery(q)
    ensures (res, q') == EnumerateOutcome(available, q)
  {
    res, q' := Enumerate(available, q);
  }

  /** layer_properties: the two-call enumeration of the layer's properties. */
  method LayerProperties(available: seq<LayerProperty>, q: Query<LayerProperty>)
    returns (res: VkResult, q': Query<LayerProperty>)
    requires WellFormedQuery(q)
    ensures (res, q') == EnumerateOutcome(available, q)
  {
    res, q' := Enumerate(available, q);
  }

  /** VkLayerFunction: which loader structure a chain entry is. */
  datatype LayerFunction = LayerLinkInfo | LoaderDataCallback

  /**
   * The next layer down, as the layer link describes it: whether its
   * vkGetInstanceProcAddr returns a vkCreateInstance (or vkCreateDevice),
   * and what that create returns.
   */
  datatype NextLayer = NextLayer(createFound: bool, createResult: VkResult)

  /**
   * The u.pLayerInfo union member of a loader create info: the remaining
   * links to the layers below, the empty sequence for a null pointer.
   */
  class LinkInfo {
    var layerInfo: seq<NextLayer>

    constructor (links: seq<NextLayer>)
      ensures layerInfo == links
    {
      layerInfo := links;
    }
  }

  /** A structure of the create info's pNext chain, read as a VkLayerInstanceCreateInfo. */
  datatype ChainEntry = ChainEntry(sType: SType, layerFunction: LayerFunction, link: LinkInfo)

  predicate IsChainInfo(e: ChainEntry, createInfoType: SType, func: LayerFunction)
  {
    e.sType == createInfoType && e.layerFunction == func
  }

  function GetChainInfoFrom(chain: seq<ChainEntry>, createInfoType: SType, func: LayerFunction, i: nat): (r: Option<nat>)
    requires i <= |chain|
    ensures r.Some? ==> i <= r.value < |chain| && IsChainInfo(chain[r.value], createInfoType, func) &&
                        forall j :: i <= j < r.value ==> !IsChainInfo(chain[j], createInfoType, func)
    ensures r.None? ==> forall j :: i <= j < |chain| ==> !IsChainInfo(chain[j], createInfoType, func)
    decreases |chain| - i
  {
    if i == |chain| then None
    else if IsChainInfo(chain[i], createInfoType, func) then Some(i)
    else GetChainInfoFrom(chain, createInfoType, func, i + 1)
  }

  /**
   * get_chain_info (both overloads, createInfoType telling them apart):
   * the first chain entry of the loader's create-info type for func, or
   * null.
   */
  function GetChainInfo(chain: seq<ChainEntry>, createInfoType: SType, func: LayerFunction): (r: Option<nat>)
    ensures r.Some? ==> r.value < |chain| && IsChainInfo(chain[r.value], createInfoType, func) &&
                        forall j :: 0 <= j < r.value ==> !IsChainInfo(chain[j], createInfoType, func)
    ensures r.None? <==> forall j :: 0 <= j < |chain| ==> !IsChainInfo(chain[j], createInfoType, func)
  {
    GetChainInfoFrom(chain, createInfoType, func, 0)
  }

  /**
   * What create_instance / create_device decide from the layer link
   * (layerInfo: None when there is no link entry): the result, and
   * whether the next layer's create was called (which also advances the
   * link and creates the layer's private data).
   */
  function CreateOutcome(layerInfo: Option<seq<NextLayer>>): (r: (VkResult, bool))
    ensures r.1 <==> layerInfo.Some? && |layerInfo.value| > 0 && layerInfo.value[0].createFound
    ensures r.1 ==> r.0 == layerInfo.value[0].createResult
    ensures !r.1 ==> r.0 == ErrorInitializationFailed
  {
    if layerInfo.None? || |layerInfo.value| == 0 then (ErrorInitializationFailed, false)
    else if !layerInfo.value[0].createFound then (ErrorInitializationFailed, false)
    else (layerInfo.value[0].createResult, true)
  }

  /** A missing link, or a next layer without a create function, fails initialisation without calling down. */
  lemma MissingLinkFails(links: seq<NextLayer>)
    requires |links| == 0 || !links[0].createFound
    ensures CreateOutcome(None) == (ErrorInitializationFailed, false)
    ensures CreateOutcome(Some(links)) == (ErrorInitializationFailed, false)
  {
  }

  /**
   * create_instance and create_device: find the link entry and the loader
   * callback entry (the callback entry is dereferenced unchecked, so it
   * must exist); fail with INITIALIZATION_FAILED when the link or the next
   * create function is missing; otherwise advance the link by one layer
   * and return what the next layer's create returns. calledDown also
   * says that the layer's private data was created, whatever the result.
   */
  method CreateThroughChain(chain: seq<ChainEntry>, createInfoType: SType) returns (r: VkResult, calledDown: bool)
    requires GetChainInfo(chain, createInfoType, LoaderDataCallback).Some?
    modifies set e | e in chain :: e.link
    ensures var k := GetChainInfo(chain, createInfoType, LayerLinkInfo);
      (r, calledDown) == CreateOutcome(if k.None? then None else Some(old(chain[k.value].link.layerInfo)))
    ensures var k := GetChainInfo(chain, createInfoType, LayerLinkInfo);
      calledDown ==> chain[k.value].link.layerInfo == old(chain[k.value].link.layerInfo)[1..]
    ensures var k := GetChainInfo(chain, createInfoType, LayerLinkInfo);
      forall e :: e in chain && (!calledDown || e.link != chain[k.value].link) ==>
        e.link.layerInfo == old(e.link.layerInfo)
  {
    var k := GetChainInfo(chain, createInfoType, LayerLinkInfo);
    if k.None? || |chain[k.value].link.layerInfo| == 0 {
      return ErrorInitializationFailed, false;
    }
    var link := chain[k.value].link;
    var next := link.layerInfo[0];
    if !next.createFound {
      return ErrorInitializationFailed, false;
    }
    link.layerInfo := link.layerInfo[1..];
    r := next.createResult;
    calledDown := true;
  }

  /** create_instance: the chain walk over VK_STRUCTURE_TYPE_LOADER_INSTANCE_CREATE_INFO entries. */
  method CreateInstance(chain: seq<ChainEntry>) returns (r: VkResult, calledDown: bool)
    requires GetChainInfo(chain, LoaderInstanceCreateInfo, LoaderDataCallback).Some?
    modifies set e | e in chain :: e.link
    ensures var k := GetChainInfo(chain, LoaderInstanceCreateInfo, LayerLinkInfo);
      (r, calledDown) == CreateOutcome(if k.None? then None else Some(old(chain[k.value].link.layerInfo))) &&
      (calledDown ==> chain[k.value].link.layerInfo == old(chain[k.value].link.layerInfo)[1..])
  {
    r, calledDown := CreateThroughChain(chain, LoaderInstanceCreateInfo);
  }

  /** create_device: the chain walk over VK_STRUCTURE_TYPE_LOADER_DEVICE_CREATE_INFO entries. */
  method CreateDevice(chain: seq<ChainEntry>) returns (r: VkResult, calledDown: bool)
    requires GetChainInfo(chain, LoaderDeviceCreateInfo, LoaderDataCallback).Some?
    modifies set e | e in chain :: e.link
    ensures var k := GetChainInfo(chain, LoaderDeviceCreateInfo, LayerLinkInfo);
      (r, calledDown) == CreateOutcome(if k.None? then None else Some(old(chain[k.value].link.layerInfo))) &&
      (calledDown ==> chain[k.value].link.layerInfo == old(chain[k.value].link.layerInfo)[1..])
  {
    r, calledDown := CreateThroughChain(chain, LoaderDeviceCreateInfo);
  }

  /** The entry points a negotiation can install. */
  datatype ProcAddrHook = LayerGetInstanceProcAddr | LayerGetDeviceProcAddr | OtherHook

  /** VkNegotiateLayerInterface: the version and the three hooks (None: null). */
  datatype NegotiateInterface = NegotiateInterface(
    loaderLayerInterfaceVersion: nat,
    getInstanceProcAddr: Option<ProcAddrHook>,
    getDeviceProcAddr: Option<ProcAddrHook>,
    getPhysicalDeviceProcAddr: Option<ProcAddrHook>)

  /**
   * vkNegotiateLoaderLayerInterfaceVersion: the loader offers version 2 or
   * later (asserted); the layer answers version 2, installs its two
   * proc-addr hooks and no physical-device hook, and succeeds.
   */
  function Negotiate(offer: NegotiateInterface): (r: (VkResult, NegotiateInterface))
    requires offer.loaderLayerInterfaceVersion >= 2
    ensures r.0 == Success
    ensures r.1.loaderLayerInterfaceVersion == 2 && r.1.loaderLayerInterfaceVersion <= offer.loaderLayerInterfaceVersion
    ensures r.1.getInstanceProcAddr == Some(LayerGetInstanceProcAddr)
    ensures r.1.getDeviceProcAddr == Some(LayerGetDeviceProcAddr)
    ensures r.1.getPhysicalDeviceProcAddr.None?
  {
    (Success, NegotiateInterface(2, Some(LayerGetInstanceProcAddr), Some(LayerGetDeviceProcAddr), None))
  }

  /**
   * wsi_layer_vkEnumerateInstanceExtensionProperties: for this layer's
   * name, VK_KHR_surface through the two-call idiom; for any other name
   * or none, LAYER_NOT_PRESENT with the caller's query untouched.
   */
  method EnumerateInstanceExtensionProperties(layerName: Option<string>, q: Query<ExtensionProperty>)
    returns (res: VkResult, q': Query<ExtensionProperty>)
    requires WellFormedQuery(q)
    ensures layerName == Some(LAYER_NAME) ==> (res, q') == EnumerateOutcome(INSTANCE_EXTENSIONS, q)
    ensures layerName != Some(LAYER_NAME) ==> res == ErrorLayerNotPresent && q' == q
  {
    if layerName == Some(LAYER_NAME) {
      res, q' := ExtensionProperties(INSTANCE_EXTENSIONS, q);
    } else {
      res, q' := ErrorLayerNotPresent, q;
    }
  }

  /**
   * wsi_layer_vkEnumerateDeviceExtensionProperties: for this layer's name,
   * VK_KHR_swapchain through the two-call idiom; otherwise the call goes
   * to the next layer, whose answer (forwarded) is returned unchanged.
   */
  method EnumerateDeviceExtensionProperties(layerName: Option<string>, q: Query<ExtensionProperty>,
                                            forwarded: (VkResult, Query<ExtensionProperty>))
    returns (res: VkResult, q': Query<ExtensionProperty>)
    requires WellFormedQuery(q)
    ensures layerName == Some(LAYER_NAME) ==> (res, q') == EnumerateOutcome(DEVICE_EXTENSIONS, q)
    ensures layerName != Some(LAYER_NAME) ==> (res, q') == forwarded
  {
    if layerName == Some(LAYER_NAME) {
      res, q' := ExtensionProperties(DEVICE_EXTENSIONS, q);
    } else {
      res, q' := forwarded.0, forwarded.1;
    }
  }

  /** wsi_layer_vkEnumerateInstanceLayerProperties: the one global layer. */
  method EnumerateInstanceLayerProperties(apiVersion: nat, q: Query<LayerProperty>)
    returns (res: VkResult, q': Query<LayerProperty>)
    requires WellFormedQuery(q)
    ensures (res, q') == EnumerateOutcome([GlobalLayer(apiVersion)], q)
  {
    res, q' := LayerProperties([GlobalLayer(apiVersion)], q);
  }

  /**
   * Asking for the count and then passing an array of that size lists the
   * layer itself, by name, with SUCCESS.
   */
  lemma LayerListedByName(apiVersion: nat, buffer: seq<LayerProperty>)
    requires |buffer| == 1
    ensures var (_, q1) := EnumerateOutcome([GlobalLayer(apiVersion)], Query(0, None));
      var (res, q2) := EnumerateOutcome([GlobalLayer(apiVersion)], Query(q1.count, Some(buffer)));
      res == Success && q2.count == 1 && q2.out.Some? && q2.out.value[0].layerName == LAYER_NAME
  {
    TwoCallsReturnAll([GlobalLayer(apiVersion)], buffer);
  }
}
