// wsi/wsi_factory.cpp: the table of window systems the layer was built
// with, and what the layer derives from it: which backend answers for a
// surface, which platforms the application enabled, which device
// extensions the layer must enable, and the backends' entry points.
module WsiFactory {
  import opened VkTypes
  import opened ExtensionList

  /** VkIcdWsiPlatform. */
  datatype Platform = Mir | Wayland | Win32 | Xcb | Xlib | Android | MacOs | Ios | Display | Headless | Metal

  /** An entry of supported_wsi_extensions: the surface extension and its platform. */
  datatype WsiExtension = WsiExtension(extension: ExtProp, platform: Platform)

  /**
   * supported_wsi_extensions: VK_EXT_headless_surface (revision 1) always,
   * and VK_KHR_wayland_surface (revision 6) when the layer is built with
   * Wayland support.
   */
  function SupportedWsiExtensions(waylandBuilt: bool): (exts: seq<WsiExtension>)
    ensures |exts| >= 1 && exts[0].platform == Headless
    ensures forall i :: 0 <= i < |exts| ==> exts[i].platform == Headless || (waylandBuilt && exts[i].platform == Wayland)
  {
    [WsiExtension(ExtProp("VK_EXT_headless_surface", 1), Headless)] +
    (if waylandBuilt then [WsiExtension(ExtProp("VK_KHR_wayland_surface", 6), Wayland)] else [])
  }

  /**
   * get_surface_properties(platform): the backend whose surface properties
   * answer for the platform (named by its platform), or null for a
   * platform the layer was not built for. allocate_surface_swapchain
   * makes the same choice.
   */
  function GetSurfaceProperties(platform: Platform, waylandBuilt: bool): (r: Option<Platform>)
    ensures r.Some? ==> r.value == platform
    ensures r.Some? <==> exists i :: 0 <= i < |SupportedWsiExtensions(waylandBuilt)| &&
                                     SupportedWsiExtensions(waylandBuilt)[i].platform == platform
  {
    assert SupportedWsiExtensions(waylandBuilt)[0].platform == Headless;
    assert waylandBuilt ==> SupportedWsiExtensions(waylandBuilt)[1].platform == Wayland;
    match platform
    case Headless => Some(Headless)
    case Wayland => if waylandBuilt then Some(Wayland) else None
    case _ => None
  }

  /** The platforms whose surface extension is among the enabled names. */
  function EnabledPlatforms(exts: seq<WsiExtension>, enabledNames: seq<string>): (s: set<Platform>)
    ensures forall p :: p in s <==> exists i :: 0 <= i < |exts| && exts[i].platform == p &&
                                                exts[i].extension.name in enabledNames
  {
    set i | 0 <= i < |exts| && exts[i].extension.name in enabledNames :: exts[i].platform
  }

  /**
   * find_enabled_layer_platforms: for every supported extension, a scan of
   * the application's enabled extension names adds its platform on a
   * match.
   */
  method FindEnabledLayerPlatforms(enabledNames: seq<string>, waylandBuilt: bool) returns (ret: set<Platform>)
    ensures ret == EnabledPlatforms(SupportedWsiExtensions(waylandBuilt), enabledNames)
  {
    var exts := SupportedWsiExtensions(waylandBuilt);
    ret := {};
    for k := 0 to |exts|
      invariant ret == EnabledPlatforms(exts[..k], enabledNames)
    {
      for i := 0 to |enabledNames|
        invariant ret == EnabledPlatforms(exts[..k], enabledNames) +
                         (if exts[k].extension.name in enabledNames[..i] then {exts[k].platform} else {})
      {
        if enabledNames[i] == exts[k].extension.name {
          ret := ret + {exts[k].platform};
        }
        assert enabledNames[..i + 1] == enabledNames[..i] + [enabledNames[i]];
      }
      assert enabledNames[..|enabledNames|] == enabledNames;
      assert exts[..k + 1] == exts[..k] + [exts[k]];
      assert EnabledPlatforms(exts[..k + 1], enabledNames) ==
             EnabledPlatforms(exts[..k], enabledNames) +
             (if exts[k].extension.name in enabledNames then {exts[k].platform} else {});
    }
    assert exts[..|exts|] == exts;
  }

  /**
   * What the loop does for one supported platform p: nothing for a
   * platform the application did not enable; otherwise the error of
   * get_required_device_extensions, INITIALIZATION_FAILED when the device
   * lacks a required extension, OUT_OF_HOST_MEMORY when adding them to the
   * list fails, or SUCCESS. required(p) is what platform p's
   * get_required_device_extensions returns and addOk(p) whether adding
   * them succeeds.
   */
  function StepResult(p: Platform, enabled: set<Platform>, deviceProps: seq<ExtProp>,
                      required: Platform -> (VkResult, seq<ExtProp>), addOk: Platform -> bool): VkResult
  {
    if p !in enabled then Success
    else if required(p).0 != Success then required(p).0
    else if !ContainsAll(deviceProps, required(p).1) then ErrorInitializationFailed
    else if !addOk(p) then ErrorOutOfHostMemory
    else Success
  }

  /**
   * The entries one successful step adds to the list: the required
   * extensions, added by name (so with version 0).
   */
  function StepAdded(p: Platform, enabled: set<Platform>, required: Platform -> (VkResult, seq<ExtProp>)): seq<ExtProp>
  {
    if p in enabled then FromNames(Names(required(p).1)) else []
  }

  /**
   * What the platform loop does from entry i on: its result and the names
   * it adds to the list, in order; the first failing step ends it.
   */
  function PlatformsFrom(exts: seq<WsiExtension>, i: nat, enabled: set<Platform>, deviceProps: seq<ExtProp>,
                         required: Platform -> (VkResult, seq<ExtProp>), addOk: Platform -> bool)
    : (r: (VkResult, seq<ExtProp>))
    requires i <= |exts|
    ensures r.0 != Success ==>
      exists k :: i <= k < |exts| && r.0 == StepResult(exts[k].platform, enabled, deviceProps, required, addOk)
    ensures forall x :: x in r.1 ==>
      exists k :: i <= k < |exts| && exts[k].platform in enabled && x in StepAdded(exts[k].platform, enabled, required)
    decreases |exts| - i
  {
    if i == |exts| then (Success, [])
    else
      var p := exts[i].platform;
      var step := StepResult(p, enabled, deviceProps, required, addOk);
      if step != Success then (step, [])
      else
        var rest := PlatformsFrom(exts, i + 1, enabled, deviceProps, required, addOk);
        (rest.0, StepAdded(p, enabled, required) + rest.1)
  }

  /**
   * Platform p passes its turn of the loop: it is not enabled, or its
   * required extensions are listed, all supported by the device and added.
   */
  predicate StepOk(p: Platform, enabled: set<Platform>, deviceProps: seq<ExtProp>,
                   required: Platform -> (VkResult, seq<ExtProp>), addOk: Platform -> bool)
  {
    p in enabled ==> required(p).0 == Success && ContainsAll(deviceProps, required(p).1) && addOk(p)
  }

  /** Every platform of exts[i..j] passes its turn. */
  predicate AllStepsOk(exts: seq<WsiExtension>, i: nat, j: nat, enabled: set<Platform>, deviceProps: seq<ExtProp>,
                       required: Platform -> (VkResult, seq<ExtProp>), addOk: Platform -> bool)
    requires i <= j <= |exts|
  {
    forall k :: i <= k < j ==> StepOk(exts[k].platform, enabled, deviceProps, required, addOk)
  }

  /** The platform loop succeeds exactly when every platform passes its turn. */
  lemma {:induction false} PlatformsFromMeaning(exts: seq<WsiExtension>, i: nat, enabled: set<Platform>,
                                                 deviceProps: seq<ExtProp>,
                                                 required: Platform -> (VkResult, seq<ExtProp>), addOk: Platform -> bool)
    requires i <= |exts|
    ensures PlatformsFrom(exts, i, enabled, deviceProps, required, addOk).0 == Success <==>
      AllStepsOk(exts, i, |exts|, enabled, deviceProps, required, addOk)
    decreases |exts| - i
  {
    if i < |exts| {
      PlatformsFromMeaning(exts, i + 1, enabled, deviceProps, required, addOk);
      PlatformsFromStep(exts, i, enabled, deviceProps, required, addOk);
      StepResultOk(exts[i].platform, enabled, deviceProps, required, addOk);
      AllStepsOkSplit(exts, i, |exts|, enabled, deviceProps, required, addOk);
    }
  }

  lemma StepResultOk(p: Platform, enabled: set<Platform>, deviceProps: seq<ExtProp>,
                     required: Platform -> (VkResult, seq<ExtProp>), addOk: Platform -> bool)
    ensures StepResult(p, enabled, deviceProps, required, addOk) == Success <==>
      StepOk(p, enabled, deviceProps, required, addOk)
  {
  }

  lemma AllStepsOkSplit(exts: seq<WsiExtension>, i: nat, j: nat, enabled: set<Platform>, deviceProps: seq<ExtProp>,
                        required: Platform -> (VkResult, seq<ExtProp>), addOk: Platform -> bool)
    requires i < j <= |exts|
    ensures AllStepsOk(exts, i, j, enabled, deviceProps, required, addOk) <==>
      StepOk(exts[i].platform, enabled, deviceProps, required, addOk) &&
      AllStepsOk(exts, i + 1, j, enabled, deviceProps, required, addOk)
  {
  }

  /**
   * An enabled platform whose required extension the device lacks fails
   * the whole call with INITIALIZATION_FAILED when every platform before
   * it passed its turn.
   */
  lemma {:induction false} PlatformsFromMissing(exts: seq<WsiExtension>, i: nat, k: nat, enabled: set<Platform>,
                                                 deviceProps: seq<ExtProp>,
                                                 required: Platform -> (VkResult, seq<ExtProp>), addOk: Platform -> bool)
    requires i <= k < |exts| && AllStepsOk(exts, i, k, enabled, deviceProps, required, addOk)
    requires exts[k].platform in enabled && required(exts[k].platform).0 == Success
    requires !ContainsAll(deviceProps, required(exts[k].platform).1)
    ensures PlatformsFrom(exts, i, enabled, deviceProps, required, addOk).0 == ErrorInitializationFailed
    decreases k - i
  {
    PlatformsFromStep(exts, i, enabled, deviceProps, required, addOk);
    StepResultOk(exts[i].platform, enabled, deviceProps, required, addOk);
    if i < k {
      AllStepsOkSplit(exts, i, k, enabled, deviceProps, required, addOk);
      PlatformsFromMissing(exts, i + 1, k, enabled, deviceProps, required, addOk);
    }
  }

  /** One turn of PlatformsFrom: a failing step ends it, a successful one adds its entries in front. */
  lemma PlatformsFromStep(exts: seq<WsiExtension>, i: nat, enabled: set<Platform>, deviceProps: seq<ExtProp>,
                          required: Platform -> (VkResult, seq<ExtProp>), addOk: Platform -> bool)
    requires i < |exts|
    ensures var step := StepResult(exts[i].platform, enabled, deviceProps, required, addOk);
      var rest := PlatformsFrom(exts, i + 1, enabled, deviceProps, required, addOk);
      PlatformsFrom(exts, i, enabled, deviceProps, required, addOk) ==
        if step != Success then (step, []) else (rest.0, StepAdded(exts[i].platform, enabled, required) + rest.1)
  {
  }

  /** Every required extension name fits VkExtensionProperties::extensionName. */
  predicate NamesFit(ps: seq<ExtProp>)
  {
    forall j :: 0 <= j < |ps| ==> |ps[j].name| < MAX_EXTENSION_NAME_SIZE
  }

  /** The driver's answers to the two-call enumeration of the device's extensions. */
  datatype DeviceEnumeration = DeviceEnumeration(countResult: VkResult, resizeOk: bool, listResult: VkResult,
                                                 props: seq<ExtProp>, addOk: bool)

  /**
   * add_extensions_required_by_layer: enumerate the device's extensions
   * (count, resize, list: the first failure is returned, a failed resize
   * as OUT_OF_HOST_MEMORY), copy them into a local list, then for each
   * supported platform the application enabled add the device extensions
   * it requires, failing with INITIALIZATION_FAILED when the device lacks
   * one.
   */
  method AddExtensionsRequiredByLayer(enabled: set<Platform>, waylandBuilt: bool, dev: DeviceEnumeration,
                                      required: Platform -> (VkResult, seq<ExtProp>), addOk: Platform -> bool,
                                      toEnable: ExtensionList) returns (r: VkResult)
    requires forall p :: NamesFit(required(p).1)
    modifies toEnable
    ensures dev.countResult != Success ==> r == dev.countResult && toEnable.props == old(toEnable.props)
    ensures dev.countResult == Success && !dev.resizeOk ==> r == ErrorOutOfHostMemory && toEnable.props == old(toEnable.props)
    ensures dev.countResult == Success && dev.resizeOk && dev.listResult != Success ==>
      r == dev.listResult && toEnable.props == old(toEnable.props)
    ensures dev.countResult == Success && dev.resizeOk && dev.listResult == Success && !dev.addOk ==>
      r == ErrorOutOfHostMemory && toEnable.props == old(toEnable.props)
    ensures dev.countResult == Success && dev.resizeOk && dev.listResult == Success && dev.addOk ==>
      var (res, added) := PlatformsFrom(SupportedWsiExtensions(waylandBuilt), 0, enabled, dev.props, required, addOk);
      r == res && toEnable.props == old(toEnable.props) + added
  {
    if dev.countResult != Success {
      return dev.countResult;
    }
    if !dev.resizeOk {
      return ErrorOutOfHostMemory;
    }
    if dev.listResult != Success {
      return dev.listResult;
    }
    var deviceExtensions := new ExtensionList();
    r := deviceExtensions.AddProps(dev.props, dev.addOk);
    if r != Success {
      return;
    }
    assert deviceExtensions.props == dev.props;
    r := AddPlatformExtensions(SupportedWsiExtensions(waylandBuilt), enabled, deviceExtensions.props,
                               required, addOk, toEnable);
  }

  /** One turn of the platform loop. */
  method AddPlatform(p: Platform, enabled: set<Platform>, deviceProps: seq<ExtProp>,
                     required: Platform -> (VkResult, seq<ExtProp>), addOk: Platform -> bool,
                     toEnable: ExtensionList) returns (r: VkResult)
    requires NamesFit(required(p).1)
    modifies toEnable
    ensures r == StepResult(p, enabled, deviceProps, required, addOk)
    ensures toEnable.props == if r == Success then old(toEnable.props) + StepAdded(p, enabled, required)
                              else old(toEnable.props)
  {
    if p !in enabled {
      return Success;
    }
    var (res, req) := required(p);
    if res != Success {
      return res;
    }
    if !ContainsAll(deviceProps, req) {
      return ErrorInitializationFailed;
    }
    r := toEnable.AddNames(Names(req), addOk(p));
  }

  /**
   * The platform loop of add_extensions_required_by_layer: platforms the
   * application did not enable are skipped; for the others the required
   * extensions are fetched, checked against the device's and added.
   */
  method AddPlatformExtensions(exts: seq<WsiExtension>, enabled: set<Platform>, deviceProps: seq<ExtProp>,
                               required: Platform -> (VkResult, seq<ExtProp>), addOk: Platform -> bool,
                               toEnable: ExtensionList) returns (r: VkResult)
    requires forall p :: NamesFit(required(p).1)
    modifies toEnable
    ensures var (res, added) := PlatformsFrom(exts, 0, enabled, deviceProps, required, addOk);
      r == res && toEnable.props == old(toEnable.props) + added
  {
    ghost var added: seq<ExtProp> := [];
    ghost var total := PlatformsFrom(exts, 0, enabled, deviceProps, required, addOk);
    PrependNothing(total.1);
    for i := 0 to |exts|
      invariant toEnable.props == old(toEnable.props) + added
      invariant total.0 == PlatformsFrom(exts, i, enabled, deviceProps, required, addOk).0
      invariant total.1 == added + PlatformsFrom(exts, i, enabled, deviceProps, required, addOk).1
    {
      r := AddPlatformTurn(exts, i, enabled, deviceProps, required, addOk, toEnable, added, total);
      if r != Success {
        return;
      }
      Regroup(old(toEnable.props), added, StepAdded(exts[i].platform, enabled, required));
      added := added + StepAdded(exts[i].platform, enabled, required);
    }
    AppendNothing(added);
    return Success;
  }

  /**
   * The turn of the platform loop for exts[i], stated against what the
   * whole loop does (total) and what the earlier turns added.
   */
  method AddPlatformTurn(exts: seq<WsiExtension>, i: nat, enabled: set<Platform>, deviceProps: seq<ExtProp>,
                         required: Platform -> (VkResult, seq<ExtProp>), addOk: Platform -> bool,
                         toEnable: ExtensionList, ghost added: seq<ExtProp>, ghost total: (VkResult, seq<ExtProp>))
    returns (r: VkResult)
    requires i < |exts| && NamesFit(required(exts[i].platform).1)
    requires total.0 == PlatformsFrom(exts, i, enabled, deviceProps, required, addOk).0
    requires total.1 == added + PlatformsFrom(exts, i, enabled, deviceProps, required, addOk).1
    modifies toEnable
    ensures r != Success ==> r == total.0 && total.1 == added && toEnable.props == old(toEnable.props)
    ensures r == Success ==>
      var step := StepAdded(exts[i].platform, enabled, required);
      toEnable.props == old(toEnable.props) + step &&
      total.0 == PlatformsFrom(exts, i + 1, enabled, deviceProps, required, addOk).0 &&
      total.1 == (added + step) + PlatformsFrom(exts, i + 1, enabled, deviceProps, required, addOk).1
  {
    PlatformsFromStep(exts, i, enabled, deviceProps, required, addOk);
    r := AddPlatform(exts[i].platform, enabled, deviceProps, required, addOk, toEnable);
    if r != Success {
      AppendNothing(added);
    } else {
      Regroup(added, StepAdded(exts[i].platform, enabled, required),
              PlatformsFrom(exts, i + 1, enabled, deviceProps, required, addOk).1);
    }
  }

  lemma PrependNothing(s: seq<ExtProp>)
    ensures [] + s == s
  {
  }

  lemma AppendNothing(s: seq<ExtProp>)
    ensures s + [] == s
  {
  }

  lemma Regroup(a: seq<ExtProp>, b: seq<ExtProp>, c: seq<ExtProp>)
    ensures (a + b) + c == a + (b + c)
  {
  }

  /** The entry point platform p's get_proc_addr returns for name (None: null). */
  function FirstProc(exts: seq<WsiExtension>, name: string, lookup: (Platform, string) -> Option<nat>): (r: Option<nat>)
    ensures r.None? <==> forall i :: 0 <= i < |exts| ==> lookup(exts[i].platform, name).None?
    ensures r.Some? ==> exists i :: 0 <= i < |exts| && r == lookup(exts[i].platform, name) &&
                                    forall j :: 0 <= j < i ==> lookup(exts[j].platform, name).None?
  {
    if exts == [] then None
    else if lookup(exts[0].platform, name).Some? then lookup(exts[0].platform, name)
    else
      var r := FirstProc(exts[1..], name, lookup);
      assert forall i :: 1 <= i < |exts| ==> exts[1..][i - 1] == exts[i];
      r
  }

  /**
   * get_proc_addr: the backends are asked in table order (lookup(p, name)
   * is backend p's answer) and the first non-null answer is returned.
   */
  method GetProcAddr(name: string, waylandBuilt: bool, lookup: (Platform, string) -> Option<nat>) returns (r: Option<nat>)
    ensures r == FirstProc(SupportedWsiExtensions(waylandBuilt), name, lookup)
  {
    var exts := SupportedWsiExtensions(waylandBuilt);
    for i := 0 to |exts|
      invariant FirstProc(exts, name, lookup) == FirstProc(exts[i..], name, lookup)
    {
      var func := lookup(exts[i].platform, name);
      if func.Some? {
        return func;
      }
      assert exts[i..][1..] == exts[i + 1..];
    }
    return None;
  }
}
