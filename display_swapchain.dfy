// The direct-to-display swapchain (wsi/display/swapchain.cpp): modifier
// negotiation against the DRM display and the device, allocation through
// wsialloc, framebuffer creation, the page-flip present state machine and
// image destruction. Kernel, driver and allocator calls are represented by
// their results; the display singleton is an optional parameter.
module DisplaySwapchain {
  import opened VkTypes
  import opened Wsialloc
  import opened WsiExternalMemory
  import opened Synchronization
  import DrmUtils

  /** VK_FORMAT_UNDEFINED. */
  const VK_FORMAT_UNDEFINED: nat := 0
  /** VK_IMAGE_COMPRESSION_FIXED_RATE_EXPLICIT_EXT. */
  const COMPRESSION_FIXED_RATE_EXPLICIT: bv32 := 0x2
  /** VK_NULL_HANDLE for images. */
  const NULL_IMAGE: nat := 0
  /** The framebuffer id of an image that has no framebuffer. */
  const NO_FRAMEBUFFER: nat := UINT32_MAX

  /**
   * The parts of a VkImageCreateInfo the layer reads or writes, with the
   * two structures it chains in front of the caller's pNext.
   */
  datatype ImageCreateInfo = ImageCreateInfo(
    format: nat, width: nat, height: nat, depth: nat, mipLevels: nat, arrayLayers: nat,
    samples: bv32, protectedBit: bool, disjointBit: bool, drmModifierTiling: bool,
    explicitModifier: Option<DrmModInfo>, externalHandle: Option<HandleType>)

  /** A (fourcc, modifier) pair as the display knows it. */
  datatype DrmFormatPair = DrmFormatPair(fourcc: nat, modifier: nat)

  /** The DRM display: the pairs it can scan out and whether AddFB2 takes modifiers. */
  datatype DrmDisplay = DrmDisplay(formats: set<DrmFormatPair>, supportsFbModifiers: bool)

  /** One VkDrmFormatModifierPropertiesEXT. */
  datatype DrmModifierProps = DrmModifierProps(modifier: nat, planeCount: nat, disjointFeature: bool)

  /**
   * The result of vkGetPhysicalDeviceImageFormatProperties2 for one
   * modifier, with the external-memory features it reports.
   */
  datatype ImageFormatQuery = ImageFormatQuery(
    result: VkResult, maxWidth: nat, maxHeight: nat, maxDepth: nat, maxMipLevels: nat,
    maxArrayLayers: nat, sampleCounts: bv32, exportable: bool, importable: bool)

  /** The device limits cover the requested image. */
  predicate CoversRequest(info: ImageCreateInfo, q: ImageFormatQuery)
  {
    info.width <= q.maxWidth && info.height <= q.maxHeight && info.depth <= q.maxDepth &&
    info.mipLevels <= q.maxMipLevels && info.arrayLayers <= q.maxArrayLayers &&
    q.sampleCounts & info.samples == info.samples
  }

  /** A modifier survives negotiation: the display scans it out and the device accepts the image. */
  predicate Kept(info: ImageCreateInfo, display: DrmDisplay, fourcc: nat, p: DrmModifierProps, q: ImageFormatQuery)
  {
    DrmFormatPair(fourcc, p.modifier) in display.formats && q.result == Success && CoversRequest(info, q)
  }

  /** The wsialloc candidate for an importable modifier: non-disjoint unless the modifier supports DISJOINT. */
  function ImportFormatOf(fourcc: nat, p: DrmModifierProps): (f: Format)
    ensures f.fourcc == fourcc && f.modifier == p.modifier && (f.nonDisjoint <==> !p.disjointFeature)
  {
    Format(fourcc, p.modifier, !p.disjointFeature)
  }

  /** Exportable modifiers among the first n properties, in order. */
  function ExportableModifiers(info: ImageCreateInfo, display: DrmDisplay, fourcc: nat,
                               props: seq<DrmModifierProps>, queries: seq<ImageFormatQuery>, n: nat): seq<nat>
    requires n <= |props| == |queries|
  {
    if n == 0 then []
    else
      ExportableModifiers(info, display, fourcc, props, queries, n - 1) +
      (if Kept(info, display, fourcc, props[n - 1], queries[n - 1]) && queries[n - 1].exportable
       then [props[n - 1].modifier] else [])
  }

  /** Importable candidates among the first n properties, in order. */
  function ImportableFormats(info: ImageCreateInfo, display: DrmDisplay, fourcc: nat,
                             props: seq<DrmModifierProps>, queries: seq<ImageFormatQuery>, n: nat): seq<Format>
    requires n <= |props| == |queries|
  {
    if n == 0 then []
    else
      ImportableFormats(info, display, fourcc, props, queries, n - 1) +
      (if Kept(info, display, fourcc, props[n - 1], queries[n - 1]) && queries[n - 1].importable
       then [ImportFormatOf(fourcc, props[n - 1])] else [])
  }

  /**
   * A modifier is listed as exportable exactly when some kept property with
   * the EXPORTABLE feature carries it.
   */
  lemma {:induction false} ExportableModifiersExactly(info: ImageCreateInfo, display: DrmDisplay, fourcc: nat,
                                                      props: seq<DrmModifierProps>, queries: seq<ImageFormatQuery>,
                                                      n: nat, m: nat)
    requires n <= |props| == |queries|
    ensures m in ExportableModifiers(info, display, fourcc, props, queries, n) <==>
      exists i :: 0 <= i < n && props[i].modifier == m && queries[i].exportable &&
        Kept(info, display, fourcc, props[i], queries[i])
  {
    if n > 0 {
      ExportableModifiersExactly(info, display, fourcc, props, queries, n - 1, m);
      if m in ExportableModifiers(info, display, fourcc, props, queries, n) &&
         m !in ExportableModifiers(info, display, fourcc, props, queries, n - 1) {
        assert props[n - 1].modifier == m;
      }
    }
  }

  /**
   * A candidate is listed as importable exactly when some kept property with
   * the IMPORTABLE feature yields it; so its NON_DISJOINT flag is set exactly
   * when that modifier lacks the DISJOINT feature.
   */
  lemma {:induction false} ImportableFormatsExactly(info: ImageCreateInfo, display: DrmDisplay, fourcc: nat,
                                                    props: seq<DrmModifierProps>, queries: seq<ImageFormatQuery>,
                                                    n: nat, f: Format)
    requires n <= |props| == |queries|
    ensures f in ImportableFormats(info, display, fourcc, props, queries, n) <==>
      exists i :: 0 <= i < n && f == ImportFormatOf(fourcc, props[i]) && queries[i].importable &&
        Kept(info, display, fourcc, props[i], queries[i])
  {
    if n > 0 {
      ImportableFormatsExactly(info, display, fourcc, props, queries, n - 1, f);
      if f in ImportableFormats(info, display, fourcc, props, queries, n) &&
         f !in ImportableFormats(info, display, fourcc, props, queries, n - 1) {
        assert f == ImportFormatOf(fourcc, props[n - 1]);
      }
    }
  }

  /** The lists for a shorter prefix of the properties are prefixes of the lists for a longer one. */
  lemma {:induction false} NegotiationPrefix(info: ImageCreateInfo, display: DrmDisplay, fourcc: nat,
                                             props: seq<DrmModifierProps>, queries: seq<ImageFormatQuery>, m: nat, n: nat)
    requires m <= n <= |props| == |queries|
    ensures ExportableModifiers(info, display, fourcc, props, queries, m) <= ExportableModifiers(info, display, fourcc, props, queries, n)
    ensures ImportableFormats(info, display, fourcc, props, queries, m) <= ImportableFormats(info, display, fourcc, props, queries, n)
  {
    if m < n {
      NegotiationPrefix(info, display, fourcc, props, queries, m, n - 1);
    }
  }

  /**
   * get_surface_compatible_formats. The modifier properties come from
   * get_drm_format_properties (propsResult, props); queries[i] is the
   * device's answer for props[i]. A vector push fails once room entries
   * have been pushed onto that vector. Rejected modifiers are skipped, never an error.
   */
  method GetSurfaceCompatibleFormats(info: ImageCreateInfo, mainTable: seq<DrmUtils.FormatPair>,
                                     srgbTable: seq<DrmUtils.FormatPair>, propsResult: VkResult,
                                     props: seq<DrmModifierProps>, queries: seq<ImageFormatQuery>,
                                     display: Option<DrmDisplay>, room: nat,
                                     importable0: seq<Format>, exportable0: seq<nat>)
    returns (r: VkResult, importable: seq<Format>, exportable: seq<nat>)
    requires |props| == |queries|
    ensures r == propsResult || r == ErrorOutOfHostMemory || r == Success
    ensures propsResult != Success ==> r == propsResult && importable == importable0 && exportable == exportable0
    ensures propsResult == Success && display.None? ==>
      r == ErrorOutOfHostMemory && importable == importable0 && exportable == exportable0
    ensures propsResult == Success && display.Some? ==>
      var fourcc := DrmUtils.VkToDrmFormat(mainTable, srgbTable, info.format);
      var allImp := importable0 + ImportableFormats(info, display.value, fourcc, props, queries, |props|);
      var allExp := exportable0 + ExportableModifiers(info, display.value, fourcc, props, queries, |props|);
      importable <= allImp && exportable <= allExp &&
      (r == Success <==> |allImp| <= |importable0| + room && |allExp| <= |exportable0| + room) &&
      (r == Success ==> importable == allImp && exportable == allExp)
  {
    importable, exportable := importable0, exportable0;
    if propsResult != Success {
      return propsResult, importable, exportable;
    }
    if display.None? {
      return ErrorOutOfHostMemory, importable, exportable;
    }
    var d := display.value;
    var fourcc := DrmUtils.VkToDrmFormat(mainTable, srgbTable, info.format);
    var i := 0;
    while i < |props|
      invariant i <= |props| && Negotiated(info, d, fourcc, props, queries, i, room, importable0, exportable0, importable, exportable)
    {
      var ok;
      ok, importable, exportable :=
        NegotiateModifier(info, d, fourcc, props, queries, i, room, importable0, exportable0, importable, exportable);
      if !ok {
        return ErrorOutOfHostMemory, importable, exportable;
      }
      i := i + 1;
    }
    r := Success;
  }

  /**
   * The loop state of get_surface_compatible_formats after the first i
   * properties: both vectors hold what those properties contribute, within
   * their room.
   */
  predicate Negotiated(info: ImageCreateInfo, d: DrmDisplay, fourcc: nat, props: seq<DrmModifierProps>,
                       queries: seq<ImageFormatQuery>, i: nat, room: nat,
                       importable0: seq<Format>, exportable0: seq<nat>, importable: seq<Format>, exportable: seq<nat>)
  {
    i <= |props| == |queries| &&
    importable == importable0 + ImportableFormats(info, d, fourcc, props, queries, i) &&
    exportable == exportable0 + ExportableModifiers(info, d, fourcc, props, queries, i) &&
    |importable| <= |importable0| + room && |exportable| <= |exportable0| + room
  }

  /**
   * One property of the negotiation loop: a kept modifier is pushed onto
   * the exportable and importable vectors as its features say; ok is false
   * when a push finds its vector full.
   */
  method NegotiateModifier(info: ImageCreateInfo, d: DrmDisplay, fourcc: nat, props: seq<DrmModifierProps>,
                           queries: seq<ImageFormatQuery>, i: nat, room: nat,
                           importable0: seq<Format>, exportable0: seq<nat>, importable: seq<Format>, exportable: seq<nat>)
    returns (ok: bool, importable': seq<Format>, exportable': seq<nat>)
    requires i < |props| && Negotiated(info, d, fourcc, props, queries, i, room, importable0, exportable0, importable, exportable)
    ensures ok ==> Negotiated(info, d, fourcc, props, queries, i + 1, room, importable0, exportable0, importable', exportable')
    ensures !ok ==>
      var allImp := importable0 + ImportableFormats(info, d, fourcc, props, queries, |props|);
      var allExp := exportable0 + ExportableModifiers(info, d, fourcc, props, queries, |props|);
      importable' <= allImp && exportable' <= allExp &&
      !(|allImp| <= |importable0| + room && |allExp| <= |exportable0| + room)
  {
    NegotiationPrefix(info, d, fourcc, props, queries, i + 1, |props|);
    importable', exportable' := importable, exportable;
    ok := true;
    if Kept(info, d, fourcc, props[i], queries[i]) {
      if queries[i].exportable {
        if |exportable'| >= |exportable0| + room {
          return false, importable', exportable';
        }
        exportable' := exportable' + [props[i].modifier];
      }
      if queries[i].importable {
        if |importable'| >= |importable0| + room {
          assert exportable' == exportable0 + ExportableModifiers(info, d, fourcc, props, queries, i + 1);
          return false, importable', exportable';
        }
        importable' := importable' + [ImportFormatOf(fourcc, props[i])];
      }
    }
  }

  /**
   * wsialloc_alloc as the swapchain sees it: given the request and the
   * result structure as pre-set by the caller, the error and the result
   * structure afterwards.
   */
  type Allocator = (AllocateInfo, AllocateResult) -> (WsiallocError, AllocateResult)

  /** The allocator keeps the result structure's four-slot arrays. */
  ghost predicate KeepsShape(alloc: Allocator)
  {
    forall req, r0 :: WellFormedResult(r0) ==> WellFormedResult(alloc(req, r0).1)
  }

  /** The result structure before the call: zeroes, with every buffer fd cleared to -1. */
  function PresetResult(): (r: AllocateResult)
    ensures WellFormedResult(r) && forall p :: 0 <= p < Wsialloc.MAX_PLANES ==> r.bufferFds[p] == -1
  {
    AllocateResult(Format(0, 0, false), [0, 0, 0, 0], [0, 0, 0, 0], [-1, -1, -1, -1], false)
  }

  /**
   * The request allocate_wsialloc builds: the candidates, the extent, and
   * PROTECTED iff the image is protected, NO_MEMORY iff this is a probe,
   * HIGHEST_FIXED_RATE_COMPRESSION iff the compression-control extension
   * (when present) asks for explicit fixed-rate compression.
   */
  function AllocationRequest(info: ImageCreateInfo, candidates: seq<Format>, avoidAllocation: bool,
                             compression: Option<bv32>): (req: AllocateInfo)
    ensures req.formats == candidates && req.width == info.width && req.height == info.height
    ensures req.flags.protected <==> info.protectedBit
    ensures req.flags.noMemory <==> avoidAllocation
    ensures req.flags.highestFixedRateCompression <==>
      compression.Some? && compression.value & COMPRESSION_FIXED_RATE_EXPLICIT != 0
  {
    AllocateInfo(candidates, false, info.width, info.height,
                 AllocFlags(info.protectedBit, avoidAllocation,
                            compression.Some? && compression.value & COMPRESSION_FIXED_RATE_EXPLICIT != 0))
  }

  /** The Vulkan result for an allocator error. */
  function AllocationResult(err: WsiallocError): (r: VkResult)
    ensures err == ErrorNone <==> r == Success
    ensures err == ErrorNotSupported <==> r == ErrorFormatNotSupported
    ensures err != ErrorNone && err != ErrorNotSupported <==> r == ErrorOutOfHostMemory
  {
    match err
    case ErrorNone => Success
    case ErrorNotSupported => ErrorFormatNotSupported
    case _ => ErrorOutOfHostMemory
  }

  /** Planes among the first n whose fd does not reappear in any later slot of the whole array. */
  function NumMemoryPlanes(fds: seq<int>, n: nat): (r: nat)
    requires n <= |fds|
    ensures r <= n
  {
    if n == 0 then 0
    else NumMemoryPlanes(fds, n - 1) + (if fds[n - 1] in fds[n..] then 0 else 1)
  }

  /**
   * The agreement allocate_wsialloc asserts between the allocator's disjoint
   * flag and the number of distinct memory planes it counts.
   */
  predicate ReportsDisjointness(res: AllocateResult, n: nat)
    requires n <= |res.bufferFds|
  {
    res.isDisjoint == (NumMemoryPlanes(res.bufferFds, n) > 1)
  }

  /**
   * The layout the wsialloc helpers hand back: the first n planes share one
   * fd that no later slot holds, and the result is not disjoint. Such a
   * result is one memory and keeps the agreement allocate_wsialloc asserts.
   */
  lemma {:induction false} SharedFdIsOneMemory(res: AllocateResult, fd: int, n: nat)
    requires WellFormedResult(res) && 1 <= n <= Wsialloc.MAX_PLANES && !res.isDisjoint
    requires forall p :: 0 <= p < n ==> res.bufferFds[p] == fd
    requires forall p :: n <= p < Wsialloc.MAX_PLANES ==> res.bufferFds[p] != fd
    ensures NumMemoryPlanes(res.bufferFds, n) == 1 && ReportsDisjointness(res, n)
  {
    var fds := res.bufferFds;
    SharedFdPrefixIsNoMemory(fds, fd, n, n - 1);
    assert fds[n - 1] !in fds[n..] by {
      forall q | 0 <= q < |fds[n..]| ensures fds[n..][q] != fd {
        assert fds[n..][q] == fds[n + q];
      }
    }
  }

  /** Below the last shared plane, every plane's fd reappears later. */
  lemma {:induction false} SharedFdPrefixIsNoMemory(fds: seq<int>, fd: int, n: nat, k: nat)
    requires k < n <= |fds| && forall p :: 0 <= p < n ==> fds[p] == fd
    ensures NumMemoryPlanes(fds, k) == 0
  {
    if k > 0 {
      SharedFdPrefixIsNoMemory(fds, fd, n, k - 1);
      assert fds[k..][n - 1 - k] == fd;
    }
  }

  /** The fds of the first n planes. */
  ghost function Departed(fds: seq<int>, n: nat): set<int>
    requires n <= |fds|
  {
    if n == 0 then {} else Departed(fds, n - 1) + {fds[n - 1]}
  }

  /** The fds in slots n and later. */
  ghost function Later(fds: seq<int>, n: nat): set<int>
    requires n <= |fds|
    decreases |fds| - n
  {
    if n == |fds| then {} else {fds[n]} + Later(fds, n + 1)
  }

  lemma {:induction false} DepartedMembers(fds: seq<int>, n: nat, x: int)
    requires n <= |fds|
    ensures x in Departed(fds, n) <==> exists i :: 0 <= i < n && fds[i] == x
  {
    if n > 0 {
      DepartedMembers(fds, n - 1, x);
    }
  }

  lemma {:induction false} LaterMembers(fds: seq<int>, n: nat, x: int)
    requires n <= |fds|
    ensures x in Later(fds, n) <==> x in fds[n..]
    decreases |fds| - n
  {
    if n < |fds| {
      LaterMembers(fds, n + 1, x);
      assert fds[n..] == [fds[n]] + fds[n + 1..];
    }
  }

  lemma LaterStep(fds: seq<int>, n: nat)
    requires 0 < n <= |fds|
    ensures Later(fds, n - 1) == {fds[n - 1]} + Later(fds, n)
    ensures fds[n - 1] in fds[n..] <==> fds[n - 1] in Later(fds, n)
  {
    LaterMembers(fds, n, fds[n - 1]);
  }

  /** Counting last occurrences counts the prefix values that do not reappear from slot n on. */
  lemma {:induction false} NumMemoryPlanesCountsValues(fds: seq<int>, n: nat)
    requires n <= |fds|
    ensures NumMemoryPlanes(fds, n) == |Departed(fds, n) - Later(fds, n)|
  {
    if n == 0 {
      assert Departed(fds, n) == {};
    } else {
      var d, l, x := Departed(fds, n - 1), Later(fds, n), fds[n - 1];
      NumMemoryPlanesCountsValues(fds, n - 1);
      LaterStep(fds, n);
      DepartedStep(fds, n);
      DepartStep(d, l, x);
      assert Departed(fds, n) - Later(fds, n) == (d + {x}) - l;
      assert Departed(fds, n - 1) - Later(fds, n - 1) == d - ({x} + l);
    }
  }

  lemma DepartedStep(fds: seq<int>, n: nat)
    requires 0 < n <= |fds|
    ensures Departed(fds, n) == Departed(fds, n - 1) + {fds[n - 1]}
  {
  }

  /** Adding x to the departed values and removing it from the later ones changes the count by one iff x does not reappear. */
  lemma DepartStep(d: set<int>, l: set<int>, x: int)
    ensures x in l ==> |(d + {x}) - l| == |d - ({x} + l)|
    ensures x !in l ==> |(d + {x}) - l| == |d - ({x} + l)| + 1
  {
    if x in l {
      assert (d + {x}) - l == d - ({x} + l);
    } else {
      assert (d + {x}) - l == (d - ({x} + l)) + {x};
    }
  }

  /** The distinct plane fds are as many as the distinct values among the planes. */
  lemma {:induction false} DistinctPlaneFdsCount(fds: seq<int>, n: nat)
    requires n <= |fds|
    ensures |DistinctPlaneFds(fds, n)| == |Departed(fds, n)|
  {
    if n == 0 {
      assert Departed(fds, n) == {};
    } else {
      DistinctPlaneFdsCount(fds, n - 1);
      var x := fds[n - 1];
      assert Departed(fds, n) == Departed(fds, n - 1) + {x};
      DepartedMembers(fds, n - 1, x);
      if !FirstOccurrence(fds, n - 1) {
        var j :| 0 <= j < n - 1 && fds[j] == x;
        assert x in Departed(fds, n - 1);
      }
    }
  }

  /**
   * When no plane fd reappears in a slot past the planes, the swapchain's
   * count of memories equals the number of memories the import step
   * creates (one per distinct plane fd).
   */
  lemma NumMemoryPlanesMatchesImports(fds: seq<int>, n: nat)
    requires n <= |fds|
    requires forall i, j :: 0 <= i < n <= j < |fds| ==> fds[i] != fds[j]
    ensures NumMemoryPlanes(fds, n) == |DistinctPlaneFds(fds, n)|
  {
    NumMemoryPlanesCountsValues(fds, n);
    DistinctPlaneFdsCount(fds, n);
    forall x | x in Departed(fds, n)
      ensures x !in Later(fds, n)
    {
      DepartedMembers(fds, n, x);
      LaterMembers(fds, n, x);
    }
    assert Departed(fds, n) - Later(fds, n) == Departed(fds, n);
  }

  /** Per-image data of the display backend. */
  class DisplayImageData {
    const externalMem: ExternalMemory
    const presentFence: FenceSync
    var fbId: nat

    /** A fresh image: a fresh external memory object, an empty fence and no framebuffer. */
    constructor ()
      ensures fresh(externalMem) && fresh(presentFence) && externalMem.Valid()
      ensures externalMem.bufferFds == [-1, -1, -1, -1] && externalMem.numPlanes == 0
      ensures externalMem.numMemories == 0 && externalMem.memoryType == Uninitialised
      ensures presentFence.State() == FenceState(NULL_FENCE, 0, false, false)
      ensures fbId == NO_FRAMEBUFFER
    {
      externalMem := new ExternalMemory();
      presentFence := new FenceSync.Empty();
      fbId := NO_FRAMEBUFFER;
    }
  }

  /**
   * allocate_wsialloc: allocate (or, when avoidAllocation, only select) a
   * format and record the allocator's layout in the image's external memory.
   * preset is the result structure as the caller clears it before the call.
   */
  method AllocateWsialloc(info: ImageCreateInfo, em: ExternalMemory, candidates: seq<Format>,
                          allocatedFormat0: Format, avoidAllocation: bool, compression: Option<bv32>,
                          alloc: Allocator, preset: AllocateResult)
    returns (r: VkResult, allocatedFormat: Format)
    requires em.Valid() && KeepsShape(alloc) && WellFormedResult(preset)
    modifies em
    ensures em.Valid()
    ensures var out := alloc(AllocationRequest(info, candidates, avoidAllocation, compression), preset);
      r == AllocationResult(out.0) &&
      (r != Success ==> allocatedFormat == allocatedFormat0 && unchanged(em)) &&
      (r == Success ==>
        allocatedFormat == out.1.format &&
        em.strides == out.1.strides && em.bufferFds == out.1.bufferFds && em.offsets == out.1.offsets &&
        em.numPlanes == DrmUtils.NumPlanes(out.1.format.fourcc) &&
        em.memoryType == ExternalDmaBuf && em.handleType == DmaBufHandle &&
        em.numMemories == (if avoidAllocation then old(em.numMemories) else NumMemoryPlanes(out.1.bufferFds, em.numPlanes)) &&
        em.memories == old(em.memories) && em.hostMemory == old(em.hostMemory) &&
        (!avoidAllocation && ReportsDisjointness(out.1, em.numPlanes) ==>
           (em.IsDisjoint() <==> out.1.isDisjoint || em.numMemories == 0)))
  {
    var req := AllocationRequest(info, candidates, avoidAllocation, compression);
    var out := alloc(req, preset);
    r := AllocationResult(out.0);
    if out.0 != ErrorNone {
      return r, allocatedFormat0;
    }
    allocatedFormat := out.1.format;
    em.SetStrides(out.1.strides);
    em.SetBufferFds(out.1.bufferFds);
    em.SetOffsets(out.1.offsets);
    var numPlanes := DrmUtils.NumPlanes(out.1.format.fourcc);
    if !avoidAllocation {
      var count := 0;
      var i := 0;
      while i < numPlanes
        invariant i <= numPlanes && count == NumMemoryPlanes(out.1.bufferFds, i)
      {
        if out.1.bufferFds[i] !in out.1.bufferFds[i + 1..] {
          count := count + 1;
        }
        i := i + 1;
      }
      em.SetNumMemories(count);
    }
    em.SetFormatInfo(out.1.isDisjoint, numPlanes);
    em.SetMemoryHandleType(DmaBufHandle);
  }

  /**
   * fill_image_create_info: lay out the planes, mark the image disjoint when
   * its memory is, and chain the explicit-modifier and external-memory
   * structures in front of the caller's pNext, with DRM-modifier tiling.
   * resizeOk says whether the layout vector could be sized.
   */
  method FillImageCreateInfo(info: ImageCreateInfo, data: DisplayImageData, modifier: nat, resizeOk: bool,
                             layouts0: seq<PlaneLayout>)
    returns (r: VkResult, filled: ImageCreateInfo, layouts: seq<PlaneLayout>)
    requires data.externalMem.Valid()
    ensures var em := data.externalMem;
      (!resizeOk ==> r == ErrorOutOfHostMemory && filled == info && layouts == layouts0) &&
      (resizeOk ==>
        r == Success && |layouts| == em.numPlanes &&
        (forall i :: 0 <= i < em.numPlanes ==> layouts[i] == PlaneLayout(em.offsets[i], RowPitch(em.strides[i]))) &&
        (filled.disjointBit <==> info.disjointBit || em.IsDisjoint()) &&
        filled.drmModifierTiling &&
        filled.explicitModifier == Some(DrmModInfo(modifier, em.numMemories, layouts)) &&
        filled.externalHandle == Some(em.handleType) &&
        filled.(disjointBit := info.disjointBit, drmModifierTiling := info.drmModifierTiling,
                explicitModifier := info.explicitModifier, externalHandle := info.externalHandle) == info)
  {
    var em := data.externalMem;
    r, layouts := em.FillImagePlaneLayouts(resizeOk, layouts0);
    if r != Success {
      return r, info, layouts;
    }
    filled := info;
    if em.IsDisjoint() {
      filled := filled.(disjointBit := true);
    }
    var modInfo := em.FillDrmModInfo(modifier, layouts);
    filled := filled.(explicitModifier := Some(modInfo), externalHandle := Some(em.handleType),
                      drmModifierTiling := true);
  }

  /** The drmModeAddFB2(WithModifiers) call create_framebuffer makes. */
  datatype FbRequest = FbRequest(width: nat, height: nat, fourcc: nat, pitches: seq<nat>, offsets: seq<int>,
                                 modifiers: Option<seq<nat>>)

  /** The first plane below n whose fd could not be turned into a GEM handle. */
  function FirstFailedPlane(primeOk: seq<bool>, n: nat): (r: Option<nat>)
    requires n <= |primeOk|
    ensures r.Some? ==> r.value < n && !primeOk[r.value] && forall p :: 0 <= p < r.value ==> primeOk[p]
    ensures r.None? ==> forall p :: 0 <= p < n ==> primeOk[p]
  {
    if n == 0 then None
    else if FirstFailedPlane(primeOk, n - 1).Some? then FirstFailedPlane(primeOk, n - 1)
    else if !primeOk[n - 1] then Some(n - 1)
    else None
  }

  /**
   * create_framebuffer. primeOk[p] is whether drmPrimeFDToHandle succeeded
   * for plane p; (addFbError, newFbId) is the outcome of the AddFB2 call.
   * Every failure is INITIALIZATION_FAILED.
   */
  method CreateFramebuffer(info: ImageCreateInfo, data: DisplayImageData, fbFormat: Format,
                           display: Option<DrmDisplay>, primeOk: seq<bool>, addFbError: int, newFbId: nat)
    returns (r: VkResult, request: Option<FbRequest>)
    requires data.externalMem.Valid() && |primeOk| == WsiExternalMemory.MAX_PLANES
    modifies data
    ensures r == Success || r == ErrorInitializationFailed
    ensures var em := data.externalMem;
      r == Success <==>
        display.Some? && FirstFailedPlane(primeOk, em.numPlanes).None? &&
        DrmFormatPair(fbFormat.fourcc, fbFormat.modifier) in display.value.formats && addFbError == 0
    ensures request.Some? <==>
      display.Some? && FirstFailedPlane(primeOk, data.externalMem.numPlanes).None? &&
      DrmFormatPair(fbFormat.fourcc, fbFormat.modifier) in display.value.formats
    ensures var em := data.externalMem;
      request.Some? ==>
        var req := request.value;
        req.width == info.width && req.height == info.height && req.fourcc == fbFormat.fourcc &&
        req.offsets == em.offsets && |req.pitches| == WsiExternalMemory.MAX_PLANES &&
        (forall p :: 0 <= p < WsiExternalMemory.MAX_PLANES ==>
          req.pitches[p] == if p < em.numPlanes then RowPitch(em.strides[p]) else 0) &&
        (req.modifiers.Some? <==> display.value.supportsFbModifiers) &&
        (req.modifiers.Some? ==>
          |req.modifiers.value| == WsiExternalMemory.MAX_PLANES &&
          forall p :: 0 <= p < WsiExternalMemory.MAX_PLANES ==>
            req.modifiers.value[p] == if p < em.numPlanes then fbFormat.modifier else 0)
    ensures data.fbId == if r == Success then newFbId else old(data.fbId)
  {
    request := None;
    if display.None? {
      return ErrorInitializationFailed, request;
    }
    var em := data.externalMem;
    var pitches: seq<nat> := [0, 0, 0, 0];
    var modifiers: seq<nat> := [0, 0, 0, 0];
    var plane := 0;
    while plane < em.numPlanes
      invariant plane <= em.numPlanes && FirstFailedPlane(primeOk, plane).None?
      invariant |pitches| == |modifiers| == WsiExternalMemory.MAX_PLANES
      invariant forall p :: 0 <= p < WsiExternalMemory.MAX_PLANES ==>
        pitches[p] == (if p < plane then RowPitch(em.strides[p]) else 0) &&
        modifiers[p] == (if p < plane then fbFormat.modifier else 0)
    {
      pitches := pitches[plane := RowPitch(em.strides[plane])];
      modifiers := modifiers[plane := fbFormat.modifier];
      if !primeOk[plane] {
        return ErrorInitializationFailed, request;
      }
      plane := plane + 1;
    }
    if DrmFormatPair(fbFormat.fourcc, fbFormat.modifier) !in display.value.formats {
      return ErrorInitializationFailed, request;
    }
    if display.value.supportsFbModifiers {
      request := Some(FbRequest(info.width, info.height, fbFormat.fourcc, pitches, em.offsets, Some(modifiers)));
    } else {
      request := Some(FbRequest(info.width, info.height, fbFormat.fourcc, pitches, em.offsets, None));
    }
    if addFbError != 0 {
      return ErrorInitializationFailed, request;
    }
    data.fbId := newFbId;
    r := Success;
  }

  /**
   * The steps of allocate_and_bind_swapchain_image once the memory is
   * allocated: create the framebuffer, import and bind the memory, then
   * create the present fence; the first failing step's result is returned,
   * and a failed fence creation is OUT_OF_HOST_MEMORY.
   */
  method BindImageData(info: ImageCreateInfo, data: DisplayImageData, fbFormat: Format,
                       display: Option<DrmDisplay>, primeOk: seq<bool>, addFbError: int, newFbId: nat,
                       outcomes: seq<ImportOutcome>, resizeOk: bool, bindResult: VkResult,
                       device: nat, fenceResult: VkResult, newFence: nat)
    returns (r: VkResult)
    requires data.externalMem.Valid()
    requires |primeOk| == WsiExternalMemory.MAX_PLANES && |outcomes| >= WsiExternalMemory.MAX_PLANES
    modifies data, data.externalMem, data.presentFence
    ensures data.externalMem.Valid()
    ensures var em := data.externalMem;
      var framed := display.Some? && FirstFailedPlane(primeOk, em.numPlanes).None? &&
                    DrmFormatPair(fbFormat.fourcc, fbFormat.modifier) in display.value.formats &&
                    addFbError == 0;
      var bound := WsiExternalMemory.ImportBindOutcome(em.IsDisjoint(), |WsiExternalMemory.DistinctPlaneFds(em.bufferFds, em.numPlanes)|,
                                                       outcomes, resizeOk, bindResult);
      (r == Success <==> framed && bound == Success && fenceResult == Success) &&
      (!framed ==> r == ErrorInitializationFailed) &&
      (framed && bound != Success ==> r == bound) &&
      (framed && bound == Success && fenceResult != Success ==> r == ErrorOutOfHostMemory) &&
      data.fbId == (if framed then newFbId else old(data.fbId)) &&
      data.presentFence.State() ==
        (if r == Success then FenceState(newFence, device, false, false) else old(data.presentFence.State()))
  {
    var request;
    r, request := CreateFramebuffer(info, data, fbFormat, display, primeOk, addFbError, newFbId);
    if r != Success {
      return;
    }
    r := data.externalMem.ImportMemoryAndBind(outcomes, resizeOk, bindResult);
    if r != Success {
      return;
    }
    var fence := FenceSync.Create(device, fenceResult, newFence);
    if fence.None? {
      return ErrorOutOfHostMemory;
    }
    data.presentFence.MoveAssign(fence.value);
  }

  /** A swapchain image: its status, its VkImage and the backend's per-image data. */
  datatype SwapchainImage = SwapchainImage(status: ImageStatus, handle: nat, data: DisplayImageData?)

  /** The statuses of the images, in order. */
  function Statuses(images: seq<SwapchainImage>): (st: seq<ImageStatus>)
    ensures |st| == |images| && forall i :: 0 <= i < |images| ==> st[i] == images[i].status
  {
    if images == [] then [] else Statuses(images[..|images| - 1]) + [images[|images| - 1].status]
  }

  /** The index of the first PRESENTED image, or the number of images when there is none. */
  function FirstPresented(st: seq<ImageStatus>): (r: nat)
    ensures r <= |st|
    ensures r < |st| ==> st[r] == Presented
    ensures forall j :: 0 <= j < r ==> st[j] != Presented
  {
    if st == [] then 0
    else if st[0] == Presented then 0
    else 1 + FirstPresented(st[1..])
  }

  /**
   * The status change of a present: the image becomes PRESENTED and, unless
   * this is the first present, the image that was PRESENTED is unpresented
   * (made FREE).
   */
  function PresentTransition(st: seq<ImageStatus>, index: nat, firstPresent: bool): (r: seq<ImageStatus>)
    requires index < |st|
    ensures |r| == |st|
  {
    var previous := if firstPresent then |st| else FirstPresented(st);
    var shown := st[index := Presented];
    if previous < |st| then shown[previous := Free] else shown
  }

  /**
   * With exactly one image on screen and another one presented, afterwards
   * exactly the new image is on screen and the old one is free; nothing
   * else changes.
   */
  lemma PresentKeepsOnePresented(st: seq<ImageStatus>, index: nat, old_: nat)
    requires index < |st| && old_ < |st| && index != old_
    requires forall k :: 0 <= k < |st| ==> (st[k] == Presented <==> k == old_)
    ensures var r := PresentTransition(st, index, false);
      r[index] == Presented && r[old_] == Free &&
      (forall k :: 0 <= k < |st| ==> (r[k] == Presented <==> k == index)) &&
      (forall k :: 0 <= k < |st| && k != index && k != old_ ==> r[k] == st[k])
  {
    FirstPresentedIs(st, old_);
  }

  /** FirstPresented finds the one image that is on screen. */
  lemma {:induction false} FirstPresentedIs(st: seq<ImageStatus>, i: nat)
    requires i < |st| && st[i] == Presented
    requires forall j :: 0 <= j < i ==> st[j] != Presented
    ensures FirstPresented(st) == i
  {
    if i > 0 {
      FirstPresentedIs(st[1..], i - 1);
    }
  }

  /** The first present puts exactly the presented image on screen when none was. */
  lemma FirstPresentShowsOneImage(st: seq<ImageStatus>, index: nat)
    requires index < |st|
    requires forall k :: 0 <= k < |st| ==> st[k] != Presented
    ensures var r := PresentTransition(st, index, true);
      forall k :: 0 <= k < |st| ==> (r[k] == Presented <==> k == index) && (k != index ==> r[k] == st[k])
  {
  }

  /** With no image on screen, FirstPresented is past the end. */
  lemma {:induction false} FirstPresentedIsNone(st: seq<ImageStatus>)
    requires forall j :: 0 <= j < |st| ==> st[j] != Presented
    ensures FirstPresented(st) == |st|
  {
    if st != [] {
      FirstPresentedIsNone(st[1..]);
    }
  }

  /** What select() and drmHandleEvent report on one turn of the page-flip wait loop. */
  datatype SelectOutcome =
    | FlipEvent(flipComplete: bool)   // the fd was readable; the page-flip handler ran iff flipComplete
    | SelectTimeout                    // select() returned 0
    | SelectRetry                      // select() failed with EINTR or EAGAIN
    | SelectFailed                     // select() failed with any other errno

  /** The wait loop stops on a fatal error or once the flip has completed. */
  predicate EndsWait(o: SelectOutcome)
  {
    o.SelectFailed? || (o.FlipEvent? && o.flipComplete)
  }

  /** The turn on which the wait loop stops. */
  function WaitTurns(outcomes: seq<SelectOutcome>): (r: nat)
    requires exists k :: 0 <= k < |outcomes| && EndsWait(outcomes[k])
    ensures r < |outcomes| && EndsWait(outcomes[r]) && forall k :: 0 <= k < r ==> !EndsWait(outcomes[k])
  {
    if EndsWait(outcomes[0]) then 0
    else
      assert exists k :: 0 <= k < |outcomes[1..]| && EndsWait(outcomes[1..][k]) by {
        var k :| 0 <= k < |outcomes| && EndsWait(outcomes[k]);
        assert outcomes[1..][k - 1] == outcomes[k];
      }
      1 + WaitTurns(outcomes[1..])
  }

  /**
   * What select() reports when the fd set is filled once before the wait
   * loop, as present_image does: select() empties the set when it times
   * out, so from then on the drm fd is never watched again and a kernel
   * that has the flip event ready is seen as one more timeout.
   */
  function ObservedWithoutRearm(kernel: seq<SelectOutcome>, armed: bool): (obs: seq<SelectOutcome>)
    ensures |obs| == |kernel|
    ensures armed ==> forall k :: 0 <= k < |kernel| && (forall j :: 0 <= j < k ==> !kernel[j].SelectTimeout?) ==>
      obs[k] == kernel[k]
  {
    if kernel == [] then []
    else
      var seen := if !armed && kernel[0].FlipEvent? then SelectTimeout else kernel[0];
      [seen] + ObservedWithoutRearm(kernel[1..], armed && !seen.SelectTimeout?)
  }

  /** Once the set is empty, select() never reports the drm fd readable. */
  lemma {:induction false} DisarmedSeesNoFlip(kernel: seq<SelectOutcome>)
    ensures forall k :: 0 <= k < |kernel| ==> !ObservedWithoutRearm(kernel, false)[k].FlipEvent?
  {
    if kernel != [] {
      DisarmedSeesNoFlip(kernel[1..]);
      var obs := ObservedWithoutRearm(kernel, false);
      assert obs[1..] == ObservedWithoutRearm(kernel[1..], false);
      forall k | 0 <= k < |kernel|
        ensures !obs[k].FlipEvent?
      {
        if k > 0 {
          assert obs[k] == obs[1..][k - 1];
        }
      }
    }
  }

  /**
   * After one timeout, the wait loop as written can only end through a
   * fatal select() error: however soon the kernel delivers the page flip,
   * the loop never sees it.
   */
  lemma StalledWaitEndsOnlyOnError(kernel: seq<SelectOutcome>)
    requires |kernel| > 0 && kernel[0] == SelectTimeout
    ensures forall k :: 0 <= k < |kernel| && EndsWait(ObservedWithoutRearm(kernel, true)[k]) ==>
      ObservedWithoutRearm(kernel, true)[k] == SelectFailed
  {
    var obs := ObservedWithoutRearm(kernel, true);
    DisarmedSeesNoFlip(kernel[1..]);
    assert obs[1..] == ObservedWithoutRearm(kernel[1..], false);
    forall k | 0 <= k < |kernel| && EndsWait(obs[k])
      ensures obs[k] == SelectFailed
    {
      if k > 0 {
        assert obs[k] == obs[1..][k - 1];
      }
    }
  }

  /** A flip that completes right after one timeout: watched again, it ends the wait on turn 1. */
  lemma StalledWaitExample()
    ensures var s := [SelectTimeout, FlipEvent(true)]; EndsWait(s[1]) && WaitTurns(s) == 1
    ensures forall k :: 0 <= k < 2 ==> !EndsWait(ObservedWithoutRearm([SelectTimeout, FlipEvent(true)], true)[k])
  {
    var kernel := [SelectTimeout, FlipEvent(true)];
    assert EndsWait(kernel[1]);
    assert !EndsWait(kernel[0]);
    assert kernel[1..] == [FlipEvent(true)];
    assert ObservedWithoutRearm(kernel[1..], false) == [SelectTimeout];
  }

  /** Two image lists that differ in statuses at most. */
  predicate SameImages(a: seq<SwapchainImage>, b: seq<SwapchainImage>)
  {
    |a| == |b| && forall i :: 0 <= i < |a| ==> a[i].handle == b[i].handle && a[i].data == b[i].data
  }

  /** Writing one image's status writes that entry of Statuses and nothing else. */
  lemma StatusUpdate(images: seq<SwapchainImage>, i: nat, x: ImageStatus)
    requires i < |images|
    ensures Statuses(images[i := images[i].(status := x)]) == Statuses(images)[i := x]
    ensures SameImages(images[i := images[i].(status := x)], images)
  {
    var after := images[i := images[i].(status := x)];
    assert forall k :: 0 <= k < |after| ==> Statuses(after)[k] == Statuses(images)[i := x][k];
  }

  /**
   * The status writes of present_image: the image becomes PRESENTED, then
   * the previously presented one (when presentedIndex names one) FREE.
   */
  function ShowImage(images: seq<SwapchainImage>, index: nat, presentedIndex: nat): (r: seq<SwapchainImage>)
    requires index < |images|
    ensures SameImages(r, images)
    ensures Statuses(r) == if presentedIndex < |images| then Statuses(images)[index := Presented][presentedIndex := Free]
                           else Statuses(images)[index := Presented]
  {
    StatusUpdate(images, index, Presented);
    var shown := images[index := images[index].(status := Presented)];
    if presentedIndex < |images| then
      StatusUpdate(shown, presentedIndex, Free);
      shown[presentedIndex := shown[presentedIndex].(status := Free)]
    else shown
  }

  /** The last modifier property whose modifier is the given one supplies the memory count. */
  function LastPlaneCount(props: seq<DrmModifierProps>, modifier: nat, dflt: nat): (r: nat)
    ensures r == dflt || exists i :: 0 <= i < |props| && props[i].modifier == modifier && props[i].planeCount == r
    ensures (exists i :: 0 <= i < |props| && props[i].modifier == modifier) ==>
      exists i :: 0 <= i < |props| && props[i].modifier == modifier && props[i].planeCount == r &&
        forall j :: i < j < |props| ==> props[j].modifier != modifier
  {
    if props == [] then dflt
    else if props[|props| - 1].modifier == modifier then props[|props| - 1].planeCount
    else
      var r := LastPlaneCount(props[..|props| - 1], modifier, dflt);
      assert forall i :: 0 <= i < |props| - 1 ==> props[..|props| - 1][i] == props[i];
      r
  }

  /** The driver and display inputs of format negotiation. */
  datatype FormatQueries = FormatQueries(mainTable: seq<DrmUtils.FormatPair>, srgbTable: seq<DrmUtils.FormatPair>,
                                         propsResult: VkResult, props: seq<DrmModifierProps>,
                                         queries: seq<ImageFormatQuery>, room: nat)

  /** The effect of destroy_image on one image, given whether the display is available. */
  function AfterDestroy(img: SwapchainImage, displayPresent: bool): (r: SwapchainImage)
    ensures r.status == Invalid
    ensures r.handle == if img.status != Invalid then NULL_IMAGE else img.handle
    ensures r.data == if displayPresent then null else img.data
  {
    SwapchainImage(Invalid, if img.status != Invalid then NULL_IMAGE else img.handle,
                   if displayPresent then null else img.data)
  }

  /**
   * A second destroy_image changes nothing: the image is already INVALID,
   * so no VkImage is destroyed again, and when the display was available
   * the data is already freed, so no framebuffer, memory or fence is
   * released again.
   */
  lemma DestroyTwiceReleasesNothing(img: SwapchainImage, displayPresent: bool)
    ensures var once := AfterDestroy(img, displayPresent);
      AfterDestroy(once, displayPresent) == once && once.status == Invalid &&
      (displayPresent ==> once.data == null)
  {
  }

  /** The outcome of configuring the first image: an error, or the selected format and its memory count. */
  datatype FirstImageOutcome = Err(error: VkResult) | Ok(format: Format, memories: nat)

  /**
   * What create_swapchain_image decides for the first image: negotiation
   * errors pass through, no importable format is INITIALIZATION_FAILED,
   * otherwise the allocator selects (without allocating) among the
   * importable formats and the last property row carrying the selected
   * modifier gives the number of memory planes.
   */
  function FirstImageConfig(info: ImageCreateInfo, fq: FormatQueries, display: Option<DrmDisplay>,
                            compression: Option<bv32>, alloc: Allocator): (c: FirstImageOutcome)
    requires |fq.props| == |fq.queries|
    ensures fq.propsResult != Success ==> c == Err(fq.propsResult)
    ensures fq.propsResult == Success && display.None? ==> c == Err(ErrorOutOfHostMemory)
    ensures c.Ok? ==>
      fq.propsResult == Success && display.Some? &&
      alloc(AllocationRequest(info, ImportableFormats(info, display.value,
              DrmUtils.VkToDrmFormat(fq.mainTable, fq.srgbTable, info.format), fq.props, fq.queries, |fq.props|),
              true, compression), PresetResult()).0 == ErrorNone
    ensures (fq.propsResult == Success && display.Some? &&
             ImportableFormats(info, display.value, DrmUtils.VkToDrmFormat(fq.mainTable, fq.srgbTable, info.format),
                               fq.props, fq.queries, |fq.props|) == []) ==>
      c == Err(if |ExportableModifiers(info, display.value,
                     DrmUtils.VkToDrmFormat(fq.mainTable, fq.srgbTable, info.format), fq.props, fq.queries,
                     |fq.props|)| <= fq.room
               then ErrorInitializationFailed else ErrorOutOfHostMemory)
  {
    if fq.propsResult != Success then Err(fq.propsResult)
    else if display.None? then Err(ErrorOutOfHostMemory)
    else
      var fourcc := DrmUtils.VkToDrmFormat(fq.mainTable, fq.srgbTable, info.format);
      var imp := ImportableFormats(info, display.value, fourcc, fq.props, fq.queries, |fq.props|);
      var exp := ExportableModifiers(info, display.value, fourcc, fq.props, fq.queries, |fq.props|);
      if |imp| > fq.room || |exp| > fq.room then Err(ErrorOutOfHostMemory)
      else if imp == [] then Err(ErrorInitializationFailed)
      else
        var out := alloc(AllocationRequest(info, imp, true, compression), PresetResult());
        if out.0 != ErrorNone then Err(AllocationResult(out.0))
        else Ok(out.1.format, LastPlaneCount(fq.props, out.1.format.modifier, 0))
  }

  /**
   * The loop of create_swapchain_image over the modifier properties: each
   * row carrying the modifier sets the number of memories, so the last one wins.
   */
  method RecordMemoryCount(em: ExternalMemory, props: seq<DrmModifierProps>, modifier: nat)
    requires em.Valid()
    requires forall i :: 0 <= i < |props| ==> props[i].planeCount <= WsiExternalMemory.MAX_PLANES
    modifies em
    ensures em.Valid() && em.numMemories == LastPlaneCount(props, modifier, old(em.numMemories))
    ensures em.bufferFds == old(em.bufferFds) && em.strides == old(em.strides) && em.offsets == old(em.offsets)
    ensures em.memories == old(em.memories) && em.numPlanes == old(em.numPlanes) && em.handleType == old(em.handleType)
    ensures em.memoryType == old(em.memoryType) && em.hostMemory == old(em.hostMemory)
  {
    var i := 0;
    while i < |props|
      invariant i <= |props| && em.Valid()
      invariant em.numMemories == LastPlaneCount(props[..i], modifier, old(em.numMemories))
      invariant em.bufferFds == old(em.bufferFds) && em.strides == old(em.strides) && em.offsets == old(em.offsets)
      invariant em.memories == old(em.memories) && em.numPlanes == old(em.numPlanes)
      invariant em.handleType == old(em.handleType)
      invariant em.memoryType == old(em.memoryType) && em.hostMemory == old(em.hostMemory)
    {
      assert props[..i + 1][..i] == props[..i];
      if props[i].modifier == modifier {
        em.SetNumMemories(props[i].planeCount);
      }
      i := i + 1;
    }
    assert props[..i] == props;
  }

  /**
   * The first-image branch of create_swapchain_image on a fresh image:
   * negotiate, select a format without allocating, record its memory
   * count and build the image create info.
   */
  method ConfigureFirstImage(info: ImageCreateInfo, data: DisplayImageData, fq: FormatQueries,
                             display: Option<DrmDisplay>, compression: Option<bv32>, alloc: Allocator,
                             resizeOk: bool, layouts0: seq<PlaneLayout>)
    returns (r: VkResult, filled: ImageCreateInfo, layouts: seq<PlaneLayout>, fmt: Format)
    requires data.externalMem.Valid() && data.externalMem.numMemories == 0 && KeepsShape(alloc)
    requires |fq.props| == |fq.queries|
    requires forall i :: 0 <= i < |fq.props| ==> fq.props[i].planeCount <= WsiExternalMemory.MAX_PLANES
    modifies data.externalMem
    ensures data.externalMem.Valid()
    ensures var c := FirstImageConfig(info, fq, display, compression, alloc);
      (c.Err? ==> r == c.error) &&
      (c.Ok? ==> r == (if resizeOk then Success else ErrorOutOfHostMemory)) &&
      (r == Success ==>
        c.Ok? && fmt == c.format && data.externalMem.numMemories == c.memories &&
        filled.format == info.format && filled.drmModifierTiling &&
        filled.explicitModifier == Some(DrmModInfo(c.format.modifier, c.memories, layouts)) &&
        filled.externalHandle == Some(DmaBufHandle))
  {
    filled, layouts, fmt := info, layouts0, Format(0, 0, false);
    var importable, exportable;
    r, importable, exportable := GetSurfaceCompatibleFormats(info, fq.mainTable, fq.srgbTable, fq.propsResult,
                                                             fq.props, fq.queries, display, fq.room, [], []);
    if r != Success {
      return;
    }
    var fourcc := DrmUtils.VkToDrmFormat(fq.mainTable, fq.srgbTable, info.format);
    assert [] + ImportableFormats(info, display.value, fourcc, fq.props, fq.queries, |fq.props|) ==
           ImportableFormats(info, display.value, fourcc, fq.props, fq.queries, |fq.props|);
    assert [] + ExportableModifiers(info, display.value, fourcc, fq.props, fq.queries, |fq.props|) ==
           ExportableModifiers(info, display.value, fourcc, fq.props, fq.queries, |fq.props|);
    if importable == [] {
      return ErrorInitializationFailed, filled, layouts, fmt;
    }
    r, fmt := AllocateWsialloc(info, data.externalMem, importable, fmt, true, compression, alloc, PresetResult());
    if r != Success {
      return;
    }
    RecordMemoryCount(data.externalMem, fq.props, fmt.modifier);
    r, filled, layouts := FillImageCreateInfo(info, data, fmt.modifier, resizeOk, layouts0);
  }

  /**
   * The page-flip wait loop of present_image, with the fd set filled on
   * every turn: it runs until the flip has completed or select() fails
   * fatally, and reports whether it was the latter.
   */
  method WaitForFlip(kernel: seq<SelectOutcome>) returns (fatal: bool)
    requires exists k :: 0 <= k < |kernel| && EndsWait(kernel[k])
    ensures fatal <==> kernel[WaitTurns(kernel)] == SelectFailed
  {
    var turn := 0;
    while !EndsWait(kernel[turn])
      invariant turn <= WaitTurns(kernel)
      decreases WaitTurns(kernel) - turn
    {
      turn := turn + 1;
    }
    fatal := kernel[turn].SelectFailed?;
  }

  /** The search of present_image for the image on screen; the number of images when none is. */
  method FindPresented(images: seq<SwapchainImage>) returns (presentedIndex: nat)
    ensures presentedIndex == FirstPresented(Statuses(images))
  {
    var st := Statuses(images);
    presentedIndex := |images|;
    var i := 0;
    while i < |images|
      invariant i <= |images| && forall j :: 0 <= j < i ==> st[j] != Presented
    {
      if images[i].status == Presented {
        presentedIndex := i;
        FirstPresentedIs(st, i);
        return;
      }
      i := i + 1;
    }
    FirstPresentedIsNone(st);
  }

  /** The display swapchain's own state and the base-class state it uses. */
  class DisplaySwapchain {
    var images: seq<SwapchainImage>
    var firstPresent: bool
    var errorState: VkResult
    var hasAllocator: bool
    /** The cached image creation info (m_image_create_info). */
    var imageCreateInfo: ImageCreateInfo
    /** The cached creation parameters: the allocated format and the plane layouts. */
    var allocatedFormat: Format
    var imageLayout: seq<PlaneLayout>
    /** The last present id handed to the present-id extension. */
    var lastPresentId: nat

    /**
     * init_platform: create the wsialloc allocator (newResult is what
     * wsialloc_new returns); failure is INITIALIZATION_FAILED.
     */
    method InitPlatform(newResult: WsiallocError) returns (r: VkResult)
      modifies this
      ensures r == (if newResult == ErrorNone then Success else ErrorInitializationFailed)
      ensures hasAllocator <==> newResult == ErrorNone
      ensures images == old(images) && imageCreateInfo == old(imageCreateInfo) && allocatedFormat == old(allocatedFormat)
    {
      if newResult != ErrorNone {
        hasAllocator := false;
        return ErrorInitializationFailed;
      }
      hasAllocator := true;
      r := Success;
    }

    /**
     * allocate_image: allocate the cached format again (pushOk: whether the
     * one-entry candidate vector could be built) and cache what the
     * allocator returns as the allocated format.
     */
    method AllocateImage(data: DisplayImageData, pushOk: bool, compression: Option<bv32>, alloc: Allocator)
      returns (r: VkResult)
      requires data.externalMem.Valid() && KeepsShape(alloc)
      modifies this, data.externalMem
      ensures data.externalMem.Valid()
      ensures images == old(images) && imageCreateInfo == old(imageCreateInfo) && imageLayout == old(imageLayout)
      ensures firstPresent == old(firstPresent) && errorState == old(errorState) && lastPresentId == old(lastPresentId)
      ensures !pushOk ==> r == ErrorOutOfHostMemory && allocatedFormat == old(allocatedFormat) && unchanged(data.externalMem)
      ensures pushOk ==>
        var out := alloc(AllocationRequest(old(imageCreateInfo), [old(allocatedFormat)], false, compression), PresetResult());
        r == AllocationResult(out.0) &&
        allocatedFormat == (if r == Success then out.1.format else old(allocatedFormat)) &&
        (r == Success ==> data.externalMem.numMemories == NumMemoryPlanes(out.1.bufferFds, data.externalMem.numPlanes)) &&
        (r == Success && ReportsDisjointness(out.1, data.externalMem.numPlanes) ==>
           (data.externalMem.IsDisjoint() <==> out.1.isDisjoint || data.externalMem.numMemories == 0))
    {
      if !pushOk {
        return ErrorOutOfHostMemory;
      }
      var fmt;
      r, fmt := AllocateWsialloc(imageCreateInfo, data.externalMem, [allocatedFormat], allocatedFormat, false, compression, alloc, PresetResult());
      allocatedFormat := fmt;
    }

    /**
     * allocate_and_bind_swapchain_image: mark the image FREE, allocate its
     * memory, create its framebuffer, import and bind the memory, then
     * create its present fence; the first failing step's result is
     * returned, and a failed fence creation is OUT_OF_HOST_MEMORY.
     */
    method AllocateAndBindSwapchainImage(index: nat, info: ImageCreateInfo, pushOk: bool,
                                         compression: Option<bv32>, alloc: Allocator,
                                         display: Option<DrmDisplay>, primeOk: seq<bool>, addFbError: int,
                                         newFbId: nat, outcomes: seq<ImportOutcome>, resizeOk: bool,
                                         bindResult: VkResult, device: nat, fenceResult: VkResult, newFence: nat)
      returns (r: VkResult)
      requires index < |images| && images[index].data != null
      requires images[index].data.externalMem.Valid() && KeepsShape(alloc)
      requires |primeOk| == WsiExternalMemory.MAX_PLANES && |outcomes| >= WsiExternalMemory.MAX_PLANES
      modifies this, images[index].data, images[index].data.externalMem, images[index].data.presentFence
      ensures images == old(images)[index := old(images[index]).(status := Free)]
      ensures imageCreateInfo == old(imageCreateInfo) && imageLayout == old(imageLayout)
      ensures firstPresent == old(firstPresent) && errorState == old(errorState) && lastPresentId == old(lastPresentId)
      ensures images[index].data.externalMem.Valid()
      ensures var data := images[index].data;
        var em := data.externalMem;
        var out := alloc(AllocationRequest(old(imageCreateInfo), [old(allocatedFormat)], false, compression),
                         PresetResult());
        var allocation := if pushOk then AllocationResult(out.0) else ErrorOutOfHostMemory;
        var framed := display.Some? && FirstFailedPlane(primeOk, em.numPlanes).None? &&
                      DrmFormatPair(out.1.format.fourcc, out.1.format.modifier) in display.value.formats &&
                      addFbError == 0;
        var bound := WsiExternalMemory.ImportBindOutcome(em.IsDisjoint(), |WsiExternalMemory.DistinctPlaneFds(em.bufferFds, em.numPlanes)|,
                                                         outcomes, resizeOk, bindResult);
        (r == Success <==> allocation == Success && framed && bound == Success && fenceResult == Success) &&
        (allocation != Success ==> r == allocation) &&
        (allocation == Success && !framed ==> r == ErrorInitializationFailed) &&
        (allocation == Success && framed && bound != Success ==> r == bound) &&
        (allocation == Success && framed && bound == Success && fenceResult != Success ==> r == ErrorOutOfHostMemory) &&
        data.fbId == (if allocation == Success && framed then newFbId else old(data.fbId)) &&
        data.presentFence.State() ==
          (if r == Success then FenceState(newFence, device, false, false) else old(data.presentFence.State()))
    {
      images := images[index := images[index].(status := Free)];
      var data := images[index].data;
      r := AllocateImage(data, pushOk, compression, alloc);
      if r != Success {
        return;
      }
      r := BindImageData(info, data, allocatedFormat, display, primeOk, addFbError, newFbId,
                         outcomes, resizeOk, bindResult, device, fenceResult, newFence);
    }

    /**
     * create_swapchain_image: give the image fresh per-image data
     * (dataAllocOk says whether that allocation succeeded) and, on the
     * first image only (the cached format is still UNDEFINED), negotiate a
     * format, select it without allocating, record the modifier's memory
     * plane count, build the image create info and cache it. The image is
     * then created from the cached info ((createResult, newImage) is what
     * vkCreateImage returns).
     */
    method CreateSwapchainImage(index: nat, info: ImageCreateInfo, dataAllocOk: bool, fq: FormatQueries,
                                display: Option<DrmDisplay>, compression: Option<bv32>, alloc: Allocator,
                                resizeOk: bool, createResult: VkResult, newImage: nat)
      returns (r: VkResult)
      requires index < |images| && KeepsShape(alloc) && |fq.props| == |fq.queries|
      requires forall i :: 0 <= i < |fq.props| ==> fq.props[i].planeCount <= WsiExternalMemory.MAX_PLANES
      modifies this
      ensures !dataAllocOk ==>
        r == ErrorOutOfHostMemory && images == old(images) &&
        imageCreateInfo == old(imageCreateInfo) && allocatedFormat == old(allocatedFormat)
      ensures dataAllocOk ==>
        |images| == |old(images)| && images[index].data != null && fresh(images[index].data) &&
        images[index].status == old(images[index].status) &&
        images[index].handle == (if r == Success then newImage else old(images[index].handle)) &&
        forall i :: 0 <= i < |images| && i != index ==> images[i] == old(images)[i]
      ensures old(imageCreateInfo).format != VK_FORMAT_UNDEFINED ==>
        r == (if dataAllocOk then createResult else ErrorOutOfHostMemory) &&
        imageCreateInfo == old(imageCreateInfo) && allocatedFormat == old(allocatedFormat)
      ensures old(imageCreateInfo).format == VK_FORMAT_UNDEFINED && dataAllocOk ==>
        var c := FirstImageConfig(info, fq, display, compression, alloc);
        (c.Err? ==> r == c.error) &&
        (c.Ok? ==> r == (if resizeOk then createResult else ErrorOutOfHostMemory)) &&
        (r == Success ==>
          c.Ok? && allocatedFormat == c.format &&
          images[index].data.externalMem.numMemories == c.memories &&
          imageCreateInfo.format == info.format && imageCreateInfo.drmModifierTiling &&
          imageCreateInfo.explicitModifier.Some? &&
          imageCreateInfo.explicitModifier.value.modifier == c.format.modifier &&
          imageCreateInfo.explicitModifier.value.planeCount == c.memories &&
          imageCreateInfo.externalHandle == Some(DmaBufHandle))
    {
      if !dataAllocOk {
        return ErrorOutOfHostMemory;
      }
      var data := new DisplayImageData();
      images := images[index := images[index].(data := data)];
      if imageCreateInfo.format == VK_FORMAT_UNDEFINED {
        var filled, layouts, fmt;
        r, filled, layouts, fmt := ConfigureFirstImage(info, data, fq, display, compression, alloc, resizeOk, imageLayout);
        imageLayout := layouts;
        if r != Success {
          return;
        }
        imageCreateInfo := filled;
        allocatedFormat := fmt;
      }
      r := createResult;
      if r == Success {
        images := images[index := images[index].(handle := newImage)];
      }
    }

    /**
     * present_image: show the image (mode set on the first present, a page
     * flip followed by a wait for the flip event otherwise), mark it
     * PRESENTED, record its present id and release the image it replaced.
     * displayOk says whether the DRM display is available; drmOk whether
     * drmModeSetCrtc (first present) or drmModePageFlip succeeded; kernel[t]
     * is what select() and the event handler report on turn t of the wait.
     * The fd set is filled on every turn (see Findings).
     */
    method PresentImage(index: nat, presentId: nat, presentIdEnabled: bool, displayOk: bool, drmOk: bool,
                        kernel: seq<SelectOutcome>)
      returns (shownFb: Option<nat>)
      requires index < |images| && images[index].data != null
      requires displayOk && drmOk && !firstPresent ==> exists k :: 0 <= k < |kernel| && EndsWait(kernel[k])
      modifies this
      ensures firstPresent == old(firstPresent) && imageCreateInfo == old(imageCreateInfo)
      ensures allocatedFormat == old(allocatedFormat) && imageLayout == old(imageLayout)
      ensures shownFb == (if displayOk then Some(old(images[index].data.fbId)) else None)
      ensures !(displayOk && drmOk) ==>
        errorState == ErrorSurfaceLost && images == old(images) && lastPresentId == old(lastPresentId)
      ensures displayOk && drmOk ==>
        SameImages(images, old(images)) &&
        Statuses(images) == PresentTransition(Statuses(old(images)), index, firstPresent) &&
        lastPresentId == (if presentIdEnabled then presentId else old(lastPresentId)) &&
        errorState == (if !firstPresent && kernel[WaitTurns(kernel)].SelectFailed? then ErrorSurfaceLost
                       else old(errorState))
    {
      shownFb := None;
      if !displayOk {
        errorState := ErrorSurfaceLost;
        return;
      }
      shownFb := Some(images[index].data.fbId);
      if !drmOk {
        errorState := ErrorSurfaceLost;
        return;
      }
      if !firstPresent {
        var fatal := WaitForFlip(kernel);
        if fatal {
          errorState := ErrorSurfaceLost;
        }
      }
      var presentedIndex := |images|;
      if !firstPresent {
        presentedIndex := FindPresented(images);
      }
      images := ShowImage(images, index, presentedIndex);
      if presentIdEnabled {
        lastPresentId := presentId;
      }
    }

    /**
     * destroy_image: destroy the VkImage of a valid image and mark it
     * INVALID; then, when the display is available, remove the image's
     * framebuffer (if it has one) and free its per-image data.
     * Returns the VkImage handed to vkDestroyImage and the framebuffer
     * handed to drmModeRmFB, if any, and what the freed data's destructors
     * release: its external memory and its present fence.
     */
    method DestroyImage(index: nat, displayOk: bool)
      returns (destroyedImage: Option<nat>, removedFb: Option<nat>, released: seq<CleanupAction>, fenceCalls: seq<FenceCall>)
      requires index < |images|
      requires images[index].data != null ==> images[index].data.externalMem.Valid()
      modifies this
      ensures images == old(images)[index := AfterDestroy(old(images[index]), displayOk)]
      ensures destroyedImage ==
        (if old(images[index]).status != Invalid && old(images[index]).handle != NULL_IMAGE
         then Some(old(images[index]).handle) else None)
      ensures removedFb ==
        (if old(images[index]).data != null && displayOk && old(images[index].data.fbId) != NO_FRAMEBUFFER
         then Some(old(images[index].data.fbId)) else None)
      ensures var d := old(images[index].data);
        (d != null && displayOk ==>
           released == d.externalMem.DestructionActions() && fenceCalls == DestructionCalls(d.presentFence.State())) &&
        (d == null || !displayOk ==> released == [] && fenceCalls == [])
      ensures imageCreateInfo == old(imageCreateInfo) && errorState == old(errorState)
    {
      destroyedImage, removedFb, released, fenceCalls := None, None, [], [];
      var img := images[index];
      if img.status != Invalid {
        if img.handle != NULL_IMAGE {
          destroyedImage := Some(img.handle);
          img := img.(handle := NULL_IMAGE);
        }
        img := img.(status := Invalid);
      }
      images := images[index := img];
      if img.data != null {
        if !displayOk {
          return;
        }
        if img.data.fbId != NO_FRAMEBUFFER {
          removedFb := Some(img.data.fbId);
        }
        released := img.data.externalMem.Destroy();
        fenceCalls := img.data.presentFence.Destroy();
        images := images[index := img.(data := null)];
      }
    }

    /** image_set_present_payload: the image's present fence takes the payload. */
    method SetPresentPayload(index: nat, resetResult: VkResult, submitResult: VkResult) returns (res: VkResult)
      requires index < |images| && images[index].data != null
      modifies images[index].data.presentFence
      ensures var f := images[index].data.presentFence;
        (f.State(), res) == AfterSetPayload(old(f.State()), resetResult, submitResult)
    {
      res := images[index].data.presentFence.SetPayload(resetResult, submitResult);
    }

    /** image_wait_present: wait on the image's present fence. */
    method WaitPresent(index: nat, waitResult: VkResult) returns (res: VkResult)
      requires index < |images| && images[index].data != null
      modifies images[index].data.presentFence
      ensures var f := images[index].data.presentFence;
        (f.State(), res) == AfterWait(old(f.State()), waitResult)
    {
      var waited;
      res, waited := images[index].data.presentFence.WaitPayload(waitResult);
    }
  }
}
