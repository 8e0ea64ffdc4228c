// Per-image memory bookkeeping shared by the DMA-BUF backends
// (wsi/external_memory.cpp, wsi/external_memory.hpp): per-plane fds,
// strides and offsets from the allocator, import of one Vulkan memory
// object per distinct fd, binding, and the host-visible alternative. Every
// Vulkan dispatch call, lseek and close is represented by its result.
module WsiExternalMemory {
  import opened VkTypes

  /** util::MAX_PLANES. */
  const MAX_PLANES: nat := 4
  /** VK_NULL_HANDLE for memory objects and pointers. */
  const NULL_HANDLE: nat := 0

  /** How the image's memory is obtained (wsi_memory_type). */
  datatype MemoryType = Uninitialised | ExternalDmaBuf | HostVisible

  /** VkExternalMemoryHandleTypeFlagBits: the layer only ever sets DMA_BUF. */
  datatype HandleType = DmaBufHandle | OtherHandle(bits: nat)

  /** The plane aspects used for disjoint binding (util::PLANE_FLAG_BITS). */
  datatype PlaneAspect = MemoryPlane0 | MemoryPlane1 | MemoryPlane2 | MemoryPlane3

  function PlaneAspectOf(plane: nat): PlaneAspect
    requires plane < MAX_PLANES
  {
    [MemoryPlane0, MemoryPlane1, MemoryPlane2, MemoryPlane3][plane]
  }

  /** Whether plane i holds the first occurrence of its fd. */
  predicate FirstOccurrence(fds: seq<int>, i: nat)
    requires i < |fds|
  {
    forall j :: 0 <= j < i ==> fds[j] != fds[i]
  }

  /** The fds of planes 0..n-1 without repeats, in first-occurrence order. */
  function DistinctPlaneFds(fds: seq<int>, n: nat): (r: seq<int>)
    requires n <= |fds|
    ensures |r| <= n
  {
    if n == 0 then []
    else if FirstOccurrence(fds, n - 1) then DistinctPlaneFds(fds, n - 1) + [fds[n - 1]]
    else DistinctPlaneFds(fds, n - 1)
  }

  /** No fd is listed twice, so no fd is imported twice. */
  lemma {:induction false} DistinctPlaneFdsAreDistinct(fds: seq<int>, n: nat)
    requires n <= |fds|
    ensures forall a, b :: 0 <= a < b < |DistinctPlaneFds(fds, n)| ==> DistinctPlaneFds(fds, n)[a] != DistinctPlaneFds(fds, n)[b]
  {
    if n > 0 {
      DistinctPlaneFdsAreDistinct(fds, n - 1);
      var prev := DistinctPlaneFds(fds, n - 1);
      if FirstOccurrence(fds, n - 1) {
        DistinctPlaneFdsCoversPlanes(fds, n - 1);
        forall k | 0 <= k < |prev|
          ensures prev[k] != fds[n - 1]
        {
          assert prev[k] in fds[..n - 1];
        }
      }
    }
  }

  /** Every listed fd is the fd of some plane below n, and every such plane's fd is listed. */
  lemma {:induction false} DistinctPlaneFdsCoversPlanes(fds: seq<int>, n: nat)
    requires n <= |fds|
    ensures forall k :: 0 <= k < |DistinctPlaneFds(fds, n)| ==> DistinctPlaneFds(fds, n)[k] in fds[..n]
    ensures forall i :: 0 <= i < n ==> fds[i] in DistinctPlaneFds(fds, n)
  {
    if n > 0 {
      DistinctPlaneFdsCoversPlanes(fds, n - 1);
      assert fds[..n] == fds[..n - 1] + [fds[n - 1]];
      if !FirstOccurrence(fds, n - 1) {
        var j :| 0 <= j < n - 1 && fds[j] == fds[n - 1];
        assert fds[j] in DistinctPlaneFds(fds, n - 1);
      }
    }
  }

  /** The outcome of one memory import: fd properties query, lseek, vkAllocateMemory. */
  datatype ImportOutcome = ImportOutcome(fdQuery: VkResult, memoryTypeBits: bv32, fdSize: int,
                                         allocResult: VkResult, memory: nat)

  /** The vkAllocateMemory call an import makes. */
  datatype ImportRequest = ImportRequest(fd: int, size: nat, memoryTypeIndex: nat)

  /** One vkBindImageMemory(2) entry: memory, offset and, for disjoint images, the plane aspect. */
  datatype BindInfo = BindInfo(memory: nat, offset: int, aspect: Option<PlaneAspect>)

  /** A VkSubresourceLayout as filled for each plane. */
  datatype PlaneLayout = PlaneLayout(offset: int, rowPitch: nat)

  /** VkImageDrmFormatModifierExplicitCreateInfoEXT as filled by fill_drm_mod_info. */
  datatype DrmModInfo = DrmModInfo(modifier: nat, planeCount: nat, layouts: seq<PlaneLayout>)

  /**
   * A step of the external memory's cleanup: free a memory object, close
   * an fd, or unmap a host-visible memory.
   */
  datatype CleanupAction = FreeMemory(memory: nat) | CloseFd(fd: int) | UnmapMemory(memory: nat)

  /** A stride converted to the uint32 row pitch (static_cast). */
  function RowPitch(stride: int): (r: nat)
    ensures 0 <= stride <= UINT32_MAX ==> r == stride
  {
    stride % (UINT32_MAX + 1)
  }

  /**
   * What cleanup_external_memory does for planes 0..n-1, in order: free the
   * plane's memory if it has one, else close its fd if that is open and
   * this is its first occurrence.
   */
  function CleanupActions(fds: seq<int>, memories: seq<nat>, n: nat): (actions: seq<CleanupAction>)
    requires n <= |fds| && n <= |memories|
    ensures |actions| <= n
    ensures forall a :: a in actions ==> (a.FreeMemory? && a.memory != NULL_HANDLE) || (a.CloseFd? && a.fd >= 0)
  {
    if n == 0 then []
    else
      var prev := CleanupActions(fds, memories, n - 1);
      if memories[n - 1] != NULL_HANDLE then prev + [FreeMemory(memories[n - 1])]
      else if fds[n - 1] >= 0 && FirstOccurrence(fds, n - 1) then prev + [CloseFd(fds[n - 1])]
      else prev
  }

  /** Every fd cleanup closes is open, belongs to a plane without memory, and is closed once. */
  lemma {:induction false} CleanupClosesEachFdOnce(fds: seq<int>, memories: seq<nat>, n: nat)
    requires n <= |fds| && n <= |memories|
    ensures forall k :: 0 <= k < |CleanupActions(fds, memories, n)| && CleanupActions(fds, memories, n)[k].CloseFd? ==>
      var fd := CleanupActions(fds, memories, n)[k].fd;
      fd >= 0 && exists i :: 0 <= i < n && fds[i] == fd && memories[i] == NULL_HANDLE && FirstOccurrence(fds, i)
    ensures forall a, b ::
      (0 <= a < b < |CleanupActions(fds, memories, n)| &&
       CleanupActions(fds, memories, n)[a].CloseFd? && CleanupActions(fds, memories, n)[b].CloseFd?) ==>
      CleanupActions(fds, memories, n)[a].fd != CleanupActions(fds, memories, n)[b].fd
  {
    if n > 0 {
      CleanupClosesEachFdOnce(fds, memories, n - 1);
      var prev := CleanupActions(fds, memories, n - 1);
      var acts := CleanupActions(fds, memories, n);
      if memories[n - 1] == NULL_HANDLE && fds[n - 1] >= 0 && FirstOccurrence(fds, n - 1) {
        assert acts == prev + [CloseFd(fds[n - 1])];
        forall k | 0 <= k < |prev| && prev[k].CloseFd?
          ensures prev[k].fd != fds[n - 1]
        {
          var i :| 0 <= i < n - 1 && fds[i] == prev[k].fd && memories[i] == NULL_HANDLE && FirstOccurrence(fds, i);
          assert fds[i] != fds[n - 1];
        }
      }
    }
  }

  /**
   * What cleanup_host_visible_memory does: unmap the host memory when it is
   * mapped, then free it when there is one.
   */
  function HostVisibleCleanupActions(mappedPtr: nat, memory: nat): (actions: seq<CleanupAction>)
    ensures UnmapMemory(memory) in actions <==> mappedPtr != NULL_HANDLE
    ensures FreeMemory(memory) in actions <==> memory != NULL_HANDLE
    ensures forall a :: a in actions ==> a == UnmapMemory(memory) || a == FreeMemory(memory)
    ensures mappedPtr != NULL_HANDLE && memory != NULL_HANDLE ==> actions == [UnmapMemory(memory), FreeMemory(memory)]
  {
    (if mappedPtr != NULL_HANDLE then [UnmapMemory(memory)] else []) +
    (if memory != NULL_HANDLE then [FreeMemory(memory)] else [])
  }

  /** Memory type j is allowed by the mask and has every property in props. */
  predicate TypeSuits(memoryTypeBits: bv32, typeFlags: seq<bv32>, props: bv32, j: nat)
    requires j < |typeFlags| <= MAX_MEMORY_TYPES
  {
    HasBit(memoryTypeBits, j) && typeFlags[j] & props == props
  }

  /** The first memory type at index i or later that suits props. */
  function FirstMemoryTypeFrom(memoryTypeBits: bv32, typeFlags: seq<bv32>, props: bv32, i: nat): (r: Option<nat>)
    requires |typeFlags| <= MAX_MEMORY_TYPES
    ensures r.Some? ==> i <= r.value < |typeFlags| && TypeSuits(memoryTypeBits, typeFlags, props, r.value)
    ensures r.Some? ==> forall j :: i <= j < r.value ==> !TypeSuits(memoryTypeBits, typeFlags, props, j)
    ensures r.None? ==> forall j :: i <= j < |typeFlags| ==> !TypeSuits(memoryTypeBits, typeFlags, props, j)
    decreases |typeFlags| - i
  {
    if i >= |typeFlags| then None
    else if TypeSuits(memoryTypeBits, typeFlags, props, i) then Some(i)
    else FirstMemoryTypeFrom(memoryTypeBits, typeFlags, props, i + 1)
  }

  /** The first memory type that suits props. */
  function FirstMemoryTypeWith(memoryTypeBits: bv32, typeFlags: seq<bv32>, props: bv32): Option<nat>
    requires |typeFlags| <= MAX_MEMORY_TYPES
  {
    FirstMemoryTypeFrom(memoryTypeBits, typeFlags, props, 0)
  }

  /** The external memory of one swapchain image. */
  class ExternalMemory {
    var bufferFds: seq<int>
    var strides: seq<int>
    var offsets: seq<int>
    var memories: seq<nat>
    var numPlanes: nat
    var numMemories: nat
    var handleType: HandleType
    var memoryType: MemoryType
    var requiredProps: bv32
    var optimalProps: bv32
    var hostMemory: nat
    var hostMappedPtr: nat

    ghost predicate Valid()
      reads this
    {
      |bufferFds| == MAX_PLANES && |strides| == MAX_PLANES && |offsets| == MAX_PLANES &&
      |memories| == MAX_PLANES && numPlanes <= MAX_PLANES && numMemories <= MAX_PLANES
    }

    /** A fresh object: no fds, zero layout, no memories, no planes, DMA-BUF handles. */
    constructor ()
      ensures Valid()
      ensures bufferFds == [-1, -1, -1, -1] && strides == [0, 0, 0, 0] && offsets == [0, 0, 0, 0]
      ensures memories == [NULL_HANDLE, NULL_HANDLE, NULL_HANDLE, NULL_HANDLE]
      ensures numPlanes == 0 && numMemories == 0 && handleType == DmaBufHandle
      ensures memoryType == Uninitialised && hostMemory == NULL_HANDLE && hostMappedPtr == NULL_HANDLE
      ensures IsDisjoint() && !IsValid()
    {
      bufferFds := [-1, -1, -1, -1];
      strides := [0, 0, 0, 0];
      offsets := [0, 0, 0, 0];
      memories := [NULL_HANDLE, NULL_HANDLE, NULL_HANDLE, NULL_HANDLE];
      numPlanes := 0;
      numMemories := 0;
      handleType := DmaBufHandle;
      memoryType := Uninitialised;
      requiredProps := 0;
      optimalProps := 0;
      hostMemory := NULL_HANDLE;
      hostMappedPtr := NULL_HANDLE;
    }

    /** Only the memory handles differ from the previous state. */
    twostate predicate OnlyMemoriesChanged()
      reads this
    {
      bufferFds == old(bufferFds) && strides == old(strides) && offsets == old(offsets) &&
      numPlanes == old(numPlanes) && numMemories == old(numMemories) && handleType == old(handleType) &&
      memoryType == old(memoryType) && requiredProps == old(requiredProps) && optimalProps == old(optimalProps) &&
      hostMemory == old(hostMemory) && hostMappedPtr == old(hostMappedPtr)
    }

    /** is_disjoint: anything but exactly one memory object, so 0 counts as disjoint. */
    predicate IsDisjoint(): (d: bool)
      reads this
      ensures numMemories == 0 ==> d
      ensures !d ==> numMemories == 1
    {
      numMemories != 1
    }

    /** is_valid. */
    predicate IsValid(): (v: bool)
      reads this
      ensures v ==> memoryType != Uninitialised
      ensures v && memoryType == ExternalDmaBuf ==> numPlanes > 0 && |bufferFds| > 0 && bufferFds[0] >= 0
      ensures v && memoryType == HostVisible ==> requiredProps != 0
    {
      match memoryType
      case ExternalDmaBuf => numPlanes > 0 && |bufferFds| > 0 && bufferFds[0] >= 0
      case HostVisible => requiredProps != 0
      case Uninitialised => false
    }

    /** set_buffer_fds: replaces the fd array and nothing else. */
    method SetBufferFds(fds: seq<int>)
      requires Valid() && |fds| == MAX_PLANES
      modifies this
      ensures Valid() && bufferFds == fds
      ensures strides == old(strides) && offsets == old(offsets) && memories == old(memories)
      ensures numPlanes == old(numPlanes) && numMemories == old(numMemories) && handleType == old(handleType)
      ensures memoryType == old(memoryType) && requiredProps == old(requiredProps) && optimalProps == old(optimalProps)
      ensures hostMemory == old(hostMemory) && hostMappedPtr == old(hostMappedPtr)
    {
      bufferFds := fds;
    }

    /** set_strides: replaces the stride array and nothing else. */
    method SetStrides(s: seq<int>)
      requires Valid() && |s| == MAX_PLANES
      modifies this
      ensures Valid() && strides == s
      ensures bufferFds == old(bufferFds) && offsets == old(offsets) && memories == old(memories)
      ensures numPlanes == old(numPlanes) && numMemories == old(numMemories) && handleType == old(handleType)
      ensures memoryType == old(memoryType) && requiredProps == old(requiredProps) && optimalProps == old(optimalProps)
      ensures hostMemory == old(hostMemory) && hostMappedPtr == old(hostMappedPtr)
    {
      strides := s;
    }

    /** set_offsets: replaces the offset array and nothing else. */
    method SetOffsets(o: seq<int>)
      requires Valid() && |o| == MAX_PLANES
      modifies this
      ensures Valid() && offsets == o
      ensures bufferFds == old(bufferFds) && strides == old(strides) && memories == old(memories)
      ensures numPlanes == old(numPlanes) && numMemories == old(numMemories) && handleType == old(handleType)
      ensures memoryType == old(memoryType) && requiredProps == old(requiredProps) && optimalProps == old(optimalProps)
      ensures hostMemory == old(hostMemory) && hostMappedPtr == old(hostMappedPtr)
    {
      offsets := o;
    }

    /** set_memory_handle_type: changes only the handle type. */
    method SetMemoryHandleType(t: HandleType)
      requires Valid()
      modifies this
      ensures Valid() && handleType == t
      ensures bufferFds == old(bufferFds) && strides == old(strides) && offsets == old(offsets) && memories == old(memories)
      ensures numPlanes == old(numPlanes) && numMemories == old(numMemories)
      ensures memoryType == old(memoryType) && requiredProps == old(requiredProps) && optimalProps == old(optimalProps)
      ensures hostMemory == old(hostMemory) && hostMappedPtr == old(hostMappedPtr)
    {
      handleType := t;
    }

    /** set_num_memories: changes only the memory count. */
    method SetNumMemories(n: nat)
      requires Valid() && n <= MAX_PLANES
      modifies this
      ensures Valid() && numMemories == n
      ensures bufferFds == old(bufferFds) && strides == old(strides) && offsets == old(offsets) && memories == old(memories)
      ensures numPlanes == old(numPlanes) && handleType == old(handleType)
      ensures memoryType == old(memoryType) && requiredProps == old(requiredProps) && optimalProps == old(optimalProps)
      ensures hostMemory == old(hostMemory) && hostMappedPtr == old(hostMappedPtr)
    {
      numMemories := n;
    }

    /**
     * set_format_info: records the plane count of the allocated format and
     * that the memory comes from a DMA-BUF allocation.
     */
    method SetFormatInfo(isDisjoint: bool, planes: nat)
      requires Valid() && planes <= MAX_PLANES
      modifies this
      ensures Valid() && numPlanes == planes && memoryType == ExternalDmaBuf
      ensures bufferFds == old(bufferFds) && strides == old(strides) && offsets == old(offsets) && memories == old(memories)
      ensures numMemories == old(numMemories) && handleType == old(handleType)
      ensures requiredProps == old(requiredProps) && optimalProps == old(optimalProps)
      ensures hostMemory == old(hostMemory) && hostMappedPtr == old(hostMappedPtr)
    {
      numPlanes := planes;
      memoryType := ExternalDmaBuf;
    }

    /**
     * configure_for_host_visible: one plane in one host-visible memory; the
     * object is then valid exactly when some property is required.
     */
    method ConfigureForHostVisible(required: bv32, optimal: bv32) returns (r: VkResult)
      requires Valid()
      modifies this
      ensures Valid() && r == Success
      ensures memoryType == HostVisible && requiredProps == required && optimalProps == optimal
      ensures numPlanes == 1 && numMemories == 1 && !IsDisjoint()
      ensures IsValid() <==> required != 0
      ensures bufferFds == old(bufferFds) && strides == old(strides) && offsets == old(offsets) && memories == old(memories)
      ensures handleType == old(handleType) && hostMemory == old(hostMemory) && hostMappedPtr == old(hostMappedPtr)
    {
      memoryType := HostVisible;
      requiredProps := required;
      optimalProps := optimal;
      numPlanes := 1;
      numMemories := 1;
      r := Success;
    }

    /**
     * get_fd_mem_type_index: a failed fd query is returned; otherwise the
     * index is the lowest memory type the fd supports.
     */
    static method GetFdMemTypeIndex(fdQuery: VkResult, memoryTypeBits: bv32) returns (r: VkResult, memIdx: nat)
      ensures r == fdQuery
      ensures r == Success ==>
        memIdx <= MAX_MEMORY_TYPES &&
        (memIdx < MAX_MEMORY_TYPES ==> HasBit(memoryTypeBits, memIdx)) &&
        (forall j :: 0 <= j < memIdx && j < MAX_MEMORY_TYPES ==> !HasBit(memoryTypeBits, j)) &&
        (memIdx == MAX_MEMORY_TYPES <==> memoryTypeBits == 0)
    {
      memIdx := 0;
      if fdQuery != Success {
        return fdQuery, memIdx;
      }
      memIdx := LowestSetBit(memoryTypeBits);
      r := Success;
    }

    /**
     * import_plane_memory: the memory type of the fd, its size by lseek,
     * then vkAllocateMemory; request is the allocation it makes.
     */
    static method ImportPlaneMemory(fd: int, o: ImportOutcome) returns (r: VkResult, request: Option<ImportRequest>)
      ensures r == ImportResult(o) && (r == Success ==> request.Some?)
      ensures o.fdQuery != Success ==> r == o.fdQuery && request.None?
      ensures o.fdQuery == Success && o.fdSize < 0 ==> r == ErrorOutOfHostMemory && request.None?
      ensures o.fdQuery == Success && o.fdSize >= 0 ==>
        r == o.allocResult && request.Some? && request.value.fd == fd && request.value.size == o.fdSize &&
        (request.value.memoryTypeIndex < MAX_MEMORY_TYPES ==> HasBit(o.memoryTypeBits, request.value.memoryTypeIndex)) &&
        (forall j :: 0 <= j < request.value.memoryTypeIndex && j < MAX_MEMORY_TYPES ==> !HasBit(o.memoryTypeBits, j))
    {
      var memIndex;
      r, memIndex := GetFdMemTypeIndex(o.fdQuery, o.memoryTypeBits);
      if r != Success {
        return r, None;
      }
      if o.fdSize < 0 {
        return ErrorOutOfHostMemory, None;
      }
      request := Some(ImportRequest(fd, o.fdSize, memIndex));
      r := o.allocResult;
    }

    /**
     * import_plane_memories. A disjoint image imports one memory per
     * distinct plane fd, in first-occurrence order, into memories[0..k);
     * otherwise fd 0 is imported into memories[0]. outcomes[k] is the
     * outcome of the k-th import; imported lists the fds imports were
     * attempted for.
     */
    method ImportPlaneMemories(outcomes: seq<ImportOutcome>) returns (r: VkResult, imported: seq<int>)
      requires Valid() && |outcomes| >= MAX_PLANES
      modifies this
      ensures Valid() && OnlyMemoriesChanged()
      ensures !IsDisjoint() ==> imported == [bufferFds[0]] && r == ImportResult(outcomes[0])
      ensures IsDisjoint() && r == Success ==> imported == DistinctPlaneFds(bufferFds, numPlanes)
      ensures IsDisjoint() && r != Success ==>
        0 < |imported| && imported <= DistinctPlaneFds(bufferFds, numPlanes) &&
        r == ImportResult(outcomes[|imported| - 1]) &&
        forall k :: 0 <= k < |imported| - 1 ==> ImportSucceeds(outcomes[k])
      ensures r == Success <==> forall k :: 0 <= k < |imported| ==> ImportSucceeds(outcomes[k])
      ensures forall k :: 0 <= k < |imported| && ImportSucceeds(outcomes[k]) ==> memories[k] == outcomes[k].memory
      ensures r != Success ==> memories[|imported| - 1..] == old(memories)[|imported| - 1..]
      ensures r == Success ==> memories[|imported|..] == old(memories)[|imported|..]
    {
      if !IsDisjoint() {
        var request;
        imported := [bufferFds[0]];
        r, request := ImportPlaneMemory(bufferFds[0], outcomes[0]);
        if r == Success {
          memories := memories[0 := outcomes[0].memory];
        }
        return;
      }
      r, imported := ImportDistinctPlanes(outcomes);
    }

    /**
     * The disjoint branch of import_plane_memories: walk the planes and
     * import each fd at its first occurrence into the next memory slot,
     * stopping at the first failure.
     */
    method ImportDistinctPlanes(outcomes: seq<ImportOutcome>) returns (r: VkResult, imported: seq<int>)
      requires Valid() && |outcomes| >= MAX_PLANES
      modifies this
      ensures Valid() && OnlyMemoriesChanged()
      ensures r == Success ==> imported == DistinctPlaneFds(bufferFds, numPlanes)
      ensures r != Success ==>
        0 < |imported| && imported <= DistinctPlaneFds(bufferFds, numPlanes) &&
        r == ImportResult(outcomes[|imported| - 1]) &&
        forall k :: 0 <= k < |imported| - 1 ==> ImportSucceeds(outcomes[k])
      ensures r == Success <==> forall k :: 0 <= k < |imported| ==> ImportSucceeds(outcomes[k])
      ensures forall k :: 0 <= k < |imported| && ImportSucceeds(outcomes[k]) ==> memories[k] == outcomes[k].memory
      ensures r != Success ==> memories[|imported| - 1..] == old(memories)[|imported| - 1..]
      ensures r == Success ==> memories[|imported|..] == old(memories)[|imported|..]
    {
      var mems;
      r, imported, mems := ImportDistinct(bufferFds, numPlanes, memories, outcomes);
      memories := mems;
    }

    /**
     * The loop of the disjoint branch on the plane fds and the memory
     * slots as values: mems0 holds the slots before, mems after.
     */
    static method ImportDistinct(fds: seq<int>, n: nat, mems0: seq<nat>, outcomes: seq<ImportOutcome>)
      returns (r: VkResult, imported: seq<int>, mems: seq<nat>)
      requires n <= |fds| && n <= MAX_PLANES && |mems0| == MAX_PLANES && |outcomes| >= MAX_PLANES
      ensures |mems| == MAX_PLANES
      ensures r == Success ==> imported == DistinctPlaneFds(fds, n)
      ensures r != Success ==>
        0 < |imported| && imported <= DistinctPlaneFds(fds, n) &&
        r == ImportResult(outcomes[|imported| - 1]) &&
        forall k :: 0 <= k < |imported| - 1 ==> ImportSucceeds(outcomes[k])
      ensures r == Success <==> forall k :: 0 <= k < |imported| ==> ImportSucceeds(outcomes[k])
      ensures forall k :: 0 <= k < |imported| && ImportSucceeds(outcomes[k]) ==> mems[k] == outcomes[k].memory
      ensures r != Success ==> mems[|imported| - 1..] == mems0[|imported| - 1..]
      ensures r == Success ==> mems[|imported|..] == mems0[|imported|..]
    {
      imported := [];
      mems := mems0;
      var plane := 0;
      while plane < n
        invariant plane <= n && Importing(fds, plane, mems0, outcomes, imported, mems)
      {
        r, imported, mems := ImportStep(fds, plane, mems0, outcomes, imported, mems);
        if r != Success {
          DistinctPrefix(fds, plane + 1, n);
          return;
        }
        plane := plane + 1;
      }
      r := Success;
    }

    /**
     * The state of the disjoint import loop before plane: the distinct fds
     * of the earlier planes were imported, each successfully, into the
     * first slots; the other slots are as they were.
     */
    static predicate Importing(fds: seq<int>, plane: nat, mems0: seq<nat>, outcomes: seq<ImportOutcome>,
                               imported: seq<int>, mems: seq<nat>)
    {
      plane <= |fds| && plane <= MAX_PLANES && |mems| == MAX_PLANES && |mems0| == MAX_PLANES &&
      |outcomes| >= MAX_PLANES && imported == DistinctPlaneFds(fds, plane) &&
      (forall k :: 0 <= k < |imported| ==> ImportSucceeds(outcomes[k]) && mems[k] == outcomes[k].memory) &&
      mems[|imported|..] == mems0[|imported|..]
    }

    /** One plane of the disjoint import loop: an fd seen before is skipped, a new one imported. */
    static method ImportStep(fds: seq<int>, plane: nat, mems0: seq<nat>, outcomes: seq<ImportOutcome>,
                             imported: seq<int>, mems: seq<nat>)
      returns (r: VkResult, imported': seq<int>, mems': seq<nat>)
      requires plane < |fds| && plane < MAX_PLANES && Importing(fds, plane, mems0, outcomes, imported, mems)
      ensures imported' == DistinctPlaneFds(fds, plane + 1)
      ensures r == Success ==> Importing(fds, plane + 1, mems0, outcomes, imported', mems')
      ensures r != Success ==>
        0 < |imported'| && r == ImportResult(outcomes[|imported'| - 1]) && |mems'| == MAX_PLANES &&
        (forall k :: 0 <= k < |imported'| - 1 ==> ImportSucceeds(outcomes[k]) && mems'[k] == outcomes[k].memory) &&
        mems'[|imported'| - 1..] == mems0[|imported'| - 1..]
    {
      imported', mems' := imported, mems;
      r := Success;
      if FirstOccurrence(fds, plane) {
        var request;
        var k := |imported|;
        assert DistinctPlaneFds(fds, plane + 1) == imported + [fds[plane]];
        imported' := imported + [fds[plane]];
        r, request := ImportPlaneMemory(fds[plane], outcomes[k]);
        if r == Success {
          mems' := mems[k := outcomes[k].memory];
          assert mems'[k + 1..] == mems[k + 1..];
        }
      }
    }

    /**
     * bind_swapchain_image_memory. A disjoint image binds memories[i] at
     * offsets[i] with plane aspect i for every memory; otherwise one bind of
     * memories[0] at offsets[0]. resizeOk says whether the two temporary
     * vectors could be sized; bindResult is the driver's result.
     */
    method BindSwapchainImageMemory(resizeOk: bool, bindResult: VkResult) returns (r: VkResult, binds: seq<BindInfo>)
      requires Valid()
      ensures IsDisjoint() && !resizeOk ==> r == ErrorOutOfHostMemory && binds == []
      ensures IsDisjoint() && resizeOk ==>
        r == bindResult && |binds| == numMemories &&
        forall i :: 0 <= i < numMemories ==> binds[i] == BindInfo(memories[i], offsets[i], Some(PlaneAspectOf(i)))
      ensures !IsDisjoint() ==> r == bindResult && binds == [BindInfo(memories[0], offsets[0], None)]
    {
      if IsDisjoint() {
        if !resizeOk {
          return ErrorOutOfHostMemory, [];
        }
        binds := [];
        var plane := 0;
        while plane < numMemories
          invariant plane <= numMemories && |binds| == plane
          invariant forall i :: 0 <= i < plane ==> binds[i] == BindInfo(memories[i], offsets[i], Some(PlaneAspectOf(i)))
        {
          binds := binds + [BindInfo(memories[plane], offsets[plane], Some(PlaneAspectOf(plane)))];
          plane := plane + 1;
        }
        return bindResult, binds;
      }
      return bindResult, [BindInfo(memories[0], offsets[0], None)];
    }

    /**
     * fill_image_plane_layouts: one layout per plane with its offset and
     * stride; a failed resize of the caller's vector leaves it unchanged.
     */
    method FillImagePlaneLayouts(resizeOk: bool, layouts0: seq<PlaneLayout>) returns (r: VkResult, layouts: seq<PlaneLayout>)
      requires Valid()
      ensures !resizeOk ==> r == ErrorOutOfHostMemory && layouts == layouts0
      ensures resizeOk ==>
        r == Success && |layouts| == numPlanes &&
        forall i :: 0 <= i < numPlanes ==> layouts[i] == PlaneLayout(offsets[i], RowPitch(strides[i]))
    {
      if !resizeOk {
        return ErrorOutOfHostMemory, layouts0;
      }
      layouts := [];
      var plane := 0;
      while plane < numPlanes
        invariant plane <= numPlanes && |layouts| == plane
        invariant forall i :: 0 <= i < plane ==> layouts[i] == PlaneLayout(offsets[i], RowPitch(strides[i]))
      {
        layouts := layouts + [PlaneLayout(offsets[plane], RowPitch(strides[plane]))];
        plane := plane + 1;
      }
      r := Success;
    }

    /** fill_drm_mod_info: the modifier, the plane layouts, and one plane per memory object. */
    function FillDrmModInfo(modifier: nat, layouts: seq<PlaneLayout>): (info: DrmModInfo)
      reads this
      ensures info.modifier == modifier && info.layouts == layouts
      ensures info.planeCount == numMemories && (info.planeCount == 1 <==> !IsDisjoint())
    {
      DrmModInfo(modifier, numMemories, layouts)
    }

    /**
     * find_host_visible_memory_type: the first allowed memory type with all
     * optimal properties, else the first with all required properties.
     */
    method FindHostVisibleMemoryType(memoryTypeBits: bv32, typeFlags: seq<bv32>) returns (r: VkResult, index: nat)
      requires |typeFlags| <= MAX_MEMORY_TYPES
      ensures r == Success || r == ErrorFormatNotSupported
      ensures FirstMemoryTypeWith(memoryTypeBits, typeFlags, optimalProps).Some? ==>
        r == Success && index == FirstMemoryTypeWith(memoryTypeBits, typeFlags, optimalProps).value
      ensures FirstMemoryTypeWith(memoryTypeBits, typeFlags, optimalProps).None? &&
              FirstMemoryTypeWith(memoryTypeBits, typeFlags, requiredProps).Some? ==>
        r == Success && index == FirstMemoryTypeWith(memoryTypeBits, typeFlags, requiredProps).value
      ensures r == ErrorFormatNotSupported <==>
        FirstMemoryTypeWith(memoryTypeBits, typeFlags, optimalProps).None? &&
        FirstMemoryTypeWith(memoryTypeBits, typeFlags, requiredProps).None?
    {
      index := 0;
      var propsToTry := [optimalProps, requiredProps];
      var p := 0;
      while p < 2
        invariant p <= 2 && propsToTry == [optimalProps, requiredProps]
        invariant p >= 1 ==> FirstMemoryTypeWith(memoryTypeBits, typeFlags, optimalProps).None?
        invariant p >= 2 ==> FirstMemoryTypeWith(memoryTypeBits, typeFlags, requiredProps).None?
      {
        var found := SearchMemoryTypes(memoryTypeBits, typeFlags, propsToTry[p]);
        if found.Some? {
          return Success, found.value;
        }
        p := p + 1;
      }
      r := ErrorFormatNotSupported;
    }

    /**
     * map_host_memory: fails unless the memory is host-visible and
     * allocated; a cached mapping is returned without mapping again.
     * (mapResult, newPtr) is the outcome of vkMapMemory; mapped says
     * whether it was called.
     */
    method MapHostMemory(mapResult: VkResult, newPtr: nat) returns (r: VkResult, ptr: Option<nat>, mapped: bool)
      requires Valid()
      modifies this
      ensures Valid()
      ensures bufferFds == old(bufferFds) && strides == old(strides) && offsets == old(offsets) && memories == old(memories)
      ensures numPlanes == old(numPlanes) && numMemories == old(numMemories) && handleType == old(handleType)
      ensures memoryType == old(memoryType) && requiredProps == old(requiredProps) && optimalProps == old(optimalProps)
      ensures hostMemory == old(hostMemory)
      ensures old(memoryType) != HostVisible || old(hostMemory) == NULL_HANDLE ==>
        r == ErrorMemoryMapFailed && ptr.None? && !mapped && hostMappedPtr == old(hostMappedPtr)
      ensures old(memoryType) == HostVisible && old(hostMemory) != NULL_HANDLE && old(hostMappedPtr) != NULL_HANDLE ==>
        r == Success && ptr == Some(old(hostMappedPtr)) && !mapped && hostMappedPtr == old(hostMappedPtr)
      ensures old(memoryType) == HostVisible && old(hostMemory) != NULL_HANDLE && old(hostMappedPtr) == NULL_HANDLE ==>
        mapped && r == mapResult &&
        (r == Success ==> ptr == Some(newPtr) && hostMappedPtr == newPtr) &&
        (r != Success ==> ptr.None? && hostMappedPtr == old(hostMappedPtr))
    {
      mapped := false;
      if memoryType != HostVisible || hostMemory == NULL_HANDLE {
        return ErrorMemoryMapFailed, None, mapped;
      }
      if hostMappedPtr != NULL_HANDLE {
        return Success, Some(hostMappedPtr), mapped;
      }
      mapped := true;
      r := mapResult;
      ptr := None;
      if r == Success {
        hostMappedPtr := newPtr;
        ptr := Some(hostMappedPtr);
      }
    }

    /**
     * allocate_host_visible_and_bind: choose a memory type, allocate
     * (allocResult, newMemory) and bind (bindResult) at offset 0.
     */
    method AllocateHostVisibleAndBind(memoryTypeBits: bv32, typeFlags: seq<bv32>,
                                      allocResult: VkResult, newMemory: nat, bindResult: VkResult)
      returns (r: VkResult)
      requires Valid() && |typeFlags| <= MAX_MEMORY_TYPES
      modifies this
      ensures Valid()
      ensures bufferFds == old(bufferFds) && strides == old(strides) && offsets == old(offsets) && memories == old(memories)
      ensures numPlanes == old(numPlanes) && numMemories == old(numMemories) && handleType == old(handleType)
      ensures memoryType == old(memoryType) && requiredProps == old(requiredProps) && optimalProps == old(optimalProps)
      ensures hostMappedPtr == old(hostMappedPtr)
      ensures FirstMemoryTypeWith(memoryTypeBits, typeFlags, optimalProps).None? &&
              FirstMemoryTypeWith(memoryTypeBits, typeFlags, requiredProps).None? ==>
        r == ErrorFormatNotSupported && hostMemory == old(hostMemory)
      ensures FirstMemoryTypeWith(memoryTypeBits, typeFlags, optimalProps).Some? ||
              FirstMemoryTypeWith(memoryTypeBits, typeFlags, requiredProps).Some? ==>
        (allocResult != Success ==> r == allocResult && hostMemory == old(hostMemory)) &&
        (allocResult == Success ==> hostMemory == newMemory && r == bindResult)
    {
      var index;
      r, index := FindHostVisibleMemoryType(memoryTypeBits, typeFlags);
      if r != Success {
        return;
      }
      if allocResult != Success {
        return allocResult;
      }
      hostMemory := newMemory;
      r := bindResult;
    }

    /**
     * import_memory_and_bind_swapchain_image: import the plane memories,
     * then bind them; the first failure is returned.
     */
    method ImportMemoryAndBind(outcomes: seq<ImportOutcome>, resizeOk: bool, bindResult: VkResult) returns (r: VkResult)
      requires Valid() && |outcomes| >= MAX_PLANES
      modifies this
      ensures Valid() && OnlyMemoriesChanged()
      ensures r == ImportBindOutcome(IsDisjoint(), |DistinctPlaneFds(bufferFds, numPlanes)|, outcomes, resizeOk, bindResult)
      ensures !IsDisjoint() && ImportSucceeds(outcomes[0]) ==> memories[0] == outcomes[0].memory
      ensures IsDisjoint() && FirstFailedImport(outcomes, |DistinctPlaneFds(bufferFds, numPlanes)|).None? ==>
        forall k :: 0 <= k < |DistinctPlaneFds(bufferFds, numPlanes)| ==> memories[k] == outcomes[k].memory
    {
      var imported;
      r, imported := ImportPlaneMemories(outcomes);
      if r != Success {
        return;
      }
      var binds;
      r, binds := BindSwapchainImageMemory(resizeOk, bindResult);
    }

    /**
     * allocate_and_bind_image: import and bind for DMA-BUF memory, allocate
     * and bind for host-visible memory, FEATURE_NOT_PRESENT otherwise.
     */
    method AllocateAndBindImage(outcomes: seq<ImportOutcome>, resizeOk: bool, bindResult: VkResult,
                                memoryTypeBits: bv32, typeFlags: seq<bv32>, allocResult: VkResult, newMemory: nat)
      returns (r: VkResult)
      requires Valid() && |outcomes| >= MAX_PLANES && |typeFlags| <= MAX_MEMORY_TYPES
      modifies this
      ensures Valid()
      ensures bufferFds == old(bufferFds) && strides == old(strides) && offsets == old(offsets)
      ensures numPlanes == old(numPlanes) && numMemories == old(numMemories) && handleType == old(handleType)
      ensures memoryType == old(memoryType) && requiredProps == old(requiredProps) && optimalProps == old(optimalProps)
      ensures hostMappedPtr == old(hostMappedPtr)
      ensures memoryType != ExternalDmaBuf ==> memories == old(memories)
      ensures memoryType != HostVisible ==> hostMemory == old(hostMemory)
      ensures memoryType == Uninitialised ==> r == ErrorFeatureNotPresent
      ensures memoryType == ExternalDmaBuf ==>
        r == ImportBindOutcome(IsDisjoint(), |DistinctPlaneFds(bufferFds, numPlanes)|, outcomes, resizeOk, bindResult)
      ensures memoryType == ExternalDmaBuf && !IsDisjoint() && ImportSucceeds(outcomes[0]) ==>
        memories[0] == outcomes[0].memory
      ensures memoryType == ExternalDmaBuf && IsDisjoint() &&
              FirstFailedImport(outcomes, |DistinctPlaneFds(bufferFds, numPlanes)|).None? ==>
        forall k :: 0 <= k < |DistinctPlaneFds(bufferFds, numPlanes)| ==> memories[k] == outcomes[k].memory
      ensures memoryType == HostVisible ==>
        var found := FirstMemoryTypeWith(memoryTypeBits, typeFlags, optimalProps).Some? ||
                     FirstMemoryTypeWith(memoryTypeBits, typeFlags, requiredProps).Some?;
        (!found ==> r == ErrorFormatNotSupported && hostMemory == old(hostMemory)) &&
        (found && allocResult != Success ==> r == allocResult && hostMemory == old(hostMemory)) &&
        (found && allocResult == Success ==> r == bindResult && hostMemory == newMemory)
    {
      match memoryType {
        case ExternalDmaBuf =>
          r := ImportMemoryAndBind(outcomes, resizeOk, bindResult);
        case HostVisible =>
          r := AllocateHostVisibleAndBind(memoryTypeBits, typeFlags, allocResult, newMemory, bindResult);
        case Uninitialised =>
          r := ErrorFeatureNotPresent;
      }
    }

    /**
     * What ~external_memory releases: DMA-BUF memory is cleaned up plane by
     * plane, host-visible memory unmapped and freed, and an uninitialised
     * object releases nothing.
     */
    function DestructionActions(): (actions: seq<CleanupAction>)
      reads this
      requires Valid()
      ensures memoryType == Uninitialised ==> actions == []
      ensures memoryType == ExternalDmaBuf ==>
        forall a :: a in actions ==> a.FreeMemory? || a.CloseFd?
      ensures memoryType == HostVisible ==>
        forall a :: a in actions ==> a == UnmapMemory(hostMemory) || a == FreeMemory(hostMemory)
    {
      match memoryType
      case ExternalDmaBuf => CleanupActions(bufferFds, memories, numPlanes)
      case HostVisible => HostVisibleCleanupActions(hostMappedPtr, hostMemory)
      case Uninitialised => []
    }

    /**
     * ~external_memory. The handles cleanup_host_visible_memory resets
     * belong to the object being destroyed, so the reset is not kept.
     */
    method Destroy() returns (actions: seq<CleanupAction>)
      requires Valid()
      ensures actions == DestructionActions()
    {
      match memoryType {
        case ExternalDmaBuf =>
          actions := CleanupExternalMemory();
        case HostVisible =>
          actions := HostVisibleCleanupActions(hostMappedPtr, hostMemory);
        case Uninitialised =>
          actions := [];
      }
    }

    /**
     * cleanup_external_memory: for each plane, free its memory or close its
     * fd at the fd's first occurrence (see CleanupActions).
     */
    method CleanupExternalMemory() returns (actions: seq<CleanupAction>)
      requires Valid()
      ensures actions == CleanupActions(bufferFds, memories, numPlanes)
    {
      actions := [];
      var plane := 0;
      while plane < numPlanes
        invariant plane <= numPlanes
        invariant actions == CleanupActions(bufferFds, memories, plane)
      {
        if memories[plane] != NULL_HANDLE {
          actions := actions + [FreeMemory(memories[plane])];
        } else if bufferFds[plane] >= 0 {
          if FirstOccurrence(bufferFds, plane) {
            actions := actions + [CloseFd(bufferFds[plane])];
          }
        }
        plane := plane + 1;
      }
    }
  }

  /** The first of the first m import outcomes that fails, if any. */
  function FirstFailedImport(outcomes: seq<ImportOutcome>, m: nat): (r: Option<nat>)
    requires m <= |outcomes|
    ensures r.Some? ==> r.value < m && !ImportSucceeds(outcomes[r.value])
    ensures r.Some? ==> forall k :: 0 <= k < r.value ==> ImportSucceeds(outcomes[k])
    ensures r.None? <==> forall k :: 0 <= k < m ==> ImportSucceeds(outcomes[k])
  {
    if m == 0 then None
    else match FirstFailedImport(outcomes, m - 1)
      case Some(j) => Some(j)
      case None => if ImportSucceeds(outcomes[m - 1]) then None else Some(m - 1)
  }

  /**
   * The result of import-then-bind: with one memory object, the import of
   * plane 0's fd and then the bind; when disjoint, one import per distinct
   * plane fd (m of them) and the result of the first that fails, else
   * OUT_OF_HOST_MEMORY when the bind vectors cannot be sized, else the
   * bind's result. It is SUCCESS exactly when every import and the bind are.
   */
  function ImportBindOutcome(disjoint: bool, m: nat, outcomes: seq<ImportOutcome>, resizeOk: bool,
                             bindResult: VkResult): (r: VkResult)
    requires 1 <= |outcomes| && m <= |outcomes|
    ensures r == Success <==>
      if disjoint then resizeOk && bindResult == Success && forall k :: 0 <= k < m ==> ImportSucceeds(outcomes[k])
      else ImportSucceeds(outcomes[0]) && bindResult == Success
    ensures !disjoint && !ImportSucceeds(outcomes[0]) ==> r == ImportResult(outcomes[0])
    ensures disjoint && FirstFailedImport(outcomes, m).Some? ==> r == ImportResult(outcomes[FirstFailedImport(outcomes, m).value])
    ensures disjoint && !resizeOk && FirstFailedImport(outcomes, m).None? ==> r == ErrorOutOfHostMemory
  {
    if !disjoint then
      (if ImportSucceeds(outcomes[0]) then bindResult else ImportResult(outcomes[0]))
    else match FirstFailedImport(outcomes, m)
      case Some(j) => ImportResult(outcomes[j])
      case None => if resizeOk then bindResult else ErrorOutOfHostMemory
  }

  /** The result of one import outcome, as ImportPlaneMemory returns it. */
  function ImportResult(o: ImportOutcome): VkResult
  {
    if o.fdQuery != Success then o.fdQuery
    else if o.fdSize < 0 then ErrorOutOfHostMemory
    else o.allocResult
  }

  predicate ImportSucceeds(o: ImportOutcome)
  {
    ImportResult(o) == Success
  }

  /** The distinct fds of a shorter prefix of planes are a prefix of those of a longer one. */
  lemma {:induction false} DistinctPrefix(fds: seq<int>, m: nat, n: nat)
    requires m <= n <= |fds|
    ensures DistinctPlaneFds(fds, m) <= DistinctPlaneFds(fds, n)
  {
    if m < n {
      DistinctPrefix(fds, m, n - 1);
    }
  }

  /** The inner search of find_host_visible_memory_type: a scan over the memory types. */
  method SearchMemoryTypes(memoryTypeBits: bv32, typeFlags: seq<bv32>, props: bv32) returns (found: Option<nat>)
    requires |typeFlags| <= MAX_MEMORY_TYPES
    ensures found == FirstMemoryTypeWith(memoryTypeBits, typeFlags, props)
  {
    var i := 0;
    while i < |typeFlags|
      invariant i <= |typeFlags|
      invariant forall j :: 0 <= j < i ==> !TypeSuits(memoryTypeBits, typeFlags, props, j)
    {
      if TypeSuits(memoryTypeBits, typeFlags, props, i) {
        FirstMemoryTypeIs(memoryTypeBits, typeFlags, props, 0, i);
        return Some(i);
      }
      i := i + 1;
    }
    NoMemoryTypeIs(memoryTypeBits, typeFlags, props, 0);
    found := None;
  }

  /** When nothing from index from on suits props, the search finds nothing. */
  lemma {:induction false} NoMemoryTypeIs(memoryTypeBits: bv32, typeFlags: seq<bv32>, props: bv32, from: nat)
    requires |typeFlags| <= MAX_MEMORY_TYPES
    requires forall j :: from <= j < |typeFlags| ==> !TypeSuits(memoryTypeBits, typeFlags, props, j)
    ensures FirstMemoryTypeFrom(memoryTypeBits, typeFlags, props, from) == None
    decreases |typeFlags| - from
  {
    if from < |typeFlags| {
      NoMemoryTypeIs(memoryTypeBits, typeFlags, props, from + 1);
    }
  }

  /** An index that suits props with no earlier one is the search's answer. */
  lemma {:induction false} FirstMemoryTypeIs(memoryTypeBits: bv32, typeFlags: seq<bv32>, props: bv32, from: nat, i: nat)
    requires |typeFlags| <= MAX_MEMORY_TYPES && from <= i < |typeFlags|
    requires TypeSuits(memoryTypeBits, typeFlags, props, i)
    requires forall j :: from <= j < i ==> !TypeSuits(memoryTypeBits, typeFlags, props, j)
    ensures FirstMemoryTypeFrom(memoryTypeBits, typeFlags, props, from) == Some(i)
    decreases i - from
  {
    if from < i {
      FirstMemoryTypeIs(memoryTypeBits, typeFlags, props, from + 1, i);
    }
  }
}
