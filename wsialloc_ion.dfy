// The ION back end of wsialloc (util/wsialloc/wsialloc_ion.c): allocator
// set-up and tear-down, the same format selection and layout arithmetic as
// the shared helpers, and a single-plane allocation from an ION heap.
// The ION ioctls are represented by their results.
module WsiallocIon {
  import opened VkTypes
  import opened Wsialloc
  import opened WsiallocHelpers

  /** ION_HEAP_TYPE_DMA. */
  const ION_HEAP_TYPE_DMA: nat := 4

  /** One entry of the ION heap query. */
  datatype HeapData = HeapData(heapType: nat, heapId: nat)

  /**
   * find_alloc_heap_id: a failed query returns its (negative) ioctl result,
   * otherwise the id of the first DMA heap in query order, or -1.
   */
  function FindAllocHeapId(queryResult: int, heaps: seq<HeapData>): (r: int)
    ensures queryResult < 0 ==> r == queryResult
    ensures queryResult >= 0 && r >= 0 ==>
      exists i :: 0 <= i < |heaps| && heaps[i].heapType == ION_HEAP_TYPE_DMA && heaps[i].heapId == r &&
        forall j :: 0 <= j < i ==> heaps[j].heapType != ION_HEAP_TYPE_DMA
    ensures queryResult >= 0 ==> (r == -1 <==> forall i :: 0 <= i < |heaps| ==> heaps[i].heapType != ION_HEAP_TYPE_DMA)
  {
    if queryResult < 0 then queryResult
    else if |heaps| == 0 then -1
    else if heaps[0].heapType == ION_HEAP_TYPE_DMA then heaps[0].heapId
    else
      FindAllocHeapId(queryResult, heaps[1..])
  }

  /** The heap id as the allocator stores it: an int converted to uint32_t. */
  function StoredHeapId(id: int): (r: nat)
    ensures r <= UINT32_MAX
    ensures id >= 0 && id <= UINT32_MAX ==> r == id
    ensures id == -1 ==> r == UINT32_MAX
  {
    id % (UINT32_MAX + 1)
  }

  /**
   * The outcome of wsialloc_new as written: the heap id is checked with
   * `< 0` after it has been stored as an unsigned value, so that check
   * never fails.
   */
  function NewResultAsWritten(mallocOk: bool, openFd: int, heapId: int): (r: WsiallocError)
    ensures r == ErrorNone <==> mallocOk && openFd >= 0
  {
    if !mallocOk then ErrorNoResource
    else if openFd < 0 then ErrorNoResource
    else if StoredHeapId(heapId) < 0 then ErrorNoResource
    else ErrorNone
  }

  /** With no DMA heap, the as-written set-up succeeds and keeps heap id 0xFFFFFFFF, beyond any shift of 1u. */
  lemma NewAcceptsMissingHeap()
    ensures FindAllocHeapId(0, []) == -1
    ensures NewResultAsWritten(true, 3, FindAllocHeapId(0, [])) == ErrorNone
    ensures StoredHeapId(FindAllocHeapId(0, [])) == UINT32_MAX
  {
  }

  /** The outcome of wsialloc_new with the heap id checked before it is stored. */
  function NewResult(mallocOk: bool, openFd: int, heapId: int): (r: WsiallocError)
    ensures r == ErrorNone <==> mallocOk && openFd >= 0 && heapId >= 0
    ensures r != ErrorNone ==> r == ErrorNoResource
  {
    if !mallocOk then ErrorNoResource
    else if openFd < 0 then ErrorNoResource
    else if heapId < 0 then ErrorNoResource
    else ErrorNone
  }

  /** An ION allocator: the /dev/ion fd and the heaps it allocates from. */
  class IonAllocator {
    var fd: int
    var allocHeapId: nat
    var protectedAllocHeapId: nat
    var protectedHeapExists: bool

    constructor (fd: int, heapId: nat)
      ensures this.fd == fd && allocHeapId == heapId && protectedAllocHeapId == 0 && !protectedHeapExists
    {
      this.fd := fd;
      allocHeapId := heapId;
      protectedAllocHeapId := 0;
      protectedHeapExists := false;
    }
  }

  /**
   * wsialloc_delete: nothing for a null allocator, otherwise the fd is
   * closed when it is open; closed is the fd passed to close().
   */
  method Delete(allocator: IonAllocator?) returns (closed: Option<int>)
    ensures allocator == null ==> closed.None?
    ensures allocator != null ==> (closed.Some? <==> allocator.fd >= 0)
    ensures closed.Some? ==> allocator != null && closed.value == allocator.fd
  {
    if allocator == null {
      return None;
    }
    closed := if allocator.fd >= 0 then Some(allocator.fd) else None;
  }

  /**
   * wsialloc_new: allocation of the struct, opening /dev/ion and the heap
   * query are represented by their results. On failure the partly built
   * allocator is deleted (closed says which fd that closes) and none is
   * returned. A new allocator never has a protected heap. The heap
   * query's failure is detected, as the corrected NewResult says (see
   * Findings).
   */
  method New(mallocOk: bool, openFd: int, queryResult: int, heaps: seq<HeapData>)
    returns (err: WsiallocError, allocator: IonAllocator?, closed: Option<int>)
    ensures err == NewResult(mallocOk, openFd, FindAllocHeapId(queryResult, heaps))
    ensures err == ErrorNone <==> allocator != null
    ensures allocator != null ==>
      fresh(allocator) && allocator.fd == openFd &&
      allocator.allocHeapId == FindAllocHeapId(queryResult, heaps) && !allocator.protectedHeapExists
    ensures closed.Some? <==> mallocOk && openFd >= 0 && FindAllocHeapId(queryResult, heaps) < 0
    ensures closed.Some? ==> closed.value == openFd
  {
    closed := None;
    allocator := null;
    if !mallocOk {
      return ErrorNoResource, allocator, closed;
    }
    if openFd < 0 {
      return ErrorNoResource, allocator, closed;
    }
    var heapId := FindAllocHeapId(queryResult, heaps);
    if heapId < 0 {
      var partial := new IonAllocator(openFd, 0);
      closed := Delete(partial);
      return ErrorNoResource, allocator, closed;
    }
    allocator := new IonAllocator(openFd, heapId);
    err := ErrorNone;
  }

  /**
   * validate_parameters of the ION back end: a null allocator, null stride
   * or offset outputs, no formats, or a dimension outside [1, 128000].
   */
  predicate IonValidParameters(allocatorNull: bool, stridesNull: bool, offsetsNull: bool, info: AllocateInfo)
  {
    !allocatorNull && !stridesNull && !offsetsNull && |info.formats| != 0 && !info.formatsNull &&
    1 <= info.width <= MAX_IMAGE_SIZE && 1 <= info.height <= MAX_IMAGE_SIZE
  }

  /** The ION table rows all have at least one plane; allocate_format asserts a single plane. */
  predicate IonTable(table: seq<FmtSpec>)
  {
    WellFormedTable(table) && forall i :: 0 <= i < |table| ==> table[i].nrPlanes >= 1
  }

  /** The single-plane outputs of the ION wsialloc_alloc. */
  datatype IonOutputs = IonOutputs(format: Format, stride: int, bufferFd: int, offset: int)

  /** One call of the ION allocation ioctl: requested size and heap id. */
  datatype IonRequest = IonRequest(size: nat, heapId: nat)

  /**
   * wsialloc_alloc of the ION back end. The allocation ioctl is represented
   * by the fd it returns (ioctlFd); request records the call it receives.
   * sizeMax is the platform's SIZE_MAX.
   */
  method Alloc(allocator: IonAllocator?, stridesNull: bool, offsetsNull: bool, info: AllocateInfo,
               table: seq<FmtSpec>, sizeMax: nat, ioctlFd: int, out0: IonOutputs)
    returns (err: WsiallocError, out: IonOutputs, request: Option<IonRequest>)
    requires IonTable(table)
    ensures err != ErrorNone ==> out == out0
    ensures !IonValidParameters(allocator == null, stridesNull, offsetsNull, info) ==>
      err == ErrorInvalid && request.None?
    ensures (IonValidParameters(allocator == null, stridesNull, offsetsNull, info) &&
             FirstSelectable(info.formats, table).None?) ==> err == ErrorNotSupported && request.None?
    ensures (IonValidParameters(allocator == null, stridesNull, offsetsNull, info) &&
             FirstSelectable(info.formats, table).Some?) ==>
      allocator != null &&
      var format := info.formats[FirstSelectable(info.formats, table).value];
      var spec := SpecOf(format, table);
      var total := LayoutOffset(info.width, info.height, spec, 1);
      var heap := if info.flags.protected then allocator.protectedAllocHeapId else allocator.allocHeapId;
      (info.flags.noMemory ==> err == ErrorNone && request.None? && out.bufferFd == out0.bufferFd) &&
      (!info.flags.noMemory && info.flags.protected && !allocator.protectedHeapExists ==>
         err == ErrorNoResource && request.None?) &&
      (!info.flags.noMemory && (!info.flags.protected || allocator.protectedHeapExists) ==>
         (total > sizeMax ==> err == ErrorNoResource && request.None?) &&
         (total <= sizeMax ==>
            request == Some(IonRequest(total, heap)) &&
            (err == ErrorNone <==> ioctlFd >= 0) && (err == ErrorNone ==> out.bufferFd == ioctlFd))) &&
      (err != ErrorNone ==> err == ErrorNoResource) &&
      (err == ErrorNone ==>
         out.format == format && out.stride == PlaneStride(info.width, spec.bpp[0]) && out.offset == 0)
  {
    out := out0;
    request := None;
    if !IonValidParameters(allocator == null, stridesNull, offsetsNull, info) {
      return ErrorInvalid, out, request;
    }
    var selected, strides, offsets, totalSize;
    err, selected, strides, offsets, totalSize := SelectFormat(info, table);
    if err != ErrorNone {
      return err, out, request;
    }
    var format := info.formats[selected];
    var spec := SpecOf(format, table);
    var fd := out0.bufferFd;
    if !info.flags.noMemory {
      // allocate_format
      var heap := allocator.allocHeapId;
      if info.flags.protected {
        if !allocator.protectedHeapExists {
          return ErrorNoResource, out, request;
        }
        heap := allocator.protectedAllocHeapId;
      }
      var total := offsets[0] + strides[0] * info.height;
      if total > sizeMax {
        return ErrorNoResource, out, request;
      }
      request := Some(IonRequest(total, heap));
      if ioctlFd < 0 {
        return ErrorNoResource, out, request;
      }
      fd := ioctlFd;
    }
    out := IonOutputs(format, strides[0], fd, offsets[0]);
  }
}
