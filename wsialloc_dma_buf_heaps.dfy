// The DMA-BUF heaps back end of wsialloc
// (util/wsialloc/wsialloc_dma_buf_heaps.c): the allocator holds one heap fd
// for ordinary and one for protected memory, and delegates format
// selection and layout to the shared helpers. Opening the heap and the
// allocation ioctl are represented by their results.
module WsiallocDmaBufHeaps {
  import opened VkTypes
  import opened Wsialloc
  import opened WsiallocHelpers

  /** Outcome of DMA_HEAP_IOCTL_ALLOC: a new fd (positive, as asserted) or an errno value. */
  datatype HeapIoctl = IoctlOk(fd: nat) | IoctlFailed(errno: nat)

  predicate ValidIoctl(outcome: HeapIoctl)
  {
    match outcome
    case IoctlOk(fd) => fd > 0
    case IoctlFailed(errno) => errno > 0
  }

  /** A DMA-BUF heaps allocator. */
  class DmaBufHeapsAllocator {
    var memoryFd: int
    var protectedFd: int

    constructor (memoryFd: int)
      ensures this.memoryFd == memoryFd && protectedFd == -1
    {
      this.memoryFd := memoryFd;
      protectedFd := -1;
    }

    /** The heap fd a request uses: the protected heap for protected requests. */
    function FdToUse(protected: bool): int
      reads this
    {
      if protected then protectedFd else memoryFd
    }

    /**
     * dma_allocate with allocate inlined: -1 when the chosen heap is not
     * open, -errno when the ioctl fails, otherwise the new fd.
     */
    function DmaAllocate(protected: bool, outcome: HeapIoctl): (r: int)
      reads this
      requires ValidIoctl(outcome)
      ensures r < 0 <==> FdToUse(protected) < 0 || outcome.IoctlFailed?
      ensures FdToUse(protected) < 0 ==> r == -1
      ensures FdToUse(protected) >= 0 && outcome.IoctlFailed? ==> r == 0 - outcome.errno as int
      ensures FdToUse(protected) >= 0 && outcome.IoctlOk? ==> r == outcome.fd
    {
      var allocFd := FdToUse(protected);
      if allocFd < 0 then -1
      else match outcome
        case IoctlOk(fd) => fd
        case IoctlFailed(errno) => 0 - errno as int
    }

    /**
     * wsialloc_delete: closes each heap fd that is open (closed lists them
     * in order) and resets both to -1.
     */
    method Delete() returns (closed: seq<int>)
      modifies this
      ensures closed == (if old(memoryFd) >= 0 then [old(memoryFd)] else []) +
                        (if old(protectedFd) >= 0 then [old(protectedFd)] else [])
      ensures memoryFd == -1 && protectedFd == -1
    {
      closed := [];
      if memoryFd >= 0 {
        closed := closed + [memoryFd];
      }
      if protectedFd >= 0 {
        closed := closed + [protectedFd];
      }
      memoryFd := -1;
      protectedFd := -1;
    }

    /**
     * wsialloc_alloc: a request whose heap is not open fails before any
     * parameter check; otherwise the shared allocation runs with
     * dma_allocate as its callback.
     */
    method Alloc(resultNull: bool, info: AllocateInfo, table: seq<FmtSpec>, outcome: HeapIoctl, result0: AllocateResult)
      returns (err: WsiallocError, result: AllocateResult, requestedSize: Option<nat>)
      requires WellFormedTable(table) && WellFormedResult(result0) && ValidIoctl(outcome)
      ensures WellFormedResult(result)
      ensures err != ErrorNone ==> result == result0
      ensures FdToUse(info.flags.protected) < 0 ==> err == ErrorNoResource && requestedSize.None?
      ensures FdToUse(info.flags.protected) >= 0 && !ValidParameters(false, resultNull, info) ==>
        err == ErrorInvalid && requestedSize.None?
      ensures (FdToUse(info.flags.protected) >= 0 && ValidParameters(false, resultNull, info) &&
               FirstSelectable(info.formats, table).None?) ==> err == ErrorNotSupported
      ensures (FdToUse(info.flags.protected) >= 0 && ValidParameters(false, resultNull, info) &&
               FirstSelectable(info.formats, table).Some?) ==>
        var format := info.formats[FirstSelectable(info.formats, table).value];
        var spec := SpecOf(format, table);
        (info.flags.noMemory ==> err == ErrorNone && requestedSize.None? && result.bufferFds == result0.bufferFds) &&
        (!info.flags.noMemory ==>
           requestedSize == Some(LayoutOffset(info.width, info.height, spec, spec.nrPlanes)) &&
           (err == ErrorNone <==> outcome.IoctlOk?) &&
           (err != ErrorNone ==> err == ErrorNoResource) &&
           (err == ErrorNone ==> forall p :: 0 <= p < MAX_PLANES ==>
              result.bufferFds[p] == if p == 0 || p < spec.nrPlanes then outcome.fd else result0.bufferFds[p])) &&
        (err == ErrorNone ==>
           result.format == format && !result.isDisjoint &&
           forall p :: 0 <= p < MAX_PLANES ==>
             result.strides[p] == (if p < spec.nrPlanes then PlaneStride(info.width, spec.bpp[p]) else result0.strides[p]) &&
             result.offsets[p] == (if p < spec.nrPlanes then LayoutOffset(info.width, info.height, spec, p) else result0.offsets[p]))
    {
      if FdToUse(info.flags.protected) < 0 {
        return ErrorNoResource, result0, None;
      }
      err, result, requestedSize :=
        WsiallocpAlloc(false, resultNull, info, table, DmaAllocate(info.flags.protected, outcome), result0);
    }
  }

  /**
   * wsialloc_new: the struct allocation and the open of the heap device are
   * represented by their results. A new allocator has an open ordinary
   * heap and no protected heap.
   */
  method New(mallocOk: bool, openFd: int) returns (err: WsiallocError, allocator: DmaBufHeapsAllocator?)
    ensures err == ErrorNone <==> mallocOk && openFd >= 0
    ensures err != ErrorNone ==> err == ErrorNoResource && allocator == null
    ensures err == ErrorNone ==>
      allocator != null && fresh(allocator) && allocator.memoryFd == openFd && allocator.memoryFd >= 0 &&
      allocator.protectedFd == -1
  {
    if !mallocOk {
      return ErrorNoResource, null;
    }
    if openFd < 0 {
      return ErrorNoResource, null;
    }
    allocator := new DmaBufHeapsAllocator(openFd);
    err := ErrorNone;
  }
}
