// wsi/x11/swapchain.cpp: the X11 swapchain. Its format negotiation and
// its wsialloc allocation are the display backend's (DisplaySwapchain);
// presentation goes through the MIT-SHM presenter. The present event
// thread and the condition-variable waits are outside the model: a
// blocking wait is reported as such instead of being entered.
module X11Swapchain {
  import opened VkTypes
  import opened Wsialloc
  import opened WsiExternalMemory
  import opened ShmPresenter
  import opened Synchronization
  import DisplaySwapchain

  /** X11_SWAPCHAIN_MAX_PENDING_COMPLETIONS. */
  const MAX_PENDING_COMPLETIONS: nat := 128
  const NULL_IMAGE: nat := 0

  /** One swapchain image: its status, its VkImage and its X11 data (null once destroyed). */
  datatype X11Image = X11Image(status: ImageStatus, handle: nat, data: ImageData?)

  /**
   * The result structure allocate_wsialloc hands to wsialloc_alloc: zero
   * format and offsets, every buffer fd and every row stride cleared to -1.
   */
  function X11PresetResult(): (r: AllocateResult)
    ensures WellFormedResult(r)
    ensures forall p :: 0 <= p < Wsialloc.MAX_PLANES ==> r.bufferFds[p] == -1 && r.strides[p] == -1 && r.offsets[p] == 0
  {
    AllocateResult(Format(0, 0, false), [-1, -1, -1, -1], [0, 0, 0, 0], [-1, -1, -1, -1], false)
  }

  /** Every image still has its data (the drain dereferences it). */
  predicate AllHaveData(images: seq<X11Image>)
  {
    forall i :: 0 <= i < |images| ==> images[i].data != null
  }

  /** The data objects of the images. */
  function DataObjects(images: seq<X11Image>): set<object>
  {
    set i | 0 <= i < |images| && images[i].data != null :: images[i].data
  }

  /** The pixmap of each image. */
  function PixmapsOf(images: seq<X11Image>): (px: seq<nat>)
    requires AllHaveData(images)
    reads DataObjects(images)
    ensures |px| == |images| && forall i :: 0 <= i < |images| ==> px[i] == images[i].data.pixmap
  {
    if images == [] then []
    else PixmapsOf(images[..|images| - 1]) + [images[|images| - 1].data.pixmap]
  }

  /** unpresent_image for every image whose pixmap is the given one. */
  function WithPixmapFreed(images: seq<X11Image>, pixmaps: seq<nat>, pixmap: nat): (r: seq<X11Image>)
    requires |pixmaps| == |images|
    ensures |r| == |images|
    ensures forall i :: 0 <= i < |images| ==>
      r[i] == (if pixmaps[i] == pixmap then images[i].(status := Free) else images[i])
  {
    seq(|images|, i requires 0 <= i < |images| =>
      if pixmaps[i] == pixmap then images[i].(status := Free) else images[i])
  }

  /** The images after the free-buffer pool is drained front to back. */
  function Drained(images: seq<X11Image>, pixmaps: seq<nat>, pool: seq<nat>): (r: seq<X11Image>)
    requires |pixmaps| == |images|
    ensures |r| == |images|
    decreases |pool|
  {
    if pool == [] then images else Drained(WithPixmapFreed(images, pixmaps, pool[0]), pixmaps, pool[1..])
  }

  /**
   * Draining frees exactly the images whose pixmap is somewhere in the
   * pool, whatever the order and repetition of the pool, and leaves the
   * other images as they were.
   */
  lemma {:induction false} DrainedMeaning(images: seq<X11Image>, pixmaps: seq<nat>, pool: seq<nat>)
    requires |pixmaps| == |images|
    ensures forall i :: 0 <= i < |images| ==>
      Drained(images, pixmaps, pool)[i] == (if pixmaps[i] in pool then images[i].(status := Free) else images[i])
    decreases |pool|
  {
    if pool != [] {
      var next := WithPixmapFreed(images, pixmaps, pool[0]);
      DrainedMeaning(next, pixmaps, pool[1..]);
      forall i | 0 <= i < |images|
        ensures Drained(images, pixmaps, pool)[i] == (if pixmaps[i] in pool then images[i].(status := Free) else images[i])
      {
        assert pixmaps[i] in pool <==> pixmaps[i] == pool[0] || pixmaps[i] in pool[1..] by {
          assert pool == [pool[0]] + pool[1..];
        }
      }
    }
  }

  /** Whether some image is FREE. */
  predicate AnyFree(images: seq<X11Image>)
  {
    exists i :: 0 <= i < |images| && images[i].status == Free
  }

  /** The image destroy_image leaves: INVALID, its VkImage released if it was valid, its data gone. */
  function AfterDestroy(img: X11Image): (r: X11Image)
    ensures r.status == Invalid && r.data == null
    ensures img.status != Invalid ==> r.handle == NULL_IMAGE
  {
    X11Image(Invalid, if img.status != Invalid then NULL_IMAGE else img.handle, null)
  }

  /** The VkImage destroy_image destroys, if any: only a valid image's non-null handle. */
  function DestroyedHandle(img: X11Image): (r: Option<nat>)
    ensures img.status == Invalid ==> r.None?
    ensures r.Some? ==> r.value == img.handle && r.value != NULL_IMAGE && AfterDestroy(img).handle == NULL_IMAGE
  {
    if img.status != Invalid && img.handle != NULL_IMAGE then Some(img.handle) else None
  }

  /** A second destroy_image changes nothing and destroys nothing. */
  lemma DestroyTwiceIsNoOp(img: X11Image)
    ensures AfterDestroy(AfterDestroy(img)) == AfterDestroy(img)
    ensures DestroyedHandle(AfterDestroy(img)) == None && AfterDestroy(img).data == null
  {
  }

  class X11Swapchain {
    var images: seq<X11Image>
    const presentMode: PresentMode
    var presenter: ShmPresenter?
    var hasAllocator: bool
    /** m_present_event_thread_run. */
    var threadRun: bool
    /** m_send_sbc, a uint64 that never wraps in practice. */
    var sendSbc: nat
    /** The pixmaps released by the server, oldest first. */
    var freeBufferPool: seq<nat>
    /** The last present id handed to the present-id extension. */
    var lastPresentId: nat
    var imageCreateInfo: DisplaySwapchain.ImageCreateInfo
    var allocatedFormat: Format
    /** The image compression control flags the swapchain was created with. */
    var compressionFlags: bv32

    /** The swapchain as constructed: the base's images, no presenter, no serial sent yet. */
    constructor (mode: PresentMode, imgs: seq<X11Image>, info: DisplaySwapchain.ImageCreateInfo, flags: bv32)
      ensures presentMode == mode && images == imgs && presenter == null && !hasAllocator && !threadRun
      ensures sendSbc == 0 && freeBufferPool == [] && compressionFlags == flags
      ensures imageCreateInfo == info.(format := DisplaySwapchain.VK_FORMAT_UNDEFINED)
    {
      presentMode := mode;
      images := imgs;
      presenter := null;
      hasAllocator := false;
      threadRun := false;
      sendSbc := 0;
      freeBufferPool := [];
      lastPresentId := 0;
      imageCreateInfo := info.(format := DisplaySwapchain.VK_FORMAT_UNDEFINED);
      allocatedFormat := Format(0, 0, false);
      compressionFlags := flags;
    }

    /**
     * init_platform: a surface is needed, then the wsialloc allocator, the
     * SHM presenter (allocated, available on the surface, initialised) and
     * the event thread; any failure is INITIALIZATION_FAILED and leaves
     * the caller's flag unset. On success the presentation thread is used
     * unless the mode is MAILBOX.
     */
    method InitPlatform(surfaceOk: bool, newResult: WsiallocError, presenterAllocOk: bool, shmAvailable: bool,
                        formats: seq<PixmapFormat>, fence: FenceSetup, threadOk: bool)
      returns (r: VkResult, usePresentationThread: Option<bool>)
      modifies this
      ensures r == Success || r == ErrorInitializationFailed
      ensures r == Success <==> surfaceOk && newResult == ErrorNone && presenterAllocOk && shmAvailable && threadOk
      ensures r == Success ==> usePresentationThread == Some(presentMode != Mailbox)
      ensures r != Success ==> usePresentationThread.None?
      ensures hasAllocator <==> old(hasAllocator) || (surfaceOk && newResult == ErrorNone)
      ensures presenter != old(presenter) ==> presenter != null && fresh(presenter) && presenter.LutValid()
      ensures r == Success ==> presenter != null && threadRun
      ensures images == old(images) && sendSbc == old(sendSbc) && freeBufferPool == old(freeBufferPool)
    {
      usePresentationThread := None;
      if !surfaceOk {
        return ErrorInitializationFailed, usePresentationThread;
      }
      if newResult != ErrorNone {
        return ErrorInitializationFailed, usePresentationThread;
      }
      hasAllocator := true;
      if !presenterAllocOk {
        return ErrorInitializationFailed, usePresentationThread;
      }
      var p := new ShmPresenter();
      presenter := p;
      if !shmAvailable {
        return ErrorInitializationFailed, usePresentationThread;
      }
      var initResult := p.Init(formats, fence);
      if !threadOk {
        return ErrorInitializationFailed, usePresentationThread;
      }
      threadRun := true;
      usePresentationThread := Some(presentMode != Mailbox);
      r := Success;
    }

    /**
     * allocate_image: allocate the cached format again (pushOk: whether the
     * one-entry candidate vector could be built) with the X11 preset
     * result, and cache what the allocator returns.
     */
    method AllocateImage(data: ImageData, pushOk: bool, alloc: DisplaySwapchain.Allocator) returns (r: VkResult)
      requires data.externalMem.Valid() && DisplaySwapchain.KeepsShape(alloc)
      modifies this, data.externalMem
      ensures data.externalMem.Valid()
      ensures images == old(images) && imageCreateInfo == old(imageCreateInfo) && sendSbc == old(sendSbc)
      ensures !pushOk ==> r == ErrorOutOfHostMemory && allocatedFormat == old(allocatedFormat) && unchanged(data.externalMem)
      ensures pushOk ==>
        var req := DisplaySwapchain.AllocationRequest(old(imageCreateInfo), [old(allocatedFormat)], false, Some(compressionFlags));
        var out := alloc(req, X11PresetResult());
        r == DisplaySwapchain.AllocationResult(out.0) &&
        allocatedFormat == (if r == Success then out.1.format else old(allocatedFormat)) &&
        (r == Success ==>
          data.externalMem.bufferFds == out.1.bufferFds && data.externalMem.strides == out.1.strides &&
          data.externalMem.numMemories == DisplaySwapchain.NumMemoryPlanes(out.1.bufferFds, data.externalMem.numPlanes) &&
          (DisplaySwapchain.ReportsDisjointness(out.1, data.externalMem.numPlanes) ==>
             (data.externalMem.IsDisjoint() <==> out.1.isDisjoint || data.externalMem.numMemories == 0)))
    {
      if !pushOk {
        return ErrorOutOfHostMemory;
      }
      var fmt;
      r, fmt := DisplaySwapchain.AllocateWsialloc(imageCreateInfo, data.externalMem, [allocatedFormat], allocatedFormat,
                                                  false, Some(compressionFlags), alloc, X11PresetResult());
      allocatedFormat := fmt;
    }

    /**
     * present_image without blocking: with the image's completion queue
     * full and the event thread stopped, only the present id is recorded;
     * otherwise the serial advances and the SHM presenter shows the image.
     * Either way the image is unpresented, whatever the presenter reported.
     */
    method PresentImage(index: nat, presentId: nat, presentIdEnabled: bool, mapped: Option<nat>, rowPitch: nat)
      returns (serial: Option<nat>, presentResult: Option<VkResult>)
      requires index < |images| && images[index].data != null && presenter != null
      requires images[index].data.pendingCompletions < MAX_PENDING_COMPLETIONS || !threadRun
      requires presenter.LutValid() && images[index].data.SizedByWidth()
      modifies this, presenter, images[index].data
      ensures presenter == old(presenter) && threadRun == old(threadRun) && freeBufferPool == old(freeBufferPool)
      ensures images == old(images)[index := old(images[index]).(status := Free)]
      ensures lastPresentId == (if presentIdEnabled then presentId else old(lastPresentId))
      ensures old(images[index].data.pendingCompletions) >= MAX_PENDING_COMPLETIONS ==>
        sendSbc == old(sendSbc) && serial.None? && presentResult.None? && unchanged(presenter)
      ensures old(images[index].data.pendingCompletions) < MAX_PENDING_COMPLETIONS ==>
        sendSbc == old(sendSbc) + 1 && serial == Some(sendSbc % UINT32_LIMIT) && presentResult.Some?
    {
      var data := images[index].data;
      if data.pendingCompletions >= MAX_PENDING_COMPLETIONS {
        if presentIdEnabled {
          lastPresentId := presentId;
        }
        images := images[index := images[index].(status := Free)];
        return None, None;
      }
      sendSbc := sendSbc + 1;
      serial := Some(sendSbc % UINT32_LIMIT);
      var r, copy := presenter.PresentImage(data, mapped, rowPitch);
      presentResult := Some(r);
      if presentIdEnabled {
        lastPresentId := presentId;
      }
      images := images[index := images[index].(status := Free)];
    }

    /**
     * unpresent_image for every image whose pixmap is the one popped from
     * the pool.
     */
    method UnpresentPixmap(pixmap: nat, ghost pixmaps: seq<nat>)
      requires AllHaveData(images) && pixmaps == PixmapsOf(images)
      modifies this
      ensures images == WithPixmapFreed(old(images), pixmaps, pixmap)
      ensures AllHaveData(images) && PixmapsOf(images) == pixmaps
      ensures freeBufferPool == old(freeBufferPool) && presenter == old(presenter) && threadRun == old(threadRun)
      ensures sendSbc == old(sendSbc) && lastPresentId == old(lastPresentId)
    {
      var imgs := images;
      var i := 0;
      while i < |imgs|
        invariant i <= |imgs| == |images| == |pixmaps|
        invariant forall j :: 0 <= j < |imgs| ==> imgs[j].data == images[j].data
        invariant forall j :: 0 <= j < i ==>
          imgs[j] == (if pixmaps[j] == pixmap then images[j].(status := Free) else images[j])
        invariant forall j :: i <= j < |imgs| ==> imgs[j] == images[j]
      {
        if imgs[i].data.pixmap == pixmap {
          imgs := imgs[i := imgs[i].(status := Free)];
        }
        i := i + 1;
      }
      images := imgs;
      assert AllHaveData(images);
      assert PixmapsOf(images) == pixmaps;
    }

    /**
     * free_image_found: drain the free-buffer pool, unpresenting the images
     * whose pixmaps it names, then report whether any image is FREE.
     */
    method FreeImageFound() returns (found: bool)
      requires AllHaveData(images)
      modifies this
      ensures freeBufferPool == []
      ensures images == Drained(old(images), old(PixmapsOf(images)), old(freeBufferPool))
      ensures found <==> AnyFree(images)
      ensures presenter == old(presenter) && threadRun == old(threadRun)
      ensures sendSbc == old(sendSbc) && lastPresentId == old(lastPresentId)
    {
      ghost var pixmaps := PixmapsOf(images);
      while |freeBufferPool| > 0
        invariant AllHaveData(images) && PixmapsOf(images) == pixmaps
        invariant Drained(images, pixmaps, freeBufferPool) == Drained(old(images), pixmaps, old(freeBufferPool))
        invariant presenter == old(presenter) && threadRun == old(threadRun)
        invariant sendSbc == old(sendSbc) && lastPresentId == old(lastPresentId)
        decreases |freeBufferPool|
      {
        var pixmap := freeBufferPool[0];
        freeBufferPool := freeBufferPool[1..];
        UnpresentPixmap(pixmap, pixmaps);
      }
      found := false;
      var i := 0;
      while i < |images|
        invariant i <= |images|
        invariant forall j :: 0 <= j < i ==> images[j].status != Free
      {
        if images[i].status == Free {
          return true;
        }
        i := i + 1;
      }
    }

    /**
     * get_free_buffer up to its first wait: with a zero timeout it answers
     * SUCCESS iff an image is FREE after the drain, else NOT_READY; with
     * any other timeout a found image is SUCCESS (and the timeout is
     * zeroed), a stopped event thread is OUT_OF_DATE, and otherwise the
     * call would wait on the condition variable (None).
     */
    method GetFreeBuffer(timeout: nat) returns (r: Option<VkResult>, timeout': nat)
      requires AllHaveData(images)
      modifies this
      ensures freeBufferPool == []
      ensures images == Drained(old(images), old(PixmapsOf(images)), old(freeBufferPool))
      ensures timeout == 0 ==> r == Some(if AnyFree(images) then Success else NotReady) && timeout' == 0
      ensures timeout != 0 && AnyFree(images) ==> r == Some(Success) && timeout' == 0
      ensures timeout != 0 && !AnyFree(images) ==>
        timeout' == timeout && r == (if threadRun then None else Some(ErrorOutOfDate))
      ensures threadRun == old(threadRun) && sendSbc == old(sendSbc)
    {
      var found := FreeImageFound();
      if timeout == 0 {
        return Some(if found then Success else NotReady), timeout;
      }
      if !found {
        if !threadRun {
          return Some(ErrorOutOfDate), timeout;
        }
        return None, timeout;
      }
      r, timeout' := Some(Success), 0;
    }

    /**
     * destroy_image: a valid image has its VkImage destroyed and becomes
     * INVALID; its data has its SHM resources released (when there is a
     * presenter) and is then freed, its destructors releasing its external
     * memory and its present fence.
     */
    method DestroyImage(index: nat) returns (destroyedImage: Option<nat>, released: seq<CleanupAction>, fenceCalls: seq<FenceCall>)
      requires index < |images|
      requires images[index].data != null ==> images[index].data.externalMem.Valid()
      modifies this, presenter, images[index].data
      ensures images == old(images)[index := AfterDestroy(old(images[index]))]
      ensures destroyedImage == DestroyedHandle(old(images[index]))
      ensures presenter == old(presenter) && sendSbc == old(sendSbc) && threadRun == old(threadRun)
      ensures var d := old(images[index].data);
        presenter != null && d != null ==>
          presenter.log == old(presenter.log) + ReleaseCalls(old(d.shmSeg), old(d.shmSegAlt), old(d.shmAddr), old(d.shmAddrAlt))
      ensures presenter != null && old(images[index].data) == null ==> unchanged(presenter)
      ensures var d := old(images[index].data);
        (d != null ==>
           released == d.externalMem.DestructionActions() && fenceCalls == DestructionCalls(d.presentFence.State())) &&
        (d == null ==> released == [] && fenceCalls == [])
    {
      var img := images[index];
      destroyedImage := DestroyedHandle(img);
      released, fenceCalls := [], [];
      images := images[index := AfterDestroy(img)];
      if img.data != null {
        if presenter != null {
          presenter.DestroyImageResources(img.data);
        }
        released := img.data.externalMem.Destroy();
        fenceCalls := img.data.presentFence.Destroy();
      }
    }
  }
}
