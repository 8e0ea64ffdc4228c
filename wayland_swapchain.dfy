// wsi/wayland/swapchain.cpp: the Wayland swapchain's images, their
// dmabuf-backed memory and wl_buffers, the FIFO frame-callback wait and
// the wait for a buffer the compositor has released. Every Vulkan,
// Wayland and allocator call is represented by its result; the calls
// that release something are recorded in the swapchain's log.
module WaylandSwapchain {
  import opened VkTypes

  /** VK_NULL_HANDLE, and the null wl_buffer. */
  const NULL_HANDLE: nat := 0

  /** wayland_image_data: the wl_buffer, the dmabuf fd, the imported memory and the plane layout. */
  datatype ImageData = ImageData(buffer: nat, bufferFd: int, memory: nat, stride: int, offset: nat)

  /** swapchain_image as the Wayland backend uses it; data is None for a null pointer. */
  datatype Image = Image(status: ImageStatus, image: nat, presentFence: nat, data: Option<ImageData>)

  /** The release calls the swapchain makes. */
  datatype ReleaseCall =
    | DestroyFence(fence: nat)
    | DestroyImage(image: nat)
    | DestroyBuffer(buffer: nat)
    | FreeMemory(memory: nat)
    | CloseFd(fd: int)

  /** The releases destroy_image makes for the memory behind an image's data. */
  function MemoryRelease(d: ImageData): (calls: seq<ReleaseCall>)
    ensures |calls| <= 1
  {
    if d.memory != NULL_HANDLE then [FreeMemory(d.memory)]
    else if d.bufferFd >= 0 then [CloseFd(d.bufferFd)]
    else []
  }

  /** The releases destroy_image makes for a valid image's handles: its fence, then its VkImage. */
  function HandleRelease(img: Image): (calls: seq<ReleaseCall>)
    ensures forall c :: c in calls ==> c.DestroyFence? || c.DestroyImage?
  {
    if img.status != Invalid then
      (if img.presentFence != NULL_HANDLE then [DestroyFence(img.presentFence)] else []) +
      (if img.image != NULL_HANDLE then [DestroyImage(img.image)] else [])
    else []
  }

  /** The releases destroy_image makes for an image's data: its wl_buffer, then its memory or fd. */
  function DataRelease(data: Option<ImageData>): (calls: seq<ReleaseCall>)
    ensures forall c :: c in calls ==> c.DestroyBuffer? || c.FreeMemory? || c.CloseFd?
  {
    match data
    case None => []
    case Some(d) => (if d.buffer != NULL_HANDLE then [DestroyBuffer(d.buffer)] else []) + MemoryRelease(d)
  }

  /**
   * The release calls destroy_image makes: the fence and the VkImage of a
   * valid image, then the data's wl_buffer and either its imported memory
   * or, when nothing was imported, its fd.
   */
  function DestroyCalls(img: Image): (calls: seq<ReleaseCall>)
  {
    HandleRelease(img) + DataRelease(img.data)
  }

  /** The image as destroy_image leaves it: INVALID, without data, its handles nulled if it was valid. */
  function Destroyed(img: Image): (d: Image)
    ensures d.status == Invalid && d.data.None?
  {
    if img.status != Invalid then Image(Invalid, NULL_HANDLE, NULL_HANDLE, None)
    else Image(Invalid, img.image, img.presentFence, None)
  }

  /**
   * destroy_image releases what the image holds: the memory is freed when
   * it was imported, and only otherwise is the fd closed (the import hands
   * the fd to the driver), so the fd is never released twice.
   */
  lemma DestroyCallsMeaning(img: Image)
    ensures forall m :: FreeMemory(m) in DestroyCalls(img) <==>
      img.data.Some? && img.data.value.memory == m && m != NULL_HANDLE
    ensures forall fd :: CloseFd(fd) in DestroyCalls(img) <==>
      img.data.Some? && img.data.value.memory == NULL_HANDLE && img.data.value.bufferFd == fd && fd >= 0
    ensures forall b :: DestroyBuffer(b) in DestroyCalls(img) <==>
      img.data.Some? && img.data.value.buffer == b && b != NULL_HANDLE
    ensures forall i :: DestroyImage(i) in DestroyCalls(img) <==>
      img.status != Invalid && img.image == i && i != NULL_HANDLE
    ensures forall m, fd :: !(FreeMemory(m) in DestroyCalls(img) && CloseFd(fd) in DestroyCalls(img))
  {
    var h := HandleRelease(img);
    var dr := DataRelease(img.data);
    assert DestroyCalls(img) == h + dr;
    if img.data.Some? {
      var d := img.data.value;
      var bufferPart: seq<ReleaseCall> := if d.buffer != NULL_HANDLE then [DestroyBuffer(d.buffer)] else [];
      assert dr == bufferPart + MemoryRelease(d);
    }
  }

  /** A second destroy_image finds nothing left to release. */
  lemma DestroyTwiceReleasesNothing(img: Image)
    ensures DestroyCalls(Destroyed(img)) == []
    ensures Destroyed(Destroyed(img)) == Destroyed(img)
  {
  }

  /** VkExtent3D. */
  datatype Extent3D = Extent3D(width: nat, height: nat, depth: nat)

  /** The parts of VkImageCreateInfo allocate_image checks. */
  datatype ImageCreateInfo = ImageCreateInfo(extent: Extent3D, mipLevels: nat, arrayLayers: nat, samples: bv32)

  /** What vkGetPhysicalDeviceImageFormatProperties2KHR reports for the DRM-modifier tiled image. */
  datatype FormatSupport = FormatSupport(
    result: VkResult, maxExtent: Extent3D, maxMipLevels: nat, maxArrayLayers: nat,
    sampleCounts: bv32, importable: bool)

  /** Every sample-count bit the image asks for is one the device supports. */
  predicate SampleCountSupported(sampleCounts: bv32, samples: bv32)
  {
    sampleCounts & samples == samples
  }

  /** The device supports the image: the query succeeded and every limit and the import feature allow it. */
  predicate Supports(info: ImageCreateInfo, s: FormatSupport)
  {
    s.result == Success &&
    info.extent.width <= s.maxExtent.width && info.extent.height <= s.maxExtent.height &&
    info.extent.depth <= s.maxExtent.depth &&
    info.mipLevels <= s.maxMipLevels && info.arrayLayers <= s.maxArrayLayers &&
    SampleCountSupported(s.sampleCounts, info.samples) &&
    s.importable
  }

  /** What the dmabuf allocator returns: whether it succeeded, and the stride, fd and offset. */
  datatype Allocation = Allocation(ok: bool, stride: nat, fd: nat, offset: nat)

  /** The driver's answers while allocate_image creates the image and imports the dmabuf. */
  datatype ImportCalls = ImportCalls(
    createImage: VkResult, newImage: nat,
    fdProperties: VkResult, memoryTypeBits: bv32,
    sizeOk: bool,
    allocateMemory: VkResult, newMemory: nat,
    bindImageMemory: VkResult)

  /** allocate_image got as far as creating the VkImage. */
  predicate ImageCreated(info: ImageCreateInfo, s: FormatSupport, a: Allocation, d: ImportCalls)
  {
    Supports(info, s) && a.ok && d.createImage == Success
  }

  /** allocate_image got as far as importing the dmabuf as device memory. */
  predicate MemoryImported(info: ImageCreateInfo, s: FormatSupport, a: Allocation, d: ImportCalls)
  {
    ImageCreated(info, s, a, d) && d.fdProperties == Success && d.sizeOk && d.allocateMemory == Success
  }

  /**
   * The second half of allocate_image, once the dmabuf is allocated: the
   * VkImage is created over it, the fd's memory types queried, the dmabuf
   * size found, and the fd imported as memory and bound. The result, the
   * image data and the VkImage handle the driver wrote, if it wrote one.
   */
  function ImportOutcome(a: Allocation, d: ImportCalls): (r: (VkResult, ImageData, Option<nat>))
    ensures r.0 == Success <==> (d.createImage == Success && d.fdProperties == Success && d.sizeOk &&
      d.allocateMemory == Success && d.bindImageMemory == Success)
    ensures d.createImage == Success && d.fdProperties == Success && !d.sizeOk ==> r.0 == ErrorOutOfHostMemory
    ensures r.1.buffer == NULL_HANDLE && r.1.bufferFd == a.fd && r.1.stride == a.stride && r.1.offset == a.offset
    ensures r.1.memory == if d.createImage == Success && d.fdProperties == Success && d.sizeOk &&
      d.allocateMemory == Success then d.newMemory else NULL_HANDLE
    ensures r.2 == if d.createImage == Success then Some(d.newImage) else None
  {
    var withFd := ImageData(NULL_HANDLE, a.fd, NULL_HANDLE, a.stride, a.offset);
    if d.createImage != Success then (d.createImage, withFd, None)
    else if d.fdProperties != Success then (d.fdProperties, withFd, Some(d.newImage))
    else if !d.sizeOk then (ErrorOutOfHostMemory, withFd, Some(d.newImage))
    else if d.allocateMemory != Success then (d.allocateMemory, withFd, Some(d.newImage))
    else (d.bindImageMemory, withFd.(memory := d.newMemory), Some(d.newImage))
  }

  /**
   * allocate_image: the result, the image data it leaves (buffer, fd and
   * memory start null, -1 and null) and the VkImage handle the driver
   * wrote, if it wrote one.
   */
  function AllocateOutcome(info: ImageCreateInfo, s: FormatSupport, a: Allocation, d: ImportCalls)
    : (r: (VkResult, ImageData, Option<nat>))
    ensures r.0 == Success <==> MemoryImported(info, s, a, d) && d.bindImageMemory == Success
    ensures s.result != Success ==> r.0 == s.result
    ensures s.result == Success && !Supports(info, s) ==> r.0 == ErrorInitializationFailed
    ensures Supports(info, s) && !a.ok ==> r.0 == ErrorOutOfHostMemory
    ensures r.1.buffer == NULL_HANDLE
    ensures r.1.bufferFd == if Supports(info, s) && a.ok then a.fd else -1
    ensures r.1.memory == if MemoryImported(info, s, a, d) then d.newMemory else NULL_HANDLE
    ensures r.2 == if ImageCreated(info, s, a, d) then Some(d.newImage) else None
  {
    var blank := ImageData(NULL_HANDLE, -1, NULL_HANDLE, 0, 0);
    if s.result != Success then (s.result, blank, None)
    else if !Supports(info, s) then (ErrorInitializationFailed, blank, None)
    else if !a.ok then (ErrorOutOfHostMemory, blank, None)
    else ImportOutcome(a, d)
  }

  /**
   * The import half of allocate_image as the source runs it, including
   * the memory-type scan: the lowest type the fd allows.
   */
  method ImportDmaBuf(a: Allocation, d: ImportCalls)
    returns (r: VkResult, data: ImageData, image: Option<nat>, memoryTypeIndex: Option<nat>)
    ensures (r, data, image) == ImportOutcome(a, d)
    ensures memoryTypeIndex.Some? <==> d.createImage == Success && d.fdProperties == Success
    ensures memoryTypeIndex.Some? ==> memoryTypeIndex.value <= MAX_MEMORY_TYPES
    ensures memoryTypeIndex.Some? && memoryTypeIndex.value < MAX_MEMORY_TYPES ==>
      HasBit(d.memoryTypeBits, memoryTypeIndex.value)
    ensures memoryTypeIndex.Some? ==>
      forall j :: 0 <= j < memoryTypeIndex.value && j < MAX_MEMORY_TYPES ==> !HasBit(d.memoryTypeBits, j)
  {
    data := ImageData(NULL_HANDLE, a.fd, NULL_HANDLE, a.stride, a.offset);
    image := None;
    memoryTypeIndex := None;
    if d.createImage != Success {
      return d.createImage, data, image, memoryTypeIndex;
    }
    image := Some(d.newImage);
    if d.fdProperties != Success {
      return d.fdProperties, data, image, memoryTypeIndex;
    }
    var idx := LowestSetBit(d.memoryTypeBits);
    memoryTypeIndex := Some(idx);
    if !d.sizeOk {
      return ErrorOutOfHostMemory, data, image, memoryTypeIndex;
    }
    if d.allocateMemory != Success {
      return d.allocateMemory, data, image, memoryTypeIndex;
    }
    data := data.(memory := d.newMemory);
    r := d.bindImageMemory;
  }

  /**
   * The format-support checks of allocate_image, limit by limit: the
   * query's own error, else INITIALIZATION_FAILED for an extent, mip
   * level, array layer or sample count beyond the device's limits or a
   * missing import feature, else SUCCESS.
   */
  method CheckFormatSupport(info: ImageCreateInfo, s: FormatSupport) returns (r: VkResult)
    ensures r == Success <==> Supports(info, s)
    ensures s.result != Success ==> r == s.result
    ensures s.result == Success && !Supports(info, s) ==> r == ErrorInitializationFailed
  {
    if s.result != Success {
      return s.result;
    }
    if info.extent.width > s.maxExtent.width || info.extent.height > s.maxExtent.height ||
       info.extent.depth > s.maxExtent.depth {
      return ErrorInitializationFailed;
    }
    if info.mipLevels > s.maxMipLevels || info.arrayLayers > s.maxArrayLayers {
      return ErrorInitializationFailed;
    }
    if !SampleCountSupported(s.sampleCounts, info.samples) {
      return ErrorInitializationFailed;
    }
    if !s.importable {
      return ErrorInitializationFailed;
    }
    r := Success;
  }

  /**
   * allocate_image as the source runs it: buffer, fd and memory are reset,
   * the format support checked, the dmabuf allocated, then imported.
   */
  method AllocateImage(info: ImageCreateInfo, s: FormatSupport, a: Allocation, d: ImportCalls)
    returns (r: VkResult, data: ImageData, image: Option<nat>, memoryTypeIndex: Option<nat>)
    ensures (r, data, image) == AllocateOutcome(info, s, a, d)
    ensures memoryTypeIndex.Some? <==> ImageCreated(info, s, a, d) && d.fdProperties == Success
  {
    data := ImageData(NULL_HANDLE, -1, NULL_HANDLE, 0, 0);
    image := None;
    memoryTypeIndex := None;
    r := CheckFormatSupport(info, s);
    if r != Success {
      return r, data, image, memoryTypeIndex;
    }
    if !a.ok {
      return ErrorOutOfHostMemory, data, image, memoryTypeIndex;
    }
    r, data, image, memoryTypeIndex := ImportDmaBuf(a, d);
  }

  /** The compositor's and the driver's answers in create_image after allocate_image. */
  datatype CreateCalls = CreateCalls(
    dataAllocOk: bool, paramsListenerOk: bool, roundtripOk: bool, newBuffer: nat,
    bufferListenerOk: bool, createFence: VkResult, newFence: nat)

  /**
   * create_image up to its out label: the result and the image as built
   * so far. The image data is withFd and the image made FREE, the
   * memory withFd, then a wl_buffer is created through the dmabuf
   * protocol (delivered by the roundtrip), given its listener, and the
   * present fence created.
   */
  function CreateOutcome(img0: Image, info: ImageCreateInfo, s: FormatSupport, a: Allocation, d: ImportCalls,
                         c: CreateCalls): (r: (VkResult, Image))
    ensures !c.dataAllocOk ==> r == (ErrorOutOfHostMemory, img0)
    ensures r.0 == Success <==>
      c.dataAllocOk && AllocateOutcome(info, s, a, d).0 == Success && c.paramsListenerOk && c.roundtripOk &&
      c.bufferListenerOk && c.createFence == Success
    ensures c.dataAllocOk ==> r.1.status == Free && r.1.data.Some?
    ensures r.1.presentFence == if r.0 == Success then c.newFence else img0.presentFence
  {
    if !c.dataAllocOk then (ErrorOutOfHostMemory, img0)
    else
      var (ar, data, image) := AllocateOutcome(info, s, a, d);
      var built := Image(Free, if image.Some? then image.value else img0.image, img0.presentFence, Some(data));
      if ar != Success then (ar, built)
      else if !c.paramsListenerOk || !c.roundtripOk then (ErrorInitializationFailed, built)
      else
        var withBuffer := built.(data := Some(data.(buffer := c.newBuffer)));
        if !c.bufferListenerOk then (ErrorInitializationFailed, withBuffer)
        else if c.createFence != Success then (c.createFence, withBuffer)
        else (Success, withBuffer.(presentFence := c.newFence))
  }

  /** The handles the driver and the compositor return for what they create are not null. */
  predicate NonNullHandles(a: Allocation, d: ImportCalls, c: CreateCalls)
  {
    d.newImage != NULL_HANDLE && d.newMemory != NULL_HANDLE && c.newBuffer != NULL_HANDLE && c.newFence != NULL_HANDLE
  }

  /**
   * A create_image that succeeds leaves a FREE image holding every
   * resource it made: the VkImage, the fence, the wl_buffer, the fd and
   * the imported memory.
   */
  lemma CreateSuccess(img0: Image, info: ImageCreateInfo, s: FormatSupport, a: Allocation, d: ImportCalls,
                      c: CreateCalls)
    requires CreateOutcome(img0, info, s, a, d, c).0 == Success
    ensures var img := CreateOutcome(img0, info, s, a, d, c).1;
      img.status == Free && img.image == d.newImage && img.presentFence == c.newFence &&
      img.data == Some(ImageData(c.newBuffer, a.fd, d.newMemory, a.stride, a.offset))
  {
  }

  /**
   * A create_image that fails leaks nothing it made: destroying the half
   * built image releases the VkImage if it was created, the wl_buffer if
   * one arrived, and the imported memory if the import happened, else the
   * withFd fd.
   */
  lemma CreateFailureReleasesEverything(img0: Image, info: ImageCreateInfo, s: FormatSupport, a: Allocation,
                                        d: ImportCalls, c: CreateCalls)
    requires NonNullHandles(a, d, c)
    requires CreateOutcome(img0, info, s, a, d, c).0 != Success && c.dataAllocOk
    ensures var calls := DestroyCalls(CreateOutcome(img0, info, s, a, d, c).1);
      (ImageCreated(info, s, a, d) ==> DestroyImage(d.newImage) in calls) &&
      (MemoryImported(info, s, a, d) ==> FreeMemory(d.newMemory) in calls) &&
      (Supports(info, s) && a.ok && !MemoryImported(info, s, a, d) ==> CloseFd(a.fd) in calls) &&
      (MemoryImported(info, s, a, d) && d.bindImageMemory == Success && c.paramsListenerOk && c.roundtripOk ==>
         DestroyBuffer(c.newBuffer) in calls)
  {
    var img := CreateOutcome(img0, info, s, a, d, c).1;
    DestroyCallsMeaning(img);
  }

  /** One dispatch of the surface queue while waiting for the frame callback. */
  datatype FrameDispatch = FrameDispatch(res: int, frameDone: bool)

  /** A dispatch that ends the wait: an error or timeout, or the frame callback arriving. */
  predicate EndsFrameWait(o: FrameDispatch)
  {
    o.res <= 0 || o.frameDone
  }

  /** The dispatch on which the frame wait stops. */
  function FrameWaitTurns(outcomes: seq<FrameDispatch>): (r: nat)
    requires exists k :: 0 <= k < |outcomes| && EndsFrameWait(outcomes[k])
    ensures r < |outcomes| && EndsFrameWait(outcomes[r]) && forall k :: 0 <= k < r ==> !EndsFrameWait(outcomes[k])
  {
    if EndsFrameWait(outcomes[0]) then 0
    else
      assert exists k :: 0 <= k < |outcomes[1..]| && EndsFrameWait(outcomes[1..][k]) by {
        var k :| 0 <= k < |outcomes| && EndsFrameWait(outcomes[k]);
        assert k > 0 && outcomes[1..][k - 1] == outcomes[k];
      }
      var r := FrameWaitTurns(outcomes[1..]);
      assert forall k :: 1 <= k < r + 1 ==> outcomes[k] == outcomes[1..][k - 1];
      r + 1
  }

  /**
   * The wait in present_image: dispatch until an error or timeout, or
   * until the frame callback has cleared the pending flag. It returns
   * whether the last dispatch succeeded and whether a frame is still
   * pending.
   */
  method WaitForFrame(outcomes: seq<FrameDispatch>) returns (ok: bool, pending: bool)
    requires exists k :: 0 <= k < |outcomes| && EndsFrameWait(outcomes[k])
    ensures ok <==> outcomes[FrameWaitTurns(outcomes)].res > 0
    ensures pending <==> !outcomes[FrameWaitTurns(outcomes)].frameDone
    ensures ok ==> !pending
  {
    pending := true;
    var turn := 0;
    var res := outcomes[0].res;
    if outcomes[0].frameDone {
      pending := false;
    }
    while res > 0 && pending
      invariant turn <= FrameWaitTurns(outcomes)
      invariant res == outcomes[turn].res && (pending <==> !outcomes[turn].frameDone)
      decreases FrameWaitTurns(outcomes) - turn
    {
      turn := turn + 1;
      res := outcomes[turn].res;
      if outcomes[turn].frameDone {
        pending := false;
      }
    }
    ok := res > 0;
  }

  /** The images carry data, as release_buffer, which reads every image's buffer, needs. */
  predicate AllHaveData(images: seq<Image>)
  {
    forall i :: 0 <= i < |images| ==> images[i].data.Some?
  }

  /** The first image whose wl_buffer is the given one. */
  function FirstWithBuffer(images: seq<Image>, buffer: nat): (k: Option<nat>)
    requires AllHaveData(images)
    ensures k.Some? ==> (k.value < |images| && images[k.value].data.value.buffer == buffer &&
      forall j :: 0 <= j < k.value ==> images[j].data.value.buffer != buffer)
    ensures k.None? ==> forall j :: 0 <= j < |images| ==> images[j].data.value.buffer != buffer
  {
    if images == [] then None
    else if images[0].data.value.buffer == buffer then Some(0)
    else
      var k := FirstWithBuffer(images[1..], buffer);
      assert forall j :: 1 <= j < |images| ==> images[1..][j - 1] == images[j];
      if k.Some? then Some(k.value + 1) else None
  }

  /** The images after the compositor released a buffer: the first image with it becomes FREE. */
  function AfterRelease(images: seq<Image>, buffer: nat): (r: seq<Image>)
    requires AllHaveData(images)
    ensures |r| == |images| && AllHaveData(r)
    ensures forall i :: 0 <= i < |images| ==> r[i].data == images[i].data
  {
    match FirstWithBuffer(images, buffer)
    case Some(k) => images[k := images[k].(status := Free)]
    case None => images
  }

  /** The images after a run of releases, in order. */
  function AfterReleases(images: seq<Image>, buffers: seq<nat>): (r: seq<Image>)
    requires AllHaveData(images)
    ensures |r| == |images| && AllHaveData(r)
    decreases |buffers|
  {
    if buffers == [] then images else AfterReleases(AfterRelease(images, buffers[0]), buffers[1..])
  }

  /** Some image is FREE. */
  predicate AnyFree(images: seq<Image>)
  {
    exists i :: 0 <= i < |images| && images[i].status == Free
  }

  /** One dispatch of the buffer queue: its result and the wl_buffer release events it delivered. */
  datatype BufferDispatch = BufferDispatch(res: int, released: seq<nat>)

  /**
   * The dispatch loop of get_free_buffer: after each dispatch, stop when
   * an image is FREE or the dispatch did not succeed. The images and the
   * last result, or None when the dispatches run out first.
   */
  function Drain(images: seq<Image>, ds: seq<BufferDispatch>): (r: Option<(seq<Image>, int)>)
    requires AllHaveData(images)
    ensures r.Some? ==> |r.value.0| == |images| && AllHaveData(r.value.0)
    decreases |ds|
  {
    if ds == [] then None
    else
      var imgs := AfterReleases(images, ds[0].released);
      if !AnyFree(imgs) && ds[0].res > 0 then Drain(imgs, ds[1..])
      else Some((imgs, ds[0].res))
  }

  /** When the loop stops on a dispatch that succeeded, some image is FREE. */
  lemma {:induction false} DrainStopsOnFree(images: seq<Image>, ds: seq<BufferDispatch>)
    requires AllHaveData(images) && Drain(images, ds).Some?
    ensures Drain(images, ds).value.1 > 0 ==> AnyFree(Drain(images, ds).value.0)
    decreases |ds|
  {
    var imgs := AfterReleases(images, ds[0].released);
    if !AnyFree(imgs) && ds[0].res > 0 {
      DrainStopsOnFree(imgs, ds[1..]);
    }
  }

  /**
   * The millisecond timeout passed to the dispatch: the timeout in whole
   * milliseconds, rounded down, saturated at INT_MAX.
   */
  function MsTimeout(timeoutNs: nat): (ms: nat)
    ensures ms <= INT_MAX
    ensures ms * 1000000 <= timeoutNs
    ensures timeoutNs < INT_MAX * 1000000 ==> timeoutNs < (ms + 1) * 1000000
    ensures timeoutNs >= INT_MAX * 1000000 ==> ms == INT_MAX
  {
    if timeoutNs >= INT_MAX * 1000 * 1000 then INT_MAX else timeoutNs / 1000 / 1000
  }

  /**
   * The result of get_free_buffer from the last dispatch result: a
   * successful dispatch is SUCCESS and zeroes the timeout; a timed-out one
   * is NOT_READY for a zero timeout and TIMEOUT otherwise; an error is
   * DEVICE_LOST.
   */
  function FreeBufferResult(res: int, timeoutNs: nat): (r: (VkResult, nat))
    ensures r.0 in {Success, NotReady, Timeout, ErrorDeviceLost}
    ensures r.0 == Success <==> res > 0
    ensures r.1 == if res > 0 then 0 else timeoutNs
    ensures r.0 == NotReady <==> res == 0 && timeoutNs == 0
    ensures r.0 == Timeout <==> res == 0 && timeoutNs != 0
  {
    if res > 0 then (Success, 0)
    else if res == 0 then (if timeoutNs == 0 then NotReady else Timeout, timeoutNs)
    else (ErrorDeviceLost, timeoutNs)
  }

  /** wayland::swapchain: its images, the FIFO pending flag and the validity flag. */
  class WaylandSwapchain {
    var images: seq<Image>
    const presentMode: PresentMode
    var presentPending: bool
    var isValid: bool
    /** The wl_buffer last attached to the surface. */
    var attachedBuffer: nat
    /** Release calls made so far. */
    var releaseLog: seq<ReleaseCall>

    constructor (count: nat, mode: PresentMode)
      requires mode == Fifo || mode == Mailbox
      ensures |images| == count && forall i :: 0 <= i < count ==> images[i] == Image(Invalid, NULL_HANDLE, NULL_HANDLE, None)
      ensures presentMode == mode && !presentPending && isValid && attachedBuffer == NULL_HANDLE && releaseLog == []
    {
      images := seq(count, _ => Image(Invalid, NULL_HANDLE, NULL_HANDLE, None));
      presentMode := mode;
      presentPending := false;
      isValid := true;
      attachedBuffer := NULL_HANDLE;
      releaseLog := [];
    }

    /** destroy_image: the image's resources are released and it becomes INVALID without data. */
    method DestroyImageAt(index: nat)
      requires index < |images|
      modifies this
      ensures images == old(images)[index := Destroyed(old(images[index]))]
      ensures releaseLog == old(releaseLog) + DestroyCalls(old(images[index]))
      ensures presentPending == old(presentPending) && isValid == old(isValid) && attachedBuffer == old(attachedBuffer)
    {
      var img := images[index];
      var handles: seq<ReleaseCall> := [];
      if img.status != Invalid {
        if img.presentFence != NULL_HANDLE {
          handles := handles + [DestroyFence(img.presentFence)];
        }
        if img.image != NULL_HANDLE {
          handles := handles + [DestroyImage(img.image)];
        }
      }
      assert handles == HandleRelease(img);
      var dataCalls: seq<ReleaseCall> := [];
      if img.data.Some? {
        var d := img.data.value;
        if d.buffer != NULL_HANDLE {
          dataCalls := dataCalls + [DestroyBuffer(d.buffer)];
        }
        if d.memory != NULL_HANDLE {
          dataCalls := dataCalls + [FreeMemory(d.memory)];
        } else if d.bufferFd >= 0 {
          dataCalls := dataCalls + [CloseFd(d.bufferFd)];
        }
      }
      assert dataCalls == DataRelease(img.data);
      releaseLog := releaseLog + (handles + dataCalls);
      images := images[index := Destroyed(img)];
    }

    /**
     * create_image: build the image as CreateOutcome describes; on any
     * failure destroy_image undoes it before the error is returned.
     */
    method CreateImageAt(index: nat, info: ImageCreateInfo, s: FormatSupport, a: Allocation, d: ImportCalls,
                         c: CreateCalls)
      returns (r: VkResult)
      requires index < |images|
      modifies this
      ensures r == CreateOutcome(old(images[index]), info, s, a, d, c).0
      ensures var built := CreateOutcome(old(images[index]), info, s, a, d, c).1;
        images == old(images)[index := if r == Success then built else Destroyed(built)] &&
        releaseLog == old(releaseLog) + (if r == Success then [] else DestroyCalls(built))
      ensures presentPending == old(presentPending) && isValid == old(isValid) && attachedBuffer == old(attachedBuffer)
    {
      var img := images[index];
      if !c.dataAllocOk {
        DestroyImageAt(index);
        return ErrorOutOfHostMemory;
      }
      var data: ImageData, image: Option<nat>, memoryTypeIndex: Option<nat>;
      r, data, image, memoryTypeIndex := AllocateImage(info, s, a, d);
      img := Image(Free, if image.Some? then image.value else img.image, img.presentFence, Some(data));
      if r == Success {
        if !c.paramsListenerOk || !c.roundtripOk {
          r := ErrorInitializationFailed;
        } else {
          img := img.(data := Some(data.(buffer := c.newBuffer)));
          if !c.bufferListenerOk {
            r := ErrorInitializationFailed;
          } else if c.createFence != Success {
            r := c.createFence;
          } else {
            img := img.(presentFence := c.newFence);
          }
        }
      }
      images := images[index := img];
      if r != Success {
        DestroyImageAt(index);
        assert images[index] == Destroyed(img);
      }
    }

    /**
     * release_buffer: the compositor released a wl_buffer; the first image
     * holding it is unpresented (made FREE). Every image must carry data,
     * since each one's buffer is read until the match.
     */
    method ReleaseBuffer(buffer: nat)
      requires AllHaveData(images)
      modifies this
      ensures images == AfterRelease(old(images), buffer)
      ensures presentPending == old(presentPending) && isValid == old(isValid) &&
        attachedBuffer == old(attachedBuffer) && releaseLog == old(releaseLog)
    {
      var i := 0;
      while i < |images|
        invariant i <= |images| && images == old(images)
        invariant forall j :: 0 <= j < i ==> images[j].data.value.buffer != buffer
      {
        if images[i].data.value.buffer == buffer {
          assert FirstWithBuffer(images, buffer) == Some(i);
          images := images[i := images[i].(status := Free)];
          return;
        }
        i := i + 1;
      }
    }

    /** free_image_found: whether some image is FREE. */
    method FreeImageFound() returns (found: bool)
      ensures found <==> AnyFree(images)
    {
      var i := 0;
      while i < |images|
        invariant i <= |images| && forall j :: 0 <= j < i ==> images[j].status != Free
      {
        if images[i].status == Free {
          return true;
        }
        i := i + 1;
      }
      found := false;
    }

    /** One dispatch of the buffer queue: its release events are handled in order. */
    method DispatchBufferQueue(d: BufferDispatch)
      requires AllHaveData(images)
      modifies this
      ensures images == AfterReleases(old(images), d.released)
      ensures presentPending == old(presentPending) && isValid == old(isValid) &&
        attachedBuffer == old(attachedBuffer) && releaseLog == old(releaseLog)
    {
      var k := 0;
      while k < |d.released|
        invariant k <= |d.released| && AllHaveData(images)
        invariant AfterReleases(old(images), d.released) == AfterReleases(images, d.released[k..])
        invariant presentPending == old(presentPending) && isValid == old(isValid)
        invariant attachedBuffer == old(attachedBuffer) && releaseLog == old(releaseLog)
      {
        assert d.released[k..][1..] == d.released[k + 1..];
        ReleaseBuffer(d.released[k]);
        k := k + 1;
      }
    }

    /**
     * get_free_buffer: dispatch the buffer queue with the millisecond
     * timeout until an image is FREE or a dispatch does not succeed, then
     * map the last result. The dispatches must end the loop.
     */
    method GetFreeBuffer(timeoutNs: nat, ds: seq<BufferDispatch>) returns (r: VkResult, timeout': nat, ms: nat)
      requires AllHaveData(images) && Drain(images, ds).Some?
      modifies this
      ensures ms == MsTimeout(timeoutNs)
      ensures images == Drain(old(images), ds).value.0
      ensures (r, timeout') == FreeBufferResult(Drain(old(images), ds).value.1, timeoutNs)
      ensures r == Success ==> AnyFree(images)
      ensures presentPending == old(presentPending) && isValid == old(isValid) &&
        attachedBuffer == old(attachedBuffer) && releaseLog == old(releaseLog)
    {
      ms := MsTimeout(timeoutNs);
      DrainStopsOnFree(images, ds);
      var i := 0;
      var res: int;
      while true
        invariant i < |ds| && AllHaveData(images)
        invariant Drain(images, ds[i..]) == Drain(old(images), ds)
        invariant presentPending == old(presentPending) && isValid == old(isValid)
        invariant attachedBuffer == old(attachedBuffer) && releaseLog == old(releaseLog)
        decreases |ds| - i
      {
        assert ds[i..][0] == ds[i] && ds[i..][1..] == ds[i + 1..];
        DispatchBufferQueue(ds[i]);
        res := ds[i].res;
        var found := FreeImageFound();
        if found || res <= 0 {
          break;
        }
        i := i + 1;
      }
      r, timeout' := FreeBufferResult(res, timeoutNs).0, FreeBufferResult(res, timeoutNs).1;
    }

    /**
     * present_image: when a frame is pending (FIFO only), wait for its
     * callback, marking the swapchain invalid if the wait fails; attach
     * the image's buffer; in FIFO mode request a frame callback (when one
     * is returned the frame is pending again); commit and flush, a failed
     * flush marking the swapchain invalid.
     */
    method PresentImage(index: nat, waits: seq<FrameDispatch>, callbackOk: bool, flushOk: bool)
      requires index < |images| && images[index].data.Some?
      requires presentMode == Fifo || presentMode == Mailbox
      requires presentPending ==> presentMode == Fifo
      requires presentPending ==> exists k :: 0 <= k < |waits| && EndsFrameWait(waits[k])
      modifies this
      ensures attachedBuffer == old(images[index].data.value.buffer)
      ensures presentMode == Fifo && callbackOk ==> presentPending
      ensures !(presentMode == Fifo && callbackOk) ==>
        presentPending == (old(presentPending) && !waits[FrameWaitTurns(waits)].frameDone)
      ensures isValid == (old(isValid) && flushOk &&
        !(old(presentPending) && waits[FrameWaitTurns(waits)].res <= 0))
      ensures images == old(images) && releaseLog == old(releaseLog)
    {
      var stillValid := isValid;
      if presentPending {
        var ok, pending := WaitForFrame(waits);
        presentPending := pending;
        if !ok {
          stillValid := false;
        }
      }
      attachedBuffer := images[index].data.value.buffer;
      if presentMode == Fifo && callbackOk {
        presentPending := true;
      }
      if !flushOk {
        stillValid := false;
      }
      isValid := stillValid;
    }
  }

  /** A wait that ends with a successful dispatch leaves no frame pending, so FIFO never attaches early. */
  lemma FrameWaitSuccessClearsPending(waits: seq<FrameDispatch>)
    requires exists k :: 0 <= k < |waits| && EndsFrameWait(waits[k])
    ensures waits[FrameWaitTurns(waits)].res > 0 ==> waits[FrameWaitTurns(waits)].frameDone
  {
  }
}
