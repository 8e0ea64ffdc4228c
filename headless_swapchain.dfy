// wsi/headless/swapchain.cpp: the headless swapchain's images. Every
// Vulkan call goes to the driver, whose answers are the fields of a
// HeadlessDriver value; the calls that release something are recorded in
// the swapchain's log so that contracts can say what was released. The
// debug-build assertions after the memory allocation and the bind are
// not modelled; the release-build error paths are.
module HeadlessSwapchain {
  import opened VkTypes
  import Synchronization

  /** VK_NULL_HANDLE. */
  const NULL_HANDLE: nat := 0

  /** The driver's answers during one create_and_bind_swapchain_image. */
  datatype HeadlessDriver = HeadlessDriver(
    createImage: VkResult, newImage: nat,
    memoryTypeBits: bv32,
    dataAllocOk: bool,
    allocateMemory: VkResult, newMemory: nat,
    bindImageMemory: VkResult,
    device: nat, createFence: VkResult, newFence: nat)

  /** The release calls the swapchain makes to the driver, the present fence's included. */
  datatype DriverCall = DestroyImage(image: nat) | FreeMemory(memory: nat) | Fence(call: Synchronization.FenceCall)

  /** The fence calls as driver log entries. */
  function FenceEntries(calls: seq<Synchronization.FenceCall>): (entries: seq<DriverCall>)
    ensures |entries| == |calls| && forall i :: 0 <= i < |calls| ==> entries[i] == Fence(calls[i])
  {
    if calls == [] then [] else [Fence(calls[0])] + FenceEntries(calls[1..])
  }

  /** image_data: the device memory backing the image and its present fence. */
  class ImageData {
    var memory: nat
    const presentFence: Synchronization.FenceSync

    constructor ()
      ensures memory == NULL_HANDLE && fresh(presentFence)
      ensures presentFence.State() == Synchronization.FenceState(Synchronization.NULL_FENCE, 0, false, false)
    {
      memory := NULL_HANDLE;
      presentFence := new Synchronization.FenceSync.Empty();
    }
  }

  /** wsi::swapchain_image as the headless backend uses it. */
  class SwapchainImage {
    var status: ImageStatus
    var image: nat
    var data: ImageData?

    constructor ()
      ensures status == Invalid && image == NULL_HANDLE && data == null
    {
      status := Invalid;
      image := NULL_HANDLE;
      data := null;
    }
  }

  /**
   * The log entries destroy_image adds: the VkImage when the image was
   * valid, then, for image data holding memory and a fence in that state,
   * the non-null memory and what ~fence_sync does with the fence.
   */
  function DestroyCalls(status: ImageStatus, image: nat, data: Option<(nat, Synchronization.FenceState)>)
    : (calls: seq<DriverCall>)
    ensures |calls| <= 4
    ensures DestroyImage(image) in calls ==> status != Invalid && image != NULL_HANDLE
    ensures status != Invalid && image != NULL_HANDLE ==> DestroyImage(image) in calls
    ensures forall m :: FreeMemory(m) in calls <==> data.Some? && m == data.value.0 && m != NULL_HANDLE
    ensures forall c :: Fence(c) in calls <==> data.Some? && c in Synchronization.DestructionCalls(data.value.1)
  {
    (if status != Invalid && image != NULL_HANDLE then [DestroyImage(image)] else []) +
    (if data.Some? && data.value.0 != NULL_HANDLE then [FreeMemory(data.value.0)] else []) +
    (if data.Some? then FenceEntries(Synchronization.DestructionCalls(data.value.1)) else [])
  }

  /** headless::swapchain. */
  class HeadlessSwapchain {
    /** m_image_create_info: the create info of the last image created. */
    var imageCreateInfo: Option<nat>
    /** Release calls made to the driver so far. */
    var driverLog: seq<DriverCall>

    constructor ()
      ensures imageCreateInfo == None && driverLog == []
    {
      imageCreateInfo := None;
      driverLog := [];
    }

    /**
     * destroy_image: a valid image has its VkImage destroyed (if any) and
     * becomes INVALID with a null handle; its data, if any, has its memory
     * freed (if any) and is released, its fence destroyed as ~fence_sync
     * does. A second call finds nothing to do.
     */
    method DestroyImageOf(img: SwapchainImage)
      modifies this, img, img.data
      ensures img.status == Invalid && img.data == null
      ensures img.image == if old(img.status) != Invalid then NULL_HANDLE else old(img.image)
      ensures old(img.data) != null ==> old(img.data).memory == NULL_HANDLE
      ensures driverLog == old(driverLog) +
        DestroyCalls(old(img.status), old(img.image),
                     if old(img.data) == null then None else Some((old(img.data.memory), old(img.data.presentFence.State()))))
      ensures imageCreateInfo == old(imageCreateInfo)
    {
      var imageCalls: seq<DriverCall> := [];
      if img.status != Invalid {
        if img.image != NULL_HANDLE {
          imageCalls := [DestroyImage(img.image)];
          img.image := NULL_HANDLE;
        }
        img.status := Invalid;
      }
      var memoryCalls: seq<DriverCall> := [];
      var fenceCalls: seq<Synchronization.FenceCall> := [];
      if img.data != null {
        var d := img.data;
        if d.memory != NULL_HANDLE {
          memoryCalls := [FreeMemory(d.memory)];
          d.memory := NULL_HANDLE;
        }
        fenceCalls := d.presentFence.Destroy();
        img.data := null;
      }
      driverLog := driverLog + (imageCalls + memoryCalls + FenceEntries(fenceCalls));
    }

    /**
     * create_and_bind_swapchain_image: record the create info, create the
     * VkImage, choose the lowest memory type the image allows, then
     * allocate the image data, the memory, bind it and create the present
     * fence. A failed image-data allocation destroys the VkImage and
     * returns OUT_OF_HOST_MEMORY; a later failure destroys the image
     * (destroy_image) and returns the error (OUT_OF_HOST_MEMORY for the
     * fence). On success the image is FREE with its memory bound.
     */
    method CreateAndBindSwapchainImage(info: nat, img: SwapchainImage, drv: HeadlessDriver)
      returns (r: VkResult, memoryTypeIndex: Option<nat>)
      requires drv.newImage != NULL_HANDLE && drv.newMemory != NULL_HANDLE
      modifies this, img, img.data
      ensures imageCreateInfo == Some(info)
      ensures memoryTypeIndex.Some? <==> drv.createImage == Success
      ensures memoryTypeIndex.Some? ==> memoryTypeIndex.value <= MAX_MEMORY_TYPES
      ensures memoryTypeIndex.Some? && drv.memoryTypeBits != 0 ==>
        memoryTypeIndex.value < MAX_MEMORY_TYPES && HasBit(drv.memoryTypeBits, memoryTypeIndex.value)
      ensures memoryTypeIndex.Some? ==>
        forall j :: 0 <= j < memoryTypeIndex.value && j < MAX_MEMORY_TYPES ==> !HasBit(drv.memoryTypeBits, j)
      // the VkImage could not be created: nothing else happens
      ensures drv.createImage != Success ==>
        r == drv.createImage && driverLog == old(driverLog) &&
        img.status == old(img.status) && img.image == old(img.image) && img.data == old(img.data)
      // no image data: the VkImage is destroyed, the image otherwise left as it was
      ensures drv.createImage == Success && !drv.dataAllocOk ==>
        r == ErrorOutOfHostMemory && driverLog == old(driverLog) + [DestroyImage(drv.newImage)] &&
        img.status == old(img.status) && img.image == drv.newImage && img.data == old(img.data)
      // a later failure: the image is destroyed and the error returned
      ensures drv.createImage == Success && drv.dataAllocOk &&
              (drv.allocateMemory != Success || drv.bindImageMemory != Success || drv.createFence != Success) ==>
        r == (if drv.allocateMemory != Success then drv.allocateMemory
              else if drv.bindImageMemory != Success then drv.bindImageMemory
              else ErrorOutOfHostMemory) &&
        img.status == Invalid && img.image == NULL_HANDLE && img.data == null &&
        driverLog == old(driverLog) + [DestroyImage(drv.newImage)] +
                     (if drv.allocateMemory == Success then [FreeMemory(drv.newMemory)] else [])
      // success: the image is FREE, backed by the new memory, with a present fence
      ensures drv.createImage == Success && drv.dataAllocOk && drv.allocateMemory == Success &&
              drv.bindImageMemory == Success && drv.createFence == Success ==>
        r == Success && img.status == Free && img.image == drv.newImage && img.data != null &&
        fresh(img.data) && img.data.memory == drv.newMemory &&
        img.data.presentFence.State() == Synchronization.FenceState(drv.newFence, drv.device, false, false) &&
        driverLog == old(driverLog)
    {
      imageCreateInfo := Some(info);
      if drv.createImage != Success {
        return drv.createImage, None;
      }
      img.image := drv.newImage;
      var idx := LowestSetBit(drv.memoryTypeBits);
      memoryTypeIndex := Some(idx);
      if !drv.dataAllocOk {
        driverLog := driverLog + [DestroyImage(img.image)];
        return ErrorOutOfHostMemory, memoryTypeIndex;
      }
      var data := new ImageData();
      img.data := data;
      img.status := Free;
      if drv.allocateMemory != Success {
        DestroyImageOf(img);
        return drv.allocateMemory, memoryTypeIndex;
      }
      data.memory := drv.newMemory;
      if drv.bindImageMemory != Success {
        DestroyImageOf(img);
        return drv.bindImageMemory, memoryTypeIndex;
      }
      var fence := Synchronization.FenceSync.Create(drv.device, drv.createFence, drv.newFence);
      if fence.None? {
        DestroyImageOf(img);
        return ErrorOutOfHostMemory, memoryTypeIndex;
      }
      data.presentFence.MoveAssign(fence.value);
      r := Success;
    }

    /**
     * create_aliased_image_handle: the aliased VkImage is created from the
     * recorded create info, not the one passed in; the result is the
     * driver's.
     */
    method CreateAliasedImageHandle(passedInfo: nat, createImage: VkResult) returns (r: VkResult, usedInfo: Option<nat>)
      ensures r == createImage && usedInfo == imageCreateInfo
    {
      return createImage, imageCreateInfo;
    }

    /**
     * present_image: the headless backend shows nothing, so the image is
     * unpresented (made FREE) at once.
     */
    method PresentImage(images: seq<SwapchainImage>, pendingIndex: nat)
      requires pendingIndex < |images|
      modifies images[pendingIndex]
      ensures images[pendingIndex].status == Free
      ensures images[pendingIndex].image == old(images[pendingIndex].image)
      ensures images[pendingIndex].data == old(images[pendingIndex].data)
    {
      images[pendingIndex].status := Free;
    }

    /**
     * bind_swapchain_image: the application's image is bound to the memory
     * of the swapchain image it names; the result is the driver's.
     */
    method BindSwapchainImage(images: seq<SwapchainImage>, imageIndex: nat, bindResult: VkResult)
      returns (r: VkResult, memory: nat)
      requires imageIndex < |images| && images[imageIndex].data != null
      ensures r == bindResult && memory == images[imageIndex].data.memory
    {
      return bindResult, images[imageIndex].data.memory;
    }
  }

  /** destroy_image is idempotent: on an image it already destroyed, it releases nothing. */
  lemma DestroyTwiceReleasesNothing(image: nat)
    ensures DestroyCalls(Invalid, image, None) == []
  {
  }
}
