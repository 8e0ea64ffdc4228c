// Vocabulary shared by every module of the model: Vulkan result codes,
// swapchain image states, an Option type, integer widths and the
// lowest-set-bit scan the backends use to pick a memory type.
module VkTypes {

  /** The VkResult codes the layer produces or passes through. */
  datatype VkResult =
    | Success
    | NotReady
    | Timeout
    | Incomplete
    | ErrorOutOfHostMemory
    | ErrorOutOfDeviceMemory
    | ErrorInitializationFailed
    | ErrorDeviceLost
    | ErrorMemoryMapFailed
    | ErrorLayerNotPresent
    | ErrorFeatureNotPresent
    | ErrorFormatNotSupported
    | ErrorSurfaceLost
    | ErrorOutOfDate
    | ErrorUnknown

  /** Status of one swapchain image, as kept by the swapchain base class. */
  datatype ImageStatus = Invalid | Free | Acquired | Presented

  datatype Option<T> = None | Some(value: T)

  /** VkPresentModeKHR values used by the layer. */
  datatype PresentMode = Immediate | Mailbox | Fifo | FifoRelaxed | SharedDemandRefresh | SharedContinuousRefresh

  const UINT32_MAX: nat := 0xFFFF_FFFF
  const UINT64_MAX: nat := 0xFFFF_FFFF_FFFF_FFFF
  const INT_MAX: nat := 0x7FFF_FFFF

  /** VK_MAX_MEMORY_TYPES, also the bit width of memoryTypeBits. */
  const MAX_MEMORY_TYPES: nat := 32

  predicate IsUint32(x: int) { 0 <= x <= UINT32_MAX }

  /** Whether bit i of a 32-bit mask is set. */
  predicate HasBit(bits: bv32, i: nat)
    requires i < 32
  {
    bits & ((1 as bv32) << i) != 0
  }

  /**
   * The memory-type scan shared by the external-memory import, the headless
   * and the Wayland backends: the index of the lowest set bit of the mask,
   * or 32 when the mask is zero.
   */
  method LowestSetBit(bits: bv32) returns (idx: nat)
    ensures idx <= MAX_MEMORY_TYPES
    ensures idx < MAX_MEMORY_TYPES ==> HasBit(bits, idx)
    ensures forall j :: 0 <= j < idx && j < MAX_MEMORY_TYPES ==> !HasBit(bits, j)
    ensures idx == MAX_MEMORY_TYPES <==> bits == 0
  {
    idx := 0;
    while idx < MAX_MEMORY_TYPES
      invariant idx <= MAX_MEMORY_TYPES
      invariant forall j :: 0 <= j < idx ==> !HasBit(bits, j)
    {
      if HasBit(bits, idx) {
        return;
      }
      idx := idx + 1;
    }
    NoBitsMeansZero(bits);
  }

  /** A mask with none of its 32 bits set is the zero mask. */
  lemma NoBitsMeansZero(bits: bv32)
    requires forall j :: 0 <= j < 32 ==> !HasBit(bits, j)
    ensures bits == 0
  {
    assert !HasBit(bits, 0) && !HasBit(bits, 1) && !HasBit(bits, 2) && !HasBit(bits, 3);
    assert !HasBit(bits, 4) && !HasBit(bits, 5) && !HasBit(bits, 6) && !HasBit(bits, 7);
    assert !HasBit(bits, 8) && !HasBit(bits, 9) && !HasBit(bits, 10) && !HasBit(bits, 11);
    assert !HasBit(bits, 12) && !HasBit(bits, 13) && !HasBit(bits, 14) && !HasBit(bits, 15);
    assert !HasBit(bits, 16) && !HasBit(bits, 17) && !HasBit(bits, 18) && !HasBit(bits, 19);
    assert !HasBit(bits, 20) && !HasBit(bits, 21) && !HasBit(bits, 22) && !HasBit(bits, 23);
    assert !HasBit(bits, 24) && !HasBit(bits, 25) && !HasBit(bits, 26) && !HasBit(bits, 27);
    assert !HasBit(bits, 28) && !HasBit(bits, 29) && !HasBit(bits, 30) && !HasBit(bits, 31);
  }
}
