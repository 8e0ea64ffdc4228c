// The data exchanged with a wsialloc allocator: candidate formats, the
// allocation request and the per-plane result. The allocator entry points
// are modelled in WsiallocHelpers, WsiallocIon and WsiallocDmaBufHeaps.
module Wsialloc {

  /** WSIALLOC_MAX_PLANES: every per-plane array holds four entries. */
  const MAX_PLANES: nat := 4
  /** Largest width or height a request may ask for. */
  const MAX_IMAGE_SIZE: nat := 128000
  /** DRM_FORMAT_MOD_LINEAR. */
  const DRM_FORMAT_MOD_LINEAR: nat := 0

  /** wsialloc_error. */
  datatype WsiallocError = ErrorNone | ErrorInvalid | ErrorNotSupported | ErrorNoResource

  /**
   * wsialloc_format: a fourcc, a DRM modifier and the flags word, of which
   * the layer uses one bit, WSIALLOC_FORMAT_NON_DISJOINT.
   */
  datatype Format = Format(fourcc: nat, modifier: nat, nonDisjoint: bool)

  /** The request flags: PROTECTED, NO_MEMORY and HIGHEST_FIXED_RATE_COMPRESSION. */
  datatype AllocFlags = AllocFlags(protected: bool, noMemory: bool, highestFixedRateCompression: bool)

  /**
   * wsialloc_allocate_info. formatsNull stands for a null formats pointer;
   * the format count is |formats|.
   */
  datatype AllocateInfo = AllocateInfo(formats: seq<Format>, formatsNull: bool, width: nat, height: nat, flags: AllocFlags)

  /** wsialloc_allocate_result: the chosen format and the per-plane arrays. */
  datatype AllocateResult = AllocateResult(format: Format, strides: seq<int>, offsets: seq<int>, bufferFds: seq<int>, isDisjoint: bool)

  predicate WellFormedResult(r: AllocateResult)
  {
    |r.strides| == MAX_PLANES && |r.offsets| == MAX_PLANES && |r.bufferFds| == MAX_PLANES
  }

  /** One row of the allocator's fourcc table (fmt_spec): plane count and bits per pixel of each plane. */
  datatype FmtSpec = FmtSpec(drmFormat: nat, nrPlanes: nat, bpp: seq<nat>)

  /** The table rows satisfy the assertions the allocator makes about them. */
  predicate WellFormedTable(table: seq<FmtSpec>)
  {
    forall i :: 0 <= i < |table| ==>
      table[i].nrPlanes <= MAX_PLANES && |table[i].bpp| == MAX_PLANES &&
      forall p :: 0 <= p < MAX_PLANES ==> table[i].bpp[p] < 256
  }
}
