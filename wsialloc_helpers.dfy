// The allocator core shared by the wsialloc back ends
// (util/wsialloc/wsialloc_helpers.c): candidate format selection, linear
// single-plane layout arithmetic and buffer fd replication.
module WsiallocHelpers {
  import opened VkTypes
  import opened Wsialloc

  /** WSIALLOCP_MIN_ALIGN_SZ: strides are multiples of this. */
  const MIN_ALIGN: nat := 64
  const TWO_POW_31: nat := 0x8000_0000
  const TWO_POW_32: nat := 0x1_0000_0000
  const TWO_POW_64: nat := 0x1_0000_0000_0000_0000

  // ---------------------------------------------------------------------
  // Rounding a size up to the alignment.
  // ---------------------------------------------------------------------

  /**
   * The rounding as the C code computes it: the 64-bit sum wraps, and the
   * mask ~(64u - 1) is a 32-bit constant that, widened to 64 bits, also
   * clears bits 32..63 (see MaskIsThirtyTwoBits).
   */
  function RoundSizeUpToAlignAsWritten(size: nat): (r: nat)
    requires size < TWO_POW_64
    ensures r % MIN_ALIGN == 0 && r < TWO_POW_32
  {
    var x := (size + MIN_ALIGN - 1) % TWO_POW_64;
    x % TWO_POW_32 - x % MIN_ALIGN
  }

  /**
   * The rounding with a 64-bit mask: the sum still wraps at 64 bits, but
   * no high bit is lost. Every stride in the model is computed with it.
   */
  function RoundSizeUpToAlign(size: nat): (r: nat)
    requires size < TWO_POW_64
    ensures r % MIN_ALIGN == 0 && r < TWO_POW_64
    ensures size <= TWO_POW_64 - MIN_ALIGN ==> size <= r < size + MIN_ALIGN
  {
    var x := (size + MIN_ALIGN - 1) % TWO_POW_64;
    x - x % MIN_ALIGN
  }

  /** Clearing the low six bits of a 64-bit word subtracts its remainder modulo 64. */
  lemma MaskIsSixtyFourBits(x: bv64)
    ensures x & !63 == x - x % 64
  {
  }

  /** The 32-bit mask 0xFFFFFFC0, zero-extended, also drops everything above bit 31. */
  lemma MaskIsThirtyTwoBits(x: bv64)
    ensures x & 0xFFFF_FFC0 == x % 0x1_0000_0000 - x % 64
  {
  }

  /** The rounded size is the smallest multiple of 64 that is not below the size. */
  lemma RoundSizeUpToAlignIsSmallest(size: nat, m: nat)
    requires size <= TWO_POW_64 - MIN_ALIGN
    requires m % MIN_ALIGN == 0 && size <= m
    ensures RoundSizeUpToAlign(size) <= m
  {
  }

  /** Below 2^32 - 63 the 32-bit mask loses nothing. */
  lemma RoundAsWrittenAgreesBelowFourGiB(size: nat)
    requires size + MIN_ALIGN - 1 < TWO_POW_32
    ensures RoundSizeUpToAlignAsWritten(size) == RoundSizeUpToAlign(size)
  {
  }

  /** From 2^32 on, the 32-bit mask loses the high bits: 2^32 rounds to 0. */
  lemma RoundAsWrittenDropsHighBits()
    ensures RoundSizeUpToAlign(TWO_POW_32) == TWO_POW_32
    ensures RoundSizeUpToAlignAsWritten(TWO_POW_32) == 0
  {
  }

  // ---------------------------------------------------------------------
  // Format table search and parameter validation.
  // ---------------------------------------------------------------------

  /**
   * A fourcc with DRM_FORMAT_BIG_ENDIAN (bit 31) masked off; a fourcc is a
   * 32-bit value, so this keeps bits 0..30.
   */
  function MaskBigEndian(fourcc: nat): (r: nat)
    ensures r < TWO_POW_31
    ensures fourcc < TWO_POW_31 ==> r == fourcc
    ensures TWO_POW_31 <= fourcc < TWO_POW_32 ==> r == fourcc - TWO_POW_31
  {
    fourcc % TWO_POW_31
  }

  /** find_format: the first table row whose DRM format is the masked fourcc. */
  function FindFormat(table: seq<FmtSpec>, fourcc: nat): (r: Option<nat>)
    ensures r.Some? ==> r.value < |table| && table[r.value].drmFormat == MaskBigEndian(fourcc)
    ensures r.Some? ==> forall j :: 0 <= j < r.value ==> table[j].drmFormat != MaskBigEndian(fourcc)
    ensures r.None? <==> forall j :: 0 <= j < |table| ==> table[j].drmFormat != MaskBigEndian(fourcc)
  {
    if |table| == 0 then None
    else if table[0].drmFormat == MaskBigEndian(fourcc) then Some(0)
    else
      match FindFormat(table[1..], fourcc)
      case None => None
      case Some(j) => Some(j + 1)
  }

  /** validate_parameters: a null allocator or result, no formats, or a dimension outside [1, 128000] is invalid. */
  predicate ValidParameters(allocatorNull: bool, resultNull: bool, info: AllocateInfo)
  {
    !allocatorNull && !resultNull && |info.formats| != 0 && !info.formatsNull &&
    1 <= info.width <= MAX_IMAGE_SIZE && 1 <= info.height <= MAX_IMAGE_SIZE
  }

  // ---------------------------------------------------------------------
  // Layout of a linear image.
  // ---------------------------------------------------------------------

  /** The layouts the allocator can compute: LINEAR modifier and at most one plane. */
  predicate Calculable(format: Format, spec: FmtSpec)
  {
    format.modifier == DRM_FORMAT_MOD_LINEAR && spec.nrPlanes <= 1
  }

  /** Row pitch of a plane: width times whole bytes per pixel, rounded up to 64. */
  function PlaneStride(width: nat, bpp: nat): (r: nat)
    requires width <= MAX_IMAGE_SIZE && bpp < 256
    ensures r % MIN_ALIGN == 0
    ensures width * (bpp / 8) <= r < width * (bpp / 8) + MIN_ALIGN
  {
    RoundSizeUpToAlign(width * (bpp / 8))
  }

  /** The width times bytes-per-pixel product never reaches the lossy range of the 32-bit mask. */
  lemma PlaneStrideUnaffectedByMask(width: nat, bpp: nat)
    requires width <= MAX_IMAGE_SIZE && bpp < 256
    ensures RoundSizeUpToAlignAsWritten(width * (bpp / 8)) == PlaneStride(width, bpp)
  {
    assert width * (bpp / 8) <= MAX_IMAGE_SIZE * 31;
    RoundAsWrittenAgreesBelowFourGiB(width * (bpp / 8));
  }

  predicate SpecInRange(spec: FmtSpec)
  {
    spec.nrPlanes <= MAX_PLANES && |spec.bpp| == MAX_PLANES &&
    forall p :: 0 <= p < MAX_PLANES ==> spec.bpp[p] < 256
  }

  /** The bytes a plane occupies: its stride times the height, never less than its pixels' bytes. */
  function PlaneBytes(width: nat, height: nat, bpp: nat): (r: nat)
    requires width <= MAX_IMAGE_SIZE && bpp < 256
    ensures width * (bpp / 8) * height <= r
  {
    MultiplyMonotone(width * (bpp / 8), PlaneStride(width, bpp), height);
    PlaneStride(width, bpp) * height
  }

  /**
   * Byte offset of plane n as intended: the planes before it laid end to
   * end, each stride times height bytes counted in full (the source
   * truncates each product to 32 bits; LayoutOffsetAsWritten models that).
   */
  function LayoutOffset(width: nat, height: nat, spec: FmtSpec, n: nat): (r: nat)
    requires width <= MAX_IMAGE_SIZE && SpecInRange(spec) && n <= MAX_PLANES
    ensures n > 0 ==> LayoutOffset(width, height, spec, n - 1) + width * (spec.bpp[n - 1] / 8) * height <= r
  {
    if n == 0 then 0
    else
      LayoutOffset(width, height, spec, n - 1) + PlaneBytes(width, height, spec.bpp[n - 1])
  }

  lemma {:induction false} MultiplyMonotone(a: nat, b: nat, h: nat)
    requires a <= b
    ensures a * h <= b * h
  {
    if h > 0 {
      MultiplyMonotone(a, b, h - 1);
      assert a * h == a * (h - 1) + a && b * h == b * (h - 1) + b;
    }
  }

  /** Every plane starts on a 64-byte boundary. */
  lemma {:induction false} LayoutOffsetAligned(width: nat, height: nat, spec: FmtSpec, n: nat)
    requires width <= MAX_IMAGE_SIZE && SpecInRange(spec) && n <= MAX_PLANES
    ensures LayoutOffset(width, height, spec, n) % MIN_ALIGN == 0
  {
    if n > 0 {
      LayoutOffsetAligned(width, height, spec, n - 1);
      var stride := PlaneStride(width, spec.bpp[n - 1]);
      MultipleOfAlignTimes(stride, height);
      MultipleOfAlignSum(LayoutOffset(width, height, spec, n - 1), stride * height);
    }
  }

  lemma MultipleOfAlignSum(a: int, b: int)
    requires a % MIN_ALIGN == 0 && b % MIN_ALIGN == 0
    ensures (a + b) % MIN_ALIGN == 0
  {
  }

  lemma MultipleOfAlignTimes(s: nat, h: nat)
    requires s % MIN_ALIGN == 0
    ensures (s * h) % MIN_ALIGN == 0
  {
    var k := s / MIN_ALIGN;
    assert s == MIN_ALIGN * k;
    assert s * h == MIN_ALIGN * (k * h);
  }

  /**
   * The total as the C code accumulates it: the stride is an int and the
   * height a 32-bit unsigned value, so each product is taken modulo 2^32
   * before it is added to the 64-bit total.
   */
  function LayoutOffsetAsWritten(width: nat, height: nat, spec: FmtSpec, n: nat): (r: nat)
    requires width <= MAX_IMAGE_SIZE && SpecInRange(spec) && n <= MAX_PLANES
    ensures r <= LayoutOffset(width, height, spec, n)
    ensures (forall p :: 0 <= p < n ==> PlaneBytes(width, height, spec.bpp[p]) < TWO_POW_32) ==>
      r == LayoutOffset(width, height, spec, n)
  {
    if n == 0 then 0
    else
      var product := PlaneBytes(width, height, spec.bpp[n - 1]);
      WrapNeverGrows(product);
      LayoutOffsetAsWritten(width, height, spec, n - 1) + product % TWO_POW_32
  }

  /** Reducing modulo 2^32 never increases a value and leaves one below 2^32 as it is. */
  lemma WrapNeverGrows(x: nat)
    ensures x % TWO_POW_32 <= x
    ensures x < TWO_POW_32 ==> x % TWO_POW_32 == x
  {
  }

  /**
   * A 32768 x 32768 image of 32-bit pixels needs 4 GiB but the 32-bit
   * product makes the total 0: the end of the layout as written falls
   * inside the pixel bytes of its plane, which LayoutOffset rules out.
   */
  lemma LayoutTotalAsWrittenWraps()
    ensures var spec := FmtSpec(0, 1, [32, 0, 0, 0]);
            LayoutOffset(32768, 32768, spec, 1) == TWO_POW_32 &&
            LayoutOffsetAsWritten(32768, 32768, spec, 1) == 0 &&
            LayoutOffsetAsWritten(32768, 32768, spec, 1) < LayoutOffsetAsWritten(32768, 32768, spec, 0) + 32768 * (32 / 8) * 32768
  {
    var spec := FmtSpec(0, 1, [32, 0, 0, 0]);
    assert PlaneStride(32768, 32) == 131072;
    assert LayoutOffset(32768, 32768, spec, 1) == 131072 * 32768;
  }

  /**
   * calculate_format_properties: rejects non-linear and multi-plane layouts,
   * otherwise writes the stride and offset of each plane and the total size.
   */
  method CalculateFormatProperties(format: Format, spec: FmtSpec, width: nat, height: nat,
                                   strides0: seq<int>, offsets0: seq<int>, totalSize0: nat)
    returns (err: WsiallocError, strides: seq<int>, offsets: seq<int>, totalSize: nat)
    requires SpecInRange(spec) && width <= MAX_IMAGE_SIZE
    requires |strides0| == MAX_PLANES && |offsets0| == MAX_PLANES
    ensures err == ErrorNone || err == ErrorNotSupported
    ensures err == ErrorNone <==> Calculable(format, spec)
    ensures err != ErrorNone ==> strides == strides0 && offsets == offsets0 && totalSize == totalSize0
    ensures |strides| == MAX_PLANES && |offsets| == MAX_PLANES
    ensures err == ErrorNone ==>
      (forall p :: 0 <= p < spec.nrPlanes ==>
         strides[p] == PlaneStride(width, spec.bpp[p]) && offsets[p] == LayoutOffset(width, height, spec, p)) &&
      (forall p :: spec.nrPlanes <= p < MAX_PLANES ==> strides[p] == strides0[p] && offsets[p] == offsets0[p]) &&
      totalSize == LayoutOffset(width, height, spec, spec.nrPlanes)
  {
    strides, offsets, totalSize := strides0, offsets0, totalSize0;
    if format.modifier != DRM_FORMAT_MOD_LINEAR {
      return ErrorNotSupported, strides, offsets, totalSize;
    }
    if spec.nrPlanes > 1 {
      return ErrorNotSupported, strides, offsets, totalSize;
    }
    var size: nat := 0;
    var plane := 0;
    while plane < spec.nrPlanes
      invariant plane <= spec.nrPlanes
      invariant |strides| == MAX_PLANES && |offsets| == MAX_PLANES
      invariant forall p :: 0 <= p < plane ==>
        strides[p] == PlaneStride(width, spec.bpp[p]) && offsets[p] == LayoutOffset(width, height, spec, p)
      invariant forall p :: plane <= p < MAX_PLANES ==> strides[p] == strides0[p] && offsets[p] == offsets0[p]
      invariant size == LayoutOffset(width, height, spec, plane)
    {
      strides := strides[plane := PlaneStride(width, spec.bpp[plane])];
      offsets := offsets[plane := size];
      size := size + strides[plane] * height;
      plane := plane + 1;
    }
    totalSize := size;
    err := ErrorNone;
  }

  // ---------------------------------------------------------------------
  // Allocation.
  // ---------------------------------------------------------------------

  /** A candidate the allocator accepts: its fourcc is in the table and its layout is calculable. */
  predicate Selectable(format: Format, table: seq<FmtSpec>)
  {
    var idx := FindFormat(table, format.fourcc);
    idx.Some? && Calculable(format, table[idx.value])
  }

  /** Index of the first acceptable candidate, in list order. */
  function FirstSelectable(formats: seq<Format>, table: seq<FmtSpec>): (r: Option<nat>)
    ensures r.Some? ==> r.value < |formats| && Selectable(formats[r.value], table)
    ensures r.Some? ==> forall j :: 0 <= j < r.value ==> !Selectable(formats[j], table)
    ensures r.None? <==> forall j :: 0 <= j < |formats| ==> !Selectable(formats[j], table)
  {
    if |formats| == 0 then None
    else if Selectable(formats[0], table) then Some(0)
    else
      match FirstSelectable(formats[1..], table)
      case None => None
      case Some(j) => Some(j + 1)
  }

  /** The table row describing an acceptable candidate. */
  function SpecOf(format: Format, table: seq<FmtSpec>): (spec: FmtSpec)
    requires Selectable(format, table)
    ensures spec in table && spec.drmFormat == MaskBigEndian(format.fourcc) && spec.nrPlanes <= 1
  {
    table[FindFormat(table, format.fourcc).value]
  }

  /**
   * The selection loop of wsiallocp_alloc: the first acceptable candidate
   * and its layout, or the error of the last candidate tried.
   */
  method SelectFormat(info: AllocateInfo, table: seq<FmtSpec>)
    returns (err: WsiallocError, selected: nat, strides: seq<int>, offsets: seq<int>, totalSize: nat)
    requires WellFormedTable(table) && 1 <= |info.formats| && info.width <= MAX_IMAGE_SIZE
    ensures |strides| == MAX_PLANES && |offsets| == MAX_PLANES
    ensures err == ErrorNone || err == ErrorNotSupported
    ensures err == ErrorNone <==> FirstSelectable(info.formats, table).Some?
    ensures err == ErrorNone ==>
      FirstSelectable(info.formats, table) == Some(selected) &&
      var spec := SpecOf(info.formats[selected], table);
      (forall p :: 0 <= p < spec.nrPlanes ==>
         strides[p] == PlaneStride(info.width, spec.bpp[p]) &&
         offsets[p] == LayoutOffset(info.width, info.height, spec, p)) &&
      totalSize == LayoutOffset(info.width, info.height, spec, spec.nrPlanes)
  {
    strides, offsets, totalSize := [0, 0, 0, 0], [0, 0, 0, 0], 0;
    err, selected := ErrorNone, 0;
    var found := false;
    var i := 0;
    while i < |info.formats| && !found
      invariant i <= |info.formats|
      invariant |strides| == MAX_PLANES && |offsets| == MAX_PLANES
      invariant !found ==> forall j :: 0 <= j < i ==> !Selectable(info.formats[j], table)
      invariant !found ==> (err == ErrorNone <==> i == 0) && (i > 0 ==> err == ErrorNotSupported)
      invariant found ==> err == ErrorNone && selected < i && Selectable(info.formats[selected], table)
      invariant found ==> forall j :: 0 <= j < selected ==> !Selectable(info.formats[j], table)
      invariant found ==> var spec := SpecOf(info.formats[selected], table);
        (forall p :: 0 <= p < spec.nrPlanes ==>
           strides[p] == PlaneStride(info.width, spec.bpp[p]) &&
           offsets[p] == LayoutOffset(info.width, info.height, spec, p)) &&
        totalSize == LayoutOffset(info.width, info.height, spec, spec.nrPlanes)
    {
      var current := info.formats[i];
      var idx := FindFormat(table, current.fourcc);
      if idx.None? {
        err := ErrorNotSupported;
      } else {
        err, strides, offsets, totalSize :=
          CalculateFormatProperties(current, table[idx.value], info.width, info.height, strides, offsets, totalSize);
        if err == ErrorNone {
          found := true;
          selected := i;
        }
      }
      i := i + 1;
    }
    if found {
      assert FirstSelectable(info.formats, table) == Some(selected);
    }
  }

  /** Plane 0 receives the new fd and every further plane below nrPlanes a copy of it. */
  method ReplicateFd(fds0: seq<int>, fd: int, nrPlanes: nat) returns (fds: seq<int>)
    requires |fds0| == MAX_PLANES && nrPlanes <= MAX_PLANES
    ensures |fds| == MAX_PLANES
    ensures forall p :: 0 <= p < MAX_PLANES ==> fds[p] == if p == 0 || p < nrPlanes then fd else fds0[p]
  {
    fds := fds0[0 := fd];
    var plane := 1;
    while plane < nrPlanes
      invariant 1 <= plane && (plane <= nrPlanes || plane == 1) && |fds| == MAX_PLANES
      invariant forall p :: 0 <= p < MAX_PLANES ==> fds[p] == if p == 0 || p < plane then fd else fds0[p]
    {
      fds := fds[plane := fds[0]];
      plane := plane + 1;
    }
  }

  /**
   * wsiallocp_alloc. The allocation callback is represented by the fd it
   * returns (allocatedFd); requestedSize is the size it is called with, or
   * None when it is not called. The result struct is result0 on entry.
   */
  method WsiallocpAlloc(allocatorNull: bool, resultNull: bool, info: AllocateInfo, table: seq<FmtSpec>,
                        allocatedFd: int, result0: AllocateResult)
    returns (err: WsiallocError, result: AllocateResult, requestedSize: Option<nat>)
    requires WellFormedTable(table) && WellFormedResult(result0)
    ensures WellFormedResult(result)
    ensures err != ErrorNone ==> result == result0
    ensures !ValidParameters(allocatorNull, resultNull, info) ==> err == ErrorInvalid && requestedSize.None?
    ensures ValidParameters(allocatorNull, resultNull, info) && FirstSelectable(info.formats, table).None? ==>
      err == ErrorNotSupported && requestedSize.None?
    ensures ValidParameters(allocatorNull, resultNull, info) && FirstSelectable(info.formats, table).Some? ==>
      var format := info.formats[FirstSelectable(info.formats, table).value];
      var spec := SpecOf(format, table);
      (info.flags.noMemory ==> err == ErrorNone && requestedSize.None? && result.bufferFds == result0.bufferFds) &&
      (!info.flags.noMemory ==>
         requestedSize == Some(LayoutOffset(info.width, info.height, spec, spec.nrPlanes)) &&
         (err == ErrorNone <==> allocatedFd >= 0) &&
         (err != ErrorNone ==> err == ErrorNoResource) &&
         (err == ErrorNone ==> forall p :: 0 <= p < MAX_PLANES ==>
            result.bufferFds[p] == if p == 0 || p < spec.nrPlanes then allocatedFd else result0.bufferFds[p])) &&
      (err == ErrorNone ==>
         result.format == format && !result.isDisjoint &&
         forall p :: 0 <= p < MAX_PLANES ==>
           result.strides[p] == (if p < spec.nrPlanes then PlaneStride(info.width, spec.bpp[p]) else result0.strides[p]) &&
           result.offsets[p] == (if p < spec.nrPlanes then LayoutOffset(info.width, info.height, spec, p) else result0.offsets[p]))
  {
    result := result0;
    requestedSize := None;
    if !ValidParameters(allocatorNull, resultNull, info) {
      return ErrorInvalid, result, requestedSize;
    }
    var selected, localStrides, localOffsets, totalSize;
    err, selected, localStrides, localOffsets, totalSize := SelectFormat(info, table);
    if err != ErrorNone {
      return err, result, requestedSize;
    }
    var format := info.formats[selected];
    var spec := SpecOf(format, table);

    if !info.flags.noMemory {
      requestedSize := Some(totalSize);
      if allocatedFd < 0 {
        return ErrorNoResource, result, requestedSize;
      }
      var fds := ReplicateFd(result.bufferFds, allocatedFd, spec.nrPlanes);
      result := result.(bufferFds := fds);
    }
    result := result.(format := format);
    var strides, offsets := result.strides, result.offsets;
    var plane := 0;
    while plane < spec.nrPlanes
      invariant plane <= spec.nrPlanes && |strides| == MAX_PLANES && |offsets| == MAX_PLANES
      invariant forall p :: 0 <= p < MAX_PLANES ==>
        strides[p] == (if p < plane then localStrides[p] else result0.strides[p]) &&
        offsets[p] == (if p < plane then localOffsets[p] else result0.offsets[p])
    {
      strides := strides[plane := localStrides[plane]];
      offsets := offsets[plane := localOffsets[plane]];
      plane := plane + 1;
    }
    result := result.(strides := strides, offsets := offsets, isDisjoint := false);
  }
}
