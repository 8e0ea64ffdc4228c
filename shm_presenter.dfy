// wsi/x11/shm_presenter.cpp: the MIT-SHM presenter of the X11 backend.
// It scales rows through a lookup table, copies the Vulkan image into a
// shared-memory segment, keeps two small flag machines (the geometry
// round trip used as a sync point, and the XSync presentation fence) and
// manages the shared-memory segments of each image. X server requests are
// recorded in a log; their replies are parameters.
module ShmPresenter {
  import opened VkTypes
  import opened WsiExternalMemory
  import Synchronization

  /** XCB_NONE: no fence, no segment. */
  const XCB_NONE: nat := 0
  const UINT32_LIMIT: nat := 0x1_0000_0000

  /** The requests the presenter sends to the X server, and its detaches of mapped segments. */
  datatype PresenterCall =
    | GetGeometry
    | AwaitFence(fence: nat)
    | ResetFence(fence: nat)
    | TriggerFence(fence: nat)
    | DestroyFence(fence: nat)
    | ShmAttach(seg: nat, shmId: int)
    | ShmDetach(seg: nat)
    | PutImage(seg: nat)
    | ShmDt(p: nat)

  /** A shared-memory attach address: none, the failure value (void *)-1, or a mapping. */
  datatype Addr = NoAddr | FailedAddr | MappedAt(p: nat)

  /** A uint32 product, which wraps. */
  function MulU32(a: nat, b: nat): (r: nat)
    ensures r < UINT32_LIMIT && (a * b < UINT32_LIMIT ==> r == a * b)
  {
    (a * b) % UINT32_LIMIT
  }

  // ---------------------------------------------------------------------
  // The horizontal scaling lookup table
  // ---------------------------------------------------------------------

  /**
   * The source column for display column d: (d * gpu) / display in uint32
   * arithmetic, clamped to gpu - 1 (which wraps to UINT32_MAX when gpu is 0).
   */
  function LutEntry(gpu: nat, display: nat, d: nat): nat
    requires display > 0
  {
    var srcX := MulU32(d, gpu) / display;
    if srcX >= gpu then (if gpu == 0 then UINT32_MAX else gpu - 1) else srcX
  }

  /** The table precompute_scaling_lut builds: one entry per display column. */
  function ScalingLut(gpu: nat, display: nat): (lut: seq<nat>)
    ensures |lut| == display
    ensures forall d :: 0 <= d < display ==> lut[d] == LutEntry(gpu, display, d)
  {
    seq(display, d requires 0 <= d < display => LutEntry(gpu, display, d))
  }

  /** Division by a positive divisor is monotone. */
  lemma DivMonotone(a: nat, b: nat, n: nat)
    requires n > 0 && a <= b
    ensures a / n <= b / n
  {
    if a / n > b / n {
      MulMonotone(b / n + 1, a / n, n);
    }
  }

  lemma MulMonotone(x: nat, y: nat, n: nat)
    requires x <= y
    ensures x * n <= y * n
  {
  }

  /** Adding the divisor adds one to the quotient. */
  lemma DivAddDivisor(a: nat, n: nat)
    requires n > 0
    ensures (a + n) / n == a / n + 1
  {
    var q := a / n;
    var r := a % n;
    assert a == q * n + r;
    assert a + n == (q + 1) * n + r;
    DivUnique(a + n, n, q + 1, r);
  }

  /** The quotient is determined by any exact decomposition. */
  lemma DivUnique(a: nat, n: nat, q: nat, r: nat)
    requires 0 <= r < n && a == q * n + r
    ensures a / n == q
  {
    if a / n < q {
      MulMonotone(a / n + 1, q, n);
    } else if a / n > q {
      MulMonotone(q + 1, a / n, n);
    }
  }

  /**
   * Without uint32 overflow every entry is the exact scaled column
   * d * gpu / display and lies inside the GPU row; the clamp never fires.
   */
  lemma {:induction false} LutEntryInRow(gpu: nat, display: nat, d: nat)
    requires gpu > 0 && d < display && (display - 1) * gpu < UINT32_LIMIT
    ensures LutEntry(gpu, display, d) == d * gpu / display < gpu
  {
    MulMonotone(d, display - 1, gpu);
    var q := d * gpu / display;
    if q >= gpu {
      MulMonotone(gpu, q, display);
      assert q * display <= d * gpu;
      MulMonotone(d, display, gpu);
    }
  }

  /** When the GPU row is at least as wide, consecutive entries strictly rise. */
  lemma LutRises(gpu: nat, display: nat, x: nat)
    requires display <= gpu && x + 1 < display && (display - 1) * gpu < UINT32_LIMIT
    ensures LutEntry(gpu, display, x) + 1 <= LutEntry(gpu, display, x + 1)
  {
    LutEntryInRow(gpu, display, x);
    LutEntryInRow(gpu, display, x + 1);
    assert (x + 1) * gpu == x * gpu + gpu;
    DivMonotone(x * gpu + display, (x + 1) * gpu, display);
    DivAddDivisor(x * gpu, display);
  }

  lemma {:induction false} LutGap(gpu: nat, display: nat, i: nat, j: nat)
    requires display <= gpu && i <= j < display && (display - 1) * gpu < UINT32_LIMIT
    ensures LutEntry(gpu, display, i) + (j - i) <= LutEntry(gpu, display, j)
  {
    if i < j {
      LutGap(gpu, display, i, j - 1);
      LutRises(gpu, display, j - 1);
    }
  }

  /**
   * The shortcut copy_pixels_scalar takes is sound for a table built by
   * precompute_scaling_lut: when the last entry maps to the last column,
   * the whole table is the identity.
   */
  lemma LutIdentityAtEnd(gpu: nat, display: nat)
    requires gpu > 0 && display > 0 && (display - 1) * gpu < UINT32_LIMIT
    requires ScalingLut(gpu, display)[display - 1] == display - 1
    ensures forall x :: 0 <= x < display ==> ScalingLut(gpu, display)[x] == x
  {
    LutEntryInRow(gpu, display, display - 1);
    if gpu >= display {
      forall x | 0 <= x < display
        ensures ScalingLut(gpu, display)[x] == x
      {
        LutGap(gpu, display, 0, x);
        LutGap(gpu, display, x, display - 1);
        LutEntryInRow(gpu, display, 0);
      }
    }
  }

  // ---------------------------------------------------------------------
  // Pixel copies
  // ---------------------------------------------------------------------

  /** Whether the table leaves columns where they are: empty, or identity at its last column. */
  predicate KeepsColumns(lut: seq<nat>, width: nat)
  {
    |lut| == 0 || (width > 0 && width <= |lut| && lut[width - 1] == width - 1)
  }

  /** The source column copy_pixels_scalar reads for destination column x. */
  function Column(lut: seq<nat>, width: nat, x: nat): nat
    requires x < width && (KeepsColumns(lut, width) || width <= |lut|)
  {
    if KeepsColumns(lut, width) then x else lut[x]
  }

  /** The source index read for destination row r, column x. */
  function SourceIndex(lut: seq<nat>, stride: nat, width: nat, r: nat, x: nat): nat
    requires x < width && (KeepsColumns(lut, width) || width <= |lut|)
  {
    r * stride + Column(lut, width, x)
  }

  /** Row r, column x of the destination, which is packed with width pixels per row. */
  function DestIndex(width: nat, r: nat, x: nat): nat
  {
    r * width + x
  }

  /** Everything a copy of the given rows reads lies inside the source. */
  predicate SourceCovers(src: seq<bv32>, lut: seq<nat>, stride: nat, width: nat, height: nat)
  {
    (KeepsColumns(lut, width) || width <= |lut|) &&
    forall r, x :: 0 <= r < height && 0 <= x < width ==> SourceIndex(lut, stride, width, r, x) < |src|
  }

  /** The first rows rows of dst hold the scaled source rows. */
  predicate CopiedRows(dst: seq<bv32>, src: seq<bv32>, lut: seq<nat>, stride: nat, width: nat, rows: nat)
    requires KeepsColumns(lut, width) || width <= |lut|
  {
    forall r, x :: 0 <= r < rows && 0 <= x < width ==>
      DestIndex(width, r, x) < |dst| && SourceIndex(lut, stride, width, r, x) < |src| &&
      dst[DestIndex(width, r, x)] == src[SourceIndex(lut, stride, width, r, x)]
  }

  lemma RowBounds(width: nat, r: nat, rows: nat, x: nat)
    requires r < rows && x < width
    ensures DestIndex(width, r, x) < rows * width
    ensures (r + 1) * width <= rows * width
  {
    MulMonotone(r + 1, rows, width);
  }

  /** Copying row `row` while leaving the rows before it alone extends the copied prefix by one row. */
  lemma CopiedRowsExtend(d0: seq<bv32>, d1: seq<bv32>, src: seq<bv32>, lut: seq<nat>, stride: nat, width: nat,
                         height: nat, row: nat)
    requires row < height && SourceCovers(src, lut, stride, width, height) && |d0| == |d1|
    requires row * width + width <= |d0|
    requires CopiedRows(d0, src, lut, stride, width, row)
    requires forall k :: 0 <= k < row * width ==> d1[k] == d0[k]
    requires forall x :: 0 <= x < width ==> d1[DestIndex(width, row, x)] == src[SourceIndex(lut, stride, width, row, x)]
    ensures CopiedRows(d1, src, lut, stride, width, row + 1)
  {
    forall r, x | 0 <= r < row + 1 && 0 <= x < width
      ensures DestIndex(width, r, x) < |d1| && SourceIndex(lut, stride, width, r, x) < |src| &&
        d1[DestIndex(width, r, x)] == src[SourceIndex(lut, stride, width, r, x)]
    {
      RowBounds(width, r, row + 1, x);
      if r < row {
        RowBounds(width, r, row, x);
      }
    }
  }

  /**
   * An as-written reading of copy_pixels_scalar: the identity path is
   * taken only when the source stride equals the width; otherwise the
   * table is indexed, and None stands for a read past its end.
   */
  function ColumnAsWritten(lut: seq<nat>, stride: nat, width: nat, x: nat): (c: Option<nat>)
    ensures c.None? <==> !(stride == width && KeepsColumns(lut, width)) && x >= |lut|
  {
    if stride == width && KeepsColumns(lut, width) then Some(x)
    else if x < |lut| then Some(lut[x])
    else None
  }

  /**
   * present_image clears the table (its GPU and display widths are equal),
   * so a padded row pitch, whose stride in pixels differs from the width,
   * sends every column of the as-written copy past the end of the empty table.
   */
  lemma PaddedRowReadsPastEmptyLut(width: nat, rowPitch: nat, x: nat)
    requires width > 0 && rowPitch / 4 != width
    ensures ColumnAsWritten([], rowPitch / 4, width, x).None?
    ensures Column([], width, x % width) == x % width
  {
  }

  // ---------------------------------------------------------------------
  // Image data
  // ---------------------------------------------------------------------

  /** The X11 image data the presenter reads and writes. */
  class ImageData {
    var width: nat
    var height: nat
    var depth: int
    var stride: nat
    var shmSize: nat
    var shmId: int
    var shmAddr: Addr
    var shmSeg: nat
    var shmIdAlt: int
    var shmAddrAlt: Addr
    var shmSegAlt: nat
    var useAltBuffer: bool
    const externalMem: ExternalMemory
    /** The fence the swapchain waits on before the image is presented. */
    const presentFence: Synchronization.FenceSync
    /** The pixmap the swapchain matches against the free-buffer pool. */
    var pixmap: nat
    /** The number of present completions the image still waits for. */
    var pendingCompletions: nat

    /** Fresh image data: no segments, nothing mapped, no size, nothing pending. */
    constructor ()
      ensures shmId == -1 && shmIdAlt == -1 && shmAddr == NoAddr && shmAddrAlt == NoAddr
      ensures shmSeg == XCB_NONE && shmSegAlt == XCB_NONE && shmSize == 0 && !useAltBuffer
      ensures width == 0 && height == 0 && stride == 0 && pixmap == 0 && pendingCompletions == 0
      ensures fresh(externalMem) && externalMem.Valid()
      ensures fresh(presentFence) && presentFence.State() == Synchronization.FenceState(Synchronization.NULL_FENCE, 0, false, false)
    {
      pixmap, pendingCompletions := 0, 0;
      width, height, depth, stride := 0, 0, 0, 0;
      shmSize, shmId, shmAddr, shmSeg := 0, -1, NoAddr, XCB_NONE;
      shmIdAlt, shmAddrAlt, shmSegAlt := -1, NoAddr, XCB_NONE;
      useAltBuffer := false;
      externalMem := new ExternalMemory();
      presentFence := new Synchronization.FenceSync.Empty();
    }

    /** A segment is only sized for an image that has a width. */
    predicate SizedByWidth()
      reads this
    {
      shmSize > 0 ==> width > 0
    }
  }

  /** The pixmap format list of the X server: a depth and its bits per pixel (both bytes). */
  datatype PixmapFormat = PixmapFormat(depth: nat, bitsPerPixel: nat)

  /** The depth-to-bpp cache after the formats are entered in order: a later depth overrides. */
  function Cached(cache: map<int, nat>, formats: seq<PixmapFormat>): (m: map<int, nat>)
    ensures m.Keys == cache.Keys + set f | f in formats :: f.depth as int
  {
    if formats == [] then cache
    else
      var last := formats[|formats| - 1];
      var m := Cached(cache, formats[..|formats| - 1])[last.depth as int := last.bitsPerPixel];
      assert formats == formats[..|formats| - 1] + [last];
      m
  }

  /** A cached depth answers with the bits per pixel of the last format listing it. */
  lemma {:induction false} CachedLastWins(cache: map<int, nat>, formats: seq<PixmapFormat>, i: nat)
    requires i < |formats|
    requires forall j :: i < j < |formats| ==> formats[j].depth != formats[i].depth
    ensures Cached(cache, formats)[formats[i].depth as int] == formats[i].bitsPerPixel
  {
    if i < |formats| - 1 {
      CachedLastWins(cache, formats[..|formats| - 1], i);
    }
  }

  /** The fallback of get_bits_per_pixel_for_depth for an uncached depth, returned as a uint8. */
  function DefaultBitsPerPixel(depth: int): (bpp: nat)
    ensures bpp < 256
    ensures depth == 24 ==> bpp == 32
    ensures 0 <= depth < 256 && depth != 24 ==> bpp == depth
  {
    if depth == 24 then 32 else depth % 256
  }

  /** What shmget/shmat and the X id allocator return while segments are created. */
  datatype ShmCalls = ShmCalls(shmId: int, attachAddr: nat, attachOk: bool, seg: nat,
                               shmIdAlt: int, attachAltAddr: nat, attachAltOk: bool, segAlt: nat)

  /** The stride create_image_resources computes: width * (bpp / 8) in uint32, bpp 32 for depth 24. */
  function ShmStride(width: nat, depth: int): (s: nat)
    ensures depth == 24 && width * 4 < UINT32_LIMIT ==> s == width * 4
    ensures width == 0 ==> s == 0
  {
    MulU32(width, DefaultBitsPerPixel(depth) / 8)
  }

  /** The copy present_image performs from the mapped Vulkan image into the segment. */
  datatype CopyKind =
    | PixelCopy(srcStridePixels: nat, width: nat, height: nat)
    | RowCopies(rowBytes: nat, rows: nat)

  /** The geometry reply a sync point finds: a reply, an error, or neither yet. */
  datatype GeometryReply = GeometryOk | GeometryError | NoReply

  /** What the fence set-up of init_fence_sync finds. */
  datatype FenceSetup = FenceSetup(extensionPresent: bool, newFence: nat, createOk: bool, syncReplyOk: bool)

  /** The segment a present uses: the alternate one when toggled to it and it exists. */
  function ActiveSeg(useAlt: bool, seg: nat, segAlt: nat): (a: nat)
    ensures a == seg || a == segAlt
    ensures segAlt == XCB_NONE ==> a == seg
  {
    if useAlt && segAlt != XCB_NONE then segAlt else seg
  }

  /** The address a present writes to: the alternate one when toggled to it and it is attached. */
  function ActiveAddr(useAlt: bool, addr: Addr, addrAlt: Addr): (a: Addr)
    ensures a == addr || a == addrAlt
    ensures addrAlt == NoAddr ==> a == addr
  {
    if useAlt && addrAlt != NoAddr then addrAlt else addr
  }

  /** The requests sent before a frame: await and reset the fence once a frame has been shown. */
  function FrameWaitCalls(fenceAvailable: bool, firstFrame: bool, fence: nat): seq<PresenterCall>
  {
    if fenceAvailable && !firstFrame && fence != XCB_NONE then [AwaitFence(fence), ResetFence(fence)] else []
  }

  /** The requests sent after a frame: trigger the fence, or start a geometry round trip without one. */
  function FrameEndCalls(fenceAvailable: bool, fence: nat): seq<PresenterCall>
  {
    if fenceAvailable then (if fence != XCB_NONE then [TriggerFence(fence)] else []) else [GetGeometry]
  }

  /** The copy present_image chooses: 32-bit pixels go through the pixel copy, others row by row. */
  function CopyFor(stride: nat, width: nat, height: nat, rowPitch: nat): CopyKind
    requires width > 0
  {
    if stride / width == 4 then PixelCopy((rowPitch / 4) % UINT32_LIMIT, width, height)
    else RowCopies(if rowPitch <= stride then rowPitch else stride, height)
  }

  /** The server-side detach of a segment, if there is one. */
  function DetachCall(seg: nat): seq<PresenterCall>
  {
    if seg != XCB_NONE then [ShmDetach(seg)] else []
  }

  /** The process-side detach of a mapping, if there is one. */
  function DtCall(a: Addr): seq<PresenterCall>
  {
    if a.MappedAt? then [ShmDt(a.p)] else []
  }

  /** What destroy_image_resources releases: both segments, then both mapped addresses. */
  function ReleaseCalls(seg: nat, segAlt: nat, addr: Addr, addrAlt: Addr): seq<PresenterCall>
  {
    DetachCall(seg) + DetachCall(segAlt) + (DtCall(addr) + DtCall(addrAlt))
  }

  /** An address after destroy_image_resources: a mapping is cleared; the failure value is kept. */
  function Unmapped(a: Addr): (b: Addr)
    ensures !b.MappedAt?
  {
    if a.MappedAt? then NoAddr else a
  }

  /** A second destroy_image_resources has nothing left to release. */
  lemma DestroyTwiceReleasesNothing(addr: Addr, addrAlt: Addr)
    ensures ReleaseCalls(XCB_NONE, XCB_NONE, Unmapped(addr), Unmapped(addrAlt)) == []
  {
  }

  class ShmPresenter {
    var scalingLut: seq<nat>
    var lastGpuWidth: nat
    var lastDisplayWidth: nat
    var syncPending: bool
    var presentationFence: nat
    var fenceAvailable: bool
    var firstFrame: bool
    var depthToBpp: map<int, nat>
    /** The X requests sent so far. */
    var log: seq<PresenterCall>

    /** The presenter's own invariant: the table is empty or was built for the cached widths. */
    predicate LutValid()
      reads this
    {
      scalingLut == [] || (lastDisplayWidth > 0 && scalingLut == ScalingLut(lastGpuWidth, lastDisplayWidth))
    }

    /** A new presenter: nothing pending, no fence, the first frame still ahead, no table. */
    constructor ()
      ensures LutValid() && !syncPending && presentationFence == XCB_NONE && !fenceAvailable && firstFrame
      ensures scalingLut == [] && lastGpuWidth == 0 && lastDisplayWidth == 0 && depthToBpp == map[] && log == []
    {
      scalingLut := [];
      lastGpuWidth, lastDisplayWidth := 0, 0;
      syncPending := false;
      presentationFence := XCB_NONE;
      fenceAvailable := false;
      firstFrame := true;
      depthToBpp := map[];
      log := [];
    }

    /**
     * precompute_scaling_lut: unless both widths equal the cached ones, the
     * table is rebuilt with one entry per display column and the widths
     * are cached; otherwise nothing changes.
     */
    method PrecomputeScalingLut(gpu: nat, display: nat)
      requires LutValid()
      modifies this
      ensures LutValid()
      ensures gpu == old(lastGpuWidth) && display == old(lastDisplayWidth) ==>
        scalingLut == old(scalingLut) && lastGpuWidth == old(lastGpuWidth) && lastDisplayWidth == old(lastDisplayWidth)
      ensures !(gpu == old(lastGpuWidth) && display == old(lastDisplayWidth)) ==>
        scalingLut == ScalingLut(gpu, display) && lastGpuWidth == gpu && lastDisplayWidth == display
      ensures syncPending == old(syncPending) && presentationFence == old(presentationFence)
      ensures fenceAvailable == old(fenceAvailable) && firstFrame == old(firstFrame)
      ensures depthToBpp == old(depthToBpp) && log == old(log)
    {
      if lastGpuWidth == gpu && lastDisplayWidth == display {
        return;
      }
      var lut := Resized(scalingLut, display);
      var d := 0;
      while d < display
        invariant d <= display && |lut| == display
        invariant forall k :: 0 <= k < d ==> lut[k] == LutEntry(gpu, display, k)
      {
        lut := lut[d := LutEntry(gpu, display, d)];
        d := d + 1;
      }
      scalingLut := lut;
      lastGpuWidth, lastDisplayWidth := gpu, display;
    }

    /**
     * copy_pixels_scalar, with the identity path taken whenever the table
     * keeps columns in place (see the findings for the stride test the
     * source adds): row r of the packed destination holds source row r,
     * read at stride pixels per row through the table.
     */
    method CopyPixelsScalar(src: seq<bv32>, dst: array<bv32>, stride: nat, width: nat, height: nat)
      requires scalingLut == [] || |scalingLut| == width
      requires SourceCovers(src, scalingLut, stride, width, height) && height * width <= dst.Length
      modifies dst
      ensures CopiedRows(dst[..], src, scalingLut, stride, width, height)
      ensures forall k :: height * width <= k < dst.Length ==> dst[k] == old(dst[k])
    {
      var row := 0;
      while row < height
        invariant row <= height
        invariant row * width <= height * width
        invariant CopiedRows(dst[..], src, scalingLut, stride, width, row)
        invariant forall k :: row * width <= k < dst.Length ==> dst[k] == old(dst[k])
      {
        MulMonotone(row + 1, height, width);
        assert (row + 1) * width == row * width + width;
        ghost var before := dst[..];
        CopyRow(src, dst, stride, width, height, row);
        CopiedRowsExtend(before, dst[..], src, scalingLut, stride, width, height, row);
        row := row + 1;
      }
    }

    /**
     * One destination row: memcpy on the identity path, the (four-way
     * unrolled) table loop otherwise; both write dst_row[x] from the
     * source column the table names.
     */
    method CopyRow(src: seq<bv32>, dst: array<bv32>, stride: nat, width: nat, height: nat, row: nat)
      requires scalingLut == [] || |scalingLut| == width
      requires SourceCovers(src, scalingLut, stride, width, height) && row < height && row * width + width <= dst.Length
      modifies dst
      ensures forall x :: 0 <= x < width ==>
        dst[DestIndex(width, row, x)] == src[SourceIndex(scalingLut, stride, width, row, x)]
      ensures forall k :: 0 <= k < dst.Length && !(row * width <= k < row * width + width) ==> dst[k] == old(dst[k])
    {
      var x := 0;
      while x < width
        invariant x <= width
        invariant forall y :: 0 <= y < x ==> dst[DestIndex(width, row, y)] == src[SourceIndex(scalingLut, stride, width, row, y)]
        invariant forall k :: 0 <= k < dst.Length && !(row * width <= k < row * width + x) ==> dst[k] == old(dst[k])
      {
        dst[row * width + x] := src[SourceIndex(scalingLut, stride, width, row, x)];
        x := x + 1;
      }
    }

    /**
     * copy_pixels_optimized: with a stride equal to the width and no table,
     * one memcpy of width * height pixels; otherwise the row copy (the
     * worker threads each copy a band of rows the same way), as the
     * corrected CopyPixelsScalar does it (see Findings).
     */
    method CopyPixelsOptimized(src: seq<bv32>, dst: array<bv32>, stride: nat, width: nat, height: nat)
      requires scalingLut == [] || |scalingLut| == width
      requires SourceCovers(src, scalingLut, stride, width, height) && height * width <= dst.Length
      modifies dst
      ensures CopiedRows(dst[..], src, scalingLut, stride, width, height)
      ensures forall k :: height * width <= k < dst.Length ==> dst[k] == old(dst[k])
    {
      if stride == width && scalingLut == [] {
        var n := width * height;
        if height > 0 && width > 0 {
          RowBounds(width, height - 1, height, width - 1);
          assert SourceIndex(scalingLut, stride, width, height - 1, width - 1) < |src|;
        }
        forall k | 0 <= k < n {
          dst[k] := src[k];
        }
        forall r, x | 0 <= r < height && 0 <= x < width
          ensures DestIndex(width, r, x) < dst.Length && dst[DestIndex(width, r, x)] == src[SourceIndex(scalingLut, stride, width, r, x)]
        {
          RowBounds(width, r, height, x);
        }
        return;
      }
      CopyPixelsScalar(src, dst, stride, width, height);
    }

    /** start_async_sync: send one geometry request unless one is already pending. */
    method StartAsyncSync()
      modifies this
      ensures syncPending
      ensures log == old(log) + (if old(syncPending) then [] else [GetGeometry])
      ensures scalingLut == old(scalingLut) && lastGpuWidth == old(lastGpuWidth) && lastDisplayWidth == old(lastDisplayWidth)
      ensures presentationFence == old(presentationFence) && fenceAvailable == old(fenceAvailable)
      ensures firstFrame == old(firstFrame) && depthToBpp == old(depthToBpp)
    {
      if syncPending {
        assert old(log) + [] == log;
        return;
      }
      log := log + [GetGeometry];
      syncPending := true;
    }

    /**
     * check_pending_sync: true when nothing is pending or the reply
     * arrived; an error clears the sync and answers false; with neither,
     * the sync stays pending and the answer is false.
     */
    method CheckPendingSync(reply: GeometryReply) returns (done: bool)
      modifies this
      ensures done <==> !old(syncPending) || reply == GeometryOk
      ensures syncPending <==> old(syncPending) && reply == NoReply
      ensures scalingLut == old(scalingLut) && lastGpuWidth == old(lastGpuWidth) && lastDisplayWidth == old(lastDisplayWidth)
      ensures presentationFence == old(presentationFence) && fenceAvailable == old(fenceAvailable)
      ensures firstFrame == old(firstFrame) && depthToBpp == old(depthToBpp) && log == old(log)
    {
      if !syncPending {
        return true;
      }
      match reply
      case GeometryOk =>
        syncPending := false;
        return true;
      case GeometryError =>
        syncPending := false;
        return false;
      case NoReply =>
        return false;
    }

    /** ensure_sync_completion: waits for the reply or the error; either way nothing is pending after. */
    method EnsureSyncCompletion()
      modifies this
      ensures !syncPending
      ensures scalingLut == old(scalingLut) && lastGpuWidth == old(lastGpuWidth) && lastDisplayWidth == old(lastDisplayWidth)
      ensures presentationFence == old(presentationFence) && fenceAvailable == old(fenceAvailable)
      ensures firstFrame == old(firstFrame) && depthToBpp == old(depthToBpp) && log == old(log)
    {
      syncPending := false;
    }

    /**
     * init_fence_sync: with a fence already available nothing happens;
     * otherwise the fence is created and synchronised, and it is available
     * only when the XSync extension is present, the creation succeeded and
     * the synchronising round trip replied. Every failure leaves no fence.
     */
    method InitFenceSync(f: FenceSetup) returns (ok: bool)
      modifies this
      ensures old(fenceAvailable) ==> ok && presentationFence == old(presentationFence) && log == old(log)
      ensures !old(fenceAvailable) ==>
        (ok <==> f.extensionPresent && f.createOk && f.syncReplyOk) &&
        fenceAvailable == ok &&
        (ok ==> presentationFence == f.newFence && log == old(log)) &&
        (!ok && f.extensionPresent ==> presentationFence == XCB_NONE)
      ensures fenceAvailable ==> ok
      ensures scalingLut == old(scalingLut) && lastGpuWidth == old(lastGpuWidth) && lastDisplayWidth == old(lastDisplayWidth)
      ensures syncPending == old(syncPending) && firstFrame == old(firstFrame) && depthToBpp == old(depthToBpp)
    {
      if fenceAvailable {
        return true;
      }
      if !f.extensionPresent {
        return false;
      }
      presentationFence := f.newFence;
      if !f.createOk {
        presentationFence := XCB_NONE;
        return false;
      }
      if f.syncReplyOk {
        fenceAvailable := true;
        return true;
      }
      if presentationFence != XCB_NONE {
        log := log + [DestroyFence(presentationFence)];
        presentationFence := XCB_NONE;
      }
      ok := false;
    }

    /** cleanup_fence_sync: destroy the fence if there is one; afterwards none is there or available. */
    method CleanupFenceSync()
      modifies this
      ensures presentationFence == XCB_NONE && !fenceAvailable
      ensures log == old(log) + (if old(presentationFence) != XCB_NONE then [DestroyFence(old(presentationFence))] else [])
      ensures scalingLut == old(scalingLut) && lastGpuWidth == old(lastGpuWidth) && lastDisplayWidth == old(lastDisplayWidth)
      ensures syncPending == old(syncPending) && firstFrame == old(firstFrame) && depthToBpp == old(depthToBpp)
    {
      if presentationFence != XCB_NONE {
        log := log + [DestroyFence(presentationFence)];
        presentationFence := XCB_NONE;
      } else {
        assert log + [] == log;
      }
      fenceAvailable := false;
    }

    /** wait_for_presentation_fence: await then reset the fence; a no-op without a usable fence. */
    method WaitForPresentationFence()
      modifies this
      ensures log == old(log) + (if fenceAvailable && presentationFence != XCB_NONE
        then [AwaitFence(presentationFence), ResetFence(presentationFence)] else [])
      ensures scalingLut == old(scalingLut) && lastGpuWidth == old(lastGpuWidth) && lastDisplayWidth == old(lastDisplayWidth)
      ensures syncPending == old(syncPending) && presentationFence == old(presentationFence)
      ensures fenceAvailable == old(fenceAvailable) && firstFrame == old(firstFrame) && depthToBpp == old(depthToBpp)
    {
      if !fenceAvailable || presentationFence == XCB_NONE {
        assert log + [] == log;
        return;
      }
      log := log + [AwaitFence(presentationFence), ResetFence(presentationFence)];
    }

    /** trigger_presentation_fence: trigger the fence; a no-op without a usable fence. */
    method TriggerPresentationFence()
      modifies this
      ensures log == old(log) + (if fenceAvailable && presentationFence != XCB_NONE
        then [TriggerFence(presentationFence)] else [])
      ensures scalingLut == old(scalingLut) && lastGpuWidth == old(lastGpuWidth) && lastDisplayWidth == old(lastDisplayWidth)
      ensures syncPending == old(syncPending) && presentationFence == old(presentationFence)
      ensures fenceAvailable == old(fenceAvailable) && firstFrame == old(firstFrame) && depthToBpp == old(depthToBpp)
    {
      if !fenceAvailable || presentationFence == XCB_NONE {
        assert log + [] == log;
        return;
      }
      log := log + [TriggerFence(presentationFence)];
    }

    /** cache_x11_formats: enter every pixmap format of the server, in order. */
    method CacheX11Formats(formats: seq<PixmapFormat>)
      modifies this
      ensures depthToBpp == Cached(old(depthToBpp), formats)
      ensures scalingLut == old(scalingLut) && lastGpuWidth == old(lastGpuWidth) && lastDisplayWidth == old(lastDisplayWidth)
      ensures syncPending == old(syncPending) && presentationFence == old(presentationFence)
      ensures fenceAvailable == old(fenceAvailable) && firstFrame == old(firstFrame) && log == old(log)
    {
      var cache := depthToBpp;
      var i := 0;
      while i < |formats|
        invariant i <= |formats| && cache == Cached(depthToBpp, formats[..i])
      {
        assert formats[..i + 1][..i] == formats[..i];
        cache := cache[formats[i].depth as int := formats[i].bitsPerPixel];
        i := i + 1;
      }
      assert formats[..i] == formats;
      depthToBpp := cache;
    }

    /**
     * get_bits_per_pixel_for_depth: the cached bits per pixel of the depth,
     * else the fallback (32 for depth 24, otherwise the depth as a byte).
     */
    function GetBitsPerPixelForDepth(depth: int): (bpp: nat)
      reads this
      ensures depth in depthToBpp ==> bpp == depthToBpp[depth]
      ensures depth !in depthToBpp ==> bpp == DefaultBitsPerPixel(depth)
    {
      if depth in depthToBpp then depthToBpp[depth] else DefaultBitsPerPixel(depth)
    }

    /**
     * init: cache the server's pixmap formats, create the graphics context
     * (which cannot fail) and try the XSync fence; a missing fence is not
     * an error, the presenter falls back to geometry round trips.
     */
    method Init(formats: seq<PixmapFormat>, f: FenceSetup) returns (r: VkResult)
      requires !fenceAvailable
      modifies this
      ensures r == Success
      ensures depthToBpp == Cached(old(depthToBpp), formats)
      ensures fenceAvailable <==> f.extensionPresent && f.createOk && f.syncReplyOk
      ensures fenceAvailable ==> presentationFence == f.newFence
      ensures scalingLut == old(scalingLut) && syncPending == old(syncPending) && firstFrame == old(firstFrame)
    {
      CacheX11Formats(formats);
      var ok := InitFenceSync(f);
      r := Success;
    }

    /**
     * create_image_resources: record the geometry, size the segment
     * (stride = width * (bpp / 8), size = stride * height), create and
     * attach the primary segment (failure is OUT_OF_HOST_MEMORY, and a
     * failed attach resets shm_id to -1), then try the alternate segment,
     * whose failure only leaves the image single-buffered.
     */
    method CreateImageResources(data: ImageData, width: nat, height: nat, depth: int, c: ShmCalls) returns (r: VkResult)
      modifies this, data
      ensures data.width == width && data.height == height && data.depth == depth
      ensures data.stride == ShmStride(width, depth) && data.shmSize == data.stride * height && data.SizedByWidth()
      ensures r == Success || r == ErrorOutOfHostMemory
      ensures r == Success <==> c.shmId >= 0 && c.attachOk
      ensures c.shmId < 0 ==> data.shmId == c.shmId && data.shmAddr == old(data.shmAddr) && log == old(log)
      ensures c.shmId >= 0 && !c.attachOk ==> data.shmId == -1 && data.shmAddr == FailedAddr && log == old(log)
      ensures r != Success ==> (data.shmSeg == old(data.shmSeg) && data.shmIdAlt == old(data.shmIdAlt) &&
        data.shmAddrAlt == old(data.shmAddrAlt) && data.shmSegAlt == old(data.shmSegAlt))
      ensures r == Success ==>
        data.shmId == c.shmId && data.shmAddr == MappedAt(c.attachAddr) && data.shmSeg == c.seg &&
        (c.shmIdAlt < 0 ==> (data.shmIdAlt == c.shmIdAlt && data.shmAddrAlt == old(data.shmAddrAlt) &&
          data.shmSegAlt == old(data.shmSegAlt) && log == old(log) + [ShmAttach(c.seg, c.shmId)])) &&
        (c.shmIdAlt >= 0 && !c.attachAltOk ==> (data.shmIdAlt == -1 && data.shmAddrAlt == NoAddr &&
          data.shmSegAlt == old(data.shmSegAlt) && log == old(log) + [ShmAttach(c.seg, c.shmId)])) &&
        (c.shmIdAlt >= 0 && c.attachAltOk ==> (data.shmIdAlt == c.shmIdAlt &&
          data.shmAddrAlt == MappedAt(c.attachAltAddr) && data.shmSegAlt == c.segAlt &&
          log == old(log) + [ShmAttach(c.seg, c.shmId), ShmAttach(c.segAlt, c.shmIdAlt)]))
      ensures data.useAltBuffer == old(data.useAltBuffer)
      ensures scalingLut == old(scalingLut) && lastGpuWidth == old(lastGpuWidth) && lastDisplayWidth == old(lastDisplayWidth)
      ensures syncPending == old(syncPending) && presentationFence == old(presentationFence)
      ensures fenceAvailable == old(fenceAvailable) && firstFrame == old(firstFrame) && depthToBpp == old(depthToBpp)
    {
      data.width, data.height, data.depth := width, height, depth;
      data.stride := ShmStride(width, depth);
      data.shmSize := data.stride * height;
      data.shmId := c.shmId;
      if data.shmId < 0 {
        return ErrorOutOfHostMemory;
      }
      if !c.attachOk {
        data.shmAddr := FailedAddr;
        data.shmId := -1;
        return ErrorOutOfHostMemory;
      }
      data.shmAddr := MappedAt(c.attachAddr);
      data.shmSeg := c.seg;
      log := log + [ShmAttach(c.seg, c.shmId)];
      AttachAlternate(data, c);
      r := Success;
    }

    /**
     * The alternate segment of create_image_resources: a failed shmget
     * leaves its id as returned, a failed attach resets the id to -1 and
     * the address to none, and only a successful attach gets a segment.
     */
    method AttachAlternate(data: ImageData, c: ShmCalls)
      modifies this, data
      ensures c.shmIdAlt < 0 ==> (data.shmIdAlt == c.shmIdAlt && data.shmAddrAlt == old(data.shmAddrAlt) &&
        data.shmSegAlt == old(data.shmSegAlt) && log == old(log))
      ensures c.shmIdAlt >= 0 && !c.attachAltOk ==> (data.shmIdAlt == -1 && data.shmAddrAlt == NoAddr &&
        data.shmSegAlt == old(data.shmSegAlt) && log == old(log))
      ensures c.shmIdAlt >= 0 && c.attachAltOk ==> (data.shmIdAlt == c.shmIdAlt &&
        data.shmAddrAlt == MappedAt(c.attachAltAddr) && data.shmSegAlt == c.segAlt &&
        log == old(log) + [ShmAttach(c.segAlt, c.shmIdAlt)])
      ensures data.width == old(data.width) && data.height == old(data.height) && data.depth == old(data.depth)
      ensures data.stride == old(data.stride) && data.shmSize == old(data.shmSize) && data.shmId == old(data.shmId)
      ensures data.shmAddr == old(data.shmAddr) && data.shmSeg == old(data.shmSeg) && data.useAltBuffer == old(data.useAltBuffer)
      ensures scalingLut == old(scalingLut) && lastGpuWidth == old(lastGpuWidth) && lastDisplayWidth == old(lastDisplayWidth)
      ensures syncPending == old(syncPending) && presentationFence == old(presentationFence)
      ensures fenceAvailable == old(fenceAvailable) && firstFrame == old(firstFrame) && depthToBpp == old(depthToBpp)
    {
      data.shmIdAlt := c.shmIdAlt;
      if data.shmIdAlt >= 0 {
        if !c.attachAltOk {
          data.shmIdAlt := -1;
          data.shmAddrAlt := NoAddr;
        } else {
          data.shmAddrAlt := MappedAt(c.attachAltAddr);
          data.shmSegAlt := c.segAlt;
          log := log + [ShmAttach(c.segAlt, c.shmIdAlt)];
        }
      }
    }

    /**
     * The synchronisation at the start of present_image: wait on the fence
     * once a frame has been shown, or without a fence finish any pending
     * geometry round trip; the next frame is no longer the first.
     */
    method BeginFrame()
      modifies this
      ensures !firstFrame
      ensures log == old(log) + FrameWaitCalls(fenceAvailable, old(firstFrame), presentationFence)
      ensures syncPending == (old(syncPending) && old(fenceAvailable))
      ensures scalingLut == old(scalingLut) && lastGpuWidth == old(lastGpuWidth) && lastDisplayWidth == old(lastDisplayWidth)
      ensures presentationFence == old(presentationFence) && fenceAvailable == old(fenceAvailable)
      ensures depthToBpp == old(depthToBpp)
    {
      if fenceAvailable && !firstFrame {
        WaitForPresentationFence();
      } else {
        if !fenceAvailable && syncPending {
          EnsureSyncCompletion();
        }
        assert log + [] == log;
      }
      firstFrame := false;
    }

    /**
     * The synchronisation at the end of a successful present: trigger the
     * fence, or without one start a geometry round trip.
     */
    method EndFrame()
      requires fenceAvailable || !syncPending
      modifies this
      ensures log == old(log) + FrameEndCalls(fenceAvailable, presentationFence)
      ensures syncPending == (old(syncPending) || !old(fenceAvailable))
      ensures scalingLut == old(scalingLut) && lastGpuWidth == old(lastGpuWidth) && lastDisplayWidth == old(lastDisplayWidth)
      ensures presentationFence == old(presentationFence) && fenceAvailable == old(fenceAvailable)
      ensures firstFrame == old(firstFrame) && depthToBpp == old(depthToBpp)
    {
      if fenceAvailable {
        TriggerPresentationFence();
      } else {
        StartAsyncSync();
      }
    }

    /**
     * present_image: synchronise with the previous frame, toggle the
     * image's buffer, pick the active segment and address, and copy the
     * mapped Vulkan image into it. mapped is the address map_host_memory
     * produced (None when it failed); rowPitch is the image's host row
     * pitch. No address or an empty segment is UNKNOWN, memory that is not
     * host-visible is DEVICE_LOST and a failed map is UNKNOWN; a success
     * puts the image on the window and ends the frame.
     */
    method PresentImage(data: ImageData, mapped: Option<nat>, rowPitch: nat) returns (r: VkResult, copy: Option<CopyKind>)
      requires data.SizedByWidth() && LutValid()
      modifies this, data
      ensures LutValid() && !firstFrame && data.useAltBuffer == !old(data.useAltBuffer)
      ensures data.width == old(data.width) && data.height == old(data.height) && data.stride == old(data.stride)
      ensures data.shmSize == old(data.shmSize) && data.shmAddr == old(data.shmAddr) && data.shmAddrAlt == old(data.shmAddrAlt)
      ensures data.shmSeg == old(data.shmSeg) && data.shmSegAlt == old(data.shmSegAlt)
      ensures data.shmId == old(data.shmId) && data.shmIdAlt == old(data.shmIdAlt)
      ensures data.pixmap == old(data.pixmap) && data.pendingCompletions == old(data.pendingCompletions)
      ensures presentationFence == old(presentationFence) && fenceAvailable == old(fenceAvailable)
      ensures var addr := ActiveAddr(!old(data.useAltBuffer), old(data.shmAddr), old(data.shmAddrAlt));
        r == (if addr == NoAddr || old(data.shmSize) == 0 then ErrorUnknown
              else if data.externalMem.memoryType != HostVisible then ErrorDeviceLost
              else if mapped.None? || mapped == Some(0) then ErrorUnknown
              else Success)
      ensures var waits := old(log) + FrameWaitCalls(fenceAvailable, old(firstFrame), presentationFence);
        (r != Success ==> log == waits && copy.None? && syncPending == (old(syncPending) && fenceAvailable)) &&
        (r == Success ==>
          var seg := ActiveSeg(!old(data.useAltBuffer), old(data.shmSeg), old(data.shmSegAlt));
          log == waits + [PutImage(seg)] + FrameEndCalls(fenceAvailable, presentationFence) &&
          copy == Some(CopyFor(data.stride, data.width, data.height, rowPitch)) &&
          scalingLut == [] && syncPending == (old(syncPending) || !fenceAvailable))
    {
      BeginFrame();
      data.useAltBuffer := !data.useAltBuffer;
      var seg := ActiveSeg(data.useAltBuffer, data.shmSeg, data.shmSegAlt);
      var addr := ActiveAddr(data.useAltBuffer, data.shmAddr, data.shmAddrAlt);
      if addr == NoAddr || data.shmSize == 0 {
        return ErrorUnknown, None;
      }
      if data.externalMem.memoryType != HostVisible {
        return ErrorDeviceLost, None;
      }
      if mapped.None? || mapped == Some(0) {
        return ErrorUnknown, None;
      }
      // The GPU and display widths are both the image width, so the table is cleared.
      scalingLut := [];
      copy := Some(CopyFor(data.stride, data.width, data.height, rowPitch));
      log := log + [PutImage(seg)];
      EndFrame();
      r := Success;
    }

    /**
     * destroy_image_resources: detach both segments from the server and
     * both mappings from the process, then clear the ids, the size and the
     * buffer toggle. The geometry fields are left as they were.
     */
    method DestroyImageResources(data: ImageData)
      modifies this, data
      ensures log == old(log) + ReleaseCalls(old(data.shmSeg), old(data.shmSegAlt), old(data.shmAddr), old(data.shmAddrAlt))
      ensures data.shmSeg == XCB_NONE && data.shmSegAlt == XCB_NONE
      ensures data.shmAddr == Unmapped(old(data.shmAddr)) && data.shmAddrAlt == Unmapped(old(data.shmAddrAlt))
      ensures data.shmId == -1 && data.shmIdAlt == -1 && data.shmSize == 0 && !data.useAltBuffer
      ensures data.width == old(data.width) && data.height == old(data.height) && data.depth == old(data.depth)
      ensures data.stride == old(data.stride) && data.SizedByWidth()
      ensures scalingLut == old(scalingLut) && lastGpuWidth == old(lastGpuWidth) && lastDisplayWidth == old(lastDisplayWidth)
      ensures syncPending == old(syncPending) && presentationFence == old(presentationFence)
      ensures fenceAvailable == old(fenceAvailable) && firstFrame == old(firstFrame) && depthToBpp == old(depthToBpp)
    {
      var segCalls := DetachSegments(data);
      var dtCalls := UnmapAddresses(data);
      log := log + (segCalls + dtCalls);
      data.shmId, data.shmIdAlt := -1, -1;
      data.shmSize := 0;
      data.useAltBuffer := false;
    }
  }

  /** The segment half of destroy_image_resources: detach each segment from the server. */
  method DetachSegments(data: ImageData) returns (calls: seq<PresenterCall>)
    modifies data
    ensures calls == DetachCall(old(data.shmSeg)) + DetachCall(old(data.shmSegAlt))
    ensures data.shmSeg == XCB_NONE && data.shmSegAlt == XCB_NONE
    ensures data.shmAddr == old(data.shmAddr) && data.shmAddrAlt == old(data.shmAddrAlt)
    ensures data.width == old(data.width) && data.height == old(data.height) && data.depth == old(data.depth)
    ensures data.stride == old(data.stride) && data.shmSize == old(data.shmSize)
  {
    calls := [];
    if data.shmSeg != XCB_NONE {
      calls := calls + [ShmDetach(data.shmSeg)];
      data.shmSeg := XCB_NONE;
    }
    if data.shmSegAlt != XCB_NONE {
      calls := calls + [ShmDetach(data.shmSegAlt)];
      data.shmSegAlt := XCB_NONE;
    }
  }

  /** The mapping half of destroy_image_resources: detach each mapped address from the process. */
  method UnmapAddresses(data: ImageData) returns (calls: seq<PresenterCall>)
    modifies data
    ensures calls == DtCall(old(data.shmAddr)) + DtCall(old(data.shmAddrAlt))
    ensures data.shmAddr == Unmapped(old(data.shmAddr)) && data.shmAddrAlt == Unmapped(old(data.shmAddrAlt))
    ensures data.shmSeg == old(data.shmSeg) && data.shmSegAlt == old(data.shmSegAlt)
    ensures data.width == old(data.width) && data.height == old(data.height) && data.depth == old(data.depth)
    ensures data.stride == old(data.stride) && data.shmSize == old(data.shmSize)
  {
    calls := [];
    if data.shmAddr.MappedAt? {
      calls := calls + [ShmDt(data.shmAddr.p)];
      data.shmAddr := NoAddr;
    }
    if data.shmAddrAlt.MappedAt? {
      calls := calls + [ShmDt(data.shmAddrAlt.p)];
      data.shmAddrAlt := NoAddr;
    }
  }

  /** A resized vector keeps its prefix and zero-fills the rest. */
  function Resized(v: seq<nat>, n: nat): (w: seq<nat>)
    ensures |w| == n && forall i :: 0 <= i < n && i < |v| ==> w[i] == v[i]
  {
    if n <= |v| then v[..n] else v + seq(n - |v|, _ => 0)
  }
}
