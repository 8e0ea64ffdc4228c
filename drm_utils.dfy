// util/drm/drm_utils.cpp: DRM fourcc <-> VkFormat table lookups and the
// plane count of packed RGB fourcc codes. The two tables themselves live
// in a generated header that is not part of this model, so every lookup
// takes them as parameters.
module DrmUtils {
  import opened VkTypes

  /** A VkFormat enumerant; 0 is VK_FORMAT_UNDEFINED. */
  type VkFormat = nat
  const VK_FORMAT_UNDEFINED: VkFormat := 0

  /** One row of fourcc_format_table or srgb_fourcc_format_table. */
  datatype FormatPair = FormatPair(drmFormat: nat, vkFormat: VkFormat)

  /** Position of the first row whose Vulkan format is vk. */
  function FirstVkRow(table: seq<FormatPair>, vk: VkFormat): (r: Option<nat>)
    ensures r.Some? ==> r.value < |table| && table[r.value].vkFormat == vk
    ensures r.Some? ==> forall j :: 0 <= j < r.value ==> table[j].vkFormat != vk
    ensures r.None? <==> forall j :: 0 <= j < |table| ==> table[j].vkFormat != vk
  {
    if |table| == 0 then None
    else if table[0].vkFormat == vk then Some(0)
    else match FirstVkRow(table[1..], vk)
      case None => None
      case Some(k) => Some(k + 1)
  }

  /** Position of the first row whose DRM fourcc is drm. */
  function FirstDrmRow(table: seq<FormatPair>, drm: nat): (r: Option<nat>)
    ensures r.Some? ==> r.value < |table| && table[r.value].drmFormat == drm
    ensures r.Some? ==> forall j :: 0 <= j < r.value ==> table[j].drmFormat != drm
    ensures r.None? <==> forall j :: 0 <= j < |table| ==> table[j].drmFormat != drm
  {
    if |table| == 0 then None
    else if table[0].drmFormat == drm then Some(0)
    else match FirstDrmRow(table[1..], drm)
      case None => None
      case Some(k) => Some(k + 1)
  }

  /**
   * vk_to_drm_format: the main table is searched first, then the sRGB
   * table; 0 when neither has the format.
   */
  function VkToDrmFormat(main: seq<FormatPair>, srgb: seq<FormatPair>, vk: VkFormat): (r: nat)
    ensures FirstVkRow(main, vk).Some? ==> r == main[FirstVkRow(main, vk).value].drmFormat
    ensures FirstVkRow(main, vk).None? && FirstVkRow(srgb, vk).Some? ==>
      r == srgb[FirstVkRow(srgb, vk).value].drmFormat
    ensures ((forall j :: 0 <= j < |main| ==> main[j].vkFormat != vk) &&
             (forall j :: 0 <= j < |srgb| ==> srgb[j].vkFormat != vk)) ==> r == 0
  {
    match FirstVkRow(main, vk)
    case Some(i) => main[i].drmFormat
    case None =>
      match FirstVkRow(srgb, vk)
      case Some(i) => srgb[i].drmFormat
      case None => 0
  }

  /** drm_to_vk_format: searches the main table only. */
  function DrmToVkFormat(main: seq<FormatPair>, drm: nat): (r: VkFormat)
    ensures (exists j :: 0 <= j < |main| && main[j].drmFormat == drm) ==>
      exists j :: 0 <= j < |main| && main[j].drmFormat == drm && main[j].vkFormat == r
    ensures (forall j :: 0 <= j < |main| ==> main[j].drmFormat != drm) ==> r == VK_FORMAT_UNDEFINED
    ensures FirstDrmRow(main, drm).Some? ==> r == main[FirstDrmRow(main, drm).value].vkFormat
  {
    match FirstDrmRow(main, drm)
    case Some(i) => main[i].vkFormat
    case None => VK_FORMAT_UNDEFINED
  }

  /** drm_to_vk_srgb_format: searches the sRGB table only. */
  function DrmToVkSrgbFormat(srgb: seq<FormatPair>, drm: nat): (r: VkFormat)
    ensures (exists j :: 0 <= j < |srgb| && srgb[j].drmFormat == drm) ==>
      exists j :: 0 <= j < |srgb| && srgb[j].drmFormat == drm && srgb[j].vkFormat == r
    ensures (forall j :: 0 <= j < |srgb| ==> srgb[j].drmFormat != drm) ==> r == VK_FORMAT_UNDEFINED
    ensures FirstDrmRow(srgb, drm).Some? ==> r == srgb[FirstDrmRow(srgb, drm).value].vkFormat
  {
    match FirstDrmRow(srgb, drm)
    case Some(i) => srgb[i].vkFormat
    case None => VK_FORMAT_UNDEFINED
  }

  /**
   * Every lookup returns the first matching row, so converting a Vulkan
   * format to DRM and back gives the format again exactly when its main
   * table row is also the first row carrying that DRM code.
   */
  lemma DrmVkRoundTrip(main: seq<FormatPair>, srgb: seq<FormatPair>, i: nat)
    requires i < |main|
    requires forall j :: 0 <= j < i ==> main[j].vkFormat != main[i].vkFormat
    requires forall j :: 0 <= j < i ==> main[j].drmFormat != main[i].drmFormat
    ensures VkToDrmFormat(main, srgb, main[i].vkFormat) == main[i].drmFormat
    ensures DrmToVkFormat(main, VkToDrmFormat(main, srgb, main[i].vkFormat)) == main[i].vkFormat
  {
    var v := main[i].vkFormat;
    assert FirstVkRow(main, v) == Some(i);
    assert FirstDrmRow(main, main[i].drmFormat) == Some(i);
  }

  /**
   * When the first main-table row for a DRM code is not the first row for
   * its Vulkan format, the round trip lands on a different format: the
   * tables are searched first-match, not as a bijection.
   */
  lemma DrmVkRoundTripNeedsFirstRow()
    ensures DrmToVkFormat([FormatPair(7, 40), FormatPair(7, 50)],
                          VkToDrmFormat([FormatPair(7, 40), FormatPair(7, 50)], [], 50)) == 40
  {
    assert FirstVkRow([FormatPair(7, 40), FormatPair(7, 50)], 50) == Some(1);
    assert FirstDrmRow([FormatPair(7, 40), FormatPair(7, 50)], 7) == Some(0);
  }

  /** A Vulkan format that only the sRGB table knows maps to that table's code. */
  lemma SrgbOnlyFormat(main: seq<FormatPair>, srgb: seq<FormatPair>, i: nat)
    requires i < |srgb|
    requires forall j :: 0 <= j < |main| ==> main[j].vkFormat != srgb[i].vkFormat
    requires forall j :: 0 <= j < i ==> srgb[j].vkFormat != srgb[i].vkFormat
    requires forall j :: 0 <= j < i ==> srgb[j].drmFormat != srgb[i].drmFormat
    ensures VkToDrmFormat(main, srgb, srgb[i].vkFormat) == srgb[i].drmFormat
    ensures DrmToVkSrgbFormat(srgb, srgb[i].drmFormat) == srgb[i].vkFormat
  {
    var v := srgb[i].vkFormat;
    assert FirstVkRow(srgb, v) == Some(i);
    assert FirstDrmRow(srgb, srgb[i].drmFormat) == Some(i);
  }

  /** fourcc_code(a, b, c, d): the four characters packed little-endian. */
  function Fourcc(a: char, b: char, c: char, d: char): (code: nat)
    requires a < 128 as char && b < 128 as char && c < 128 as char && d < 128 as char
    ensures code < 0x8000_0000
    ensures code % 0x100 == a as nat
    ensures code / 0x100 % 0x100 == b as nat
    ensures code / 0x100 / 0x100 % 0x100 == c as nat
    ensures code / 0x100 / 0x100 / 0x100 == d as nat
  {
    var high := d as nat * 0x100 + c as nat;
    var middle := high * 0x100 + b as nat;
    ByteSplit(d as nat, c as nat);
    ByteSplit(high, b as nat);
    ByteSplit(middle, a as nat);
    middle * 0x100 + a as nat
  }

  /** Appending a low byte to x can be undone by the division and remainder by 256. */
  lemma ByteSplit(x: nat, low: nat)
    requires low < 0x100
    ensures (x * 0x100 + low) % 0x100 == low && (x * 0x100 + low) / 0x100 == x
  {
  }

  /** The thirty packed RGB fourcc codes that drm_fourcc_format_get_num_planes lists. */
  const SinglePlaneFourccs: seq<nat> := [
    Fourcc('R', 'G', 'B', '8'), Fourcc('B', 'G', 'R', '8'),
    Fourcc('X', 'R', '1', '2'), Fourcc('X', 'B', '1', '2'), Fourcc('R', 'X', '1', '2'), Fourcc('B', 'X', '1', '2'),
    Fourcc('A', 'R', '1', '2'), Fourcc('A', 'B', '1', '2'), Fourcc('R', 'A', '1', '2'), Fourcc('B', 'A', '1', '2'),
    Fourcc('X', 'R', '1', '5'), Fourcc('X', 'B', '1', '5'), Fourcc('R', 'X', '1', '5'), Fourcc('B', 'X', '1', '5'),
    Fourcc('A', 'R', '1', '5'), Fourcc('A', 'B', '1', '5'), Fourcc('R', 'A', '1', '5'), Fourcc('B', 'A', '1', '5'),
    Fourcc('R', 'G', '1', '6'), Fourcc('B', 'G', '1', '6'),
    Fourcc('R', 'G', '2', '4'), Fourcc('B', 'G', '2', '4'),
    Fourcc('X', 'R', '2', '4'), Fourcc('X', 'B', '2', '4'), Fourcc('R', 'X', '2', '4'), Fourcc('B', 'X', '2', '4'),
    Fourcc('A', 'R', '2', '4'), Fourcc('A', 'B', '2', '4'), Fourcc('R', 'A', '2', '4'), Fourcc('B', 'A', '2', '4')
  ]

  const DRM_FORMAT_XRGB8888: nat := Fourcc('X', 'R', '2', '4')
  const DRM_FORMAT_NV12: nat := Fourcc('N', 'V', '1', '2')

  /** drm_fourcc_format_get_num_planes: 1 for a listed packed RGB code, else 0. */
  function NumPlanes(format: nat): (r: nat)
    ensures r <= 1
    ensures r == 1 <==> exists i :: 0 <= i < |SinglePlaneFourccs| && SinglePlaneFourccs[i] == format
  {
    if format in SinglePlaneFourccs then 1 else 0
  }

  /** The list has thirty entries, and codes outside it (such as NV12) get 0. */
  lemma NumPlanesExamples()
    ensures |SinglePlaneFourccs| == 30
    ensures NumPlanes(DRM_FORMAT_XRGB8888) == 1
    ensures NumPlanes(DRM_FORMAT_NV12) == 0
  {
    assert SinglePlaneFourccs[22] == DRM_FORMAT_XRGB8888;
  }
}
