// wsi/compatible_present_modes.hpp: the per-backend table of which present
// modes a swapchain may switch between.
module CompatiblePresentModes {
  import opened VkTypes

  /** MAX_PRESENT_MODES: the size of each row's mode array. */
  const MAX_PRESENT_MODES: nat := 6

  /** present_mode_compatibility: a mode and the first count entries of its 6-slot array. */
  datatype Compatibility = Compatibility(mode: PresentMode, count: nat, modes: seq<PresentMode>)

  predicate WellFormedRow(c: Compatibility)
  {
    |c.modes| == MAX_PRESENT_MODES && c.count <= MAX_PRESENT_MODES
  }

  predicate WellFormedTable(table: seq<Compatibility>)
  {
    forall i :: 0 <= i < |table| ==> WellFormedRow(table[i])
  }

  /** std::find_if over the table: the first row for mode, or the table size. */
  function FindRow(table: seq<Compatibility>, mode: PresentMode): (i: nat)
    ensures i <= |table|
    ensures i < |table| ==> table[i].mode == mode
    ensures forall j :: 0 <= j < i ==> table[j].mode != mode
  {
    if table == [] then 0
    else if table[0].mode == mode then 0
    else 1 + FindRow(table[1..], mode)
  }

  /** std::find_if over modes[..end]: the first position of m, or end. */
  function FindMode(modes: seq<PresentMode>, end: nat, m: PresentMode): (i: nat)
    requires end <= |modes|
    ensures i <= end
    ensures i < end ==> modes[i] == m
    ensures forall j :: 0 <= j < i ==> modes[j] != m
  {
    if end == 0 then 0
    else if FindMode(modes, end - 1, m) < end - 1 then FindMode(modes, end - 1, m)
    else if modes[end - 1] == m then end - 1
    else end
  }

  /**
   * is_compatible_present_modes as written: the search for b stops at
   * count, but its result is compared against the end of the whole 6-slot
   * array.
   */
  function IsCompatibleAsWritten(table: seq<Compatibility>, a: PresentMode, b: PresentMode): (r: bool)
    requires WellFormedTable(table)
    ensures r <==> FindRow(table, a) < |table| &&
                   (table[FindRow(table, a)].count < MAX_PRESENT_MODES ||
                    exists j :: 0 <= j < table[FindRow(table, a)].count && table[FindRow(table, a)].modes[j] == b)
  {
    var i := FindRow(table, a);
    if i == |table| then false
    else FindMode(table[i].modes, table[i].count, b) != MAX_PRESENT_MODES
  }

  /** is_compatible_present_modes as intended: b is among a's compatible modes. */
  function IsCompatible(table: seq<Compatibility>, a: PresentMode, b: PresentMode): (r: bool)
    requires WellFormedTable(table)
    ensures r <==> FindRow(table, a) < |table| &&
                   exists j :: 0 <= j < table[FindRow(table, a)].count && table[FindRow(table, a)].modes[j] == b
  {
    var i := FindRow(table, a);
    if i == |table| then false
    else FindMode(table[i].modes, table[i].count, b) < table[i].count
  }

  /** A mode without a row is compatible with nothing, as written and as intended. */
  lemma UnknownModeIsIncompatible(table: seq<Compatibility>, a: PresentMode, b: PresentMode)
    requires WellFormedTable(table) && forall i :: 0 <= i < |table| ==> table[i].mode != a
    ensures !IsCompatible(table, a, b) && !IsCompatibleAsWritten(table, a, b)
  {
  }

  /** As written, any b is reported compatible with a mode whose row is not full. */
  lemma AsWrittenAcceptsAnyModeBelowFullRow(table: seq<Compatibility>, a: PresentMode, b: PresentMode)
    requires WellFormedTable(table)
    requires FindRow(table, a) < |table| && table[FindRow(table, a)].count < MAX_PRESENT_MODES
    ensures IsCompatibleAsWritten(table, a, b)
  {
  }

  /** A concrete case: FIFO, listed only with itself, is reported compatible with IMMEDIATE. */
  lemma AsWrittenExample()
    ensures var table := [Compatibility(Fifo, 1, [Fifo, Fifo, Fifo, Fifo, Fifo, Fifo])];
      IsCompatibleAsWritten(table, Fifo, Immediate) && !IsCompatible(table, Fifo, Immediate)
  {
    var table := [Compatibility(Fifo, 1, [Fifo, Fifo, Fifo, Fifo, Fifo, Fifo])];
    assert FindRow(table, Fifo) == 0;
    assert FindMode(table[0].modes, 1, Immediate) == 1;
  }

  /** With a full row, the written comparison is the intended one. */
  lemma AsWrittenAgreesOnFullRow(table: seq<Compatibility>, a: PresentMode, b: PresentMode)
    requires WellFormedTable(table)
    requires FindRow(table, a) < |table| ==> table[FindRow(table, a)].count == MAX_PRESENT_MODES
    ensures IsCompatibleAsWritten(table, a, b) == IsCompatible(table, a, b)
  {
  }

  /** VkSurfacePresentModeCompatibilityEXT: the caller's count and array (None: a null pointer). */
  datatype CompatibilityQuery = CompatibilityQuery(count: nat, modes: Option<seq<PresentMode>>)

  /**
   * get_surface_present_mode_compatibility_common: mode is the
   * VkSurfacePresentModeEXT found in the surface info chain, query the
   * compatibility struct found in the capabilities chain (None when
   * absent); the filled struct is returned. Nothing happens when either
   * struct is missing or the mode has no row. With a null array the count
   * becomes the row's count; otherwise min(count, row count) modes are
   * copied to the front of the array and the count becomes that minimum.
   */
  method GetCompatibility(table: seq<Compatibility>, mode: Option<PresentMode>, query: Option<CompatibilityQuery>)
    returns (res: Option<CompatibilityQuery>)
    requires WellFormedTable(table)
    requires query.Some? && query.value.modes.Some? ==> |query.value.modes.value| >= query.value.count
    ensures mode.None? || query.None? || FindRow(table, mode.value) == |table| ==> res == query
    ensures mode.Some? && query.Some? && FindRow(table, mode.value) < |table| ==>
      var row := table[FindRow(table, mode.value)];
      var q := query.value;
      res.Some? &&
      (q.modes.None? ==> res.value == CompatibilityQuery(row.count, None)) &&
      (q.modes.Some? ==>
        var n := if q.count < row.count then q.count else row.count;
        res.value.count == n && res.value.modes.Some? &&
        res.value.modes.value == row.modes[..n] + q.modes.value[n..])
  {
    if mode.None? || query.None? {
      return query;
    }
    var i := FindRow(table, mode.value);
    if i == |table| {
      return query;
    }
    var row := table[i];
    var q := query.value;
    if q.modes.None? {
      return Some(CompatibilityQuery(row.count, None));
    }
    var n := if q.count < row.count then q.count else row.count;
    var out := q.modes.value;
    var k := 0;
    while k < n
      invariant k <= n && |out| == |q.modes.value|
      invariant forall j :: 0 <= j < k ==> out[j] == row.modes[j]
      invariant forall j :: k <= j < |out| ==> out[j] == q.modes.value[j]
    {
      out := out[k := row.modes[k]];
      k := k + 1;
    }
    Spliced(out, row.modes, q.modes.value, n);
    res := Some(CompatibilityQuery(n, Some(out)));
  }

  /** A sequence that agrees with a below n and with b from n on is a[..n] + b[n..]. */
  lemma Spliced(out: seq<PresentMode>, a: seq<PresentMode>, b: seq<PresentMode>, n: nat)
    requires n <= |a| && n <= |b| == |out|
    requires forall j :: 0 <= j < n ==> out[j] == a[j]
    requires forall j :: n <= j < |out| ==> out[j] == b[j]
    ensures out == a[..n] + b[n..]
  {
  }
}
