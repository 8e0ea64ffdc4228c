// The Vulkan two-call enumeration idiom, as the layer implements it for
// vkEnumerate*Properties (layer/layer.cpp) and for the surface queries of
// the headless and Wayland backends: a call without an output array asks
// for the count; a call with one receives at most the caller's count of
// entries and VK_INCOMPLETE when that was not all of them.
module Enumeration {
  import opened VkTypes

  function Min(a: nat, b: nat): (m: nat)
    ensures m <= a && m <= b && (m == a || m == b)
  {
    if a < b then a else b
  }

  /** The caller's side of one call: its count and its array (None: a null pointer). */
  datatype Query<T> = Query(count: nat, out: Option<seq<T>>)

  /** The caller's array holds at least the count it passes, as Vulkan requires. */
  predicate WellFormedQuery<T>(q: Query<T>)
  {
    q.out.Some? ==> |q.out.value| >= q.count
  }

  /**
   * The outcome of one call over the available entries: the result, and
   * the query as the caller sees it afterwards.
   */
  function EnumerateOutcome<T>(available: seq<T>, q: Query<T>): (r: (VkResult, Query<T>))
    requires WellFormedQuery(q)
  {
    if q.out.None? then (Success, Query(|available|, None))
    else
      var n := Min(q.count, |available|);
      (if n < |available| then Incomplete else Success, Query(n, Some(available[..n] + q.out.value[n..])))
  }

  /**
   * What a call promises: without an array, the number available; with
   * one, the first entries in order, as many as fit, the rest of the array
   * untouched, and VK_INCOMPLETE exactly when some entry did not fit.
   */
  lemma EnumerateMeaning<T>(available: seq<T>, q: Query<T>)
    requires WellFormedQuery(q)
    ensures var (res, q') := EnumerateOutcome(available, q);
      (q.out.None? ==> res == Success && q'.count == |available| && q'.out.None?) &&
      (q.out.Some? ==>
        q'.count <= q.count && q'.count <= |available| && q'.out.Some? &&
        |q'.out.value| == |q.out.value| &&
        (forall i :: 0 <= i < q'.count ==> q'.out.value[i] == available[i]) &&
        (forall i :: q'.count <= i < |q.out.value| ==> q'.out.value[i] == q.out.value[i]) &&
        (res == Incomplete <==> q.count < |available|) &&
        (res != Incomplete ==> res == Success && q'.count == |available|))
  {
  }

  /**
   * The protocol: asking for the count and then passing an array of that
   * size returns every entry, in order, with VK_SUCCESS.
   */
  lemma TwoCallsReturnAll<T>(available: seq<T>, buffer: seq<T>)
    requires |buffer| == |available|
    ensures var (_, q1) := EnumerateOutcome(available, Query(0, None));
      EnumerateOutcome(available, Query(q1.count, Some(buffer))) == (Success, Query(|available|, Some(available)))
  {
    assert available[..|available|] + buffer[|available|..] == available;
  }

  /** The call itself: the count is written and the entries copied one by one. */
  method Enumerate<T>(available: seq<T>, q: Query<T>) returns (res: VkResult, q': Query<T>)
    requires WellFormedQuery(q)
    ensures (res, q') == EnumerateOutcome(available, q)
  {
    if q.out.None? {
      return Success, Query(|available|, None);
    }
    var n := Min(q.count, |available|);
    var out := q.out.value;
    var i := 0;
    while i < n
      invariant i <= n && |out| == |q.out.value|
      invariant out == available[..i] + q.out.value[i..]
    {
      out := out[i := available[i]];
      assert available[..i + 1] == available[..i] + [available[i]];
      i := i + 1;
    }
    res := if n < |available| then Incomplete else Success;
    q' := Query(n, Some(out));
  }
}
