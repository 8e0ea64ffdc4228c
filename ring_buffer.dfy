// util/ring_buffer.hpp: a fixed-capacity FIFO over an array of optional
// slots. The live entries occupy the slots begin, begin + 1, ... (wrapping
// around the end of the array); every other slot is empty.
module RingBuffer {
  import opened VkTypes

  /** Wrap an index below twice the capacity n back into [0, n). */
  function Wrap(x: nat, n: nat): nat
  {
    if x < n then x else x - n
  }

  /** The slot of the k-th oldest entry when the oldest is in slot b. */
  function SlotAt(b: nat, k: nat, n: nat): nat
  {
    Wrap(b + k, n)
  }

  class RingBuffer<T> {
    /** The slots (m_data); its length is the capacity N. */
    const data: array<Option<T>>
    /** The slot of the oldest entry (m_begin). */
    var begin: nat
    /** The number of entries (m_size). */
    var size: nat
    /** The entries from oldest to newest. */
    ghost var items: seq<T>

    ghost predicate Valid()
      reads this, data
    {
      data.Length > 0 && begin < data.Length && size <= data.Length && size == |items| &&
      (forall k :: 0 <= k < size ==> data[SlotAt(begin, k, data.Length)] == Some(items[k])) &&
      (forall k :: size <= k < data.Length ==> data[SlotAt(begin, k, data.Length)] == None)
    }

    /** A ring buffer with capacity n: every slot empty, begin 0, size 0. */
    constructor (n: nat)
      requires n > 0
      ensures Valid() && fresh(data) && data.Length == n && items == []
    {
      data := new Option<T>[n](_ => None);
      begin := 0;
      size := 0;
      items := [];
    }

    /** capacity(): N. */
    function Capacity(): (c: nat)
      reads this
      ensures c == data.Length
    {
      data.Length
    }

    /** size(): the number of entries, never more than the capacity. */
    function Size(): (n: nat)
      reads this, data
      requires Valid()
      ensures n == |items| && n <= Capacity()
    {
      size
    }

    /**
     * push_back: on a full buffer, false and nothing changes; otherwise the
     * item fills the slot after the newest entry and becomes the newest.
     */
    method PushBack(x: T) returns (ok: bool)
      requires Valid()
      modifies this, data
      ensures Valid()
      ensures ok <==> old(|items|) < Capacity()
      ensures items == if ok then old(items) + [x] else old(items)
      ensures begin == old(begin)
    {
      if size == data.Length {
        return false;
      }
      var n := data.Length;
      var s := (begin + size) % n;
      ModSmall(begin + size, n);
      assert s == SlotAt(begin, size, n);
      data[s] := Some(x);
      size := size + 1;
      items := items + [x];
      ok := true;
    }

    /** front(): the oldest entry, or nothing when the buffer is empty. */
    function Front(): (r: Option<T>)
      reads this, data
      requires Valid()
      ensures r == if |items| == 0 then None else Some(items[0])
    {
      assert SlotAt(begin, 0, data.Length) == begin;
      data[begin]
    }

    /** back(): the newest entry, or nothing when the buffer is empty. */
    function Back(): (r: Option<T>)
      reads this, data
      requires Valid()
      ensures r == if |items| == 0 then None else Some(items[|items| - 1])
    {
      var n := data.Length;
      ModSmall(begin + size + n - 1, n);
      assert (begin + size + n - 1) % n == SlotAt(begin, if size == 0 then n - 1 else size - 1, n);
      data[(begin + size + n - 1) % n]
    }

    /**
     * pop_front: on an empty buffer, nothing and no change; otherwise the
     * oldest entry is moved out (its slot left empty) and begin advances.
     */
    method PopFront() returns (r: Option<T>)
      requires Valid()
      modifies this, data
      ensures Valid()
      ensures r == if old(|items|) == 0 then None else Some(old(items[0]))
      ensures items == if old(|items|) == 0 then old(items) else old(items[1..])
    {
      if size == 0 {
        return None;
      }
      var n := data.Length;
      var b := begin;
      assert SlotAt(b, 0, n) == b;
      r := data[b];
      data[b] := None;
      ModSmall(begin + 1, n);
      begin := (begin + 1) % n;
      size := size - 1;
      items := items[1..];
      assert forall k :: 0 <= k < n - 1 ==> SlotAt(begin, k, n) == SlotAt(b, k + 1, n);
      assert SlotAt(begin, n - 1, n) == b;
    }
  }

  /** Below three times the modulus, % subtracts the modulus at most twice. */
  lemma ModSmall(x: nat, n: nat)
    requires 0 < n && x < 3 * n
    ensures x % n == if x < n then x else if x < 2 * n then x - n else x - 2 * n
  {
    var q := x / n;
    assert x == q * n + x % n;
    if q >= 3 {
      MulAtLeast(q, 3, n);
      assert false;
    }
    if q == 2 {
      assert q * n == n + n;
    }
  }

  lemma MulAtLeast(q: nat, m: nat, n: nat)
    requires q >= m
    ensures q * n >= m * n
  {
  }
}
