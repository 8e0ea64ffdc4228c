// wsi/extensions/wsi_extension.hpp and wsi_extension.cpp: swapchain
// extension objects and the list that keeps at most one of each type.
module WsiExtension {
  import opened VkTypes

  /**
   * An extension object. Its type is identified by the address of the
   * class's static ext_name array, which get_name() returns (typeName); obj
   * tells two objects of one type apart.
   */
  datatype Ext = Ext(typeName: nat, obj: nat)

  /** wsi_ext::is_same_type(extension): the two get_name() pointers are equal. */
  predicate IsSameType(a: Ext, b: Ext)
  {
    a.typeName == b.typeName
  }

  /** wsi_ext::is_same_type<T>(): T::ext_name is the name address get_name() returns. */
  predicate IsOfType(e: Ext, typeName: nat)
  {
    e.typeName == typeName
  }

  /** No two entries of the list share a type. */
  predicate UniqueTypes(exts: seq<Ext>)
  {
    forall i, j :: 0 <= i < j < |exts| ==> !IsSameType(exts[i], exts[j])
  }

  /** The std::find_if of both lookups: the first entry of the type, or |exts|. */
  function FindType(exts: seq<Ext>, typeName: nat): (k: nat)
    ensures k <= |exts|
    ensures k < |exts| ==> IsOfType(exts[k], typeName)
    ensures forall j :: 0 <= j < k ==> !IsOfType(exts[j], typeName)
  {
    if exts == [] then 0
    else if IsOfType(exts[0], typeName) then 0
    else 1 + FindType(exts[1..], typeName)
  }

  class Maintainer {
    /** m_enabled_extensions. */
    var enabled: seq<Ext>

    /** The constructor: no extension enabled. */
    constructor ()
      ensures enabled == []
    {
      enabled := [];
    }

    /**
     * get_extension<T>(): the first enabled extension of type T, or null;
     * a read-only lookup. With unique types it is the only one.
     */
    function GetExtension(typeName: nat): (r: Option<Ext>)
      reads this
      ensures r.Some? ==> r.value in enabled && IsOfType(r.value, typeName)
      ensures r.None? <==> forall j :: 0 <= j < |enabled| ==> !IsOfType(enabled[j], typeName)
      ensures r.Some? && UniqueTypes(enabled) ==>
        forall j :: 0 <= j < |enabled| && IsOfType(enabled[j], typeName) ==> enabled[j] == r.value
    {
      var k := FindType(enabled, typeName);
      if k < |enabled| then Some(enabled[k]) else None
    }

    /**
     * add_extension: a null extension gives false and no change. An
     * extension whose type is already listed replaces that entry in place
     * and gives true (the source also asserts in debug builds). Any other
     * is appended when the push succeeds (pushOk), and the push result is
     * returned. The list never gains a second entry of one type.
     */
    method AddExtension(extension: Option<Ext>, pushOk: bool) returns (ok: bool)
      modifies this
      ensures extension.None? ==> !ok && enabled == old(enabled)
      ensures extension.Some? && FindType(old(enabled), extension.value.typeName) < |old(enabled)| ==>
        ok && enabled == old(enabled)[FindType(old(enabled), extension.value.typeName) := extension.value]
      ensures extension.Some? && FindType(old(enabled), extension.value.typeName) == |old(enabled)| ==>
        ok == pushOk && enabled == if pushOk then old(enabled) + [extension.value] else old(enabled)
      ensures UniqueTypes(old(enabled)) ==> UniqueTypes(enabled)
    {
      if extension.None? {
        return false;
      }
      var e := extension.value;
      var k := FindType(enabled, e.typeName);
      if k < |enabled| {
        enabled := enabled[k := e];
        return true;
      }
      if pushOk {
        enabled := enabled + [e];
      }
      ok := pushOk;
    }
  }

  /** After adding an extension, get_extension of its type finds exactly it. */
  lemma AddedIsFound(exts: seq<Ext>, e: Ext)
    requires UniqueTypes(exts)
    ensures var k := FindType(exts, e.typeName);
      var after := if k < |exts| then exts[k := e] else exts + [e];
      FindType(after, e.typeName) < |after| && after[FindType(after, e.typeName)] == e
  {
    var k := FindType(exts, e.typeName);
    var after := if k < |exts| then exts[k := e] else exts + [e];
    FindTypeIs(after, e.typeName, k);
  }

  /**
   * The list add_extension leaves behind when the extension is non-null and
   * the push succeeds: the entry of the same type replaced in place, or the
   * extension appended. It holds every type it held before plus the new
   * one, and no type twice.
   */
  lemma AddKeepsTypesUnique(exts: seq<Ext>, e: Ext)
    requires UniqueTypes(exts)
    ensures var k := FindType(exts, e.typeName);
      var after := if k < |exts| then exts[k := e] else exts + [e];
      UniqueTypes(after) && e in after &&
      |after| == (if k < |exts| then |exts| else |exts| + 1) &&
      forall x :: x in exts ==> exists y :: y in after && IsSameType(x, y)
  {
    var k := FindType(exts, e.typeName);
    var after := if k < |exts| then exts[k := e] else exts + [e];
    forall i, j | 0 <= i < j < |after|
      ensures !IsSameType(after[i], after[j])
    {
      if k < |exts| {
        if i == k {
          assert !IsOfType(exts[j], e.typeName) by {
            assert IsSameType(exts[k], e) && !IsSameType(exts[k], exts[j]);
          }
        } else if j == k {
          assert !IsOfType(exts[i], e.typeName);
        }
      } else if j == |exts| {
        assert FindType(exts, e.typeName) == |exts|;
        assert !IsOfType(exts[i], e.typeName);
      }
    }
    assert UniqueTypes(after);
    assert e in after by {
      if k < |exts| { assert after[k] == e; } else { assert after[|exts|] == e; }
    }
    forall x | x in exts
      ensures exists y :: y in after && IsSameType(x, y)
    {
      var i :| 0 <= i < |exts| && exts[i] == x;
      if k < |exts| && i == k {
        assert after[k] == e && after[k] in after && IsSameType(x, e);
      } else {
        assert after[i] == x && after[i] in after;
      }
    }
  }

  /** FindType is the first index whose entry has the type. */
  lemma {:induction false} FindTypeIs(exts: seq<Ext>, typeName: nat, k: nat)
    requires k < |exts| && IsOfType(exts[k], typeName)
    requires forall j :: 0 <= j < k ==> !IsOfType(exts[j], typeName)
    ensures FindType(exts, typeName) == k
  {
    if k > 0 {
      FindTypeIs(exts[1..], typeName, k - 1);
    }
  }
}
