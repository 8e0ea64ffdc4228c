// util/extension_list.cpp: an ordered list of extension properties with
// name-based lookups. Names are compared as whole strings (strcmp).
module ExtensionList {
  import opened VkTypes

  /** VK_MAX_EXTENSION_NAME_SIZE: a name must fit with its terminator. */
  const MAX_EXTENSION_NAME_SIZE: nat := 256

  /** VkExtensionProperties. */
  datatype ExtProp = ExtProp(name: string, specVersion: nat)

  /** The names of a list of properties, in order. */
  function Names(props: seq<ExtProp>): (names: seq<string>)
    ensures |names| == |props| && forall i :: 0 <= i < |props| ==> names[i] == props[i].name
  {
    if props == [] then [] else Names(props[..|props| - 1]) + [props[|props| - 1].name]
  }

  /** Properties for bare names: the version is value-initialised to 0. */
  function FromNames(names: seq<string>): (props: seq<ExtProp>)
    ensures |props| == |names| && forall i :: 0 <= i < |names| ==> props[i] == ExtProp(names[i], 0)
  {
    if names == [] then [] else FromNames(names[..|names| - 1]) + [ExtProp(names[|names| - 1], 0)]
  }

  /** contains(name): some entry carries the name. */
  function ContainsName(props: seq<ExtProp>, name: string): (b: bool)
    ensures b <==> exists i :: 0 <= i < |props| && props[i].name == name
  {
    if props == [] then false
    else if props[0].name == name then true
    else
      var b := ContainsName(props[1..], name);
      assert forall i :: 1 <= i < |props| ==> props[1..][i - 1] == props[i];
      b
  }

  /** contains(list): every entry of req is contained. */
  function ContainsAll(props: seq<ExtProp>, req: seq<ExtProp>): (b: bool)
    ensures b <==> forall j :: 0 <= j < |req| ==> ContainsName(props, req[j].name)
  {
    if req == [] then true
    else
      var b := ContainsName(props, req[0].name) && ContainsAll(props, req[1..]);
      assert forall j :: 1 <= j < |req| ==> req[1..][j - 1] == req[j];
      b
  }

  /** Every list contains itself. */
  lemma ContainsAllReflexive(props: seq<ExtProp>)
    ensures ContainsAll(props, props)
  {
    forall j | 0 <= j < |props|
      ensures ContainsName(props, props[j].name)
    {
      assert props[j].name == props[j].name;
    }
  }

  /** ContainsAll is transitive: a list containing b contains everything b contains. */
  lemma ContainsAllTransitive(a: seq<ExtProp>, b: seq<ExtProp>, c: seq<ExtProp>)
    requires ContainsAll(a, b) && ContainsAll(b, c)
    ensures ContainsAll(a, c)
  {
    forall j | 0 <= j < |c|
      ensures ContainsName(a, c[j].name)
    {
      assert ContainsName(b, c[j].name);
      var i :| 0 <= i < |b| && b[i].name == c[j].name;
      assert ContainsName(a, b[i].name);
    }
  }

  /** How many entries of subset equal name. */
  function Occurrences(subset: seq<string>, name: string): (n: nat)
    ensures n <= |subset|
    ensures n > 0 <==> name in subset
  {
    if subset == [] then 0
    else (if subset[0] == name then 1 else 0) + Occurrences(subset[1..], name)
  }

  /** name, once for every subset entry equal to it. */
  function Repeat(name: string, n: nat): (r: seq<string>)
    ensures |r| == n && forall i :: 0 <= i < n ==> r[i] == name
  {
    if n == 0 then [] else Repeat(name, n - 1) + [name]
  }

  /**
   * The names the filtered add collects: extensions in order, each once
   * per equal subset entry.
   */
  function Filtered(extensions: seq<string>, subset: seq<string>): (r: seq<string>)
  {
    if extensions == [] then []
    else
      var last := extensions[|extensions| - 1];
      Filtered(extensions[..|extensions| - 1], subset) + Repeat(last, Occurrences(subset, last))
  }

  /** Only names from both lists are collected, and every extension in the subset is collected. */
  lemma {:induction false} FilteredMembers(extensions: seq<string>, subset: seq<string>)
    ensures forall n :: n in Filtered(extensions, subset) <==> n in extensions && n in subset
  {
    if extensions != [] {
      var init := extensions[..|extensions| - 1];
      var last := extensions[|extensions| - 1];
      FilteredMembers(init, subset);
      assert extensions == init + [last];
      var tail := Repeat(last, Occurrences(subset, last));
      forall n
        ensures n in Filtered(extensions, subset) <==> n in extensions && n in subset
      {
        assert Filtered(extensions, subset) == Filtered(init, subset) + tail;
        if n in tail {
          assert tail[0] == last;
        }
      }
    }
  }

  /** With a duplicate-free subset, the filtered add keeps each common extension once per occurrence. */
  lemma {:induction false} FilteredLength(extensions: seq<string>, subset: seq<string>)
    requires forall i, j :: 0 <= i < j < |subset| ==> subset[i] != subset[j]
    ensures |Filtered(extensions, subset)| <= |extensions|
  {
    if extensions != [] {
      FilteredLength(extensions[..|extensions| - 1], subset);
      OccursAtMostOnce(subset, extensions[|extensions| - 1]);
    }
  }

  lemma {:induction false} OccursAtMostOnce(subset: seq<string>, name: string)
    requires forall i, j :: 0 <= i < j < |subset| ==> subset[i] != subset[j]
    ensures Occurrences(subset, name) <= 1
  {
    if subset != [] {
      OccursAtMostOnce(subset[1..], name);
    }
  }

  /**
   * remove(ext) as written: std::remove_if compacts the kept entries to
   * the front (slots from there on keep their old contents) and the
   * single-iterator erase then drops only the one entry at the returned
   * position. With no match that position is end(), which erase does not
   * accept (None).
   */
  function RemoveAsWritten(props: seq<ExtProp>, name: string): (r: Option<seq<ExtProp>>)
    ensures r.None? <==> forall i :: 0 <= i < |props| ==> props[i].name != name
    ensures r.Some? ==> |r.value| == |props| - 1
  {
    var kept := Kept(props, name);
    if |kept| == |props| then None
    else Some(kept + props[|kept| + 1..])
  }

  /** The entries whose name differs from name, in order. */
  function Kept(props: seq<ExtProp>, name: string): (r: seq<ExtProp>)
    ensures |r| <= |props|
    ensures forall i :: 0 <= i < |r| ==> r[i].name != name
    ensures forall p :: p in props && p.name != name ==> p in r
    ensures forall p :: p in r ==> p in props
    ensures |r| == |props| <==> forall i :: 0 <= i < |props| ==> props[i].name != name
  {
    if props == [] then []
    else
      var init := Kept(props[..|props| - 1], name);
      var last := props[|props| - 1];
      assert props == props[..|props| - 1] + [last];
      if last.name == name then
        assert |init| < |props| ==> exists i :: 0 <= i < |props| && props[i].name == name;
        init
      else init + [last]
  }

  /** A name listed twice survives remove as written. */
  lemma RemoveAsWrittenKeepsDuplicate()
    ensures RemoveAsWritten([ExtProp("a", 0), ExtProp("b", 0), ExtProp("a", 0)], "a") ==
            Some([ExtProp("b", 0), ExtProp("a", 0)])
  {
    var props := [ExtProp("a", 0), ExtProp("b", 0), ExtProp("a", 0)];
    assert props[..2] == [ExtProp("a", 0), ExtProp("b", 0)];
    assert props[..2][..1] == [ExtProp("a", 0)];
    assert props[..2][..1][..0] == [];
    assert Kept(props[..2][..1], "a") == [];
    assert Kept(props[..2], "a") == [ExtProp("b", 0)];
    assert Kept(props, "a") == [ExtProp("b", 0)];
    assert props[2..] == [ExtProp("a", 0)];
    assert RemoveAsWritten(props, "a") == Some(Kept(props, "a") + props[2..]);
    assert [ExtProp("b", 0)] + [ExtProp("a", 0)] == [ExtProp("b", 0), ExtProp("a", 0)];
  }

  /** Removing a name that is not listed hands erase the end iterator. */
  lemma RemoveAsWrittenAbsentName()
    ensures RemoveAsWritten([ExtProp("b", 0)], "a") == None
  {
    assert [ExtProp("b", 0)][..0] == [];
  }

  /** For a name listed exactly once, remove as written agrees with Kept. */
  lemma {:induction false} RemoveAsWrittenSingle(props: seq<ExtProp>, name: string, i: nat)
    requires i < |props| && props[i].name == name
    requires forall j :: 0 <= j < |props| && j != i ==> props[j].name != name
    ensures RemoveAsWritten(props, name) == Some(Kept(props, name))
  {
    KeptLength(props, name, i);
    var kept := Kept(props, name);
    assert props[|kept| + 1..] == [];
    assert kept + [] == kept;
  }

  lemma {:induction false} KeptLength(props: seq<ExtProp>, name: string, i: nat)
    requires i < |props| && props[i].name == name
    requires forall j :: 0 <= j < |props| && j != i ==> props[j].name != name
    ensures |Kept(props, name)| == |props| - 1
  {
    var init := props[..|props| - 1];
    if i < |props| - 1 {
      KeptLength(init, name, i);
    } else {
      KeptAll(init, name);
    }
  }

  lemma {:induction false} KeptAll(props: seq<ExtProp>, name: string)
    requires forall j :: 0 <= j < |props| ==> props[j].name != name
    ensures Kept(props, name) == props
  {
    if props != [] {
      KeptAll(props[..|props| - 1], name);
    }
  }

  /**
   * The inner loop of the filtered add for one extension: push name once
   * per equal subset entry while there is room (full: a push failed).
   */
  method CollectName(name: string, subset: seq<string>, toAdd: seq<string>, room: nat)
    returns (grown: seq<string>, full: bool)
    requires |toAdd| <= room
    ensures !full ==> grown == toAdd + Repeat(name, Occurrences(subset, name)) && |grown| <= room
    ensures full ==> |toAdd| + Occurrences(subset, name) > room
  {
    grown := toAdd;
    var s := 0;
    while s < |subset|
      invariant s <= |subset| && grown == toAdd + Repeat(name, Occurrences(subset[..s], name))
      invariant |grown| <= room
    {
      OccurrencesSnoc(subset[..s + 1], name);
      assert subset[..s + 1][..s] == subset[..s];
      if name == subset[s] {
        if |grown| >= room {
          OccurrencesPrefix(subset, s + 1, name);
          return grown, true;
        }
        grown := grown + [name];
      }
      s := s + 1;
    }
    assert subset[..s] == subset;
    full := false;
  }

  /** The filtered names are extensions, so they fit wherever the extensions do. */
  lemma FilteredNamesFit(extensions: seq<string>, subset: seq<string>)
    requires forall i :: 0 <= i < |extensions| ==> |extensions[i]| < MAX_EXTENSION_NAME_SIZE
    ensures forall i :: 0 <= i < |Filtered(extensions, subset)| ==> |Filtered(extensions, subset)[i]| < MAX_EXTENSION_NAME_SIZE
  {
    var f := Filtered(extensions, subset);
    FilteredMembers(extensions, subset);
    forall i | 0 <= i < |f|
      ensures |f[i]| < MAX_EXTENSION_NAME_SIZE
    {
      assert f[i] in f;
      var j :| 0 <= j < |extensions| && extensions[j] == f[i];
    }
  }

  /** The extension list (m_ext_props). */
  class ExtensionList {
    var props: seq<ExtProp>

    constructor ()
      ensures props == []
    {
      props := [];
    }

    /**
     * add(names, count): the list grows by count entries (resizeOk: the
     * resize succeeded), one per name in order. A name too long for
     * extensionName aborts the process, so it is demanded of the caller.
     */
    method AddNames(names: seq<string>, resizeOk: bool) returns (r: VkResult)
      requires forall i :: 0 <= i < |names| ==> |names[i]| < MAX_EXTENSION_NAME_SIZE
      modifies this
      ensures r == (if resizeOk then Success else ErrorOutOfHostMemory)
      ensures props == if resizeOk then old(props) + FromNames(names) else old(props)
    {
      if !resizeOk {
        return ErrorOutOfHostMemory;
      }
      var i := 0;
      while i < |names|
        invariant i <= |names| && props == old(props) + FromNames(names[..i])
      {
        assert names[..i + 1][..i] == names[..i];
        props := props + [ExtProp(names[i], 0)];
        i := i + 1;
      }
      assert names[..i] == names;
      r := Success;
    }

    /**
     * add(names, count, subset, subset_count): collect, in input order,
     * every name equal to a subset entry (room: how many pushes succeed),
     * then add them as names; only the collected names reach the add that
     * aborts on an over-long name.
     */
    method AddFiltered(extensions: seq<string>, subset: seq<string>, room: nat, resizeOk: bool)
      returns (r: VkResult)
      requires forall i :: 0 <= i < |Filtered(extensions, subset)| ==> |Filtered(extensions, subset)[i]| < MAX_EXTENSION_NAME_SIZE
      modifies this
      ensures |Filtered(extensions, subset)| > room ==> r == ErrorOutOfHostMemory && props == old(props)
      ensures |Filtered(extensions, subset)| <= room ==>
        r == (if resizeOk then Success else ErrorOutOfHostMemory) &&
        props == if resizeOk then old(props) + FromNames(Filtered(extensions, subset)) else old(props)
    {
      var toAdd: seq<string> := [];
      var e := 0;
      while e < |extensions|
        invariant e <= |extensions| && toAdd == Filtered(extensions[..e], subset) && |toAdd| <= room
        invariant props == old(props)
      {
        assert extensions[..e + 1][..e] == extensions[..e];
        var grown, full := CollectName(extensions[e], subset, toAdd, room);
        if full {
          FilteredPrefix(extensions, subset, e + 1);
          return ErrorOutOfHostMemory;
        }
        toAdd := grown;
        e := e + 1;
      }
      assert extensions[..e] == extensions;
      r := AddNames(toAdd, resizeOk);
    }

    /** add(prop): appended only when no entry has its name, so adding twice is adding once. */
    method AddProp(p: ExtProp, pushOk: bool) returns (r: VkResult)
      modifies this
      ensures ContainsName(old(props), p.name) ==> r == Success && props == old(props)
      ensures !ContainsName(old(props), p.name) ==>
        r == (if pushOk then Success else ErrorOutOfHostMemory) &&
        props == if pushOk then old(props) + [p] else old(props)
      ensures r == Success ==> ContainsName(props, p.name)
    {
      r := Success;
      if !ContainsName(props, p.name) {
        if !pushOk {
          return ErrorOutOfHostMemory;
        }
        props := props + [p];
        assert props[|props| - 1] == p;
      }
    }

    /** add(props, count): appended unconditionally, duplicates included. */
    method AddProps(ps: seq<ExtProp>, resizeOk: bool) returns (r: VkResult)
      modifies this
      ensures r == (if resizeOk then Success else ErrorOutOfHostMemory)
      ensures props == if resizeOk then old(props) + ps else old(props)
    {
      if !resizeOk {
        return ErrorOutOfHostMemory;
      }
      var i := 0;
      while i < |ps|
        invariant i <= |ps| && props == old(props) + ps[..i]
      {
        props := props + [ps[i]];
        assert ps[..i + 1] == ps[..i] + [ps[i]];
        i := i + 1;
      }
      assert ps[..i] == ps;
      r := Success;
    }

    /** get_extension_strings: the names, in order, after out's existing entries. */
    method GetExtensionStrings(out: seq<string>, resizeOk: bool) returns (r: VkResult, result: seq<string>)
      ensures r == (if resizeOk then Success else ErrorOutOfHostMemory)
      ensures result == if resizeOk then out + Names(props) else out
    {
      if !resizeOk {
        return ErrorOutOfHostMemory, out;
      }
      result := out;
      var i := 0;
      while i < |props|
        invariant i <= |props| && result == out + Names(props[..i])
      {
        assert props[..i + 1][..i] == props[..i];
        result := result + [props[i].name];
        i := i + 1;
      }
      assert props[..i] == props;
      r := Success;
    }

    /** add(list): the other list's names added as names (versions become 0). */
    method AddList(other: ExtensionList, stringsOk: bool, resizeOk: bool) returns (r: VkResult)
      requires forall i :: 0 <= i < |other.props| ==> |other.props[i].name| < MAX_EXTENSION_NAME_SIZE
      modifies this
      ensures r == Success <==> stringsOk && resizeOk
      ensures props == if r == Success then old(props) + FromNames(Names(old(other.props))) else old(props)
    {
      var names;
      r, names := other.GetExtensionStrings([], stringsOk);
      if r != Success {
        return;
      }
      assert names == Names(other.props);
      r := AddNames(names, resizeOk);
    }

    /** contains(name), as the search loop. */
    method Contains(name: string) returns (b: bool)
      ensures b == ContainsName(props, name)
    {
      for i := 0 to |props|
        invariant forall j :: 0 <= j < i ==> props[j].name != name
      {
        if props[i].name == name {
          return true;
        }
      }
      return false;
    }

    /**
     * remove(ext), with the erase taking the whole range [new end, end)
     * as the erase-remove idiom intends: every entry with that name goes,
     * the rest keep their order.
     */
    method Remove(name: string)
      modifies this
      ensures props == Kept(old(props), name)
      ensures !ContainsName(props, name)
    {
      var kept: seq<ExtProp> := [];
      var i := 0;
      while i < |props|
        invariant i <= |props| && kept == Kept(props[..i], name)
      {
        assert props[..i + 1][..i] == props[..i];
        if props[i].name != name {
          kept := kept + [props[i]];
        }
        i := i + 1;
      }
      assert props[..i] == props;
      props := kept;
    }
  }

  lemma {:induction false} OccurrencesSnoc(s: seq<string>, name: string)
    requires |s| > 0
    ensures Occurrences(s, name) == Occurrences(s[..|s| - 1], name) + (if s[|s| - 1] == name then 1 else 0)
  {
    if |s| > 1 {
      OccurrencesSnoc(s[1..], name);
      assert s[1..][..|s[1..]| - 1] == s[..|s| - 1][1..];
    }
  }

  lemma {:induction false} OccurrencesPrefix(s: seq<string>, k: nat, name: string)
    requires k <= |s|
    ensures Occurrences(s[..k], name) <= Occurrences(s, name)
  {
    if k < |s| {
      OccurrencesPrefix(s[..|s| - 1], k, name);
      OccurrencesSnoc(s, name);
      assert s[..|s| - 1][..k] == s[..k];
    } else {
      assert s[..k] == s;
    }
  }

  lemma {:induction false} FilteredPrefix(extensions: seq<string>, subset: seq<string>, k: nat)
    requires k <= |extensions|
    ensures |Filtered(extensions[..k], subset)| <= |Filtered(extensions, subset)|
  {
    if k < |extensions| {
      FilteredPrefix(extensions[..|extensions| - 1], subset, k);
      assert extensions[..|extensions| - 1][..k] == extensions[..k];
    } else {
      assert extensions[..k] == extensions;
    }
  }
}
