// wsi/wayland/surface.cpp: the Wayland surface collects the DRM formats
// and modifiers the compositor advertises through zwp_linux_dmabuf_v1.
// Every Wayland call is represented by whether it succeeded; the modifier
// events a roundtrip delivers are a sequence, each carrying whether the
// push into the formats vector found memory.
module WaylandSurface {
  import opened VkTypes

  /** drm_format_pair: a DRM fourcc and a 64-bit format modifier. */
  datatype DrmFormatPair = DrmFormatPair(fourcc: nat, modifier: bv64)

  /** The modifier carried by an event: modifier_hi in the upper half, modifier_low in the lower. */
  function Modifier(hi: bv32, lo: bv32): (m: bv64)
    ensures (m >> 32) as bv32 == hi
    ensures (m & 0xFFFF_FFFF) as bv32 == lo
  {
    (hi as bv64 << 32) | lo as bv64
  }

  /** Distinct (hi, lo) pairs give distinct modifiers. */
  lemma ModifierInjective(hi: bv32, lo: bv32, hi': bv32, lo': bv32)
    requires Modifier(hi, lo) == Modifier(hi', lo')
    ensures hi == hi' && lo == lo'
  {
  }

  /** One zwp_linux_dmabuf_v1.modifier event, and whether pushing its pair found memory. */
  datatype ModifierEvent = ModifierEvent(fourcc: nat, hi: bv32, lo: bv32, pushOk: bool)

  /** The pair an event stores: the fourcc verbatim and the combined modifier. */
  function PairOf(e: ModifierEvent): DrmFormatPair
  {
    DrmFormatPair(e.fourcc, Modifier(e.hi, e.lo))
  }

  /** The pairs of a run of events, in order. */
  function PairsOf(events: seq<ModifierEvent>): (pairs: seq<DrmFormatPair>)
    ensures |pairs| == |events| && forall i :: 0 <= i < |events| ==> pairs[i] == PairOf(events[i])
  {
    if events == [] then [] else PairsOf(events[..|events| - 1]) + [PairOf(events[|events| - 1])]
  }

  /**
   * What the modifier handler leaves after a run of events: the pairs
   * stored and the out-of-memory flag. Once a push fails the flag stays
   * set and no later event is stored.
   */
  function Collected(events: seq<ModifierEvent>): (r: (seq<DrmFormatPair>, bool))
  {
    if events == [] then ([], false)
    else
      var (pairs, oom) := Collected(events[..|events| - 1]);
      var e := events[|events| - 1];
      if oom then (pairs, true)
      else if e.pushOk then (pairs + [PairOf(e)], false)
      else (pairs, true)
  }

  /**
   * Collected stores exactly the events before the first failed push:
   * without a failure, all of them; with one, the flag is set and the
   * event at the stored count is the first that failed.
   */
  lemma {:induction false} CollectedMeaning(events: seq<ModifierEvent>)
    ensures var (pairs, oom) := Collected(events);
      |pairs| <= |events| && pairs == PairsOf(events[..|pairs|]) &&
      (forall i :: 0 <= i < |pairs| ==> events[i].pushOk) &&
      (oom <==> exists i :: 0 <= i < |events| && !events[i].pushOk) &&
      (!oom ==> |pairs| == |events|) &&
      (oom ==> |pairs| < |events| && !events[|pairs|].pushOk)
  {
    if events != [] {
      var front := events[..|events| - 1];
      var e := events[|events| - 1];
      CollectedMeaning(front);
      var (pairs, oom) := Collected(front);
      assert forall i :: 0 <= i < |front| ==> front[i] == events[i];
      assert front[..|pairs|] == events[..|pairs|];
      if !oom && e.pushOk {
        assert events[..|pairs| + 1] == front + [e];
      }
      if !oom && !e.pushOk {
        assert !events[|events| - 1].pushOk;
      }
      if oom {
        var i :| 0 <= i < |front| && !front[i].pushOk;
        assert !events[i].pushOk;
      }
    }
  }

  /** formats_vector: the vector the handler fills and its sticky out-of-memory flag. */
  class FormatsVector {
    var formats: seq<DrmFormatPair>
    var isOutOfMemory: bool

    constructor (initial: seq<DrmFormatPair>)
      ensures formats == initial && !isOutOfMemory
    {
      formats := initial;
      isOutOfMemory := false;
    }

    /**
     * zwp_linux_dmabuf_v1_modifier_impl: the pair is pushed unless memory
     * already ran out; a failed push sets the flag.
     */
    method OnModifier(e: ModifierEvent)
      modifies this
      ensures old(isOutOfMemory) ==> isOutOfMemory && formats == old(formats)
      ensures !old(isOutOfMemory) ==> (isOutOfMemory == !e.pushOk &&
        formats == old(formats) + (if e.pushOk then [PairOf(e)] else []))
    {
      if !isOutOfMemory {
        if e.pushOk {
          formats := formats + [DrmFormatPair(e.fourcc, Modifier(e.hi, e.lo))];
        } else {
          isOutOfMemory := true;
        }
      }
    }

    /** The roundtrip delivers the events in order to the handler. */
    method Deliver(events: seq<ModifierEvent>)
      requires !isOutOfMemory
      modifies this
      ensures formats == old(formats) + Collected(events).0
      ensures isOutOfMemory == Collected(events).1
    {
      var i := 0;
      while i < |events|
        invariant i <= |events|
        invariant formats == old(formats) + Collected(events[..i]).0
        invariant isOutOfMemory == Collected(events[..i]).1
      {
        assert events[..i + 1][..i] == events[..i];
        OnModifier(events[i]);
        i := i + 1;
      }
      assert events[..i] == events;
    }
  }

  /**
   * The outcome get_supported_formats_and_modifiers reports: UNKNOWN when
   * the listener could not be added or the roundtrip failed,
   * OUT_OF_HOST_MEMORY when a push failed, SUCCESS otherwise.
   */
  function FormatsQueryResult(listenerOk: bool, roundtripOk: bool, events: seq<ModifierEvent>): (r: VkResult)
    ensures r in {Success, ErrorUnknown, ErrorOutOfHostMemory}
    ensures r == Success <==> listenerOk && roundtripOk && forall i :: 0 <= i < |events| ==> events[i].pushOk
    ensures r == ErrorUnknown <==> !listenerOk || !roundtripOk
  {
    CollectedMeaning(events);
    if !listenerOk || !roundtripOk then ErrorUnknown
    else if Collected(events).1 then ErrorOutOfHostMemory
    else Success
  }

  /**
   * get_supported_formats_and_modifiers: the handler is attached (no event
   * arrives if that fails) and a roundtrip delivers the events; the
   * result then follows FormatsQueryResult.
   */
  method GetSupportedFormatsAndModifiers(supported: seq<DrmFormatPair>, listenerOk: bool, roundtripOk: bool,
                                         events: seq<ModifierEvent>)
    returns (r: VkResult, supported': seq<DrmFormatPair>)
    ensures r == FormatsQueryResult(listenerOk, roundtripOk, events)
    ensures supported' == supported + (if listenerOk then Collected(events).0 else [])
  {
    var v := new FormatsVector(supported);
    if !listenerOk {
      assert supported + [] == supported;
      return ErrorUnknown, supported;
    }
    v.Deliver(events);
    supported' := v.formats;
    if !roundtripOk {
      return ErrorUnknown, supported';
    }
    if v.isOutOfMemory {
      return ErrorOutOfHostMemory, supported';
    }
    r := Success;
  }

  /** What the Wayland calls in surface::init return. */
  datatype InitCalls = InitCalls(
    queueOk: bool, proxyOk: bool, registryOk: bool, registryListenerOk: bool,
    registryRoundtripOk: bool, dmabufFound: bool,
    formatsListenerOk: bool, formatsRoundtripOk: bool, events: seq<ModifierEvent>)

  /** Whether init reaches the formats query. */
  predicate ReachesFormatsQuery(c: InitCalls)
  {
    c.queueOk && c.proxyOk && c.registryOk && c.registryListenerOk && c.registryRoundtripOk && c.dmabufFound
  }

  /** wayland::surface: its event queue and the formats the compositor advertised. */
  class Surface {
    var hasQueue: bool
    var supportedFormats: seq<DrmFormatPair>

    constructor ()
      ensures !hasQueue && supportedFormats == []
    {
      hasQueue := false;
      supportedFormats := [];
    }

    /**
     * surface::init: create the queue, the display proxy and the registry,
     * attach the registry listener, roundtrip to find the dmabuf
     * interface, then collect the formats. It succeeds only when every
     * step does and the formats query returns SUCCESS.
     */
    method Init(c: InitCalls) returns (ok: bool)
      modifies this
      ensures hasQueue == c.queueOk
      ensures ok <==> (ReachesFormatsQuery(c) &&
        FormatsQueryResult(c.formatsListenerOk, c.formatsRoundtripOk, c.events) == Success)
      ensures supportedFormats == old(supportedFormats) +
        (if ReachesFormatsQuery(c) && c.formatsListenerOk then Collected(c.events).0 else [])
    {
      hasQueue := c.queueOk;
      if !ReachesFormatsQuery(c) {
        assert old(supportedFormats) + [] == old(supportedFormats);
        return false;
      }
      var r, formats := GetSupportedFormatsAndModifiers(supportedFormats, c.formatsListenerOk,
                                                        c.formatsRoundtripOk, c.events);
      supportedFormats := formats;
      ok := r == Success;
    }
  }

  /**
   * surface::make_surface: a surface comes back only when its allocation
   * and its init both succeed.
   */
  method MakeSurface(allocOk: bool, c: InitCalls) returns (s: Surface?)
    ensures s != null <==> (allocOk && ReachesFormatsQuery(c) &&
      FormatsQueryResult(c.formatsListenerOk, c.formatsRoundtripOk, c.events) == Success)
    ensures s != null ==> fresh(s) && s.hasQueue && s.supportedFormats == Collected(c.events).0
  {
    if !allocOk {
      return null;
    }
    s := new Surface();
    var ok := s.Init(c);
    if !ok {
      s := null;
    }
  }
}
