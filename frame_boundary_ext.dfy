// wsi/extensions/frame_boundary.cpp: the VK_EXT_frame_boundary extension
// object. The application's own boundary is forwarded when present; the
// layer otherwise generates one per present when it handles frame
// boundary events.
module FrameBoundaryExtension {
  import opened VkTypes
  import opened Helpers

  /** VK_FRAME_BOUNDARY_FRAME_END_BIT_EXT. */
  const FRAME_END_BIT: nat := 1
  /** 'W', 'S', 'I' in ASCII: the layer's tag name. */
  const LAYER_TAG_NAME: nat := 0x575349

  /** The VkFrameBoundaryEXT fields the layer sets (pNext, pBuffers and pTag are null). */
  datatype FrameBoundary = FrameBoundary(flags: nat, frameId: nat, imageCount: nat, image: nat,
                                         bufferCount: nat, tagName: nat, tagSize: nat)

  /** What a structure of the present info's pNext chain carries. */
  datatype PresentBody = FrameBoundaryInfo(fb: FrameBoundary) | OtherInfo

  /** A chain whose VK_STRUCTURE_TYPE_FRAME_BOUNDARY_EXT structures are frame boundaries. */
  predicate WellTyped(chain: seq<Node<PresentBody>>)
  {
    forall i :: 0 <= i < |chain| && chain[i].sType == FrameBoundaryExt ==> chain[i].body.FrameBoundaryInfo?
  }

  /**
   * The boundary the layer generates (create_frame_boundary(image)): frame
   * end, the given frame ID, one image, no buffers, the 'WSI' tag and no
   * tag data.
   */
  function Generated(frameId: nat, image: nat): (fb: FrameBoundary)
    ensures fb.flags == FRAME_END_BIT && fb.frameId == frameId && fb.imageCount == 1 && fb.image == image
    ensures fb.bufferCount == 0 && fb.tagName == LAYER_TAG_NAME && fb.tagSize == 0
  {
    FrameBoundary(FRAME_END_BIT, frameId, 1, image, 0, LAYER_TAG_NAME, 0)
  }

  /**
   * The free create_frame_boundary(present_info) as written: it searches
   * the chain for VK_STRUCTURE_TYPE_PRESENT_ID_KHR, so it returns whatever
   * structure carries that tag (to be copied as a frame boundary).
   */
  function AppBoundaryAsWritten(chain: seq<Node<PresentBody>>): (r: Option<PresentBody>)
    ensures r.None? <==> forall i :: 0 <= i < |chain| ==> chain[i].sType != PresentIdKhr
    ensures r.Some? ==> exists i :: 0 <= i < |chain| && chain[i] == Node(PresentIdKhr, r.value) &&
                                    forall j :: 0 <= j < i ==> chain[j].sType != PresentIdKhr
  {
    FindBody(PresentIdKhr, chain)
  }

  /**
   * As written, the application's frame boundary is never found, and a
   * present-ID structure is taken for one.
   */
  lemma AsWrittenMissesAppBoundary(fb: FrameBoundary)
    ensures AppBoundaryAsWritten([Node(FrameBoundaryExt, FrameBoundaryInfo(fb))]) == None
    ensures AppBoundaryAsWritten([Node(PresentIdKhr, OtherInfo)]) == Some(OtherInfo)
  {
    assert FindExtension(PresentIdKhr, [Node(FrameBoundaryExt, FrameBoundaryInfo(fb))]) == None;
  }

  /**
   * create_frame_boundary(present_info), searching for
   * VK_STRUCTURE_TYPE_FRAME_BOUNDARY_EXT: a copy of the first frame
   * boundary in the chain, or nothing.
   */
  function AppBoundary(chain: seq<Node<PresentBody>>): (r: Option<FrameBoundary>)
    requires WellTyped(chain)
    ensures r.None? <==> forall i :: 0 <= i < |chain| ==> chain[i].sType != FrameBoundaryExt
    ensures r.Some? ==> exists i :: 0 <= i < |chain| && chain[i] == Node(FrameBoundaryExt, FrameBoundaryInfo(r.value)) &&
                                    forall j :: 0 <= j < i ==> chain[j].sType != FrameBoundaryExt
  {
    match FindExtension(FrameBoundaryExt, chain)
    case None => None
    case Some(k) => Some(chain[k].body.fb)
  }

  /** The corrected search finds the application's boundary where the written one does not. */
  lemma AppBoundaryFound(fb: FrameBoundary)
    ensures AppBoundary([Node(FrameBoundaryExt, FrameBoundaryInfo(fb))]) == Some(fb)
    ensures AppBoundary([Node(PresentIdKhr, OtherInfo)]) == None
  {
    assert FindExtension(FrameBoundaryExt, [Node(FrameBoundaryExt, FrameBoundaryInfo(fb))]) == Some(0);
  }

  /** wsi_ext_frame_boundary. */
  class FrameBoundaryExt {
    /** m_handle_frame_boundary_events: whether the layer generates boundaries. */
    const handleEvents: bool
    /** m_current_frame_boundary_id: the next generated frame ID. */
    var currentId: nat

    /** The constructor: the device's choice, and generated IDs start at 0. */
    constructor (layerHandlesEvents: bool)
      ensures handleEvents == layerHandlesEvents && currentId == 0
    {
      handleEvents := layerHandlesEvents;
      currentId := 0;
    }

    /** should_layer_handle_frame_boundary_events. */
    function ShouldLayerHandleEvents(): (b: bool)
      ensures b == handleEvents
    {
      handleEvents
    }

    /** create_frame_boundary(image): the generated boundary takes the next ID, which then advances by one. */
    method CreateFrameBoundary(image: nat) returns (fb: FrameBoundary)
      modifies this
      ensures fb == Generated(old(currentId), image)
      ensures currentId == old(currentId) + 1
    {
      fb := Generated(currentId, image);
      currentId := currentId + 1;
    }

    /**
     * handle_frame_boundary_event: the application's boundary when it gave
     * one (the counter is left alone); otherwise a generated boundary when
     * the layer handles events; otherwise nothing. The application's
     * boundary is found by the corrected search, AppBoundary (see Findings).
     */
    method HandleEvent(chain: seq<Node<PresentBody>>, image: nat) returns (r: Option<FrameBoundary>)
      requires WellTyped(chain)
      modifies this
      ensures AppBoundary(chain).Some? ==> r == AppBoundary(chain) && currentId == old(currentId)
      ensures AppBoundary(chain).None? && handleEvents ==>
        r == Some(Generated(old(currentId), image)) && currentId == old(currentId) + 1
      ensures AppBoundary(chain).None? && !handleEvents ==> r == None && currentId == old(currentId)
    {
      var app := AppBoundary(chain);
      if app.Some? {
        return app;
      }
      if handleEvents {
        var fb := CreateFrameBoundary(image);
        return Some(fb);
      }
      return None;
    }
  }

  /**
   * The free handle_frame_boundary_event: with the extension object, its
   * handler; with a null one, only the application's boundary, as the
   * corrected search finds it (see Findings).
   */
  method HandleFrameBoundaryEvent(chain: seq<Node<PresentBody>>, image: nat, ext: FrameBoundaryExt?)
    returns (r: Option<FrameBoundary>)
    requires WellTyped(chain)
    modifies ext
    ensures ext == null ==> r == AppBoundary(chain)
    ensures ext != null && AppBoundary(chain).Some? ==> r == AppBoundary(chain) && ext.currentId == old(ext.currentId)
    ensures ext != null && AppBoundary(chain).None? ==>
      r == (if ext.handleEvents then Some(Generated(old(ext.currentId), image)) else None) &&
      ext.currentId == old(ext.currentId) + (if ext.handleEvents then 1 else 0)
  {
    if ext != null {
      r := ext.HandleEvent(chain, image);
    } else {
      r := AppBoundary(chain);
    }
  }
}
