// wsi/frame_boundary.cpp: the frame boundary handler of the swapchain. Its
// free create_frame_boundary(present_info) has the same body as the
// extension's: as written it searches for VK_STRUCTURE_TYPE_PRESENT_ID_KHR
// (FrameBoundaryExtension.AppBoundaryAsWritten). The handler below uses the
// corrected search for VK_STRUCTURE_TYPE_FRAME_BOUNDARY_EXT,
// FrameBoundaryExtension.AppBoundary (see Findings).
module FrameBoundary {
  import opened VkTypes
  import opened Helpers
  import opened FrameBoundaryExtension

  /** frame_boundary_handler. */
  class FrameBoundaryHandler {
    /** m_handle_frame_boundary_events. */
    const handleEvents: bool
    /** m_current_frame_boundary_id. */
    var currentId: nat

    constructor (layerHandlesEvents: bool)
      ensures handleEvents == layerHandlesEvents && currentId == 0
    {
      handleEvents := layerHandlesEvents;
      currentId := 0;
    }

    /** create_frame_boundary(image): the next frame ID, which then advances by one. */
    method CreateFrameBoundary(image: nat) returns (fb: FrameBoundary)
      modifies this
      ensures fb == Generated(old(currentId), image)
      ensures currentId == old(currentId) + 1
    {
      fb := Generated(currentId, image);
      currentId := currentId + 1;
    }

    /**
     * handle_frame_boundary_event: when the layer handles events it always
     * generates a boundary, ignoring the application's; otherwise it
     * returns the application's boundary, as the corrected search finds
     * it, or nothing, leaving the counter.
     */
    method HandleEvent(chain: seq<Node<PresentBody>>, image: nat) returns (r: Option<FrameBoundary>)
      requires WellTyped(chain)
      modifies this
      ensures handleEvents ==> r == Some(Generated(old(currentId), image)) && currentId == old(currentId) + 1
      ensures !handleEvents ==> r == AppBoundary(chain) && currentId == old(currentId)
    {
      if handleEvents {
        var fb := CreateFrameBoundary(image);
        r := Some(fb);
      } else {
        r := AppBoundary(chain);
      }
    }
  }
}
