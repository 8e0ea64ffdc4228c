# A Dafny model of the Vulkan WSI layer

This project models the core of the Vulkan WSI layer in Dafny and proves
properties of that model. The WSI layer is a Vulkan layer that implements
the window-system-integration extensions (surfaces, swapchains, present)
on top of a driver that has none of its own. It has one backend per
window system: headless, direct-to-display (DRM/KMS), Wayland and X11 via
MIT-SHM. Each modelled source file is one Dafny module in a file of the
same name:

- **Shared vocabulary.** `vk_types.dfy` (`VkTypes`) holds the Vulkan result codes, the swapchain image states, `Option`, integer widths and the lowest-set-bit scan used to pick memory types. `helpers.dfy` models `util/helpers.hpp`: the pNext-chain search and `TRY`.
- **Utilities.**
  - `ring_buffer.dfy` is a class over an array of optional slots.
  - `optional.dfy` is a move-only optional.
  - `extension_list.dfy` is a class over a sequence of extension names.
  - `check_copyright.dfy` covers the year-range compressor and parser of the pre-commit script, including the round trip `parse(generate(ys)) == ys`.
- **Layer entry points.**
  - `layer.dfy` covers the loader-facing entry points and the chain search.
  - `enumeration.dfy` is the two-call enumeration idiom (`VK_INCOMPLETE` when the caller's array is too small).
  - `private_data.dfy` holds the dispatch-key registries.
  - `swapchain_api.dfy` covers present result aggregation and swapchain creation clean-up.
  - `wsi_factory.dfy` is the table of window systems.
- **Swapchain extensions.**
  - `wsi_extension.dfy` is the per-type extension registry.
  - `compatible_present_modes.dfy`.
  - `swapchain_maintenance.dfy`.
  - `image_compression_control.dfy`.
  - `present_timing.dfy` covers the presentation queue and time domains.
  - `frame_boundary_ext.dfy` and `frame_boundary.dfy` cover frame-boundary IDs.
  - `surface_properties.dfy` holds what every backend shares when it reports surface properties.
- **Allocation.**
  - `wsialloc.dfy` holds the data exchanged with an allocator.
  - `wsialloc_helpers.dfy` covers format selection, linear layout and alignment.
  - `wsialloc_ion.dfy` and `wsialloc_dma_buf_heaps.dfy` are the two allocator back ends.
  - `drm_utils.dfy` covers the DRM fourcc lookups.
  - `external_memory.dfy` is the per-plane memory bookkeeping of an image.
  - `synchronization.dfy` covers the fence-based present synchronisation.
- **Backends.**
  - `headless_*.dfy` for headless.
  - `display_swapchain.dfy` for direct-to-display: negotiation, allocation, framebuffers and the page-flip state machine.
  - `wayland_*.dfy` for Wayland: the surface's format events, the reported surface properties, and the swapchain's buffer release and frame-callback waits.
  - `x11_swapchain.dfy` and `shm_presenter.dfy` for X11: the integer scaling table, the pixel copy, the sync-pending and fence flag machines, and shared-memory segments.

Code that changes state step by step is modelled imperatively:

- Classes whose fields the source updates in place, such as the ring buffer, the extension list, the swapchains, external memory, the fence, the presenter and the registries.
- Arrays where the source works on a buffer, such as the ring buffer's slots and the destination pixels of the SHM copy.
- Loops with their invariants.

Each method is proved against a specification function, and lemmas state what the source promises about that function.

The driver, the kernel, the compositor and the X server are outside the model. Every Vulkan dispatch call, ioctl, `select`, `shmget`/`shmat`, `xcb_*` and `wl_*` call is represented by its result, which is a parameter of the modelled operation. Calls that release or request something are appended to a log field, so that contracts can state what was released and in what order. The generated format tables are parameters too. Allocation that may fail is a boolean or a `room` parameter: the first `room` pushes succeed.

The X11 backend's format negotiation and its wsialloc allocation are the same code as the display backend's, apart from the values the result arrays are preset to. `X11Swapchain` therefore calls `DisplaySwapchain.GetSurfaceCompatibleFormats` and `DisplaySwapchain.AllocateWsialloc` instead of repeating them, and passes the X11 preset (`X11Swapchain.X11PresetResult`).

Where the code and its documentation disagree, the model follows the code. Where the code is evidently wrong, the model states both the code as written and the corrected behaviour; see "## Findings".

## Model

| member | source | states |
|---|---|---|
| VkTypes.LowestSetBit | wsi/external_memory.cpp:128-136 | the memory-type index is the position of the lowest set bit of the mask: that bit is set and no lower one is; 32 only for the zero mask |
| Helpers.FindExtension | util/helpers.hpp:72-92 | the first position in chain order whose sType matches, with no match before it; None exactly when no structure matches (so the null chain gives None); one definition for both overloads |
| Helpers.FindBody | util/helpers.hpp:72-81 | the returned structure is the body of the first chain entry with the requested sType, which FindExtension locates; nothing when no entry has it |
| Helpers.TrySequence | util/helpers.hpp:59-68 | a run of TRY statements returns the first result that is not SUCCESS, and SUCCESS only when every step succeeded |
| Helpers.TrySequenceSuccessTail | util/helpers.hpp:59-68 | a further successful TRY does not change the outcome of the run |
| OptionalValue.Optional.Get | util/optional.hpp:79-82 | the held value is present exactly when has_value is set |
| OptionalValue.Optional.Empty | util/optional.hpp:42 | a default-constructed optional is empty and stores T{} |
| OptionalValue.Optional.Of | util/optional.hpp:49-52 | an optional constructed from a value holds that value |
| OptionalValue.Optional.MoveFrom | util/optional.hpp:59-71 | move construction transfers the value and leaves the source empty; moving an empty optional yields an empty one |
| OptionalValue.Optional.HasValue | util/optional.hpp:79-82 | has_value() is true exactly when a value is held |
| OptionalValue.Optional.Value | util/optional.hpp:90-94 | value() (and `*`, `->`) demands a value and returns the held one |
| OptionalValue.Optional.Reset | util/optional.hpp:100-104 | reset() leaves the optional empty |
| OptionalValue.Optional.Set | util/optional.hpp:111-123 | set(v) and assignment from a value leave the optional holding v |
| OptionalValue.Optional.MoveAssign | util/optional.hpp:167-185 | move-assigning onto itself changes nothing; otherwise the value moves over and the source becomes empty, and moving from an empty optional empties the target |
| RingBuffer.RingBuffer.constructor | util/ring_buffer.hpp:123-129 | a new buffer has capacity N, no entries and begin 0 |
| RingBuffer.RingBuffer.Capacity | util/ring_buffer.hpp:40-43 | capacity() is N |
| RingBuffer.RingBuffer.Size | util/ring_buffer.hpp:48-51 | size() is the number of queued entries and never exceeds N |
| RingBuffer.RingBuffer.PushBack | util/ring_buffer.hpp:57-69 | push_back succeeds exactly when the buffer is not full; then the queue is the old queue with the item at its end, otherwise nothing changes; begin stays in [0, N) |
| RingBuffer.RingBuffer.Front | util/ring_buffer.hpp:74-77 | front() is the oldest queued entry, and nothing on an empty buffer |
| RingBuffer.RingBuffer.Back | util/ring_buffer.hpp:82-85 | back() is the newest queued entry (the last one pushed), and nothing on an empty buffer |
| RingBuffer.RingBuffer.PopFront | util/ring_buffer.hpp:95-108 | pop_front on an empty buffer returns an empty optional and changes nothing; otherwise it returns the oldest entry and the queue loses exactly its head, so entries leave in push order |
| ExtensionList.Names | util/extension_list.cpp:126-140 | the names of a property list, one per entry, in order |
| ExtensionList.FromNames | util/extension_list.cpp:41-60 | a bare name becomes a property with that name and specVersion 0 |
| ExtensionList.ContainsName | util/extension_list.cpp:154-164 | contains(name) holds exactly when some entry carries that name |
| ExtensionList.ContainsAll | util/extension_list.cpp:142-152 | contains(list) holds exactly when every entry of the requested list is contained |
| ExtensionList.ContainsAllReflexive | util/extension_list.cpp:142-164 | every list contains itself |
| ExtensionList.ContainsAllTransitive | util/extension_list.cpp:142-164 | containment of lists is transitive |
| ExtensionList.Occurrences | util/extension_list.cpp:67-79 | the number of subset entries equal to a name is positive exactly when the name is in the subset |
| ExtensionList.Repeat | util/extension_list.cpp:69-79 | the inner loop's pushes for one extension: that name, as many times as asked |
| ExtensionList.FilteredMembers | util/extension_list.cpp:62-87 | the filtered add collects exactly the names present in both the extensions and the subset |
| ExtensionList.FilteredLength | util/extension_list.cpp:62-87 | with a duplicate-free subset the filtered add collects no more names than there are extensions |
| ExtensionList.OccursAtMostOnce | util/extension_list.cpp:69-79 | a name matches at most one entry of a duplicate-free subset |
| ExtensionList.Kept | util/extension_list.cpp:166-171 | the entries remove is meant to keep: none carries the name, every other entry is kept, nothing new appears, and the length drops exactly when the name occurs |
| ExtensionList.RemoveAsWrittenKeepsDuplicate | util/extension_list.cpp:166-171 | as written, a name listed twice still occurs after remove (the single-iterator erase drops one slot only) |
| ExtensionList.RemoveAsWrittenAbsentName | util/extension_list.cpp:166-171 | as written, removing an absent name hands erase the end iterator |
| ExtensionList.RemoveAsWrittenSingle | util/extension_list.cpp:166-171 | for a name listed exactly once, remove as written deletes it and keeps the order of the rest |
| ExtensionList.RemoveAsWritten | util/extension_list.cpp:166-171 | as written: erase gets the end iterator exactly when no entry has the name; otherwise exactly one slot is dropped, however many entries have the name |
| ExtensionList.KeptLength | util/extension_list.cpp:166-171 | removing a name listed once shortens the list by one |
| ExtensionList.KeptAll | util/extension_list.cpp:166-171 | removing an absent name keeps the list as it is |
| ExtensionList.CollectName | util/extension_list.cpp:69-79 | one pass of the inner loop appends the name once per equal subset entry, or reports a failed push once the room is exhausted |
| ExtensionList.FilteredNamesFit | util/extension_list.cpp:62-87 | every name the filtered add collects fits in extensionName whenever the extensions do |
| ExtensionList.ExtensionList.constructor | util/extension_list.cpp:36-39 | a new list is empty |
| ExtensionList.ExtensionList.AddNames | util/extension_list.cpp:41-60 | add(names, count) appends one entry per name, in order, or fails with OUT_OF_HOST_MEMORY and changes nothing; a name of 256 characters or more aborts, so it is required |
| ExtensionList.ExtensionList.AddFiltered | util/extension_list.cpp:62-87 | the filtered add appends, in input order, each extension once per equal subset entry; a failed push gives OUT_OF_HOST_MEMORY with the list unchanged |
| ExtensionList.ExtensionList.AddProp | util/extension_list.cpp:89-99 | add(prop) leaves the list as it is when the name is present and appends the property otherwise, so adding twice is adding once; on success the name is contained |
| ExtensionList.ExtensionList.AddProps | util/extension_list.cpp:101-113 | add(props, count) appends all of them, duplicates included, or fails with OUT_OF_HOST_MEMORY and changes nothing |
| ExtensionList.ExtensionList.GetExtensionStrings | util/extension_list.cpp:126-140 | the output holds its old entries followed by exactly the list's names, in order; a failed resize leaves it unchanged |
| ExtensionList.ExtensionList.AddList | util/extension_list.cpp:115-124 | add(list) appends the other list's names as bare names when both steps succeed, and changes nothing otherwise |
| ExtensionList.ExtensionList.Contains | util/extension_list.cpp:154-164 | the search loop answers ContainsName |
| ExtensionList.ExtensionList.Remove | util/extension_list.cpp:166-171 | remove as intended: every entry with the name goes and the others keep their order (see Findings) |
| ExtensionList.OccurrencesSnoc | util/extension_list.cpp:69-79 | counting matches over a subset extended by one entry adds one exactly when that entry matches |
| ExtensionList.OccurrencesPrefix | util/extension_list.cpp:69-79 | a prefix of the subset has no more matches than the whole |
| ExtensionList.FilteredPrefix | util/extension_list.cpp:62-87 | the filtered add over a prefix of the extensions collects no more names than over all of them |
| CompatiblePresentModes.FindRow | wsi/compatible_present_modes.hpp:91-93 | the table search returns the first row for the mode, with no earlier row for it, or the table size |
| CompatiblePresentModes.FindMode | wsi/compatible_present_modes.hpp:134-137 | the search over the first count modes returns the first position of the mode, or count |
| CompatiblePresentModes.IsCompatibleAsWritten | wsi/compatible_present_modes.hpp:122-139 | as written: true exactly when a has a row and either that row is not full, whatever b is, or b is among its listed modes |
| CompatiblePresentModes.IsCompatible | wsi/compatible_present_modes.hpp:122-139 | as intended: true exactly when a has a row and b is among its first count compatible modes |
| CompatiblePresentModes.UnknownModeIsIncompatible | wsi/compatible_present_modes.hpp:124-131 | a mode without a row is compatible with nothing, both as written and as intended |
| CompatiblePresentModes.AsWrittenAcceptsAnyModeBelowFullRow | wsi/compatible_present_modes.hpp:134-138 | as written, every b is reported compatible with a mode whose row has fewer than 6 entries |
| CompatiblePresentModes.AsWrittenExample | wsi/compatible_present_modes.hpp:134-138 | a row listing only FIFO is reported compatible with IMMEDIATE as written, and not as intended |
| CompatiblePresentModes.AsWrittenAgreesOnFullRow | wsi/compatible_present_modes.hpp:134-138 | with full rows the written comparison is the intended one |
| CompatiblePresentModes.GetCompatibility | wsi/compatible_present_modes.hpp:77-112 | no change when either struct is missing from its chain or the mode has no row; a null array receives the row's count; otherwise min(count, row count) modes are copied in and the rest of the array is untouched |
| WsiExtension.AddKeepsTypesUnique | wsi/extensions/wsi_extension.cpp:43-63 | the list left by a successful add has no type twice, contains the added extension, keeps its length on a replace and grows by one on an append, and still holds every type it held before |
| WsiExtension.FindType | wsi/extensions/wsi_extension.hpp:129-136 | the lookup returns the first entry of the type, with none of that type before it, or the list length |
| WsiExtension.Maintainer.constructor | wsi/extensions/wsi_extension.hpp:129-147 | a new maintainer has no extension enabled |
| WsiExtension.Maintainer.GetExtension | wsi/extensions/wsi_extension.hpp:129-136 | get_extension<T> returns an enabled entry of type T, null exactly when none has that type, and with unique types the only such entry; it reads the list without changing it |
| WsiExtension.Maintainer.AddExtension | wsi/extensions/wsi_extension.cpp:43-63 | null gives false and no change; an extension of a listed type replaces that entry in place, keeps the length and gives true; one of a new type is appended when the push succeeds, which is the result; uniqueness of types is preserved |
| WsiExtension.AddedIsFound | wsi/extensions/wsi_extension.cpp:43-63 | after an add, get_extension of its type finds the added extension |
| WsiExtension.FindTypeIs | wsi/extensions/wsi_extension.hpp:132-135 | the first index holding the type is what the lookup returns |
| ImageCompressionControl.CompressionControlExt.constructor | wsi/extensions/image_compression_control.cpp:39-47 | construction copies flags, the plane count and the first plane-count fixed-rate flags into an array the object owns |
| ImageCompressionControl.CompressionControlExt.CopyOf | wsi/extensions/image_compression_control.cpp:49-52 | the copy has equal flags, count and fixed-rate flags, in a fresh array |
| ImageCompressionControl.CompressionControlExt.GetProperties | wsi/extensions/image_compression_control.cpp:54-57 | the stored structure: the object's flags and plane count, with as many fixed-rate flags as planes |
| ImageCompressionControl.CompressionControlExt.GetBitmask | wsi/extensions/image_compression_control.cpp:59-62 | the bitmask is the stored flags |
| ImageCompressionControl.Create | wsi/extensions/image_compression_control.cpp:64-77 | an object exists exactly when compression control is enabled and the structure is in the chain, and it holds a copy of that structure |
| PrivateData.InstancePrivateData.constructor | layer/private_data.cpp:40-45 | the instance data keeps the instance, its proc-address function and its loader callback |
| PrivateData.DevicePrivateData.constructor | layer/private_data.cpp:76-82 | the device data keeps the device, its proc-address function, a reference to the instance data and its loader callback |
| PrivateData.Registry.constructor | layer/private_data.cpp:36-38 | both global maps start empty |
| PrivateData.Registry.CreateInstanceData | layer/private_data.cpp:47-54 | new instance data is registered under the instance's key, overwriting an earlier entry; the device map is untouched |
| PrivateData.Registry.GetInstanceData | layer/private_data.cpp:56-62 | get demands a registered key (the assert) and returns registered data |
| PrivateData.Registry.DestroyInstanceData | layer/private_data.cpp:64-74 | destroy erases exactly the instance's key, and a key that was never registered leaves the map as it was, as release builds do, and leaves the device map untouched |
| PrivateData.Registry.CreateDeviceDataAsWritten | layer/private_data.cpp:84-91 | as written: the data is registered under the device's key and references the instance data of the physical device's key, but nothing is returned |
| PrivateData.Registry.CreateDeviceData | layer/private_data.cpp:84-91 | as intended: the registered data is returned; it references the instance data found through the physical device's key and overwrites the device key's entry |
| PrivateData.Registry.GetDeviceData | layer/private_data.cpp:93-99 | get demands a registered key (the assert) and returns registered data |
| PrivateData.Registry.DestroyDeviceData | layer/private_data.cpp:101-110 | destroy erases the device's key, without an assertion, and leaves the instance map alone |
| SwapchainMaintenance.Resized | wsi/extensions/swapchain_maintenance.cpp:67-72 | try_resize(n) gives n entries: the old ones first, then value-initialised modes (IMMEDIATE) |
| SwapchainMaintenance.FirstIncompatible | wsi/extensions/swapchain_maintenance.cpp:73-85 | as intended, with the corrected compatibility test (see Findings): the first requested mode incompatible with the current one, all before it compatible, or the count when all are |
| SwapchainMaintenance.CreateInfoSuccess | wsi/extensions/swapchain_maintenance.cpp:60-88 | as intended, with the corrected compatibility test (see Findings): on success the allowed list is exactly the requested modes, each compatible with the current mode |
| SwapchainMaintenance.CreateInfoFailsIffIncompatible | wsi/extensions/swapchain_maintenance.cpp:73-85 | as intended, with the corrected compatibility test (see Findings): INITIALIZATION_FAILED exactly when some requested mode is incompatible with the current mode |
| SwapchainMaintenance.IndeterminateModeChangesOutcome | wsi/extensions/swapchain_maintenance.cpp:73-85 | two possible contents of the uninitialised m_present_mode give different create-info outcomes |
| SwapchainMaintenance.Maintenance.constructor | wsi/extensions/swapchain_maintenance.cpp:40-43 | as intended: no allowed modes yet and the mode in use is the creation mode |
| SwapchainMaintenance.Maintenance.SwitchPresentMode | wsi/extensions/swapchain_maintenance.cpp:46-58 | SUCCESS exactly when the mode is in the allowed list, which then becomes the mode in use; otherwise SURFACE_LOST and no change, including for an empty list (asserted against in debug builds) |
| SwapchainMaintenance.Maintenance.HandlePresentModesCreateInfo | wsi/extensions/swapchain_maintenance.cpp:60-88 | as intended, with the corrected compatibility test `IsCompatible` (see Findings): a missing struct is SUCCESS with the list unchanged; otherwise the list is resized to the count and filled in order until the first incompatible mode, which gives INITIALIZATION_FAILED with the earlier modes already copied |
| SwapchainMaintenance.FirstIncompatibleIs | wsi/extensions/swapchain_maintenance.cpp:73-85 | an index whose mode is the first to fail the check is the one FirstIncompatible returns |
| SwapchainMaintenance.HandleScalingCreateInfo | wsi/extensions/swapchain_maintenance.cpp:90-117 | the only results are SUCCESS and INITIALIZATION_FAILED, and a missing struct is SUCCESS |
| SwapchainMaintenance.SupportedScalingAccepted | wsi/extensions/swapchain_maintenance.cpp:106-114 | a request whose fields all lie within the supported masks is accepted |
| SwapchainMaintenance.UnsupportedScalingRejected | wsi/extensions/swapchain_maintenance.cpp:106-114 | a request naming, in any of scaling behaviour, x gravity or y gravity, a single bit the surface does not support fails with INITIALIZATION_FAILED |
| SwapchainMaintenance.EmptyScalingAccepted | wsi/extensions/swapchain_maintenance.cpp:106-114 | a request with every field zero is accepted whatever the surface supports |
| FrameBoundary.FrameBoundaryHandler.constructor | wsi/frame_boundary.cpp:35-38 | the handler records whether the layer handles boundary events, and frame IDs start at 0 |
| FrameBoundary.FrameBoundaryHandler.CreateFrameBoundary | wsi/frame_boundary.cpp:68-94 | the generated boundary carries the current frame ID, which then advances by one |
| FrameBoundary.FrameBoundaryHandler.HandleEvent | wsi/frame_boundary.cpp:40-61 | as intended, with the corrected search `AppBoundary` (see Findings): with the flag set a boundary is always generated (the ID advances) and the application's is ignored; with it clear the application's boundary or nothing is returned and the ID stays |
| FrameBoundaryExtension.Generated | wsi/extensions/frame_boundary.cpp:82-108 | a generated boundary has FRAME_END, the given frame ID, one image (the presented one), no buffers, tag 0x575349 and tag size 0 |
| FrameBoundaryExtension.AppBoundaryAsWritten | wsi/extensions/frame_boundary.cpp:63-75 | as written: the first present-ID structure of the chain, whatever the chain holds otherwise; nothing exactly when it has none |
| FrameBoundaryExtension.AsWrittenMissesAppBoundary | wsi/extensions/frame_boundary.cpp:63-75 | as written, a chain holding a frame boundary yields nothing, and a present-ID structure is taken for a boundary |
| FrameBoundaryExtension.AppBoundary | wsi/extensions/frame_boundary.cpp:63-75 | as intended: nothing exactly when the chain has no frame boundary, else a copy of the first one in chain order |
| FrameBoundaryExtension.AppBoundaryFound | wsi/extensions/frame_boundary.cpp:63-75 | the corrected search finds the application's boundary and ignores a present-ID structure |
| FrameBoundaryExtension.FrameBoundaryExt.constructor | wsi/extensions/frame_boundary.cpp:35-38 | the extension records the device's choice, and frame IDs start at 0 |
| FrameBoundaryExtension.FrameBoundaryExt.ShouldLayerHandleEvents | wsi/extensions/frame_boundary.cpp:77-80 | the answer is the recorded choice |
| FrameBoundaryExtension.FrameBoundaryExt.CreateFrameBoundary | wsi/extensions/frame_boundary.cpp:82-108 | the generated boundary carries the current frame ID, which then advances by one, so IDs run 0, 1, 2, ... |
| FrameBoundaryExtension.FrameBoundaryExt.HandleEvent | wsi/extensions/frame_boundary.cpp:40-75 | as intended, with the corrected search `AppBoundary` (see Findings): the application's boundary wins and leaves the ID alone; without one a boundary is generated iff the layer handles events; otherwise nothing |
| FrameBoundaryExtension.HandleFrameBoundaryEvent | wsi/extensions/frame_boundary.cpp:110-120 | as intended, with the corrected search `AppBoundary` (see Findings): with a null extension only the application's boundary is returned; otherwise the application's boundary wins and leaves the frame ID alone, and without one a boundary with the current frame ID is generated and the ID advances by one when the layer handles events, while nothing is returned and the ID stays when it does not |
| PresentTiming.CalibrateDomain | wsi/extensions/present_timing.hpp:118-121 | a Vulkan time domain calibrates to its own domain with offset 0 |
| PresentTiming.Calibrate | wsi/time_domains.cpp:37-50 | the calibration of the first domain in list order whose stages intersect the request, with no earlier domain serving it; nothing when none does |
| PresentTiming.CalibrateResult | wsi/time_domains.cpp:37-50 | SUCCESS exactly when some domain serves the stage, OUT_OF_HOST_MEMORY otherwise |
| PresentTiming.CalibrateStableUnderAppend | wsi/extensions/present_timing.cpp:105-118 | adding a domain behind the existing ones never changes a calibration that already succeeded |
| PresentTiming.AsWrittenLosesIds | wsi/time_domains.cpp:62-84 | as written, a caller supplying both arrays gets its id pointer cleared and receives no id |
| PresentTiming.DomainPropertiesAsWritten | wsi/time_domains.cpp:52-88 | as written: INCOMPLETE exactly for properties with a counter below 1; the counter becomes 1 only for null properties; the properties stay present; a non-null id array is returned only where nothing was written, and written domains start with PRESENT_STAGE_LOCAL |
| PresentTiming.Filled | wsi/time_domains.cpp:62-84 | the one domain written: PRESENT_STAGE_LOCAL into the first domain slot and id 0 into the first id slot, each array only when non-null |
| PresentTiming.DomainPropertiesFixed | wsi/time_domains.cpp:52-88 | with a counter: null properties give counter 1 and SUCCESS, properties are filled and the result is INCOMPLETE iff the counter was below 1; without one: two null arrays get count 1, two non-null arrays are filled, mixed arrays are left alone |
| PresentTiming.FixedKeepsIds | wsi/time_domains.cpp:77-84 | the corrected version keeps the caller's id array, and fills it, where the written one drops it |
| PresentTiming.TimeDomains.constructor | wsi/extensions/present_timing.cpp:39-44 | a new domain list is empty |
| PresentTiming.TimeDomains.AddTimeDomain | wsi/extensions/present_timing.cpp:158-165 | null is rejected with no change; otherwise the push result is returned and a successful push appends the domain |
| PresentTiming.TimeDomains.CalibrateStage | wsi/extensions/present_timing.cpp:105-118 | SUCCESS with the first serving domain's calibration, else OUT_OF_HOST_MEMORY; the list is unchanged |
| PresentTiming.CountOutstanding | wsi/extensions/present_timing.cpp:77-89 | the number of entries flagged outstanding, never more than the queue length |
| PresentTiming.Outstanding | wsi/extensions/present_timing.cpp:63-73 | the outstanding entries of the queue, in queue order, and only those |
| PresentTiming.OutstandingCount | wsi/extensions/present_timing.cpp:57-74 | keeping only the outstanding entries keeps the outstanding count |
| PresentTiming.PresentTimingExt.constructor | wsi/extensions/present_timing.cpp:39-44 | a new extension has an empty timing queue and no domains |
| PresentTiming.PresentTimingExt.NumOutstanding | wsi/extensions/present_timing.cpp:77-89 | the loop counts exactly the outstanding entries |
| PresentTiming.PresentTimingExt.SetQueueSize | wsi/extensions/present_timing.cpp:50-75 | NOT_READY with no change when more entries are outstanding than the new size; OUT_OF_HOST_MEMORY with no change when the reservation fails; otherwise the queue becomes its outstanding entries in order, so the count is preserved |
| PresentTiming.PresentTimingExt.AddPresentationEntry | wsi/extensions/present_timing.cpp:91-98 | the entry is appended at the end when the push succeeds, else OUT_OF_HOST_MEMORY and no change |
| PresentTiming.Create | wsi/extensions/present_timing.hpp:180-194 | null when any domain fails to be added; otherwise every domain, in array order |
| HeadlessPresentTiming.HeadlessDomains | wsi/headless/present_timing_handler.cpp:42-51 | QUEUE_OPERATIONS_END maps to the device domain, and LATCHED, FIRST_PIXEL_OUT and FIRST_PIXEL_VISIBLE to CLOCK_MONOTONIC_RAW |
| HeadlessPresentTiming.CreateHeadless | wsi/headless/present_timing_handler.cpp:39-54 | the extension exists exactly when every allocation and push succeeds, and then holds the four domains in order |
| HeadlessPresentTiming.EveryStageCalibrates | wsi/headless/present_timing_handler.cpp:42-53 | every single present stage calibrates successfully on the headless table, to its listed domain |
| HeadlessPresentTiming.GetSwapchainTimingProperties | wsi/headless/present_timing_handler.cpp:56-67 | always SUCCESS with counter 1, refresh duration 5,000,000 ns and variable refresh delay UINT64_MAX |
| SurfaceProperties.SurfaceFormatProperties.constructor | wsi/surface_properties.cpp:43-71 | a format entry starts with no compression support accumulated |
| SurfaceProperties.SurfaceFormatProperties.AddDeviceCompressionSupport | wsi/surface_properties.cpp:43-71 | on SUCCESS the reported flags are OR-ed in, so support only grows; FORMAT_NOT_SUPPORTED becomes SUCCESS with no change; any other error is returned with no change |
| SurfaceProperties.SurfaceFormatProperties.FillFormatProperties | wsi/surface_properties.cpp:74-97 | the surface format is copied; a chained compression struct gets FIXED_RATE_EXPLICIT with the accumulated fixed-rate flags once that bit was accumulated, else DEFAULT with its fixed-rate flags untouched; DISABLED is never reported |
| SurfaceProperties.GetSurfaceCapabilitiesCommon | wsi/surface_properties.cpp:99-128 | image count 1 to MAX_SWAPCHAIN_IMAGE_COUNT, current extent 0xFFFFFFFF squared, min extent 1x1, max extent maxImageDimension2D on both axes, one array layer, the IDENTITY transform, all composite-alpha modes and the supported usage |
| HeadlessSurfaceProperties.GetSurfaceCapabilities | wsi/headless/surface_properties.cpp:57-89 | always SUCCESS, with the common capabilities |
| HeadlessSurfaceProperties.SupportedIds | wsi/headless/surface_properties.cpp:92-123 | no more format IDs are kept than were tried, and each kept ID is one of the tried ones (below their count) |
| HeadlessSurfaceProperties.SupportedIdsMeaning | wsi/headless/surface_properties.cpp:92-123 | the kept IDs are exactly the supported ones below the bound, strictly increasing |
| HeadlessSurfaceProperties.FillSupportedFormats | wsi/headless/surface_properties.cpp:92-123 | the count is the number of supported IDs, never above the format bound; each of the first count slots holds a new entry for its ID in increasing ID order with the sRGB non-linear colour space, and compression flags exactly as CompressionOf gives them for that ID's query |
| HeadlessSurfaceProperties.GetSurfacePresentModes | wsi/headless/surface_properties.cpp:137-165 | the two-call idiom over [FIFO, FIFO_RELAXED]: a null array gets count 2; otherwise min(count, 2) modes and INCOMPLETE iff the count was below 2 |
| HeadlessSurfaceProperties.CreateHeadlessSurface | wsi/headless/surface_properties.cpp:168-189 | a failed allocation is OUT_OF_HOST_MEMORY before any driver call; a driver failure is returned; a failed registration destroys the driver surface and is returned; SUCCESS exactly when all three succeed |
| HeadlessSurfaceProperties.GetProcAddr | wsi/headless/surface_properties.cpp:191-198 | an entry point is exported exactly for "vkCreateHeadlessSurfaceEXT" |
| Enumeration.EnumerateMeaning | layer/layer.cpp:50-92 | without an array the count is set to the number available; with one, the first min(count, available) entries in order, the rest of the array untouched, and INCOMPLETE exactly when some entry did not fit (the 'Extending Vulkan' chapter's enumeration rule) |
| Enumeration.TwoCallsReturnAll | layer/layer.cpp:50-92 | asking for the count and then passing an array of that size returns every entry, in order, with SUCCESS |
| Enumeration.Enumerate | layer/layer.cpp:72-92 | the copying loop produces exactly the outcome EnumerateMeaning describes |
| Layer.AsWrittenOverrunsBuffers | layer/layer.cpp:50-70 | as written, every non-empty copy moves twice the bytes of the entries it copies: 520 bytes from the layer's 260-byte one-entry array |
| Layer.ExtensionCopyBytesAsWritten | layer/layer.cpp:50-70 | as written: twice the bytes of the min(count, available) extension records it should copy, and nothing only when one of the counts is 0 |
| Layer.ExtensionCopyBytes | layer/layer.cpp:50-70 | the corrected copy moves exactly min(count, available) extension records |
| Layer.ExtensionProperties | layer/layer.cpp:50-70 | as intended (see Findings): the two-call enumeration of the layer's extensions, with the copy sized by VkExtensionProperties |
| Layer.LayerProperties | layer/layer.cpp:72-92 | the two-call enumeration of the layer's properties |
| Layer.LinkInfo.constructor | layer/layer.cpp:94-120 | a link entry records its sType, function and next link |
| Layer.GetChainInfoFrom | layer/layer.cpp:94-104 | the first entry from the given position with the loader sType and the function, with none before it, or null |
| Layer.GetChainInfo | layer/layer.cpp:94-120 | both overloads return the first chain entry with the loader create-info sType and the requested function, or null |
| Layer.CreateOutcome | layer/layer.cpp:122-182 | the create result and whether the next layer is called down, decided from the link entry alone |
| Layer.MissingLinkFails | layer/layer.cpp:129-167 | a missing link, or a next layer without a create function, gives INITIALIZATION_FAILED without calling down |
| Layer.CreateThroughChain | layer/layer.cpp:122-182 | INITIALIZATION_FAILED when the link or the next create is missing; otherwise the link advances by one layer before the call and the next layer's result is returned |
| Layer.CreateInstance | layer/layer.cpp:122-150 | create_instance is the chain walk over the loader's instance create-info entries |
| Layer.CreateDevice | layer/layer.cpp:152-182 | create_device is the chain walk over the loader's device create-info entries |
| Layer.Negotiate | layer/layer.cpp:220-238 | the interface version becomes 2, both proc-address hooks are installed, no physical-device hook, SUCCESS; the loader must offer version 2 or later (the assert) |
| Layer.EnumerateInstanceExtensionProperties | layer/layer.cpp:252-259 | as intended, through the corrected copy of `ExtensionProperties` (see Findings): for this layer's name, VK_KHR_surface through the two-call idiom; for any other name or none, LAYER_NOT_PRESENT with the query untouched |
| Layer.EnumerateDeviceExtensionProperties | layer/layer.cpp:240-250 | as intended, through the corrected copy of `ExtensionProperties` (see Findings): for this layer's name, VK_KHR_swapchain through the two-call idiom; otherwise the next layer's answer unchanged |
| Layer.EnumerateInstanceLayerProperties | layer/layer.cpp:261-265 | the two-call idiom over the one global layer |
| Layer.LayerListedByName | layer/layer.cpp:261-265 | a count query followed by a call with an array of that size lists the layer itself, by name, with SUCCESS |
| SwapchainApi.AggregateMeaning | layer/swapchain_api.cpp:162-177 | the aggregate is DEVICE_LOST if any swapchain reported it, else SURFACE_LOST if any, else OUT_OF_DATE if any, else SUCCESS; other errors do not show |
| SwapchainApi.AggregatePresentResult | layer/swapchain_api.cpp:162-177 | DEVICE_LOST exactly when some swapchain lost the device; any error it reports is one some swapchain returned |
| SwapchainApi.AggregateOrderIndependent | layer/swapchain_api.cpp:148-177 | the aggregate does not depend on the order of the swapchains |
| SwapchainApi.AggregateKeepsWorst | layer/swapchain_api.cpp:148-177 | presenting more swapchains never improves the aggregate of the first ones |
| SwapchainApi.QueuePresent | layer/swapchain_api.cpp:143-178 | each per-swapchain result is written to pResults when the array is given, and the mask loop returns the aggregate |
| SwapchainApi.CreateSwapchain | layer/swapchain_api.cpp:44-99 | allocation failure is OUT_OF_HOST_MEMORY; a failed init destroys and frees the object and returns its error without writing the handle; only success writes it |
| WsiFactory.SupportedWsiExtensions | wsi/wsi_factory.cpp:50-58 | the supported extensions are VK_EXT_headless_surface always and VK_KHR_wayland_surface when built with Wayland, each with its platform |
| WsiFactory.GetSurfaceProperties | wsi/wsi_factory.cpp:61-74 | the backend answering for a platform the layer was built for, and null for any other |
| WsiFactory.EnabledPlatforms | wsi/wsi_factory.cpp:107-123 | a platform is enabled exactly when its extension name is among the enabled names |
| WsiFactory.FindEnabledLayerPlatforms | wsi/wsi_factory.cpp:107-123 | the nested scan builds exactly the enabled set |
| WsiFactory.PlatformsFromMeaning | wsi/wsi_factory.cpp:157-190 | the platform loop succeeds exactly when every platform passes its turn: skipped when not enabled, else its required extensions fetched, present on the device and added |
| WsiFactory.PlatformsFrom | wsi/wsi_factory.cpp:157-190 | a failure is the result of some platform's turn, and every extension added comes from the requirements of an enabled platform |
| WsiFactory.StepResultOk | wsi/wsi_factory.cpp:157-188 | a platform's turn succeeds exactly when it passes |
| WsiFactory.PlatformsFromMissing | wsi/wsi_factory.cpp:172-182 | an enabled platform whose required extension the device lacks fails the call with INITIALIZATION_FAILED once the earlier platforms passed |
| WsiFactory.PlatformsFromStep | wsi/wsi_factory.cpp:157-190 | a failing turn ends the loop with its error; a successful one adds its extensions before those of the later turns |
| WsiFactory.AddExtensionsRequiredByLayer | wsi/wsi_factory.cpp:124-191 | the first failing step of the device enumeration is returned (a failed resize as OUT_OF_HOST_MEMORY); otherwise the platform loop's result, with exactly the extensions it adds appended to the list |
| WsiFactory.AddPlatform | wsi/wsi_factory.cpp:157-188 | one turn: a platform not enabled is skipped; otherwise the fetch error, INITIALIZATION_FAILED for a missing extension, or the add's result, with the list growing only on success |
| WsiFactory.AddPlatformExtensions | wsi/wsi_factory.cpp:157-190 | the loop's result and additions are those the platform-by-platform definition gives |
| WsiFactory.AddPlatformTurn | wsi/wsi_factory.cpp:157-190 | each turn of the loop, stated against the whole loop and the earlier turns |
| WsiFactory.FirstProc | wsi/wsi_factory.cpp:208-216 | the first non-null answer in table order, with every earlier backend answering null, or null |
| WsiFactory.GetProcAddr | wsi/wsi_factory.cpp:202-217 | the loop returns the first non-null answer in table order |
| CheckCopyright.DigitChar | check_copyright.py:68 | a digit character for each decimal digit |
| CheckCopyright.NatText | check_copyright.py:68 | "%d" of a year is its shortest decimal digits |
| CheckCopyright.NatTextDigits | check_copyright.py:68 | "%d" writes only digits, without a leading zero |
| CheckCopyright.DecimalValueOfText | check_copyright.py:104-109 | int() reads back what "%d" wrote |
| CheckCopyright.DecimalValueSnoc | check_copyright.py:104 | one more digit is ten times the value plus that digit |
| CheckCopyright.LastRunStart | check_copyright.py:71-91 | the last run is the longest suffix of consecutive years |
| CheckCopyright.YearsTextEnds | check_copyright.py:58-95 | the compressed text of a non-empty list starts with its first year and ends with its last |
| CheckCopyright.YearsText | check_copyright.py:58-95 | the run-by-run reference for generate_years_string: each maximal run of consecutive years is written "a" or "a-b", runs are separated by ", ", and the text is empty exactly for the empty list |
| CheckCopyright.DocumentedExample | check_copyright.py:58-64 | [1991, 2001, 2002, 2003, 2006, 2007] compresses to "1991, 2001-2003, 2006-2007" |
| CheckCopyright.TextByLastRun | check_copyright.py:66-95 | a non-empty list's text is the text before its last run, then that run |
| CheckCopyright.CloseRun | check_copyright.py:83-91 | a year that breaks the run closes it and starts the next after ", " |
| CheckCopyright.ContinueRun | check_copyright.py:73-81 | a consecutive year keeps the run open |
| CheckCopyright.GeneratingStart | check_copyright.py:66-70 | the loop state before the first iteration |
| CheckCopyright.GeneratingContinue | check_copyright.py:73-81 | a consecutive year is skipped, except that the last one closes the run with "-b" |
| CheckCopyright.GeneratingClose | check_copyright.py:83-91 | any other year closes the open run ("-b, " or ", ") and opens a new one |
| CheckCopyright.GeneratingDone | check_copyright.py:93-95 | after the last year the joined pieces are the compressed text |
| CheckCopyright.GenerateStep | check_copyright.py:71-91 | one turn of the loop keeps the invariant that relates the pieces to the runs seen |
| CheckCopyright.GenerateYearsString | check_copyright.py:58-95 | the result is the run-by-run text: each maximal run of consecutive years written "a" or "a-b", separated by ", "; "" for no years |
| CheckCopyright.TrailingDigits | check_copyright.py:103-108 | the length of the digit run that ends the text |
| CheckCopyright.Lex | check_copyright.py:103-108 | every digit run is taken whole: no two number tokens are adjacent; the last token is a number exactly when the text ends in a digit; no more tokens than characters, and none only for the empty text |
| CheckCopyright.TrailingDigitsOf | check_copyright.py:103-108 | a digit run after a non-digit is exactly the trailing run |
| CheckCopyright.PeelChar | check_copyright.py:103-108 | a non-digit character adds one dash or other token |
| CheckCopyright.PeelDigits | check_copyright.py:103-108 | a digit run after a non-digit adds one number token with its value |
| CheckCopyright.PeelNumber | check_copyright.py:103-108 | the digits of n after a non-digit add the token for n |
| CheckCopyright.PeelRange | check_copyright.py:106-109 | two digit runs around a dash add a number, a dash and a number |
| CheckCopyright.Span | check_copyright.py:109 | range(a, b + 1): the years a to b inclusive, in order |
| CheckCopyright.Collect | check_copyright.py:111-112 | the distinct candidates in 1900 < y <= CURRENT_YEAR, strictly increasing |
| CheckCopyright.ParseYearsString | check_copyright.py:98-114 | the years are strictly increasing, so sorted and without duplicates, and each lies in 1900 < y <= CURRENT_YEAR |
| CheckCopyright.ExpandMeaning | check_copyright.py:106-109 | a year is in the expansion exactly when some range holds it, both ends included |
| CheckCopyright.ParseMeaning | check_copyright.py:98-114 | the result is strictly increasing (sorted, no duplicates), and a year is in it exactly when 1900 < y <= CURRENT_YEAR and it is a stand-alone number or lies in some range a-b |
| CheckCopyright.PeelRangeNumbers | check_copyright.py:106-109 | "a-b" after a non-digit adds the number a, a dash and the number b |
| CheckCopyright.LexRunText | check_copyright.py:68-108 | the text of a run lexes as its number or its two numbers around a dash |
| CheckCopyright.LexYearsText | check_copyright.py:58-108 | the compressed text lexes run by run |
| CheckCopyright.TailAppend | check_copyright.py:103 | stand-alone numbers split at a boundary where one side is another character |
| CheckCopyright.SinglesAppend | check_copyright.py:103 | the stand-alone numbers of two texts joined at a separator are those of each |
| CheckCopyright.RangesAppend | check_copyright.py:106 | no range match straddles a separator |
| CheckCopyright.RunValues | check_copyright.py:73 | a run holds ys[k], ys[k] + 1, ... |
| CheckCopyright.RunYears | check_copyright.py:98-114 | the tokens of a run parse to exactly its years |
| CheckCopyright.RunMembers | check_copyright.py:73 | the years of a run are those from its first to its last |
| CheckCopyright.SingleYear | check_copyright.py:103-104 | a lone number parses to itself |
| CheckCopyright.RangeYears | check_copyright.py:106-109 | "a-b" parses to the years a to b |
| CheckCopyright.SeparatedYears | check_copyright.py:98-114 | the years of runs separated by ", " are those of either side |
| CheckCopyright.YearsOfTokens | check_copyright.py:58-114 | the compressed text's tokens parse to exactly the years of the list |
| CheckCopyright.IncreasingUnique | check_copyright.py:111-112 | two strictly increasing lists with the same years are equal |
| CheckCopyright.RoundTrip | check_copyright.py:58-114 | for strictly increasing years in 1900 < y <= CURRENT_YEAR, parse(generate(ys)) == ys |
| DrmUtils.FirstVkRow | util/drm/drm_utils.cpp:33-52 | the index returned holds the Vulkan format and no earlier row does; None exactly when no row holds it |
| DrmUtils.FirstDrmRow | util/drm/drm_utils.cpp:54-65 | the index returned holds the DRM code and no earlier row does; None exactly when no row holds it |
| DrmUtils.VkToDrmFormat | util/drm/drm_utils.cpp:33-52 | the main table is searched first, then the sRGB table; the first matching row's DRM code, or 0 when neither table has the format |
| DrmUtils.DrmToVkFormat | util/drm/drm_utils.cpp:54-65 | the Vulkan format of the first main-table row whose DRM code matches, so an earlier row wins over a later one with the same code; VK_FORMAT_UNDEFINED when no row matches |
| DrmUtils.DrmToVkSrgbFormat | util/drm/drm_utils.cpp:67-78 | the Vulkan format of the first sRGB-table row whose DRM code matches, so an earlier row wins; VK_FORMAT_UNDEFINED when no row matches |
| DrmUtils.DrmVkRoundTrip | util/drm/drm_utils.cpp:33-65 | Vulkan to DRM and back returns the same format when its row is the first for both its Vulkan format and its DRM code |
| DrmUtils.DrmVkRoundTripNeedsFirstRow | util/drm/drm_utils.cpp:33-65 | with two Vulkan formats sharing a DRM code the round trip of the second lands on the first: the lookups are first-match, not a bijection |
| DrmUtils.SrgbOnlyFormat | util/drm/drm_utils.cpp:33-52 | a format only the sRGB table knows maps to its sRGB code, and that code maps back to it through the sRGB lookup |
| DrmUtils.NumPlanes | util/drm/drm_utils.cpp:81-120 | 1 exactly for a code in the list of packed single-plane formats, else 0 |
| DrmUtils.Fourcc | util/drm/drm_utils.cpp:81-120 | the DRM_FORMAT codes the plane count switches on are the four characters packed one per byte, lowest first: each character is recovered from its byte, and the code is below 2^31 |
| DrmUtils.NumPlanesExamples | util/drm/drm_utils.cpp:81-120 | the list has thirty codes; XRGB8888 has one plane and NV12 gets 0 |
| WsiallocHelpers.RoundSizeUpToAlignAsWritten | util/wsialloc/wsialloc_helpers.c:41-44 | the rounding with the 32-bit mask: a multiple of 64 below 2^32 |
| WsiallocHelpers.RoundSizeUpToAlign | util/wsialloc/wsialloc_helpers.c:41-44 | a multiple of 64 below 2^64, and at least the size and less than 64 above it whenever the sum does not wrap |
| WsiallocHelpers.MaskIsSixtyFourBits | util/wsialloc/wsialloc_helpers.c:43 | clearing the low six bits of a 64-bit word subtracts its remainder modulo 64 |
| WsiallocHelpers.MaskIsThirtyTwoBits | util/wsialloc/wsialloc_helpers.c:43 | the zero-extended 32-bit mask also clears every bit above 31 |
| WsiallocHelpers.RoundSizeUpToAlignIsSmallest | util/wsialloc/wsialloc_helpers.c:41-44 | the rounded size is not above any multiple of 64 that is at least the size |
| WsiallocHelpers.RoundAsWrittenAgreesBelowFourGiB | util/wsialloc/wsialloc_helpers.c:41-44 | below 2^32 - 63 the as-written rounding equals the intended one |
| WsiallocHelpers.RoundAsWrittenDropsHighBits | util/wsialloc/wsialloc_helpers.c:41-44 | 2^32 rounds to 2^32 as intended but to 0 as written |
| WsiallocHelpers.MaskBigEndian | util/wsialloc/wsialloc_helpers.c:93 | the result is below 2^31, equal to the fourcc when bit 31 is clear and the fourcc minus 2^31 when it is set |
| WsiallocHelpers.FindFormat | util/wsialloc/wsialloc_helpers.c:90-108 | the first table row whose DRM format is the masked fourcc; None exactly when no row matches |
| WsiallocHelpers.PlaneStride | util/wsialloc/wsialloc_helpers.c:76-80 | a multiple of 64, at least the row's bytes and less than 64 above them |
| WsiallocHelpers.PlaneStrideUnaffectedByMask | util/wsialloc/wsialloc_helpers.c:80 | for images within the size limit the as-written rounding of the row bytes gives the same stride |
| WsiallocHelpers.PlaneBytes | util/wsialloc/wsialloc_helpers.c:80-84 | a plane occupies at least its pixels' bytes, width times bytes per pixel times height |
| WsiallocHelpers.LayoutOffset | util/wsialloc/wsialloc_helpers.c:72-85 | as intended, with each stride times height counted in full (see Findings): plane n starts no earlier than the end of the pixel bytes of plane n - 1, so consecutive planes do not overlap |
| WsiallocHelpers.LayoutOffsetAligned | util/wsialloc/wsialloc_helpers.c:72-85 | every plane offset is a multiple of 64 |
| WsiallocHelpers.LayoutOffsetAsWritten | util/wsialloc/wsialloc_helpers.c:84 | as written: never above the intended offset, and equal to it when no plane's stride times height reaches 2^32 |
| WsiallocHelpers.LayoutTotalAsWrittenWraps | util/wsialloc/wsialloc_helpers.c:84 | a 32768 x 32768 image of 32-bit pixels needs 2^32 bytes but the 32-bit product makes the total 0, which ends inside the plane's own pixel bytes |
| WsiallocHelpers.CalculateFormatProperties | util/wsialloc/wsialloc_helpers.c:46-88 | NOT_SUPPORTED, with the outputs untouched, exactly for a non-linear modifier or more than one plane; otherwise each plane's stride, its offset and the total size of the laid-out planes, as intended (LayoutOffset; see Findings) |
| WsiallocHelpers.FirstSelectable | util/wsialloc/wsialloc_helpers.c:147-167 | the first candidate whose fourcc is in the table and whose layout is calculable; None exactly when no candidate is |
| WsiallocHelpers.SpecOf | util/wsialloc/wsialloc_helpers.c:150 | the table row found for an acceptable candidate carries its masked fourcc and has at most one plane |
| WsiallocHelpers.SelectFormat | util/wsialloc/wsialloc_helpers.c:141-172 | NONE exactly when some candidate is acceptable, and then the first acceptable one with its strides, offsets and total, as intended (LayoutOffset; see Findings); otherwise NOT_SUPPORTED |
| WsiallocHelpers.ReplicateFd | util/wsialloc/wsialloc_helpers.c:184-188 | plane 0 and every plane below the plane count get the new fd; the others keep their value |
| WsiallocHelpers.WsiallocpAlloc | util/wsialloc/wsialloc_helpers.c:133-199 | INVALID for bad parameters, NOT_SUPPORTED when no candidate is acceptable; the first acceptable candidate's layout otherwise, the callback asked for its intended total size (LayoutOffset; see Findings) unless NO_MEMORY is set and NO_RESOURCE iff it returns a negative fd; the result is untouched on every error |
| WsiallocIon.FindAllocHeapId | util/wsialloc/wsialloc_ion.c:78-104 | a failed query's negative result is passed on; otherwise the id of a DMA heap, or -1 exactly when no heap is of the DMA type |
| WsiallocIon.StoredHeapId | util/wsialloc/wsialloc_ion.c:66 | storing an id in the uint32_t field keeps a non-negative id and turns -1 into 0xFFFFFFFF |
| WsiallocIon.NewResultAsWritten | util/wsialloc/wsialloc_ion.c:128-160 | as written, set-up succeeds exactly when the allocation and the open succeed, whatever the heap query returned |
| WsiallocIon.NewAcceptsMissingHeap | util/wsialloc/wsialloc_ion.c:147-152 | with no DMA heap the as-written set-up succeeds and stores heap id 0xFFFFFFFF |
| WsiallocIon.NewResult | util/wsialloc/wsialloc_ion.c:128-160 | set-up succeeds exactly when the allocation, the open and the heap query succeed; any failure is NO_RESOURCE |
| WsiallocIon.IonAllocator.constructor | util/wsialloc/wsialloc_ion.c:140-154 | a new allocator holds the device fd and the heap id and has no protected heap |
| WsiallocIon.Delete | util/wsialloc/wsialloc_ion.c:162-175 | nothing happens for a null allocator; otherwise the device fd is closed exactly when it is open |
| WsiallocIon.New | util/wsialloc/wsialloc_ion.c:128-160 | as intended, following the corrected `NewResult` (see Findings): the result is NewResult's and an allocator comes back exactly on success; when only the heap query fails, the opened device fd is closed |
| WsiallocIon.Alloc | util/wsialloc/wsialloc_ion.c:306-367 | INVALID for bad parameters, NOT_SUPPORTED when no candidate is acceptable; otherwise the first acceptable candidate with its stride and offset 0; no allocation with NO_MEMORY; a protected request without a protected heap, a total above SIZE_MAX or a failed ioctl gives NO_RESOURCE; the ioctl asks for the total size on the chosen heap |
| WsiallocDmaBufHeaps.DmaBufHeapsAllocator.constructor | util/wsialloc/wsialloc_dma_buf_heaps.c:113-134 | a new allocator holds the opened heap fd and no protected heap fd |
| WsiallocDmaBufHeaps.DmaBufHeapsAllocator.DmaAllocate | util/wsialloc/wsialloc_dma_buf_heaps.c:72-111 | -1 when the chosen heap is not open, minus errno when the ioctl fails, otherwise the new fd; negative exactly in those two failure cases |
| WsiallocDmaBufHeaps.DmaBufHeapsAllocator.Delete | util/wsialloc/wsialloc_dma_buf_heaps.c:136-159 | each open heap fd is closed, the ordinary one first, and both fds become -1 |
| WsiallocDmaBufHeaps.DmaBufHeapsAllocator.Alloc | util/wsialloc/wsialloc_dma_buf_heaps.c:161-174 | a heap that is not open gives NO_RESOURCE before any parameter check; bad parameters give INVALID and no candidate NOT_SUPPORTED, without a request; NO_MEMORY gives NONE without a request; otherwise the heap is asked for the layout's intended total size (LayoutOffset; see Findings) and the result is NONE exactly when the ioctl succeeds (NO_RESOURCE otherwise), and then the new fd is in plane 0 and every plane below the count, the format is the first acceptable one, the image is not disjoint, and each plane has its stride and offset; the result is untouched on every error |
| WsiallocDmaBufHeaps.New | util/wsialloc/wsialloc_dma_buf_heaps.c:113-134 | success exactly when the allocation and the open succeed, and the allocator then has an open ordinary heap and no protected heap; failure is NO_RESOURCE and gives no allocator |
| WsiExternalMemory.DistinctPlaneFds | wsi/external_memory.cpp:146-153 | at most one fd per plane considered |
| WsiExternalMemory.DistinctPlaneFdsAreDistinct | wsi/external_memory.cpp:146-153 | no fd appears twice in the list of fds imported for a disjoint image |
| WsiExternalMemory.DistinctPlaneFdsCoversPlanes | wsi/external_memory.cpp:146-153 | every listed fd belongs to some plane, and every plane's fd is listed |
| WsiExternalMemory.DistinctPrefix | wsi/external_memory.cpp:146-153 | the distinct fds of fewer planes are a prefix of those of more planes |
| WsiExternalMemory.RowPitch | wsi/external_memory.cpp:244 | a stride that fits in uint32 is kept as the row pitch |
| WsiExternalMemory.CleanupClosesEachFdOnce | wsi/external_memory.cpp:400-419 | every fd the cleanup closes is open, belongs to a plane without memory at its first occurrence, and no fd is closed twice |
| WsiExternalMemory.FirstMemoryTypeFrom | wsi/external_memory.cpp:266-290 | the index found is allowed by the mask, has every requested property, and no earlier index from the start does; None exactly when no such index exists |
| WsiExternalMemory.SearchMemoryTypes | wsi/external_memory.cpp:278-286 | the scan over the memory types returns the first suitable index, as FirstMemoryTypeWith |
| WsiExternalMemory.NoMemoryTypeIs | wsi/external_memory.cpp:266-290 | when nothing from an index on is suitable, the search finds nothing |
| WsiExternalMemory.FirstMemoryTypeIs | wsi/external_memory.cpp:266-290 | a suitable index with no suitable earlier one is the search's answer |
| WsiExternalMemory.ExternalMemory.constructor | wsi/external_memory.hpp:177-183 | a new object has fds -1, zero strides and offsets, no memories, no planes, DMA-BUF handles, and is disjoint and not valid |
| WsiExternalMemory.ExternalMemory.SetBufferFds | wsi/external_memory.hpp:80-83 | replaces the fd array and nothing else |
| WsiExternalMemory.ExternalMemory.IsDisjoint | wsi/external_memory.cpp:73-76 | zero memory objects count as disjoint, and only a single memory object is not |
| WsiExternalMemory.ExternalMemory.IsValid | wsi/external_memory.cpp:78-92 | valid memory is initialised; DMA-BUF memory has a plane and an open first fd, and host-visible memory has required properties |
| WsiExternalMemory.ExternalMemory.SetStrides | wsi/external_memory.hpp:88-91 | replaces the stride array and nothing else |
| WsiExternalMemory.ExternalMemory.SetOffsets | wsi/external_memory.hpp:96-99 | replaces the offset array and nothing else |
| WsiExternalMemory.ExternalMemory.SetMemoryHandleType | wsi/external_memory.hpp:115-118 | changes only the handle type |
| WsiExternalMemory.ExternalMemory.SetNumMemories | wsi/display/swapchain.cpp:328 | changes only the memory count |
| WsiExternalMemory.ExternalMemory.SetFormatInfo | wsi/display/swapchain.cpp:331 | records the plane count and marks the memory as an external DMA-BUF; nothing else changes |
| WsiExternalMemory.ExternalMemory.ConfigureForHostVisible | wsi/external_memory.cpp:103-117 | one plane in one host-visible memory with the given properties, so the object is not disjoint, and it is valid exactly when some property is required |
| WsiExternalMemory.ExternalMemory.GetFdMemTypeIndex | wsi/external_memory.cpp:119-139 | a failed fd query is passed on; otherwise the index is the lowest memory type bit the fd allows, or 32 when it allows none |
| WsiExternalMemory.ExternalMemory.ImportPlaneMemory | wsi/external_memory.cpp:160-188 | the fd query's failure or OUT_OF_HOST_MEMORY for a failed size query, with no allocation; otherwise an allocation of the fd's size with the lowest allowed memory type, and its result |
| WsiExternalMemory.ExternalMemory.ImportPlaneMemories | wsi/external_memory.cpp:141-158 | a disjoint image imports each distinct plane fd once, in plane order, into consecutive memory slots and stops at the first failure; otherwise fd 0 goes into slot 0; only the memories change |
| WsiExternalMemory.ExternalMemory.ImportDistinctPlanes | wsi/external_memory.cpp:143-155 | the disjoint branch: success exactly when every import tried succeeds, and then every distinct fd was imported into its slot |
| WsiExternalMemory.ExternalMemory.ImportDistinct | wsi/external_memory.cpp:145-154 | the import loop on values: the imported fds are the distinct ones on success, the slots after the last one tried keep their old value |
| WsiExternalMemory.FirstFailedImport | wsi/external_memory.cpp:141-158 | the first failing import among the first m, with every earlier one succeeding; nothing exactly when all m succeed |
| WsiExternalMemory.ImportBindOutcome | wsi/external_memory.cpp:141-231 | SUCCESS exactly when, disjoint, the bind vectors are sized, all m imports and the bind succeed, or, not disjoint, plane 0's import and the bind succeed; otherwise the first failing import's result, or OUT_OF_HOST_MEMORY for the sizing |
| WsiExternalMemory.ExternalMemory.ImportStep | wsi/external_memory.cpp:148-153 | one plane of the loop: an fd seen before is skipped, a new one imported into the next slot, and the loop state is kept |
| WsiExternalMemory.ExternalMemory.BindSwapchainImageMemory | wsi/external_memory.cpp:190-224 | a disjoint image binds memory i at offset i with plane aspect i for every memory, or fails with OUT_OF_HOST_MEMORY before binding; otherwise one bind of memory 0 at offset 0 |
| WsiExternalMemory.ExternalMemory.FillImagePlaneLayouts | wsi/external_memory.cpp:233-247 | one layout per plane with its offset and row pitch; a failed resize gives OUT_OF_HOST_MEMORY and leaves the vector unchanged |
| WsiExternalMemory.ExternalMemory.FillDrmModInfo | wsi/external_memory.cpp:249-257 | the modifier and layouts as given, and one plane per memory object, so a single plane exactly when the image is not disjoint |
| WsiExternalMemory.ExternalMemory.FindHostVisibleMemoryType | wsi/external_memory.cpp:266-290 | the first allowed type with every optimal property, else the first with every required property; FORMAT_NOT_SUPPORTED exactly when neither exists |
| WsiExternalMemory.ExternalMemory.MapHostMemory | wsi/external_memory.cpp:324-345 | MEMORY_MAP_FAILED unless the memory is host-visible and allocated; a cached mapping is returned without a new map; otherwise the map's result, with the mapped address stored on success |
| WsiExternalMemory.ExternalMemory.AllocateHostVisibleAndBind | wsi/external_memory.cpp:292-322 | FORMAT_NOT_SUPPORTED without a suitable type; otherwise a failed allocation is returned with the host memory untouched, or the memory is stored and the bind's result returned |
| WsiExternalMemory.ExternalMemory.ImportMemoryAndBind | wsi/external_memory.cpp:226-231 | only the memory handles change; the result is ImportBindOutcome of the disjointness, the distinct-fd count, the import outcomes, the resize and the bind: SUCCESS exactly when every import and the bind succeed, else the first failure; a non-disjoint success stores plane 0's memory, and a disjoint run without a failed import stores every distinct fd's memory |
| WsiExternalMemory.ExternalMemory.AllocateAndBindImage | wsi/external_memory.cpp:367-381 | uninitialised memory is FEATURE_NOT_PRESENT with nothing changed; DMA-BUF memory gives ImportMemoryAndBind's outcome and changes only the memories; host-visible memory is FORMAT_NOT_SUPPORTED when neither the optimal nor the required properties find a memory type, the allocation's error when it fails, and otherwise the bind's result with the new memory stored; all other fields are unchanged |
| WsiExternalMemory.ExternalMemory.CleanupExternalMemory | wsi/external_memory.cpp:400-419 | frees each plane's memory, or else closes its open fd at the fd's first occurrence, in plane order |
| WsiExternalMemory.CleanupActions | wsi/external_memory.cpp:400-419 | at most one action per plane, each freeing a non-null memory or closing an open fd |
| WsiExternalMemory.HostVisibleCleanupActions | wsi/external_memory.cpp:383-397 | the memory is unmapped exactly when it is mapped and freed exactly when it exists, unmap first, and nothing else |
| WsiExternalMemory.ExternalMemory.DestructionActions | wsi/external_memory.cpp:45-61 | uninitialised memory releases nothing; DMA-BUF memory only frees memories or closes fds; host-visible memory only unmaps and frees its host memory |
| WsiExternalMemory.ExternalMemory.Destroy | wsi/external_memory.cpp:45-61 | the destructor releases exactly DestructionActions |
| Synchronization.AfterWait | wsi/synchronization.cpp:80-92 | without an unfinished payload nothing is called and the result is SUCCESS; otherwise the wait's result, and the payload is finished exactly when the wait succeeded |
| Synchronization.MustWait | wsi/synchronization.cpp:80-92 | a wait is needed only for a submitted payload, and never once it is known to have finished |
| Synchronization.AfterSetPayload | wsi/synchronization.cpp:94-119 | a failed reset is returned with the state unchanged; otherwise the submit's result, and a payload exists exactly when the submit succeeded, unfinished |
| Synchronization.AfterSwap | wsi/synchronization.cpp:121-127 | returns the old payload flag, stores the new one and marks the payload unfinished |
| Synchronization.WaitIsIdempotent | wsi/synchronization.cpp:80-92 | after a successful wait the next wait calls nothing and succeeds |
| Synchronization.SubmittedPayloadIsWaitedFor | wsi/synchronization.cpp:80-119 | after a successful submit the next wait calls the driver and returns its result |
| Synchronization.FailedSubmitNeedsNoWait | wsi/synchronization.cpp:80-119 | after a failed submit a later wait succeeds without calling the driver |
| Synchronization.FenceSync.constructor | wsi/synchronization.cpp:37-42 | the given fence and device, no payload |
| Synchronization.FenceSync.Empty | wsi/synchronization.hpp:71 | no fence, no device, no payload |
| Synchronization.FenceSync.Create | wsi/synchronization.cpp:44-55 | empty exactly when fence creation fails, otherwise a new object with the new fence and no payload |
| Synchronization.FenceSync.MoveAssign | wsi/synchronization.cpp:62-69 | the two objects exchange their whole state |
| Synchronization.FenceSync.MoveFrom | wsi/synchronization.cpp:57-60 | the new object has the source's state and the source is left empty |
| Synchronization.FenceSync.WaitPayload | wsi/synchronization.cpp:80-92 | the state and result follow AfterWait, and the driver is called exactly when an unfinished payload exists |
| Synchronization.FenceSync.SetPayload | wsi/synchronization.cpp:94-119 | the state and result follow AfterSetPayload |
| Synchronization.FenceSync.SwapPayload | wsi/synchronization.cpp:121-127 | the state and result follow AfterSwap |
| Synchronization.FenceSync.ExportSyncFd | wsi/synchronization.cpp:161-176 | on success the exported fd is returned and the payload flag is cleared; on failure nothing is returned and the state is unchanged |
| Synchronization.FenceSync.Destroy | wsi/synchronization.cpp:71-78 | the driver calls the destructor makes are DestructionCalls of the fence's state: none for a null fence, else a wait only when a payload is outstanding, then the destruction of that fence |
| Synchronization.DestructionCalls | wsi/synchronization.cpp:71-78 | no call for a null fence; otherwise calls on that fence only, ending with its destruction, and with a wait exactly when a payload is outstanding |
| Synchronization.WaitedFenceIsDestroyedWithoutWait | wsi/synchronization.cpp:71-92 | a fence whose payload wait succeeded is destroyed by the destructor without a second wait |
| DisplaySwapchain.ImportFormatOf | wsi/display/swapchain.cpp:238-244 | the importable candidate carries the surface fourcc and the property's modifier, and is flagged non-disjoint exactly when the modifier lacks the DISJOINT feature |
| DisplaySwapchain.ExportableModifiersExactly | wsi/display/swapchain.cpp:151-236 | a modifier is collected as exportable exactly when some property the display scans out and the device accepts has the EXPORTABLE feature and carries it |
| DisplaySwapchain.ImportableFormatsExactly | wsi/display/swapchain.cpp:151-248 | a candidate is collected as importable exactly when some accepted property with the IMPORTABLE feature yields it |
| DisplaySwapchain.NegotiationPrefix | wsi/display/swapchain.cpp:151-248 | the lists collected from fewer properties are prefixes of those collected from more |
| DisplaySwapchain.GetSurfaceCompatibleFormats | wsi/display/swapchain.cpp:136-252 | a failed property query is returned with both vectors untouched; no display gives OUT_OF_HOST_MEMORY; otherwise SUCCESS exactly when every collected entry fits, and then both vectors are extended by exactly the importable candidates and exportable modifiers; on a full vector what was pushed is a prefix of those |
| DisplaySwapchain.NegotiateModifier | wsi/display/swapchain.cpp:151-248 | one property of the loop extends the collected lists by what that property contributes, or reports a full vector |
| DisplaySwapchain.PresetResult | wsi/display/swapchain.cpp:284-294 | the result structure the allocator receives has every buffer fd set to -1 |
| DisplaySwapchain.AllocationRequest | wsi/display/swapchain.cpp:258-283 | the candidates and extent as given, PROTECTED exactly for a protected image, NO_MEMORY exactly for a probe, and HIGHEST_FIXED_RATE_COMPRESSION exactly when compression control asks for explicit fixed rate |
| DisplaySwapchain.AllocationResult | wsi/display/swapchain.cpp:295-304 | SUCCESS exactly for no error, FORMAT_NOT_SUPPORTED exactly for NOT_SUPPORTED, OUT_OF_HOST_MEMORY for every other error |
| DisplaySwapchain.NumMemoryPlanes | wsi/display/swapchain.cpp:315-326 | the count of memory planes is at most the number of planes |
| DisplaySwapchain.NumMemoryPlanesCountsValues | wsi/display/swapchain.cpp:315-326 | counting planes whose fd does not reappear later counts the distinct plane fds that do not reappear past the planes |
| DisplaySwapchain.DistinctPlaneFdsCount | wsi/display/swapchain.cpp:315-326 | the distinct plane fds listed in order are as many as the distinct fd values among the planes |
| DisplaySwapchain.NumMemoryPlanesMatchesImports | wsi/display/swapchain.cpp:315-328 | when no plane fd reappears past the planes, the swapchain's memory count equals the number of memories the import creates, one per distinct fd |
| DisplaySwapchain.DisplayImageData.constructor | wsi/display/swapchain.cpp:458 | new per-image data: a fresh external memory with no fds and no planes, an empty fence and no framebuffer |
| DisplaySwapchain.AllocateWsialloc | wsi/display/swapchain.cpp:254-334 | the allocator's error mapped to a Vulkan result; on failure the external memory and the cached format are untouched; on success the format, strides, fds and offsets are recorded, the plane count is the format's, the memory is a DMA-BUF, the memory count is the distinct-fd count unless this is a probe, and when the allocator's disjoint flag agrees with that count (the asserted agreement) the memory is disjoint exactly when the allocator says so or holds no memory object |
| DisplaySwapchain.SharedFdIsOneMemory | wsi/display/swapchain.cpp:315-327 | an allocator that shares one fd across every plane and reports a non-disjoint image has exactly one memory plane, so its flag agrees with the count |
| DisplaySwapchain.FillImageCreateInfo | wsi/display/swapchain.cpp:336-354 | a failed layout resize leaves everything unchanged; otherwise one layout per plane, the DISJOINT bit added when the memory is disjoint, DRM-modifier tiling, and the explicit-modifier and external-memory structures chained, with no other field changed |
| DisplaySwapchain.FirstFailedPlane | wsi/display/swapchain.cpp:387-397 | the first plane whose fd could not be turned into a GEM handle, with all earlier ones converted; None when every plane was |
| DisplaySwapchain.CreateFramebuffer | wsi/display/swapchain.cpp:369-427 | SUCCESS exactly when the display exists, every plane converts, the display scans out the format and AddFB2 succeeds; the request carries the extent, fourcc, offsets, each plane's pitch, and each plane's modifier when the display supports modifiers; the framebuffer id is stored only on success |
| DisplaySwapchain.Statuses | wsi/display/swapchain.cpp:592-607 | one status per image, in order |
| DisplaySwapchain.FirstPresented | wsi/display/swapchain.cpp:592-602 | the first PRESENTED image with none before it, or the image count when there is none |
| DisplaySwapchain.PresentTransition | wsi/display/swapchain.cpp:592-619 | the presented image becomes PRESENTED and, unless this is the first present, the image that was PRESENTED becomes FREE |
| DisplaySwapchain.PresentKeepsOnePresented | wsi/display/swapchain.cpp:592-619 | with exactly one image on screen and another presented, afterwards exactly the new one is on screen, the old one is free and nothing else changes |
| DisplaySwapchain.FirstPresentedIs | wsi/display/swapchain.cpp:595-602 | the search finds the image that is on screen |
| DisplaySwapchain.FirstPresentShowsOneImage | wsi/display/swapchain.cpp:520-535 | the first present puts exactly the presented image on screen |
| DisplaySwapchain.FirstPresentedIsNone | wsi/display/swapchain.cpp:592-602 | with no image on screen the search ends past the last image |
| DisplaySwapchain.WaitTurns | wsi/display/swapchain.cpp:556-588 | the turn the wait loop stops on ends the wait, and no earlier turn does |
| DisplaySwapchain.ObservedWithoutRearm | wsi/display/swapchain.cpp:552-588 | with the fd set filled once before the loop, select sees what the kernel reports until the first timeout |
| DisplaySwapchain.DisarmedSeesNoFlip | wsi/display/swapchain.cpp:561 | once select has emptied the fd set, no later turn reports the page flip |
| DisplaySwapchain.StalledWaitEndsOnlyOnError | wsi/display/swapchain.cpp:552-588 | after one timeout the loop as written can end only through a fatal select error |
| DisplaySwapchain.StalledWaitExample | wsi/display/swapchain.cpp:552-588 | a flip delivered right after a timeout ends a re-armed wait on turn 1 but is never seen by the loop as written |
| DisplaySwapchain.StatusUpdate | wsi/display/swapchain.cpp:607 | writing one image's status changes that status and nothing else |
| DisplaySwapchain.ShowImage | wsi/display/swapchain.cpp:607-619 | the image becomes PRESENTED and then the previously presented one, when there is one, FREE; nothing but statuses changes |
| DisplaySwapchain.LastPlaneCount | wsi/display/swapchain.cpp:489-495 | the memory count comes from the last property with the modifier, or stays as it was when none has it |
| DisplaySwapchain.AfterDestroy | wsi/display/swapchain.cpp:637-672 | the image becomes INVALID, its handle is cleared when it was valid, and its data is released only when the display is available |
| DisplaySwapchain.DestroyTwiceReleasesNothing | wsi/display/swapchain.cpp:637-672 | a second destroy_image leaves the image as the first did, destroys no VkImage again and, when the display was available, finds no data to release |
| DisplaySwapchain.FirstImageConfig | wsi/display/swapchain.cpp:465-503 | negotiation errors pass through, no importable format is INITIALIZATION_FAILED, otherwise a probe allocation selects the format from the importable ones |
| DisplaySwapchain.RecordMemoryCount | wsi/display/swapchain.cpp:489-495 | the memory count becomes LastPlaneCount's and nothing else in the external memory changes |
| DisplaySwapchain.ConfigureFirstImage | wsi/display/swapchain.cpp:465-503 | on a fresh image the outcome is FirstImageConfig's, and on success the memory count and the create info are recorded for the selected format |
| DisplaySwapchain.WaitForFlip | wsi/display/swapchain.cpp:552-588 | with the fd set filled on every turn, the wait ends on the first completed flip or fatal error, and reports fatal exactly when it was an error |
| DisplaySwapchain.FindPresented | wsi/display/swapchain.cpp:592-602 | the loop returns FirstPresented of the statuses |
| DisplaySwapchain.DisplaySwapchain.InitPlatform | wsi/display/swapchain.cpp:111-125 | INITIALIZATION_FAILED exactly when the allocator cannot be created; the allocator exists exactly on success and nothing else changes |
| DisplaySwapchain.DisplaySwapchain.AllocateImage | wsi/display/swapchain.cpp:356-367 | a failed push gives OUT_OF_HOST_MEMORY with nothing changed; otherwise the cached format is allocated again, the result is the allocation's, the cached format becomes the one returned on success, and the disjointness agrees with the allocator's flag as in AllocateWsialloc |
| DisplaySwapchain.BindImageData | wsi/display/swapchain.cpp:439-452 | after allocation: SUCCESS exactly when the framebuffer is created, the memory is imported and bound, and the fence is created; otherwise the first failing step's result, a failed fence creation being OUT_OF_HOST_MEMORY; the framebuffer ID is recorded only for a created framebuffer and the fence is replaced only on SUCCESS |
| DisplaySwapchain.DisplaySwapchain.AllocateAndBindSwapchainImage | wsi/display/swapchain.cpp:429-453 | the image is marked FREE; SUCCESS exactly when the allocation, the framebuffer (every plane's prime handle, a format pair the display lists and drmModeAddFB2WithModifiers), the import and bind and the fence creation all succeed; otherwise the first failing step's error; the framebuffer id is stored exactly when the allocation and the framebuffer succeeded; the new fence is stored only on success |
| DisplaySwapchain.DisplaySwapchain.CreateSwapchainImage | wsi/display/swapchain.cpp:455-506 | a failed data allocation gives OUT_OF_HOST_MEMORY with nothing changed; otherwise only this image gets fresh data; after the first image the create result is returned directly; for the first image FirstImageConfig decides and, on success, the selected format and create info are cached |
| DisplaySwapchain.DisplaySwapchain.PresentImage | wsi/display/swapchain.cpp:508-622 | as intended, with the fd set filled on every turn of the flip wait (`WaitForFlip`; see Findings): no display or a failed mode set or page flip gives SURFACE_LOST with the images untouched; otherwise the statuses follow PresentTransition, the present id is recorded when enabled, and a fatal select error sets SURFACE_LOST |
| DisplaySwapchain.DisplaySwapchain.DestroyImage | wsi/display/swapchain.cpp:637-672 | the image becomes AfterDestroy's; its handle is destroyed when it was valid, its framebuffer removed when the display is available and it has one, and then what the freed data releases is its external memory's DestructionActions and its fence's DestructionCalls; nothing is released while the display is unavailable |
| DisplaySwapchain.DisplaySwapchain.SetPresentPayload | wsi/display/swapchain.cpp:624-629 | the image's present fence takes the payload, as AfterSetPayload |
| DisplaySwapchain.DisplaySwapchain.WaitPresent | wsi/display/swapchain.cpp:631-635 | the image's present fence is waited on, as AfterWait |
| HeadlessSwapchain.ImageData.constructor | wsi/headless/swapchain.cpp:43-48 | new per-image data has no memory and an empty present fence |
| HeadlessSwapchain.DestroyCalls | wsi/headless/swapchain.cpp:143-171 | at most four driver calls: the VkImage is destroyed exactly when the image is valid with a non-null handle, memory is freed exactly when the data holds non-null memory, and the fence calls are exactly the data's fence DestructionCalls |
| HeadlessSwapchain.HeadlessSwapchain.constructor | wsi/headless/swapchain.cpp:50-54 | no create info recorded and no driver call made |
| HeadlessSwapchain.HeadlessSwapchain.DestroyImageOf | wsi/headless/swapchain.cpp:143-171 | the image becomes INVALID without data, its handle is cleared when it was valid, its memory is cleared, and the driver receives exactly DestroyCalls of the old image, memory and present fence |
| HeadlessSwapchain.HeadlessSwapchain.CreateAndBindSwapchainImage | wsi/headless/swapchain.cpp:67-136 | the create info is recorded; a failed image creation is returned with nothing else done; the lowest memory type the image allows is chosen; a failed data allocation gives OUT_OF_HOST_MEMORY; a failed allocation or bind returns its error, and a failed fence creation OUT_OF_HOST_MEMORY, with the image destroyed; on success the image is FREE with the new image and memory, and its present fence holds the new fence with no payload |
| HeadlessSwapchain.HeadlessSwapchain.CreateAliasedImageHandle | wsi/headless/swapchain.cpp:62-65 | the aliased image is created from the recorded create info, and the driver's result is returned |
| HeadlessSwapchain.HeadlessSwapchain.PresentImage | wsi/headless/swapchain.cpp:138-141 | the presented image becomes FREE at once, with its handle and data unchanged |
| HeadlessSwapchain.HeadlessSwapchain.BindSwapchainImage | wsi/headless/swapchain.cpp:186-195 | the application's image is bound to the memory of the named swapchain image, and the driver's result is returned |
| HeadlessSwapchain.DestroyTwiceReleasesNothing | wsi/headless/swapchain.cpp:146-169 | destroying an image that is already INVALID and has no data makes no driver call |
| WaylandSurface.Modifier | wsi/wayland/surface.cpp:60-62 | the stored 64-bit modifier gives back the high and low halves the compositor sent |
| WaylandSurface.ModifierInjective | wsi/wayland/surface.cpp:60-62 | distinct (high, low) pairs are stored as distinct modifiers |
| WaylandSurface.PairsOf | wsi/wayland/surface.cpp:55-68 | one stored pair per event, in order, each with the event's fourcc and combined modifier |
| WaylandSurface.CollectedMeaning | wsi/wayland/surface.cpp:55-68 | the handler stores exactly the events before the first failed push; the out-of-memory flag is set exactly when some push failed, and then the event after the stored ones is the first failure |
| WaylandSurface.FormatsVector.constructor | wsi/wayland/surface.cpp:84-95 | the vector starts with the given pairs and no out-of-memory flag |
| WaylandSurface.FormatsVector.OnModifier | wsi/wayland/surface.cpp:55-68 | after an earlier failure nothing changes; otherwise the pair is appended on a successful push and the flag set on a failed one |
| WaylandSurface.FormatsVector.Deliver | wsi/wayland/surface.cpp:84-117 | delivering the events in order appends exactly Collected's pairs and sets the flag as Collected says |
| WaylandSurface.FormatsQueryResult | wsi/wayland/surface.cpp:95-116 | UNKNOWN exactly when the listener could not be added or the roundtrip failed; SUCCESS exactly when both worked and every push found memory; OUT_OF_HOST_MEMORY otherwise |
| WaylandSurface.GetSupportedFormatsAndModifiers | wsi/wayland/surface.cpp:84-117 | the result is FormatsQueryResult's, and the vector gains the collected pairs exactly when the listener was added |
| WaylandSurface.Surface.constructor | wsi/wayland/surface.cpp:126-134 | a new surface has no event queue and no formats |
| WaylandSurface.Surface.Init | wsi/wayland/surface.cpp:136-189 | success exactly when every Wayland step succeeds and the formats query returns SUCCESS; the queue exists exactly when it was created; the formats gain the collected pairs once the query's listener is attached |
| WaylandSurface.MakeSurface | wsi/wayland/surface.cpp:191-204 | a surface comes back exactly when its allocation and init succeed, holding a queue and the collected pairs |
| WaylandSurfaceProperties.GetSurfaceCapabilities | wsi/wayland/surface_properties.cpp:65-100 | the common capabilities with at least two images and no upper image limit |
| WaylandSurfaceProperties.VkFormatsOfMeaning | wsi/wayland/surface_properties.cpp:102-121 | a format is supported exactly when some advertised fourcc maps to it or to a format whose sRGB twin it is; UNDEFINED never is |
| WaylandSurfaceProperties.FourccFormatsIncluded | wsi/wayland/surface_properties.cpp:102-121 | every advertised pair contributes all of its formats |
| WaylandSurfaceProperties.VkFormatsOfSubset | wsi/wayland/surface_properties.cpp:102-121 | advertising fewer pairs never adds a format |
| WaylandSurfaceProperties.VkFormatsOfSameMembers | wsi/wayland/surface_properties.cpp:102-121 | the order and repetition of the advertised pairs do not change the supported set |
| WaylandSurfaceProperties.GetVkSupportedFormats | wsi/wayland/surface_properties.cpp:102-121 | the loop adds exactly the formats of the advertised pairs to the set |
| WaylandSurfaceProperties.QuerySupportedFormats | wsi/wayland/surface_properties.cpp:139-184 | never UNKNOWN; SURFACE_LOST when the dmabuf interface cannot be reached or the formats query says UNKNOWN; its other errors pass through; SUCCESS exactly when the query succeeds, and only then are the formats added |
| WaylandSurfaceProperties.WriteFormats | wsi/wayland/surface_properties.cpp:196-222 | as many formats as the array holds, each a distinct supported one with the sRGB non-linear colour space, the rest of the array untouched |
| WaylandSurfaceProperties.GetSurfaceFormats | wsi/wayland/surface_properties.cpp:186-223 | the query's error is returned with nothing written; without an array the supported count is returned; with one the formats are written as WriteFormats says and INCOMPLETE is returned when they do not all fit |
| WaylandSurfaceProperties.GetSurfacePresentModes | wsi/wayland/surface_properties.cpp:225-256 | FIFO and MAILBOX through the count-then-fill protocol |
| WaylandSurfaceProperties.RequiredNamesFit | wsi/wayland/surface_properties.cpp:258-268 | each required extension name fits in an extension name buffer |
| WaylandSurfaceProperties.PhysicalDeviceSupported | wsi/wayland/surface_properties.cpp:284-293 | true exactly when the device's extensions include every required one |
| WaylandSurfaceProperties.PhysicalDeviceSupportedOwnExtensions | wsi/wayland/surface_properties.cpp:284-293 | two devices listing the same extension names get the same answer |
| WaylandSurfaceProperties.WaylandSurfaceProperties.constructor | wsi/wayland/surface_properties.cpp:286-287 | both static lists start empty |
| WaylandSurfaceProperties.WaylandSurfaceProperties.PhysicalDeviceSupportedAsWritten | wsi/wayland/surface_properties.cpp:284-293 | as written, the device's extensions and the required names are appended to the static lists, and the answer is whether the accumulated device list contains the accumulated required list |
| WaylandSurfaceProperties.AccumulatedListAnswersForEarlierDevice | wsi/wayland/surface_properties.cpp:284-293 | after one call for a supported device, a second call on the same object for a device with no extensions answers supported, although such a device alone is not |
| WaylandSwapchain.MemoryRelease | wsi/wayland/swapchain.cpp:549-556 | at most one release for the memory behind an image's data |
| WaylandSwapchain.HandleRelease | wsi/wayland/swapchain.cpp:528-541 | the releases for a valid image's handles are only its fence and its VkImage |
| WaylandSwapchain.DataRelease | wsi/wayland/swapchain.cpp:542-568 | the releases for an image's data are only its wl_buffer and its memory or fd |
| WaylandSwapchain.Destroyed | wsi/wayland/swapchain.cpp:526-570 | the destroyed image is INVALID and has no data |
| WaylandSwapchain.DestroyCallsMeaning | wsi/wayland/swapchain.cpp:526-570 | the memory is freed exactly when it was imported, the fd closed exactly when it is open and nothing was imported, the wl_buffer and VkImage destroyed exactly when present; memory and fd are never both released |
| WaylandSwapchain.DestroyTwiceReleasesNothing | wsi/wayland/swapchain.cpp:526-570 | a second destroy releases nothing and leaves the image as the first left it |
| WaylandSwapchain.ImportOutcome | wsi/wayland/swapchain.cpp:284-358 | SUCCESS exactly when image creation, the fd query, the size query, the import and the bind succeed; a failed size query is OUT_OF_HOST_MEMORY; the data keeps the dmabuf's fd, stride and offset and holds the memory only once imported; the VkImage handle is reported only when created |
| WaylandSwapchain.AllocateOutcome | wsi/wayland/swapchain.cpp:196-359 | the support query's error passes through; an unsupported image is INITIALIZATION_FAILED; a failed dmabuf allocation is OUT_OF_HOST_MEMORY; SUCCESS exactly when the memory was imported and bound; the fd is kept only once allocated |
| WaylandSwapchain.ImportDmaBuf | wsi/wayland/swapchain.cpp:284-358 | the outcome is ImportOutcome's, and the memory type chosen is the lowest the fd allows |
| WaylandSwapchain.CheckFormatSupport | wsi/wayland/swapchain.cpp:230-269 | SUCCESS exactly when the device supports the image; the query's error passes through; any limit or a missing import feature gives INITIALIZATION_FAILED |
| WaylandSwapchain.AllocateImage | wsi/wayland/swapchain.cpp:196-359 | the outcome is AllocateOutcome's, and a memory type is chosen exactly when the image was created and the fd query succeeded |
| WaylandSwapchain.CreateSuccess | wsi/wayland/swapchain.cpp:361-441 | a successful create leaves a FREE image holding its VkImage, fence, wl_buffer, fd and imported memory |
| WaylandSwapchain.CreateOutcome | wsi/wayland/swapchain.cpp:361-441 | a failed data allocation is OUT_OF_HOST_MEMORY with the image as it was; SUCCESS exactly when the allocation, both listeners, the roundtrip and the fence creation succeed; once the data exists the image is FREE and holds it; the new fence is stored only on success |
| WaylandSwapchain.CreateFailureReleasesEverything | wsi/wayland/swapchain.cpp:434-438 | a failed create's clean-up releases the VkImage if created, the memory if imported, otherwise the fd, and the wl_buffer if one arrived |
| WaylandSwapchain.FrameWaitTurns | wsi/wayland/swapchain.cpp:463-471 | the dispatch the frame wait stops on ends it, and no earlier one does |
| WaylandSwapchain.WaitForFrame | wsi/wayland/swapchain.cpp:460-479 | the wait succeeds exactly when its last dispatch did, a frame stays pending exactly when its callback has not arrived, and a successful wait leaves none pending |
| WaylandSwapchain.FirstWithBuffer | wsi/wayland/swapchain.cpp:176-192 | the first image holding the buffer, with none before it; None exactly when no image holds it |
| WaylandSwapchain.AfterRelease | wsi/wayland/swapchain.cpp:176-192 | the image count and every image's data are kept; only the first image holding the buffer changes, and it becomes FREE |
| WaylandSwapchain.AfterReleases | wsi/wayland/swapchain.cpp:170-192 | a run of releases keeps the image count and every image's data |
| WaylandSwapchain.Drain | wsi/wayland/swapchain.cpp:601-604 | the dispatch loop keeps the image count and every image's data |
| WaylandSwapchain.DrainStopsOnFree | wsi/wayland/swapchain.cpp:601-604 | when the loop stops after a successful dispatch, some image is FREE |
| WaylandSwapchain.MsTimeout | wsi/wayland/swapchain.cpp:588-595 | the timeout in whole milliseconds rounded down, saturated at INT_MAX |
| WaylandSwapchain.FreeBufferResult | wsi/wayland/swapchain.cpp:601-625 | SUCCESS exactly for a positive dispatch result, which also zeroes the timeout; NOT_READY exactly for 0 with a zero timeout; TIMEOUT exactly for 0 with a non-zero one; DEVICE_LOST otherwise |
| WaylandSwapchain.WaylandSwapchain.constructor | wsi/wayland/swapchain.cpp:61-71 | the images are all INVALID without handles or data, nothing is pending, the swapchain is valid and nothing is attached or released |
| WaylandSwapchain.WaylandSwapchain.DestroyImageAt | wsi/wayland/swapchain.cpp:526-570 | the image becomes Destroyed's, the releases are DestroyCalls, and nothing else changes |
| WaylandSwapchain.WaylandSwapchain.CreateImageAt | wsi/wayland/swapchain.cpp:361-441 | the result is CreateOutcome's; on success the image is the one built, on failure the built image is destroyed before the error is returned |
| WaylandSwapchain.WaylandSwapchain.ReleaseBuffer | wsi/wayland/swapchain.cpp:176-192 | the images become AfterRelease's and nothing else changes |
| WaylandSwapchain.WaylandSwapchain.FreeImageFound | wsi/wayland/swapchain.cpp:572-582 | true exactly when some image is FREE |
| WaylandSwapchain.WaylandSwapchain.DispatchBufferQueue | wsi/wayland/swapchain.cpp:170-192 | the images become AfterReleases' of the released buffers and nothing else changes |
| WaylandSwapchain.WaylandSwapchain.GetFreeBuffer | wsi/wayland/swapchain.cpp:584-626 | the dispatch timeout is MsTimeout's; the images are Drain's; the result and new timeout are FreeBufferResult's of the last dispatch; SUCCESS means some image is FREE |
| WaylandSwapchain.WaylandSwapchain.PresentImage | wsi/wayland/swapchain.cpp:455-524 | the image's buffer is attached; FIFO with a frame callback leaves a frame pending, otherwise pending is whether the wait left one; the swapchain stays valid exactly when it was, the flush succeeded and any wait succeeded |
| WaylandSwapchain.FrameWaitSuccessClearsPending | wsi/wayland/swapchain.cpp:443-479 | a frame wait that ends with a successful dispatch has seen the frame callback |
| ShmPresenter.MulU32 | wsi/x11/shm_presenter.cpp:245 | the uint32 product lies below 2^32 and is the exact product whenever that fits |
| ShmPresenter.ScalingLut | wsi/x11/shm_presenter.cpp:233-253 | the table has one entry per display column, each the scaled and clamped source column |
| ShmPresenter.LutEntryInRow | wsi/x11/shm_presenter.cpp:243-249 | without uint32 overflow every entry is d * gpu / display and lies inside the GPU row, so the clamp never fires |
| ShmPresenter.LutRises | wsi/x11/shm_presenter.cpp:245 | when the GPU row is at least as wide as the display row, consecutive entries strictly rise |
| ShmPresenter.LutGap | wsi/x11/shm_presenter.cpp:245 | when the GPU row is at least as wide, the entries at columns i <= j differ by at least j - i |
| ShmPresenter.LutIdentityAtEnd | wsi/x11/shm_presenter.cpp:304-305 | a table whose last entry maps to the last column is the identity, so the memcpy shortcut copies what the table loop would |
| ShmPresenter.CopiedRowsExtend | wsi/x11/shm_presenter.cpp:323-346 | copying one more row without touching earlier rows extends the copied prefix by that row |
| ShmPresenter.ColumnAsWritten | wsi/x11/shm_presenter.cpp:304-345 | the as-written lookup reads past the table exactly when the identity test fails (stride differs from width, or the table does not keep columns) and the column lies beyond the table |
| ShmPresenter.PaddedRowReadsPastEmptyLut | wsi/x11/shm_presenter.cpp:837-862 | with the table cleared and a row pitch wider than the packed row, every column of the as-written copy falls outside the table |
| ShmPresenter.ImageData.constructor | wsi/x11/shm_presenter.hpp:52 | a new image has no segments, no mapping, no size, no buffer toggle, fresh external memory and an empty present fence |
| ShmPresenter.Cached | wsi/x11/shm_presenter.cpp:607-617 | the cached depths are the old ones together with every format's depth |
| ShmPresenter.CachedLastWins | wsi/x11/shm_presenter.cpp:612-616 | a cached depth answers with the bits per pixel of the last format that lists it |
| ShmPresenter.DefaultBitsPerPixel | wsi/x11/shm_presenter.cpp:627 | the fallback is a byte: 32 for depth 24, otherwise the depth truncated to 8 bits |
| ShmPresenter.ShmStride | wsi/x11/shm_presenter.cpp:659-660 | for depth 24 the stride is width * 4 whenever that fits in uint32, and a zero width gives a zero stride |
| ShmPresenter.ActiveSeg | wsi/x11/shm_presenter.cpp:820-821 | the segment used is one of the two, and always the primary one when no alternate exists |
| ShmPresenter.ActiveAddr | wsi/x11/shm_presenter.cpp:822-823 | the address used is one of the two, and always the primary one when no alternate is attached |
| ShmPresenter.Unmapped | wsi/x11/shm_presenter.cpp:942-952 | no mapping is left behind |
| ShmPresenter.DestroyTwiceReleasesNothing | wsi/x11/shm_presenter.cpp:928-958 | after one destroy_image_resources a second one detaches no segment and no mapping |
| ShmPresenter.DetachSegments | wsi/x11/shm_presenter.cpp:930-940 | the calls are the detach of each existing segment, in order, and both segments end as none; the mappings are untouched |
| ShmPresenter.UnmapAddresses | wsi/x11/shm_presenter.cpp:942-952 | the calls are the detach of each mapped address, in order, and both end unmapped; the segments are untouched |
| ShmPresenter.Resized | wsi/x11/shm_presenter.cpp:240-241 | the resized table has the new length and keeps the old entries below it |
| ShmPresenter.ShmPresenter.constructor | wsi/x11/shm_presenter.cpp:66-71 | a new presenter has nothing pending, no fence, the first frame ahead and an empty table |
| ShmPresenter.ShmPresenter.PrecomputeScalingLut | wsi/x11/shm_presenter.cpp:233-253 | unless both widths equal the cached ones the table becomes ScalingLut of the new widths and the widths are cached; otherwise nothing changes |
| ShmPresenter.ShmPresenter.CopyPixelsScalar | wsi/x11/shm_presenter.cpp:299-347 | every one of the height destination rows holds the source row read through the table, and the rest of the destination is unchanged |
| ShmPresenter.ShmPresenter.CopyRow | wsi/x11/shm_presenter.cpp:308-345 | each destination pixel of the row is the source pixel of the column the table names; nothing outside the row changes |
| ShmPresenter.ShmPresenter.CopyPixelsOptimized | wsi/x11/shm_presenter.cpp:448-459 | as intended, with the corrected `CopyPixelsScalar` as its fallback (see Findings): both the single memcpy and the row copy leave the first height rows holding the scaled source rows |
| ShmPresenter.ShmPresenter.StartAsyncSync | wsi/x11/shm_presenter.cpp:461-470 | one geometry request is sent exactly when none is pending, and afterwards one is pending |
| ShmPresenter.ShmPresenter.CheckPendingSync | wsi/x11/shm_presenter.cpp:472-496 | the answer is true exactly when nothing was pending or the reply arrived; the sync stays pending exactly when it was pending and neither reply nor error arrived |
| ShmPresenter.ShmPresenter.EnsureSyncCompletion | wsi/x11/shm_presenter.cpp:498-518 | after it nothing is pending, whether the reply or an error ended the wait |
| ShmPresenter.ShmPresenter.InitFenceSync | wsi/x11/shm_presenter.cpp:520-571 | the fence is available afterwards exactly when it already was, or the extension is present, creation succeeded and the round trip replied; every failure leaves no fence |
| ShmPresenter.ShmPresenter.CleanupFenceSync | wsi/x11/shm_presenter.cpp:573-581 | an existing fence is destroyed and afterwards none is there or available |
| ShmPresenter.ShmPresenter.WaitForPresentationFence | wsi/x11/shm_presenter.cpp:583-594 | with a usable fence it is awaited then reset; otherwise no request is sent |
| ShmPresenter.ShmPresenter.TriggerPresentationFence | wsi/x11/shm_presenter.cpp:596-605 | with a usable fence it is triggered; otherwise no request is sent |
| ShmPresenter.ShmPresenter.CacheX11Formats | wsi/x11/shm_presenter.cpp:607-617 | the cache becomes Cached of the old cache and the server's pixmap formats |
| ShmPresenter.ShmPresenter.GetBitsPerPixelForDepth | wsi/x11/shm_presenter.cpp:619-628 | a cached depth answers from the cache, any other depth with the fallback |
| ShmPresenter.ShmPresenter.Init | wsi/x11/shm_presenter.cpp:630-651 | init succeeds, caches the formats, and leaves a fence available exactly when the extension is present, creation succeeded and the round trip replied |
| ShmPresenter.ShmPresenter.CreateImageResources | wsi/x11/shm_presenter.cpp:653-722 | the geometry and ShmStride-derived size are recorded; the result is success exactly when the primary segment was created and attached, with the primary failures reported as out of host memory and a failed attach resetting the id |
| ShmPresenter.ShmPresenter.AttachAlternate | wsi/x11/shm_presenter.cpp:684-704 | a failed shmget keeps the returned id, a failed attach resets the id and address, and only a successful attach gets a segment |
| ShmPresenter.ShmPresenter.BeginFrame | wsi/x11/shm_presenter.cpp:804-815 | with a fence and a shown frame the fence is awaited; without a fence a pending round trip is finished; the next frame is no longer the first |
| ShmPresenter.ShmPresenter.EndFrame | wsi/x11/shm_presenter.cpp:915-922 | with a fence it is triggered, otherwise a geometry round trip is started |
| ShmPresenter.ShmPresenter.PresentImage | wsi/x11/shm_presenter.cpp:799-927 | the buffer toggle flips; the result is unknown error without an active address or size, device lost without host-visible memory, unknown error when mapping failed, success otherwise; a success sends the frame-wait requests, the put from the active segment and the frame-end requests, clears the table and picks the copy CopyFor names; a failure sends only the frame-wait requests |
| ShmPresenter.ShmPresenter.DestroyImageResources | wsi/x11/shm_presenter.cpp:928-958 | both segments and both mappings are released, ids are -1, size 0 and the toggle off; the geometry is kept |
| X11Swapchain.X11PresetResult | wsi/x11/swapchain.cpp:312-318 | the preset result is well formed, with every buffer fd and row stride -1 and every offset 0 |
| X11Swapchain.PixmapsOf | wsi/x11/swapchain.cpp:543-546 | one pixmap per image, each the pixmap of that image's data |
| X11Swapchain.WithPixmapFreed | wsi/x11/swapchain.cpp:543-550 | exactly the images whose pixmap is the popped one become FREE; the others are unchanged |
| X11Swapchain.Drained | wsi/x11/swapchain.cpp:539-551 | draining the pool keeps the number of images |
| X11Swapchain.DrainedMeaning | wsi/x11/swapchain.cpp:539-551 | after the drain an image is FREE-marked exactly when its pixmap occurs somewhere in the pool, independent of pool order and repetition; every other image is as before |
| X11Swapchain.AfterDestroy | wsi/x11/swapchain.cpp:601-629 | a destroyed image is INVALID without data, and a previously valid one has a null VkImage |
| X11Swapchain.DestroyedHandle | wsi/x11/swapchain.cpp:601-629 | an INVALID image destroys nothing; a destroyed VkImage is the image's own non-null handle, which the destroyed image no longer holds |
| X11Swapchain.DestroyTwiceIsNoOp | wsi/x11/swapchain.cpp:601-629 | a second destroy_image leaves the image as the first did and destroys no VkImage |
| X11Swapchain.X11Swapchain.constructor | wsi/x11/swapchain.cpp:68-82 | no presenter, no allocator, no serial sent, an empty pool and the image format reset to UNDEFINED |
| X11Swapchain.X11Swapchain.InitPlatform | wsi/x11/swapchain.cpp:108-172 | success exactly when the surface, allocator, presenter allocation, SHM availability and event thread all succeed, otherwise INITIALIZATION_FAILED; on success the presentation thread is used exactly when the mode is not MAILBOX |
| X11Swapchain.X11Swapchain.AllocateImage | wsi/x11/swapchain.cpp:290-372 | a failed push is OUT_OF_HOST_MEMORY; otherwise the cached format is reallocated with the preset result, the allocator's error is mapped as the display backend maps it, on success the format, fds, strides and distinct-memory count are recorded, and the disjointness agrees with the allocator's flag when the flag agrees with that count |
| X11Swapchain.X11Swapchain.PresentImage | wsi/x11/swapchain.cpp:478-535 | the image is always unpresented and the present id recorded when enabled; with a full queue and a stopped event thread the serial does not move and nothing is presented, otherwise the serial rises by one, is passed on as uint32 and the presenter runs |
| X11Swapchain.X11Swapchain.UnpresentPixmap | wsi/x11/swapchain.cpp:543-550 | the images become WithPixmapFreed of the popped pixmap, and each image keeps its pixmap |
| X11Swapchain.X11Swapchain.FreeImageFound | wsi/x11/swapchain.cpp:537-561 | the pool ends empty, the images are Drained by the old pool, and the answer is true exactly when some image is FREE |
| X11Swapchain.X11Swapchain.GetFreeBuffer | wsi/x11/swapchain.cpp:563-599 | with a zero timeout the answer is SUCCESS exactly when an image is FREE after the drain, else NOT_READY; otherwise a found image is SUCCESS with the timeout zeroed, a stopped event thread is OUT_OF_DATE, and a running one leads to the wait |
| X11Swapchain.X11Swapchain.DestroyImage | wsi/x11/swapchain.cpp:601-629 | the image becomes AfterDestroy of itself, the VkImage of a valid image is destroyed, the freed data releases its external memory's DestructionActions and its fence's DestructionCalls, and with a presenter the image's segments and mappings are released |

## Left out

- The operations of the driver, the kernel, the compositor and the X server are not modelled. These include Vulkan dispatch calls, DRM/KMS calls, `select`/`drmHandleEvent`, ION and DMA-heap ioctls, `open`/`close`/`lseek`, `shmget`/`shmat`/`shmdt`/`shmctl`, and `xcb_*`, XRandR and `wl_*` requests. Each is represented by its result or recorded in a log; `xcb_flush` and `shmctl(IPC_RMID)` are not recorded.
- Concurrency is not modelled; every operation is sequential and the locks are no-ops. This covers:
  - the mutexes of the registries and the swapchains;
  - the X11 `present_event_thread` (wsi/x11/swapchain.cpp:435-476);
  - `copy_pixels_threaded` (wsi/x11/shm_presenter.cpp:349-436), whose bands each copy rows as `ShmPresenter.ShmPresenter.CopyRow` does.
- X11Swapchain.X11Swapchain.PresentImage: the condition-variable wait for a full completion queue while the event thread runs is excluded by its precondition, because the model has no second thread to empty the queue.
- X11Swapchain.X11Swapchain.GetFreeBuffer: for a non-zero timeout it stops where the source would wait on the condition variable, with `None` as the result. The timed wait and `VK_TIMEOUT` are not modelled.
- Floating point and wall-clock timing are not modelled. This covers:
  - the X11 refresh-rate detection (wsi/x11/shm_presenter.cpp:95-231 and 724-797);
  - the frame pacing sleep in `shm_presenter::present_image` (wsi/x11/shm_presenter.cpp:892-913);
  - the window-event polling it starts with.
- The NEON SIMD copy (wsi/x11/shm_presenter.cpp:255-297) is left out. It copies the same pixels as the identity path of `copy_pixels_scalar`.
- ShmPresenter.ShmPresenter.PresentImage records which copy it performs (`CopyFor`: pixel copy or row-by-row memcpy), not the bytes it writes. The pixel copy itself is `ShmPresenter.ShmPresenter.CopyPixelsOptimized`.
- The X11 `allocate_and_bind_swapchain_image`, `create_swapchain_image`, `image_set_present_payload`, `image_wait_present`, `bind_swapchain_image` and `add_required_extensions` (wsi/x11/swapchain.cpp:374-433 and 631-667) are not modelled. They wire together pieces modelled elsewhere:
  - `create_image_resources`;
  - `WsiExternalMemory`;
  - `Synchronization.FenceSync`.
- The headless `image_set_present_payload` and `image_wait_present` (wsi/headless/swapchain.cpp:173-184) only delegate to the image's fence, which is `Synchronization.FenceSync`.
- The Wayland `init_platform` (wsi/wayland/swapchain.cpp:102-160) is not modelled. It creates the event queue and the surface's proxies through the compositor. `wsi/wayland/wl_helpers.cpp` (the dispatch loop) and `wsi/x11/surface.cpp` are not part of this model either.
- The base class `swapchain_base` and the backend headers are not part of this model. These include `x11_image_data`, the display and headless image data, and the fields of `swapchain_image`. Their behaviour enters in three ways:
  - `unpresent_image` makes an image FREE;
  - `set_error_state` stores the error;
  - the initial field values come from how the modelled code uses them. This is why `ShmPresenter.ImageData.constructor` cites only the forward declaration of `x11_image_data`, and `HeadlessSwapchain.SwapchainImage.constructor` has no row.
- The `wsi/external_memory.hpp` in this source lacks `set_num_memories`, `set_format_info` and `m_num_memories`, which `wsi/external_memory.cpp` and the backends use. Their effect comes from those callers: `WsiExternalMemory.ExternalMemory.SetNumMemories` and `SetFormatInfo` cite their calls in wsi/display/swapchain.cpp.
- Pass-through entry points with no logic of their own are not modelled. These are `layer/present_timing.cpp`, `layer/surface_api.cpp`, `layer/swapchain_maintenance_api.cpp`, `util/format_modifiers.cpp` and `check_device_support`.
- The allocator-aware containers (`util/custom_allocator.hpp`, `util/unordered_map.hpp`, `util/unordered_set.hpp`) are Dafny sequences and maps, with an explicit outcome for a failed allocation.
- Logging (`util/log.cpp`) is not modelled. Neither is the file handling and command line of `check_copyright.py` (`update_header`, lines 117-182), whose current year is a parameter.
- CheckCopyright: `"%d"` formatting and the regular expressions of `parse_years_string` are modelled on the token stream they produce and see: a maximal digit run, a `-`, or another character. Locale and Unicode digits are not modelled.
- HeadlessSurfaceProperties: the headless `get_surface_formats` (wsi/headless/surface_properties.cpp:125-135) is not modelled. It hands the filled formats to `surface_properties_formats_helper`, which is not part of this model; the filling is `HeadlessSurfaceProperties.FillSupportedFormats`. The colour space each entry gets comes from `surface_format_properties`' constructor, whose header is not part of this model either; the model takes it to be VK_COLOR_SPACE_SRGB_NONLINEAR_KHR.
- WsiExternalMemory.ExternalMemory.Destroy and Synchronization.FenceSync.Destroy return the driver calls the destructors make, not the handle resets of `cleanup_host_visible_memory`, nor the result of the fence wait, which `~fence_sync` ignores. The object is gone afterwards, so its state is not updated.
- The generated DRM/Vulkan format tables are not part of this model. Every lookup takes the table as a parameter.
- DisplaySwapchain.WaitForFlip: the page-flip wait reads its `select` outcomes from a finite sequence that must contain a terminating outcome. The source instead loops until the kernel answers, so a kernel that never answers is not modelled.
- Debug-build `assert`s are modelled by the release-build path where that path is defined (`PrivateData.Registry.DestroyInstanceData` on an unknown key, `SwapchainMaintenance.Maintenance.SwitchPresentMode` on an empty list, the headless allocation and bind checks). Where the release build would instead dereference the null the assert rules out, or break a promise the layer relies on, the asserted condition is a `requires`: `PrivateData.Registry.GetInstanceData`, `PrivateData.Registry.GetDeviceData`, `PrivateData.Registry.CreateDeviceData` and `PrivateData.Registry.CreateDeviceDataAsWritten` (a registered key), and `Layer.Negotiate` (a loader interface version of at least 2). The same holds for the allocator's format tables (`Wsialloc.WellFormedTable`, `WsiallocIon.IonTable`).
- The unconditional `abort()` of `extension_list::add` on a name of `VK_MAX_EXTENSION_NAME_SIZE` characters or more is a `requires` on its callers: `ExtensionList.ExtensionList.AddNames`, `ExtensionList.ExtensionList.AddFiltered`, `ExtensionList.ExtensionList.AddList`, `WsiFactory.AddExtensionsRequiredByLayer`, `WsiFactory.AddPlatform`, `WsiFactory.AddPlatformExtensions` and `WsiFactory.AddPlatformTurn` (via `WsiFactory.NamesFit`). The process end itself is not modelled.
- WsiallocHelpers.CalculateFormatProperties: offsets and the total size come from `LayoutOffset`, which counts each plane's stride times height in full; the source truncates each product to 32 bits (wsialloc_helpers.c:84), so an image of 4 GiB or more per plane gets a wrapped layout there and not here (see Findings).
- WsiallocHelpers.SelectFormat: the offsets and total handed back are `LayoutOffset`'s, not the 32-bit-truncated ones of wsialloc_helpers.c:84 (see Findings).
- WsiallocHelpers.WsiallocpAlloc: the size requested from the callback is `LayoutOffset`'s total, not the 32-bit-truncated one of wsialloc_helpers.c:84 (see Findings).
- WsiallocDmaBufHeaps.DmaBufHeapsAllocator.Alloc: the DMA heap is asked for `LayoutOffset`'s total, not the 32-bit-truncated one of wsialloc_helpers.c:84 (see Findings).
- SwapchainMaintenance.Maintenance.HandlePresentModesCreateInfo: the compatibility check is the corrected `CompatiblePresentModes.IsCompatible`; as written (wsi/compatible_present_modes.hpp:134-138) a FIFO row listing only FIFO accepts a request for [IMMEDIATE] with SUCCESS, where the model gives INITIALIZATION_FAILED (see Findings).
- SwapchainMaintenance.FirstIncompatible, SwapchainMaintenance.CreateInfoSuccess and SwapchainMaintenance.CreateInfoFailsIffIncompatible are stated over the same corrected check.
- FrameBoundaryExtension.FrameBoundaryExt.HandleEvent: the application's boundary is found by the corrected `AppBoundary`; as written (wsi/extensions/frame_boundary.cpp:63-75) the search looks for `VK_STRUCTURE_TYPE_PRESENT_ID_KHR`, so for a chain holding only a `VkFrameBoundaryEXT` the source generates a boundary and advances the ID, where the model returns the application's (see Findings).
- FrameBoundaryExtension.HandleFrameBoundaryEvent: the same corrected search, through `FrameBoundaryExt.HandleEvent` or directly for a null extension (see Findings).
- FrameBoundary.FrameBoundaryHandler.HandleEvent: with the flag clear it returns the corrected `AppBoundary`; as written (wsi/frame_boundary.cpp:49-61) the search looks for `VK_STRUCTURE_TYPE_PRESENT_ID_KHR`, so a present-ID structure is returned and a frame boundary is not (see Findings).
- WsiallocIon.New: it follows the corrected `NewResult`, so with no DMA heap the model fails with NO_RESOURCE and closes the device fd; as written (wsialloc_ion.c:147-152) the source succeeds and stores heap id 0xFFFFFFFF, as `WsiallocIon.NewAcceptsMissingHeap` shows (see Findings).
- ShmPresenter.ShmPresenter.CopyPixelsOptimized: its fallback is the corrected `CopyPixelsScalar`, which copies columns in place whenever the table keeps them; as written (wsi/x11/shm_presenter.cpp:304-345) a padded stride with the cleared table indexes the empty table, as `ShmPresenter.PaddedRowReadsPastEmptyLut` shows (see Findings).
- DisplaySwapchain.DisplaySwapchain.PresentImage: the flip wait is the corrected `WaitForFlip`, which fills the fd set on every turn; as written (wsi/display/swapchain.cpp:552-588) a flip completed after a timeout is never seen and the wait ends only on a fatal `select` error (see Findings).
- Layer.ExtensionProperties: the copy moves `sizeof(VkExtensionProperties)` per element; as written (layer/layer.cpp:50-70) it moves `sizeof(VkLayerProperties)`, twice as many bytes, as `Layer.AsWrittenOverrunsBuffers` shows (see Findings). Layer.EnumerateInstanceExtensionProperties and Layer.EnumerateDeviceExtensionProperties answer through this corrected copy.

## Findings

| source | as written | input that shows it | evidently intended | confidence | as-written member | corrected member |
|---|---|---|---|---|---|---|
| wsi/compatible_present_modes.hpp:134-138 | the search for `b` in a row stops at the row's count, but its result is compared with the end of the whole 6-slot array, so any mode counts as compatible with a mode whose row is not full | FIFO, whose row lists only FIFO, against IMMEDIATE: reported compatible | compare with the end of the row's listed modes | not executed | CompatiblePresentModes.AsWrittenExample | CompatiblePresentModes.IsCompatible |
| util/extension_list.cpp:166-171 | `erase(remove_if(...))` uses the single-iterator `erase`, so only one entry is dropped, and a name that is not listed hands `erase` the end iterator | the list [a, a] with `remove(a)` keeps one `a`; the list [b] with `remove(a)` erases `end()` | the range `erase`, which removes every match | not executed | ExtensionList.RemoveAsWrittenKeepsDuplicate | ExtensionList.ExtensionList.Remove |
| wsi/x11/shm_presenter.cpp:304-345 | the identity path also requires the source stride in pixels to equal the width; otherwise the loop indexes the scaling table, which `present_image` has just cleared | a padded row pitch (rowPitch / 4 != width) with equal GPU and display widths: every column reads past the empty table | copy columns in place whenever the table keeps them (empty or identity), whatever the stride | not executed | ShmPresenter.PaddedRowReadsPastEmptyLut | ShmPresenter.ShmPresenter.CopyPixelsScalar |
| wsi/extensions/frame_boundary.cpp:63-75 | the application's `VkFrameBoundaryEXT` is searched for under `VK_STRUCTURE_TYPE_PRESENT_ID_KHR` | a present chain holding a frame boundary and no present ID: not found; one holding a present ID: taken for a frame boundary | search for `VK_STRUCTURE_TYPE_FRAME_BOUNDARY_EXT` | not executed | FrameBoundaryExtension.AsWrittenMissesAppBoundary | FrameBoundaryExtension.AppBoundaryFound |
| wsi/frame_boundary.cpp:49-61 | the same search in the handler's own copy of `create_frame_boundary`: the application's `VkFrameBoundaryEXT` is searched for under `VK_STRUCTURE_TYPE_PRESENT_ID_KHR` | a present chain holding a frame boundary and no present ID: not found; one holding a present ID: taken for a frame boundary | search for `VK_STRUCTURE_TYPE_FRAME_BOUNDARY_EXT` | not executed | FrameBoundaryExtension.AsWrittenMissesAppBoundary | FrameBoundaryExtension.AppBoundaryFound |
| layer/layer.cpp:50-70 | `extension_properties` copies `count` elements of `sizeof(VkLayerProperties)` (520 bytes) into an array of `VkExtensionProperties` (260 bytes) | a query for the layer's one extension: 520 bytes copied from a 260-byte array | `sizeof(VkExtensionProperties)` per element | not executed | Layer.AsWrittenOverrunsBuffers | Layer.ExtensionCopyBytes |
| util/wsialloc/wsialloc_ion.c:147-152 | the heap id is stored as `uint32_t` and then compared with `< 0`, so a missing heap is never reported | no ION heap: the id 0xFFFFFFFF is kept and `wsialloc_new` succeeds | test the signed result before storing it, and fail with `WSIALLOC_ERROR_NO_RESOURCE` | not executed | WsiallocIon.NewAcceptsMissingHeap | WsiallocIon.NewResult |
| layer/private_data.cpp:84-91 | `device_private_data::create` registers the new data but has no `return` statement | any device creation: the returned reference is undefined | return the registered data | not executed | PrivateData.Registry.CreateDeviceDataAsWritten | PrivateData.Registry.CreateDeviceData |
| wsi/display/swapchain.cpp:552-588 | the fd set is filled once before the wait loop; `select` empties it on a timeout, so the drm fd is never watched again | one timeout, then a flip the kernel completes: the loop never sees it and ends only on a fatal `select` error | fill the fd set on every turn | not executed | DisplaySwapchain.StalledWaitEndsOnlyOnError | DisplaySwapchain.WaitForFlip |
| util/wsialloc/wsialloc_helpers.c:41-44 | the mask `~(64u - 1)` is a 32-bit constant, so widened to 64 bits it also clears bits 32-63 | size 2^32 rounds to 0 | a 64-bit mask, rounding up to the next multiple of the alignment | not executed | WsiallocHelpers.RoundAsWrittenDropsHighBits | WsiallocHelpers.RoundSizeUpToAlignIsSmallest |
| util/wsialloc/wsialloc_helpers.c:84 | each plane's `stride * height` is an `int` times `uint32_t` product, taken modulo 2^32 before it is added to the 64-bit total | a 32768 x 32768 image of 32-bit pixels: total size 0 | a 64-bit product | not executed | WsiallocHelpers.LayoutTotalAsWrittenWraps | WsiallocHelpers.LayoutOffset |
| wsi/extensions/swapchain_maintenance.cpp:73-85 | the constructor leaves `m_present_mode` uninitialised, and `handle_swapchain_present_modes_create_info` reads it | two possible contents of the member give different results for the same create info | start from the swapchain's creation present mode | not executed | SwapchainMaintenance.IndeterminateModeChangesOutcome | SwapchainMaintenance.Maintenance.constructor |
| wsi/time_domains.cpp:77-84 | with both output arrays supplied, the id array pointer is set to null (`pTimeDomainIds = 0`) instead of receiving the id | a caller passing both arrays: its id pointer is cleared and it gets no id | write id 0 into the first id slot | not executed | PresentTiming.AsWrittenLosesIds | PresentTiming.FixedKeepsIds |
| wsi/wayland/surface_properties.cpp:284-293 | the device's extensions are appended to a static list shared by every call, so the answer depends on the devices asked about before | a device with none of the required extensions, asked after one that has them all: reported as supported | decide from this device's own extensions | not executed | WaylandSurfaceProperties.AccumulatedListAnswersForEarlierDevice | WaylandSurfaceProperties.PhysicalDeviceSupportedOwnExtensions |
