# Vulkan device selection and swapchain negotiation, modelled in Dafny

This project models the decision-making core of a C Vulkan "hello triangle"
program. It has two parts:

- **The growable array of `arrays.h`.** A record of `items`, `count` and
  `capacity` that macros update in place. It is modelled as the class
  `DynamicArrays.DynArray`, with one method per macro:
  - append with doubling (a zero capacity is seeded to 256, then doubled);
  - set-capacity, replace-at-index, free, empty, swap and clone;
  - the iterative Hoare-style quicksort, which keeps its own stack of ranges.
- **The selection logic of `main.c`.** Every driver and window-system query is
  replaced by input data: the queue families of a device, its type, its limits
  and features, its extensions, what the surface offers, and the framebuffer
  size. The model covers:
  - validation-layer support;
  - queue-family resolution;
  - the surface-format, present-mode, extent, image-count and image-sharing
    choices of swapchain creation;
  - device rating, the comparator and the pick of a physical device;
  - the instance-extension list;
  - the queue and extension lists of logical-device creation.

The program's own behaviour is modelled as written, including what looks
unintended. Each of these is stated and proved:

- The swapchain height is clamped against the surface's maximum **width**.
  `Swapchain.ExtentHeightExceedsMaximum` exhibits a surface that gets a height
  above its maximum height.
- The device-extension check starts from an empty list of required names, so it
  accepts every device (`Extensions.CheckDeviceExtensionSupport`).
- The comparator orders devices by ascending score, and the pick takes the first
  candidate. Under that order it takes a lowest-scoring device
  (`Application.ComparatorOrderPutsLowestFirst`,
  `Application.ComparatorPrefersWeakerDevice`).
- With validation on, the debug-utils extension is requested twice
  (`Extensions.DebugUtilsRequestedTwice`).

The quicksort compares against the slot where the pivot was, not the pivot's
value, so it is not a correct sort. This is not proved here. The model claims
neither sortedness nor its failure, only what the routine does keep: the
elements in use are permuted, and nothing else changes.

Modules, one per file:

- `Wrappers`: `Option`, and `Status` for the fatal-error exits.
- `VulkanTypes`: the driver-reported records and Vulkan constants.
- `DynamicArrays`: the growable array.
- `Validation`: the validation-layer check.
- `Extensions`: the instance and device extension lists.
- `QueueFamilies`: queue-family resolution and the sharing decisions.
- `Swapchain`: the swapchain choices.
- `PhysicalDevices`: rating and the comparator.
- `LogicalDevices`: the logical-device create-info.
- `Application`: the `app_t` record, the device pick and swapchain negotiation.

## Model

| member | source | states |
|---|---|---|
| VulkanTypes.ToU32 | main.c:366 | the `(uint32_t)` cast of the framebuffer size: a non-negative int is kept; a negative one wraps to x + 2^32 |
| DynamicArrays.Swapped | arrays.h:46-51 | positions i and j are exchanged; every other position and the length are unchanged |
| DynamicArrays.SwappedInvolution | arrays.h:46-51 | swapping the same two positions twice restores the sequence; swapping a position with itself is a no-op |
| DynamicArrays.SwappedPermutesPrefix | arrays.h:85 | a swap inside the first n elements permutes them (same multiset) and leaves the elements from n on untouched |
| DynamicArrays.Resized | arrays.h:10 | reallocating to n slots gives exactly n slots and keeps the first min(old size, n) elements |
| DynamicArrays.GrownCapacityBounds | arrays.h:6-11 | after n appends to the zero record, capacity is at least n; beyond 256 elements it is below 2n |
| DynamicArrays.GrownCapacityStep | arrays.h:6-11 | one more append keeps that capacity while there is room, and doubles it when the array is full |
| DynamicArrays.PartitionShrinks | arrays.h:90-97 | the two sub-ranges the quicksort pushes weigh less, in total, than the range it popped, so the sort terminates |
| DynamicArrays.DynArray.constructor | main.c:196 | the zero record `{0}`: no storage, count 0, capacity 0, no elements |
| DynamicArrays.DynArray.Append | arrays.h:4-13 | count grows by one and x follows the old elements, which are unchanged; count <= capacity still holds; capacity is unchanged while count < capacity, becomes 512 from 0, and doubles otherwise; an array built by appends alone keeps the capacity those appends give |
| DynamicArrays.DynArray.SetCapacity | arrays.h:15-19 | capacity and storage become exactly n; count is unchanged; the first min(old, new) stored items are kept |
| DynamicArrays.DynArray.Replace | arrays.h:21-31 | items[i] becomes x; count becomes max(old count, i+1); capacity becomes 2(i+1) exactly when i >= capacity; every other element below the old capacity is unchanged |
| DynamicArrays.DynArray.Free | arrays.h:33-38 | storage released (NULL) and count 0, while capacity keeps its stale value |
| DynamicArrays.DynArray.Empty | arrays.h:40-44 | count 0, the capacity is kept, and fresh storage of that capacity is allocated |
| DynamicArrays.DynArray.Swap | arrays.h:46-51 | the stored items are exactly the old ones with i and j exchanged; count and capacity are unchanged |
| DynamicArrays.DynArray.Clone | arrays.h:53-61 | a new array with separate storage, the same count and capacity, and the same elements in use |
| DynamicArrays.DynArray.Partition | arrays.h:76-89 | one partition pass permutes the elements in use and touches nothing past count; the cursors end crossed, with right below end and left above start |
| DynamicArrays.DynArray.Quicksort | arrays.h:63-99 | the elements in use are permuted (same multiset); count, capacity and the storage past count are unchanged; with at most one element nothing changes |
| Validation.CheckValidationLayerSupport | main.c:101-127 | supported exactly when every requested layer name is among the available ones; otherwise reports the first requested name, in request order, that is missing |
| Extensions.GetRequiredInstanceExtensions | main.c:195-217 | a fresh array holding the window system's names in order, then portability enumeration, properties-2, surface and debug utils, and debug utils again when validation is on; its capacity is the one the appends give |
| Extensions.DebugUtilsRequestedTwice | main.c:202-214 | with validation on, debug utils occurs twice more than the window system requests it (once more with validation off); the list is 5 (or 4) entries longer than the window system's |
| Extensions.RemoveFirst | main.c:505-510 | removing the first match never lengthens the list, and shortens it by exactly one when there is a match |
| Extensions.RemoveFound | main.c:502-512 | the removal loop never lengthens the list of still-required names |
| Extensions.CheckDeviceExtensionSupport | main.c:494-515 | every device passes, whatever extensions it reports, because the required list starts empty |
| QueueFamilies.LastWith | main.c:262-273 | the index recorded after scanning n families is the last one below n with the capability, or none when none has it |
| QueueFamilies.LastWithFindsAny | main.c:262-273 | a scan of all families records an index exactly when some family has the capability |
| QueueFamilies.FindQueueFamilies | main.c:252-281 | complete exactly when some family supports graphics and some family supports presenting; each recorded index is in range and has its capability; the result is that of scanning up to the first prefix where both were seen (or all families), each index the last qualifying one there (`ScanResult`) |
| QueueFamilies.ScanResultUnique | main.c:262-280 | two results of scanning the same families are equal, so the scan's result is determined by the device |
| QueueFamilies.StopsAgree | main.c:275-277 | the scan stops at one place only: the first prefix after which both indices are recorded, or the end |
| QueueFamilies.ChooseImageSharing | main.c:411-419 | concurrent sharing with [graphics, present] exactly when the two families differ, exclusive with no index list otherwise |
| QueueFamilies.UniqueQueueFamilies | main.c:609-614 | one family when graphics and present coincide and two otherwise; graphics first, present last |
| QueueFamilies.SharingMatchesUniqueFamilies | main.c:411-419 | the swapchain is shared concurrently exactly when the logical device gets two queue families (main.c:609-614), and then between those two in the same order; exclusively exactly when there is one |
| Swapchain.ChooseSwapSurfaceFormat | main.c:334-345 | the B8G8R8A8 sRGB / sRGB-non-linear format when offered, the first offered format otherwise; always an offered format |
| Swapchain.ChooseSwapPresentMode | main.c:347-355 | mailbox exactly when offered; FIFO in every other case, including an empty list |
| Swapchain.Clamp | main.c:44 | with floor <= ceil the result is within [floor, ceil]; a value already in range is kept; above the ceiling gives the ceiling (tested first); below both gives the floor |
| Swapchain.ChooseSwapExtentBounds | main.c:357-376 | a defined current extent is returned unchanged; otherwise the width lies within the width bounds and the height between the minimum height and the maximum width; an in-range width is kept; when the maximum width is below 2^31, a negative width wraps and is clamped down to that maximum |
| Swapchain.ExtentHeightExceedsMaximum | main.c:372-373 | bounds 100x100 to 2000x1000 and a 50x3000 framebuffer yield 100x2000, a height above the maximum height |
| Swapchain.ExtentWithinSquareBounds | main.c:359-375 | bounds 100x100 to 2000x2000 and a 50x3000 framebuffer yield 100x2000 |
| Swapchain.ChooseImageCount | main.c:388-393 | never above a non-zero maximum; one more than the minimum when that fits; at least the minimum when the maximum is at least the minimum and the minimum is below UINT32_MAX; 0 when minimum + 1 wraps around |
| PhysicalDevices.RateDeviceSuitability | main.c:517-551 | 0 when either queue family is missing or no format or no present mode is offered; otherwise 1000 for a discrete GPU plus the maximum 2D image dimension plus 100 for geometry shaders; never negative |
| PhysicalDevices.PositiveScoreIsViable | main.c:536-548 | a positive score implies graphics and present families, a surface format and a present mode |
| PhysicalDevices.ViableScore | main.c:524-550 | a viable device scores positive exactly when it is a discrete GPU, has a non-zero maximum dimension, or has geometry shaders |
| PhysicalDevices.SortScoredDevices | main.c:553-556 | negative, zero or positive exactly as the left score is below, equal to or above the right score: ascending order |
| PhysicalDevices.SortScoredDevicesConsistent | main.c:553-556 | the comparator is antisymmetric and compares every record equal to itself |
| LogicalDevices.CreateLogicalDevice | main.c:602-664 | with both families present (the source asserts it), the indices are complete and valid and are the scan's result for the device's families; one queue create-info per distinct family, graphics first and present last, one queue each; extensions are portability-subset then the device extensions; layers are the validation layers exactly when validation is on |
| LogicalDevices.QueuesFetchedWereRequested | main.c:660-663 | the graphics and the present queue are fetched from families a queue was requested from, and no family is requested twice |
| Application.Rated | main.c:571-578 | one candidate per enumerated device, in order, carrying its handle; every score is non-negative, a positive score only for a viable device, and a viable device's score is its heuristic |
| Application.ComparatorOrderPutsLowestFirst | main.c:581-585 | in comparator order the first candidate has the lowest score, so it is positive exactly when every score is |
| Application.ComparatorPrefersWeakerDevice | main.c:553-556 | devices scored 500 and 1100 are in comparator order with the 500 one first, not the other way round |
| Application.App.constructor | main.c:786 | the application starts with no physical device and a zero swapchain format and extent |
| Application.App.PickPhysicalDevice | main.c:558-590 | fatal "failed to find GPUs" with no device; otherwise the sorted candidates are a permutation of the ratings; the first is adopted exactly when its score is positive; success exactly when a device is held, "failed to find a suitable GPU" otherwise; a newly adopted device is an enumerated one with a positive score; all-zero scores from no device is fatal |
| Application.App.CreateSwapchain | main.c:378-440 | the create-info carries the chosen format and colour space, present mode, extent and image count, and the sharing decided by the indices, which are the scan's result for the device's families; the application records that extent and format and keeps its device |
| Application.SwapchainSharingMatchesDeviceQueues | main.c:405-419 | for the same device, the swapchain is shared concurrently exactly when the logical device gets two queue create-infos (main.c:603-614), and then between exactly their two families |
| Application.SplitFamiliesShareConcurrently | main.c:405-419 | a device whose first family only draws and whose second only presents gets a swapchain shared concurrently between families 0 and 1 |
| Application.PickedDeviceIsServable | main.c:604-606 | a device with a positive score has both queue families, so the assertion of logical-device creation holds, and offers a format and a present mode for the swapchain |

## Left out

- Every Vulkan and GLFW call is replaced by its result, passed in as data. This covers:
  - instance, surface, device, swapchain and image-view creation;
  - the enumeration queries and the debug messenger;
  - the window, the main loop and cleanup.
  - `create_instance` is not part of this model. It calls the validation-layer check when validation is on and builds the required and available instance-extension lists, but it never checks the required extensions against the available ones.
- The `error` macro formats a message and exits the process. It is modelled as a returned `Status` value.
- `realloc` and `malloc` are assumed to succeed. Newly allocated slots hold arbitrary values.
- The fixed `MAX_LAYER_COUNT` buffer of available layers is not modelled. Neither is the `strncpy` truncation of the missing name.
- `da_remove_shuffle` is not defined in `arrays.h` and sits in a loop that never runs. It is modelled as "remove one matching entry".
- The queue priority is a float, and the create-info fields that involve no decision are left out. The swapchain image list is filled by the driver and is also left out.
- DynamicArrays.DynArray.Quicksort: the inner scans get explicit guards, `left <= end` and `right >= start`. The source has no bounds checks and relies on the pivot slot acting as a sentinel.
- DynamicArrays.DynArray.Quicksort: the comparator must compare every element equal to itself. This is what stops the scans at the pivot and guarantees termination. The program's comparator satisfies it.
- DynamicArrays.DynArray.Quicksort: the range stack is unbounded. The source's `int stack[128]` bound is not modelled.
- DynamicArrays.DynArray.Quicksort: sortedness is not claimed, because the routine does not sort.
- DynamicArrays.DynArray: elements may be values or records, but not references, because the comparator property must survive heap changes.
- DynamicArrays.DynArray: `count` and `capacity` are unbounded. `size_t` and `uint32_t` overflow is not modelled.
- DynamicArrays.DynArray: the "valid" shape (`count <= capacity` and storage of `capacity` slots) is not an invariant of every operation. `da_free` leaves a stale capacity with no storage.
- PhysicalDevices.RateDeviceSuitability: the score is an unbounded integer. The C code adds a `uint32_t` dimension to an `int`, whose overflow is not modelled.
- PhysicalDevices.SortScoredDevices: the score difference is unbounded. The `int` subtraction could overflow in the source, and that is not modelled.
- Application.App.PickPhysicalDevice: the model does not say which candidate ends up first, because the quicksort's order is not specified. What the first candidate would be under the comparator's order is stated separately by `Application.ComparatorOrderPutsLowestFirst`.
- Application.App.CreateSwapchain: the record of the held device is passed in. The model requires it to offer at least one surface format, since the source reads the first format unchecked. A picked device always does (`Application.PickedDeviceIsServable`).
