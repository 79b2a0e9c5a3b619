/** The driver-reported records the selection logic of main.c reads, reduced to
    the fields it inspects, and the Vulkan enumerant values it compares against. */
module VulkanTypes {

  /** `uint32_t` and `int` of the C source. */
  type U32 = x: int | 0 <= x < 0x1_0000_0000
  type I32 = x: int | -0x8000_0000 <= x < 0x8000_0000

  /** `UINT_MAX`: the "undefined" marker of a surface's current extent. */
  const UintMax: U32 := 0xFFFF_FFFF

  /** The conversion `(uint32_t)x` of a C `int`: two's-complement wrap-around. */
  function ToU32(x: I32): (r: U32)
    ensures x >= 0 ==> r == x
    ensures x < 0 ==> r == x + 0x1_0000_0000
  {
    x % 0x1_0000_0000
  }

  /** VkFormat VK_FORMAT_B8G8R8A8_SRGB and VkColorSpaceKHR VK_COLOR_SPACE_SRGB_NONLINEAR_KHR. */
  const FormatB8G8R8A8Srgb: int := 50
  const ColorSpaceSrgbNonlinear: int := 0

  /** VkPresentModeKHR values. */
  const PresentModeImmediate: int := 0
  const PresentModeMailbox: int := 1
  const PresentModeFifo: int := 2

  /** VK_QUEUE_GRAPHICS_BIT of VkQueueFlags. */
  const QueueGraphicsBit: bv32 := 1

  /** VkPhysicalDeviceType VK_PHYSICAL_DEVICE_TYPE_DISCRETE_GPU. */
  const PhysicalDeviceTypeDiscreteGpu: int := 2

  /** Extension and layer names. */
  const KhrPortabilityEnumeration: string := "VK_KHR_portability_enumeration"
  const KhrGetPhysicalDeviceProperties2: string := "VK_KHR_get_physical_device_properties2"
  const KhrSurface: string := "VK_KHR_surface"
  const ExtDebugUtils: string := "VK_EXT_debug_utils"
  const KhrSwapchain: string := "VK_KHR_swapchain"
  const KhrPortabilitySubset: string := "VK_KHR_portability_subset"
  const KhronosValidationLayer: string := "VK_LAYER_KHRONOS_validation"

  /** The program's fixed lists `validation_layers` and `device_extensions`. */
  const ValidationLayers: seq<string> := [KhronosValidationLayer]
  const DeviceExtensions: seq<string> := [KhrSwapchain]

  /** An opaque VkPhysicalDevice handle. */
  type DeviceHandle = nat

  datatype Extent2D = Extent2D(width: U32, height: U32)

  /** VkSurfaceCapabilitiesKHR, the fields the negotiation reads. */
  datatype SurfaceCapabilities = SurfaceCapabilities(
    minImageCount: U32,
    maxImageCount: U32,
    currentExtent: Extent2D,
    minImageExtent: Extent2D,
    maxImageExtent: Extent2D)

  /** VkSurfaceFormatKHR. */
  datatype SurfaceFormat = SurfaceFormat(format: int, colorSpace: int)

  /** One queue family as reported for a device: its VkQueueFlags and the answer of
      the surface-support query for this family and the application's surface. */
  datatype QueueFamily = QueueFamily(queueFlags: bv32, presentSupport: bool)

  /** swapchain_support_details_t: what the surface queries report for a device. */
  datatype SwapchainSupport = SwapchainSupport(
    capabilities: SurfaceCapabilities,
    formats: seq<SurfaceFormat>,
    presentModes: seq<int>)

  /** Everything the selection logic learns about one enumerated physical device. */
  datatype PhysicalDevice = PhysicalDevice(
    handle: DeviceHandle,
    deviceType: int,
    maxImageDimension2D: U32,
    geometryShader: bool,
    queueFamilies: seq<QueueFamily>,
    availableExtensions: seq<string>,
    support: SwapchainSupport)
}
