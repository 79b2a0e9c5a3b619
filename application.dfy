/** The application record of main.c (`app_t`), reduced to the fields the
    selection and negotiation logic assigns, with `pick_physical_device` and the
    negotiation part of `create_swapchain`. */
module Application {
  import opened Wrappers
  import opened VulkanTypes
  import opened DynamicArrays
  import opened QueueFamilies
  import opened Swapchain
  import opened PhysicalDevices
  import opened LogicalDevices

  /** VkSwapchainCreateInfoKHR, the negotiated fields. */
  datatype SwapchainCreateInfo = SwapchainCreateInfo(
    minImageCount: U32,
    imageFormat: int,
    imageColorSpace: int,
    imageExtent: Extent2D,
    sharing: ImageSharing,
    presentMode: int)

  /** The candidates as rated, in enumeration order. */
  function Rated(devices: seq<PhysicalDevice>): (r: seq<ScoredDevice>)
    ensures |r| == |devices|
    ensures forall i | 0 <= i < |devices| ::
      && r[i].device == devices[i].handle
      && r[i].score >= 0
      && (r[i].score > 0 ==> Viable(devices[i]))
      && (Viable(devices[i]) ==> r[i].score == Heuristic(devices[i]))
  {
    seq(|devices|, i requires 0 <= i < |devices| => ScoredDevice(SuitabilityScore(devices[i]), devices[i].handle))
  }

  const NoGpuMessage: string := "failed to find GPUs with Vulkan support!\n"
  const NoSuitableGpuMessage: string := "failed to find a suitable GPU!\n"

  /** `candidates` is in the order the comparator asks for: no later record compares below an earlier one. */
  ghost predicate OrderedByComparator(candidates: seq<ScoredDevice>)
  {
    forall i, j | 0 <= i < j < |candidates| :: SortScoredDevices(candidates[i], candidates[j]) <= 0
  }

  /** Were the candidates in the order `sort_scored_devices` asks for, the first
      one would carry the LOWEST score: a device is then adopted only when every
      device scores above 0, and it is a lowest-scoring one. */
  lemma {:induction false} ComparatorOrderPutsLowestFirst(candidates: seq<ScoredDevice>)
    requires |candidates| > 0 && OrderedByComparator(candidates)
    ensures forall i | 0 <= i < |candidates| :: candidates[0].score <= candidates[i].score
    ensures candidates[0].score > 0 <==> forall i | 0 <= i < |candidates| :: candidates[i].score > 0
  {
    forall i | 0 < i < |candidates|
      ensures candidates[0].score <= candidates[i].score
    {
      assert SortScoredDevices(candidates[0], candidates[i]) <= 0;
    }
  }

  /** For two devices whose ratings are 1100 and 500, that order lists the 500
      one first, so it is the one adopted. */
  lemma ComparatorPrefersWeakerDevice()
    ensures var strong := ScoredDevice(1100, 1);
            var weak := ScoredDevice(500, 2);
            OrderedByComparator([weak, strong]) && !OrderedByComparator([strong, weak])
  {
    var strong := ScoredDevice(1100, 1);
    var weak := ScoredDevice(500, 2);
    assert SortScoredDevices([strong, weak][0], [strong, weak][1]) > 0;
  }

  class App {
    /** VkPhysicalDevice; `None` is VK_NULL_HANDLE. */
    var physicalDevice: Option<DeviceHandle>
    /** The swapchain's image format and extent, recorded by create_swapchain. */
    var swapchainImageFormat: int
    var swapchainExtent: Extent2D

    /** `app_t app = {.physical_device = VK_NULL_HANDLE}`: every other field is zero. */
    constructor ()
      ensures physicalDevice == None
      ensures swapchainImageFormat == 0 && swapchainExtent == Extent2D(0, 0)
    {
      physicalDevice := None;
      swapchainImageFormat := 0;
      swapchainExtent := Extent2D(0, 0);
    }

    /** pick_physical_device: fail when no device is enumerated; otherwise rate
        every device into a candidate list sized to the device count, quicksort it
        with sort_scored_devices, adopt the first candidate's device when its score
        is positive, and fail when no device is held afterwards. `ranked` is the
        candidate list after sorting. */
    method PickPhysicalDevice(devices: seq<PhysicalDevice>) returns (status: Status, ranked: seq<ScoredDevice>)
      modifies this
      ensures swapchainImageFormat == old(swapchainImageFormat) && swapchainExtent == old(swapchainExtent)
      ensures |devices| == 0 ==> status == Fatal(NoGpuMessage) && ranked == [] && physicalDevice == old(physicalDevice)
      ensures |devices| > 0 ==> multiset(ranked) == multiset(Rated(devices))
      ensures |devices| > 0 ==>
        physicalDevice == if ranked[0].score > 0 then Some(ranked[0].device) else old(physicalDevice)
      ensures |devices| > 0 ==> (status == Ok <==> physicalDevice.Some?)
      ensures |devices| > 0 && status != Ok ==> status == Fatal(NoSuitableGpuMessage)
      ensures physicalDevice != old(physicalDevice) ==>
        exists i | 0 <= i < |devices| :: Some(devices[i].handle) == physicalDevice && SuitabilityScore(devices[i]) > 0
      ensures old(physicalDevice) == None && (forall i | 0 <= i < |devices| :: SuitabilityScore(devices[i]) == 0) ==>
        status.Fatal?
    {
      if |devices| == 0 {
        return Fatal(NoGpuMessage), [];
      }
      var candidates := new DynArray<ScoredDevice>();
      candidates.SetCapacity(|devices|);
      for i := 0 to |devices|
        invariant unchanged(this)
        invariant candidates.Valid() && candidates.capacity == |devices|
        invariant candidates.Contents() == Rated(devices)[..i]
      {
        var score := RateDeviceSuitability(devices[i]);
        candidates.Append(ScoredDevice(score, devices[i].handle));
        assert Rated(devices)[..i + 1] == Rated(devices)[..i] + [Rated(devices)[i]];
      }
      assert Rated(devices)[..|devices|] == Rated(devices);
      assert forall x :: SortScoredDevices(x, x) == 0;
      candidates.Quicksort(SortScoredDevices);
      ranked := candidates.Contents();
      assert ranked[0] in multiset(Rated(devices));
      if candidates.items[0].score > 0 {
        physicalDevice := Some(candidates.items[0].device);
      }
      if physicalDevice == None {
        return Fatal(NoSuitableGpuMessage), ranked;
      }
      return Ok, ranked;
    }

    /** The negotiation part of create_swapchain for the held device, whose
        records are `device`: choose the surface format, the present mode, the
        extent (from the framebuffer size), the image count and the image sharing
        between the device's graphics and present families, then record the
        extent and the format in the application. */
    method CreateSwapchain(device: PhysicalDevice, framebufferWidth: I32, framebufferHeight: I32)
      returns (indices: QueueFamilyIndices, info: SwapchainCreateInfo)
      requires physicalDevice == Some(device.handle)
      requires |device.support.formats| > 0
      modifies this
      ensures physicalDevice == old(physicalDevice)
      ensures PreferredFormat in device.support.formats ==>
        info.imageFormat == FormatB8G8R8A8Srgb && info.imageColorSpace == ColorSpaceSrgbNonlinear
      ensures PreferredFormat !in device.support.formats ==>
        SurfaceFormat(info.imageFormat, info.imageColorSpace) == device.support.formats[0]
      ensures info.presentMode == PresentModeMailbox <==> PresentModeMailbox in device.support.presentModes
      ensures info.presentMode != PresentModeMailbox ==> info.presentMode == PresentModeFifo
      ensures info.imageExtent == ChooseSwapExtent(device.support.capabilities, framebufferWidth, framebufferHeight)
      ensures info.minImageCount == ChooseImageCount(device.support.capabilities)
      ensures IndicesComplete(indices) <==>
        HasFamily(device.queueFamilies, Graphics) && HasFamily(device.queueFamilies, Present)
      ensures ScanResult(device.queueFamilies, indices)
      ensures info.sharing == ChooseImageSharing(indices)
      ensures swapchainExtent == info.imageExtent && swapchainImageFormat == info.imageFormat
    {
      var surfaceFormat := ChooseSwapSurfaceFormat(device.support.formats);
      var presentMode := ChooseSwapPresentMode(device.support.presentModes);
      var extent := ChooseSwapExtent(device.support.capabilities, framebufferWidth, framebufferHeight);
      var imageCount := ChooseImageCount(device.support.capabilities);
      indices := FindQueueFamilies(device.queueFamilies);
      var sharing := ChooseImageSharing(indices);
      info := SwapchainCreateInfo(imageCount, surfaceFormat.format, surfaceFormat.colorSpace, extent, sharing, presentMode);
      swapchainExtent := extent;
      swapchainImageFormat := surfaceFormat.format;
    }
  }

  /** A successful pick leaves the application holding a device that the later
      stages can serve: the rated candidates include it with a positive score,
      so it has both queue families (the assertion of create_logical_device holds)
      and offers a surface format (create_swapchain may read the first one). */
  lemma {:induction false} PickedDeviceIsServable(devices: seq<PhysicalDevice>, i: nat)
    requires i < |devices| && SuitabilityScore(devices[i]) > 0
    ensures HasFamily(devices[i].queueFamilies, Graphics) && HasFamily(devices[i].queueFamilies, Present)
    ensures |devices[i].support.formats| > 0 && |devices[i].support.presentModes| > 0
  {
    PositiveScoreIsViable(devices[i]);
  }

  /** create_swapchain and create_logical_device scan the same device's families:
      the swapchain is shared concurrently exactly when the logical device gets
      two queue create-infos, and then between exactly their two families. */
  lemma {:induction false} SwapchainSharingMatchesDeviceQueues(
    families: seq<QueueFamily>, swapchainIndices: QueueFamilyIndices,
    deviceIndices: QueueFamilyIndices, infos: seq<QueueCreateInfo>)
    requires ScanResult(families, swapchainIndices) && ScanResult(families, deviceIndices)
    requires |infos| == if deviceIndices.graphicsFamily.value == deviceIndices.presentFamily.value then 1 else 2
    requires infos[0] == QueueCreateInfo(deviceIndices.graphicsFamily.value, 1)
    requires infos[|infos| - 1] == QueueCreateInfo(deviceIndices.presentFamily.value, 1)
    ensures ChooseImageSharing(swapchainIndices).mode == Concurrent <==> |infos| == 2
    ensures ChooseImageSharing(swapchainIndices).mode == Concurrent ==>
      ChooseImageSharing(swapchainIndices).queueFamilyIndices == [infos[0].queueFamilyIndex, infos[|infos| - 1].queueFamilyIndex]
  {
    ScanResultUnique(families, swapchainIndices, deviceIndices);
  }

  /** A device whose first family only draws and whose second only presents gets
      a swapchain shared concurrently between families 0 and 1. */
  lemma {:induction false} SplitFamiliesShareConcurrently(indices: QueueFamilyIndices)
    requires ScanResult([QueueFamily(1, false), QueueFamily(0, true)], indices)
    ensures ChooseImageSharing(indices) == ImageSharing(Concurrent, [0, 1])
  {
    var families := [QueueFamily(1, false), QueueFamily(0, true)];
    var stopped := IndicesAt(families, 2);
    assert !IndicesComplete(IndicesAt(families, 0));
    assert !IndicesComplete(IndicesAt(families, 1));
    assert stopped == QueueFamilyIndices(OptionalIndex(true, 0), OptionalIndex(true, 1));
    assert ScanResult(families, stopped);
    ScanResultUnique(families, indices, stopped);
  }
}
