/** Logical-device creation of main.c: `create_logical_device`, reduced to the
    create-info it assembles. */
module LogicalDevices {
  import opened VulkanTypes
  import opened QueueFamilies
  import opened DynamicArrays

  /** VkDeviceQueueCreateInfo, the fields the program sets (the priority pointer is left out). */
  datatype QueueCreateInfo = QueueCreateInfo(queueFamilyIndex: nat, queueCount: nat)

  /** VkDeviceCreateInfo, the lists the program fills in. */
  datatype DeviceCreateInfo = DeviceCreateInfo(
    queueCreateInfos: seq<QueueCreateInfo>,
    enabledExtensions: seq<string>,
    enabledLayers: seq<string>)

  /** create_logical_device: resolve the queue families of the chosen device (the
      source asserts both were found), request one queue from each distinct
      family, enable the portability-subset extension followed by the device
      extensions, and enable the validation layers when validation is on.
      `indices` is also where the graphics and present queues are fetched from. */
  method CreateLogicalDevice(queueFamilies: seq<QueueFamily>, enableValidationLayers: bool)
    returns (indices: QueueFamilyIndices, info: DeviceCreateInfo)
    requires HasFamily(queueFamilies, Graphics) && HasFamily(queueFamilies, Present)
    ensures IndicesComplete(indices) && ScanResult(queueFamilies, indices)
    ensures indices.graphicsFamily.value < |queueFamilies| && Has(queueFamilies[indices.graphicsFamily.value], Graphics)
    ensures indices.presentFamily.value < |queueFamilies| && Has(queueFamilies[indices.presentFamily.value], Present)
    ensures |info.queueCreateInfos| == if indices.graphicsFamily.value == indices.presentFamily.value then 1 else 2
    ensures info.queueCreateInfos[0] == QueueCreateInfo(indices.graphicsFamily.value, 1)
    ensures info.queueCreateInfos[|info.queueCreateInfos| - 1] == QueueCreateInfo(indices.presentFamily.value, 1)
    ensures info.enabledExtensions == [KhrPortabilitySubset] + DeviceExtensions
    ensures info.enabledLayers == if enableValidationLayers then ValidationLayers else []
  {
    indices := FindQueueFamilies(queueFamilies);
    var unique := UniqueQueueFamilies(indices);

    var queueCreateInfos := new DynArray<QueueCreateInfo>();
    queueCreateInfos.SetCapacity(|unique|);
    for i := 0 to |unique|
      invariant queueCreateInfos.Valid() && queueCreateInfos.count == i
      invariant forall k | 0 <= k < i :: queueCreateInfos.Contents()[k] == QueueCreateInfo(unique[k], 1)
    {
      queueCreateInfos.Append(QueueCreateInfo(unique[i], 1));
    }
    var queueInfos := queueCreateInfos.Contents();

    var enabledExtensions := new DynArray<string>();
    enabledExtensions.Append(KhrPortabilitySubset);
    for i := 0 to |DeviceExtensions|
      invariant enabledExtensions.Valid()
      invariant enabledExtensions.Contents() == [KhrPortabilitySubset] + DeviceExtensions[..i]
    {
      enabledExtensions.Append(DeviceExtensions[i]);
      assert DeviceExtensions[..i + 1] == DeviceExtensions[..i] + [DeviceExtensions[i]];
    }

    var layers := if enableValidationLayers then ValidationLayers else [];
    info := DeviceCreateInfo(queueInfos, enabledExtensions.Contents(), layers);
  }

  /** The device's queues are fetched from the graphics family and the present
      family, and a queue was requested from each of them: the first create-info
      names the graphics family and the last names the present family. */
  lemma QueuesFetchedWereRequested(indices: QueueFamilyIndices, infos: seq<QueueCreateInfo>)
    requires |infos| == if indices.graphicsFamily.value == indices.presentFamily.value then 1 else 2
    requires infos[0] == QueueCreateInfo(indices.graphicsFamily.value, 1)
    requires infos[|infos| - 1] == QueueCreateInfo(indices.presentFamily.value, 1)
    ensures exists k | 0 <= k < |infos| :: infos[k].queueFamilyIndex == indices.graphicsFamily.value
    ensures exists k | 0 <= k < |infos| :: infos[k].queueFamilyIndex == indices.presentFamily.value
    ensures forall j, k | 0 <= j < k < |infos| :: infos[j].queueFamilyIndex != infos[k].queueFamilyIndex
  {
    assert infos[0].queueFamilyIndex == indices.graphicsFamily.value;
    assert infos[|infos| - 1].queueFamilyIndex == indices.presentFamily.value;
  }
}
