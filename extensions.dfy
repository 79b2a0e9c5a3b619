/** Extension lists of main.c: `get_required_instance_extensions` and
    `check_device_extension_support`. */
module Extensions {
  import opened VulkanTypes
  import opened DynamicArrays

  /** The instance extensions requested: the windowing system's names in order,
      then portability enumeration, physical-device-properties-2, surface and
      debug utils, and debug utils a second time when validation is enabled. */
  function RequiredInstanceExtensions(windowExtensions: seq<string>, enableValidationLayers: bool): seq<string>
  {
    windowExtensions
    + [KhrPortabilityEnumeration, KhrGetPhysicalDeviceProperties2, KhrSurface, ExtDebugUtils]
    + (if enableValidationLayers then [ExtDebugUtils] else [])
  }

  /** get_required_instance_extensions: builds the list with da_append from the
      zero record; `windowExtensions` is what glfwGetRequiredInstanceExtensions reports. */
  method GetRequiredInstanceExtensions(windowExtensions: seq<string>, enableValidationLayers: bool)
    returns (required: DynArray<string>)
    ensures fresh(required) && required.Valid()
    ensures required.Contents() == RequiredInstanceExtensions(windowExtensions, enableValidationLayers)
    ensures required.capacity == GrownCapacity(required.count)
  {
    required := new DynArray();
    for i := 0 to |windowExtensions|
      invariant required.Valid() && required.Contents() == windowExtensions[..i]
      invariant required.capacity == GrownCapacity(required.count)
    {
      required.Append(windowExtensions[i]);
      assert windowExtensions[..i + 1] == windowExtensions[..i] + [windowExtensions[i]];
    }
    assert windowExtensions[..|windowExtensions|] == windowExtensions;
    required.Append(KhrPortabilityEnumeration);
    required.Append(KhrGetPhysicalDeviceProperties2);
    required.Append(KhrSurface);
    required.Append(ExtDebugUtils);
    if enableValidationLayers {
      required.Append(ExtDebugUtils);
    }
  }

  /** With validation enabled the debug-utils name is requested twice more than
      the windowing system asks for it, and the list is one entry longer. */
  lemma DebugUtilsRequestedTwice(windowExtensions: seq<string>)
    ensures multiset(RequiredInstanceExtensions(windowExtensions, true))[ExtDebugUtils]
         == multiset(windowExtensions)[ExtDebugUtils] + 2
    ensures multiset(RequiredInstanceExtensions(windowExtensions, false))[ExtDebugUtils]
         == multiset(windowExtensions)[ExtDebugUtils] + 1
    ensures |RequiredInstanceExtensions(windowExtensions, true)| == |windowExtensions| + 5
    ensures |RequiredInstanceExtensions(windowExtensions, false)| == |windowExtensions| + 4
  {
    var fixed := [KhrPortabilityEnumeration, KhrGetPhysicalDeviceProperties2, KhrSurface, ExtDebugUtils];
    assert multiset(fixed)[ExtDebugUtils] == 1;
  }

  /** `required` without its first entry equal to `name`, if there is one. */
  function RemoveFirst(required: seq<string>, name: string): (r: seq<string>)
    ensures |r| <= |required|
    ensures name in required ==> |r| == |required| - 1
  {
    if required == [] then []
    else if required[0] == name then required[1..]
    else [required[0]] + RemoveFirst(required[1..], name)
  }

  /** The loop of check_device_extension_support: for each wanted name, remove a
      matching entry from the list of still-required extensions. */
  function RemoveFound(required: seq<string>, wanted: seq<string>): (r: seq<string>)
    ensures |r| <= |required|
    decreases |wanted|
  {
    if wanted == [] then required
    else RemoveFound(RemoveFirst(required, wanted[0]), wanted[1..])
  }

  /** check_device_extension_support: the list of still-required extensions starts
      empty rather than as the device extensions, so nothing is ever removed from
      it and every device passes, whatever extensions it reports. */
  function CheckDeviceExtensionSupport(availableExtensions: seq<string>): (supported: bool)
    ensures supported
  {
    var required: seq<string> := [];
    |RemoveFound(required, DeviceExtensions)| == 0
  }
}
