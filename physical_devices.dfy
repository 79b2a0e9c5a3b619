/** Physical-device rating of main.c: `rate_device_suitability`, the scored
    record and its comparator `sort_scored_devices`. */
module PhysicalDevices {
  import opened VulkanTypes
  import opened QueueFamilies
  import opened Extensions

  /** The preference part of the score: 1000 for a discrete GPU, the maximum 2D
      image dimension, and 100 for geometry-shader support. */
  function Heuristic(d: PhysicalDevice): int
  {
    (if d.deviceType == PhysicalDeviceTypeDiscreteGpu then 1000 else 0)
    + d.maxImageDimension2D
    + (if d.geometryShader then 100 else 0)
  }

  /** The device can drive the application: it has a graphics family and a
      present family, passes the extension check, and offers at least one surface
      format and one present mode. */
  predicate Viable(d: PhysicalDevice)
  {
    && HasFamily(d.queueFamilies, Graphics)
    && HasFamily(d.queueFamilies, Present)
    && CheckDeviceExtensionSupport(d.availableExtensions)
    && |d.support.formats| > 0
    && |d.support.presentModes| > 0
  }

  /** The score a device receives: its heuristic when viable, 0 otherwise. */
  function SuitabilityScore(d: PhysicalDevice): int
  {
    if Viable(d) then Heuristic(d) else 0
  }

  /** rate_device_suitability: accumulate the heuristic, then answer 0 for a device
      whose queue families are incomplete, that fails the extension check, or that
      offers no surface format or no present mode. */
  method RateDeviceSuitability(d: PhysicalDevice) returns (score: int)
    ensures score == SuitabilityScore(d)
    ensures score >= 0
    ensures !HasFamily(d.queueFamilies, Graphics) || !HasFamily(d.queueFamilies, Present) ==> score == 0
    ensures |d.support.formats| == 0 || |d.support.presentModes| == 0 ==> score == 0
    ensures HasFamily(d.queueFamilies, Graphics) && HasFamily(d.queueFamilies, Present)
            && |d.support.formats| > 0 && |d.support.presentModes| > 0 ==>
      score == Heuristic(d) && score >= d.maxImageDimension2D
  {
    score := 0;
    if d.deviceType == PhysicalDeviceTypeDiscreteGpu {
      score := score + 1000;
    }
    score := score + d.maxImageDimension2D;
    if d.geometryShader {
      score := score + 100;
    }
    var indices := FindQueueFamilies(d.queueFamilies);
    if !IndicesComplete(indices) || !CheckDeviceExtensionSupport(d.availableExtensions) {
      return 0;
    }
    if |d.support.formats| == 0 || |d.support.presentModes| == 0 {
      return 0;
    }
  }

  /** A positive score certifies everything the later stages rely on: both queue
      families exist, and the surface offers a format and a present mode. */
  lemma PositiveScoreIsViable(d: PhysicalDevice)
    requires SuitabilityScore(d) > 0
    ensures HasFamily(d.queueFamilies, Graphics) && HasFamily(d.queueFamilies, Present)
    ensures |d.support.formats| > 0 && |d.support.presentModes| > 0
  {
  }

  /** A viable device always scores above 0: its maximum 2D image dimension may be
      0, but the heuristic is never negative; a device with a non-zero dimension,
      a discrete GPU or a geometry shader is chosen over nothing. */
  lemma ViableScore(d: PhysicalDevice)
    requires Viable(d)
    ensures SuitabilityScore(d) >= 0
    ensures SuitabilityScore(d) > 0 <==>
      d.deviceType == PhysicalDeviceTypeDiscreteGpu || d.maxImageDimension2D > 0 || d.geometryShader
  {
  }

  /** physical_device_scored_t. */
  datatype ScoredDevice = ScoredDevice(score: int, device: DeviceHandle)

  /** sort_scored_devices: `left.score - right.score`, an ascending order by score
      (the difference is unbounded here). */
  function SortScoredDevices(left: ScoredDevice, right: ScoredDevice): (order: int)
    ensures order < 0 <==> left.score < right.score
    ensures order == 0 <==> left.score == right.score
    ensures order > 0 <==> left.score > right.score
  {
    left.score - right.score
  }

  /** The comparator is antisymmetric and compares every record equal to itself,
      which is what the quicksort's scans need to stop at the pivot. */
  lemma SortScoredDevicesConsistent(left: ScoredDevice, right: ScoredDevice)
    ensures SortScoredDevices(left, right) == -SortScoredDevices(right, left)
    ensures SortScoredDevices(left, left) == 0
  {
  }
}
