/** Queue-family resolution of main.c: `indices_complete`, `find_queue_families`
    and the two decisions that depend on whether the graphics and the present
    family coincide (image sharing in `create_swapchain`, the unique-family list
    of `create_logical_device`). */
module QueueFamilies {
  import opened VulkanTypes
  import DynamicArrays

  /** optional_uint32_t: a presence flag and a value (0 in the zero record). */
  datatype OptionalIndex = OptionalIndex(present: bool, value: nat)

  const NoIndex := OptionalIndex(false, 0)

  /** queue_family_indices_t. */
  datatype QueueFamilyIndices = QueueFamilyIndices(graphicsFamily: OptionalIndex, presentFamily: OptionalIndex)

  /** indices_complete: both families were found. */
  predicate IndicesComplete(indices: QueueFamilyIndices)
  {
    indices.graphicsFamily.present && indices.presentFamily.present
  }

  /** The two capabilities a family is looked up for. */
  datatype Capability = Graphics | Present

  predicate Has(family: QueueFamily, c: Capability)
  {
    match c
    case Graphics => family.queueFlags & QueueGraphicsBit != 0
    case Present => family.presentSupport
  }

  /** Some family of the device has capability `c`. */
  predicate HasFamily(families: seq<QueueFamily>, c: Capability)
  {
    exists i | 0 <= i < |families| :: Has(families[i], c)
  }

  /** The last family below `n` with capability `c`, if any. */
  function LastWith(families: seq<QueueFamily>, c: Capability, n: nat): (r: OptionalIndex)
    requires n <= |families|
    ensures r.present ==> r.value < n && Has(families[r.value], c)
    ensures r.present ==> forall k | r.value < k < n :: !Has(families[k], c)
    ensures !r.present ==> r == NoIndex && forall k | 0 <= k < n :: !Has(families[k], c)
  {
    if n == 0 then NoIndex
    else if Has(families[n - 1], c) then OptionalIndex(true, n - 1)
    else LastWith(families, c, n - 1)
  }

  /** A family with capability `c` exists exactly when a scan of all families records one. */
  lemma LastWithFindsAny(families: seq<QueueFamily>, c: Capability)
    ensures HasFamily(families, c) <==> LastWith(families, c, |families|).present
  {
    var r := LastWith(families, c, |families|);
    if r.present {
      assert Has(families[r.value], c);
    }
  }

  /** What a scan of the first `n` families records: the last graphics family and
      the last present family among them. */
  function IndicesAt(families: seq<QueueFamily>, n: nat): QueueFamilyIndices
    requires n <= |families|
  {
    QueueFamilyIndices(LastWith(families, Graphics, n), LastWith(families, Present, n))
  }

  /** `indices` is what the scan records when it stops: at the first prefix of the
      families after which both indices are recorded, or after all of them. */
  ghost predicate ScanResult(families: seq<QueueFamily>, indices: QueueFamilyIndices)
  {
    exists m | 0 <= m <= |families| ::
      && indices == IndicesAt(families, m)
      && (IndicesComplete(indices) || m == |families|)
      && forall j | 0 <= j < m :: !IndicesComplete(IndicesAt(families, j))
  }

  /** The scan's result is determined by the families: two results of scanning
      the same families are equal. */
  lemma {:induction false} ScanResultUnique(families: seq<QueueFamily>, a: QueueFamilyIndices, b: QueueFamilyIndices)
    requires ScanResult(families, a) && ScanResult(families, b)
    ensures a == b
  {
    var ma :| 0 <= ma <= |families| && a == IndicesAt(families, ma)
      && (IndicesComplete(a) || ma == |families|)
      && forall j | 0 <= j < ma :: !IndicesComplete(IndicesAt(families, j));
    var mb :| 0 <= mb <= |families| && b == IndicesAt(families, mb)
      && (IndicesComplete(b) || mb == |families|)
      && forall j | 0 <= j < mb :: !IndicesComplete(IndicesAt(families, j));
    StopsAgree(families, ma, mb);
  }

  /** The scan stops at one place only: a prefix after which both indices are
      recorded (or the whole list) that no shorter complete prefix precedes. */
  lemma StopsAgree(families: seq<QueueFamily>, ma: nat, mb: nat)
    requires ma <= |families| && mb <= |families|
    requires IndicesComplete(IndicesAt(families, ma)) || ma == |families|
    requires IndicesComplete(IndicesAt(families, mb)) || mb == |families|
    requires forall j | 0 <= j < ma :: !IndicesComplete(IndicesAt(families, j))
    requires forall j | 0 <= j < mb :: !IndicesComplete(IndicesAt(families, j))
    ensures ma == mb
  {
  }

  /** find_queue_families: scan the families in order, recording each graphics and
      each present family seen, and stop as soon as both have been recorded. */
  method FindQueueFamilies(families: seq<QueueFamily>) returns (indices: QueueFamilyIndices)
    ensures IndicesComplete(indices) <==> HasFamily(families, Graphics) && HasFamily(families, Present)
    ensures indices.graphicsFamily.present ==>
      indices.graphicsFamily.value < |families| && Has(families[indices.graphicsFamily.value], Graphics)
    ensures indices.presentFamily.present ==>
      indices.presentFamily.value < |families| && Has(families[indices.presentFamily.value], Present)
    ensures ScanResult(families, indices)
  {
    indices := QueueFamilyIndices(NoIndex, NoIndex);
    ghost var stop := |families|;
    var i := 0;
    while i < |families|
      invariant 0 <= i <= |families|
      invariant indices == IndicesAt(families, i)
      invariant forall j | 0 <= j <= i :: !IndicesComplete(IndicesAt(families, j))
    {
      if families[i].queueFlags & QueueGraphicsBit != 0 {
        indices := indices.(graphicsFamily := OptionalIndex(true, i));
      }
      if families[i].presentSupport {
        indices := indices.(presentFamily := OptionalIndex(true, i));
      }
      if IndicesComplete(indices) {
        stop := i + 1;
        break;
      }
      i := i + 1;
    }
    assert indices == IndicesAt(families, stop);
    LastWithFindsAny(families, Graphics);
    LastWithFindsAny(families, Present);
  }

  /** VkSharingMode. */
  datatype SharingMode = Exclusive | Concurrent

  /** The image-sharing fields of the swapchain create-info. */
  datatype ImageSharing = ImageSharing(mode: SharingMode, queueFamilyIndices: seq<nat>)

  /** create_swapchain: concurrent sharing between the two families when they
      differ, exclusive ownership with no index list when they coincide. */
  function ChooseImageSharing(indices: QueueFamilyIndices): (s: ImageSharing)
    ensures s.mode == Concurrent <==> indices.graphicsFamily.value != indices.presentFamily.value
    ensures s.mode == Concurrent ==>
      s.queueFamilyIndices == [indices.graphicsFamily.value, indices.presentFamily.value]
    ensures s.mode == Exclusive ==> s.queueFamilyIndices == []
  {
    if indices.graphicsFamily.value != indices.presentFamily.value then
      ImageSharing(Concurrent, [indices.graphicsFamily.value, indices.presentFamily.value])
    else
      ImageSharing(Exclusive, [])
  }

  /** create_logical_device: the graphics family, then the present family when it
      is a different one, gathered with da_append. */
  method UniqueQueueFamilies(indices: QueueFamilyIndices) returns (families: seq<nat>)
    ensures |families| == if indices.graphicsFamily.value == indices.presentFamily.value then 1 else 2
    ensures families[0] == indices.graphicsFamily.value
    ensures families[|families| - 1] == indices.presentFamily.value
  {
    var unique := new DynamicArrays.DynArray<nat>();
    unique.Append(indices.graphicsFamily.value);
    if indices.graphicsFamily.value != indices.presentFamily.value {
      unique.Append(indices.presentFamily.value);
    }
    families := unique.Contents();
  }

  /** The sharing decision and the unique-family list agree: the swapchain is
      shared concurrently exactly when the device gets two queue families, and it
      is then shared between exactly those two, in the same order. */
  lemma SharingMatchesUniqueFamilies(indices: QueueFamilyIndices, families: seq<nat>)
    requires |families| == if indices.graphicsFamily.value == indices.presentFamily.value then 1 else 2
    requires families[0] == indices.graphicsFamily.value
    requires families[|families| - 1] == indices.presentFamily.value
    ensures ChooseImageSharing(indices).mode == Concurrent <==> |families| == 2
    ensures ChooseImageSharing(indices).mode == Concurrent ==> ChooseImageSharing(indices).queueFamilyIndices == families
    ensures ChooseImageSharing(indices).mode == Exclusive <==> |families| == 1
  {
    if |families| == 2 {
      assert families == [families[0], families[1]];
    }
  }
}
