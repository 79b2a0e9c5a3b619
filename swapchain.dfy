/** Swapchain negotiation of main.c: `choose_swap_surface_format`,
    `choose_swap_present_mode`, the `clamp` macro, `choose_swap_extent` and the
    image-count rule of `create_swapchain`. */
module Swapchain {
  import opened VulkanTypes

  /** The format the program prefers: 8-bit BGRA in sRGB with the non-linear sRGB colour space. */
  const PreferredFormat := SurfaceFormat(FormatB8G8R8A8Srgb, ColorSpaceSrgbNonlinear)

  /** choose_swap_surface_format: the preferred format when the surface offers it,
      the first offered format otherwise. The source reads `items[0]` without a
      check, so an empty list is excluded. */
  method ChooseSwapSurfaceFormat(formats: seq<SurfaceFormat>) returns (chosen: SurfaceFormat)
    requires |formats| > 0
    ensures PreferredFormat in formats ==> chosen == PreferredFormat
    ensures PreferredFormat !in formats ==> chosen == formats[0]
    ensures chosen in formats
  {
    for i := 0 to |formats|
      invariant PreferredFormat !in formats[..i]
    {
      var format := formats[i];
      if format.format == FormatB8G8R8A8Srgb && format.colorSpace == ColorSpaceSrgbNonlinear {
        return format;
      }
    }
    assert formats[..|formats|] == formats;
    return formats[0];
  }

  /** choose_swap_present_mode: mailbox when the surface offers it, FIFO (which
      every surface supports) otherwise. */
  method ChooseSwapPresentMode(presentModes: seq<int>) returns (mode: int)
    ensures mode == PresentModeMailbox <==> PresentModeMailbox in presentModes
    ensures mode != PresentModeMailbox ==> mode == PresentModeFifo
  {
    for i := 0 to |presentModes|
      invariant PresentModeMailbox !in presentModes[..i]
    {
      var presentMode := presentModes[i];
      if presentMode == PresentModeMailbox {
        return presentMode;
      }
    }
    assert presentModes[..|presentModes|] == presentModes;
    return PresentModeFifo;
  }

  /** The `clamp` macro: the ceiling is tested first, so with `floor > ceil` a value
      above the ceiling yields the ceiling and a value below both yields the floor. */
  function Clamp(value: U32, floor: U32, ceil: U32): (r: U32)
    ensures floor <= ceil ==> floor <= r <= ceil
    ensures floor <= value <= ceil ==> r == value
    ensures value > ceil ==> r == ceil
    ensures value <= ceil && value < floor ==> r == floor
  {
    if value > ceil then ceil else if value < floor then floor else value
  }

  /** choose_swap_extent: the surface's current extent unless its width is the
      `UINT_MAX` marker; otherwise the framebuffer size, cast to `uint32_t`, with the
      width clamped to the surface's width bounds and the height clamped between
      the minimum height and, as written, the maximum WIDTH. */
  function ChooseSwapExtent(caps: SurfaceCapabilities, framebufferWidth: I32, framebufferHeight: I32): (extent: Extent2D)
  {
    if caps.currentExtent.width != UintMax then caps.currentExtent
    else
      Extent2D(
        Clamp(ToU32(framebufferWidth), caps.minImageExtent.width, caps.maxImageExtent.width),
        Clamp(ToU32(framebufferHeight), caps.minImageExtent.height, caps.maxImageExtent.width))
  }

  /** What the extent rule guarantees: a defined current extent is taken as is;
      otherwise a non-negative framebuffer size within the bounds is kept, the
      width lies within the width bounds and the height between the minimum height
      and the maximum width; a negative framebuffer width wraps to a value above any
      maximum below 2^31 and is clamped down to that maximum. */
  lemma ChooseSwapExtentBounds(caps: SurfaceCapabilities, framebufferWidth: I32, framebufferHeight: I32)
    ensures caps.currentExtent.width != UintMax ==> ChooseSwapExtent(caps, framebufferWidth, framebufferHeight) == caps.currentExtent
    ensures caps.currentExtent.width == UintMax && caps.minImageExtent.width <= caps.maxImageExtent.width ==>
      caps.minImageExtent.width <= ChooseSwapExtent(caps, framebufferWidth, framebufferHeight).width <= caps.maxImageExtent.width
    ensures caps.currentExtent.width == UintMax && caps.minImageExtent.height <= caps.maxImageExtent.width ==>
      caps.minImageExtent.height <= ChooseSwapExtent(caps, framebufferWidth, framebufferHeight).height <= caps.maxImageExtent.width
    ensures caps.currentExtent.width == UintMax && caps.minImageExtent.width <= framebufferWidth <= caps.maxImageExtent.width ==>
      ChooseSwapExtent(caps, framebufferWidth, framebufferHeight).width == framebufferWidth
    ensures caps.currentExtent.width == UintMax && framebufferWidth < 0 && caps.maxImageExtent.width < 0x8000_0000 ==>
      ChooseSwapExtent(caps, framebufferWidth, framebufferHeight).width == caps.maxImageExtent.width
  {
  }

  /** Because the height is clamped against the maximum width, a surface whose
      maximum height is below its maximum width can be handed a height above its
      maximum height: bounds 100x100 to 2000x1000 and a 50x3000 framebuffer give
      the extent 100x2000. */
  lemma ExtentHeightExceedsMaximum()
    ensures var caps := SurfaceCapabilities(2, 8, Extent2D(UintMax, UintMax), Extent2D(100, 100), Extent2D(2000, 1000));
            var extent := ChooseSwapExtent(caps, 50, 3000);
            extent == Extent2D(100, 2000) && extent.height > caps.maxImageExtent.height
  {
  }

  /** For square bounds the defect is invisible: bounds 100x100 to 2000x2000 and a
      50x3000 framebuffer give 100x2000, within the bounds. */
  lemma ExtentWithinSquareBounds()
    ensures var caps := SurfaceCapabilities(2, 8, Extent2D(UintMax, UintMax), Extent2D(100, 100), Extent2D(2000, 2000));
            ChooseSwapExtent(caps, 50, 3000) == Extent2D(100, 2000)
  {
  }

  /** create_swapchain's image count: one more than the minimum, in `uint32_t`
      arithmetic, lowered to the maximum when there is one (a maximum of 0 means
      "no limit") and it is exceeded. */
  function ChooseImageCount(caps: SurfaceCapabilities): (count: U32)
    ensures caps.maxImageCount > 0 ==> count <= caps.maxImageCount
    ensures caps.minImageCount < UintMax && (caps.maxImageCount == 0 || caps.minImageCount < caps.maxImageCount) ==>
      count == caps.minImageCount + 1
    ensures caps.minImageCount < UintMax && caps.maxImageCount > 0 && caps.minImageCount <= caps.maxImageCount ==>
      caps.minImageCount <= count
    ensures caps.minImageCount == UintMax ==> count == 0
  {
    var imageCount := (caps.minImageCount + 1) % 0x1_0000_0000;
    if caps.maxImageCount > 0 && imageCount > caps.maxImageCount then caps.maxImageCount else imageCount
  }
}
