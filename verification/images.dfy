/**
 * Captured images as symbolic values.
 *
 * The pixel operations of the imaging library (open, crop, copy, paste,
 * thumbnail) are outside the model: an image is the term that records how it
 * was made. A loaded image remembers the file it was read from and the size
 * the file reported; cropping and pasting build new terms around it and never
 * change the term they start from, which is what `copy()` before `paste()`
 * guarantees in the source.
 */
module Images {

  /** A point in absolute screen coordinates. */
  datatype Point = Point(x: int, y: int)

  /** A crop box (left, top, right, bottom) as the region selector reports it. */
  datatype Box = Box(left: int, top: int, right: int, bottom: int)

  /** A cursor glyph, identified by the resource it was loaded from. */
  datatype Glyph = Glyph(resource: string)

  /** The glyph `add_fake_cursor` loads when its caller supplies none. */
  const Adwaita := Glyph("cursor-adwaita.png")

  datatype Image =
    | Loaded(file: string, width: nat, height: nat)
    | Cropped(source: Image, box: Box)
    | Stamped(base: Image, glyph: Glyph, ratio: real, at: Point)

  /** Length of the interval [lo, hi), zero when it is empty. */
  function Extent(lo: int, hi: int): (r: nat)
    ensures lo <= hi ==> lo + r == hi
    ensures hi <= lo ==> r == 0
  {
    if lo < hi then hi - lo else 0
  }

  /** Width in pixels: a crop is as wide as its box, a stamp keeps its base's size. */
  function Width(img: Image): nat
  {
    match img
    case Loaded(_, w, _) => w
    case Cropped(_, box) => Extent(box.left, box.right)
    case Stamped(base, _, _, _) => Width(base)
  }

  /** Height in pixels, by the same rules as `Width`. */
  function Height(img: Image): nat
  {
    match img
    case Loaded(_, _, h) => h
    case Cropped(_, box) => Extent(box.top, box.bottom)
    case Stamped(base, _, _, _) => Height(base)
  }

  function Max(a: real, b: real): real { if a < b then b else a }

  function Min(a: real, b: real): real { if a < b then a else b }

  /** The smallest cursor-size ratio. */
  const MinCursorRatio: real := 0.3

  /** The screen size, per side, at which the glyph keeps its own size. */
  const ReferenceSide: real := 2000.0

  /**
   * The cursor-size ratio of `add_fake_cursor`: each side of the screenshot
   * is measured against the reference side, clamped from below, and the
   * smaller of the two clamped ratios is taken. Equivalently, the smaller
   * side decides, and the ratio never drops under the minimum.
   */
  function CursorRatio(width: nat, height: nat): (r: real)
    ensures r >= MinCursorRatio
    ensures r == Max((if width <= height then width else height) as real / ReferenceSide, MinCursorRatio)
    ensures (width as real <= MinCursorRatio * ReferenceSide || height as real <= MinCursorRatio * ReferenceSide)
      ==> r == MinCursorRatio
  {
    Min(Max(width as real / ReferenceSide, MinCursorRatio), Max(height as real / ReferenceSide, MinCursorRatio))
  }
}
