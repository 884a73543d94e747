/** The resolution rule of the high-resolution export: the input's native size
    is multiplied by 2^(nShuffles + 1), and when either side then exceeds the
    export cap the larger side is pinned to the cap and the other is scaled in
    proportion and rounded. Numbers are reals: the floating-point error of the
    host is not modelled. */
module Export {

  /** The largest side, in pixels, an exported image may have. */
  const MaxExportDimension: real := 4096.0

  /** JavaScript's Math.round on a non-negative argument: to the nearest
      integer, halves rounding up. */
  function Round(x: real): (r: int)
    requires x >= 0.0
    ensures 0 <= r
    ensures x - 0.5 < r as real <= x + 0.5
  {
    (x + 0.5).Floor
  }

  /** The width and height given to the export canvas. */
  datatype Size = Size(width: real, height: real)

  /** The canvas size for a scaled input of size width x height: kept as it
      is within the cap, otherwise the larger side (the height on a tie) is
      pinned to the cap and the other side follows the aspect ratio, rounded
      to a whole number (the one whole number within 1/2 below and at most
      1/2 above the exact proportion, which is what Math.round gives).
      In the width-pinned branch the source divides the cap by the aspect ratio
      width/height; that is cap * height / width, which is also what the host
      computes when the height is zero (cap / Infinity). */
  function CapSize(width: real, height: real): (r: Size)
    requires width >= 0.0 && height >= 0.0
    // Within the cap, the size is used as it is.
    ensures width <= MaxExportDimension && height <= MaxExportDimension ==> r == Size(width, height)
    // Over the cap and wider than tall: the width is pinned, the height follows the aspect ratio.
    ensures (width > MaxExportDimension || height > MaxExportDimension) && width > height ==>
      && r.width == MaxExportDimension
      && r.height == r.height.Floor as real
      && MaxExportDimension * height / width - 0.5 < r.height <= MaxExportDimension * height / width + 0.5
    // Over the cap and at least as tall as wide (a tie included): the height is pinned.
    ensures (width > MaxExportDimension || height > MaxExportDimension) && width <= height ==>
      && r.height == MaxExportDimension
      && r.width == r.width.Floor as real
      && MaxExportDimension * width / height - 0.5 < r.width <= MaxExportDimension * width / height + 0.5
    // Whatever the input, neither side exceeds the cap.
    ensures 0.0 <= r.width <= MaxExportDimension && 0.0 <= r.height <= MaxExportDimension
  {
    if width > MaxExportDimension || height > MaxExportDimension then
      if width > height then
        Size(MaxExportDimension, RoundedProportion(height, width))
      else
        // cap * (width / height), the cap times the aspect ratio
        Size(RoundedProportion(width, height), MaxExportDimension)
    else
      Size(width, height)
  }

  /** The side that follows the aspect ratio: the cap scaled by small / large,
      rounded with Math.round. */
  function RoundedProportion(small: real, large: real): (r: real)
    requires 0.0 <= small <= large && large > 0.0
    ensures r == r.Floor as real
    ensures MaxExportDimension * small / large - 0.5 < r <= MaxExportDimension * small / large + 0.5
    ensures 0.0 <= r <= MaxExportDimension
  {
    ProportionBelowCap(small, large);
    Round(MaxExportDimension * (small / large)) as real
  }

  /** The export size for an input of native size nativeWidth x nativeHeight at
      the given scale factor: the scaled size, capped. */
  function ExportSize(nativeWidth: real, nativeHeight: real, scale: real): (r: Size)
    requires nativeWidth >= 0.0 && nativeHeight >= 0.0 && scale > 0.0
    ensures nativeWidth * scale <= MaxExportDimension && nativeHeight * scale <= MaxExportDimension ==>
      r == Size(nativeWidth * scale, nativeHeight * scale)
    ensures 0.0 <= r.width <= MaxExportDimension && 0.0 <= r.height <= MaxExportDimension
  {
    CapSize(nativeWidth * scale, nativeHeight * scale)
  }

  /** The cap scaled by small / large lies in [0, cap] when 0 <= small <= large. */
  lemma ProportionBelowCap(small: real, large: real)
    requires 0.0 <= small <= large && large > 0.0
    ensures 0.0 <= MaxExportDimension * small / large <= MaxExportDimension
    ensures MaxExportDimension * (small / large) == MaxExportDimension * small / large
  {
  }

  /** Exporting an exported size again at scale 1 leaves it as it is: the
      result of ExportSize is a fixed point of the cap. */
  lemma ExportSizeIsCapped(nativeWidth: real, nativeHeight: real, scale: real)
    requires nativeWidth >= 0.0 && nativeHeight >= 0.0 && scale > 0.0
    ensures var r := ExportSize(nativeWidth, nativeHeight, scale);
      ExportSize(r.width, r.height, 1.0) == r
  {
  }

  /** 2 to the power n. */
  function Pow2(n: nat): (r: nat)
    ensures r >= 1
    ensures n >= 1 ==> r >= 2 * n
  {
    if n == 0 then 1 else 2 * Pow2(n - 1)
  }

  /** The scale factor 2^(nShuffles + 1), with nShuffles given as a count of
      eighths. For a whole number of shuffles it is an exact power of two; for
      a fractional one it is the host's floating-point power, of which the
      model only knows that it is at least that of one shuffle. */
  predicate IsExportScale(shuffleEighths: int, scale: real) {
    && scale >= 4.0
    && (shuffleEighths >= 8 && shuffleEighths % 8 == 0 ==> scale == Pow2(shuffleEighths / 8 + 1) as real)
  }

  /** For a whole number of shuffles, at least one, the power of two is a
      valid export scale. */
  lemma WholeShuffleScale(nShuffles: nat)
    requires nShuffles >= 1
    ensures IsExportScale(8 * nShuffles, Pow2(nShuffles + 1) as real)
  {
  }

  /** The two worked examples: a 1920x1080 stream at nShuffles = 3 is pinned to
      4096x2304; a 100x100 image at nShuffles = 1 is exported at 400x400. */
  lemma ExportSizeExamples()
    ensures ExportSize(1920.0, 1080.0, Pow2(3 + 1) as real) == Size(4096.0, 2304.0)
    ensures ExportSize(100.0, 100.0, Pow2(1 + 1) as real) == Size(400.0, 400.0)
    ensures ExportSize(3000.0, 3000.0, 4.0) == Size(4096.0, 4096.0)
  {
  }
}
