/**
 * The cover-fit arithmetic used when an image is drawn into its placement:
 * the image is scaled uniformly so that it covers the placement box, and
 * centred, so that whatever overhangs is split evenly and clipped.
 */
module Compositor {
  import opened Assets

  /** The scale factor, the drawn size and the drawing offset inside the box. */
  datatype Fit = Fit(scale: real, scaledWidth: real, scaledHeight: real, offsetX: real, offsetY: real)

  /** `scale = max(width / iw, height / ih)`, the drawn size, and the centring offsets. */
  function CoverFit(width: real, height: real, img: ImageAsset): (fit: Fit)
    requires Decoded(img)
    ensures fit.scale > 0.0 || (width <= 0.0 && height <= 0.0)
  {
    var iw, ih := img.width as real, img.height as real;
    var scale := Max(width / iw, height / ih);
    var scaledWidth := iw * scale;
    var scaledHeight := ih * scale;
    Fit(scale, scaledWidth, scaledHeight, (width - scaledWidth) / 2.0, (height - scaledHeight) / 2.0)
  }

  /** Multiplying by a positive factor keeps the order. */
  lemma ScaleMonotone(k: real, a: real, b: real)
    requires k > 0.0 && a <= b
    ensures k * a <= k * b
  {
  }

  /**
   * The drawn image covers the box, fits it exactly along at least one axis,
   * keeps the image's aspect ratio, starts at or before the box's top-left
   * corner and overhangs both sides of each axis by the same amount.
   */
  lemma CoverFitCovers(width: real, height: real, img: ImageAsset)
    requires Decoded(img)
    ensures var fit := CoverFit(width, height, img);
      && fit.scaledWidth >= width && fit.scaledHeight >= height
      && (fit.scaledWidth == width || fit.scaledHeight == height)
      && fit.scaledWidth * img.height as real == fit.scaledHeight * img.width as real
      && fit.offsetX <= 0.0 && fit.offsetY <= 0.0
      && fit.offsetX == width - (fit.offsetX + fit.scaledWidth)
      && fit.offsetY == height - (fit.offsetY + fit.scaledHeight)
  {
    var iw, ih := img.width as real, img.height as real;
    var byWidth, byHeight := width / iw, height / ih;
    var scale := Max(byWidth, byHeight);
    assert iw * byWidth == width;
    assert ih * byHeight == height;
    ScaleMonotone(iw, byWidth, scale);
    ScaleMonotone(ih, byHeight, scale);
    assert (iw * scale) * ih == (ih * scale) * iw;
  }

  /** A square image in a 200 by 100 box is drawn 200 by 200 and shifted up by 50. */
  lemma SquareInWideBox(img: ImageAsset)
    requires img.width == 100 && img.height == 100
    ensures CoverFit(200.0, 100.0, img) == Fit(2.0, 200.0, 200.0, 0.0, -50.0)
  {
  }
}
