/** The image records the board holds and the layout result the engine computes. */
module Assets {
  import opened Geometry

  /** Ids are the JavaScript numbers the intake code generates; only equality matters. */
  type ImageId = real

  /**
   * A decoded image: its id, display name (file name without extension) and
   * intrinsic size in pixels. The pixel source itself is an opaque handle and
   * is not modelled.
   */
  datatype ImageAsset = ImageAsset(id: ImageId, name: string, width: nat, height: nat)

  /** A decoded raster image has positive intrinsic dimensions. */
  predicate Decoded(img: ImageAsset) {
    img.width > 0 && img.height > 0
  }

  predicate AllDecoded(images: seq<ImageAsset>) {
    forall i :: 0 <= i < |images| ==> Decoded(images[i])
  }

  /** Intrinsic aspect ratio, width over height, as an exact real. */
  function AspectRatio(img: ImageAsset): (ar: real)
    requires Decoded(img)
    ensures ar > 0.0
  {
    img.width as real / img.height as real
  }

  /** The ratio times the height gives back the width. */
  lemma AspectRatioScales(img: ImageAsset)
    requires Decoded(img)
    ensures AspectRatio(img) * img.height as real == img.width as real
  {
  }

  /** One placed image: top-left corner, drawn size, rotation in degrees (0 = none). */
  datatype Placement = Placement(x: real, y: real, width: real, height: real, rotation: real, image: ImageAsset)

  /** The logical canvas size and the placements, drawn in list order. */
  datatype Layout = Layout(width: real, height: real, positions: seq<Placement>)

  function RectOf(p: Placement): Rect {
    Rect(p.x, p.y, p.width, p.height)
  }

  /** The images referred to by a list of placements, in placement order. */
  function ImagesOf(positions: seq<Placement>): (images: seq<ImageAsset>)
    ensures |images| == |positions|
    ensures forall i :: 0 <= i < |positions| ==> images[i] == positions[i].image
  {
    seq(|positions|, i requires 0 <= i < |positions| => positions[i].image)
  }

  /**
   * The fixed logical canvas of the collage and smart layouts, 800 by 600;
   * the smart layout grows taller when its rows need it.
   */
  const CanvasWidth: real := 800.0
  const CanvasHeight: real := 600.0

  function Max(a: real, b: real): real {
    if a >= b then a else b
  }

  function Min(a: real, b: real): real {
    if a <= b then a else b
  }
}
