/**
 * The moodboard itself: the ordered list of uploaded images and the settings
 * the layout engine reads, the list edits the image panel triggers (remove,
 * drag-to-reorder), the layout dispatch and the size of the canvas drawn.
 */
module Board {
  import opened Geometry
  import opened Assets
  import GridLayout
  import CollageLayout
  import SmartLayout

  datatype Option<T> = None | Some(value: T)

  /** Padding and gap every layout is computed with. */
  const Padding: nat := 40
  const Gap: nat := 20

  /**
   * The settings the layout engine and the canvas read. Background, gradient
   * and texture settings only affect painting and are not modelled.
   */
  datatype Settings = Settings(layout: string, gridColumns: int, imageFilter: string,
                               exportResolution: int, addTextLabels: bool)

  const DefaultSettings: Settings := Settings("grid", 3, "none", 1, false)

  /** The three layout algorithms. */
  datatype LayoutKind = Grid | Collage | Smart

  /** The switch on the layout setting; any other name takes the default branch, the grid. */
  function KindOf(name: string): (k: LayoutKind)
    ensures k == Collage <==> name == "collage"
    ensures k == Smart <==> name == "smart"
  {
    if name == "collage" then Collage
    else if name == "smart" then Smart
    else Grid
  }

  // ---------------------------------------------------------------------------
  // Removing an image

  /** The entries whose id differs from `id`, in their original order. */
  function WithoutId(xs: seq<ImageAsset>, id: ImageId): (r: seq<ImageAsset>)
    ensures |r| <= |xs|
  {
    if |xs| == 0 then []
    else (if xs[0].id != id then [xs[0]] else []) + WithoutId(xs[1..], id)
  }

  /** An entry survives the removal exactly when it was there and its id differs. */
  lemma {:induction false} WithoutIdMembers(xs: seq<ImageAsset>, id: ImageId, x: ImageAsset)
    ensures x in WithoutId(xs, id) <==> x in xs && x.id != id
  {
    if |xs| > 0 {
      var head := if xs[0].id != id then [xs[0]] else [];
      assert WithoutId(xs, id) == head + WithoutId(xs[1..], id);
      assert x in xs <==> x == xs[0] || x in xs[1..] by {
        assert xs == [xs[0]] + xs[1..];
      }
      WithoutIdMembers(xs[1..], id, x);
    }
  }

  /** Removal works segment by segment, so the survivors keep their relative order. */
  lemma {:induction false} WithoutIdConcat(xs: seq<ImageAsset>, ys: seq<ImageAsset>, id: ImageId)
    ensures WithoutId(xs + ys, id) == WithoutId(xs, id) + WithoutId(ys, id)
  {
    if |xs| == 0 {
      assert xs + ys == ys;
    } else {
      assert (xs + ys)[1..] == xs[1..] + ys;
      WithoutIdConcat(xs[1..], ys, id);
    }
  }

  /** A list without the id is left as it is. */
  lemma {:induction false} WithoutIdAbsent(xs: seq<ImageAsset>, id: ImageId)
    requires forall k :: 0 <= k < |xs| ==> xs[k].id != id
    ensures WithoutId(xs, id) == xs
  {
    if |xs| > 0 {
      WithoutIdAbsent(xs[1..], id);
      assert xs == [xs[0]] + xs[1..];
    }
  }

  /** Removing the same id twice is removing it once. */
  lemma WithoutIdIdempotent(xs: seq<ImageAsset>, id: ImageId)
    ensures WithoutId(WithoutId(xs, id), id) == WithoutId(xs, id)
  {
    var r := WithoutId(xs, id);
    forall k | 0 <= k < |r| ensures r[k].id != id {
      WithoutIdMembers(xs, id, r[k]);
    }
    WithoutIdAbsent(r, id);
  }

  // ---------------------------------------------------------------------------
  // Reordering by drag and drop

  /** `findIndex` on the id: the first index holding `id`, or -1. */
  function FindIndex(xs: seq<ImageAsset>, id: ImageId): (r: int)
    ensures -1 <= r < |xs|
    ensures r >= 0 ==> xs[r].id == id && forall k :: 0 <= k < r ==> xs[k].id != id
    ensures r == -1 ==> forall k :: 0 <= k < |xs| ==> xs[k].id != id
  {
    if |xs| == 0 then -1
    else if xs[0].id == id then 0
    else
      var r := FindIndex(xs[1..], id);
      if r == -1 then -1 else r + 1
  }

  /** `splice(d, 1)`: the list without index `d`. */
  function Remove(xs: seq<ImageAsset>, d: nat): (r: seq<ImageAsset>)
    requires d < |xs|
    ensures |r| == |xs| - 1
  {
    xs[..d] + xs[d + 1..]
  }

  /** `splice(t, 0, x)`: `x` inserted before index `t`. */
  function Insert(xs: seq<ImageAsset>, t: nat, x: ImageAsset): (r: seq<ImageAsset>)
    requires t <= |xs|
    ensures |r| == |xs| + 1
  {
    xs[..t] + [x] + xs[t..]
  }

  /** The image at `d` taken out and put back at index `t` of the shortened list. */
  function Moved(xs: seq<ImageAsset>, d: nat, t: nat): seq<ImageAsset>
    requires d < |xs| && t < |xs|
  {
    Insert(Remove(xs, d), t, xs[d])
  }

  /** The dragged image ends up at the target index; the list keeps its length. */
  lemma MovedPlacesDragged(xs: seq<ImageAsset>, d: nat, t: nat)
    requires d < |xs| && t < |xs|
    ensures |Moved(xs, d, t)| == |xs| && Moved(xs, d, t)[t] == xs[d]
  {
  }

  /** Taking the dragged image out again leaves the others in their old relative order. */
  lemma MovedKeepsOthers(xs: seq<ImageAsset>, d: nat, t: nat)
    requires d < |xs| && t < |xs|
    ensures Remove(Moved(xs, d, t), t) == Remove(xs, d)
  {
    var rest := Remove(xs, d);
    assert Moved(xs, d, t) == rest[..t] + [xs[d]] + rest[t..];
    assert Moved(xs, d, t)[..t] == rest[..t];
    assert Moved(xs, d, t)[t + 1..] == rest[t..];
  }

  /** The reordered list holds the same images, each as often as before. */
  lemma MovedIsPermutation(xs: seq<ImageAsset>, d: nat, t: nat)
    requires d < |xs| && t < |xs|
    ensures multiset(Moved(xs, d, t)) == multiset(xs)
  {
    var rest := Remove(xs, d);
    assert xs == xs[..d] + [xs[d]] + xs[d + 1..];
    assert rest[..t] + rest[t..] == rest;
    calc {
      multiset(Moved(xs, d, t));
    ==
      multiset(rest[..t]) + multiset([xs[d]]) + multiset(rest[t..]);
    ==
      multiset(rest) + multiset([xs[d]]);
    ==
      multiset(xs[..d]) + multiset(xs[d + 1..]) + multiset([xs[d]]);
    ==
      multiset(xs);
    }
  }

  /** Taking out and putting back at the same index changes nothing. */
  lemma PutBack(xs: seq<ImageAsset>, d: nat)
    requires d < |xs|
    ensures Insert(Remove(xs, d), d, xs[d]) == xs
  {
    assert Remove(xs, d)[..d] == xs[..d];
    assert Remove(xs, d)[d..] == xs[d + 1..];
  }

  /** Dropping an image on itself changes nothing. */
  lemma MovedInPlace(xs: seq<ImageAsset>, d: nat)
    requires d < |xs|
    ensures Moved(xs, d, d) == xs
  {
    PutBack(xs, d);
  }

  /** Dragging the image back from `t` to `d` undoes the move. */
  lemma MovedUndone(xs: seq<ImageAsset>, d: nat, t: nat)
    requires d < |xs| && t < |xs|
    ensures Moved(Moved(xs, d, t), t, d) == xs
  {
    MovedPlacesDragged(xs, d, t);
    MovedKeepsOthers(xs, d, t);
    PutBack(xs, d);
  }

  // ---------------------------------------------------------------------------
  // Layout dispatch

  /**
   * `layout` is what `calculateLayout` returns for `images` under `settings`,
   * with padding 40 and gap 20, the collage drawing from `rand`: the grid of
   * the chosen column count; or a collage of the images; or the smart mix of
   * the images packed into rows behind the cursor, with the height the
   * packing reaches.
   */
  ghost predicate LaidOut(images: seq<ImageAsset>, settings: Settings, rand: nat -> real, layout: Layout)
    requires AllDecoded(images) && settings.gridColumns >= 1
  {
    match KindOf(settings.layout)
    case Grid => layout == GridLayout.GridOf(images, settings.gridColumns, Padding, Gap)
    case Collage =>
      exists placedRects, sizes, attempts, cursors ::
        CollageLayout.CollageOf(images, Padding, Gap, rand, layout, placedRects, sizes, attempts, cursors)
    case Smart => SmartLayout.SmartOf(images, Padding, Gap, layout)
  }

  /** The layout is a function of the images, the settings and the draws. */
  lemma LayoutDetermined(images: seq<ImageAsset>, settings: Settings, rand: nat -> real, l1: Layout, l2: Layout)
    requires AllDecoded(images) && settings.gridColumns >= 1
    requires LaidOut(images, settings, rand, l1) && LaidOut(images, settings, rand, l2)
    ensures l1 == l2
  {
    match KindOf(settings.layout)
    case Grid =>
    case Collage =>
      var r1, s1, a1, c1 :| CollageLayout.CollageOf(images, Padding, Gap, rand, l1, r1, s1, a1, c1);
      var r2, s2, a2, c2 :| CollageLayout.CollageOf(images, Padding, Gap, rand, l2, r2, s2, a2, c2);
      CollageLayout.CollageDetermined(images, Padding, Gap, rand, l1, r1, s1, a1, c1, l2, r2, s2, a2, c2);
    case Smart =>
      SmartLayout.PackingDetermined(l1.positions, l2.positions, Padding as real, Gap as real);
  }

  // ---------------------------------------------------------------------------
  // Canvas size

  /** A canvas in pixels and the logical layout painted on it. */
  datatype Canvas = Canvas(width: real, height: real, layout: Layout)

  /** The multiplier applied to the logical layout: the export resolution on export, 1 for the preview. */
  function ExportMultiplier(isExport: bool, resolution: int): int {
    if isExport then resolution else 1
  }

  /** `canvas.width` and `canvas.height`: the layout's extent times the multiplier. */
  function CanvasSize(layout: Layout, multiplier: int): (real, real) {
    (layout.width * multiplier as real, layout.height * multiplier as real)
  }

  /** Scaling a non-negative extent by a whole factor of at least one does not shrink it. */
  lemma ScaleUp(v: real, m: int)
    requires m >= 1 && v >= 0.0
    ensures v * m as real >= v
  {
    assert v * m as real - v == v * (m as real - 1.0);
  }

  /** An export at resolution one or more is at least as large as the layout. */
  lemma ExportNotSmaller(layout: Layout, resolution: int)
    requires resolution >= 1 && layout.width >= 0.0 && layout.height >= 0.0
    ensures var size := CanvasSize(layout, ExportMultiplier(true, resolution));
      size.0 >= layout.width && size.1 >= layout.height
  {
    ScaleUp(layout.width, resolution);
    ScaleUp(layout.height, resolution);
  }

  /** The preview canvas is the layout's own size; an export keeps its proportions. */
  lemma CanvasKeepsProportions(layout: Layout, isExport: bool, resolution: int)
    ensures CanvasSize(layout, ExportMultiplier(false, resolution)) == (layout.width, layout.height)
    ensures var size := CanvasSize(layout, ExportMultiplier(isExport, resolution));
      size.0 * layout.height == size.1 * layout.width
  {
    var preview := CanvasSize(layout, ExportMultiplier(false, resolution));
    assert preview.0 == layout.width && preview.1 == layout.height;
    var m := ExportMultiplier(isExport, resolution) as real;
    assert (layout.width * m) * layout.height == (layout.height * m) * layout.width;
  }

  /**
   * Three images in the default three-column grid, exported at resolution
   * two, give a 1440 by 560 canvas.
   */
  lemma ThreeImageGridExport(images: seq<ImageAsset>, settings: Settings, rand: nat -> real, layout: Layout)
    requires |images| == 3 && AllDecoded(images)
    requires settings.layout == "grid" && settings.gridColumns == 3 && settings.exportResolution == 2
    requires LaidOut(images, settings, rand, layout)
    ensures CanvasSize(layout, ExportMultiplier(true, settings.exportResolution)) == (1440.0, 560.0)
  {
    assert images == [images[0], images[1], images[2]];
    GridLayout.ThreeSquaresInOneRow(images[0], images[1], images[2]);
  }

  // ---------------------------------------------------------------------------
  // The board

  class MoodboardCreator {
    var images: seq<ImageAsset>
    var settings: Settings

    /** Uploaded images were decoded, and the column slider never goes below one column. */
    predicate Valid()
      reads this
    {
      AllDecoded(images) && settings.gridColumns >= 1
    }

    constructor()
      ensures images == [] && settings == DefaultSettings
      ensures Valid()
    {
      images := [];
      settings := DefaultSettings;
    }

    /** `removeImage`: keep the images whose id differs. */
    method RemoveImage(imageId: ImageId)
      requires Valid()
      modifies this
      ensures images == WithoutId(old(images), imageId)
      ensures settings == old(settings)
      ensures Valid()
    {
      images := WithoutId(images, imageId);
      forall k | 0 <= k < |images| ensures Decoded(images[k]) {
        WithoutIdMembers(old(images), imageId, images[k]);
      }
    }

    /**
     * `reorderImages`: when both ids are present, the dragged image is
     * spliced out and spliced in again at the target's original index;
     * otherwise nothing changes.
     */
    method ReorderImages(draggedId: ImageId, targetId: ImageId)
      requires Valid()
      modifies this
      ensures var d, t := FindIndex(old(images), draggedId), FindIndex(old(images), targetId);
        if d > -1 && t > -1 then images == Moved(old(images), d, t) else images == old(images)
      ensures settings == old(settings)
      ensures Valid()
    {
      var draggedIndex := FindIndex(images, draggedId);
      var targetIndex := FindIndex(images, targetId);
      if draggedIndex > -1 && targetIndex > -1 {
        ghost var before := images;
        var draggedImage := images[draggedIndex];
        images := images[..draggedIndex] + images[draggedIndex + 1..];
        images := images[..targetIndex] + [draggedImage] + images[targetIndex..];
        MovedIsPermutation(before, draggedIndex, targetIndex);
        forall k | 0 <= k < |images| ensures Decoded(images[k]) {
          assert images[k] in multiset(before);
        }
      }
    }

    /**
     * `calculateLayout`: the layout the setting names, with padding 40 and
     * gap 20; an unknown name gets the grid. `rand` is the stream of
     * `Math.random()` values the collage draws from.
     */
    method CalculateLayout(rand: nat -> real) returns (layout: Layout)
      requires Valid() && CollageLayout.IsUnitStream(rand)
      ensures LaidOut(images, settings, rand, layout)
      ensures KindOf(settings.layout) == Smart ==>
                && multiset(ImagesOf(layout.positions)) == multiset(images)
                && forall o :: SmartLayout.Select(ImagesOf(layout.positions), o) == SmartLayout.Select(images, o)
    {
      match KindOf(settings.layout)
      case Collage =>
        var placedRects;
        ghost var sizes, attempts, cursors;
        layout, placedRects, sizes, attempts, cursors := CollageLayout.CalculateCollageLayout(images, Padding, Gap, rand);
        assert CollageLayout.CollageOf(images, Padding, Gap, rand, layout, placedRects, sizes, attempts, cursors);
      case Smart =>
        layout := SmartLayout.CalculateSmartLayout(images, Padding, Gap);
      case Grid =>
        layout := GridLayout.CalculateGridLayout(images, settings.gridColumns, Padding, Gap);
    }

    /**
     * `generateCanvas` up to the painting: no canvas for an empty board,
     * otherwise the layout's size times the export multiplier.
     */
    method GenerateCanvas(isExport: bool, rand: nat -> real) returns (canvas: Option<Canvas>)
      requires Valid() && CollageLayout.IsUnitStream(rand)
      ensures canvas == None <==> |images| == 0
      ensures canvas.Some? ==> var c := canvas.value;
                && LaidOut(images, settings, rand, c.layout)
                && (c.width, c.height) == CanvasSize(c.layout, ExportMultiplier(isExport, settings.exportResolution))
      ensures canvas.Some? && !isExport ==>
                canvas.value.width == canvas.value.layout.width && canvas.value.height == canvas.value.layout.height
    {
      if |images| == 0 {
        return None;
      }
      var exportMultiplier := ExportMultiplier(isExport, settings.exportResolution);
      var layout := CalculateLayout(rand);
      var size := CanvasSize(layout, exportMultiplier);
      canvas := Some(Canvas(size.0, size.1, layout));
    }
  }
}
