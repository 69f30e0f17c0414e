/**
 * The collage layout: every image gets a random size and tilt, then up to 50
 * random positions are tried until one keeps clear of the images already
 * placed; after the 50th trial a slot of a square grid (with a little jitter)
 * is used instead. `Math.random()` is an injected stream of draws in [0,1).
 */
module CollageLayout {
  import opened Geometry
  import opened Assets
  import GridLayout

  const BaseSize: real := 160.0
  const MaxAttempts: nat := 50

  /** The k-th call of `Math.random()` returns `rand(k)`, always in [0,1). */
  ghost predicate IsUnitStream(rand: nat -> real) {
    forall k: nat :: 0.0 <= rand(k) < 1.0
  }

  /** The aspect correction `max(aspectRatio, 1)`: landscape images widen, others shrink in height. */
  function Stretch(img: ImageAsset): (m: real)
    requires Decoded(img)
    ensures m >= 1.0
  {
    Max(AspectRatio(img), 1.0)
  }

  /** The candidate rectangle of trial `a` (0-based) drawn from the stream starting at `cursor`. */
  function Trial(rand: nat -> real, cursor: nat, a: nat, w: real, h: real, padding: real): Rect {
    Rect(padding + rand(cursor + 2 * a) * (CanvasWidth - w - padding * 2.0),
         padding + rand(cursor + 2 * a + 1) * (CanvasHeight - h - padding * 2.0), w, h)
  }

  /** Trial `a`, grown by `gap`, hits a rectangle already placed. */
  predicate TrialHits(rand: nat -> real, cursor: nat, a: nat, w: real, h: real, padding: nat, gap: nat, placedRects: seq<Rect>) {
    HitsAny(Expand(Trial(rand, cursor, a, w, h, padding as real), gap as real), placedRects)
  }

  /**
   * The do-while of the placement step. Trials are drawn in order; the loop
   * stops at the first trial whose gap-expanded rectangle hits no placed
   * rectangle, or once 50 trials were drawn, whatever the 50th looked like.
   */
  method TrySpots(w: real, h: real, placedRects: seq<Rect>, padding: nat, gap: nat, rand: nat -> real, cursor: nat)
    returns (x: real, y: real, attempts: nat, next: nat)
    ensures 1 <= attempts <= MaxAttempts
    ensures next == cursor + 2 * attempts
    ensures Rect(x, y, w, h) == Trial(rand, cursor, attempts - 1, w, h, padding as real)
    ensures forall a: nat :: a < attempts - 1 ==>
              TrialHits(rand, cursor, a, w, h, padding, gap, placedRects)
    ensures attempts < MaxAttempts ==> !HitsAny(Expand(Rect(x, y, w, h), gap as real), placedRects)
  {
    attempts, next := 0, cursor;
    x, y := 0.0, 0.0;
    var again := true;
    while again
      invariant attempts <= MaxAttempts
      invariant next == cursor + 2 * attempts
      invariant again ==> attempts < MaxAttempts
      invariant !again ==> attempts >= 1
      invariant attempts >= 1 ==> Rect(x, y, w, h) == Trial(rand, cursor, attempts - 1, w, h, padding as real)
      invariant forall a: nat :: a < attempts - 1 ==>
                  TrialHits(rand, cursor, a, w, h, padding, gap, placedRects)
      invariant again && attempts >= 1 ==> HitsAny(Expand(Rect(x, y, w, h), gap as real), placedRects)
      invariant !again && attempts < MaxAttempts ==> !HitsAny(Expand(Rect(x, y, w, h), gap as real), placedRects)
      decreases MaxAttempts - attempts
    {
      x := padding as real + rand(next) * (CanvasWidth - w - padding as real * 2.0);
      y := padding as real + rand(next + 1) * (CanvasHeight - h - padding as real * 2.0);
      assert Rect(x, y, w, h) == Trial(rand, cursor, attempts, w, h, padding as real);
      next := next + 2;
      attempts := attempts + 1;
      if attempts < MaxAttempts {
        again := CheckOverlap(x, y, w, h, placedRects, gap as real);
      } else {
        again := false;
      }
    }
  }

  /** A trial rectangle that fits inside the padded canvas lands inside it. */
  lemma TrialInside(rand: nat -> real, cursor: nat, a: nat, w: real, h: real, padding: real)
    requires IsUnitStream(rand)
    requires w <= CanvasWidth - padding * 2.0 && h <= CanvasHeight - padding * 2.0
    ensures var r := Trial(rand, cursor, a, w, h, padding);
      padding <= r.x && r.x + w <= CanvasWidth - padding && padding <= r.y && r.y + h <= CanvasHeight - padding
  {
    var rx, ry := rand(cursor + 2 * a), rand(cursor + 2 * a + 1);
    assert 0.0 <= rx < 1.0 && 0.0 <= ry < 1.0;
    var spanX, spanY := CanvasWidth - w - padding * 2.0, CanvasHeight - h - padding * 2.0;
    FractionOfSpan(rx, spanX);
    FractionOfSpan(ry, spanY);
    assert Trial(rand, cursor, a, w, h, padding) == Rect(padding + rx * spanX, padding + ry * spanY, w, h);
  }

  /** `Math.ceil(Math.sqrt(n))`: the fallback grid's column count. */
  function CeilSqrt(n: nat): (c: nat)
    ensures n > 0 ==> c >= 1
  {
    RootFrom(n, 0, 0)
  }

  /** Counts `c` up from a start, carrying `sq == c * c` along, until the square reaches `n`. */
  function RootFrom(n: nat, c: nat, sq: nat): (r: nat)
    ensures r >= c && (sq < n ==> r > c)
    decreases n - sq
  {
    if sq >= n then c else RootFrom(n, c + 1, sq + 2 * c + 1)
  }

  /** The column count is the least `c` with `c * c >= n`. */
  lemma CeilSqrtIsCeiling(n: nat)
    ensures CeilSqrt(n) * CeilSqrt(n) >= n
    ensures CeilSqrt(n) == 0 || (CeilSqrt(n) - 1) * (CeilSqrt(n) - 1) < n
  {
    RootFromIsCeiling(n, 0, 0);
  }

  lemma {:induction false} RootFromIsCeiling(n: nat, c: nat, sq: nat)
    requires sq == c * c && (c == 0 || (c - 1) * (c - 1) < n)
    ensures var r := RootFrom(n, c, sq);
      r * r >= n && (r == 0 || (r - 1) * (r - 1) < n)
    decreases n - sq
  {
    if sq < n {
      assert sq + 2 * c + 1 == (c + 1) * (c + 1);
      RootFromIsCeiling(n, c + 1, sq + 2 * c + 1);
    }
  }

  /** Edge of a fallback cell: the padded width split over the columns, or the padded height over the rows, whichever is smaller. */
  function FallbackCellSize(n: nat, padding: nat): real
    requires n >= 1
  {
    var cols := CeilSqrt(n);
    Min((CanvasWidth - padding as real * 2.0) / cols as real,
        (CanvasHeight - padding as real * 2.0) / GridLayout.Rows(n, cols) as real)
  }

  /**
   * The fallback cell of image `i` of `n`: column `i % cols` and row `i / cols`
   * of a square grid of `cols = ceil(sqrt(n))` columns.
   */
  function FallbackSlot(i: nat, n: nat, padding: nat): (cell: Rect)
    requires i < n
  {
    var cols := CeilSqrt(n);
    Cell(i % cols, i / cols, FallbackCellSize(n, padding), padding as real)
  }

  /** The square cell at column `col` and row `row` of a grid of pitch `size` starting at `(origin, origin)`. */
  function Cell(col: nat, row: nat, size: real, origin: real): Rect {
    Rect(origin + col as real * size, origin + row as real * size, size, size)
  }

  /** A cell whose column and row are in range lies within the spans. */
  lemma CellInsideSpans(col: nat, row: nat, cols: nat, rows: nat, size: real, origin: real, spanW: real, spanH: real)
    requires col < cols && row < rows && 0.0 <= size && 0.0 <= spanW && 0.0 <= spanH
    requires size <= spanW / cols as real && size <= spanH / rows as real
    ensures var c := Cell(col, row, size, origin);
      origin <= c.x && c.x + c.width <= origin + spanW && origin <= c.y && c.y + c.height <= origin + spanH
  {
    CellWithin(col, cols, size, spanW);
    CellWithin(row, rows, size, spanH);
    RealMulMonotone(0.0, col as real, size);
    RealMulMonotone(0.0, row as real, size);
  }

  /** `k` cells of `span / count` units each, `k < count`, end within `span`. */
  lemma CellWithin(k: nat, count: nat, cell: real, span: real)
    requires k < count && 0.0 <= cell && 0.0 <= span && cell <= span / count as real
    ensures k as real * cell + cell <= span
  {
    var c := count as real;
    assert (span / c) * c == span;
    RealMulMonotone(cell, span / c, c);
    RealMulMonotone(k as real + 1.0, c, cell);
  }

  lemma RealMulMonotone(a: real, b: real, c: real)
    requires a <= b && 0.0 <= c
    ensures a * c <= b * c
  {
  }

  /** Every fallback cell lies inside the padded canvas. */
  lemma {:induction false} FallbackSlotInside(i: nat, n: nat, padding: nat)
    requires i < n && padding as real * 2.0 <= CanvasHeight
    ensures var cell := FallbackSlot(i, n, padding);
      && padding as real <= cell.x && cell.x + cell.width <= CanvasWidth - padding as real
      && padding as real <= cell.y && cell.y + cell.height <= CanvasHeight - padding as real
  {
    var cols := CeilSqrt(n);
    var rows := GridLayout.Rows(n, cols);
    GridLayout.RowsIsCeiling(n, cols);
    GridLayout.DivModBounds(i, cols, rows);
    var spanW, spanH := CanvasWidth - padding as real * 2.0, CanvasHeight - padding as real * 2.0;
    var byWidth, byHeight := spanW / cols as real, spanH / rows as real;
    assert 0.0 <= byWidth && 0.0 <= byHeight;
    var gridSize := FallbackCellSize(n, padding);
    assert gridSize == Min(byWidth, byHeight);
    assert i / cols < rows && 0.0 <= spanH && gridSize <= byHeight;
    CellInsideSpans(i % cols, i / cols, cols, rows, gridSize, padding as real, spanW, spanH);
  }

  /** A placement drawn with edge `size`: its extent, tilt and size range. */
  predicate Shaped(p: Placement, size: real)
    requires Decoded(p.image)
  {
    ShapeFits(p.width, p.height, p.rotation, p.image, size)
  }

  /**
   * Edge `size` in [128, 192), the extent `size * m` by `size / m` for the
   * aspect correction `m`, so that height <= size <= width, and a tilt in
   * [-7.5, 7.5) degrees.
   */
  predicate ShapeFits(width: real, height: real, rotation: real, image: ImageAsset, size: real)
    requires Decoded(image)
  {
    && 128.0 <= size < 192.0
    && width == size * Stretch(image) && height == size / Stretch(image)
    && 0.0 < height <= size <= width
    && -7.5 <= rotation < 7.5
  }

  /** A rectangle small enough for the padded canvas lies inside it. */
  predicate InsideWhenFits(r: Rect, padding: real) {
    r.width <= CanvasWidth - padding * 2.0 && r.height <= CanvasHeight - padding * 2.0 ==>
      padding <= r.x && r.x + r.width <= CanvasWidth - padding
      && padding <= r.y && r.y + r.height <= CanvasHeight - padding
  }

  /** The corner is within 10 units (jitter) of the cell's corner. */
  predicate NearCorner(r: Rect, cell: Rect) {
    cell.x - 10.0 <= r.x < cell.x + 10.0 && cell.y - 10.0 <= r.y < cell.y + 10.0
  }

  /** The edge drawn for an image: `160 * (0.8 + Math.random() * 0.4)`. */
  function SizeDraw(rand: nat -> real, k: nat): real {
    BaseSize * (0.8 + rand(k) * 0.4)
  }

  /** The tilt drawn for an image: `(Math.random() - 0.5) * 15` degrees. */
  function TiltDraw(rand: nat -> real, k: nat): real {
    (rand(k) - 0.5) * 15.0
  }

  /** The fallback spot: the cell's corner moved by `Math.random() * 20 - 10` along each axis. */
  function Jittered(cell: Rect, rand: nat -> real, k: nat, w: real, h: real): Rect {
    Rect(cell.x + rand(k) * 20.0 - 10.0, cell.y + rand(k + 1) * 20.0 - 10.0, w, h)
  }

  /** The draws the search for a spot consumes: two per trial, and two more for the jitter after the 50th. */
  function SpotDraws(attempts: nat): nat {
    2 * attempts + (if attempts == MaxAttempts then 2 else 0)
  }

  /**
   * The spot of image `i` of `n` after `attempts` trials drawn from `cursor`:
   * every trial before the last hit a recorded rectangle; the spot is the
   * last trial, which hits none, unless that was the 50th trial, in which
   * case it is the jittered fallback cell drawn next.
   */
  predicate SpotChosen(spot: Rect, attempts: nat, i: nat, n: nat, placedRects: seq<Rect>, padding: nat, gap: nat,
                       rand: nat -> real, cursor: nat)
    requires i < n
  {
    && 1 <= attempts <= MaxAttempts
    && (forall a: nat :: a < attempts - 1 ==>
          TrialHits(rand, cursor, a, spot.width, spot.height, padding, gap, placedRects))
    && (attempts < MaxAttempts ==>
          && spot == Trial(rand, cursor, attempts - 1, spot.width, spot.height, padding as real)
          && !TrialHits(rand, cursor, attempts - 1, spot.width, spot.height, padding, gap, placedRects))
    && (attempts == MaxAttempts ==>
          spot == Jittered(FallbackSlot(i, n, padding), rand, cursor + 2 * MaxAttempts, spot.width, spot.height))
  }

  /** The search's outcome is determined by the draws: the trial count and the spot are unique. */
  lemma SpotDetermined(s1: Rect, t1: nat, s2: Rect, t2: nat, i: nat, n: nat, placedRects: seq<Rect>,
                       padding: nat, gap: nat, rand: nat -> real, cursor: nat)
    requires i < n && s1.width == s2.width && s1.height == s2.height
    requires SpotChosen(s1, t1, i, n, placedRects, padding, gap, rand, cursor)
    requires SpotChosen(s2, t2, i, n, placedRects, padding, gap, rand, cursor)
    ensures t1 == t2 && s1 == s2
  {
    var w, h := s1.width, s1.height;
    ghost var last1 := TrialHits(rand, cursor, t1 - 1, w, h, padding, gap, placedRects);
    ghost var last2 := TrialHits(rand, cursor, t2 - 1, w, h, padding, gap, placedRects);
  }

  /**
   * Where a `w` by `h` image goes: the trials, then, after the 50th, the
   * fallback cell of image `i` of `n` moved by up to 10 units each way.
   */
  method FindSpot(w: real, h: real, i: nat, n: nat, placedRects: seq<Rect>, padding: nat, gap: nat,
                  rand: nat -> real, cursor: nat)
    returns (x: real, y: real, attempts: nat, next: nat)
    requires i < n
    requires IsUnitStream(rand)
    ensures SpotChosen(Rect(x, y, w, h), attempts, i, n, placedRects, padding, gap, rand, cursor)
    ensures next == cursor + SpotDraws(attempts)
    ensures 1 <= attempts <= MaxAttempts
    ensures attempts < MaxAttempts ==> !HitsAny(Expand(Rect(x, y, w, h), gap as real), placedRects)
    ensures attempts < MaxAttempts ==> InsideWhenFits(Rect(x, y, w, h), padding as real)
    ensures attempts == MaxAttempts ==> NearCorner(Rect(x, y, w, h), FallbackSlot(i, n, padding))
  {
    x, y, attempts, next := TrySpots(w, h, placedRects, padding, gap, rand, cursor);
    if attempts < MaxAttempts && w <= CanvasWidth - padding as real * 2.0
       && h <= CanvasHeight - padding as real * 2.0 {
      TrialInside(rand, cursor, attempts - 1, w, h, padding as real);
    }
    if attempts >= MaxAttempts {
      var cell := FallbackSlot(i, n, padding);
      var jx, jy := rand(next), rand(next + 1);
      assert 0.0 <= jx < 1.0 && 0.0 <= jy < 1.0;
      x := cell.x + jx * 20.0 - 10.0;
      y := cell.y + jy * 20.0 - 10.0;
      next := next + 2;
    }
  }

  /** The size and tilt draws of one image: two calls of `Math.random()` starting at `cursor`. */
  method DrawShape(image: ImageAsset, rand: nat -> real, cursor: nat)
    returns (size: real, itemWidth: real, itemHeight: real, rotation: real)
    requires Decoded(image)
    requires IsUnitStream(rand)
    ensures size == SizeDraw(rand, cursor) && rotation == TiltDraw(rand, cursor + 1)
    ensures ShapeFits(itemWidth, itemHeight, rotation, image, size)
  {
    var aspectRatio := AspectRatio(image);
    var sizeVariation := 0.8 + rand(cursor) * 0.4;
    size := BaseSize * sizeVariation;
    itemWidth := size * Max(aspectRatio, 1.0);
    itemHeight := size / Max(aspectRatio, 1.0);
    rotation := (rand(cursor + 1) - 0.5) * 15.0;
    assert 0.0 <= rand(cursor) < 1.0 && 0.0 <= rand(cursor + 1) < 1.0;
    ShapeBounds(size, Stretch(image));
  }

  /**
   * What the loop records for image `i` of `n`: the placement is shaped, the
   * trials stayed within 50, the recorded rectangle is the placement grown by
   * `gap` on every side, a found spot lies inside the padded canvas when the
   * image fits, and a fallback spot is near the corner of its grid cell.
   */
  predicate WellPlaced(p: Placement, size: real, tries: nat, rect: Rect, i: nat, n: nat, padding: nat, gap: nat) {
    && Decoded(p.image) && i < n
    && Shaped(p, size)
    && 1 <= tries <= MaxAttempts
    && rect == Expand(RectOf(p), gap as real)
    && (tries < MaxAttempts ==> InsideWhenFits(RectOf(p), padding as real))
    && (tries == MaxAttempts ==> NearCorner(RectOf(p), FallbackSlot(i, n, padding)))
  }

  /**
   * Placement `p` of image `i` of `n` is what the draws from `cursor` make
   * of it: edge and tilt from the first two draws, the extent from the edge
   * and the aspect correction, and the spot the trials (or the fallback)
   * choose against the rectangles recorded before it.
   */
  predicate Drawn(p: Placement, size: real, tries: nat, i: nat, n: nat, earlier: seq<Rect>, padding: nat, gap: nat,
                  rand: nat -> real, cursor: nat)
  {
    && Decoded(p.image) && i < n
    && size == SizeDraw(rand, cursor) && p.rotation == TiltDraw(rand, cursor + 1)
    && p.width == size * Stretch(p.image) && p.height == size / Stretch(p.image)
    && SpotChosen(RectOf(p), tries, i, n, earlier, padding, gap, rand, cursor + 2)
  }

  /**
   * The body of the per-image loop: draw size and tilt, find a spot, and
   * build the placement together with the gap-expanded rectangle the loop
   * records. A spot found by a trial keeps clear of every rectangle recorded
   * so far.
   */
  method PlaceImage(image: ImageAsset, i: nat, n: nat, placedRects: seq<Rect>, padding: nat, gap: nat,
                    rand: nat -> real, cursor: nat)
    returns (placement: Placement, placedRect: Rect, size: real, attempts: nat, next: nat)
    requires Decoded(image) && i < n
    requires IsUnitStream(rand)
    ensures placement.image == image
    ensures next == cursor + 2 + SpotDraws(attempts)
    ensures Drawn(placement, size, attempts, i, n, placedRects, padding, gap, rand, cursor)
    ensures WellPlaced(placement, size, attempts, placedRect, i, n, padding, gap)
    ensures attempts < MaxAttempts ==>
              forall j :: 0 <= j < |placedRects| ==> !Overlaps(Expand(RectOf(placement), gap as real), placedRects[j])
  {
    var itemWidth, itemHeight, rotation;
    size, itemWidth, itemHeight, rotation := DrawShape(image, rand, cursor);
    var x, y;
    x, y, attempts, next := FindSpot(itemWidth, itemHeight, i, n, placedRects, padding, gap, rand, cursor + 2);
    placement := Placement(x, y, itemWidth, itemHeight, rotation, image);
    assert RectOf(placement) == Rect(x, y, itemWidth, itemHeight);
    placedRect := Rect(x - gap as real, y - gap as real, itemWidth + gap as real * 2.0, itemHeight + gap as real * 2.0);
  }

  /**
   * The first `|positions|` images of `images` placed in index order, each
   * drawn from the stream at its cursor (the first at 0, each next one after
   * the draws of the one before) against the gap-expanded rectangles recorded
   * before it; a placement found by a trial overlaps none of them.
   */
  ghost predicate PlacedPrefix(images: seq<ImageAsset>, padding: nat, gap: nat, rand: nat -> real, positions: seq<Placement>,
                               placedRects: seq<Rect>, sizes: seq<real>, attempts: seq<nat>, cursors: seq<nat>)
  {
    && |positions| == |placedRects| == |sizes| == |attempts| <= |images| && |cursors| == |positions| + 1
    && cursors[0] == 0
    && (forall k :: 0 <= k < |positions| ==> cursors[k + 1] == cursors[k] + 2 + SpotDraws(attempts[k]))
    && (forall k :: 0 <= k < |positions| ==>
          && positions[k].image == images[k]
          && WellPlaced(positions[k], sizes[k], attempts[k], placedRects[k], k, |images|, padding, gap)
          && Drawn(positions[k], sizes[k], attempts[k], k, |images|, placedRects[..k], padding, gap, rand, cursors[k]))
    && (forall k, j :: 0 <= j < k < |positions| && attempts[k] < MaxAttempts ==>
          !Overlaps(Expand(RectOf(positions[k]), gap as real), placedRects[j]))
  }

  /**
   * The collage of `images`: an 800 by 600 canvas and one placement per
   * image, in index order, as `PlacedPrefix` describes them. `sizes` and
   * `attempts` are the drawn edges and trial counts, `cursors` where in the
   * stream each image's draws begin.
   */
  ghost predicate CollageOf(images: seq<ImageAsset>, padding: nat, gap: nat, rand: nat -> real, layout: Layout,
                            placedRects: seq<Rect>, sizes: seq<real>, attempts: seq<nat>, cursors: seq<nat>)
  {
    && layout.width == CanvasWidth && layout.height == CanvasHeight
    && ImagesOf(layout.positions) == images
    && PlacedPrefix(images, padding, gap, rand, layout.positions, placedRects, sizes, attempts, cursors)
  }

  /** The loop step: placing the next image as `PlaceImage` does extends the placed prefix. */
  lemma PlacedPrefixExtends(images: seq<ImageAsset>, padding: nat, gap: nat, rand: nat -> real, positions: seq<Placement>,
                            placedRects: seq<Rect>, sizes: seq<real>, attempts: seq<nat>, cursors: seq<nat>,
                            placement: Placement, placedRect: Rect, size: real, tries: nat, next: nat)
    requires PlacedPrefix(images, padding, gap, rand, positions, placedRects, sizes, attempts, cursors)
    requires |positions| < |images| && placement.image == images[|positions|]
    requires next == cursors[|positions|] + 2 + SpotDraws(tries)
    requires Drawn(placement, size, tries, |positions|, |images|, placedRects, padding, gap, rand, cursors[|positions|])
    requires WellPlaced(placement, size, tries, placedRect, |positions|, |images|, padding, gap)
    requires tries < MaxAttempts ==>
               forall j :: 0 <= j < |placedRects| ==> !Overlaps(Expand(RectOf(placement), gap as real), placedRects[j])
    ensures PlacedPrefix(images, padding, gap, rand, positions + [placement], placedRects + [placedRect],
                         sizes + [size], attempts + [tries], cursors + [next])
  {
    RecordedPrefixes(placedRects, placedRect);
  }

  /**
   * One placement per image, in index order. `placedRects` is the list of
   * gap-expanded rectangles the loop records; `sizes`, `attempts` and
   * `cursors` are the drawn edge lengths, the trial counts and where in the
   * stream each image's draws begin.
   */
  method CalculateCollageLayout(images: seq<ImageAsset>, padding: nat, gap: nat, rand: nat -> real)
    returns (layout: Layout, placedRects: seq<Rect>, ghost sizes: seq<real>, ghost attempts: seq<nat>,
             ghost cursors: seq<nat>)
    requires AllDecoded(images)
    requires IsUnitStream(rand)
    ensures CollageOf(images, padding, gap, rand, layout, placedRects, sizes, attempts, cursors)
    ensures layout.width == CanvasWidth && layout.height == CanvasHeight
    ensures ImagesOf(layout.positions) == images && |placedRects| == |images|
    ensures forall i :: 0 <= i < |images| ==> placedRects[i] == Expand(RectOf(layout.positions[i]), gap as real)
  {
    var n := |images|;
    var positions: seq<Placement> := [];
    placedRects, sizes, attempts := [], [], [];
    var cursor: nat := 0;
    cursors := [0];
    for i := 0 to n
      invariant |positions| == i && |cursors| == i + 1 && cursors[i] == cursor
      invariant PlacedPrefix(images, padding, gap, rand, positions, placedRects, sizes, attempts, cursors)
    {
      var placement, placedRect, size, tries, next;
      placement, placedRect, size, tries, next := PlaceImage(images[i], i, n, placedRects, padding, gap, rand, cursor);
      PlacedPrefixExtends(images, padding, gap, rand, positions, placedRects, sizes, attempts, cursors,
                          placement, placedRect, size, tries, next);
      positions := positions + [placement];
      placedRects := placedRects + [placedRect];
      sizes := sizes + [size];
      attempts := attempts + [tries];
      cursors := cursors + [next];
      cursor := next;
    }
    layout := Layout(CanvasWidth, CanvasHeight, positions);
    assert ImagesOf(positions) == images;
  }

  /** The same image drawn from the same cursor against the same recorded rectangles is placed the same way. */
  lemma PlacementDetermined(p1: Placement, p2: Placement, size1: real, size2: real, tries1: nat, tries2: nat,
                            i: nat, n: nat, earlier: seq<Rect>, padding: nat, gap: nat, rand: nat -> real, cursor: nat)
    requires p1.image == p2.image
    requires Drawn(p1, size1, tries1, i, n, earlier, padding, gap, rand, cursor)
    requires Drawn(p2, size2, tries2, i, n, earlier, padding, gap, rand, cursor)
    ensures p1 == p2 && size1 == size2 && tries1 == tries2
  {
    SpotDetermined(RectOf(p1), tries1, RectOf(p2), tries2, i, n, earlier, padding, gap, rand, cursor + 2);
  }

  /**
   * The collage is a function of the images and the stream: two collages of
   * the same images drawn from the same stream are the same layout.
   */
  lemma CollageDetermined(images: seq<ImageAsset>, padding: nat, gap: nat, rand: nat -> real,
                          l1: Layout, r1: seq<Rect>, s1: seq<real>, a1: seq<nat>, c1: seq<nat>,
                          l2: Layout, r2: seq<Rect>, s2: seq<real>, a2: seq<nat>, c2: seq<nat>)
    requires CollageOf(images, padding, gap, rand, l1, r1, s1, a1, c1)
    requires CollageOf(images, padding, gap, rand, l2, r2, s2, a2, c2)
    ensures l1 == l2
  {
    var n := |images|;
    PrefixesAgree(images, padding, gap, rand, l1.positions, r1, s1, a1, c1, l2.positions, r2, s2, a2, c2, n);
    assert l1.positions == l1.positions[..n] && l2.positions == l2.positions[..n];
  }

  /** Two placed prefixes of the same images and stream agree on their first `k` placements. */
  lemma {:induction false} PrefixesAgree(images: seq<ImageAsset>, padding: nat, gap: nat, rand: nat -> real,
                                         ps1: seq<Placement>, r1: seq<Rect>, s1: seq<real>, a1: seq<nat>, c1: seq<nat>,
                                         ps2: seq<Placement>, r2: seq<Rect>, s2: seq<real>, a2: seq<nat>, c2: seq<nat>,
                                         k: nat)
    requires PlacedPrefix(images, padding, gap, rand, ps1, r1, s1, a1, c1)
    requires PlacedPrefix(images, padding, gap, rand, ps2, r2, s2, a2, c2)
    requires k <= |ps1| && k <= |ps2|
    ensures ps1[..k] == ps2[..k] && r1[..k] == r2[..k] && c1[k] == c2[k]
  {
    if k > 0 {
      var i := k - 1;
      PrefixesAgree(images, padding, gap, rand, ps1, r1, s1, a1, c1, ps2, r2, s2, a2, c2, i);
      PrefixAt(images, padding, gap, rand, ps1, r1, s1, a1, c1, i);
      PrefixAt(images, padding, gap, rand, ps2, r2, s2, a2, c2, i);
      PlacementDetermined(ps1[i], ps2[i], s1[i], s2[i], a1[i], a2[i], i, |images|, r1[..i], padding, gap, rand, c1[i]);
      Snoc(ps1, i);
      Snoc(ps2, i);
      Snoc(r1, i);
      Snoc(r2, i);
    }
  }

  /** What a placed prefix says about its entry `i`. */
  lemma PrefixAt(images: seq<ImageAsset>, padding: nat, gap: nat, rand: nat -> real, positions: seq<Placement>,
                 placedRects: seq<Rect>, sizes: seq<real>, attempts: seq<nat>, cursors: seq<nat>, i: nat)
    requires PlacedPrefix(images, padding, gap, rand, positions, placedRects, sizes, attempts, cursors)
    requires i < |positions|
    ensures positions[i].image == images[i]
    ensures Drawn(positions[i], sizes[i], attempts[i], i, |images|, placedRects[..i], padding, gap, rand, cursors[i])
    ensures placedRects[i] == Expand(RectOf(positions[i]), gap as real)
    ensures cursors[i + 1] == cursors[i] + 2 + SpotDraws(attempts[i])
  {
    assert WellPlaced(positions[i], sizes[i], attempts[i], placedRects[i], i, |images|, padding, gap);
  }

  lemma Snoc<T>(xs: seq<T>, i: nat)
    requires i < |xs|
    ensures xs[..i + 1] == xs[..i] + [xs[i]]
  {
  }

  /** Recording one more rectangle leaves every earlier prefix as it was. */
  lemma RecordedPrefixes(placedRects: seq<Rect>, r: Rect)
    ensures (placedRects + [r])[..|placedRects|] == placedRects
    ensures forall k :: 0 <= k <= |placedRects| ==> (placedRects + [r])[..k] == placedRects[..k]
  {
  }

  /**
   * Two images of a collage whose later one found its spot by a trial keep
   * at least `2 * gap` apart on some axis, so in particular they do not overlap.
   */
  lemma CollageSpotsApart(layout: Layout, placedRects: seq<Rect>, sizes: seq<real>, attempts: seq<nat>,
                          padding: nat, gap: nat, i: nat, j: nat)
    requires |layout.positions| == |placedRects| == |sizes| == |attempts|
    requires forall k :: 0 <= k < |layout.positions| ==>
               WellPlaced(layout.positions[k], sizes[k], attempts[k], placedRects[k], k, |layout.positions|, padding, gap)
    requires forall k, l :: 0 <= l < k < |layout.positions| && attempts[k] < MaxAttempts ==>
               !Overlaps(Expand(RectOf(layout.positions[k]), gap as real), placedRects[l])
    requires j < i < |layout.positions| && attempts[i] < MaxAttempts
    ensures !Overlaps(RectOf(layout.positions[i]), RectOf(layout.positions[j]))
    ensures var a, b := RectOf(layout.positions[i]), RectOf(layout.positions[j]);
      a.x + a.width + 2.0 * gap as real <= b.x || b.x + b.width + 2.0 * gap as real <= a.x
      || a.y + a.height + 2.0 * gap as real <= b.y || b.y + b.height + 2.0 * gap as real <= a.y
  {
    var a, b := RectOf(layout.positions[i]), RectOf(layout.positions[j]);
    assert !Overlaps(Expand(a, gap as real), placedRects[j]);
    assert placedRects[j] == Expand(b, gap as real);
  }

  /** With `size > 0` and `m >= 1`: `size / m <= size <= size * m`, all positive. */
  lemma ShapeBounds(size: real, m: real)
    requires size > 0.0 && m >= 1.0
    ensures 0.0 < size / m <= size <= size * m
  {
    assert size * 1.0 <= size * m;
    assert (size / m) * m == size;
    assert (size / m) * 1.0 <= (size / m) * m;
  }
}
