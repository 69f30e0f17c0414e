/** The grid layout: fixed 200x200 tiles, `cols` per row, in input order. */
module GridLayout {
  import opened Geometry
  import opened Assets

  const TileSize: int := 200

  /** Number of rows, `ceil(n / cols)`: the fewest rows of `cols` tiles that hold `n` images. */
  function Rows(n: nat, cols: nat): (rows: nat)
    requires cols >= 1
    ensures n >= 1 ==> rows >= 1
  {
    (n + cols - 1) / cols
  }

  lemma {:induction false} RowsIsCeiling(n: nat, cols: nat)
    requires cols >= 1
    ensures Rows(n, cols) * cols >= n
    ensures Rows(n, cols) == 0 || (Rows(n, cols) - 1) * cols < n
  {
    var q, r := (n + cols - 1) / cols, (n + cols - 1) % cols;
    assert n + cols - 1 == q * cols + r && 0 <= r < cols;
    assert q * cols >= n;
    if q > 0 {
      assert (q - 1) * cols == q * cols - cols;
    }
  }

  /** Canvas extent along one axis holding `k` tiles separated by `gap` inside `padding`. */
  function Extent(k: int, padding: nat, gap: nat): int {
    k * TileSize + (k - 1) * gap + padding * 2
  }

  /** The tile of the image at index `i`: column `i % cols`, row `i / cols`. */
  function Tile(i: nat, cols: nat, padding: nat, gap: nat, img: ImageAsset): Placement
    requires cols >= 1
  {
    var row, col := i / cols, i % cols;
    Placement((padding + col * (TileSize + gap)) as real, (padding + row * (TileSize + gap)) as real,
              TileSize as real, TileSize as real, 0.0, img)
  }

  /** The whole grid layout, as a value. */
  function GridOf(images: seq<ImageAsset>, cols: nat, padding: nat, gap: nat): Layout
    requires cols >= 1
  {
    Layout(Extent(cols, padding, gap) as real, Extent(Rows(|images|, cols), padding, gap) as real,
           seq(|images|, i requires 0 <= i < |images| => Tile(i, cols, padding, gap, images[i])))
  }

  /** Builds the positions one index at a time, as the source's loop does. */
  method CalculateGridLayout(images: seq<ImageAsset>, cols: nat, padding: nat, gap: nat)
    returns (layout: Layout)
    requires cols >= 1
    ensures layout == GridOf(images, cols, padding, gap)
  {
    var rows := Rows(|images|, cols);
    var width := cols * TileSize + (cols - 1) * gap + padding * 2;
    var height := rows * TileSize + (rows - 1) * gap + padding * 2;
    var positions: seq<Placement> := [];
    for i := 0 to |images|
      invariant |positions| == i
      invariant forall k :: 0 <= k < i ==> positions[k] == Tile(k, cols, padding, gap, images[k])
    {
      var row := i / cols;
      var col := i % cols;
      var x := padding + col * (TileSize + gap);
      var y := padding + row * (TileSize + gap);
      positions := positions + [Placement(x as real, y as real, TileSize as real, TileSize as real, 0.0, images[i])];
    }
    layout := Layout(width as real, height as real, positions);
  }

  /** The output lists one 200x200 tile per image, in input order. */
  lemma GridKeepsOrder(images: seq<ImageAsset>, cols: nat, padding: nat, gap: nat)
    requires cols >= 1
    ensures var g := GridOf(images, cols, padding, gap);
      && ImagesOf(g.positions) == images
      && forall i :: 0 <= i < |images| ==>
           g.positions[i].width == 200.0 && g.positions[i].height == 200.0 && g.positions[i].rotation == 0.0
  {
  }

  /** Tile `i` sits at column `i % cols` and row `i / cols` of a 220-unit pitch. */
  lemma GridPositionClosedForm(images: seq<ImageAsset>, cols: nat, i: nat)
    requires cols >= 1 && i < |images|
    ensures var p := GridOf(images, cols, 40, 20).positions[i];
      p.x == (40 + (i % cols) * 220) as real && p.y == (40 + (i / cols) * 220) as real
  {
  }

  /** Every tile lies inside the canvas, at least `padding` from each edge. */
  lemma {:induction false} GridTilesInsideCanvas(images: seq<ImageAsset>, cols: nat, padding: nat, gap: nat, i: nat)
    requires cols >= 1 && i < |images|
    ensures var g := GridOf(images, cols, padding, gap);
      var p := g.positions[i];
      && padding as real <= p.x && p.x + p.width <= g.width - padding as real
      && padding as real <= p.y && p.y + p.height <= g.height - padding as real
  {
    var n, rows, pitch := |images|, Rows(|images|, cols), TileSize + gap;
    var row, col := i / cols, i % cols;
    RowsIsCeiling(n, cols);
    DivModBounds(i, cols, rows);
    SlotWithin(col, cols, pitch, gap);
    SlotWithin(row, rows, pitch, gap);
    var p := GridOf(images, cols, padding, gap).positions[i];
    assert p == Tile(i, cols, padding, gap, images[i]);
  }

  /** The row and column of an index below `rows * cols` are in range. */
  lemma DivModBounds(i: nat, cols: nat, rows: nat)
    requires cols >= 1 && i < rows * cols
    ensures 0 <= i % cols < cols && i / cols < rows
  {
    var q := i / cols;
    assert i == q * cols + i % cols;
    if q >= rows {
      MulMonotone(rows, q, cols);
    }
  }

  /** Slot `k` of `count` ends within the extent of `count` tiles. */
  lemma SlotWithin(k: nat, count: nat, pitch: int, gap: nat)
    requires k < count && pitch == TileSize + gap
    ensures k * pitch + TileSize <= (count - 1) * pitch + TileSize
    ensures (count - 1) * pitch + TileSize == count * TileSize + (count - 1) * gap
  {
    MulMonotone(k, count - 1, pitch);
  }

  lemma MulMonotone(a: int, b: int, c: nat)
    requires a <= b
    ensures a * c <= b * c
  {
  }

  /** Slots `a < b` on a pitch of at least one tile are separated by at least one tile. */
  lemma PitchSeparated(a: int, b: int, pitch: int)
    requires a < b && pitch >= TileSize
    ensures a * pitch + TileSize <= b * pitch
  {
    MulMonotone(a + 1, b, pitch);
  }

  /** Two different indices get disjoint tiles (gaps are never negative). */
  lemma {:induction false} GridTilesDisjoint(images: seq<ImageAsset>, cols: nat, padding: nat, gap: nat, i: nat, j: nat)
    requires cols >= 1 && i < |images| && j < |images| && i != j
    ensures var ps := GridOf(images, cols, padding, gap).positions;
      !Overlaps(RectOf(ps[i]), RectOf(ps[j]))
  {
    var ps := GridOf(images, cols, padding, gap).positions;
    var pitch := TileSize + gap;
    var ri, ci, rj, cj := i / cols, i % cols, j / cols, j % cols;
    assert ps[i] == Tile(i, cols, padding, gap, images[i]);
    assert ps[j] == Tile(j, cols, padding, gap, images[j]);
    assert ri != rj || ci != cj by {
      assert i == ri * cols + ci;
      assert j == rj * cols + cj;
    }
    if ci < cj {
      PitchSeparated(ci, cj, pitch);
    } else if cj < ci {
      PitchSeparated(cj, ci, pitch);
    } else if ri < rj {
      PitchSeparated(ri, rj, pitch);
    } else {
      PitchSeparated(rj, ri, pitch);
    }
  }

  /**
   * Three 100x100 images in three columns: a 720x280 canvas holding one row,
   * tiles at x = 40, 260 and 480.
   */
  lemma ThreeSquaresInOneRow(a: ImageAsset, b: ImageAsset, c: ImageAsset)
    ensures var g := GridOf([a, b, c], 3, 40, 20);
      && g.width == 720.0 && g.height == 280.0
      && g.positions[0].x == 40.0 && g.positions[1].x == 260.0 && g.positions[2].x == 480.0
      && g.positions[0].y == 40.0 && g.positions[1].y == 40.0 && g.positions[2].y == 40.0
  {
    assert Rows(3, 3) == 1;
  }
}
