/**
 * The smart layout: images are classed by aspect ratio, the three classes are
 * interleaved index by index (landscape, square, portrait), and the result is
 * packed into rows of height 160 that wrap before the right padding.
 */
module SmartLayout {
  import opened Geometry
  import opened Assets

  const BaseHeight: real := 160.0

  datatype Orientation = Landscape | Square | Portrait

  /** `aspectRatio > 1.2`, cross-multiplied: `5w > 6h`. */
  predicate IsLandscape(img: ImageAsset) {
    5 * img.width > 6 * img.height
  }

  /** `aspectRatio < 0.8`, cross-multiplied: `5w < 4h`. */
  predicate IsPortrait(img: ImageAsset) {
    5 * img.width < 4 * img.height
  }

  /** `0.8 <= aspectRatio <= 1.2`, cross-multiplied. */
  predicate IsSquare(img: ImageAsset) {
    4 * img.height <= 5 * img.width <= 6 * img.height
  }

  predicate HasOrientation(img: ImageAsset, o: Orientation) {
    match o
    case Landscape => IsLandscape(img)
    case Square => IsSquare(img)
    case Portrait => IsPortrait(img)
  }

  /** For a positive height, comparing `width / height` with `t` is comparing `width` with `t * height`. */
  lemma RatioAbove(w: real, h: real, ar: real, t: real)
    requires h > 0.0 && ar * h == w
    ensures ar > t <==> w > t * h
  {
    if ar > t {
      assert (ar - t) * h > 0.0;
    } else {
      assert (t - ar) * h >= 0.0;
    }
  }

  lemma RatioBelow(w: real, h: real, ar: real, t: real)
    requires h > 0.0 && ar * h == w
    ensures ar < t <==> w < t * h
  {
    if ar < t {
      assert (t - ar) * h > 0.0;
    } else {
      assert (ar - t) * h >= 0.0;
    }
  }

  /** The integer tests are the ratio comparisons the source makes on `width / height`. */
  lemma ClassesMatchRatio(img: ImageAsset)
    requires Decoded(img)
    ensures IsLandscape(img) <==> AspectRatio(img) > 1.2
    ensures IsPortrait(img) <==> AspectRatio(img) < 0.8
    ensures IsSquare(img) <==> 0.8 <= AspectRatio(img) <= 1.2
  {
    var w, h := img.width as real, img.height as real;
    AspectRatioScales(img);
    RatioAbove(w, h, AspectRatio(img), 1.2);
    RatioBelow(w, h, AspectRatio(img), 0.8);
  }

  /** Exactly one class holds for every image: the three filters partition the input. */
  lemma ExactlyOneClass(img: ImageAsset)
    ensures IsLandscape(img) || IsSquare(img) || IsPortrait(img)
    ensures !(IsLandscape(img) && IsSquare(img)) && !(IsLandscape(img) && IsPortrait(img))
    ensures !(IsSquare(img) && IsPortrait(img))
  {
  }

  /** `images.filter(...)` for one class, in input order. */
  function Select(images: seq<ImageAsset>, o: Orientation): (r: seq<ImageAsset>)
    ensures |r| <= |images|
  {
    if |images| == 0 then []
    else Select(images[..|images| - 1], o) + Slot(images[|images| - 1], o)
  }

  /** Appending one item extends each class's selection by that item or by nothing. */
  lemma SelectAppend(xs: seq<ImageAsset>, x: ImageAsset, o: Orientation)
    ensures Select(xs + [x], o) == Select(xs, o) + Slot(x, o)
  {
    assert (xs + [x])[..|xs|] == xs;
  }

  /** Every item of `xs` is of class `o`. */
  predicate AllOf(xs: seq<ImageAsset>, o: Orientation) {
    |xs| == 0 || (AllOf(xs[..|xs| - 1], o) && HasOrientation(xs[|xs| - 1], o))
  }

  lemma {:induction false} AllOfAt(xs: seq<ImageAsset>, o: Orientation, i: nat)
    requires AllOf(xs, o) && i < |xs|
    ensures HasOrientation(xs[i], o)
  {
    if i < |xs| - 1 {
      AllOfAt(xs[..|xs| - 1], o, i);
    }
  }

  /** The filter keeps only items of its class. */
  lemma {:induction false} SelectAllOf(images: seq<ImageAsset>, o: Orientation)
    ensures AllOf(Select(images, o), o)
  {
    if |images| > 0 {
      var front, last := images[..|images| - 1], images[|images| - 1];
      SelectAllOf(front, o);
      var r := Select(images, o);
      if HasOrientation(last, o) {
        assert r == Select(front, o) + [last];
        assert r[..|r| - 1] == Select(front, o);
      } else {
        assert r == Select(front, o) + [];
        assert r == Select(front, o);
      }
    }
  }

  lemma {:induction false} SelectConcat(a: seq<ImageAsset>, b: seq<ImageAsset>, o: Orientation)
    ensures Select(a + b, o) == Select(a, o) + Select(b, o)
  {
    if |b| == 0 {
      assert a + b == a;
      assert Select(a, o) + Select(b, o) == Select(a, o);
    } else {
      var front, last := b[..|b| - 1], b[|b| - 1];
      var tail := if HasOrientation(last, o) then [last] else [];
      calc {
        Select(a + b, o);
      == { assert b == front + [last]; assert a + b == (a + front) + [last]; }
        Select((a + front) + [last], o);
      == { SelectAppend(a + front, last, o); }
        Select(a + front, o) + tail;
      == { SelectConcat(a, front, o); }
        (Select(a, o) + Select(front, o)) + tail;
      == { SelectAppend(front, last, o); assert b == front + [last]; }
        Select(a, o) + Select(b, o);
      }
    }
  }

  /** The three classes together hold every input image exactly as often as the input does. */
  lemma {:induction false} SelectPartitions(images: seq<ImageAsset>)
    ensures multiset(Select(images, Landscape)) + multiset(Select(images, Square)) + multiset(Select(images, Portrait))
         == multiset(images)
  {
    if |images| > 0 {
      var front, last := images[..|images| - 1], images[|images| - 1];
      MultisetLast(images);
      SelectPartitions(front);
      SumOfThree(Select(front, Landscape), Select(front, Square), Select(front, Portrait),
                 Slot(last, Landscape), Slot(last, Square), Slot(last, Portrait));
      OneSlotEach(last);
    }
  }

  lemma MultisetLast(xs: seq<ImageAsset>)
    requires |xs| > 0
    ensures multiset(xs) == multiset(xs[..|xs| - 1]) + multiset([xs[|xs| - 1]])
  {
    assert xs == xs[..|xs| - 1] + [xs[|xs| - 1]];
  }

  /** The filter's verdict on one item: the item, or nothing. */
  function Slot(x: ImageAsset, o: Orientation): seq<ImageAsset> {
    if HasOrientation(x, o) then [x] else []
  }

  /** Exactly one of the three filters keeps a given item. */
  lemma OneSlotEach(x: ImageAsset)
    ensures multiset(Slot(x, Landscape)) + multiset(Slot(x, Square)) + multiset(Slot(x, Portrait)) == multiset([x])
  {
    ExactlyOneClass(x);
  }

  lemma SumOfThree<T>(a: seq<T>, b: seq<T>, c: seq<T>, x: seq<T>, y: seq<T>, z: seq<T>)
    ensures multiset(a + x) + multiset(b + y) + multiset(c + z)
         == (multiset(a) + multiset(b) + multiset(c)) + (multiset(x) + multiset(y) + multiset(z))
  {
  }

  /** `xs[i]` as a one-element list, or nothing once `xs` is exhausted (`if (xs[i])`). */
  function At(xs: seq<ImageAsset>, i: nat): seq<ImageAsset> {
    if i < |xs| then [xs[i]] else []
  }

  /** Round `i` of the mix: landscape, then square, then portrait. */
  function Round(l: seq<ImageAsset>, s: seq<ImageAsset>, p: seq<ImageAsset>, i: nat): seq<ImageAsset> {
    At(l, i) + At(s, i) + At(p, i)
  }

  /** The first `k` rounds of the mix, in order. */
  function Interleaved(l: seq<ImageAsset>, s: seq<ImageAsset>, p: seq<ImageAsset>, k: nat): seq<ImageAsset> {
    if k == 0 then [] else Interleaved(l, s, p, k - 1) + Round(l, s, p, k - 1)
  }

  function Prefix(xs: seq<ImageAsset>, k: nat): seq<ImageAsset> {
    if k <= |xs| then xs[..k] else xs
  }

  lemma PrefixStep(xs: seq<ImageAsset>, k: nat)
    requires k > 0
    ensures Prefix(xs, k) == Prefix(xs, k - 1) + At(xs, k - 1)
  {
    if k - 1 < |xs| {
      assert xs[..k] == xs[..k - 1] + [xs[k - 1]];
    }
  }

  lemma InterleavedStep(l: seq<ImageAsset>, s: seq<ImageAsset>, p: seq<ImageAsset>, k: nat)
    requires k > 0
    ensures Interleaved(l, s, p, k) == Interleaved(l, s, p, k - 1) + At(l, k - 1) + At(s, k - 1) + At(p, k - 1)
  {
  }

  lemma SelectRound(before: seq<ImageAsset>, a: seq<ImageAsset>, b: seq<ImageAsset>, c: seq<ImageAsset>, o: Orientation)
    ensures Select(before + a + b + c, o) == Select(before, o) + Select(a, o) + Select(b, o) + Select(c, o)
  {
    SelectConcat(before + a + b, c, o);
    SelectConcat(before + a, b, o);
    SelectConcat(before, a, o);
  }

  /** Slot `i` of a list of class `mine`, as seen by the filter for class `o`. */
  function OwnSlot(xs: seq<ImageAsset>, i: nat, mine: Orientation, o: Orientation): seq<ImageAsset> {
    if o == mine then At(xs, i) else []
  }

  lemma SelectAt(xs: seq<ImageAsset>, i: nat, mine: Orientation, o: Orientation)
    requires AllOf(xs, mine)
    ensures Select(At(xs, i), o) == OwnSlot(xs, i, mine, o)
  {
    if i < |xs| {
      AllOfAt(xs, mine, i);
      ExactlyOneClass(xs[i]);
      assert [xs[i]][..0] == [];
    }
  }

  /** The list of class `o` among the three. */
  function Pick(l: seq<ImageAsset>, s: seq<ImageAsset>, p: seq<ImageAsset>, o: Orientation): seq<ImageAsset> {
    match o
    case Landscape => l
    case Square => s
    case Portrait => p
  }

  /** Of the three slots of a round, only the one of class `o` survives the filter for `o`. */
  lemma OwnSlots(l: seq<ImageAsset>, s: seq<ImageAsset>, p: seq<ImageAsset>, i: nat, o: Orientation, sel: seq<ImageAsset>)
    ensures sel + OwnSlot(l, i, Landscape, o) + OwnSlot(s, i, Square, o) + OwnSlot(p, i, Portrait, o)
         == sel + At(Pick(l, s, p, o), i)
  {
    match o
    case Landscape =>
      assert sel + At(l, i) + [] + [] == sel + At(l, i);
    case Square =>
      assert sel + [] + At(s, i) + [] == sel + At(s, i);
    case Portrait =>
      assert sel + [] + [] + At(p, i) == sel + At(p, i);
  }

  /** Round `k - 1` adds to class `o`'s selection exactly that class's item of the round. */
  lemma SelectNextRound(l: seq<ImageAsset>, s: seq<ImageAsset>, p: seq<ImageAsset>, k: nat, o: Orientation)
    requires AllOf(l, Landscape) && AllOf(s, Square) && AllOf(p, Portrait)
    requires k > 0
    ensures Select(Interleaved(l, s, p, k), o) == Select(Interleaved(l, s, p, k - 1), o) + At(Pick(l, s, p, o), k - 1)
  {
    var i := k - 1;
    var before, a, b, c := Interleaved(l, s, p, i), At(l, i), At(s, i), At(p, i);
    calc {
      Select(Interleaved(l, s, p, k), o);
    == { InterleavedStep(l, s, p, k); }
      Select(before + a + b + c, o);
    == { SelectRound(before, a, b, c, o); }
      Select(before, o) + Select(a, o) + Select(b, o) + Select(c, o);
    == { SelectAt(l, i, Landscape, o); SelectAt(s, i, Square, o); SelectAt(p, i, Portrait, o); }
      Select(before, o) + OwnSlot(l, i, Landscape, o) + OwnSlot(s, i, Square, o) + OwnSlot(p, i, Portrait, o);
    == { OwnSlots(l, s, p, i, o, Select(before, o)); }
      Select(before, o) + At(Pick(l, s, p, o), i);
    }
  }

  /** Selecting class `o` from the first `k` rounds gives the first `k` of that class, in order. */
  lemma {:induction false} InterleavedSelect(l: seq<ImageAsset>, s: seq<ImageAsset>, p: seq<ImageAsset>, k: nat, o: Orientation)
    requires AllOf(l, Landscape) && AllOf(s, Square) && AllOf(p, Portrait)
    ensures Select(Interleaved(l, s, p, k), o) == Prefix(Pick(l, s, p, o), k)
  {
    if k > 0 {
      InterleavedSelect(l, s, p, k - 1, o);
      SelectNextRound(l, s, p, k, o);
      PrefixStep(Pick(l, s, p, o), k);
    }
  }

  function Max3(a: nat, b: nat, c: nat): (m: nat)
    ensures a <= m && b <= m && c <= m
  {
    if a >= b && a >= c then a else if b >= c then b else c
  }

  /**
   * The mix of a list: as many rounds as the longest class has images, each
   * round taking the next landscape, square and portrait image in turn.
   */
  function Mixed(images: seq<ImageAsset>): seq<ImageAsset> {
    Interleaved(Select(images, Landscape), Select(images, Square), Select(images, Portrait),
                Max3(|Select(images, Landscape)|, |Select(images, Portrait)|, |Select(images, Square)|))
  }

  /**
   * The mixing loop. The result is a permutation of the input that keeps
   * each class in input order.
   */
  method MixImages(images: seq<ImageAsset>) returns (mixed: seq<ImageAsset>)
    ensures mixed == Mixed(images)
    ensures forall o :: Select(mixed, o) == Select(images, o)
    ensures multiset(mixed) == multiset(images)
  {
    var landscape := Select(images, Landscape);
    var portrait := Select(images, Portrait);
    var square := Select(images, Square);
    var maxLength := Max3(|landscape|, |portrait|, |square|);
    mixed := [];
    for i := 0 to maxLength
      invariant mixed == Interleaved(landscape, square, portrait, i)
    {
      ghost var before := mixed;
      if i < |landscape| { mixed := mixed + [landscape[i]]; }
      assert mixed == before + At(landscape, i);
      if i < |square| { mixed := mixed + [square[i]]; }
      assert mixed == before + At(landscape, i) + At(square, i);
      if i < |portrait| { mixed := mixed + [portrait[i]]; }
      assert mixed == before + At(landscape, i) + At(square, i) + At(portrait, i);
      InterleavedStep(landscape, square, portrait, i + 1);
    }
    MixKeepsClasses(images, mixed, maxLength);
  }

  /** The finished mix holds each class in full and in input order, and so is a permutation of the input. */
  lemma MixKeepsClasses(images: seq<ImageAsset>, mixed: seq<ImageAsset>, maxLength: nat)
    requires maxLength == Max3(|Select(images, Landscape)|, |Select(images, Portrait)|, |Select(images, Square)|)
    requires mixed == Interleaved(Select(images, Landscape), Select(images, Square), Select(images, Portrait), maxLength)
    ensures forall o :: Select(mixed, o) == Select(images, o)
    ensures multiset(mixed) == multiset(images)
  {
    var l, s, p := Select(images, Landscape), Select(images, Square), Select(images, Portrait);
    SelectAllOf(images, Landscape);
    SelectAllOf(images, Square);
    SelectAllOf(images, Portrait);
    forall o ensures Select(mixed, o) == Select(images, o) {
      InterleavedSelect(l, s, p, maxLength, o);
      PickSelect(images, o);
      PrefixAll(Pick(l, s, p, o), maxLength);
    }
    SameSelectionsSameMultiset(mixed, images);
  }

  /** Picking class `o` among the three selections is selecting `o`. */
  lemma PickSelect(images: seq<ImageAsset>, o: Orientation)
    ensures var l, s, p := Select(images, Landscape), Select(images, Square), Select(images, Portrait);
      && Pick(l, s, p, o) == Select(images, o)
      && |Pick(l, s, p, o)| <= Max3(|l|, |p|, |s|)
  {
    match o
    case Landscape =>
    case Square =>
    case Portrait =>
  }

  lemma PrefixAll(xs: seq<ImageAsset>, k: nat)
    requires |xs| <= k
    ensures Prefix(xs, k) == xs
  {
    if k == |xs| {
      assert xs[..k] == xs;
    }
  }

  /** Two lists with the same three class selections are permutations of each other. */
  lemma SameSelectionsSameMultiset(a: seq<ImageAsset>, b: seq<ImageAsset>)
    requires forall o :: Select(a, o) == Select(b, o)
    ensures multiset(a) == multiset(b)
  {
    SelectPartitions(a);
    SelectPartitions(b);
  }

  /**
   * Placement of one packed image: 160 high, `160 * aspectRatio` wide, untilted,
   * right of the left padding and below the top padding, and either at the
   * start of its row or ending before the right padding.
   */
  predicate RowPlaced(p: Placement, padding: real)
    requires Decoded(p.image)
  {
    && p.height == BaseHeight && p.width == PackedWidth(p.image) && p.rotation == 0.0
    && padding <= p.x && padding <= p.y
    && (p.x == padding || p.x + p.width <= CanvasWidth - padding)
  }

  /** The width the packing loop gives an image: `160 * aspectRatio`. */
  function PackedWidth(img: ImageAsset): (w: real)
    requires Decoded(img)
    ensures w > 0.0
  {
    BaseHeight * AspectRatio(img)
  }

  /**
   * Placement `k` sits where the packing cursor puts it. The cursor starts at
   * `(padding, padding)` with an empty row, and after each image stands a gap
   * to its right on the same row, which is then 160 high. The image (as wide
   * as `RowPlaced` makes it) goes at the cursor when it ends within the right
   * padding; otherwise the row
   * wraps, and the image goes to the left padding, one row height and a gap
   * below the cursor.
   */
  predicate CursorStep(positions: seq<Placement>, k: nat, p: real, g: real)
    requires k < |positions|
  {
    var cur := positions[k];
    var x := if k == 0 then p else positions[k - 1].x + positions[k - 1].width + g;
    var y := if k == 0 then p else positions[k - 1].y;
    var rowHeight := if k == 0 then 0.0 else BaseHeight;
    if x + cur.width > CanvasWidth - p then cur.x == p && cur.y == y + rowHeight + g
    else cur.x == x && cur.y == y
  }

  /** Every placement sits where the packing cursor puts it. */
  predicate FollowsCursor(positions: seq<Placement>, p: real, g: real) {
    forall k {:trigger CursorStep(positions, k, p, g)} :: 0 <= k < |positions| ==> CursorStep(positions, k, p, g)
  }

  /** A placement at the cursor extends a list of placements that follow the cursor. */
  lemma FollowsCursorAppend(positions: seq<Placement>, c: Placement, p: real, g: real)
    requires FollowsCursor(positions, p, g)
    requires CursorStep(positions + [c], |positions|, p, g)
    ensures FollowsCursor(positions + [c], p, g)
  {
    forall k | 0 <= k < |positions| ensures CursorStep(positions + [c], k, p, g) {
      assert CursorStep(positions, k, p, g);
      assert (positions + [c])[k] == positions[k];
      assert k > 0 ==> (positions + [c])[k - 1] == positions[k - 1];
    }
  }

  /**
   * `q` lies behind the packing cursor `(x, y)`: in an earlier row (a full
   * row height and a gap above), or in the cursor's row ending a gap before it.
   */
  predicate Behind(q: Placement, x: real, y: real, gap: real) {
    q.y + BaseHeight + gap <= y || (q.y == y && q.x + q.width + gap <= x)
  }

  /** A placement behind the cursor does not overlap one placed at the cursor, and is not below it. */
  lemma BehindNoOverlap(q: Placement, r: Placement, gap: real)
    requires Behind(q, r.x, r.y, gap) && q.height == BaseHeight && gap >= 0.0
    ensures q.y <= r.y && !Overlaps(RectOf(q), RectOf(r))
  {
  }

  /**
   * A packed layout: 800 wide and at least 600 high; every placement is a
   * row placement, none overlaps a later one or lies below it, and each ends
   * at least `padding` above the bottom edge.
   */
  predicate RowsPacked(layout: Layout, padding: real) {
    && layout.width == CanvasWidth && layout.height >= CanvasHeight
    && (forall k :: 0 <= k < |layout.positions| ==>
          Decoded(layout.positions[k].image) && RowPlaced(layout.positions[k], padding))
    && (forall j, k :: 0 <= j < k < |layout.positions| ==>
          layout.positions[j].y <= layout.positions[k].y
          && !Overlaps(RectOf(layout.positions[j]), RectOf(layout.positions[k])))
    && (forall k :: 0 <= k < |layout.positions| ==> layout.positions[k].y + BaseHeight + padding <= layout.height)
  }

  /**
   * The canvas height after packing: the last row's bottom plus the padding
   * (twice the padding when nothing was placed), but never under 600.
   */
  function PackedHeight(positions: seq<Placement>, padding: real): real {
    if |positions| == 0 then Max(CanvasHeight, padding * 2.0)
    else Max(CanvasHeight, positions[|positions| - 1].y + BaseHeight + padding)
  }

  /** The row-packing loop over the mixed list. */
  method PackRows(mixed: seq<ImageAsset>, padding: nat, gap: nat) returns (layout: Layout)
    requires AllDecoded(mixed)
    ensures ImagesOf(layout.positions) == mixed
    ensures FollowsCursor(layout.positions, padding as real, gap as real)
    ensures RowsPacked(layout, padding as real)
    ensures layout.height == PackedHeight(layout.positions, padding as real)
  {
    var p, g := padding as real, gap as real;
    var currentX, currentY, rowHeight := p, p, 0.0;
    var positions: seq<Placement> := [];
    for k := 0 to |mixed|
      invariant |positions| == k
      invariant rowHeight == if k == 0 then 0.0 else BaseHeight
      invariant k == 0 ==> currentY == p
      invariant p <= currentX && p <= currentY
      invariant k > 0 ==> positions[k - 1].y == currentY
      invariant k > 0 ==> currentX == positions[k - 1].x + positions[k - 1].width + g
      invariant k == 0 ==> currentX == p
      invariant FollowsCursor(positions, p, g)
      invariant forall j :: 0 <= j < k ==> positions[j].image == mixed[j] && RowPlaced(positions[j], p)
      invariant forall j :: 0 <= j < k ==> Behind(positions[j], currentX, currentY, g)
      invariant forall i, j :: 0 <= i < j < k ==> Behind(positions[i], positions[j].x, positions[j].y, g)
    {
      var image := mixed[k];
      var imageWidth := PackedWidth(image);
      var imageHeight := BaseHeight;
      if currentX + imageWidth > CanvasWidth - p {
        currentX := p;
        currentY := currentY + rowHeight + g;
        rowHeight := 0.0;
      }
      var placement := Placement(currentX, currentY, imageWidth, imageHeight, 0.0, image);
      FollowsCursorAppend(positions, placement, p, g);
      positions := positions + [placement];
      currentX := currentX + imageWidth + g;
      rowHeight := Max(rowHeight, imageHeight);
    }
    layout := Layout(CanvasWidth, Max(CanvasHeight, currentY + rowHeight + p), positions);
    CursorPacks(positions, p, g, currentX, currentY, layout.height);
  }

  /**
   * Placements that lie behind the final cursor and behind one another form
   * a packed layout, once the canvas reaches a full row below the cursor.
   */
  lemma CursorPacks(positions: seq<Placement>, p: real, g: real, x: real, y: real, height: real)
    requires g >= 0.0 && height >= CanvasHeight
    requires forall j :: 0 <= j < |positions| ==> Decoded(positions[j].image) && RowPlaced(positions[j], p)
    requires forall j :: 0 <= j < |positions| ==> Behind(positions[j], x, y, g)
    requires forall i, j :: 0 <= i < j < |positions| ==> Behind(positions[i], positions[j].x, positions[j].y, g)
    requires |positions| > 0 ==> y + BaseHeight + p <= height
    ensures RowsPacked(Layout(CanvasWidth, height, positions), p)
  {
    forall j, k | 0 <= j < k < |positions|
      ensures positions[j].y <= positions[k].y && !Overlaps(RectOf(positions[j]), RectOf(positions[k]))
    {
      BehindNoOverlap(positions[j], positions[k], g);
    }
  }

  /**
   * The smart layout of `images`: the mix of the images, each placed where the
   * packing cursor puts it, packed into rows, with the height the packing
   * reaches.
   */
  predicate SmartOf(images: seq<ImageAsset>, padding: nat, gap: nat, layout: Layout) {
    && ImagesOf(layout.positions) == Mixed(images)
    && FollowsCursor(layout.positions, padding as real, gap as real)
    && RowsPacked(layout, padding as real)
    && layout.height == PackedHeight(layout.positions, padding as real)
  }

  /**
   * The smart layout: mix, then pack. The placements hold every input image
   * exactly once, each class in input order.
   */
  method CalculateSmartLayout(images: seq<ImageAsset>, padding: nat, gap: nat) returns (layout: Layout)
    requires AllDecoded(images)
    ensures SmartOf(images, padding, gap, layout)
    ensures multiset(ImagesOf(layout.positions)) == multiset(images)
    ensures forall o :: Select(ImagesOf(layout.positions), o) == Select(images, o)
  {
    var mixed := MixImages(images);
    PermutationDecoded(images, mixed);
    layout := PackRows(mixed, padding, gap);
  }

  /** A permutation of decoded images holds decoded images only. */
  lemma PermutationDecoded(images: seq<ImageAsset>, mixed: seq<ImageAsset>)
    requires AllDecoded(images) && multiset(mixed) == multiset(images)
    ensures AllDecoded(mixed)
  {
    forall k | 0 <= k < |mixed| ensures Decoded(mixed[k]) {
      assert mixed[k] in multiset(images);
    }
  }

  /**
   * The packing is determined by the list it packs: two row placements of
   * the same images that both follow the cursor are the same placements.
   */
  lemma PackingDetermined(a: seq<Placement>, b: seq<Placement>, p: real, g: real)
    requires ImagesOf(a) == ImagesOf(b)
    requires forall k :: 0 <= k < |a| ==> Decoded(a[k].image) && RowPlaced(a[k], p)
    requires forall k :: 0 <= k < |b| ==> Decoded(b[k].image) && RowPlaced(b[k], p)
    requires FollowsCursor(a, p, g) && FollowsCursor(b, p, g)
    ensures a == b
  {
    forall k | 0 <= k < |a| ensures a[k] == b[k] {
      PackingAgrees(a, b, p, g, k);
    }
  }

  lemma {:induction false} PackingAgrees(a: seq<Placement>, b: seq<Placement>, p: real, g: real, k: nat)
    requires ImagesOf(a) == ImagesOf(b) && k < |a|
    requires forall j :: 0 <= j < |a| ==> Decoded(a[j].image) && RowPlaced(a[j], p)
    requires forall j :: 0 <= j < |b| ==> Decoded(b[j].image) && RowPlaced(b[j], p)
    requires FollowsCursor(a, p, g) && FollowsCursor(b, p, g)
    ensures a[k] == b[k]
  {
    assert a[k].image == ImagesOf(a)[k] == ImagesOf(b)[k] == b[k].image;
    if k > 0 {
      PackingAgrees(a, b, p, g, k - 1);
    }
    StepAgrees(a, b, p, g, k);
  }

  /** The same image after the same placement (or at the start) goes to the same place. */
  lemma StepAgrees(a: seq<Placement>, b: seq<Placement>, p: real, g: real, k: nat)
    requires k < |a| && k < |b| && Decoded(a[k].image) && a[k].image == b[k].image
    requires RowPlaced(a[k], p) && RowPlaced(b[k], p)
    requires CursorStep(a, k, p, g) && CursorStep(b, k, p, g)
    requires k > 0 ==> a[k - 1] == b[k - 1]
    ensures a[k] == b[k]
  {
  }
}
