# Moodboard layout engine in Dafny

This project models the layout engine of the moodboard maker's `MoodboardCreator`
class (`script.js`). It also models the small pieces of logic around the engine:
the upload accept rule, the list edits of the image panel, the filter presets,
the cover-fit arithmetic used when an image is drawn, and the canvas size.

The modules follow the source:

- `Geometry` holds rectangles, the strict overlap test and `checkOverlap`.
- `Assets` holds the image records (`ImageAsset`), the placements and the layout
  result.
- `GridLayout` is the grid layout: 200×200 tiles and `ceil(n / cols)` rows.
- `CollageLayout` is the collage layout. It draws a random size and tilt, makes
  up to 50 random trials, and falls back to a square grid. `Math.random()` is an
  injected stream `rand: nat -> real` whose values lie in [0, 1).
- `SmartLayout` is the smart layout. It classifies images by aspect ratio,
  interleaves the classes (landscape, square, portrait) and packs rows 160 high.
- `Compositor` is the cover-fit scale and offsets of `drawSingleImage`.
- `Filters` is the preset table of `applyImageFilter`.
- `Intake` is the accept rule of `validateFile`.
- `Board` holds the class `MoodboardCreator`:
  - the `images` list and the `settings`;
  - `removeImage` and `reorderImages`;
  - the `calculateLayout` dispatch, with padding 40 and gap 20;
  - the canvas size computed by `generateCanvas`.

The grid, collage and smart loops and `checkOverlap` are imperative methods with
loop invariants. Each is proved against specification functions or predicates:
`GridOf`; `Trial`, `SpotChosen` and `CollageOf`; `Interleaved` and `Select`;
`FollowsCursor` and `RowsPacked`. The collage's contract fixes every draw it
takes from the stream, in the source's order. Lemmas show that each of these
specifications admits one layout only, so a layout is a function of the board,
its settings and the draws.
`removeImage` and `reorderImages` reassign the `images` field of the class.
The pure parts are functions with lemmas: cover-fit, sizing, `validateFile`, the
filter table and the dispatch.

The model keeps these behaviours of the code:

- Collage fallback. The fallback grid is used whenever the trial counter reaches
  50. The 50th trial is never tested for overlap, so a free 50th spot is
  discarded too. It is not only after 50 colliding trials.
- Collage separation. A trial is tested after growing it by `gap`, against
  rectangles that were themselves recorded grown by `gap`. Images placed by a
  trial therefore keep `2 * gap` apart on some axis (`CollageSpotsApart`), not
  `gap`.
- Collage bounds. An image wider than 720 (or taller than 520) gets a negative
  trial span and can land outside the padded canvas. Only images that fit are
  proved to lie inside (`InsideWhenFits`).
- Smart layout, wide first image. An image wider than 720 always sits at the
  start of its row and overhangs the right padding. When it is the first image,
  the wrap test also fires at `x = 40` and moves it down to `y = 40 + 0 + 20`.
  `RowPlaced` states the row rule as the code applies it: start of a row, or
  right edge at most 760.

## Model

| member | source | states |
|---|---|---|
| Geometry.Expand | script.js:448 | the grown rectangle's edges lie `margin` outside the original's on all four sides |
| Geometry.CheckOverlap | script.js:447-459 | returns true iff the margin-expanded rectangle strictly overlaps some placed rectangle (both axes, strict comparisons); false for an empty list |
| Geometry.SeparatedNotOverlapping | script.js:450-453 | rectangles separated (or only touching) along one axis do not overlap |
| Geometry.OverlapsSymmetric | script.js:450-453 | the overlap test is symmetric |
| Assets.AspectRatio | script.js:396 | the aspect ratio of a decoded image is positive |
| GridLayout.Rows | script.js:364 | at least one row for a non-empty board |
| GridLayout.RowsIsCeiling | script.js:364 | `rows` is `ceil(n / cols)`: `rows * cols >= n` and `(rows - 1) * cols < n` |
| GridLayout.CalculateGridLayout | script.js:362-384 | the loop builds exactly the closed-form grid `GridOf`: canvas `cols*200 + (cols-1)*gap + 2*padding` by the same in rows, tile `i` at column `i % cols`, row `i / cols` |
| GridLayout.GridKeepsOrder | script.js:371-381 | one 200×200 untilted tile per image, in input order |
| GridLayout.GridPositionClosedForm | script.js:372-375 | with padding 40 and gap 20, tile `i` is at `(40 + (i % cols)*220, 40 + (i / cols)*220)` |
| GridLayout.GridTilesInsideCanvas | script.js:364-375 | every tile lies inside the canvas, at least `padding` from each edge |
| GridLayout.GridTilesDisjoint | script.js:372-375 | tiles of two different indices do not overlap |
| GridLayout.ThreeSquaresInOneRow | script.js:362-384 | three images in three columns give a 720×280 canvas with tiles at x = 40, 260, 480 |
| CollageLayout.Stretch | script.js:402-403 | the aspect correction `max(aspectRatio, 1)` is at least 1 |
| CollageLayout.DrawShape | script.js:399-404 | the edge is `160 * (0.8 + r * 0.4)` and the tilt `(r' - 0.5) * 15` for the image's two draws `r`, `r'`; so the edge lies in [128, 192), the extent is `size*m` by `size/m` with `m = max(ar, 1)`, height <= size <= width, and the tilt lies in [-7.5, 7.5) |
| CollageLayout.TrySpots | script.js:409-414 | the do-while draws 1 to 50 trials, consuming two draws each; every trial before the last hits a placed rectangle; the last is free unless it is the 50th |
| CollageLayout.TrialInside | script.js:411-412 | a trial of an image that fits lies inside the padded 800×600 canvas |
| CollageLayout.CeilSqrt | script.js:418 | at least one fallback column for a non-empty board |
| CollageLayout.CeilSqrtIsCeiling | script.js:418 | the column count is `ceil(sqrt(n))`: the least `c` with `c*c >= n` |
| CollageLayout.FallbackSlotInside | script.js:417-422 | every fallback cell `(i % cols, i / cols)` of edge `min(720/cols, 520/rows)` lies inside the padded canvas |
| CollageLayout.FindSpot | script.js:406-425 | `SpotChosen`: every trial before the last hits a recorded rectangle; a count under 50 means the spot is the last trial and hits none; after the 50th trial the spot is the fallback cell jittered by the next two draws; the draws used are counted. A found spot lies inside the padded canvas when the image fits; a fallback spot is within 10 of its cell's corner |
| CollageLayout.SpotDetermined | script.js:409-425 | the trial count and the spot are fixed by the draws: two outcomes that both satisfy `SpotChosen` are equal |
| CollageLayout.PlaceImage | script.js:392-441 | one image's placement is `Drawn` from the stream at its cursor: edge and tilt from the first two draws, extent from the edge, spot as `SpotChosen` against the rectangles recorded so far; the recorded rectangle is the placement grown by `gap`; the cursor advances by the draws used |
| CollageLayout.CalculateCollageLayout | script.js:386-445 | `CollageOf`: canvas 800×600; one placement per image, in index order; image `i` is drawn at cursor `c[i]`, with `c[0] = 0` and each next cursor after the previous image's draws, against the rectangles recorded for images `0..i-1`; no placement found by a trial overlaps an earlier recorded rectangle |
| CollageLayout.PlacementDetermined | script.js:392-441 | one image drawn from the same cursor against the same recorded rectangles gets one placement, edge and trial count |
| CollageLayout.CollageDetermined | script.js:386-445 | the collage is a function of the images and the stream: two collages satisfying `CollageOf` for the same inputs are the same layout |
| CollageLayout.CollageSpotsApart | script.js:409-441 | two images, the later one placed by a trial, do not overlap and keep at least `2*gap` apart on some axis |
| SmartLayout.ClassesMatchRatio | script.js:465-471 | the integer class tests are exactly `ar > 1.2`, `ar < 0.8` and `0.8 <= ar <= 1.2` on the exact ratio |
| SmartLayout.ExactlyOneClass | script.js:469-471 | every image is in exactly one of the three classes |
| SmartLayout.Select | script.js:469-471 | a class filter is never longer than its input |
| SmartLayout.SelectAllOf | script.js:469-471 | a class filter keeps only images of its class |
| SmartLayout.SelectConcat | script.js:469-471 | filtering distributes over concatenation, so input order is kept |
| SmartLayout.SelectPartitions | script.js:469-471 | the three filters together partition the input: their multisets add up to the input's |
| SmartLayout.InterleavedSelect | script.js:484-488 | filtering class `o` out of the first `k` rounds gives the first `k` images of that class, in order |
| SmartLayout.MixImages | script.js:481-488 | the mix is round by round landscape, square, portrait; each class comes out whole and in input order; the mix is a permutation of the input |
| SmartLayout.MixKeepsClasses | script.js:481-488 | the finished interleaving has the same class selections as the input and is a permutation of it |
| SmartLayout.PackRows | script.js:476-515 | placements follow the mix, and each is 160 high, `160*ar` wide and untilted. `FollowsCursor`: the cursor starts at (padding, padding) and after each image stands `gap` to its right on the same row. An image goes at the cursor unless its right edge would pass `800 - padding`; then it goes to `x = padding`, a row height and a gap lower. `RowsPacked`: `y` never decreases and no two overlap. The height is `max(600, lastY + 160 + padding)`, or `max(600, 2*padding)` when empty |
| SmartLayout.PackingDetermined | script.js:490-515 | the packing is determined by the list it packs: two row placements of the same images that both follow the cursor are equal |
| SmartLayout.CursorPacks | script.js:490-515 | placements behind the packing cursor and behind one another form a packed layout |
| SmartLayout.CalculateSmartLayout | script.js:461-516 | `SmartOf`: the placements hold the mix of the images (round by round landscape, square, portrait), packed behind the cursor as `PackRows` states, with the height the packing reaches; hence a permutation of the images that keeps each class in input order |
| Compositor.CoverFit | script.js:633-637 | the scale is positive for a box with a positive side |
| Compositor.CoverFitCovers | script.js:633-637 | the drawn image covers the box, fits it exactly on at least one axis, keeps the aspect ratio, and is centred with non-positive offsets |
| Compositor.SquareInWideBox | script.js:633-637 | a 100×100 image in a 200×100 box is drawn 200×200 at offset (0, -50) |
| Filters.PresetOf | script.js:663-681 | a named preset is selected only by its own name |
| Filters.FilterFor | script.js:662-682 | the filter is `'none'` exactly when the name selects no preset |
| Filters.NameRoundTrip | script.js:663-681 | every preset's name selects that preset |
| Filters.UnknownNameIsUnfiltered | script.js:679-680 | a name outside the five presets gives `'none'` |
| Filters.CssFilterInjective | script.js:664-680 | different presets set different filter strings |
| Intake.ValidateFile | script.js:145-158 | accepted iff the type is one of the four image types and the size is at most 10 MiB; unsupported iff the type is not one of them; too large iff the type is supported and the size exceeds 10 MiB |
| Intake.PatternIsAllowList | script.js:147 | the anchored pattern matches exactly `image/jpeg`, `image/png`, `image/gif` and `image/webp` |
| Intake.SizeBoundary | script.js:153 | 10485760 bytes is accepted, 10485761 is too large |
| Intake.FormatCheckedFirst | script.js:147-156 | an unsupported type is reported as such whatever the size |
| Board.KindOf | script.js:350-359 | `collage` and `smart` select their layouts; every other name selects the grid |
| Board.WithoutId | script.js:214 | the filtered list is never longer |
| Board.WithoutIdMembers | script.js:214 | an image survives removal iff it was on the board and its id differs |
| Board.WithoutIdConcat | script.js:214 | removal works segment by segment, so survivors keep their relative order |
| Board.WithoutIdAbsent | script.js:214 | removing an id no image has changes nothing |
| Board.WithoutIdIdempotent | script.js:214 | removing the same id twice is removing it once |
| Board.FindIndex | script.js:221-222 | the first index whose id matches, or -1 when none does |
| Board.MovedPlacesDragged | script.js:225-226 | after the two splices the dragged image sits at the target index and the length is unchanged |
| Board.MovedKeepsOthers | script.js:225-226 | the other images keep their relative order |
| Board.MovedIsPermutation | script.js:225-226 | the reordered list is a permutation of the old one |
| Board.MovedInPlace | script.js:225-226 | dropping an image on itself changes nothing |
| Board.MovedUndone | script.js:225-226 | dragging back from the target index to the old index restores the list |
| Board.ExportNotSmaller | script.js:324-331 | an export at resolution 1 or more is at least the layout's size |
| Board.CanvasKeepsProportions | script.js:324-331 | the preview canvas is the layout's size; any canvas keeps the layout's proportions |
| Board.LayoutDetermined | script.js:346-360 | the layout is a function of the images, the settings and the draws: two layouts satisfying `LaidOut` for the same inputs are equal |
| Board.ThreeImageGridExport | script.js:321-331 | three images in a three-column grid, exported at resolution 2, give a 1440×560 canvas |
| Board.MoodboardCreator.constructor | script.js:3-18 | an empty board with the default settings (grid, 3 columns, no filter, resolution 1, no labels) |
| Board.MoodboardCreator.RemoveImage | script.js:213-214 | `images` becomes the entries whose id differs, in order; settings unchanged |
| Board.MoodboardCreator.ReorderImages | script.js:220-230 | if both ids are found, `images` becomes the dragged image moved to the target index; otherwise nothing changes |
| Board.MoodboardCreator.CalculateLayout | script.js:346-360 | `LaidOut`: with padding 40 and gap 20, `collage` gives `CollageOf` the images and the stream, `smart` gives `SmartOf` the images, and every other name gives the grid `GridOf` of the column setting; the smart result is a permutation keeping each class in order |
| Board.MoodboardCreator.GenerateCanvas | script.js:321-331 | no canvas for an empty board; otherwise the canvas holds the board's layout as `LaidOut` states it, and its size is that layout's size times the export multiplier, which is 1 for a preview |

## Left out

- Label drawing is left out: it only paints. In the code a label falls back to the image name only when the label input element is absent; an empty label draws nothing.
- DOM wiring, event listeners and the image-panel markup are left out. They have no logic to verify.
- `processFile` is left out: the FileReader and the image decoding are browser I/O. Images are taken as already decoded, with positive pixel sizes (`Decoded`).
- Ids come from `Date.now() + Math.random()`. They are treated as opaque numbers, and only equality is used. The loose `==` and `!=` in `removeImage` and `reorderImages` compare a string id with a number. It is modelled as equality, since a number's string form converts back to the same number.
- Painting is left out: backgrounds, gradients, textures, rounded clipping, rotation transforms, `drawImage`, the `filter` property's effect and the label band. These are calls into the 2D canvas API.
- `downloadMoodboard` and `generateFilename` are left out. They need Blob, URL and `Date`.
- Only the `Math.random()` draws are injected. The model consumes them in the source's order: size, tilt, two per trial, then two for the fallback jitter.
- The floating-point arithmetic of JavaScript is not modelled. Coordinates, sizes and ratios are exact reals. The smart classes compare integer cross-products (`5w > 6h`), which agree with the double comparisons for image sizes far beyond practical ones.
- The canvas `width` and `height` properties truncate to integers. This is not modelled: every layout here has whole-number extents.
- `Board.MoodboardCreator.Valid` assumes `gridColumns >= 1`. The column slider's bounds live in the page markup, which is not part of this model.
- Settings that only affect painting are not modelled: background, gradient and texture.
- Board.MoodboardCreator.GenerateCanvas: states the canvas's layout and size, not the drawing performed on the canvas.
- The smart layout draws each image from a copy that also carries `aspectRatio`. The model places the image record itself, because the ratio is derived from it.
