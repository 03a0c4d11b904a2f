# maker-panel, modelled in Dafny

maker-panel builds printed-circuit panels from a small spec language.
A spec such as `R<@(-2.5, -2.5), 5>(h3)` describes geometry: here, a 5×5 rectangle placed at (-2.5, -2.5) that carries a screw hole. A spec can use

- shapes: rectangles, circles, triangles and rail mounts;
- inner features carried by a shape: screw holes, smileys and solder points;
- composites that arrange shapes: tuples, which chain sideways; wraps, which place secondaries around a primary; columns; and arrays, which tile with score lines between the copies.

The library lowers a spec to a tree of features. From that tree it computes:

- the board outline;
- the interior atoms: drills, circles, rectangles and score lines;
- an Excellon drill file;
- a 3D extrusion of a triangulated outline;
- bitmap text labels.

The model follows the crate file by file.

- `Parser` is the nom grammar: one function per parser, over `string`. `ParserFacts` holds what the grammar promises.
- `Resolver` lowers the `AST` to features (`into_feature`) and runs the whole `build`. `ResolverFacts` holds what the resolver guarantees.
- `Features` is the feature algebra, one closed datatype whose trait methods are dispatch functions. `Atoms` holds the leaf atoms, `Inner` the inner features, and `Pos`, `Columns`, `Repeating` and `Unions` the layout arithmetic of `AtPos`, `Column`, `Tile` and the union fold.
- `FeatureFacts` and `FeatureLaws` state what each feature promises and the laws of the algebra. The main law: every feature moves as a whole under `translate`, except that the score lines of a moved tile stay where they were.
- `Panels.Panel` is the stateful `Panel` of lib.rs. It is a class with `features` and `convexHull`.
- `Tessellate` is `tessellate_3d` and `normals_from_tessellation`.
- `Text` is the bitmap font lookup and `blit_text`.
- `Drill` is the Excellon `serialize`, as a sequence of lines.

The polygon library is a parameter, `Geo.Kernel`: boolean union, rotation and the convex hull. Its assumed laws are stated as predicates and required where they are used. Coordinates are `real`.

## Model

| member | source | states |
|---|---|---|
| Columns.AllBounds | src/features/array.rs:49-63 | one box per child, in order |
| Columns.WidestIndex | src/features/array.rs:65-70 | the index picked is that of one of the boxes |
| Columns.WidestIndexIsLastWidest | src/features/array.rs:65-70 | `max_by` picks a box at least as wide as every box and strictly wider than every later box (the last of the widest wins) |
| Columns.LargestIsWidest | src/features/array.rs:49-70 | `largest` is the box of some child and no child's box is wider; a child without an outline counts as the zero rectangle |
| Columns.Translations | src/features/array.rs:72-109 | one translation per child, `None` exactly for the children without an outline |
| Columns.TranslationsScan | src/features/array.rs:83-94 | the running-offset `scan` computes the same translations as the closed form (child k moves down by the heights of children 0..k-1) |
| Columns.YOffsetMonotone | src/features/array.rs:83-94 | the stacking offset never decreases along the column |
| Columns.StackHeightNonNegative | src/features/array.rs:87-90 | each child adds a height of zero or more (zero without an outline) |
| Columns.Placed | src/features/array.rs:123-143 | one placed outline per child |
| Columns.PlacedBox | src/features/array.rs:95-104 | child i's box lands at its own height plus the offset, keeps its width, and is aligned with the widest box by min.x (Start), max.x (End) or centre (Center) |
| Columns.Stacked | src/features/array.rs:31-47 | children normalised to start at height 0 never overlap: each ends at or above the top of every later one (also src/features/array.rs:83-94) |
| Columns.OutlineNone | src/features/array.rs:123-158 | `edge_union` is `None` exactly when no child has an outline |
| Columns.OutlineIsBox | src/features/array.rs:145-154 | in bounding-box mode the outline is the rectangle of the bounding box of the placed children's union |
| Columns.LargestMotion | src/features/array.rs:65-70 | moving every child moves the widest box by the same vector |
| Columns.WidestIndexMotion | src/features/array.rs:65-70 | moving every box keeps the chosen index |
| Columns.YOffsetMotion | src/features/array.rs:83-94 | moving every child keeps every stacking offset |
| Columns.TranslationsMotion | src/features/array.rs:72-109 | moving every child keeps every translation (also src/features/array.rs:160-164) |
| Columns.PlacedMotion | src/features/array.rs:123-143 | moving every child moves every placed child by the same vector (also src/features/array.rs:160-164) |
| Columns.PlacedSolid | src/features/array.rs:123-143 | placed children still have boxes |
| Columns.OutlineMotion | src/features/array.rs:123-164 | `translate` (every child by v) moves the column's outline by v |
| Columns.InteriorFromMotion | src/features/array.rs:166-186 | moving each child's atoms by v moves the flattened interior by v when every child has a translation |
| Columns.InteriorMotion | src/features/array.rs:160-186 | `translate` moves every atom of the column's interior by v |
| Features.TranslateEach | src/features/array.rs:160-164 | the in-place loop that translates each child in turn leaves exactly every feature translated by v, in order (also src/features/negative.rs:73-77, src/features/rotate.rs:78-82) |
| Features.CircleRingLoop | src/features/circle.rs:68-81 | the outline loop pushes exactly the 361 points of the rightmost point turned by 0..360 degrees about the centre |
| Features.NormalizeLoop | src/features/array.rs:31-47 | the in-place loop of `Column::new` moves exactly the children with an outline by minus their box's lower corner and leaves the others |
| FeatureFacts.RectWithCenterBox | src/features/rect.rs:21-37 | `with_center(c, w, h)` spans c minus and plus half the size: centred on c, w wide, h high, no inner feature |
| FeatureFacts.RectWithInnerBox | src/features/rect.rs:44-49 | `with_inner` is the square (−1, −1)–(1, 1) with the inner feature untouched |
| FeatureFacts.RectDimensionsMoves | src/features/rect.rs:52-70 | `dimensions(c, w, h)` is the w × h rectangle about the origin, inner feature included, moved by c |
| FeatureFacts.RectBoundsIsDimensions | src/features/rect.rs:73-80 | `bounds(tl, br)` is `dimensions` at the centre and with the size of the box the corners span, so the inner feature moves to that centre |
| FeatureFacts.RectOutline | src/features/rect.rs:100-112 | a rectangle's outline is always one polygon whose box is the rectangle; no subtract geometry; interior is the inner feature's atoms |
| FeatureFacts.CircleConstructors | src/features/circle.rs:14-50 | `new` and `with_radius` have a `Unit` inner (the latter at the origin); `with_inner(i, c, r)` is `wrap_with_radius(i, r)` moved by c; `wrap_with_radius` stays at the origin |
| FeatureFacts.CircleOutline | src/features/circle.rs:68-81 | the outline is one polygon without holes whose exterior is exactly 361 points starting and ending at the rightmost point |
| FeatureFacts.CircleScrewHole | src/features/circle.rs:33-43 | for every diameter d, a circle around `ScrewHole::with_diameter(d)` emits four ring circles of radius d/2 + 0.3 on the pad layers and then the d/2 drill, all at the circle's centre (also src/features/circle.rs:88-90) |
| FeatureFacts.RightAngleCorners | src/features/triangle.rs:24-43 | `right_angle(w, h)` has corners (−w/2, −h/2), (−w/2, h/2), (w/2, h/2), a right angle at the second, and is flagged right-angled |
| FeatureFacts.TriangleWithInnerIsRight | src/features/triangle.rs:50-60 | `with_inner` has corners (−1, −1), (−1, 1), (1, 1) with the inner feature untouched |
| FeatureFacts.TriangleDimensionsMoves | src/features/triangle.rs:63-87 | `dimensions(c, w, h)` is the right-angled triangle about the origin, inner feature included, moved by c, and flagged right-angled |
| FeatureFacts.TriangleOutline | src/features/triangle.rs:120-132 | the outline is always the closed polygon of the three corners; no subtract geometry; interior is the inner feature's atoms |
| FeatureFacts.RMountNewBox | src/features/r_mount.rs:15-25 | `new(d)` spans x in [−3.15, 3.15] and y in [−d/2 − 1, d/2 + 1], faces up and keeps d |
| FeatureFacts.RMountDirectionKeeps | src/features/r_mount.rs:28-30 | `direction` changes only the direction and commutes with `translate` (also src/features/r_mount.rs:79-82) |
| FeatureFacts.RMountDrillFacts | src/features/r_mount.rs:84-125 | the interior is exactly four unplated drills of radius 0.15; facing up they sit at the centre plus (±3.08, ±1.32) |
| FeatureFacts.RMountUpOutline | src/features/r_mount.rs:44-53 | facing up, the outline is the mount's rectangle |
| FeatureFacts.RMountUpCut | src/features/r_mount.rs:55-77 | facing up, the subtract geometry is the channel (±1.65, from −d/2 − 1 to d/2) unioned with the nut pocket (±3.12, ±1.4) about the centre |
| FeatureFacts.RMountCutRects | src/features/r_mount.rs:55-68 | for a depth of at least −1 the channel and the nut pocket are normalised rectangles about the centre, and the cut is the union of the two |
| FeatureFacts.RMountCutBox | src/features/r_mount.rs:55-68 | the box of the mount's cut is the box spanning the channel and the nut pocket |
| FeatureFacts.UnitInert | src/features/unit.rs:14-40 | `Unit` has no outline, no subtract geometry, no interior, no named boxes, and translating it changes nothing, as feature and as inner feature |
| FeatureFacts.AtPosPushInterior | src/features/pos.rs:126-128 | `push` appends exactly one element and keeps the primary; the interior gains that element's atoms moved into place, nothing when it has no outline (also src/features/pos.rs:185-213) |
| FeatureFacts.AtPosPushOutline | src/features/pos.rs:126-128 | after `push`, the outline is the earlier placed union with the new element moved into place and unioned on, `None` when that is empty (also src/features/pos.rs:155-178) |
| FeatureFacts.AtPosNewIsPrimary | src/features/pos.rs:80-87 | `new` has no elements, and its interior and (non-empty) outline are the primary's |
| FeatureFacts.XEndsPlacement | src/features/pos.rs:53-77 | `x_ends` pushes left before right; the interior is the primary's atoms then each side's atoms moved so that its box is centred on the middle of the primary's left and right edge |
| FeatureFacts.XEndsInterior | src/features/pos.rs:53-77 | the interior of `x_ends` is the primary's atoms, then the left side's atoms moved by the left translation, then the right side's moved by the right one |
| FeatureFacts.XEndsExample | src/lib.rs:412-439 | a 2 × 3 rectangle at (4, 2) with a 1.0 screw-hole circle on each end has the left hole's five atoms at (3, 2) and the right hole's at (5, 2) |
| FeatureFacts.ExampleOffsets | src/lib.rs:412-439 | a secondary whose box is centred on the origin is moved by (3, 2) onto the left end and by (5, 2) onto the right end of the box from (3, 0.5) to (5, 3.5) |
| FeatureFacts.ColumnNewNormalizes | src/features/array.rs:31-47 | after `Column::new` every child keeps whether it has an outline, and the box of each that does starts at (0, 0) |
| FeatureFacts.ColumnNewStacks | src/features/array.rs:31-47 | in a column built by `new`, every child with an outline ends at or above where every later one starts (also src/features/array.rs:83-104) |
| FeatureFacts.NegativeNone | src/features/negative.rs:33-81 | a `Negative` has an outline exactly when some child has subtract geometry, subtract geometry exactly when some child has an outline, and no interior |
| FeatureFacts.NegativeOfRects | src/features/negative.rs:100-134 | two plain rectangles under `Negative` give no outline, and subtract the union of both, whose box is their join |
| FeatureFacts.NegativeRectsSubtract | src/features/negative.rs:100-134 | the subtract geometry of two negative rectangles is the second unioned onto the first |
| FeatureFacts.DoubleNegative | src/features/negative.rs:33-71 | a `Negative` of a `Negative` has the inner children's union as outline and their subtract union as subtract geometry |
| FeatureFacts.NegativeNamedInfos | src/features/negative.rs:84-91 | `named_info` of a `Negative` is its children's boxes concatenated in child order |
| FeatureFacts.RotateNone | src/features/rotate.rs:34-86 | a `Rotate` has an outline (subtract geometry) exactly when some child has one; no interior, no named boxes; translating keeps the angle |
| FeatureFacts.RotatedChildrenNone | src/features/rotate.rs:34-86 | the union of the rotated children's outlines (subtract geometries) is empty exactly when every child's is |
| FeatureFacts.NamedFacts | src/features/named.rs:34-67 | `Named` forwards outline, subtract geometry and interior; `named_info` is exactly one entry with its own name and the box of the wrapped outline, else subtract geometry, else the zero rectangle; a wrapped `Named`'s own entry is not included |
| FeatureFacts.NamedBoundsCases | src/features/named.rs:34-67 | the named box is the box of the outline when there is one, else of the subtract geometry, else the zero rectangle |
| FeatureLaws.ShapeSolid | src/features/rect.rs:100-102 | the outline and subtract geometry of a rectangle, circle, triangle, mount or `Unit` have a bounding box whenever present (also src/features/circle.rs:68-81, src/features/triangle.rs:120-122, src/features/r_mount.rs:44-77) |
| FeatureLaws.RMountSolid | src/features/r_mount.rs:44-77 | a mount's outline and cut both have a bounding box, whichever way it faces |
| FeatureLaws.RMountCutSolid | src/features/r_mount.rs:55-77 | the mount's cut always has a bounding box |
| FeatureLaws.AtPosSolid | src/features/pos.rs:155-178 | an `AtPos` whose parts have boxes has a box |
| FeatureLaws.ColumnSolid | src/features/array.rs:123-158 | a column whose children have boxes has a box |
| FeatureLaws.TileSolid | src/features/repeating.rs:47-92 | a tile of a feature with a box has a box |
| FeatureLaws.NegativeSolid | src/features/negative.rs:33-71 | a `Negative` whose children have boxes has a box |
| FeatureLaws.RotateKeepsSolid | src/features/rotate.rs:34-54 | rotating outlines keeps their boxes |
| FeatureLaws.RotateSolid | src/features/rotate.rs:34-76 | a `Rotate` whose children have boxes has a box |
| FeatureLaws.Solid | src/features.rs:87-101 | every outline and every subtract geometry any feature produces has a bounding box, so the `bounding_rect().unwrap()` calls on them cannot fail |
| FeatureLaws.RectMoves | src/features/rect.rs:104-112 | translating a rectangle moves its outline and interior by v |
| FeatureLaws.TriangleMoves | src/features/triangle.rs:124-132 | translating a triangle moves its outline and interior by v |
| FeatureLaws.CircleRingMoves | src/features/circle.rs:68-81 | the 361-point ring of a moved centre is the ring moved |
| FeatureLaws.CircleMoves | src/features/circle.rs:83-90 | translating a circle moves its outline and interior by v |
| FeatureLaws.TurnMoves | src/features/r_mount.rs:44-53 | turning the mount's geometry commutes with moving it |
| FeatureLaws.RMountCutMoves | src/features/r_mount.rs:55-77 | the cut of a moved mount is the cut moved |
| FeatureLaws.RMountDrillsMove | src/features/r_mount.rs:84-125 | the drills of a moved mount are the drills moved |
| FeatureLaws.RMountMoves | src/features/r_mount.rs:79-125 | `translate` (rect only) moves the mount's outline, cut and drills by v |
| FeatureLaws.AtPosMoves | src/features/pos.rs:180-213 | moving only the primary moves the whole `AtPos`: the outline, and, when the primary moves no score lines, the interior, secondaries included |
| FeatureLaws.OutlinesMove | src/features/array.rs:160-164 | moving each feature moves each outline and subtract geometry |
| FeatureLaws.InteriorsMove | src/features/array.rs:160-164 | moving each feature, none of which moves score lines, moves each interior |
| FeatureLaws.ColumnMoves | src/features/array.rs:123-186 | moving every child moves the column's outline by v, and its interior when no child moves score lines |
| FeatureLaws.TileMoves | src/features/repeating.rs:73-141 | moving the inner feature moves the tile's outline and cut by v, and its interior when the tile draws no score lines and the inner feature moves none |
| FeatureLaws.ScoredTileMotion | src/features/repeating.rs:94-141 | moving a tile that draws score lines leaves the score line after each copy exactly where it was |
| FeatureLaws.TileInteriors | src/features/repeating.rs:94-143 | a tile's interior, and a moved tile's, is the repetition of the interior of the feature it repeats, moved for the moved tile |
| FeatureLaws.NamedInfosAllMoves | src/features/negative.rs:84-91 | moving each child moves each named box |
| FeatureLaws.NegativeMoves | src/features/negative.rs:33-91 | moving every child moves a `Negative`'s outline, cut and named boxes by v |
| FeatureLaws.RotateOutlinesMoves | src/features/rotate.rs:34-54 | rotating moved outlines is moving rotated outlines |
| FeatureLaws.RotateMoves | src/features/rotate.rs:34-82 | moving every child moves a `Rotate`'s outline and cut by v |
| FeatureLaws.NamedMoves | src/features/named.rs:34-67 | moving the wrapped feature moves a `Named`'s geometry and its one named box by v |
| FeatureLaws.TranslateMoves | src/features.rs:79-107 | for every `Regular` feature, `translate(v)` moves its outline, subtract geometry and named boxes by v, and its interior atoms too when it reaches no tile that draws score lines (`Unscored`) |
| FeatureLaws.RegularTranslate | src/features.rs:79-107 | a `Regular` feature is still `Regular` after `translate` |
| FeatureLaws.TileRegularTranslate | src/features/repeating.rs:94-121 | a moved regular tile still has a box to step by |
| FeatureLaws.OutlinelessInert | src/features.rs:79-107 | a `Regular` feature without an outline has no interior atoms |
| FeatureLaws.TiledOutlined | src/features/repeating.rs:102-121 | the feature a regular tile repeats has an outline with a box, so the tile steps by the outline's box |
| Atoms.TranslateBounds | src/features.rs:190-236 | an atom's bounds after it is moved are its bounds moved; score lines keep having none |
| Atoms.TranslateTwice | src/features.rs:217-236 | moving an atom by u and then by v is moving it by u + v |
| Atoms.TranslateAllTwice | src/features.rs:217-236 | the same for every atom of a list |
| Atoms.TranslateAllAppend | src/features.rs:217-236 | moving two concatenated atom lists is concatenating the moved lists |
| Atoms.NameIndexDistinct | src/features.rs:50-52 | `name_index` keeps the old name as a prefix and the bounds, and two distinct indices give two distinct names |
| Atoms.AllBoundsTranslate | src/features.rs:190-215 | the joint bounding box of moved atoms is the joint box moved |
| Common.Offset | src/lib.rs:68-77 | the step for each direction puts the next copy flush against the edge of `bounds` in that direction, with no movement on the other axis |
| Inner.RectNewTranslate | src/features/mechanical_solder_point.rs:23-37 | building a normalised rectangle from moved corners is moving the rectangle |
| Inner.AtomsTranslate | src/features.rs:56-60 | for every inner feature (unit, screw hole, smiley, solder point), the atoms after `translate(v)` are the atoms moved by v |
| Inner.SmileyTranslate | src/features.rs:56-60 | the atoms of a moved smiley are its atoms moved |
| Inner.MspTranslate | src/features.rs:56-60 | the atoms of a moved solder point are its atoms moved |
| Inner.ScrewHoleAtoms | src/features/screw_hole.rs:14-81 | a screw hole of diameter d emits a ring of radius d/2 + 0.3 on each of the four copper and mask layers and then one drill of radius d/2, all at its centre |
| Inner.SmileyAtoms | src/features/smiley.rs:35-101 | a smiley emits, on the front legend, two eyes of radius 0.4 at its centre plus (-0.6, -0.6) and (0.6, -0.6), then the three mouth rectangles with their corners relative to the centre, normalised |
| Inner.MspAtoms | src/features/mechanical_solder_point.rs:16-88 | a solder point emits four copies of one pad of its size centred on it (one per copper and mask layer) and then a plated drill at its centre |
| Unions.FoldFromNone | src/lib.rs:132-146 | the fold from any accumulator gives nothing exactly when the accumulator and every outline are absent |
| Unions.FoldUnionNone | src/lib.rs:132-146 | the union fold gives no outline exactly when every folded outline is absent |
| Unions.FoldFromSolid | src/lib.rs:132-146 | folding outlines with bounding boxes onto one with a box keeps a box |
| Unions.FoldUnionSolid | src/lib.rs:132-146 | the union of outlines that all have boxes has a box |
| Unions.FoldFromMotion | src/lib.rs:132-146 | folding moved outlines onto a moved accumulator gives the moved fold |
| Unions.FoldUnionMotion | src/lib.rs:132-146 | the union of moved outlines is the union moved |
| Strings.NatToString | src/features.rs:50-52 | the decimal rendering of an index is a non-empty string of digits |
| Strings.NatToStringRoundTrip | src/features.rs:50-52 | reading a rendered number back as decimal digits gives the number |
| Strings.NatToStringInjective | src/features.rs:50-52 | two different numbers never render alike |
| Pos.TranslationLands | src/features/pos.rs:13-36 | after the computed move, a secondary's centre sits at the middle of the chosen side of the primary's box, shifted along that side by the offset |
| Pos.TranslationMotion | src/features/pos.rs:13-36 | moving the primary's box by v adds v to every computed translation |
| Pos.OutlineLoop | src/features/pos.rs:155-178 | the loop that moves each secondary with an outline into place and unions it on computes the placed outline |
| Pos.PlaceEmpty | src/features/pos.rs:159-171 | the placed union is empty exactly when the start and every secondary outline are empty or absent |
| Pos.OutlineNone | src/features/pos.rs:155-178 | `edge_union` is `None` exactly when neither the primary nor any secondary contributes a polygon |
| Pos.UnionBoxed | src/features/pos.rs:170 | a union of polygon sets that are each empty or boxed is empty or boxed |
| Pos.PlaceBoxed | src/features/pos.rs:164-171 | the placement loop keeps the union empty or boxed |
| Pos.OutlineSolid | src/features/pos.rs:155-178 | a placed outline that is present has a bounding box when every part does |
| Pos.PlaceMotion | src/features/pos.rs:164-171 | moving the start union and the reference box by v moves the placed union by v, secondaries unmoved |
| Pos.OutlineMotion | src/features/pos.rs:155-183 | moving only the primary moves the whole placed outline, because the secondaries are placed relative to its box |
| Pos.PlaceAtomsMotion | src/features/pos.rs:185-213 | moving the reference box moves all the placed secondaries' atoms |
| Pos.InteriorMotion | src/features/pos.rs:180-213 | moving only the primary moves every interior atom, the secondaries' included |
| Pos.PlaceAtomsSplit | src/features/pos.rs:194-210 | the placed atoms are those of the secondaries before secondary j, then secondary j's own, then those after it |
| Pos.PlaceAtomsAt | src/features/pos.rs:194-210 | a secondary with an outline contributes all its atoms, each moved by the translation that places its box, as one block right after the atoms of the secondaries before it |
| Repeating.RepeatLoop | src/features/repeating.rs:76-90 | the loop that unions copy i (i from 0 below `amt`, each moved i steps of the direction's offset) onto the start outline computes the repeated outline |
| Repeating.InteriorLoop | src/features/repeating.rs:98-143 | the nested loops that push every moved inner atom of each copy and then the score line where the source writes it compute the tile's interior |
| Repeating.PushMoved | src/features/repeating.rs:125-129 | the inner loop appends a clone of every inner atom moved by the copy's offset, in order, and nothing else |
| Repeating.CopiesCount | src/features/repeating.rs:122-140 | the first n copies hold n·(inner atoms) atoms plus one score line for each copy followed by another |
| Repeating.InteriorCount | src/features/repeating.rs:98-143 | the interior has `amt` times the inner atoms, plus `amt − 1` score lines when scoring |
| Repeating.CopiesPrefix | src/features/repeating.rs:122-140 | the output of fewer copies is a prefix of the output of more: copies are only appended |
| Repeating.CopyAt | src/features/repeating.rs:122-140 | copy i starts after i full strides and is the inner atoms moved i steps, followed by its score line unless it is the last |
| Repeating.CopiesAt | src/features/repeating.rs:122-140 | among all the copies, copy i sits right after i full strides |
| Repeating.CopiesStart | src/features/repeating.rs:122-140 | the first i copies take exactly i strides |
| Repeating.StrideStart | src/features/repeating.rs:122-140 | with score lines after every copy but the last, copy i starts at i · (atoms + 1) |
| Repeating.CopyAtomAt | src/features/repeating.rs:122-129 | atom j of copy i is inner atom j moved i steps of the tile box along the direction |
| Repeating.ScoreOnSharedEdge | src/features/repeating.rs:131-139 | the corrected score line after copy i lies on the edge copy i shares with copy i + 1, vertical for left and right, horizontal for up and down |
| Repeating.ScoreAt | src/features/repeating.rs:131-139 | the interior holds, right after copy i's atoms, the score line at i·offset plus half the box's width or height, for every copy but the last |
| Repeating.CorrectedScoreAt | src/features/repeating.rs:131-139 | the corrected interior holds, right after copy i's atoms, the score line on the edge copy i shares with copy i + 1 |
| Repeating.ScoreAsWrittenMissesEdge | src/features/repeating.rs:131-139 | as written, two 2×2 squares centred on the origin tiled to the left get their score line at x = 1, not on their shared edge x = −1 |
| Repeating.ScoreOnEdgeOfExample | src/features/repeating.rs:131-139 | the corrected score line of that tiling is x = −1 |
| Repeating.SharedEdgeOfExample | src/features/repeating.rs:111-139 | the two squares of that tiling meet at x = −1 |
| Repeating.ScoreAsWrittenIgnoresPosition | src/features/repeating.rs:131-139 | as written, a square from (0,0) to (2,2) tiled to the right gets its score line at x = 1, in the middle of the first copy |
| Repeating.ScoreFollowsPosition | src/features/repeating.rs:131-139 | the corrected score line of that tiling is x = 2, where the copies meet |
| Repeating.ScoreAsWrittenStaysPut | src/features/repeating.rs:94-139 | as written, moving a tile sideways does not move its score line by the same amount |
| Repeating.OutlineBasics | src/features/repeating.rs:73-92 | with no repetitions the tile's outline is the inner outline, and it is absent exactly when the inner outline is |
| Repeating.RepeatMotion | src/features/repeating.rs:76-90 | repeating a moved outline with the same step gives the repeated outline moved |
| Repeating.OutlineMotion | src/features/repeating.rs:73-96 | moving the inner outline moves the tile's outline by the same amount |
| Repeating.SubtractMotion | src/features/repeating.rs:47-71 | moving the inner outline and subtract geometry moves the tile's subtract geometry |
| Repeating.RepeatSolid | src/features/repeating.rs:76-90 | repeating an outline with a bounding box keeps a bounding box |
| Repeating.JoinStep | src/features/repeating.rs:80-88 | the running box of copies stepped by whole boxes is the box from the first copy to the latest |
| Repeating.RepeatBounds | src/features/repeating.rs:76-90 | the box of n ≥ 1 copies is the box spanning the first and the last copy |
| Repeating.RepeatStepBounds | src/features/repeating.rs:76-90 | the box of n copies joins the box of n − 1 copies and the box of the last copy |
| Repeating.RepeatOnceBounds | src/features/repeating.rs:76-90 | the box of one copy spans the inner box and its copy at step zero |
| Repeating.OutlineExtent | src/features/repeating.rs:73-92 | `amt ≥ 1` copies left or right span a box `amt` times as wide as the inner box and as high; up or down, `amt` times as high and as wide |
| Repeating.JoinExtent | src/lib.rs:68-77 | a box joined with its copy n − 1 steps along a direction spans n boxes along that direction |
| Repeating.ScoreMotion | src/features/repeating.rs:131-139 | the corrected score line of a moved box is the score line moved |
| Repeating.ScoreAsWrittenFixed | src/features/repeating.rs:131-139 | the source's score line depends only on the size of the box, so moving the box leaves it in place |
| Repeating.CopiesMotion | src/features/repeating.rs:122-140 | moving the inner atoms and the box moves every copy, when the score lines are the corrected ones or there are none |
| Repeating.CopyAtomsMotion | src/features/repeating.rs:122-140 | moving the inner atoms and the box moves copy i by the same vector, unless it ends in a score line as the source writes it |
| Repeating.InteriorMotion | src/features/repeating.rs:94-143 | moving the inner feature of a tile without score lines moves every atom of the tile's interior |
| Repeating.CorrectedInteriorMotion | src/features/repeating.rs:94-143 | with the corrected score lines, moving the inner feature moves every atom of the interior, score lines included |
| Repeating.MovedCopyAtomAt | src/features/repeating.rs:122-129 | moving the inner feature moves atom j of every copy by the same vector, score lines or not |
| Repeating.MovedScoreStaysPut | src/features/repeating.rs:131-139 | moving the inner feature leaves every score line of the interior where it was |
| Panels.Panel.New | src/lib.rs:94-102 | a new panel holds no features and has the hull switch off |
| Panels.Panel.WithCapacity | src/lib.rs:104-113 | a pre-sized panel is empty too, with the hull switch off; the capacity changes nothing observable |
| Panels.Panel.ConvexHull | src/lib.rs:115-118 | sets the hull switch and leaves the features alone |
| Panels.Panel.Push | src/lib.rs:120-123 | appends exactly the one feature and leaves the switch alone |
| Panels.Panel.PushSpec | src/lib.rs:125-129 | succeeds exactly when `parser::build` does, then appends the built features in order; on failure nothing is added and the failure is passed on |
| Panels.EdgeGeometryNone | src/lib.rs:131-164 | the panel has an outline exactly when one of its features has one, with or without the hull |
| Panels.HullIsOnePolygon | src/lib.rs:148-161 | with the hull switch on, a present outline is a single polygon with no holes whose exterior starts with the hull of the union's exterior points |
| Panels.EdgeGeometryPush | src/lib.rs:131-146 | without the hull, pushing a feature unions its outline onto the panel's as one more step of the fold |
| Panels.FoldFromSnoc | src/lib.rs:137-146 | folding one more outline is one more union step at the end |
| Panels.EdgePolyCases | src/lib.rs:166-181 | `edge_poly` fails with `NoFeatures` exactly when the outline is absent or has no polygons, succeeds exactly when it has one polygon (and returns it), and fails with a bad-geometry error exactly when it has more |
| Panels.HullAlwaysOk | src/lib.rs:148-181 | with the hull switch on, a panel where any feature has an outline always yields a board outline |
| Panels.OneRectPanel | src/lib.rs:131-181 | a panel of one rectangle has that rectangle's polygon as its board outline |
| Panels.InteriorGeometryAppend | src/lib.rs:183-191 | the interior of two feature lists is the first's interior followed by the second's |
| Panels.InteriorGeometryPush | src/lib.rs:183-191 | pushing a feature appends exactly its interior atoms |
| Panels.InteriorGeometryMotion | src/lib.rs:183-191 | moving every feature, when none reaches a tile with score lines, moves every interior atom of the panel |
| Panels.PanelMotion | src/lib.rs:131-191 | moving every feature of a panel without the hull moves its outline by v, and its interior atoms too when no feature reaches a tile with score lines |
| Panels.SpecPanelOutline | src/lib.rs:125-181 | a panel holding the non-empty result of `parser::build` has an outline, and with the hull switch on it always yields a board outline |
| Panels.FirstOutlinePanel | src/lib.rs:125-181 | a panel whose first feature has an outline has an outline, and with the hull switch on a board outline |
| Parser.TakeWhile | src/parser.rs:249-251 | splits the input into the longest prefix whose characters all satisfy the test and the rest, which starts with a character that fails it |
| Parser.Ws | src/parser.rs:246 | skipping blanks never lengthens the input and stops at the first non-blank |
| Parser.Tag | src/parser.rs:294 | `tag` succeeds exactly when the text starts with the tag, and leaves the text after it |
| Parser.TagNoCase | src/parser.rs:469 | `tag_no_case` succeeds exactly when the text starts with the tag up to letter case, and leaves the text after it |
| Parser.SkipTag | src/parser.rs:785 | an optional tag never lengthens the input |
| Parser.Ident | src/parser.rs:245-254 | `parse_ident` always succeeds, never reads forward past its input, and yields only letters, digits and underscores |
| Parser.Uint | src/parser.rs:256-270 | `parse_uint` never fails fatally; it succeeds exactly when the run of digits and minus signs after the blanks converts, yields that value, and has read at least one character |
| Parser.Float | src/parser.rs:272-289 | `parse_float` never fails fatally; it succeeds exactly when the run of digits, signs and points after the blanks converts, yields that value, and has read at least one character |
| Parser.Coords | src/parser.rs:291-301 | `parse_coords` never fails fatally and reads at least one character when it succeeds |
| Parser.PosFragment | src/parser.rs:361-366 | `@(x, y)`; after the `@` a coordinate pair is required (fatal otherwise); reads input when it succeeds |
| Parser.SizeFragment | src/parser.rs:371-381 | `size = (w, h)` or `s = (w, h)`; after the `=` the pair is required |
| Parser.RadiusFragment | src/parser.rs:382-392 | `radius = x` or `r = x`; after the `=` the number is required |
| Parser.RoundingFragment | src/parser.rs:393-403 | `round = x` or `r = x`; after the `=` the number is required |
| Parser.ExtraFragment | src/parser.rs:367-370 | a bare number; never fatal |
| Parser.FragmentP | src/parser.rs:415-442 | one fragment of a detail block, tried in the source's order, with its trailing blanks and comma; reads input when it succeeds |
| Parser.MoreFragments | src/parser.rs:414-461 | the repeating part of `fold_many1`: never fails recoverably, keeps every fragment already read and never lengthens the input |
| Parser.Fragments | src/parser.rs:414-461 | `fold_many1`: at least one fragment, absorbed in order from the default details |
| Parser.DetailsP | src/parser.rs:411-465 | `<fragments>`, the fragments required after the `<`, then an optional inner feature |
| Parser.SizedHole | src/parser.rs:308-310 | `h<number>` is a screw hole of that diameter |
| Parser.MspP | src/parser.rs:322-340 | `msp`, with the size rule applied to a detail block that parses and no size when none parses (the block is then left unread) |
| Parser.InnerP | src/parser.rs:303-320 | `(h<number>)`, `(h)` (diameter 3.1), `(smiley)` or `(msp…)` in that order; reads input when it succeeds |
| Parser.RectP | src/parser.rs:467-491 | `R<…>` gives a rectangle with the size rule applied: explicit size, else two bare numbers, else one used twice |
| Parser.CircleP | src/parser.rs:493-517 | `C<…>` gives a circle; a fatal failure when there is neither a radius nor exactly one bare number |
| Parser.TriangleP | src/parser.rs:519-544 | `T<…>` gives a triangle; the details are required after the `T` and a missing size is fatal |
| Parser.MountKeyword | src/parser.rs:548-552 | the mount keywords, longest first, name Left, Right and Up, never Down |
| Parser.RMountP | src/parser.rs:546-576 | a mount needs details with exactly one bare number (fatal otherwise); its direction is never Down, because no keyword the parser accepts maps to it |
| Parser.DirectionSuffix | src/parser.rs:586 | `; <letter>` yields one of the four direction letters |
| Parser.VScoreSuffix | src/parser.rs:587-592 | `; vscore` or `; v-score` |
| Parser.ArrayParams | src/parser.rs:584-593 | a count, an optional direction and an optional score flag; reads input when it succeeds |
| Parser.ArrayP | src/parser.rs:578-627 | `[n; d; vscore] feature` gives an array of a well-formed feature, direction Right unless a letter is given |
| Parser.AtCoords | src/parser.rs:641 | `@(x, y)` after the column's alignment |
| Parser.ColumnAlign | src/parser.rs:636-640 | `left`, `center` or `right` |
| Parser.ColumnHead | src/parser.rs:633-643 | `column <align> [@(x, y)] {` |
| Parser.ColumnP | src/parser.rs:629-671 | a column of at least one well-formed feature, with the alignment keyword and optional position |
| Parser.AlignClause | src/parser.rs:687-696 | `align center/exterior/interior`, giving Center, End and Start |
| Parser.Side | src/parser.rs:676-683 | the sides of a position spec; `top` means up and `bottom` down |
| Parser.PosSpecP | src/parser.rs:673-725 | `side [offset] [align …] =>`, offset 0 and alignment Center by default |
| Parser.WrapP | src/parser.rs:727-771 | `wrap (feature) with { … }` gives a wrap with at least one element, every feature well-formed |
| Parser.WrapItem | src/parser.rs:746-755 | one `spec => feature` element with its trailing comma |
| Parser.WrapItems | src/parser.rs:745-762 | `fold_many1` over the elements: at least one, all well-formed |
| Parser.MoreWrapItems | src/parser.rs:745-762 | further elements are only appended to those already read |
| Parser.AssignP | src/parser.rs:773-788 | `let name = feature [;]` gives an assignment whose name is made of identifier characters |
| Parser.VarP | src/parser.rs:790-794 | `$name` gives a variable reference whose name is made of identifier characters |
| Parser.CommentP | src/parser.rs:796-801 | `#` to the end of the line: the comment holds no line break and the rest starts at the line break if any |
| Parser.TupleP | src/parser.rs:803-818 | `(feature, …)` gives a tuple of at least one well-formed feature |
| Parser.GeoItems | src/parser.rs:647-654 | `fold_many1` over features with optional separating commas: at least one, all well-formed (also src/parser.rs:806-813) |
| Parser.MoreGeoItems | src/parser.rs:647-654 | further features are only appended to those already read |
| Parser.GeoP | src/parser.rs:820-834 | the eleven item kinds in the source's order; every parsed item is well-formed and reads input |
| Parser.Items | src/parser.rs:840 | `many0(parse_geo)` never fails recoverably and yields only well-formed items |
| Parser.Spec | src/parser.rs:840 | `all_consuming`: success leaves nothing unread and yields only well-formed items |
| ParserFacts.AbsorbAllSnoc | src/parser.rs:437-458 | absorbing one more fragment is one more step of the fold at the end |
| ParserFacts.ExtrasSnoc | src/parser.rs:456 | the bare numbers of one more fragment are appended after the earlier ones |
| ParserFacts.FoldFields | src/parser.rs:416-458 | after the fold, position, size, radius and rounding are those of the last fragment naming them, the bare numbers are all of them in order, and the inner feature is untouched |
| ParserFacts.DetailSize | src/parser.rs:472-480 | the size of a rectangle (and of a solder point) is the last explicit size, else the two bare numbers, else the one bare number twice, else none |
| ParserFacts.DetailRadius | src/parser.rs:498-507 | the radius of a circle is the last explicit radius, else the one bare number, else none |
| ParserFacts.WsIdempotent | src/parser.rs:246 | skipping blanks twice is skipping them once |
| ParserFacts.WsNoSpace | src/parser.rs:246 | text that starts with a non-blank is left as it is |
| ParserFacts.NotEarlierItems | src/parser.rs:820-834 | an item starting with a letter other than `l`, `r` or `[` is not an assignment, an array or a rectangle |
| ParserFacts.GeoFatal | src/parser.rs:820-834 | once the earlier alternatives fail recoverably, a fatal circle, triangle or mount failure is fatal for the item and rejects the whole spec |
| ParserFacts.CircleNeedsRadius | src/parser.rs:493-517 | a circle whose details have neither a radius nor exactly one bare number, or whose details fail fatally, rejects the whole spec (the `C<a>` test of src/parser.rs:1189-1193) |
| ParserFacts.TriangleNeedsSize | src/parser.rs:519-544 | after the `T` of a triangle, details that do not parse or give no size reject the whole spec (the `T<a>` test) |
| ParserFacts.MountNeedsDepth | src/parser.rs:546-562 | a mount cut whose details do not hold exactly one bare number rejects the whole spec |
| ParserFacts.EmptyRectFails | src/parser.rs:414-416 | a detail block needs at least one fragment after the cut `<`: `R<>` is a fatal parse failure, and the spec holding it is rejected |
| ParserFacts.InnerDefaultHole | src/parser.rs:309-311 | `(h)` is a screw hole of diameter 3.1 |
| ParserFacts.InnerSizedHole | src/parser.rs:308-310 | `(h<d>)` is a screw hole of diameter d |
| ParserFacts.InnerSmiley | src/parser.rs:312 | `(smiley)` is a smiley |
| ParserFacts.PlainMsp | src/parser.rs:322-340 | `msp` without a following detail block is a solder point of no given size, and nothing after `msp` is read |
| ParserFacts.InnerPlainMsp | src/parser.rs:303-340 | `(msp)` is a solder point of no given size (the test at src/parser.rs:966-987) |
| Resolver.LowerInner | src/parser.rs:43-57 | `(h<d>)` lowers to a screw hole of diameter d, `(smiley)` to the default smiley, `(msp…)` to a solder point of the given size or the default one |
| Resolver.WrapLoop | src/parser.rs:203-209 | the `Wrap` arm's loop, pushing each lowered element onto `AtPos::new` of the lowered primary and stopping at the first failure, computes the wrap's lowering |
| Resolver.TupleLoop | src/parser.rs:210-231 | the `Tuple` arm's loop, reassigning `out` once per item, and its final `unwrap` compute the tuple's lowering, an empty tuple being the panic |
| Resolver.ResolverContext.Default | src/parser.rs:17-20 | a new context has no definitions |
| Resolver.ResolverContext.HandleAssignment | src/parser.rs:22-26 | a `let` sets its name to the new description and leaves every other definition alone |
| Resolver.AfterAfter | src/parser.rs:849-861 | collecting features after two runs is collecting after their concatenation |
| Resolver.BuildLoop | src/parser.rs:849-861 | the loop over the parsed items, recording each `let` in the context, skipping comments and lowering everything else until the first failure, computes `build` |
| Resolver.BuildSpec | src/parser.rs:838-862 | `build` parses the whole spec (a parse error otherwise) and then runs that loop |
| ResolverFacts.LowerAllSpec | src/parser.rs:176-194 | `collect` over lowered items succeeds exactly when every item lowers, then yields them in order; otherwise it fails as the first failing item does |
| ResolverFacts.LowerAllValues | src/parser.rs:176-194 | `collect` succeeds exactly when every item lowers, and then yields each item's feature in order |
| ResolverFacts.LowerAllFailure | src/parser.rs:176-194 | a failing `collect` fails as its first failing item does, every item before it having lowered |
| ResolverFacts.ChainSpine | src/parser.rs:210-231 | the chain of a tuple loses no item and keeps their order: the items can be read back from its nesting |
| ResolverFacts.LinkAllChain | src/parser.rs:213-228 | linking further items onto a chain gives the chain of all the items |
| ResolverFacts.LowerTupleSteps | src/parser.rs:210-229 | the tuple loop links the lowered items when all lower and fails as the first failing item otherwise |
| ResolverFacts.TupleIsChain | src/parser.rs:210-231 | a tuple of n ≥ 1 items lowers to the left-nested chain of its lowered items, each link putting the next one to the right with no adjustment; it fails as the first failing item and panics when empty |
| ResolverFacts.LowerWrapSteps | src/parser.rs:204-207 | the wrap loop keeps the primary and the elements already pushed and appends each lowered element with its position |
| ResolverFacts.WrapLowering | src/parser.rs:203-209 | a wrap lowers to its lowered primary with every lowered element at its position, in the order written, and is built exactly when the primary and every element are |
| ResolverFacts.RectLowering | src/parser.rs:112-137 | a rectangle without an inner feature is centred on its position (the origin without one, (−1, −1) when neither position nor size is given) and is as wide and high as its size, 2 by 2 by default |
| ResolverFacts.BareRectSquare | src/parser.rs:135 | a rectangle whose details give neither position nor size, such as `R<1, 2, 3>`, is the square from (−2, −2) to (0, 0) |
| ResolverFacts.BuildFromAppend | src/parser.rs:849-861 | `build` over two runs of items is `build` over the first, then over the second with the definitions the first made |
| ResolverFacts.BuildCount | src/parser.rs:849-861 | a successful `build` yields exactly one feature per item that is neither an assignment nor a comment |
| ResolverFacts.LetReplaces | src/parser.rs:22-26 | a second `let` of a name replaces the first |
| ResolverFacts.SelfReference | src/parser.rs:232-240 | `let a = $a; $a` recurses without end, the panic |
| ResolverFacts.UndefinedReference | src/parser.rs:232-240 | a reference before any `let` of its name stops `build` with `UndefinedVariable` of that name |
| ResolverFacts.ReferenceRelowers | src/parser.rs:234-237 | each use of a variable lowers its stored description afresh, so a tuple of two references to one shape is a link of two equal features |
| ResolverFacts.NestedItemPanics | src/parser.rs:232-233 | an assignment or a comment nested inside another item reaches `unreachable!()` |
| ResolverFacts.LowerNotBadType | src/parser.rs:234-240 | every variable holds a feature description, so lowering never reports a variable of the wrong type |
| ResolverFacts.ColumnCase | src/parser.rs:172-202 | a column reports no wrong-type variable when its items do not |
| ResolverFacts.ShapeCase | src/parser.rs:112-162 | shapes, assignments and comments never report a wrong-type variable |
| ResolverFacts.ArrayCase | src/parser.rs:163-171 | an array reports no wrong-type variable when its body does not |
| ResolverFacts.WrapCase | src/parser.rs:203-209 | a wrap reports no wrong-type variable when its parts do not |
| ResolverFacts.TupleCase | src/parser.rs:210-231 | a tuple reports no wrong-type variable when its loop does not |
| ResolverFacts.VarCase | src/parser.rs:232-240 | a reference reports no wrong-type variable when its definition does not |
| ResolverFacts.AllNotBadType | src/parser.rs:176-194 | collecting a list never reports a wrong-type variable |
| ResolverFacts.TupleNotBadType | src/parser.rs:210-231 | the tuple loop never reports a wrong-type variable |
| ResolverFacts.ElementNotBadType | src/parser.rs:204-207 | lowering a wrap element never reports a wrong-type variable |
| ResolverFacts.WrapNotBadType | src/parser.rs:204-207 | the wrap loop never reports a wrong-type variable |
| ResolverFacts.AtPosSound | src/features/pos.rs:155-178 | a placement whose primary has an outline and whose elements reach no panic reaches none and has an outline |
| ResolverFacts.PushSound | src/features/pos.rs:126-128 | pushing a panic-free element keeps a placement sound |
| ResolverFacts.PushRegular | src/features/pos.rs:126-128 | pushing a panic-free element keeps the primary and keeps every secondary panic-free |
| ResolverFacts.LinkSound | src/parser.rs:213-227 | a tuple link of sound features is sound |
| ResolverFacts.TranslateSound | src/parser.rs:197-200 | moving a sound feature keeps it sound |
| ResolverFacts.NormalizedSound | src/features/array.rs:31-47 | normalising the children of a column keeps each sound |
| ResolverFacts.ColumnRegular | src/features/array.rs:123-186 | a non-empty column of sound children reaches no panic |
| ResolverFacts.ColumnOutlined | src/features/array.rs:123-158 | a column whose first child has an outline has one |
| ResolverFacts.ColumnNewSound | src/features/array.rs:31-47 | `Column::new` of non-empty sound children is sound |
| ResolverFacts.ShapeSound | src/parser.rs:112-162 | every shape is built, and sound |
| ResolverFacts.ArraySound | src/parser.rs:163-171 | an array of a sound body is sound |
| ResolverFacts.ColumnSound | src/parser.rs:172-202 | a column of sound items is sound |
| ResolverFacts.ColumnStep | src/parser.rs:172-202 | a column lowers its items, lays them out and moves the layout to the coordinates when given; a failing item fails the column |
| ResolverFacts.WrapSound | src/parser.rs:203-209 | a wrap of sound parts is sound |
| ResolverFacts.TupleSound | src/parser.rs:210-231 | a tuple whose loop yields a sound chain is sound |
| ResolverFacts.VarSound | src/parser.rs:232-240 | a reference is as sound as its definition |
| ResolverFacts.BuiltSound | src/parser.rs:104-243 | every feature lowered from a description the grammar accepts reaches none of the feature algebra's `unwrap` panics and has an outline |
| ResolverFacts.WrapBuiltSound | src/parser.rs:204-207 | the wrap loop over well-formed elements yields a sound placement |
| ResolverFacts.ElementSound | src/parser.rs:204-207 | a well-formed wrap element lowers to a sound feature |
| ResolverFacts.TupleBuiltSound | src/parser.rs:210-229 | the tuple loop over well-formed items yields a sound chain |
| ResolverFacts.BuildFromSound | src/parser.rs:849-861 | every feature built from well-formed items and definitions is sound |
| ResolverFacts.BuildSound | src/parser.rs:838-862 | every feature `parser::build` returns, for any text, reaches no panic in the feature algebra and has an outline |
| Tessellate.Add16 | src/tessellate.rs:168-172 | `u16` addition as a release build does it: the sum when it fits in sixteen bits, the sum less 65536 when it does not |
| Tessellate.Tessellate3D | src/tessellate.rs:106-194 | the vertex buffer is the bottom copies at z = -0.8 then the top copies at z = 0.8, and the index buffer is exactly `Indices`: the input, the reversed lifted triangles, then two side triangles per boundary edge |
| Tessellate.EdgeTable | src/tessellate.rs:111-134 | after the first loop the table is the one built from every edge position of every complete triangle |
| Tessellate.RecordEdge | src/tessellate.rs:116-133 | recording the edge from corner j of triangle t to the next corner extends the table by exactly that one sighting |
| Tessellate.BoundaryLines | src/tessellate.rs:138-144 | keeping the keys seen once and sorting by position gives the boundary edges in the order they were first seen |
| Tessellate.ExtrudeVertices | src/tessellate.rs:148-155 | the two vertex loops give the bottom copies at z = -0.8 then the top copies at z = 0.8, with x and y kept |
| Tessellate.FacesLoop | src/tessellate.rs:160-172 | the front and back loops give the input indices verbatim, then each complete triangle reversed and lifted by the vertex count |
| Tessellate.SidesLoop | src/tessellate.rs:175-191 | the sides loop appends the two side triangles of each boundary edge, in boundary order |
| Tessellate.CornerStep | src/tessellate.rs:116-131 | corner j of triangle t is edge position 3t + j, and its edge runs to the next corner of the same triangle |
| Tessellate.LinesUpToOccurrences | src/tessellate.rs:123-132 | the table holds a key exactly when that edge has been seen, and then every sighting of it in order |
| Tessellate.OccursAt | src/tessellate.rs:123-132 | the edge at each position is among the sightings recorded under its key |
| Tessellate.OccurrencesAreSightings | src/tessellate.rs:123-132 | every recorded sighting is at a position whose edge has that key, and the positions increase |
| Tessellate.SoleOccurrence | src/tessellate.rs:138-142 | a boundary edge's only sighting is the one at its own position |
| Tessellate.BoundaryUpToFacts | src/tessellate.rs:138-144 | the boundary list over a prefix holds only edges seen once, in increasing position, and every such edge of the prefix |
| Tessellate.BoundaryIsOnceSeenEdges | src/tessellate.rs:138-144 | `boundary_lines` is exactly the edges that occur in one triangle only, each lower index first with the direction it was seen in, ordered by where it was seen |
| Tessellate.BackLayout | src/tessellate.rs:168-172 | the back face has three indices per triangle: triangle s's corners reversed and lifted by c |
| Tessellate.SidesLayout | src/tessellate.rs:175-191 | the side block has six indices per boundary edge, boundary edge b's two triangles at 6b |
| Tessellate.ConcatLayout | src/tessellate.rs:164-191 | the front, back and side blocks sit one after the other, each part where its layout says |
| Tessellate.IndicesLayout | src/tessellate.rs:164-191 | the output begins with the input verbatim, then each input triangle (a, b, c) as (c+n, b+n, a+n), then six indices per boundary edge; for a whole number of triangles the length is 2·|indices| + 6·|boundary| |
| Tessellate.IndicesInRange | src/tessellate.rs:160-191 | when 2n fits in `u16` and the input indices name input vertices, every output index names one of the 2n output vertices |
| Tessellate.BackInRange | src/tessellate.rs:168-172 | lifted back-face indices lie in [n, 2n) |
| Tessellate.SidesInRange | src/tessellate.rs:175-191 | side indices lie below 2n |
| Tessellate.Normals | src/tessellate.rs:72-103 | one normal per complete index triple, in order, each the cross product of the face's two edges from its first corner |
| Tessellate.CrossPerpendicular | src/tessellate.rs:95-99 | the hand-written cross product is perpendicular to both of its arguments |
| Tessellate.NormalsPerpendicular | src/tessellate.rs:78-103 | each normal is perpendicular to the two edges leaving its face's first corner |
| Tessellate.ExtrudedNormalCount | src/tessellate.rs:72-194 | the extruded solid gets one normal per output triangle: two per input triangle and two per boundary edge |
| Text.CharOffset | src/text.rs:29-41 | characters below space get the `?` cell; printable ASCII c gets c - 32; DEL up to before `¡`, and anything past `ÿ`, get the `?` cell; `¡`..`ÿ` get c - 66 |
| Text.CharOffsetBound | src/text.rs:29-41 | every character lands in one of the font's 190 glyph cells |
| Text.CharOffsetRoundTrip | src/text.rs:29-41 | glyph cells and printable characters correspond one to one: a printable character is recovered from its cell, and every cell's character maps back to that cell |
| Text.MissingIsQuestionMark | src/text.rs:30-39 | a character the font lacks is drawn with the glyph of `?` |
| Text.BitIndexCell | src/text.rs:5-21 | the glyph of offset `off` is cell column `off % 40` and cell row `off / 40` of 6×8 cells in the 240-pixel-wide font image |
| Text.BitIndexBound | src/text.rs:5-23 | a pixel inside a glyph cell reads bit 9599 at most, so byte 1199 at most of the font |
| Text.BitIndexInjective | src/text.rs:5-21 | two pixels of glyph cells read the same bit only when they are the same pixel of the same cell |
| Text.RowBits | src/text.rs:46-47 | row y has six pixels per byte of the text, pixel x being pixel (x % 6, y) of the glyph of byte x / 6 |
| Text.Glyphs | src/text.rs:45-47 | the label has eight rows, row y being `RowBits` of y |
| Text.BlitText | src/text.rs:43-53 | `blit_text` gives the grey-alpha bytes of the eight rows, row after row |
| Text.BlitRow | src/text.rs:46-50 | one pass of the outer loop appends exactly the grey-alpha bytes of row y |
| Text.PairsSnoc | src/text.rs:46-50 | pushing one more pixel appends its two bytes |
| Text.ImageSnoc | src/text.rs:45-51 | finishing one more row appends its bytes |
| Text.PairsLength | src/text.rs:48-49 | a row of pixels takes two bytes per pixel |
| Text.PairsPixel | src/text.rs:46-50 | pixel q of a row is bytes 2q and 2q + 1 |
| Text.ImageLength | src/text.rs:44-51 | rows all m pixels wide take 2m bytes each |
| Text.ImagePixel | src/text.rs:44-51 | pixel q of row r of such rows sits at byte 2m·r + 2q |
| Text.BlitLayout | src/text.rs:43-53 | the buffer holds 96 bytes per byte of text; the pair for pixel x of row y starts at byte 2·(6·|text|·y + x) and is (0, 255) where the glyph pixel is set and (255, 0) where it is not; the font byte it reads is below 1200 |
| Drill.SelectRenderInjective | src/drill.rs:56 | two tool-select lines read alike only when they name the same tool |
| Drill.DiametersMembers | src/drill.rs:17-30 | a diameter is in the table exactly when some drill of the wanted plating has it |
| Drill.CollectDiameters | src/drill.rs:17-30 | the first loop's map has as keys exactly the formatted diameters of the wanted drills |
| Drill.EnumerateKeys | src/drill.rs:31 | the enumerated keys list every key of the map exactly once |
| Drill.ToolTable | src/drill.rs:32-34 | one definition line per diameter, tool i + 1 carrying the i-th diameter |
| Drill.IndexOf | src/drill.rs:50-54 | the position found holds the diameter, and no earlier position does |
| Drill.FindTool | src/drill.rs:50-54 | the lookup returns the first position of the drill's diameter in the tool list |
| Drill.TableCovers | src/drill.rs:31-54 | a tool list enumerating the diameters has a tool for every wanted drill, so the lookup's `unwrap` never fails |
| Drill.CoversRest | src/drill.rs:41-64 | dropping the first atom keeps every remaining wanted drill covered |
| Drill.Serialize | src/drill.rs:6-69 | the tool list enumerates the diameters, covers every wanted drill, and the lines are the header, the table, the preamble, the drilling part and the trailer |
| Drill.DrillHoles | src/drill.rs:40-64 | the second loop emits a select whenever a drill needs another tool than the loaded one, then the drill's hole line, for the wanted drills in order |
| Drill.BodyAt | src/drill.rs:40-64 | from drill i on, a wanted drill contributes a select when its tool is not loaded and its hole line, then the rest with its tool loaded; an unwanted one contributes nothing |
| Drill.ReplayAppend | src/drill.rs:40-64 | reading two pieces of a file one after the other drills the holes of each with the tool left by the first |
| Drill.LoadedAppend | src/drill.rs:40-64 | the tool loaded after two pieces of a file is the one the second leaves, starting from the one the first leaves |
| Drill.ReplayInert | src/drill.rs:11-38 | header, table and preamble lines neither load a tool nor drill |
| Drill.BodyReplay | src/drill.rs:40-64 | the drilling part drills every wanted drill, in order, each with the tool of its diameter |
| Drill.DrillsInOrder | src/drill.rs:6-69 | reading the whole file from an empty spindle drills exactly the wanted drills, in input order, each with the tool whose table line carries its diameter |
| Drill.HolesLength | src/drill.rs:41-64 | there is one hole line per wanted drill |
| Drill.HoleIsWantedDrill | src/drill.rs:41-64 | hole k is the k-th wanted drill's centre, drilled with the tool whose table line has that drill's diameter |
| Drill.NoRedundantSelectAppend | src/drill.rs:55-58 | a file without redundant selects stays so when another such piece follows |
| Drill.SelectsOnlyOnChange | src/drill.rs:55-58 | no select line names the tool already loaded |
| Drill.OutputFrame | src/drill.rs:11-38 | the file starts with the five header lines, then tool i + 1 defined as the i-th diameter, then `%`, `G90`, `G05`, and ends with `T0`, `M30` |
| Drill.WantedOnlyMembers | src/drill.rs:19-25 | an atom is kept exactly when it is a drill of the wanted plating |
| Drill.OnlyWantedDrillsMatter | src/drill.rs:41-64 | the drilling part is the same when the other atoms are removed first |
| Drill.OnlyWantedDiameters | src/drill.rs:17-30 | the diameter table is the same when the other atoms are removed first |

## Left out

- Number conversion: `str::parse::<f64>` and `str::parse::<usize>` are the parameter `Parser.Numbers`, applied to the lexeme the grammar accepts. The text of nom's error messages (`VerboseError`, `convert_error`) is not modelled; a parse error is one value.
- Polygon boolean union, rotation about a centroid or a point, and `graham_hull` are foreign library calls. They are fields of `Geo.Kernel`, and the laws the proofs rely on are assumed as predicates on it.
- `f64` arithmetic is modelled by `real`, with no rounding. Tessellate vertices and normals are `real` too, so the `as f32` casts are not modelled.
- Feature `translate` methods mutate a uniquely owned feature in place. The model returns the moved value instead, which is the same thing when nothing is aliased.
- Panics of the feature algebra are not modelled: an `unwrap` of a missing bounding box in `AtPos` over an outline-less primary, in `Column` without children, or in `Tile` when neither the inner outline nor the inner atoms have a box. In their place the model uses the zero rectangle. `FeatureLaws.Regular` excludes these states, and everything the resolver builds is proved `Regular`.
- FeatureLaws.TranslateMoves: the interior half of the law is stated only for features that reach no tile drawing score lines (`FeatureLaws.Unscored`). The source places a tile's score lines by the size of the tile's box alone, so moving a scored tile leaves them where they were (`FeatureLaws.ScoredTileMotion`, `Repeating.MovedScoreStaysPut`). The same restriction holds for `FeatureLaws.TileMoves`, `FeatureLaws.AtPosMoves`, `FeatureLaws.ColumnMoves`, `Panels.InteriorGeometryMotion` and `Panels.PanelMotion`. How a combined feature's interior moves when a scored tile sits deeper inside it is not stated as one law.
- Repeating.InteriorMotion: stated for tiles without score lines. With score lines, `Repeating.MovedCopyAtomAt` and `Repeating.MovedScoreStaysPut` give the displacement position by position, and `Repeating.CorrectedInteriorMotion` states the whole law for the corrected score lines.
- FeatureLaws.Regular excludes two more states, which the source handles without panicking: a `Column` child without an outline, which the source places using the zero box and leaves unmoved, and a `Named` feature with neither outline nor subtract geometry, which reports the zero box. The resolver never builds either, so the laws stated under `Regular` say nothing about them.
- `Repeating.TileBounds`: where the source panics on an inner feature with neither an outline nor atoms, the model steps by the zero rectangle.
- The `rounded` detail is parsed. `into_feature` ignores it, and so does the model.
- A `Positioning` carries the alignment the parser reads. The placement arithmetic of pos.rs never reads it.
- The rail-mount grammar cannot produce `Down`: its keywords only yield left, right and up, as `Parser.RMountP` states. The `Down` rotation of `RMount` is kept all the same.
- `ScrewHole`'s `plated` value is `Kernel.screwHolePlated`.
- `Panels.Panel.PushSpec` returns the resolver's failure. The source collapses it to `()`.
- `Tessellate.Add16`: `+ c` on `u16` panics on overflow in a debug build. The model wraps as a release build does. `IndicesInRange` shows that no index wraps when twice the vertex count fits in `u16`.
- `Tessellate.BoundaryLines`: the source collects the once-seen edges in hash-map order and then sorts them by position. The model scans the positions in order, which gives the sorted list directly.
- `tessellate_2d` calls the lyon tessellator, a foreign library.
- The float values of the normals are not modelled: `Normals` works on exact coordinates.
- Tessellate.Normals: a vertex index past the end of the vertex list, inside a complete triple, makes the source panic on the slice index. The model requires every index of a complete triple to be in range, and it puts no demand on the trailing `|inds| % 3` indices, which `chunks_exact(3)` never reads.
- `Text`: the text is modelled as its bytes, as `text.as_bytes()` gives them. The font file is a parameter of at least 1200 bytes. `blit_text_span` is not modelled, since it only encodes PNG and builds an SVG image node.
- `Drill`: the `{:.4}` formatter is a parameter, and the file is a sequence of `Line` values with `Render` giving their text. The hash-map order of the diameters is any enumeration of the distinct keys. Write errors are not modelled.
- SVG rendering (`make_svg`, `circle`, `Layer::color`, `InnerAtom::stroke/fill`) and Gerber serialisation are libraries and output formats. `Display` implementations, src/main.rs and the wasm crate are plumbing around the core.

## Findings

| source | as written | input that shows it | evidently intended | confidence | as-written member | corrected member |
|---|---|---|---|---|---|---|
| src/features/repeating.rs:131-139 | the score line after copy i is put at i·offset + w/2 along the tiling axis (`w` the inner box's width or height), measured from the origin, not from the inner box, and always on the positive side | two 2×2 squares centred on the origin, tiled to the left: the line lands at x = 1, on the first copy's far edge, not at x = -1 where the copies meet; a square from (0,0) to (2,2) tiled to the right gets x = 1, not x = 2 | the score line lies on the edge that copy i shares with copy i + 1, wherever the inner feature sits and whichever way it is tiled | not executed | Repeating.ScoreAsWritten, used by Repeating.Interior and so by every tile (Repeating.ScoreAsWrittenMissesEdge, Repeating.ScoreAsWrittenIgnoresPosition, Repeating.ScoreAsWrittenStaysPut, Repeating.MovedScoreStaysPut) | Repeating.Score, used by Repeating.CorrectedInterior (Repeating.ScoreOnSharedEdge, Repeating.CorrectedScoreAt, Repeating.ScoreOnEdgeOfExample, Repeating.ScoreFollowsPosition, Repeating.CorrectedInteriorMotion) |
