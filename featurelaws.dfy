/**
 * What the feature algebra guarantees: outlines that exist have a
 * bounding box, every feature moves as a whole under `translate` (but
 * for the score lines of a moved tile, which stay put), and the facts
 * each feature kind promises about its outline and interior.
 */
module FeatureLaws {
  import opened Wrappers
  import G = Geo
  import opened Common
  import A = Atoms
  import I = Inner
  import U = Unions
  import P = Pos
  import C = Columns
  import R = Repeating
  import opened Features

  // Present outlines have bounding boxes.

  predicate SolidFeature(k: G.Kernel, f: Feature)
  {
    U.Solid(EdgeUnion(k, f)) && U.Solid(EdgeSubtract(k, f))
  }

  lemma RMountCutSolid(k: G.Kernel, r: G.Rect, depth: real)
    requires G.BoundsLaws(k)
    ensures G.Bounds(RMountCut(k, r, depth)).Some?
  {
    G.BoundsPresent([G.RectPolygon(RMountChannel(r, depth))]);
  }

  lemma ShapeSolid(k: G.Kernel, f: Feature)
    requires G.BoundsLaws(k)
    requires f.Rect? || f.Circle? || f.Triangle? || f.RMount? || f.Unit?
    ensures SolidFeature(k, f)
  {
    match f
    case Rect(r, _) => G.BoundsPresent([G.RectPolygon(r)]);
    case Circle(c, r, _) => G.BoundsPresent([G.PolygonNew(CircleRing(k, c, r), [])]);
    case Triangle(_, t, _) => G.BoundsPresent([G.TriPolygon(t)]);
    case RMount(d, r, depth) => RMountSolid(k, d, r, depth);
    case Unit =>
  }

  lemma RMountSolid(k: G.Kernel, d: Direction, r: G.Rect, depth: real)
    requires G.BoundsLaws(k)
    ensures SolidFeature(k, RMount(d, r, depth))
  {
    G.BoundsPresent([G.RectPolygon(r)]);
    RMountCutSolid(k, r, depth);
  }

  lemma AtPosSolid(k: G.Kernel, f: Feature)
    requires G.BoundsLaws(k) && f.AtPos?
    requires SolidFeature(k, f.primary)
    requires forall i :: 0 <= i < |f.elements| ==> SolidFeature(k, f.elements[i].feature)
    ensures SolidFeature(k, f)
  {
    var outs := ElementOutlines(k, f);
    assert forall i :: 0 <= i < |outs| ==> outs[i] == EdgeUnion(k, f.elements[i].feature);
    P.OutlineSolid(k, EdgeUnion(k, f.primary), outs, Positions(f.elements));
  }

  lemma ColumnSolid(k: G.Kernel, f: Feature)
    requires G.BoundsLaws(k) && f.Column?
    requires forall i :: 0 <= i < |f.children| ==> SolidFeature(k, f.children[i])
    ensures SolidFeature(k, f)
  {
    var outs := Outlines(k, f.children);
    C.PlacedSolid(outs, f.align);
    U.FoldUnionSolid(k, C.Placed(outs, f.align));
    var u := U.FoldUnion(k, C.Placed(outs, f.align));
    if f.bbox && u.Some? {
      G.BoundsPresent([G.RectPolygon(G.BoundsOr(u.value))]);
    }
  }

  lemma TileSolid(k: G.Kernel, f: Feature)
    requires G.BoundsLaws(k) && f.Tile?
    requires SolidFeature(k, f.tiled)
    ensures SolidFeature(k, f)
  {
    var t := f.tiled;
    if EdgeUnion(k, t).Some? {
      var g := EdgeUnion(k, t).value;
      R.RepeatSolid(k, g, Offset(f.direction, G.BoundsOr(g)), f.amt);
    }
    if EdgeSubtract(k, t).Some? {
      var s := EdgeSubtract(k, t).value;
      var bounds := match EdgeUnion(k, t) case Some(e) => G.BoundsOr(e) case None => G.BoundsOr(s);
      R.RepeatSolid(k, s, Offset(f.direction, bounds), f.amt);
    }
  }

  lemma NegativeSolid(k: G.Kernel, f: Feature)
    requires G.BoundsLaws(k) && f.Negative?
    requires forall i :: 0 <= i < |f.features| ==> SolidFeature(k, f.features[i])
    ensures SolidFeature(k, f)
  {
    U.FoldUnionSolid(k, Subtracts(k, f.features));
    U.FoldUnionSolid(k, Outlines(k, f.features));
  }

  lemma RotateKeepsSolid(k: G.Kernel, outs: seq<Option<G.MultiPolygon>>, degrees: real)
    requires G.BoundsLaws(k)
    requires forall i :: 0 <= i < |outs| ==> U.Solid(outs[i])
    ensures forall i :: 0 <= i < |outs| ==> U.Solid(RotateOutlines(k, outs, degrees)[i])
  {
  }

  lemma RotateSolid(k: G.Kernel, f: Feature)
    requires G.BoundsLaws(k) && f.Rotate?
    requires forall i :: 0 <= i < |f.features| ==> SolidFeature(k, f.features[i])
    ensures SolidFeature(k, f)
  {
    RotateKeepsSolid(k, Outlines(k, f.features), f.degrees);
    RotateKeepsSolid(k, Subtracts(k, f.features), f.degrees);
    U.FoldUnionSolid(k, RotateOutlines(k, Outlines(k, f.features), f.degrees));
    U.FoldUnionSolid(k, RotateOutlines(k, Subtracts(k, f.features), f.degrees));
  }

  /** Every outline and every subtract geometry a feature produces has a bounding box. */
  lemma {:induction false} Solid(k: G.Kernel, f: Feature)
    requires G.BoundsLaws(k)
    ensures SolidFeature(k, f)
    decreases f
  {
    match f
    case AtPos(p, els) =>
      Solid(k, p);
      forall i | 0 <= i < |els| ensures SolidFeature(k, els[i].feature) {
        Solid(k, els[i].feature);
      }
      AtPosSolid(k, f);
    case Column(fs, _, _) =>
      forall i | 0 <= i < |fs| ensures SolidFeature(k, fs[i]) {
        Solid(k, fs[i]);
      }
      ColumnSolid(k, f);
    case Tile(t, _, _, _) =>
      Solid(k, t);
      TileSolid(k, f);
    case Negative(fs) =>
      forall i | 0 <= i < |fs| ensures SolidFeature(k, fs[i]) {
        Solid(k, fs[i]);
      }
      NegativeSolid(k, f);
    case Rotate(fs, _) =>
      forall i | 0 <= i < |fs| ensures SolidFeature(k, fs[i]) {
        Solid(k, fs[i]);
      }
      RotateSolid(k, f);
    case Named(g, _) =>
      Solid(k, g);
    case Rect(_, _) => ShapeSolid(k, f);
    case Circle(_, _, _) => ShapeSolid(k, f);
    case Triangle(_, _, _) => ShapeSolid(k, f);
    case RMount(_, _, _) => ShapeSolid(k, f);
    case Unit =>
  }

  // Features the source handles without panicking.

  /**
   * A feature none of whose parts reaches one of the source's `unwrap`
   * panics, and which keeps to two further shapes the resolver always
   * builds. The panics: every `AtPos` has a primary outline, every
   * `Column` has children, and every `Tile` has a box to step by. The two
   * shapes, which the source handles without panicking: each child of a
   * `Column` has an outline (the source gives an outline-less child the
   * zero box and no translation), and every `Named` wraps something with
   * geometry (the source reports the zero box otherwise).
   */
  predicate Regular(k: G.Kernel, f: Feature)
    decreases f, 1
  {
    match f
    case AtPos(p, _) => EdgeUnion(k, p).Some? && Regular(k, p) && RegularElements(k, f)
    case Column(fs, _, _) => |fs| > 0 && RegularAll(k, fs) && forall i :: 0 <= i < |fs| ==> EdgeUnion(k, fs[i]).Some?
    case Tile(t, _, _, _) => Regular(k, t) && R.Stepped(EdgeUnion(k, t), Interior(k, t))
    case Negative(fs) => RegularAll(k, fs)
    case Rotate(fs, _) => RegularAll(k, fs)
    case Named(g, _) => Regular(k, g) && (EdgeUnion(k, g).Some? || EdgeSubtract(k, g).Some?)
    case _ => true
  }

  predicate RegularAll(k: G.Kernel, fs: seq<Feature>)
    decreases fs, 0
  {
    forall i :: 0 <= i < |fs| ==> Regular(k, fs[i])
  }

  predicate RegularElements(k: G.Kernel, f: Feature)
    requires f.AtPos?
    decreases f, 0
  {
    forall i :: 0 <= i < |f.elements| ==> Regular(k, f.elements[i].feature)
  }

  // Translation moves everything a feature produces.

  function TranslateInfos(ns: seq<A.NamedInfo>, v: G.Point): (r: seq<A.NamedInfo>)
    ensures |r| == |ns|
  {
    seq(|ns|, i requires 0 <= i < |ns| => A.TranslateInfo(ns[i], v))
  }

  /**
   * `translate` reaches no tile that draws score lines. The source places
   * those lines by the size of the tile's box alone, so they stay where
   * they were when such a tile is moved. The secondaries of an `AtPos` are
   * not moved themselves (they follow the primary's box), so they do not
   * count; `Negative` and `Rotate` have no interior atoms.
   */
  predicate Unscored(f: Feature)
  {
    match f
    case AtPos(p, _) => Unscored(p)
    case Column(fs, _, _) => forall i :: 0 <= i < |fs| ==> Unscored(fs[i])
    case Tile(t, _, amt, vScore) => !R.HasScores(vScore, amt) && Unscored(t)
    case Named(g, _) => Unscored(g)
    case _ => true
  }

  predicate UnscoredAll(fs: seq<Feature>)
  {
    forall i :: 0 <= i < |fs| ==> Unscored(fs[i])
  }

  /**
   * Translating `f` by `v` moves its outline, subtract geometry and named
   * boxes by `v`, and, when it has no moved score lines, its interior atoms.
   */
  predicate Moves(k: G.Kernel, f: Feature, v: G.Point)
  {
    && EdgeUnion(k, Translate(f, v)) == G.TranslateOutline(EdgeUnion(k, f), v)
    && EdgeSubtract(k, Translate(f, v)) == G.TranslateOutline(EdgeSubtract(k, f), v)
    && (Unscored(f) ==> Interior(k, Translate(f, v)) == A.TranslateAll(Interior(k, f), v))
    && NamedInfos(k, Translate(f, v)) == TranslateInfos(NamedInfos(k, f), v)
  }

  lemma RectMoves(k: G.Kernel, f: Feature, v: G.Point)
    requires f.Rect?
    ensures Moves(k, f, v)
  {
    G.RectPolygonTranslate(f.rect, v);
    I.AtomsTranslate(f.inner, k.screwHolePlated, v);
  }

  lemma TriangleMoves(k: G.Kernel, f: Feature, v: G.Point)
    requires f.Triangle?
    ensures Moves(k, f, v)
  {
    G.TriPolygonTranslate(f.triangle, v);
    I.AtomsTranslate(f.inner, k.screwHolePlated, v);
  }

  lemma CircleRingMoves(k: G.Kernel, center: G.Point, radius: real, v: G.Point)
    requires G.MotionLaws(k)
    ensures CircleRing(k, G.Add(center, v), radius) == G.TranslatePoints(CircleRing(k, center, radius), v)
  {
    forall i | 0 <= i < 361
      ensures CirclePoint(k, G.Add(center, v), radius, i) == G.Add(CirclePoint(k, center, radius, i), v)
    {
      assert G.Point(center.x + v.x + radius, center.y + v.y) == G.Add(G.Point(center.x + radius, center.y), v);
    }
  }

  lemma CircleMoves(k: G.Kernel, f: Feature, v: G.Point)
    requires G.MotionLaws(k) && f.Circle?
    ensures Moves(k, f, v)
  {
    var ring := CircleRing(k, f.center, f.radius);
    CircleRingMoves(k, f.center, f.radius, v);
    G.PolygonNewTranslate(ring, [], v);
    var none: seq<seq<G.Point>> := [];
    assert seq(|none|, i requires 0 <= i < |none| => G.TranslatePoints(none[i], v)) == [];
    assert [G.PolygonNew(G.TranslatePoints(ring, v), [])] == G.TranslateMulti([G.PolygonNew(ring, [])], v);
    I.AtomsTranslate(f.inner, k.screwHolePlated, v);
  }

  lemma TurnMoves(k: G.Kernel, d: Direction, m: G.MultiPolygon, v: G.Point)
    requires G.MotionLaws(k)
    ensures Turn(k, d, G.TranslateMulti(m, v)) == G.TranslateMulti(Turn(k, d, m), v)
  {
  }

  lemma RMountCutMoves(k: G.Kernel, r: G.Rect, depth: real, v: G.Point)
    requires G.MotionLaws(k)
    ensures RMountCut(k, G.TranslateRect(r, v), depth) == G.TranslateMulti(RMountCut(k, r, depth), v)
  {
    var c := G.Center(r);
    assert G.Center(G.TranslateRect(r, v)) == G.Add(c, v);
    var p1, q1 := G.Point(-1.65, -depth / 2.0 - 1.0), G.Point(1.65, depth / 2.0);
    var p2, q2 := G.Point(-3.12, -1.4), G.Point(3.12, 1.4);
    assert G.Add(p1, G.Add(c, v)) == G.Add(G.Add(p1, c), v);
    assert G.Add(q1, G.Add(c, v)) == G.Add(G.Add(q1, c), v);
    assert G.Add(p2, G.Add(c, v)) == G.Add(G.Add(p2, c), v);
    assert G.Add(q2, G.Add(c, v)) == G.Add(G.Add(q2, c), v);
    I.RectNewTranslate(G.Add(p1, c), G.Add(q1, c), v);
    I.RectNewTranslate(G.Add(p2, c), G.Add(q2, c), v);
    var channel := G.RectNew(G.Add(p1, c), G.Add(q1, c));
    var nut := G.RectNew(G.Add(p2, c), G.Add(q2, c));
    G.RectPolygonTranslate(channel, v);
    G.RectPolygonTranslate(nut, v);
  }

  lemma RMountDrillsMove(k: G.Kernel, d: Direction, r: G.Rect, v: G.Point)
    ensures RMountDrills(k, d, G.TranslateRect(r, v)) == A.TranslateAll(RMountDrills(k, d, r), v)
  {
    var c := G.Center(r);
    assert G.Center(G.TranslateRect(r, v)) == G.Add(c, v);
    forall i | 0 <= i < 4
      ensures RMountDrills(k, d, G.TranslateRect(r, v))[i] == A.TranslateAll(RMountDrills(k, d, r), v)[i]
    {
      var o := k.rotatePoint(RMountDrillOffsets[i], TurnAngle(d), G.Origin);
      assert G.Add(o, G.Add(c, v)) == G.Add(G.Add(o, c), v);
    }
  }

  lemma RMountMoves(k: G.Kernel, f: Feature, v: G.Point)
    requires G.MotionLaws(k) && f.RMount?
    ensures Moves(k, f, v)
  {
    G.RectPolygonTranslate(f.rect, v);
    TurnMoves(k, f.direction, [G.RectPolygon(f.rect)], v);
    RMountCutMoves(k, f.rect, f.depth, v);
    TurnMoves(k, f.direction, RMountCut(k, f.rect, f.depth), v);
    RMountDrillsMove(k, f.direction, f.rect, v);
  }

  lemma AtPosMoves(k: G.Kernel, f: Feature, v: G.Point)
    requires G.MotionLaws(k) && f.AtPos?
    requires EdgeUnion(k, f.primary).Some? && G.Bounds(EdgeUnion(k, f.primary).value).Some?
    requires Moves(k, f.primary, v)
    requires forall i :: 0 <= i < |f.elements| ==> U.Solid(EdgeUnion(k, f.elements[i].feature))
    ensures Moves(k, f, v)
  {
    var f' := AtPos(Translate(f.primary, v), f.elements);
    assert Translate(f, v) == f';
    var outs := ElementOutlines(k, f);
    assert ElementOutlines(k, f') == outs;
    assert ElementInteriors(k, f') == ElementInteriors(k, f);
    var m := EdgeUnion(k, f.primary).value;
    P.OutlineMotion(k, m, outs, Positions(f.elements), v);
    if Unscored(f.primary) {
      P.InteriorMotion(m, Interior(k, f.primary), outs, ElementInteriors(k, f), Positions(f.elements), v);
    }
  }

  lemma OutlinesMove(k: G.Kernel, fs: seq<Feature>, v: G.Point)
    requires forall i :: 0 <= i < |fs| ==> Moves(k, fs[i], v)
    ensures Outlines(k, TranslateAll(fs, v)) == U.TranslateAllOutlines(Outlines(k, fs), v)
    ensures Subtracts(k, TranslateAll(fs, v)) == U.TranslateAllOutlines(Subtracts(k, fs), v)
  {
  }

  lemma InteriorsMove(k: G.Kernel, fs: seq<Feature>, v: G.Point)
    requires forall i :: 0 <= i < |fs| ==> Moves(k, fs[i], v) && Unscored(fs[i])
    ensures var atoms := Interiors(k, fs);
      Interiors(k, TranslateAll(fs, v)) == seq(|atoms|, i requires 0 <= i < |atoms| => A.TranslateAll(atoms[i], v))
  {
  }

  lemma ColumnMoves(k: G.Kernel, f: Feature, v: G.Point)
    requires G.MotionLaws(k) && G.BoundsLaws(k) && f.Column? && |f.children| > 0
    requires forall i :: 0 <= i < |f.children| ==> EdgeUnion(k, f.children[i]).Some? && U.Solid(EdgeUnion(k, f.children[i]))
    requires forall i :: 0 <= i < |f.children| ==> Moves(k, f.children[i], v)
    ensures Moves(k, f, v)
  {
    var fs := f.children;
    OutlinesMove(k, fs, v);
    C.OutlineMotion(k, Outlines(k, fs), f.align, f.bbox, v);
    if Unscored(f) {
      InteriorsMove(k, fs, v);
      C.InteriorMotion(Outlines(k, fs), Interiors(k, fs), f.align, v);
    }
  }

  lemma TileMoves(k: G.Kernel, f: Feature, v: G.Point)
    requires G.MotionLaws(k) && f.Tile?
    requires SolidFeature(k, f.tiled) && Moves(k, f.tiled, v)
    requires R.Stepped(EdgeUnion(k, f.tiled), Interior(k, f.tiled))
    ensures Moves(k, f, v)
  {
    var t := f.tiled;
    R.OutlineMotion(k, EdgeUnion(k, t), f.direction, f.amt, v);
    R.SubtractMotion(k, EdgeUnion(k, t), EdgeSubtract(k, t), f.direction, f.amt, v);
    if Unscored(f) {
      R.InteriorMotion(EdgeUnion(k, t), Interior(k, t), f.direction, f.amt, f.vScore, v);
    }
  }

  /**
   * A moved tile that draws score lines does not move them: the score line
   * after copy `i`, at position `p` of the interior, is where it was before
   * the move.
   */
  lemma ScoredTileMotion(k: G.Kernel, f: Feature, v: G.Point, i: nat, p: nat)
    requires G.BoundsLaws(k) && G.MotionLaws(k) && f.Tile? && f.vScore && i + 1 < f.amt
    requires Regular(k, f.tiled) && R.Stepped(EdgeUnion(k, f.tiled), Interior(k, f.tiled)) && Unscored(f.tiled)
    requires p == i * R.Stride(Interior(k, f.tiled), true) + |Interior(k, f.tiled)|
    ensures p < |Interior(k, f)| && p < |Interior(k, Translate(f, v))|
    ensures Interior(k, Translate(f, v))[p] == Interior(k, f)[p]
  {
    var t := f.tiled;
    TranslateMoves(k, t, v);
    TileInteriors(k, f, v);
    R.MovedScoreStaysPut(EdgeUnion(k, t), Interior(k, t), f.direction, f.amt, f.vScore, v, i);
  }

  /** The interior of a tile and of the moved tile, in terms of the feature it repeats. */
  lemma TileInteriors(k: G.Kernel, f: Feature, v: G.Point)
    requires f.Tile?
    ensures Interior(k, f) == R.Interior(EdgeUnion(k, f.tiled), Interior(k, f.tiled), f.direction, f.amt, f.vScore)
    ensures Interior(k, Translate(f, v))
         == R.Interior(EdgeUnion(k, Translate(f.tiled, v)), Interior(k, Translate(f.tiled, v)), f.direction, f.amt, f.vScore)
  {
  }

  lemma TranslateInfosAppend(a: seq<A.NamedInfo>, b: seq<A.NamedInfo>, v: G.Point)
    ensures TranslateInfos(a + b, v) == TranslateInfos(a, v) + TranslateInfos(b, v)
  {
  }

  lemma {:induction false} NamedInfosAllMoves(k: G.Kernel, fs: seq<Feature>, v: G.Point)
    requires forall i :: 0 <= i < |fs| ==> NamedInfos(k, Translate(fs[i], v)) == TranslateInfos(NamedInfos(k, fs[i]), v)
    ensures NamedInfosAll(k, TranslateAll(fs, v)) == TranslateInfos(NamedInfosAll(k, fs), v)
    decreases |fs|
  {
    if |fs| > 0 {
      var moved, tail := TranslateAll(fs, v), fs[1..];
      assert moved[0] == Translate(fs[0], v);
      assert moved[1..] == TranslateAll(tail, v);
      assert forall i :: 0 <= i < |tail| ==> tail[i] == fs[i + 1];
      NamedInfosAllMoves(k, tail, v);
      assert NamedInfosAll(k, moved) == NamedInfos(k, moved[0]) + NamedInfosAll(k, moved[1..]);
      TranslateInfosAppend(NamedInfos(k, fs[0]), NamedInfosAll(k, tail), v);
    }
  }

  lemma NegativeMoves(k: G.Kernel, f: Feature, v: G.Point)
    requires G.MotionLaws(k) && f.Negative?
    requires forall i :: 0 <= i < |f.features| ==> Moves(k, f.features[i], v)
    ensures Moves(k, f, v)
  {
    var fs := f.features;
    OutlinesMove(k, fs, v);
    U.FoldUnionMotion(k, Subtracts(k, fs), v);
    U.FoldUnionMotion(k, Outlines(k, fs), v);
    NamedInfosAllMoves(k, fs, v);
  }

  lemma RotateOutlinesMoves(k: G.Kernel, outs: seq<Option<G.MultiPolygon>>, degrees: real, v: G.Point)
    requires G.MotionLaws(k)
    ensures RotateOutlines(k, U.TranslateAllOutlines(outs, v), degrees) == U.TranslateAllOutlines(RotateOutlines(k, outs, degrees), v)
  {
  }

  lemma RotateMoves(k: G.Kernel, f: Feature, v: G.Point)
    requires G.MotionLaws(k) && f.Rotate?
    requires forall i :: 0 <= i < |f.features| ==> Moves(k, f.features[i], v)
    ensures Moves(k, f, v)
  {
    var fs := f.features;
    OutlinesMove(k, fs, v);
    RotateOutlinesMoves(k, Subtracts(k, fs), f.degrees, v);
    RotateOutlinesMoves(k, Outlines(k, fs), f.degrees, v);
    U.FoldUnionMotion(k, RotateOutlines(k, Subtracts(k, fs), f.degrees), v);
    U.FoldUnionMotion(k, RotateOutlines(k, Outlines(k, fs), f.degrees), v);
  }

  lemma NamedMoves(k: G.Kernel, f: Feature, v: G.Point)
    requires f.Named?
    requires SolidFeature(k, f.feature) && Moves(k, f.feature, v)
    requires EdgeUnion(k, f.feature).Some? || EdgeSubtract(k, f.feature).Some?
    ensures Moves(k, f, v)
  {
    var g := f.feature;
    if EdgeUnion(k, g).Some? {
      G.BoundsOrTranslate(EdgeUnion(k, g).value, v);
    } else {
      G.BoundsOrTranslate(EdgeSubtract(k, g).value, v);
    }
    assert NamedBounds(k, Translate(g, v)) == G.TranslateRect(NamedBounds(k, g), v);
  }

  /**
   * `translate` moves a feature as a whole: its outline, subtract
   * geometry and named boxes move by the same vector, and so do its
   * interior atoms when it reaches no tile that draws score lines.
   */
  lemma {:induction false} TranslateMoves(k: G.Kernel, f: Feature, v: G.Point)
    requires G.BoundsLaws(k) && G.MotionLaws(k) && Regular(k, f)
    ensures Moves(k, f, v)
    decreases f
  {
    match f
    case Rect(_, _) => RectMoves(k, f, v);
    case Circle(_, _, _) => CircleMoves(k, f, v);
    case Triangle(_, _, _) => TriangleMoves(k, f, v);
    case RMount(_, _, _) => RMountMoves(k, f, v);
    case Unit =>
    case AtPos(p, els) =>
      TranslateMoves(k, p, v);
      Solid(k, p);
      forall i | 0 <= i < |els| ensures U.Solid(EdgeUnion(k, els[i].feature)) {
        Solid(k, els[i].feature);
      }
      AtPosMoves(k, f, v);
    case Column(fs, _, _) =>
      forall i | 0 <= i < |fs| ensures U.Solid(EdgeUnion(k, fs[i])) && Moves(k, fs[i], v) {
        Solid(k, fs[i]);
        TranslateMoves(k, fs[i], v);
      }
      ColumnMoves(k, f, v);
    case Tile(t, _, _, _) =>
      Solid(k, t);
      TranslateMoves(k, t, v);
      TileMoves(k, f, v);
    case Negative(fs) =>
      forall i | 0 <= i < |fs| ensures Moves(k, fs[i], v) {
        TranslateMoves(k, fs[i], v);
      }
      NegativeMoves(k, f, v);
    case Rotate(fs, _) =>
      forall i | 0 <= i < |fs| ensures Moves(k, fs[i], v) {
        TranslateMoves(k, fs[i], v);
      }
      RotateMoves(k, f, v);
    case Named(g, _) =>
      Solid(k, g);
      TranslateMoves(k, g, v);
      NamedMoves(k, f, v);
  }

  /**
   * A feature that reaches no panic and has no outline has no interior
   * atoms either: only `Unit`, `Negative`, `Rotate` and what wraps or tiles
   * them lack an outline, and none of them has atoms of its own.
   */
  lemma {:induction false} OutlinelessInert(k: G.Kernel, f: Feature)
    requires G.BoundsLaws(k) && Regular(k, f)
    ensures EdgeUnion(k, f).None? ==> Interior(k, f) == []
    decreases f
  {
    match f
    case AtPos(p, els) =>
      Solid(k, p);
      P.OutlineNone(k, EdgeUnion(k, p), ElementOutlines(k, f), Positions(els));
    case Column(fs, a, bbox) =>
      C.OutlineNone(k, Outlines(k, fs), a, bbox);
      assert Outlines(k, fs)[0].Some?;
    case Tile(t, _, _, _) =>
      OutlinelessInert(k, t);
      assert A.AllBounds([]).None?;
    case Named(g, _) =>
      OutlinelessInert(k, g);
    case _ =>
  }

  /** So the feature a regular tile repeats always has an outline, and the tile steps by its box. */
  lemma TiledOutlined(k: G.Kernel, t: Feature)
    requires G.BoundsLaws(k) && Regular(k, t) && R.Stepped(EdgeUnion(k, t), Interior(k, t))
    ensures EdgeUnion(k, t).Some? && G.Bounds(EdgeUnion(k, t).value).Some?
  {
    OutlinelessInert(k, t);
    assert A.AllBounds([]).None?;
  }

  /** A moved regular tile over a regular moved feature still has a box to step by. */
  lemma TileRegularTranslate(k: G.Kernel, f: Feature, v: G.Point)
    requires G.BoundsLaws(k) && G.MotionLaws(k) && f.Tile? && Regular(k, f) && Regular(k, Translate(f.tiled, v))
    ensures Regular(k, Translate(f, v))
  {
    var t := f.tiled;
    TranslateMoves(k, t, v);
    TiledOutlined(k, t);
    G.BoundsTranslate(EdgeUnion(k, t).value, v);
  }

  /** A feature that reaches no panic still reaches none once it has been moved. */
  lemma {:induction false} RegularTranslate(k: G.Kernel, f: Feature, v: G.Point)
    requires G.BoundsLaws(k) && G.MotionLaws(k) && Regular(k, f)
    ensures Regular(k, Translate(f, v))
    decreases f
  {
    match f
    case AtPos(p, els) =>
      TranslateMoves(k, p, v);
      RegularTranslate(k, p, v);
    case Column(fs, _, _) =>
      var ts := TranslateAll(fs, v);
      forall i | 0 <= i < |fs| ensures Regular(k, ts[i]) && EdgeUnion(k, ts[i]).Some? {
        TranslateMoves(k, fs[i], v);
        RegularTranslate(k, fs[i], v);
      }
    case Tile(t, _, _, _) =>
      RegularTranslate(k, t, v);
      TileRegularTranslate(k, f, v);
    case Negative(fs) =>
      forall i | 0 <= i < |fs| ensures Regular(k, TranslateAll(fs, v)[i]) {
        RegularTranslate(k, fs[i], v);
      }
    case Rotate(fs, _) =>
      forall i | 0 <= i < |fs| ensures Regular(k, TranslateAll(fs, v)[i]) {
        RegularTranslate(k, fs[i], v);
      }
    case Named(g, _) =>
      TranslateMoves(k, g, v);
      RegularTranslate(k, g, v);
    case _ =>
  }
}
