/**
 * What each kind of feature promises on its own: where its constructors
 * put it, what its outline and interior are, and how the composites
 * combine their children.
 */
module FeatureFacts {
  import opened Wrappers
  import G = Geo
  import opened Common
  import A = Atoms
  import I = Inner
  import U = Unions
  import P = Pos
  import C = Columns
  import R = Repeating
  import opened Features
  import L = FeatureLaws

  // Rect.

  /** `with_center(c, w, h)` spans `c` minus and plus half the size, so it is centred on `c` with that size. */
  lemma RectWithCenterBox(c: G.Point, w: real, h: real)
    requires w >= 0.0 && h >= 0.0
    ensures var r := RectWithCenter(c, w, h).rect;
      && r.min == G.Point(c.x - w / 2.0, c.y - h / 2.0)
      && r.max == G.Point(c.x + w / 2.0, c.y + h / 2.0)
      && G.Center(r) == c && G.Width(r) == w && G.Height(r) == h
      && RectWithCenter(c, w, h).inner == I.Unit
  {
  }

  /** `with_inner` is the square from (−1, −1) to (1, 1) with the inner feature left untouched. */
  lemma RectWithInnerBox(inner: I.InnerFeature)
    ensures RectWithInner(inner) == Rect(G.Rect(G.Point(-1.0, -1.0), G.Point(1.0, 1.0)), inner)
  {
  }

  /** `dimensions(c, w, h)` builds the rectangle around the origin and then moves it, inner feature included, by `c`. */
  lemma RectDimensionsMoves(f: Feature, c: G.Point, w: real, h: real)
    requires f.Rect?
    ensures RectDimensions(f, c, w, h) == Translate(Rect(CenteredRect(G.Origin, w, h), f.inner), c)
  {
    var lo, hi := G.Point(-w / 2.0, -h / 2.0), G.Point(w / 2.0, h / 2.0);
    assert G.Add(G.Origin, lo) == lo && G.Add(G.Origin, hi) == hi;
    assert G.Add(c, lo) == G.Add(lo, c) && G.Add(c, hi) == G.Add(hi, c);
    I.RectNewTranslate(lo, hi, c);
  }

  /** `bounds(tl, br)` is `dimensions` with the centre and size of the box the two corners span. */
  lemma RectBoundsIsDimensions(f: Feature, topLeft: G.Point, bottomRight: G.Point)
    requires f.Rect?
    ensures var r := G.RectNew(topLeft, bottomRight);
      RectBounds(f, topLeft, bottomRight) == RectDimensions(f, G.Center(r), G.Width(r), G.Height(r))
  {
  }

  /** A rectangle's outline is one polygon whose box is the rectangle; it has no subtract geometry and its interior is its inner feature's atoms. */
  lemma RectOutline(k: G.Kernel, f: Feature)
    requires f.Rect? && G.Normal(f.rect)
    ensures EdgeUnion(k, f) == Some([G.RectPolygon(f.rect)])
    ensures G.Bounds(EdgeUnion(k, f).value) == Some(f.rect)
    ensures EdgeSubtract(k, f).None? && Interior(k, f) == I.Atoms(f.inner, k.screwHolePlated)
  {
    G.BoundsRectPolygon(f.rect);
  }

  // Circle.

  /** `with_inner(i, c, r)` is `wrap_with_radius(i, r)` moved to `c`; `new` and `with_radius` have no inner feature. */
  lemma CircleConstructors(inner: I.InnerFeature, c: G.Point, r: real)
    ensures CircleWithInner(inner, c, r) == Translate(CircleWrapWithRadius(inner, r), c)
    ensures CircleNew(c, r) == Circle(c, r, I.Unit) && CircleWithRadius(r) == Circle(G.Origin, r, I.Unit)
    ensures CircleWrapWithRadius(inner, r).center == G.Origin
  {
    assert G.Add(G.Origin, c) == c;
  }

  /**
   * A circle's outline is one polygon with no holes whose exterior is
   * exactly the 361 points of `CircleRing`: the ring already ends where it
   * starts, at the rightmost point, so closing it adds nothing.
   */
  lemma CircleOutline(k: G.Kernel, f: Feature)
    requires G.TurnLaws(k) && f.Circle?
    ensures var o := EdgeUnion(k, f);
      && o.Some? && |o.value| == 1 && o.value[0].interiors == []
      && o.value[0].exterior == CircleRing(k, f.center, f.radius)
      && |o.value[0].exterior| == 361
      && o.value[0].exterior[0] == G.Point(f.center.x + f.radius, f.center.y)
      && o.value[0].exterior[360] == G.Point(f.center.x + f.radius, f.center.y)
  {
    var ring := CircleRing(k, f.center, f.radius);
    assert ring[0] == CirclePoint(k, f.center, f.radius, 0);
    assert ring[360] == CirclePoint(k, f.center, f.radius, 360);
    assert G.Close(ring) == ring;
  }

  /** A circle around a screw hole emits the hole's four rings and its drill, all at the circle's centre. */
  lemma CircleScrewHole(k: G.Kernel, dia: real, c: G.Point, r: real)
    ensures var atoms := Interior(k, CircleWithInner(I.ScrewHoleWithDiameter(dia), c, r));
      && |atoms| == 5
      && (forall i :: 0 <= i < 4 ==> atoms[i] == A.Circle(c, dia / 2.0 + 0.3, I.PadLayers[i]))
      && atoms[4] == A.Drill(c, dia / 2.0, k.screwHolePlated)
  {
    var h := I.ScrewHoleWithDiameter(dia);
    I.ScrewHoleAtoms(dia, k.screwHolePlated);
    I.AtomsTranslate(h, k.screwHolePlated, c);
    assert G.Add(G.Origin, c) == c;
  }

  // Triangle.

  /** `right_angle(w, h)` has its corners at (−w/2, −h/2), (−w/2, h/2) and (w/2, h/2), and the angle at the second corner is right. */
  lemma RightAngleCorners(w: real, h: real)
    ensures var t := TriangleRightAngle(w, h).triangle;
      && t.a == G.Point(-w / 2.0, -h / 2.0) && t.b == G.Point(-w / 2.0, h / 2.0) && t.c == G.Point(w / 2.0, h / 2.0)
      && (t.a.x - t.b.x) * (t.c.x - t.b.x) + (t.a.y - t.b.y) * (t.c.y - t.b.y) == 0.0
      && TriangleRightAngle(w, h).rightAngle
  {
  }

  /** `with_inner` is the right triangle of size 2 × 2 around the origin, with the inner feature left untouched. */
  lemma TriangleWithInnerIsRight(inner: I.InnerFeature)
    ensures TriangleWithInner(inner) == Triangle(true, RightTriangle(G.Origin, 2.0, 2.0), inner)
  {
  }

  /** `dimensions(c, w, h)` is the right triangle around the origin moved, inner feature included, by `c`. */
  lemma TriangleDimensionsMoves(f: Feature, c: G.Point, w: real, h: real)
    requires f.Triangle?
    ensures TriangleDimensions(f, c, w, h) == Translate(Triangle(true, RightTriangle(G.Origin, w, h), f.inner), c)
  {
  }

  /** A triangle's outline is one polygon whose exterior is its three corners and the first again; it has a box, and its interior is its inner feature's atoms. */
  lemma TriangleOutline(k: G.Kernel, f: Feature)
    requires f.Triangle?
    ensures var t := f.triangle;
      EdgeUnion(k, f) == Some([G.Polygon([t.a, t.b, t.c, t.a], [])])
    ensures G.Bounds(EdgeUnion(k, f).value).Some?
    ensures EdgeSubtract(k, f).None? && Interior(k, f) == I.Atoms(f.inner, k.screwHolePlated)
  {
    var t := f.triangle;
    var none: seq<seq<G.Point>> := [];
    assert seq(|none|, i requires 0 <= i < |none| => G.Close(none[i])) == [];
    assert G.Close([t.a, t.b, t.c, t.a]) == [t.a, t.b, t.c, t.a];
    assert G.TriPolygon(t) == G.Polygon([t.a, t.b, t.c, t.a], []);
    G.BoundsPresent([G.TriPolygon(t)]);
  }

  // RMount.

  /** `new(d)` is 6.3 wide and `d + 2` high about the origin, facing up. */
  lemma RMountNewBox(depth: real)
    requires depth >= -2.0
    ensures var f := RMountNew(depth);
      && f.rect == G.Rect(G.Point(-3.15, -depth / 2.0 - 1.0), G.Point(3.15, depth / 2.0 + 1.0))
      && f.direction == Up && f.depth == depth
      && G.Width(f.rect) == 6.3 && G.Height(f.rect) == depth + 2.0
  {
  }

  /** `direction(d)` sets the direction and keeps rectangle and depth, so it commutes with moving the mount. */
  lemma RMountDirectionKeeps(f: Feature, d: Direction, v: G.Point)
    requires f.RMount?
    ensures RMountDirection(f, d) == RMount(d, f.rect, f.depth)
    ensures Translate(RMountDirection(f, d), v) == RMountDirection(Translate(f, v), d)
  {
  }

  /** An `RMount` emits exactly four unplated drills of radius 0.15; facing up they sit at its centre plus (±3.08, ±1.32). */
  lemma RMountDrillFacts(k: G.Kernel, f: Feature)
    requires f.RMount?
    ensures var atoms := Interior(k, f);
      && |atoms| == 4
      && forall i :: 0 <= i < 4 ==> atoms[i].Drill? && atoms[i].radius == 0.15 && !atoms[i].plated
    ensures G.TurnLaws(k) && f.direction.Up? ==>
      forall i :: 0 <= i < 4 ==> Interior(k, f)[i].center == G.Add(RMountDrillOffsets[i], G.Center(f.rect))
  {
    if G.TurnLaws(k) && f.direction.Up? {
      assert TurnAngle(f.direction) == 0.0;
      forall i | 0 <= i < 4 ensures Interior(k, f)[i].center == G.Add(RMountDrillOffsets[i], G.Center(f.rect)) {
        assert k.rotatePoint(RMountDrillOffsets[i], 0.0, G.Origin) == RMountDrillOffsets[i];
      }
    }
  }

  /** Facing up, an `RMount`'s outline is its rectangle. */
  lemma RMountUpOutline(k: G.Kernel, f: Feature)
    requires f.RMount? && f.direction.Up? && G.Normal(f.rect)
    ensures EdgeUnion(k, f) == Some([G.RectPolygon(f.rect)])
    ensures G.Bounds(EdgeUnion(k, f).value) == Some(f.rect)
  {
    G.BoundsRectPolygon(f.rect);
  }

  /**
   * Facing up, an `RMount` cuts the union of a channel 3.3 wide from
   * `d/2 + 1` below its centre to `d/2` above it and a nut pocket 6.24 by
   * 2.8 about its centre. (For a depth below −1 the channel's corners
   * swap, which `RectNew` absorbs.)
   */
  lemma RMountUpCut(k: G.Kernel, f: Feature)
    requires f.RMount? && f.direction.Up?
    ensures var c := G.Center(f.rect);
      var channel := G.Rect(G.Point(c.x - 1.65, c.y - f.depth / 2.0 - 1.0), G.Point(c.x + 1.65, c.y + f.depth / 2.0));
      var nut := G.Rect(G.Point(c.x - 3.12, c.y - 1.4), G.Point(c.x + 3.12, c.y + 1.4));
      f.depth >= -1.0 ==> EdgeSubtract(k, f) == Some(k.union([G.RectPolygon(channel)], [G.RectPolygon(nut)]))
  {
    if f.depth >= -1.0 {
      RMountCutRects(k, f.rect, f.depth);
    }
  }

  /** The rectangles of an `RMount` cut about the centre of `r`, when the channel's corners are in order. */
  lemma RMountCutRects(k: G.Kernel, r: G.Rect, depth: real)
    requires depth >= -1.0
    ensures var c := G.Center(r);
      var channel := G.Rect(G.Point(c.x - 1.65, c.y - depth / 2.0 - 1.0), G.Point(c.x + 1.65, c.y + depth / 2.0));
      var nut := G.Rect(G.Point(c.x - 3.12, c.y - 1.4), G.Point(c.x + 3.12, c.y + 1.4));
      && G.Normal(channel) && G.Normal(nut)
      && RMountCut(k, r, depth) == k.union([G.RectPolygon(channel)], [G.RectPolygon(nut)])
  {
    var c := G.Center(r);
    assert G.RectNew(G.Add(G.Point(-1.65, -depth / 2.0 - 1.0), c), G.Add(G.Point(1.65, depth / 2.0), c))
        == G.Rect(G.Point(c.x - 1.65, c.y - depth / 2.0 - 1.0), G.Point(c.x + 1.65, c.y + depth / 2.0));
    assert G.RectNew(G.Add(G.Point(-3.12, -1.4), c), G.Add(G.Point(3.12, 1.4), c))
        == G.Rect(G.Point(c.x - 3.12, c.y - 1.4), G.Point(c.x + 3.12, c.y + 1.4));
  }

  /** The box of an `RMount` cut is the join of its channel and its nut pocket. */
  lemma RMountCutBox(k: G.Kernel, r: G.Rect, depth: real)
    requires G.UnionBoundsLaw(k)
    ensures G.Bounds(RMountCut(k, r, depth)) == Some(G.Join(RMountChannel(r, depth), RMountNut(r)))
  {
    UnionOfRects(k, RMountChannel(r, depth), RMountNut(r));
  }

  /** The union of two rectangles has the join of the two as its box. */
  lemma UnionOfRects(k: G.Kernel, a: G.Rect, b: G.Rect)
    requires G.UnionBoundsLaw(k) && G.Normal(a) && G.Normal(b)
    ensures G.Bounds(k.union([G.RectPolygon(a)], [G.RectPolygon(b)])) == Some(G.Join(a, b))
  {
    G.BoundsRectPolygon(a);
    G.BoundsRectPolygon(b);
  }

  // Unit.

  /** `Unit` has no geometry of any kind and does not move. */
  lemma UnitInert(k: G.Kernel, v: G.Point, plated: bool)
    ensures EdgeUnion(k, Unit).None? && EdgeSubtract(k, Unit).None?
    ensures Interior(k, Unit) == [] && NamedInfos(k, Unit) == [] && Translate(Unit, v) == Unit
    ensures I.Translate(I.Unit, v) == I.Unit && I.Atoms(I.Unit, plated) == []
  {
  }

  // AtPos.

  lemma {:induction false} PlaceAtomsSnoc(bounds: G.Rect, outs: seq<Option<G.MultiPolygon>>, atoms: seq<seq<A.InnerAtom>>,
                                          poss: seq<P.Positioning>, o: Option<G.MultiPolygon>, a: seq<A.InnerAtom>, p: P.Positioning)
    requires |outs| == |atoms| == |poss|
    ensures P.PlaceAtoms(bounds, outs + [o], atoms + [a], poss + [p])
         == P.PlaceAtoms(bounds, outs, atoms, poss) + P.PlacedAtoms(bounds, o, a, p)
    decreases |outs|
  {
    if |outs| == 0 {
      assert P.PlaceAtoms(bounds, [o], [a], [p]) == P.PlacedAtoms(bounds, o, a, p) + P.PlaceAtoms(bounds, [], [], []);
    } else {
      assert (outs + [o])[1..] == outs[1..] + [o];
      assert (atoms + [a])[1..] == atoms[1..] + [a];
      assert (poss + [p])[1..] == poss[1..] + [p];
      PlaceAtomsSnoc(bounds, outs[1..], atoms[1..], poss[1..], o, a, p);
    }
  }

  lemma {:induction false} PlaceSnoc(k: G.Kernel, bounds: G.Rect, out: G.MultiPolygon, outs: seq<Option<G.MultiPolygon>>,
                                     poss: seq<P.Positioning>, o: Option<G.MultiPolygon>, p: P.Positioning)
    requires |outs| == |poss|
    ensures P.Place(k, bounds, out, outs + [o], poss + [p]) == P.PlaceOne(k, bounds, P.Place(k, bounds, out, outs, poss), o, p)
    decreases |outs|
  {
    if |outs| == 0 {
      assert (outs + [o])[1..] == [] && (poss + [p])[1..] == [];
    } else {
      assert (outs + [o])[1..] == outs[1..] + [o];
      assert (poss + [p])[1..] == poss[1..] + [p];
      PlaceSnoc(k, bounds, P.PlaceOne(k, bounds, out, outs[0], poss[0]), outs[1..], poss[1..], o, p);
    }
  }

  /** `push` adds one secondary after the others, and the interior gains its atoms moved into place (nothing when it has no outline). */
  lemma AtPosPushInterior(k: G.Kernel, f: Feature, g: Feature, pos: P.Positioning)
    requires f.AtPos?
    ensures var f' := AtPosPush(f, g, pos);
      var b := G.BoundsOr(P.PrimaryOutline(EdgeUnion(k, f.primary)));
      && f'.primary == f.primary && f'.elements == f.elements + [Element(g, pos)]
      && Interior(k, f') == Interior(k, f) + P.PlacedAtoms(b, EdgeUnion(k, g), Interior(k, g), pos)
  {
    var f' := AtPosPush(f, g, pos);
    var b := G.BoundsOr(P.PrimaryOutline(EdgeUnion(k, f.primary)));
    PushLists(k, f, g, pos);
    var outs, atoms, poss := ElementOutlines(k, f), ElementInteriors(k, f), Positions(f.elements);
    PlaceAtomsSnoc(b, outs, atoms, poss, EdgeUnion(k, g), Interior(k, g), pos);
    InteriorOfAtPos(k, f);
    InteriorOfAtPos(k, f');
    AppendAssoc(Interior(k, f.primary), P.PlaceAtoms(b, outs, atoms, poss), P.PlacedAtoms(b, EdgeUnion(k, g), Interior(k, g), pos));
  }

  lemma AppendAssoc(a: seq<A.InnerAtom>, b: seq<A.InnerAtom>, c: seq<A.InnerAtom>)
    ensures a + (b + c) == (a + b) + c
  {
  }

  /** The interior of a positioned feature: the primary's atoms, then each secondary's moved into place. */
  lemma InteriorOfAtPos(k: G.Kernel, f: Feature)
    requires f.AtPos?
    ensures Interior(k, f) == Interior(k, f.primary)
      + P.PlaceAtoms(G.BoundsOr(P.PrimaryOutline(EdgeUnion(k, f.primary))), ElementOutlines(k, f), ElementInteriors(k, f), Positions(f.elements))
  {
  }

  /** The per-secondary lists of a positioned feature after `push` gain one entry at the end. */
  lemma PushLists(k: G.Kernel, f: Feature, g: Feature, pos: P.Positioning)
    requires f.AtPos?
    ensures var f' := AtPosPush(f, g, pos);
      && ElementOutlines(k, f') == ElementOutlines(k, f) + [EdgeUnion(k, g)]
      && ElementInteriors(k, f') == ElementInteriors(k, f) + [Interior(k, g)]
      && Positions(f'.elements) == Positions(f.elements) + [pos]
  {
    var f' := AtPosPush(f, g, pos);
    var n := |f.elements|;
    assert forall i :: 0 <= i < n ==> f'.elements[i] == f.elements[i];
    assert f'.elements[n] == Element(g, pos);
  }

  /** After `push`, the outline is the earlier placed union with the new secondary moved into place and unioned on. */
  lemma AtPosPushOutline(k: G.Kernel, f: Feature, g: Feature, pos: P.Positioning)
    requires f.AtPos?
    ensures var out := P.PrimaryOutline(EdgeUnion(k, f.primary));
      var b := G.BoundsOr(out);
      var res := P.PlaceOne(k, b, P.Place(k, b, out, ElementOutlines(k, f), Positions(f.elements)), EdgeUnion(k, g), pos);
      EdgeUnion(k, AtPosPush(f, g, pos)) == if |res| > 0 then Some(res) else None
  {
    var out := P.PrimaryOutline(EdgeUnion(k, f.primary));
    PushLists(k, f, g, pos);
    PlaceSnoc(k, G.BoundsOr(out), out, ElementOutlines(k, f), Positions(f.elements), EdgeUnion(k, g), pos);
  }

  /** `new` has no secondaries, and its outline and interior are the primary's. */
  lemma AtPosNewIsPrimary(k: G.Kernel, p: Feature)
    requires G.BoundsLaws(k)
    ensures AtPosNew(p).elements == []
    ensures Interior(k, AtPosNew(p)) == Interior(k, p)
    ensures EdgeUnion(k, AtPosNew(p)) == (if EdgeUnion(k, p).Some? && |EdgeUnion(k, p).value| > 0 then EdgeUnion(k, p) else None)
  {
  }

  /**
   * `x_ends` puts the left secondary (if any) before the right one (if
   * any); with both, the interior is the primary's atoms and then each
   * secondary's atoms moved so that the secondary's box is centred on the
   * middle of the primary box's left and right edge.
   */
  lemma XEndsPlacement(k: G.Kernel, p: Feature, l: Feature, r: Feature)
    requires EdgeUnion(k, p).Some? && EdgeUnion(k, l).Some? && EdgeUnion(k, r).Some?
    ensures var f := AtPosXEnds(p, Some(l), Some(r));
      var b := G.BoundsOr(EdgeUnion(k, p).value);
      var lb, rb := G.BoundsOr(EdgeUnion(k, l).value), G.BoundsOr(EdgeUnion(k, r).value);
      var tl, tr := P.ComputeTranslation(Beside(Left), b, lb), P.ComputeTranslation(Beside(Right), b, rb);
      && f.elements == [Element(l, Beside(Left)), Element(r, Beside(Right))]
      && Interior(k, f) == Interior(k, p) + A.TranslateAll(Interior(k, l), tl) + A.TranslateAll(Interior(k, r), tr)
      && G.Center(G.TranslateRect(lb, tl)) == G.Point(b.min.x, G.Center(b).y)
      && G.Center(G.TranslateRect(rb, tr)) == G.Point(b.max.x, G.Center(b).y)
  {
    var b := G.BoundsOr(EdgeUnion(k, p).value);
    var lb, rb := G.BoundsOr(EdgeUnion(k, l).value), G.BoundsOr(EdgeUnion(k, r).value);
    P.TranslationLands(Beside(Left), b, lb);
    P.TranslationLands(Beside(Right), b, rb);
    XEndsInterior(k, p, l, r);
  }

  /** The interior half of `XEndsPlacement`: two pushes onto an empty `AtPos`. */
  lemma XEndsInterior(k: G.Kernel, p: Feature, l: Feature, r: Feature)
    requires EdgeUnion(k, p).Some? && EdgeUnion(k, l).Some? && EdgeUnion(k, r).Some?
    ensures var b := G.BoundsOr(EdgeUnion(k, p).value);
      var tl := P.ComputeTranslation(Beside(Left), b, G.BoundsOr(EdgeUnion(k, l).value));
      var tr := P.ComputeTranslation(Beside(Right), b, G.BoundsOr(EdgeUnion(k, r).value));
      && AtPosXEnds(p, Some(l), Some(r)).elements == [Element(l, Beside(Left)), Element(r, Beside(Right))]
      && Interior(k, AtPosXEnds(p, Some(l), Some(r)))
         == Interior(k, p) + A.TranslateAll(Interior(k, l), tl) + A.TranslateAll(Interior(k, r), tr)
  {
    var b := G.BoundsOr(P.PrimaryOutline(EdgeUnion(k, p)));
    var f0 := AtPosNew(p);
    var f1 := AtPosPush(f0, l, Beside(Left));
    XEndsPushes(p, l, r);
    AtPosNewInterior(k, p);
    AtPosPushInterior(k, f0, l, Beside(Left));
    AtPosPushInterior(k, f1, r, Beside(Right));
    P.PlacedSome(b, EdgeUnion(k, l), Interior(k, l), Beside(Left));
    P.PlacedSome(b, EdgeUnion(k, r), Interior(k, r), Beside(Right));
  }

  /** `x_ends` with both secondaries is `new` followed by a left and a right `push`. */
  lemma XEndsPushes(p: Feature, l: Feature, r: Feature)
    ensures AtPosXEnds(p, Some(l), Some(r)) == AtPosPush(AtPosPush(AtPosNew(p), l, Beside(Left)), r, Beside(Right))
    ensures AtPosXEnds(p, Some(l), Some(r)).elements == [Element(l, Beside(Left)), Element(r, Beside(Right))]
  {
  }

  /** A positioned feature without secondaries has the interior of its primary. */
  lemma AtPosNewInterior(k: G.Kernel, p: Feature)
    ensures Interior(k, AtPosNew(p)) == Interior(k, p)
  {
    var f := AtPosNew(p);
    InteriorOfAtPos(k, f);
    assert ElementOutlines(k, f) == [] && ElementInteriors(k, f) == [] && Positions(f.elements) == [];
  }

  /**
   * The positioning example of `x_ends`: a 2 × 3 rectangle at (4, 2) with
   * a screw-hole circle on each end. When a circle's outline box is
   * centred on the circle, the left hole's five atoms end up at (3, 2) and
   * the right hole's at (5, 2).
   */
  lemma XEndsExample(k: G.Kernel)
    requires var c := CircleWrapWithRadius(I.ScrewHoleWithDiameter(1.0), 2.0);
      G.Center(G.BoundsOr(EdgeUnion(k, c).value)) == G.Origin
    ensures var c := CircleWrapWithRadius(I.ScrewHoleWithDiameter(1.0), 2.0);
      var atoms := Interior(k, AtPosXEnds(RectWithCenter(G.Point(4.0, 2.0), 2.0, 3.0), Some(c), Some(c)));
      && |atoms| == 10
      && (forall i :: 0 <= i < 4 ==> atoms[i] == A.Circle(G.Point(3.0, 2.0), 0.8, I.PadLayers[i]))
      && atoms[4] == A.Drill(G.Point(3.0, 2.0), 0.5, k.screwHolePlated)
      && (forall i :: 5 <= i < 9 ==> atoms[i] == A.Circle(G.Point(5.0, 2.0), 0.8, I.PadLayers[i - 5]))
      && atoms[9] == A.Drill(G.Point(5.0, 2.0), 0.5, k.screwHolePlated)
  {
    var c := CircleWrapWithRadius(I.ScrewHoleWithDiameter(1.0), 2.0);
    var p := RectWithCenter(G.Point(4.0, 2.0), 2.0, 3.0);
    var b := G.Rect(G.Point(3.0, 0.5), G.Point(5.0, 3.5));
    ExampleRect(k);
    XEndsPlacement(k, p, c, c);
    var cb := G.BoundsOr(EdgeUnion(k, c).value);
    var tl, tr := P.ComputeTranslation(Beside(Left), b, cb), P.ComputeTranslation(Beside(Right), b, cb);
    ExampleOffsets(cb);
    MovedHoleAtoms(k, tl);
    MovedHoleAtoms(k, tr);
    var ls, rs := A.TranslateAll(Interior(k, c), tl), A.TranslateAll(Interior(k, c), tr);
    assert [] + ls + rs == ls + rs;
    TwoHoles(ls, rs, tl, tr, k.screwHolePlated);
  }

  /** The primary of the example: its outline box is the rectangle itself, and it has no atoms. */
  lemma ExampleRect(k: G.Kernel)
    ensures var p := RectWithCenter(G.Point(4.0, 2.0), 2.0, 3.0);
      && EdgeUnion(k, p).Some?
      && G.BoundsOr(EdgeUnion(k, p).value) == G.Rect(G.Point(3.0, 0.5), G.Point(5.0, 3.5))
      && Interior(k, p) == []
  {
    var b := G.Rect(G.Point(3.0, 0.5), G.Point(5.0, 3.5));
    assert RectWithCenter(G.Point(4.0, 2.0), 2.0, 3.0).rect == b;
    G.BoundsRectPolygon(b);
  }

  /** A box centred on the origin lands on (3, 2) on the left of the example rectangle and on (5, 2) on its right. */
  lemma ExampleOffsets(cb: G.Rect)
    requires G.Center(cb) == G.Origin
    ensures var b := G.Rect(G.Point(3.0, 0.5), G.Point(5.0, 3.5));
      && P.ComputeTranslation(Beside(Left), b, cb) == G.Point(3.0, 2.0)
      && P.ComputeTranslation(Beside(Right), b, cb) == G.Point(5.0, 2.0)
  {
  }

  /** Two moved screw holes one after the other: five atoms each. */
  lemma TwoHoles(ls: seq<A.InnerAtom>, rs: seq<A.InnerAtom>, tl: G.Point, tr: G.Point, plated: bool)
    requires |ls| == 5 && (forall i :: 0 <= i < 4 ==> ls[i] == A.Circle(tl, 0.8, I.PadLayers[i])) && ls[4] == A.Drill(tl, 0.5, plated)
    requires |rs| == 5 && (forall i :: 0 <= i < 4 ==> rs[i] == A.Circle(tr, 0.8, I.PadLayers[i])) && rs[4] == A.Drill(tr, 0.5, plated)
    ensures var atoms := ls + rs;
      && |atoms| == 10
      && (forall i :: 0 <= i < 4 ==> atoms[i] == A.Circle(tl, 0.8, I.PadLayers[i]))
      && atoms[4] == A.Drill(tl, 0.5, plated)
      && (forall i :: 5 <= i < 9 ==> atoms[i] == A.Circle(tr, 0.8, I.PadLayers[i - 5]))
      && atoms[9] == A.Drill(tr, 0.5, plated)
  {
  }

  /** The atoms of a screw hole of diameter 1 in a circle at the origin, moved by `t`. */
  lemma MovedHoleAtoms(k: G.Kernel, t: G.Point)
    ensures var atoms := A.TranslateAll(Interior(k, CircleWrapWithRadius(I.ScrewHoleWithDiameter(1.0), 2.0)), t);
      && |atoms| == 5
      && (forall i :: 0 <= i < 4 ==> atoms[i] == A.Circle(t, 0.8, I.PadLayers[i]))
      && atoms[4] == A.Drill(t, 0.5, k.screwHolePlated)
  {
    I.ScrewHoleAtoms(1.0, k.screwHolePlated);
    assert G.Add(G.Origin, t) == t;
  }

  // Column.

  /**
   * `Column::new` moves every child that has an outline so that its box
   * starts at the origin; children keep whether they have an outline.
   */
  lemma ColumnNewNormalizes(k: G.Kernel, fs: seq<Feature>, align: Align, i: nat)
    requires G.BoundsLaws(k) && G.MotionLaws(k) && L.RegularAll(k, fs) && i < |fs|
    ensures var g := ColumnNew(k, fs, align).children[i];
      && (EdgeUnion(k, g).Some? <==> EdgeUnion(k, fs[i]).Some?)
      && (EdgeUnion(k, g).Some? ==> G.Bounds(EdgeUnion(k, g).value).Some? && G.BoundsOr(EdgeUnion(k, g).value).min == G.Origin)
  {
    var f := fs[i];
    if EdgeUnion(k, f).Some? {
      var m := EdgeUnion(k, f).value;
      L.Solid(k, f);
      var v := G.Neg(G.BoundsOr(m).min);
      L.TranslateMoves(k, f, v);
      G.BoundsOrTranslate(m, v);
      G.BoundsTranslate(m, v);
    }
  }

  /**
   * In a column built by `Column::new`, children are stacked without
   * overlap: every child with an outline ends at or above where each later
   * one begins.
   */
  lemma ColumnNewStacks(k: G.Kernel, fs: seq<Feature>, align: Align, i: nat, j: nat)
    requires G.BoundsLaws(k) && G.MotionLaws(k) && L.RegularAll(k, fs) && i < j < |fs|
    requires EdgeUnion(k, fs[i]).Some? && EdgeUnion(k, fs[j]).Some?
    ensures var outs := Outlines(k, ColumnNew(k, fs, align).children);
      C.PlacedBounds(outs, align, i).max.y <= C.PlacedBounds(outs, align, j).min.y
  {
    ColumnNewNormalizes(k, fs, align, i);
    ColumnNewNormalizes(k, fs, align, j);
    C.Stacked(Outlines(k, ColumnNew(k, fs, align).children), align, i, j);
  }

  // Negative.

  /** A `Negative` has an outline exactly when some child has subtract geometry, and subtract geometry exactly when some child has an outline. */
  lemma NegativeNone(k: G.Kernel, fs: seq<Feature>)
    ensures EdgeUnion(k, Negative(fs)).None? <==> forall i :: 0 <= i < |fs| ==> EdgeSubtract(k, fs[i]).None?
    ensures EdgeSubtract(k, Negative(fs)).None? <==> forall i :: 0 <= i < |fs| ==> EdgeUnion(k, fs[i]).None?
    ensures Interior(k, Negative(fs)) == []
  {
    U.FoldUnionNone(k, Subtracts(k, fs));
    U.FoldUnionNone(k, Outlines(k, fs));
    assert forall i :: 0 <= i < |fs| ==> Subtracts(k, fs)[i] == EdgeSubtract(k, fs[i]);
    assert forall i :: 0 <= i < |fs| ==> Outlines(k, fs)[i] == EdgeUnion(k, fs[i]);
  }

  /** The example of negative.rs: two plain rectangles have no outline, and they subtract the union of both, whose box is their join. */
  lemma NegativeOfRects(k: G.Kernel, r1: G.Rect, r2: G.Rect)
    requires G.BoundsLaws(k) && G.Normal(r1) && G.Normal(r2)
    ensures var n := Negative([Rect(r1, I.Unit), Rect(r2, I.Unit)]);
      && EdgeUnion(k, n).None?
      && EdgeSubtract(k, n) == Some(k.union([G.RectPolygon(r2)], [G.RectPolygon(r1)]))
      && G.Bounds(EdgeSubtract(k, n).value) == Some(G.Join(r2, r1))
  {
    NegativeNone(k, [Rect(r1, I.Unit), Rect(r2, I.Unit)]);
    NegativeRectsSubtract(k, r1, r2);
    UnionOfRects(k, r2, r1);
  }

  /** The subtract geometry of two negative rectangles folds the second into the first. */
  lemma NegativeRectsSubtract(k: G.Kernel, r1: G.Rect, r2: G.Rect)
    ensures EdgeSubtract(k, Negative([Rect(r1, I.Unit), Rect(r2, I.Unit)])) == Some(k.union([G.RectPolygon(r2)], [G.RectPolygon(r1)]))
  {
    var fs := [Rect(r1, I.Unit), Rect(r2, I.Unit)];
    var outs := Outlines(k, fs);
    assert outs[0] == EdgeUnion(k, fs[0]) == Some([G.RectPolygon(r1)]);
    assert outs[1] == EdgeUnion(k, fs[1]) == Some([G.RectPolygon(r2)]);
    assert outs == [Some([G.RectPolygon(r1)]), Some([G.RectPolygon(r2)])];
    assert outs[1..] == [Some([G.RectPolygon(r2)])] && outs[1..][1..] == [];
    var p1, p2 := [G.RectPolygon(r1)], [G.RectPolygon(r2)];
    assert U.FoldFrom(k, None, outs) == U.FoldFrom(k, Some(p1), outs[1..]);
    assert U.FoldFrom(k, Some(p1), outs[1..]) == U.FoldFrom(k, Some(k.union(p2, p1)), []);
  }

  /** A `Negative` of a `Negative` swaps the roles twice: its outline is the union of the inner children's outlines. */
  lemma DoubleNegative(k: G.Kernel, fs: seq<Feature>)
    ensures EdgeUnion(k, Negative([Negative(fs)])) == U.FoldUnion(k, Outlines(k, fs))
    ensures EdgeSubtract(k, Negative([Negative(fs)])) == U.FoldUnion(k, Subtracts(k, fs))
  {
    var s := Subtracts(k, [Negative(fs)]);
    assert s == [EdgeSubtract(k, Negative(fs))] && s[1..] == [];
    assert U.FoldUnion(k, s) == U.FoldFrom(k, U.Step(k, None, s[0]), s[1..]);
    assert U.FoldUnion(k, s) == s[0];
    var o := Outlines(k, [Negative(fs)]);
    assert o == [EdgeUnion(k, Negative(fs))] && o[1..] == [];
    assert U.FoldUnion(k, o) == U.FoldFrom(k, U.Step(k, None, o[0]), o[1..]);
    assert U.FoldUnion(k, o) == o[0];
  }

  /** The named boxes of a `Negative` of named features are the children's, one each, in child order. */
  lemma {:induction false} NegativeNamedInfos(k: G.Kernel, fs: seq<Feature>)
    requires forall i :: 0 <= i < |fs| ==> fs[i].Named?
    ensures NamedInfos(k, Negative(fs)) == seq(|fs|, i requires 0 <= i < |fs| => A.NamedInfo(fs[i].name, NamedBounds(k, fs[i].feature)))
    decreases |fs|
  {
    if |fs| > 0 {
      NegativeNamedInfos(k, fs[1..]);
      var want := seq(|fs|, i requires 0 <= i < |fs| => A.NamedInfo(fs[i].name, NamedBounds(k, fs[i].feature)));
      assert NamedInfos(k, Negative(fs)) == NamedInfos(k, fs[0]) + NamedInfos(k, Negative(fs[1..]));
      assert want == [want[0]] + want[1..];
    }
  }

  // Rotate.

  /** A `Rotate` has an outline (subtract geometry) exactly when some child has one; it has no interior and no named boxes. */
  lemma RotateNone(k: G.Kernel, fs: seq<Feature>, degrees: real)
    ensures EdgeUnion(k, Rotate(fs, degrees)).None? <==> forall i :: 0 <= i < |fs| ==> EdgeUnion(k, fs[i]).None?
    ensures EdgeSubtract(k, Rotate(fs, degrees)).None? <==> forall i :: 0 <= i < |fs| ==> EdgeSubtract(k, fs[i]).None?
    ensures Interior(k, Rotate(fs, degrees)) == [] && NamedInfos(k, Rotate(fs, degrees)) == []
    ensures Translate(Rotate(fs, degrees), G.Origin).degrees == degrees
  {
    RotatedChildrenNone(k, fs, degrees);
  }

  /** Rotating the children's geometry leaves the union empty exactly when every child's geometry is empty. */
  lemma RotatedChildrenNone(k: G.Kernel, fs: seq<Feature>, degrees: real)
    ensures U.FoldUnion(k, RotateOutlines(k, Outlines(k, fs), degrees)).None? <==> forall i :: 0 <= i < |fs| ==> EdgeUnion(k, fs[i]).None?
    ensures U.FoldUnion(k, RotateOutlines(k, Subtracts(k, fs), degrees)).None? <==> forall i :: 0 <= i < |fs| ==> EdgeSubtract(k, fs[i]).None?
  {
    var o := RotateOutlines(k, Outlines(k, fs), degrees);
    var s := RotateOutlines(k, Subtracts(k, fs), degrees);
    U.FoldUnionNone(k, o);
    U.FoldUnionNone(k, s);
    assert forall i :: 0 <= i < |fs| ==> (o[i].None? <==> EdgeUnion(k, fs[i]).None?);
    assert forall i :: 0 <= i < |fs| ==> (s[i].None? <==> EdgeSubtract(k, fs[i]).None?);
  }

  // Named.

  /**
   * `Named` forwards its geometry and reports exactly one named box, under
   * its own name: that of the wrapped outline, else of the wrapped
   * subtract geometry, else the zero rectangle. A wrapped `Named`'s own
   * box is not reported.
   */
  lemma NamedFacts(k: G.Kernel, g: Feature, name: string, inner: string)
    requires G.BoundsLaws(k)
    ensures EdgeUnion(k, Named(g, name)) == EdgeUnion(k, g) && EdgeSubtract(k, Named(g, name)) == EdgeSubtract(k, g)
    ensures Interior(k, Named(g, name)) == Interior(k, g)
    ensures var infos := NamedInfos(k, Named(g, name));
      && |infos| == 1 && infos[0].name == name
      && (EdgeUnion(k, g).Some? ==> Some(infos[0].bounds) == G.Bounds(EdgeUnion(k, g).value))
      && (EdgeUnion(k, g).None? && EdgeSubtract(k, g).Some? ==> Some(infos[0].bounds) == G.Bounds(EdgeSubtract(k, g).value))
      && (EdgeUnion(k, g).None? && EdgeSubtract(k, g).None? ==> infos[0].bounds == G.ZeroRect)
    ensures NamedInfos(k, Named(Named(g, inner), name)) == [A.NamedInfo(name, NamedBounds(k, g))]
  {
    NamedBoundsCases(k, g);
  }

  /** The named box of a feature is the box of its outline, else of its subtract geometry, else the zero rectangle. */
  lemma NamedBoundsCases(k: G.Kernel, g: Feature)
    requires G.BoundsLaws(k)
    ensures EdgeUnion(k, g).Some? ==> Some(NamedBounds(k, g)) == G.Bounds(EdgeUnion(k, g).value)
    ensures EdgeUnion(k, g).None? && EdgeSubtract(k, g).Some? ==> Some(NamedBounds(k, g)) == G.Bounds(EdgeSubtract(k, g).value)
    ensures EdgeUnion(k, g).None? && EdgeSubtract(k, g).None? ==> NamedBounds(k, g) == G.ZeroRect
  {
    L.Solid(k, g);
  }
}
