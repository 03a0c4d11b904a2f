/**
 * Planar geometry as the `geo` crate provides it to the panel code:
 * coordinates, axis-aligned rectangles, triangles, polygons and
 * multi-polygons. Translation and bounding boxes are computed exactly
 * (with `real` in place of `f64`); the operations the panel code only
 * calls into the polygon libraries for (boolean union, rotation, the
 * convex hull) are the fields of a `Kernel`, a parameter of the model.
 */
module Geo {
  import opened Wrappers

  /** A coordinate of the plane (`geo::Coordinate<f64>`). */
  datatype Point = Point(x: real, y: real)

  const Origin := Point(0.0, 0.0)

  function Add(p: Point, q: Point): Point { Point(p.x + q.x, p.y + q.y) }

  function Neg(p: Point): Point { Point(-p.x, -p.y) }

  /** The point `s` times `p`, used for the i-th repetition offset. */
  function Scale(s: real, p: Point): Point { Point(s * p.x, s * p.y) }

  function Min(a: real, b: real): real { if a <= b then a else b }

  function Max(a: real, b: real): real { if a <= b then b else a }

  /** An axis-aligned rectangle (`geo::Rect`) from its lower corner `min` to its upper corner `max`. */
  datatype Rect = Rect(min: Point, max: Point)

  predicate Normal(r: Rect) { r.min.x <= r.max.x && r.min.y <= r.max.y }

  /** `geo::Rect::new`: the rectangle spanned by two opposite corners given in any order. */
  function RectNew(a: Point, b: Point): (r: Rect)
    ensures Normal(r)
  {
    Rect(Point(Min(a.x, b.x), Min(a.y, b.y)), Point(Max(a.x, b.x), Max(a.y, b.y)))
  }

  /** The degenerate rectangle at the origin, which the source substitutes for a missing bounding box. */
  const ZeroRect := Rect(Origin, Origin)

  function Width(r: Rect): real { r.max.x - r.min.x }

  function Height(r: Rect): real { r.max.y - r.min.y }

  function Center(r: Rect): Point { Point((r.min.x + r.max.x) / 2.0, (r.min.y + r.max.y) / 2.0) }

  function TranslateRect(r: Rect, v: Point): Rect { Rect(Add(r.min, v), Add(r.max, v)) }

  /** The smallest rectangle holding both `a` and `b`. */
  function Join(a: Rect, b: Rect): Rect
  {
    Rect(Point(Min(a.min.x, b.min.x), Min(a.min.y, b.min.y)), Point(Max(a.max.x, b.max.x), Max(a.max.y, b.max.y)))
  }

  function JoinOpt(a: Option<Rect>, b: Option<Rect>): Option<Rect>
  {
    match (a, b)
    case (None, _) => b
    case (_, None) => a
    case (Some(x), Some(y)) => Some(Join(x, y))
  }

  function TranslateRectOpt(r: Option<Rect>, v: Point): Option<Rect>
  {
    match r
    case None => None
    case Some(x) => Some(TranslateRect(x, v))
  }

  /** `geo::Triangle`, three corners. */
  datatype Tri = Tri(a: Point, b: Point, c: Point)

  function TranslateTri(t: Tri, v: Point): Tri { Tri(Add(t.a, v), Add(t.b, v), Add(t.c, v)) }

  /** `geo::Polygon`: an exterior ring and interior rings (holes), each a closed sequence of points. */
  datatype Polygon = Polygon(exterior: seq<Point>, interiors: seq<seq<Point>>)

  type MultiPolygon = seq<Polygon>

  /** `LineString::close`: a non-empty ring whose last point is not its first gets the first point appended. */
  function Close(ring: seq<Point>): (r: seq<Point>)
    ensures |r| > 0 ==> r[0] == r[|r| - 1]
    ensures |ring| <= |r| <= |ring| + 1 && r[..|ring|] == ring
  {
    if |ring| > 0 && ring[0] != ring[|ring| - 1] then ring + [ring[0]] else ring
  }

  /** `geo::Polygon::new`, which closes every ring it is given. */
  function PolygonNew(exterior: seq<Point>, interiors: seq<seq<Point>>): Polygon
  {
    Polygon(Close(exterior), seq(|interiors|, i requires 0 <= i < |interiors| => Close(interiors[i])))
  }

  /** `Rect::to_polygon`: the ring min, (min.x, max.y), max, (max.x, min.y), min. */
  function RectPolygon(r: Rect): Polygon
  {
    PolygonNew([r.min, Point(r.min.x, r.max.y), r.max, Point(r.max.x, r.min.y), r.min], [])
  }

  /** `Triangle::to_polygon`: the ring a, b, c, a. */
  function TriPolygon(t: Tri): Polygon { PolygonNew([t.a, t.b, t.c, t.a], []) }

  function TranslatePoints(ps: seq<Point>, v: Point): (r: seq<Point>)
    ensures |r| == |ps|
  {
    seq(|ps|, i requires 0 <= i < |ps| => Add(ps[i], v))
  }

  function TranslatePolygon(p: Polygon, v: Point): Polygon
  {
    Polygon(TranslatePoints(p.exterior, v),
            seq(|p.interiors|, i requires 0 <= i < |p.interiors| => TranslatePoints(p.interiors[i], v)))
  }

  function TranslateMulti(m: MultiPolygon, v: Point): (r: MultiPolygon)
    ensures |r| == |m|
  {
    seq(|m|, i requires 0 <= i < |m| => TranslatePolygon(m[i], v))
  }

  /** An optional outline moved by `v`, as `Option::map(|g| g.translate(..))`. */
  function TranslateOutline(o: Option<MultiPolygon>, v: Point): Option<MultiPolygon>
  {
    match o
    case None => None
    case Some(m) => Some(TranslateMulti(m, v))
  }

  /** The bounding rectangle of a point sequence; `None` when it has no points. */
  function PointsBounds(ps: seq<Point>): Option<Rect>
  {
    if |ps| == 0 then None else JoinOpt(Some(Rect(ps[0], ps[0])), PointsBounds(ps[1..]))
  }

  /** `BoundingRect` of a multi-polygon: the bounding rectangle of all exterior points. */
  function Bounds(m: MultiPolygon): Option<Rect>
  {
    if |m| == 0 then None else JoinOpt(PointsBounds(m[0].exterior), Bounds(m[1..]))
  }

  /** `bounding_rect().unwrap()`; the source panics where this gives `ZeroRect`. */
  function BoundsOr(m: MultiPolygon): Rect
  {
    match Bounds(m)
    case Some(r) => r
    case None => ZeroRect
  }

  /** Every exterior point of every polygon, in order (the convex hull's input). */
  function ExteriorPoints(m: MultiPolygon): seq<Point>
  {
    if |m| == 0 then [] else m[0].exterior + ExteriorPoints(m[1..])
  }

  /**
   * What the model takes from the polygon libraries: `union` is the
   * boolean union of `geo_booleanop`, `rotate` is `geo`'s `Rotate::rotate`
   * by a number of degrees, `rotatePoint` is `rotate_around_point`
   * (point, degrees, centre), and `hull` is `graham_hull` (keeping
   * collinear points). `screwHolePlated` is the plated flag of the drill a
   * screw hole emits, which the source leaves unwritten.
   */
  datatype Kernel = Kernel(
    union: (MultiPolygon, MultiPolygon) -> MultiPolygon,
    rotate: (MultiPolygon, real) -> MultiPolygon,
    rotatePoint: (Point, real, Point) -> Point,
    hull: seq<Point> -> seq<Point>,
    screwHolePlated: bool)

  /** What a boolean union and a rotation are taken to do to bounding boxes and emptiness. */
  ghost predicate BoundsLaws(k: Kernel)
  {
    && UnionBoundsLaw(k)
    && (forall a, b {:trigger k.union(a, b)} :: |k.union(a, b)| == 0 <==> |a| == 0 && |b| == 0)
    && (forall m, d {:trigger k.rotate(m, d)} :: |k.rotate(m, d)| == |m|)
    && (forall m, d {:trigger k.rotate(m, d)} :: Bounds(k.rotate(m, d)).Some? == Bounds(m).Some?)
  }

  /** The box of a union joins the boxes of its operands. */
  ghost predicate UnionBoundsLaw(k: Kernel)
  {
    forall a, b {:trigger k.union(a, b)} :: Bounds(k.union(a, b)) == JoinOpt(Bounds(a), Bounds(b))
  }

  /** Moving the operands of the library operations moves their results by the same amount. */
  ghost predicate MotionLaws(k: Kernel)
  {
    && (forall a, b, v {:trigger k.union(TranslateMulti(a, v), TranslateMulti(b, v))} :: k.union(TranslateMulti(a, v), TranslateMulti(b, v)) == TranslateMulti(k.union(a, b), v))
    && (forall m, d, v {:trigger k.rotate(TranslateMulti(m, v), d)} :: k.rotate(TranslateMulti(m, v), d) == TranslateMulti(k.rotate(m, d), v))
    && (forall p, d, c, v {:trigger k.rotatePoint(Add(p, v), d, Add(c, v))} :: k.rotatePoint(Add(p, v), d, Add(c, v)) == Add(k.rotatePoint(p, d, c), v))
  }

  /** A turn by 0 or by 360 degrees leaves a point where it is. */
  ghost predicate TurnLaws(k: Kernel)
  {
    && (forall p, c :: k.rotatePoint(p, 0.0, c) == p)
    && (forall p, c :: k.rotatePoint(p, 360.0, c) == p)
  }

  ghost predicate Lawful(k: Kernel)
  {
    BoundsLaws(k) && MotionLaws(k) && TurnLaws(k)
  }

  // Facts about translation and bounding boxes.

  lemma JoinTranslate(a: Rect, b: Rect, v: Point)
    ensures Join(TranslateRect(a, v), TranslateRect(b, v)) == TranslateRect(Join(a, b), v)
  {
  }

  lemma JoinOptTranslate(a: Option<Rect>, b: Option<Rect>, v: Point)
    ensures JoinOpt(TranslateRectOpt(a, v), TranslateRectOpt(b, v)) == TranslateRectOpt(JoinOpt(a, b), v)
  {
  }

  lemma {:induction false} PointsBoundsTranslate(ps: seq<Point>, v: Point)
    ensures PointsBounds(TranslatePoints(ps, v)) == TranslateRectOpt(PointsBounds(ps), v)
    decreases |ps|
  {
    if |ps| > 0 {
      assert TranslatePoints(ps, v)[1..] == TranslatePoints(ps[1..], v);
      PointsBoundsTranslate(ps[1..], v);
      JoinOptTranslate(Some(Rect(ps[0], ps[0])), PointsBounds(ps[1..]), v);
    }
  }

  /** The bounding box of a moved multi-polygon is its bounding box moved. */
  lemma {:induction false} BoundsTranslate(m: MultiPolygon, v: Point)
    ensures Bounds(TranslateMulti(m, v)) == TranslateRectOpt(Bounds(m), v)
    decreases |m|
  {
    if |m| > 0 {
      assert TranslateMulti(m, v)[1..] == TranslateMulti(m[1..], v);
      BoundsTranslate(m[1..], v);
      PointsBoundsTranslate(m[0].exterior, v);
      JoinOptTranslate(PointsBounds(m[0].exterior), Bounds(m[1..]), v);
    }
  }

  lemma BoundsOrTranslate(m: MultiPolygon, v: Point)
    requires Bounds(m).Some?
    ensures BoundsOr(TranslateMulti(m, v)) == TranslateRect(BoundsOr(m), v)
  {
    BoundsTranslate(m, v);
  }

  /** A multi-polygon whose first exterior ring has a point has a bounding box. */
  lemma BoundsPresent(m: MultiPolygon)
    requires |m| > 0 && |m[0].exterior| > 0
    ensures Bounds(m).Some?
  {
    assert PointsBounds(m[0].exterior).Some?;
  }

  /** The bounding box of a rectangle's polygon is the rectangle. */
  lemma BoundsRectPolygon(r: Rect)
    requires Normal(r)
    ensures Bounds([RectPolygon(r)]) == Some(r)
  {
    var a, b, c, d := r.min, Point(r.min.x, r.max.y), r.max, Point(r.max.x, r.min.y);
    var ext := RectPolygon(r).exterior;
    assert ext == [a, b, c, d, a];
    assert PointsBounds([a]) == Some(Rect(a, a)) by { assert [a][1..] == []; }
    assert PointsBounds([d, a]) == Some(Rect(Point(r.min.x, r.min.y), Point(r.max.x, r.min.y))) by { assert [d, a][1..] == [a]; }
    assert PointsBounds([c, d, a]) == Some(r) by { assert [c, d, a][1..] == [d, a]; }
    assert PointsBounds([b, c, d, a]) == Some(r) by { assert [b, c, d, a][1..] == [c, d, a]; }
    assert PointsBounds(ext) == Some(r) by { assert ext[1..] == [b, c, d, a]; }
    assert [RectPolygon(r)][1..] == [];
  }

  lemma TranslatePointsTwice(ps: seq<Point>, u: Point, v: Point)
    ensures TranslatePoints(TranslatePoints(ps, u), v) == TranslatePoints(ps, Add(u, v))
  {
  }

  lemma TranslateMultiTwice(m: MultiPolygon, u: Point, v: Point)
    ensures TranslateMulti(TranslateMulti(m, u), v) == TranslateMulti(m, Add(u, v))
  {
    forall i | 0 <= i < |m| ensures TranslateMulti(TranslateMulti(m, u), v)[i] == TranslateMulti(m, Add(u, v))[i] {
      var p := m[i];
      TranslatePointsTwice(p.exterior, u, v);
      forall j | 0 <= j < |p.interiors| {
        TranslatePointsTwice(p.interiors[j], u, v);
      }
    }
  }

  lemma CloseTranslate(ring: seq<Point>, v: Point)
    ensures Close(TranslatePoints(ring, v)) == TranslatePoints(Close(ring), v)
  {
    if |ring| > 0 {
      assert (Add(ring[0], v) == Add(ring[|ring| - 1], v)) == (ring[0] == ring[|ring| - 1]);
    }
  }

  /** Building a polygon from moved rings gives the polygon moved. */
  lemma PolygonNewTranslate(exterior: seq<Point>, interiors: seq<seq<Point>>, v: Point)
    ensures PolygonNew(TranslatePoints(exterior, v), seq(|interiors|, i requires 0 <= i < |interiors| => TranslatePoints(interiors[i], v)))
         == TranslatePolygon(PolygonNew(exterior, interiors), v)
  {
    CloseTranslate(exterior, v);
    forall j | 0 <= j < |interiors| ensures Close(TranslatePoints(interiors[j], v)) == TranslatePoints(Close(interiors[j]), v) {
      CloseTranslate(interiors[j], v);
    }
  }

  lemma RectPolygonTranslate(r: Rect, v: Point)
    ensures [RectPolygon(TranslateRect(r, v))] == TranslateMulti([RectPolygon(r)], v)
  {
    var ring := [r.min, Point(r.min.x, r.max.y), r.max, Point(r.max.x, r.min.y), r.min];
    assert TranslatePoints(ring, v) == [Add(r.min, v), Point(r.min.x + v.x, r.max.y + v.y), Add(r.max, v), Point(r.max.x + v.x, r.min.y + v.y), Add(r.min, v)];
    PolygonNewTranslate(ring, [], v);
  }

  lemma TriPolygonTranslate(t: Tri, v: Point)
    ensures [TriPolygon(TranslateTri(t, v))] == TranslateMulti([TriPolygon(t)], v)
  {
    var ring := [t.a, t.b, t.c, t.a];
    assert TranslatePoints(ring, v) == [Add(t.a, v), Add(t.b, v), Add(t.c, v), Add(t.a, v)];
    PolygonNewTranslate(ring, [], v);
  }

  lemma {:induction false} PointsBoundsNormal(ps: seq<Point>)
    ensures PointsBounds(ps).Some? ==> Normal(PointsBounds(ps).value)
    decreases |ps|
  {
    if |ps| > 0 {
      PointsBoundsNormal(ps[1..]);
    }
  }

  /** A bounding box is a normal rectangle. */
  lemma {:induction false} BoundsNormal(m: MultiPolygon)
    ensures Bounds(m).Some? ==> Normal(Bounds(m).value)
    ensures Normal(BoundsOr(m))
    decreases |m|
  {
    if |m| > 0 {
      PointsBoundsNormal(m[0].exterior);
      BoundsNormal(m[1..]);
    }
  }
}
