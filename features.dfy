/**
 * The feature algebra (features.rs and the files under features/): every kind of
 * feature a panel is built from, as one closed datatype, and the trait
 * methods `edge_union`, `edge_subtract`, `interior`, `named_info` and
 * `translate` as one dispatch function each. Composite features hand the
 * lowered parts of their children to the layout modules `Pos`, `Columns`
 * and `Repeating`.
 */
module Features {
  import opened Wrappers
  import G = Geo
  import opened Common
  import A = Atoms
  import I = Inner
  import U = Unions
  import P = Pos
  import C = Columns
  import R = Repeating

  datatype Feature =
    | Rect(rect: G.Rect, inner: I.InnerFeature)
    | Circle(center: G.Point, radius: real, inner: I.InnerFeature)
    | Triangle(rightAngle: bool, triangle: G.Tri, inner: I.InnerFeature)
    | RMount(direction: Direction, rect: G.Rect, depth: real)
    | Unit
    | AtPos(primary: Feature, elements: seq<Element>)
    | Column(children: seq<Feature>, align: Align, bbox: bool)
    | Tile(tiled: Feature, direction: Direction, amt: nat, vScore: bool)
    | Negative(features: seq<Feature>)
    | Rotate(features: seq<Feature>, degrees: real)
    | Named(feature: Feature, name: string)

  /** A secondary feature of an `AtPos` and where it goes. */
  datatype Element = Element(feature: Feature, position: P.Positioning)

  // Constructors.

  /** `Rect::new`: the rectangle spanned by two corners, with no inner feature. */
  function RectNew(topLeft: G.Point, bottomRight: G.Point): Feature
  {
    Rect(G.RectNew(topLeft, bottomRight), I.Unit)
  }

  /** The rectangle of the given size around `center`. */
  function CenteredRect(center: G.Point, width: real, height: real): G.Rect
  {
    G.RectNew(G.Add(center, G.Point(-width / 2.0, -height / 2.0)), G.Add(center, G.Point(width / 2.0, height / 2.0)))
  }

  /** `Rect::with_center`. */
  function RectWithCenter(center: G.Point, width: real, height: real): Feature
  {
    Rect(CenteredRect(center, width, height), I.Unit)
  }

  /** `Rect::with_inner`: the square from (−1, −1) to (1, 1) around an inner feature left where it is. */
  function RectWithInner(inner: I.InnerFeature): Feature
  {
    Rect(G.RectNew(G.Point(-1.0, -1.0), G.Point(1.0, 1.0)), inner)
  }

  /** `Rect::dimensions`: a new rectangle around `center`; the inner feature is moved by `center`. */
  function RectDimensions(f: Feature, center: G.Point, width: real, height: real): Feature
    requires f.Rect?
  {
    Rect(CenteredRect(center, width, height), I.Translate(f.inner, center))
  }

  /** `Rect::bounds`: a new rectangle from two corners; the inner feature is moved by its centre. */
  function RectBounds(f: Feature, topLeft: G.Point, bottomRight: G.Point): Feature
    requires f.Rect?
  {
    var r := G.RectNew(topLeft, bottomRight);
    Rect(r, I.Translate(f.inner, G.Center(r)))
  }

  /** `Circle::new`. */
  function CircleNew(center: G.Point, radius: real): Feature { Circle(center, radius, I.Unit) }

  /** `Circle::with_radius`: a circle at the origin. */
  function CircleWithRadius(radius: real): Feature { CircleNew(G.Origin, radius) }

  /** `Circle::with_inner`: the inner feature is moved to the circle's centre. */
  function CircleWithInner(inner: I.InnerFeature, center: G.Point, radius: real): Feature
  {
    Circle(center, radius, I.Translate(inner, center))
  }

  /** `Circle::wrap_with_radius`: centre and inner feature stay at the origin. */
  function CircleWrapWithRadius(inner: I.InnerFeature, radius: real): Feature
  {
    Circle(G.Origin, radius, inner)
  }

  /** `Triangle::new`: three corners, not marked as right-angled. */
  function TriangleNew(c1: G.Point, c2: G.Point, c3: G.Point): Feature
  {
    Triangle(false, G.Tri(c1, c2, c3), I.Unit)
  }

  /** The right-angled triangle of the given size around `center`, the right angle at the upper left. */
  function RightTriangle(center: G.Point, width: real, height: real): G.Tri
  {
    G.Tri(G.Add(center, G.Point(-width / 2.0, -height / 2.0)),
          G.Add(center, G.Point(-width / 2.0, height / 2.0)),
          G.Add(center, G.Point(width / 2.0, height / 2.0)))
  }

  /** `Triangle::right_angle`: centred on the origin. */
  function TriangleRightAngle(width: real, height: real): Feature
  {
    Triangle(true, RightTriangle(G.Origin, width, height), I.Unit)
  }

  /** `Triangle::with_inner`: corners (−1, −1), (−1, 1), (1, 1) around the inner feature. */
  function TriangleWithInner(inner: I.InnerFeature): Feature
  {
    Triangle(true, G.Tri(G.Point(-1.0, -1.0), G.Point(-1.0, 1.0), G.Point(1.0, 1.0)), inner)
  }

  /** `Triangle::dimensions`: a new right-angled triangle around `center`; the inner feature is moved by `center`. */
  function TriangleDimensions(f: Feature, center: G.Point, width: real, height: real): Feature
    requires f.Triangle?
  {
    Triangle(true, RightTriangle(center, width, height), I.Translate(f.inner, center))
  }

  /** `RMount::new`: 6.3 wide, `depth + 2` high, centred on the origin, facing up. */
  function RMountNew(depth: real): Feature
  {
    RMount(Up, G.RectNew(G.Point(-3.15, -depth / 2.0 - 1.0), G.Point(3.15, depth / 2.0 + 1.0)), depth)
  }

  /** `RMount::direction`. */
  function RMountDirection(f: Feature, d: Direction): Feature
    requires f.RMount?
  {
    RMount(d, f.rect, f.depth)
  }

  /**
   * The positioning the constructors of `AtPos` build: on `side`, with no
   * adjustment. `Positioning` in pos.rs has no alignment; the model's
   * field, which placement never reads, is set to `Center` here.
   */
  function Beside(side: Direction): P.Positioning { P.Positioning(side, 0.0, Center) }

  /** `AtPos::new`: a primary with nothing around it yet. */
  function AtPosNew(primary: Feature): Feature { AtPos(primary, []) }

  /** `AtPos::x_ends`: the left secondary (if any) before the right one (if any), both centred. */
  function AtPosXEnds(primary: Feature, left: Option<Feature>, right: Option<Feature>): Feature
  {
    var l := match left case Some(f) => [Element(f, Beside(Left))] case None => [];
    var r := match right case Some(f) => [Element(f, Beside(Right))] case None => [];
    AtPos(primary, l + r)
  }

  /** `AtPos::left`. */
  function AtPosLeft(primary: Feature, left: Feature): Feature { AtPos(primary, [Element(left, Beside(Left))]) }

  /** `AtPos::right`. */
  function AtPosRight(primary: Feature, right: Feature): Feature { AtPos(primary, [Element(right, Beside(Right))]) }

  /** `AtPos::push`: one more secondary, after the others. */
  function AtPosPush(f: Feature, feature: Feature, position: P.Positioning): Feature
    requires f.AtPos?
  {
    f.(elements := f.elements + [Element(feature, position)])
  }

  /** `Tile::new`: no score lines. */
  function TileNew(inner: Feature, d: Direction, amt: nat): Feature { Tile(inner, d, amt, false) }

  /** `Tile::v_score`. */
  function TileVScore(f: Feature, vScore: bool): Feature
    requires f.Tile?
  {
    f.(vScore := vScore)
  }

  function NegativeNew(features: seq<Feature>): Feature { Negative(features) }

  function RotateNew(degrees: real, features: seq<Feature>): Feature { Rotate(features, degrees) }

  function NamedNew(name: string, feature: Feature): Feature { Named(feature, name) }

  // Translation.

  /** `Feature::translate`. An `AtPos` only moves its primary: its secondaries are placed relative to it. */
  function Translate(f: Feature, v: G.Point): Feature
    decreases f, 1
  {
    match f
    case Rect(r, i) => Rect(G.TranslateRect(r, v), I.Translate(i, v))
    case Circle(c, r, i) => Circle(G.Add(c, v), r, I.Translate(i, v))
    case Triangle(ra, t, i) => Triangle(ra, G.TranslateTri(t, v), I.Translate(i, v))
    case RMount(d, r, depth) => RMount(d, G.TranslateRect(r, v), depth)
    case Unit => Unit
    case AtPos(p, els) => AtPos(Translate(p, v), els)
    case Column(fs, a, b) => Column(TranslateAll(fs, v), a, b)
    case Tile(t, d, n, s) => Tile(Translate(t, v), d, n, s)
    case Negative(fs) => Negative(TranslateAll(fs, v))
    case Rotate(fs, deg) => Rotate(TranslateAll(fs, v), deg)
    case Named(g, n) => Named(Translate(g, v), n)
  }

  function TranslateAll(fs: seq<Feature>, v: G.Point): (r: seq<Feature>)
    ensures |r| == |fs|
    decreases fs, 0
  {
    seq(|fs|, i requires 0 <= i < |fs| => Translate(fs[i], v))
  }

  /** The in-place loop of `Column`, `Negative` and `Rotate` that translates each child in turn. */
  method TranslateEach(fs: seq<Feature>, v: G.Point) returns (r: seq<Feature>)
    ensures r == TranslateAll(fs, v)
  {
    r := fs;
    var i := 0;
    while i < |r|
      invariant 0 <= i <= |r| == |fs|
      invariant r[..i] == TranslateAll(fs, v)[..i] && r[i..] == fs[i..]
      decreases |r| - i
    {
      r := r[i := Translate(r[i], v)];
      i := i + 1;
    }
    assert r == r[..i];
  }

  // Outlines.

  /** The `i`-th point of a circle's outline: its rightmost point turned by `i` degrees about the centre. */
  function CirclePoint(k: G.Kernel, center: G.Point, radius: real, i: nat): G.Point
  {
    k.rotatePoint(G.Point(center.x + radius, center.y), i as real, center)
  }

  function CircleRing(k: G.Kernel, center: G.Point, radius: real): (r: seq<G.Point>)
    ensures |r| == 361
  {
    seq(361, i requires 0 <= i < 361 => CirclePoint(k, center, radius, i))
  }

  /** The loop of `Circle::edge_union`, pushing one point per degree from 0 to 360. */
  method CircleRingLoop(k: G.Kernel, center: G.Point, radius: real) returns (out: seq<G.Point>)
    ensures out == CircleRing(k, center, radius)
  {
    var rightEdge := G.Point(center.x + radius, center.y);
    out := [];
    var i := 0;
    while i <= 360
      invariant 0 <= i <= 361
      invariant out == CircleRing(k, center, radius)[..i]
      decreases 361 - i
    {
      out := out + [k.rotatePoint(rightEdge, i as real, center)];
      i := i + 1;
    }
  }

  /** The turn an `RMount` facing `d` is given. */
  function TurnAngle(d: Direction): real
  {
    match d
    case Up => 0.0
    case Down => 180.0
    case Left => -90.0
    case Right => 90.0
  }

  /** An `RMount`'s geometry turned to face `d`: unchanged for `Up`, else rotated about its centroid. */
  function Turn(k: G.Kernel, d: Direction, m: G.MultiPolygon): G.MultiPolygon
  {
    if d.Up? then m else k.rotate(m, TurnAngle(d))
  }

  /** The slot an `RMount` cuts for a board edge: a channel and the nut pocket across it, about the mount's centre. */
  function RMountCut(k: G.Kernel, r: G.Rect, depth: real): G.MultiPolygon
  {
    k.union([G.RectPolygon(RMountChannel(r, depth))], [G.RectPolygon(RMountNut(r))])
  }

  /** The channel of an `RMount` cut: 3.3 wide, from `depth/2 + 1` below the centre to `depth/2` above it. */
  function RMountChannel(r: G.Rect, depth: real): G.Rect
  {
    var c := G.Center(r);
    G.RectNew(G.Add(G.Point(-1.65, -depth / 2.0 - 1.0), c), G.Add(G.Point(1.65, depth / 2.0), c))
  }

  /** The nut pocket of an `RMount` cut: 6.24 by 2.8 about the centre. */
  function RMountNut(r: G.Rect): G.Rect
  {
    var c := G.Center(r);
    G.RectNew(G.Add(G.Point(-3.12, -1.4), c), G.Add(G.Point(3.12, 1.4), c))
  }

  const RMountDrillOffsets: seq<G.Point> := [G.Point(-3.08, -1.32), G.Point(3.08, -1.32), G.Point(-3.08, 1.32), G.Point(3.08, 1.32)]

  /** `RMount::interior`: four unplated 0.15 drills, their offsets turned about the origin, around the centre. */
  function RMountDrills(k: G.Kernel, d: Direction, r: G.Rect): seq<A.InnerAtom>
  {
    seq(4, i requires 0 <= i < 4 => A.Drill(G.Add(k.rotatePoint(RMountDrillOffsets[i], TurnAngle(d), G.Origin), G.Center(r)), 0.15, false))
  }

  /** Each present outline rotated by `degrees`, as the `Rotate` feature does before folding. */
  function RotateOutlines(k: G.Kernel, outs: seq<Option<G.MultiPolygon>>, degrees: real): (r: seq<Option<G.MultiPolygon>>)
    ensures |r| == |outs|
  {
    seq(|outs|, i requires 0 <= i < |outs| => match outs[i] case None => None case Some(m) => Some(k.rotate(m, degrees)))
  }

  /** `Feature::edge_union`. */
  function EdgeUnion(k: G.Kernel, f: Feature): Option<G.MultiPolygon>
    decreases f, 1
  {
    match f
    case Rect(r, _) => Some([G.RectPolygon(r)])
    case Circle(c, r, _) => Some([G.PolygonNew(CircleRing(k, c, r), [])])
    case Triangle(_, t, _) => Some([G.TriPolygon(t)])
    case RMount(d, r, _) => Some(Turn(k, d, [G.RectPolygon(r)]))
    case Unit => None
    case AtPos(p, els) => P.Outline(k, EdgeUnion(k, p), ElementOutlines(k, f), Positions(els))
    case Column(fs, a, bbox) => C.Outline(k, Outlines(k, fs), a, bbox)
    case Tile(t, d, n, _) => R.Outline(k, EdgeUnion(k, t), d, n)
    case Negative(fs) => U.FoldUnion(k, Subtracts(k, fs))
    case Rotate(fs, deg) => U.FoldUnion(k, RotateOutlines(k, Outlines(k, fs), deg))
    case Named(g, _) => EdgeUnion(k, g)
  }

  /** `Feature::edge_subtract`; features that do not override it have none. */
  function EdgeSubtract(k: G.Kernel, f: Feature): Option<G.MultiPolygon>
    decreases f, 1
  {
    match f
    case RMount(d, r, depth) => Some(Turn(k, d, RMountCut(k, r, depth)))
    case Tile(t, d, n, _) => R.Subtract(k, EdgeUnion(k, t), EdgeSubtract(k, t), d, n)
    case Negative(fs) => U.FoldUnion(k, Outlines(k, fs))
    case Rotate(fs, deg) => U.FoldUnion(k, RotateOutlines(k, Subtracts(k, fs), deg))
    case Named(g, _) => EdgeSubtract(k, g)
    case _ => None
  }

  function Outlines(k: G.Kernel, fs: seq<Feature>): (r: seq<Option<G.MultiPolygon>>)
    ensures |r| == |fs|
    decreases fs, 0
  {
    seq(|fs|, i requires 0 <= i < |fs| => EdgeUnion(k, fs[i]))
  }

  function Subtracts(k: G.Kernel, fs: seq<Feature>): (r: seq<Option<G.MultiPolygon>>)
    ensures |r| == |fs|
    decreases fs, 0
  {
    seq(|fs|, i requires 0 <= i < |fs| => EdgeSubtract(k, fs[i]))
  }

  /** The outlines of an `AtPos`'s secondaries. */
  function ElementOutlines(k: G.Kernel, f: Feature): (r: seq<Option<G.MultiPolygon>>)
    requires f.AtPos?
    ensures |r| == |f.elements|
    decreases f, 0
  {
    seq(|f.elements|, i requires 0 <= i < |f.elements| => EdgeUnion(k, f.elements[i].feature))
  }

  function Positions(els: seq<Element>): (r: seq<P.Positioning>)
    ensures |r| == |els|
  {
    seq(|els|, i requires 0 <= i < |els| => els[i].position)
  }

  // Interior geometry.

  /** `Feature::interior`. */
  function Interior(k: G.Kernel, f: Feature): seq<A.InnerAtom>
    decreases f, 1
  {
    match f
    case Rect(_, i) => I.Atoms(i, k.screwHolePlated)
    case Circle(_, _, i) => I.Atoms(i, k.screwHolePlated)
    case Triangle(_, _, i) => I.Atoms(i, k.screwHolePlated)
    case RMount(d, r, _) => RMountDrills(k, d, r)
    case Unit => []
    case AtPos(p, els) => P.Interior(EdgeUnion(k, p), Interior(k, p), ElementOutlines(k, f), ElementInteriors(k, f), Positions(els))
    case Column(fs, a, _) => C.Interior(Outlines(k, fs), Interiors(k, fs), a)
    case Tile(t, d, n, s) => R.Interior(EdgeUnion(k, t), Interior(k, t), d, n, s)
    case Negative(_) => []
    case Rotate(_, _) => []
    case Named(g, _) => Interior(k, g)
  }

  function Interiors(k: G.Kernel, fs: seq<Feature>): (r: seq<seq<A.InnerAtom>>)
    ensures |r| == |fs|
    decreases fs, 0
  {
    seq(|fs|, i requires 0 <= i < |fs| => Interior(k, fs[i]))
  }

  function ElementInteriors(k: G.Kernel, f: Feature): (r: seq<seq<A.InnerAtom>>)
    requires f.AtPos?
    ensures |r| == |f.elements|
    decreases f, 0
  {
    seq(|f.elements|, i requires 0 <= i < |f.elements| => Interior(k, f.elements[i].feature))
  }

  // Named geometry.

  /**
   * The box a `Named` wrapper reports: of the wrapped outline if there is
   * one, else of its subtract geometry, else the zero rectangle.
   */
  function NamedBounds(k: G.Kernel, f: Feature): G.Rect
  {
    match EdgeUnion(k, f)
    case Some(m) => G.BoundsOr(m)
    case None =>
      match EdgeSubtract(k, f)
      case Some(m) => G.BoundsOr(m)
      case None => G.ZeroRect
  }

  /** `Feature::named_info`: `Negative` collects its children's, `Named` reports itself; others have none. */
  function NamedInfos(k: G.Kernel, f: Feature): seq<A.NamedInfo>
    decreases f, 1
  {
    match f
    case Negative(fs) => NamedInfosAll(k, fs)
    case Named(g, name) => [A.NamedInfo(name, NamedBounds(k, g))]
    case _ => []
  }

  function NamedInfosAll(k: G.Kernel, fs: seq<Feature>): seq<A.NamedInfo>
    decreases fs, 0
  {
    if |fs| == 0 then [] else NamedInfos(k, fs[0]) + NamedInfosAll(k, fs[1..])
  }

  // Column construction.

  /** The move `Column::new` gives a child: its box's lower corner to the origin; none without an outline. */
  function Normalize(k: G.Kernel, f: Feature): Feature
  {
    match EdgeUnion(k, f)
    case Some(m) => Translate(f, G.Neg(G.BoundsOr(m).min))
    case None => f
  }

  function Normalized(k: G.Kernel, fs: seq<Feature>): (r: seq<Feature>)
    ensures |r| == |fs|
  {
    seq(|fs|, i requires 0 <= i < |fs| => Normalize(k, fs[i]))
  }

  /** The loop of `Column::new`, moving each child in place. */
  method NormalizeLoop(k: G.Kernel, fs: seq<Feature>) returns (r: seq<Feature>)
    ensures r == Normalized(k, fs)
  {
    r := fs;
    var i := 0;
    while i < |r|
      invariant 0 <= i <= |r| == |fs|
      invariant r[..i] == Normalized(k, fs)[..i] && r[i..] == fs[i..]
      decreases |r| - i
    {
      var e := r[i];
      match EdgeUnion(k, e) {
        case Some(b) =>
          var v := G.BoundsOr(b).min;
          r := r[i := Translate(e, G.Neg(v))];
        case None =>
      }
      i := i + 1;
    }
    assert r == r[..i];
  }

  /** `Column::new`, in bounding-box mode. */
  function ColumnNew(k: G.Kernel, fs: seq<Feature>, align: Align): Feature
  {
    Column(Normalized(k, fs), align, true)
  }

  function ColumnAlignLeft(k: G.Kernel, fs: seq<Feature>): Feature { ColumnNew(k, fs, Start) }

  function ColumnAlignCenter(k: G.Kernel, fs: seq<Feature>): Feature { ColumnNew(k, fs, Center) }

  function ColumnAlignRight(k: G.Kernel, fs: seq<Feature>): Feature { ColumnNew(k, fs, End) }
}
