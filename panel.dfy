/**
 * The `Panel` aggregator of lib.rs: the features pushed so far and the
 * convex-hull switch, the union of their outlines (`edge_geometry`), its
 * classification into a single board outline (`edge_poly`) and the
 * concatenation of their interiors (`interior_geometry`).
 */
module Panels {
  import opened Wrappers
  import G = Geo
  import A = Atoms
  import U = Unions
  import opened Features
  import L = FeatureLaws
  import Parser
  import Resolver
  import ResolverFacts

  /** `lib::Err`. */
  datatype PanelError = NoFeatures | BadEdgeGeometry(message: string) | InternalGerberFailure

  const MultipleOutlines := "multiple polygons provided for edge geometry"

  class Panel {
    var features: seq<Feature>
    var convexHull: bool

    /** `Panel::new`. */
    constructor New()
      ensures features == [] && !convexHull
    {
      features := [];
      convexHull := false;
    }

    /** `Panel::with_capacity`: the capacity only reserves room. */
    constructor WithCapacity(capacity: nat)
      ensures features == [] && !convexHull
    {
      features := [];
      convexHull := false;
    }

    /** `Panel::convex_hull`. */
    method ConvexHull(on: bool)
      modifies this
      ensures convexHull == on && features == old(features)
    {
      convexHull := on;
    }

    /** `Panel::push`. */
    method Push(f: Feature)
      modifies this
      ensures features == old(features) + [f] && convexHull == old(convexHull)
    {
      features := features + [f];
    }

    /**
     * `Panel::push_spec`: the features `parser::build` makes of `spec` are
     * appended in order; when it fails nothing is added and the failure is
     * passed on.
     */
    method PushSpec(k: G.Kernel, num: Parser.Numbers, spec: string) returns (r: Resolver.Outcome<()>)
      modifies this
      ensures r.Built? <==> Resolver.Build(k, num, spec).Built?
      ensures r.Built? ==> features == old(features) + Resolver.Build(k, num, spec).value
      ensures !r.Built? ==> features == old(features) && r == Resolver.Build(k, num, spec).PropagateFailure()
      ensures convexHull == old(convexHull)
    {
      var o := Resolver.BuildSpec(k, num, spec);
      if !o.Built? {
        return o.PropagateFailure();
      }
      features := features + o.value;
      return Resolver.Built(());
    }
  }

  /**
   * `Panel::edge_geometry` of a panel holding `fs`: the union of every
   * present outline and, with the hull switch on, the convex hull of all
   * exterior points of that union as one polygon with no holes.
   */
  function EdgeGeometry(k: G.Kernel, fs: seq<Feature>, convexHull: bool): Option<G.MultiPolygon>
  {
    var edge := U.FoldUnion(k, Outlines(k, fs));
    match edge
    case Some(edges) =>
      if convexHull then Some([G.PolygonNew(k.hull(G.ExteriorPoints(edges)), [])]) else edge
    case None => edge
  }

  /** `Panel::edge_poly`: the board outline, which must be exactly one polygon. */
  function EdgePoly(k: G.Kernel, fs: seq<Feature>, convexHull: bool): Result<G.Polygon, PanelError>
  {
    match EdgeGeometry(k, fs, convexHull)
    case None => Err(NoFeatures)
    case Some(edges) =>
      if |edges| == 0 then Err(NoFeatures)
      else if |edges| == 1 then Ok(edges[0])
      else Err(BadEdgeGeometry(MultipleOutlines))
  }

  /** `Panel::interior_geometry`: every feature's interior, in feature order. */
  function InteriorGeometry(k: G.Kernel, fs: seq<Feature>): seq<A.InnerAtom>
  {
    if |fs| == 0 then [] else Interior(k, fs[0]) + InteriorGeometry(k, fs[1..])
  }

  // The panel's outline.

  /** The panel has an outline exactly when one of its features has one. */
  lemma EdgeGeometryNone(k: G.Kernel, fs: seq<Feature>, convexHull: bool)
    ensures EdgeGeometry(k, fs, convexHull).None? <==> forall i :: 0 <= i < |fs| ==> EdgeUnion(k, fs[i]).None?
  {
    U.FoldUnionNone(k, Outlines(k, fs));
    assert forall i :: 0 <= i < |fs| ==> Outlines(k, fs)[i] == EdgeUnion(k, fs[i]);
  }

  /** With the hull switch on, an outline is one polygon without holes, closed, over the hull of the union's points. */
  lemma HullIsOnePolygon(k: G.Kernel, fs: seq<Feature>)
    requires EdgeGeometry(k, fs, true).Some?
    ensures var e := EdgeGeometry(k, fs, true).value;
      && |e| == 1 && e[0].interiors == []
      && var h := k.hull(G.ExteriorPoints(U.FoldUnion(k, Outlines(k, fs)).value));
         |h| <= |e[0].exterior| && e[0].exterior[..|h|] == h
  {
  }

  /** Without the hull, pushing a feature unions its outline onto the panel's, as one more step of the fold. */
  lemma EdgeGeometryPush(k: G.Kernel, fs: seq<Feature>, f: Feature)
    ensures EdgeGeometry(k, fs + [f], false) == U.Step(k, EdgeGeometry(k, fs, false), EdgeUnion(k, f))
  {
    assert Outlines(k, fs + [f]) == Outlines(k, fs) + [EdgeUnion(k, f)];
    FoldFromSnoc(k, None, Outlines(k, fs), EdgeUnion(k, f));
  }

  lemma {:induction false} FoldFromSnoc(k: G.Kernel, acc: Option<G.MultiPolygon>, gs: seq<Option<G.MultiPolygon>>, g: Option<G.MultiPolygon>)
    ensures U.FoldFrom(k, acc, gs + [g]) == U.Step(k, U.FoldFrom(k, acc, gs), g)
    decreases |gs|
  {
    if |gs| == 0 {
      assert U.FoldFrom(k, acc, [g]) == U.FoldFrom(k, U.Step(k, acc, g), []);
    } else {
      assert (gs + [g])[1..] == gs[1..] + [g];
      FoldFromSnoc(k, U.Step(k, acc, gs[0]), gs[1..], g);
    }
  }

  /** `edge_poly` fails with `NoFeatures` exactly when the outline is missing or empty, and otherwise classifies it. */
  lemma EdgePolyCases(k: G.Kernel, fs: seq<Feature>, convexHull: bool)
    ensures var e := EdgeGeometry(k, fs, convexHull);
      && (EdgePoly(k, fs, convexHull) == Err(NoFeatures) <==> e.None? || |e.value| == 0)
      && (EdgePoly(k, fs, convexHull).Ok? <==> e.Some? && |e.value| == 1)
      && (EdgePoly(k, fs, convexHull).Ok? ==> e == Some([EdgePoly(k, fs, convexHull).value]))
      && (EdgePoly(k, fs, convexHull).Err? && EdgePoly(k, fs, convexHull) != Err(NoFeatures) <==> e.Some? && |e.value| > 1)
  {
    var e := EdgeGeometry(k, fs, convexHull);
    if e.Some? && |e.value| == 1 {
      assert e.value == [e.value[0]];
    }
  }

  /** With the hull switch on, a panel with any outline always yields a board outline. */
  lemma HullAlwaysOk(k: G.Kernel, fs: seq<Feature>)
    requires exists i :: 0 <= i < |fs| && EdgeUnion(k, fs[i]).Some?
    ensures EdgePoly(k, fs, true).Ok?
  {
    EdgeGeometryNone(k, fs, true);
  }

  /** A panel of one plain rectangle has that rectangle as its board outline. */
  lemma OneRectPanel(k: G.Kernel, r: G.Rect)
    ensures EdgePoly(k, [RectNew(r.min, r.max)], false) == Ok(G.RectPolygon(G.RectNew(r.min, r.max)))
  {
    var fs := [RectNew(r.min, r.max)];
    assert U.FoldUnion(k, Outlines(k, fs)) == U.FoldFrom(k, U.Step(k, None, Outlines(k, fs)[0]), Outlines(k, fs)[1..]);
    assert EdgeGeometry(k, fs, false) == Some([G.RectPolygon(G.RectNew(r.min, r.max))]);
  }

  // The panel's interior.

  /** Interiors concatenate: the atoms of `fs + gs` are those of `fs` followed by those of `gs`. */
  lemma {:induction false} InteriorGeometryAppend(k: G.Kernel, fs: seq<Feature>, gs: seq<Feature>)
    ensures InteriorGeometry(k, fs + gs) == InteriorGeometry(k, fs) + InteriorGeometry(k, gs)
    decreases |fs|
  {
    if |fs| > 0 {
      assert (fs + gs)[1..] == fs[1..] + gs;
      InteriorGeometryAppend(k, fs[1..], gs);
    } else {
      assert fs + gs == gs;
    }
  }

  /** Pushing a feature appends exactly its interior atoms. */
  lemma InteriorGeometryPush(k: G.Kernel, fs: seq<Feature>, f: Feature)
    ensures InteriorGeometry(k, fs + [f]) == InteriorGeometry(k, fs) + Interior(k, f)
  {
    InteriorGeometryAppend(k, fs, [f]);
    assert InteriorGeometry(k, [f]) == Interior(k, f) + InteriorGeometry(k, []);
  }

  // Moving the whole panel.

  /** Moving every feature of a panel without moved score lines moves every interior atom of the panel. */
  lemma {:induction false} InteriorGeometryMotion(k: G.Kernel, fs: seq<Feature>, v: G.Point)
    requires G.BoundsLaws(k) && G.MotionLaws(k) && L.RegularAll(k, fs) && L.UnscoredAll(fs)
    ensures InteriorGeometry(k, TranslateAll(fs, v)) == A.TranslateAll(InteriorGeometry(k, fs), v)
    decreases |fs|
  {
    if |fs| > 0 {
      RegularTail(k, fs);
      L.TranslateMoves(k, fs[0], v);
      InteriorGeometryMotion(k, fs[1..], v);
      MovedInteriorStep(k, fs, v);
      A.TranslateAllAppend(Interior(k, fs[0]), InteriorGeometry(k, fs[1..]), v);
    }
  }

  lemma RegularTail(k: G.Kernel, fs: seq<Feature>)
    requires |fs| > 0 && L.RegularAll(k, fs) && L.UnscoredAll(fs)
    ensures L.Regular(k, fs[0]) && L.RegularAll(k, fs[1..])
    ensures L.Unscored(fs[0]) && L.UnscoredAll(fs[1..])
  {
    assert forall i :: 0 <= i < |fs[1..]| ==> fs[1..][i] == fs[i + 1];
  }

  /** The interior of a moved panel is the moved first feature's, then the rest of the moved panel's. */
  lemma MovedInteriorStep(k: G.Kernel, fs: seq<Feature>, v: G.Point)
    requires |fs| > 0
    ensures InteriorGeometry(k, TranslateAll(fs, v)) == Interior(k, Translate(fs[0], v)) + InteriorGeometry(k, TranslateAll(fs[1..], v))
  {
    assert TranslateAll(fs, v)[1..] == TranslateAll(fs[1..], v);
  }

  /**
   * Translating every feature of a panel (without the hull) moves its
   * outline by the same vector, and its interior atoms too when no moved
   * tile draws score lines.
   */
  lemma PanelMotion(k: G.Kernel, fs: seq<Feature>, v: G.Point)
    requires G.BoundsLaws(k) && G.MotionLaws(k) && L.RegularAll(k, fs)
    ensures EdgeGeometry(k, TranslateAll(fs, v), false) == G.TranslateOutline(EdgeGeometry(k, fs, false), v)
    ensures L.UnscoredAll(fs) ==> InteriorGeometry(k, TranslateAll(fs, v)) == A.TranslateAll(InteriorGeometry(k, fs), v)
  {
    forall i | 0 <= i < |fs| ensures EdgeUnion(k, TranslateAll(fs, v)[i]) == G.TranslateOutline(EdgeUnion(k, fs[i]), v) {
      L.TranslateMoves(k, fs[i], v);
    }
    assert Outlines(k, TranslateAll(fs, v)) == U.TranslateAllOutlines(Outlines(k, fs), v);
    U.FoldUnionMotion(k, Outlines(k, fs), v);
    if L.UnscoredAll(fs) {
      InteriorGeometryMotion(k, fs, v);
    }
  }

  // Panels described by specs.

  /**
   * A panel holding what `parser::build` made of a spec, if that is
   * anything, has an outline; with the hull switch on it always yields a
   * board outline.
   */
  lemma SpecPanelOutline(k: G.Kernel, num: Parser.Numbers, spec: string)
    requires G.BoundsLaws(k) && G.MotionLaws(k)
    requires Resolver.Build(k, num, spec).Built? && |Resolver.Build(k, num, spec).value| > 0
    ensures EdgeGeometry(k, Resolver.Build(k, num, spec).value, false).Some?
    ensures EdgePoly(k, Resolver.Build(k, num, spec).value, true).Ok?
  {
    ResolverFacts.BuildSound(k, num, spec);
    FirstOutlinePanel(k, Resolver.Build(k, num, spec).value);
  }

  /** A panel whose first feature has an outline has an outline, and with the hull switch on a board outline. */
  lemma FirstOutlinePanel(k: G.Kernel, fs: seq<Feature>)
    requires |fs| > 0 && EdgeUnion(k, fs[0]).Some?
    ensures EdgeGeometry(k, fs, false).Some?
    ensures EdgePoly(k, fs, true).Ok?
  {
    EdgeGeometryNone(k, fs, false);
    HullAlwaysOk(k, fs);
  }
}
