/**
 * The fold that `Panel::edge_geometry`, `Negative` and `Rotate` share:
 * starting from nothing, every present outline `g` is unioned onto the
 * accumulated one as `g.union(&current)`, and absent outlines are skipped.
 */
module Unions {
  import opened Wrappers
  import opened Geo

  function Step(k: Kernel, acc: Option<MultiPolygon>, g: Option<MultiPolygon>): Option<MultiPolygon>
  {
    match g
    case None => acc
    case Some(p) => Some(match acc { case None => p case Some(c) => k.union(p, c) })
  }

  function FoldFrom(k: Kernel, acc: Option<MultiPolygon>, gs: seq<Option<MultiPolygon>>): Option<MultiPolygon>
    decreases |gs|
  {
    if |gs| == 0 then acc else FoldFrom(k, Step(k, acc, gs[0]), gs[1..])
  }

  function FoldUnion(k: Kernel, gs: seq<Option<MultiPolygon>>): Option<MultiPolygon>
  {
    FoldFrom(k, None, gs)
  }

  /** An outline that is present has at least one point, so its bounding box exists. */
  predicate Solid(o: Option<MultiPolygon>)
  {
    o.Some? ==> Bounds(o.value).Some?
  }

  lemma {:induction false} FoldFromNone(k: Kernel, acc: Option<MultiPolygon>, gs: seq<Option<MultiPolygon>>)
    ensures FoldFrom(k, acc, gs).None? <==> acc.None? && forall i :: 0 <= i < |gs| ==> gs[i].None?
    decreases |gs|
  {
    if |gs| > 0 {
      FoldFromNone(k, Step(k, acc, gs[0]), gs[1..]);
      assert forall i :: 1 <= i < |gs| ==> gs[i] == gs[1..][i - 1];
    }
  }

  /** The fold has an outline exactly when one of the folded outlines is present. */
  lemma FoldUnionNone(k: Kernel, gs: seq<Option<MultiPolygon>>)
    ensures FoldUnion(k, gs).None? <==> forall i :: 0 <= i < |gs| ==> gs[i].None?
  {
    FoldFromNone(k, None, gs);
  }

  lemma {:induction false} FoldFromSolid(k: Kernel, acc: Option<MultiPolygon>, gs: seq<Option<MultiPolygon>>)
    requires BoundsLaws(k)
    requires Solid(acc) && forall i :: 0 <= i < |gs| ==> Solid(gs[i])
    ensures Solid(FoldFrom(k, acc, gs))
    decreases |gs|
  {
    if |gs| > 0 {
      FoldFromSolid(k, Step(k, acc, gs[0]), gs[1..]);
    }
  }

  /** Unioning outlines that each have a bounding box gives an outline with a bounding box. */
  lemma FoldUnionSolid(k: Kernel, gs: seq<Option<MultiPolygon>>)
    requires BoundsLaws(k)
    requires forall i :: 0 <= i < |gs| ==> Solid(gs[i])
    ensures Solid(FoldUnion(k, gs))
  {
    FoldFromSolid(k, None, gs);
  }

  function TranslateAllOutlines(gs: seq<Option<MultiPolygon>>, v: Point): (r: seq<Option<MultiPolygon>>)
    ensures |r| == |gs|
  {
    seq(|gs|, i requires 0 <= i < |gs| => TranslateOutline(gs[i], v))
  }

  lemma {:induction false} FoldFromMotion(k: Kernel, acc: Option<MultiPolygon>, gs: seq<Option<MultiPolygon>>, v: Point)
    requires MotionLaws(k)
    ensures FoldFrom(k, TranslateOutline(acc, v), TranslateAllOutlines(gs, v)) == TranslateOutline(FoldFrom(k, acc, gs), v)
    decreases |gs|
  {
    if |gs| > 0 {
      assert Step(k, TranslateOutline(acc, v), TranslateOutline(gs[0], v)) == TranslateOutline(Step(k, acc, gs[0]), v);
      assert TranslateAllOutlines(gs, v)[1..] == TranslateAllOutlines(gs[1..], v);
      FoldFromMotion(k, Step(k, acc, gs[0]), gs[1..], v);
    }
  }

  /** Moving every folded outline moves the union by the same amount. */
  lemma FoldUnionMotion(k: Kernel, gs: seq<Option<MultiPolygon>>, v: Point)
    requires MotionLaws(k)
    ensures FoldUnion(k, TranslateAllOutlines(gs, v)) == TranslateOutline(FoldUnion(k, gs), v)
  {
    FoldFromMotion(k, None, gs, v);
  }
}
