/**
 * The layout arithmetic of `Column` (features/array.rs): children are
 * stacked downwards by the heights of their bounding boxes and aligned
 * horizontally with the widest one. The functions here take the
 * children's outlines (and, for the interior, their atoms) as lowered by
 * the feature dispatch.
 */
module Columns {
  import opened Wrappers
  import opened Geo
  import opened Common
  import A = Atoms
  import U = Unions

  /** `Column::all_bounds`: each child's bounding box; a child without an outline counts as the zero rectangle. */
  function AllBounds(outs: seq<Option<MultiPolygon>>): (r: seq<Rect>)
    ensures |r| == |outs|
  {
    seq(|outs|, i requires 0 <= i < |outs| => match outs[i] case Some(m) => BoundsOr(m) case None => ZeroRect)
  }

  /**
   * The index `Iterator::max_by` on widths picks: the running maximum is
   * replaced whenever a later box is at least as wide, so the last of the
   * widest boxes wins.
   */
  function WidestIndex(bs: seq<Rect>): (r: nat)
    requires |bs| > 0
    ensures r < |bs|
    decreases |bs|
  {
    if |bs| == 1 then 0
    else
      var j := WidestIndex(bs[..|bs| - 1]);
      if Width(bs[j]) <= Width(bs[|bs| - 1]) then |bs| - 1 else j
  }

  /** `Column::largest`; the source panics on an empty column, where this gives the zero rectangle. */
  function Largest(outs: seq<Option<MultiPolygon>>): Rect
  {
    var bs := AllBounds(outs);
    if |bs| == 0 then ZeroRect else bs[WidestIndex(bs)]
  }

  /** The height a child adds to the stack: that of its bounding box, or nothing without an outline. */
  function StackHeight(o: Option<MultiPolygon>): real
  {
    match o
    case Some(m) => Height(BoundsOr(m))
    case None => 0.0
  }

  /** The vertical offset of child `i`: the stacked heights of the children before it. */
  function YOffset(outs: seq<Option<MultiPolygon>>, i: nat): real
    requires i <= |outs|
  {
    if i == 0 then 0.0 else YOffset(outs, i - 1) + StackHeight(outs[i - 1])
  }

  /** The horizontal move that aligns a child's box with the widest box. */
  function AlignX(align: Align, largest: Rect, b: Rect): real
  {
    match align
    case Start => largest.min.x - b.min.x
    case End => largest.max.x - b.max.x
    case Center => Geo.Center(largest).x - Geo.Center(b).x
  }

  /** `Column::translations`: where each child with an outline is moved; `None` for a child without one. */
  function Translations(outs: seq<Option<MultiPolygon>>, align: Align, largest: Rect): (r: seq<Option<Point>>)
    ensures |r| == |outs|
  {
    seq(|outs|, i requires 0 <= i < |outs| =>
      match outs[i]
      case Some(m) => Some(Point(AlignX(align, largest, BoundsOr(m)), YOffset(outs, i)))
      case None => None)
  }

  /** The `scan` of `Column::translations`, which carries the running offset along the children. */
  method TranslationsScan(outs: seq<Option<MultiPolygon>>, align: Align, largest: Rect) returns (r: seq<Option<Point>>)
    ensures r == Translations(outs, align, largest)
  {
    r := [];
    var yOff := 0.0;
    var i := 0;
    while i < |outs|
      invariant 0 <= i <= |outs|
      invariant yOff == YOffset(outs, i)
      invariant r == Translations(outs, align, largest)[..i]
      decreases |outs| - i
    {
      var h := 0.0;
      var t: Option<Point> := None;
      if outs[i].Some? {
        var b := BoundsOr(outs[i].value);
        h := Height(b);
        t := Some(Point(AlignX(align, largest, b), yOff));
      }
      r := r + [t];
      yOff := yOff + h;
      i := i + 1;
    }
  }

  /** A child's outline moved by its translation (absent when either is). */
  function Moved(o: Option<MultiPolygon>, t: Option<Point>): Option<MultiPolygon>
  {
    match (o, t)
    case (Some(m), Some(v)) => Some(TranslateMulti(m, v))
    case (_, _) => None
  }

  /** The children's outlines, each moved into its place in the column. */
  function Placed(outs: seq<Option<MultiPolygon>>, align: Align): (r: seq<Option<MultiPolygon>>)
    ensures |r| == |outs|
  {
    var ts := Translations(outs, align, Largest(outs));
    seq(|outs|, i requires 0 <= i < |outs| => Moved(outs[i], ts[i]))
  }

  /**
   * `Column::edge_union`: the union of the placed children, folded as
   * `g.union(&current)`; in bounding-box mode it is replaced by its
   * bounding rectangle.
   */
  function Outline(k: Kernel, outs: seq<Option<MultiPolygon>>, align: Align, bbox: bool): Option<MultiPolygon>
  {
    var out := U.FoldUnion(k, Placed(outs, align));
    if bbox then
      match out
      case None => None
      case Some(poly) => Some([RectPolygon(BoundsOr(poly))])
    else out
  }

  function InteriorFrom(atoms: seq<seq<A.InnerAtom>>, ts: seq<Option<Point>>): seq<A.InnerAtom>
    requires |atoms| == |ts|
    decreases |atoms|
  {
    if |atoms| == 0 then []
    else A.TranslateAll(atoms[0], match ts[0] case Some(v) => v case None => Origin) + InteriorFrom(atoms[1..], ts[1..])
  }

  /** `Column::interior`: each child's atoms, in order, moved by its translation or not at all. */
  function Interior(outs: seq<Option<MultiPolygon>>, atoms: seq<seq<A.InnerAtom>>, align: Align): seq<A.InnerAtom>
    requires |outs| == |atoms|
  {
    InteriorFrom(atoms, Translations(outs, align, Largest(outs)))
  }

  // The widest box.

  /** The chosen box is at least as wide as every box, and strictly wider than every box after it. */
  lemma {:induction false} WidestIndexIsLastWidest(bs: seq<Rect>)
    requires |bs| > 0
    ensures forall i :: 0 <= i < |bs| ==> Width(bs[i]) <= Width(bs[WidestIndex(bs)])
    ensures forall i :: WidestIndex(bs) < i < |bs| ==> Width(bs[i]) < Width(bs[WidestIndex(bs)])
    decreases |bs|
  {
    if |bs| > 1 {
      var front := bs[..|bs| - 1];
      WidestIndexIsLastWidest(front);
      assert forall i :: 0 <= i < |front| ==> front[i] == bs[i];
    }
  }

  /** `largest` is the box of a child, none is wider, and every later child is narrower. */
  lemma LargestIsWidest(outs: seq<Option<MultiPolygon>>)
    requires |outs| > 0
    ensures exists j :: 0 <= j < |outs| && Largest(outs) == AllBounds(outs)[j]
              && (forall i :: j < i < |outs| ==> Width(AllBounds(outs)[i]) < Width(Largest(outs)))
    ensures forall i :: 0 <= i < |outs| ==> Width(AllBounds(outs)[i]) <= Width(Largest(outs))
  {
    var bs := AllBounds(outs);
    WidestIndexIsLastWidest(bs);
    var j := WidestIndex(bs);
    assert Largest(outs) == bs[j];
  }

  // Stacking.

  lemma {:induction false} YOffsetMonotone(outs: seq<Option<MultiPolygon>>, i: nat, j: nat)
    requires i <= j <= |outs|
    requires forall n :: 0 <= n < |outs| ==> StackHeight(outs[n]) >= 0.0
    ensures YOffset(outs, i) <= YOffset(outs, j)
    decreases j
  {
    if i < j {
      YOffsetMonotone(outs, i, j - 1);
    }
  }

  /** A child's box is normal when it has an outline. */
  lemma StackHeightNonNegative(o: Option<MultiPolygon>)
    ensures StackHeight(o) >= 0.0
  {
    if o.Some? {
      BoundsNormal(o.value);
    }
  }

  /** The bounding box of child `i` after it is placed (the zero rectangle when it has no outline). */
  function PlacedBounds(outs: seq<Option<MultiPolygon>>, align: Align, i: nat): Rect
    requires i < |outs|
  {
    match Placed(outs, align)[i]
    case Some(m) => BoundsOr(m)
    case None => ZeroRect
  }

  /**
   * Where child `i` ends up: its box moved down by the heights of the
   * children before it and aligned with the widest box by its left edge,
   * right edge or centre.
   */
  lemma PlacedBox(outs: seq<Option<MultiPolygon>>, align: Align, i: nat)
    requires i < |outs| && outs[i].Some? && Bounds(outs[i].value).Some?
    ensures var b := BoundsOr(outs[i].value);
      var p := PlacedBounds(outs, align, i);
      var big := Largest(outs);
      && Placed(outs, align)[i].Some? && Bounds(Placed(outs, align)[i].value).Some?
      && p.min.y == b.min.y + YOffset(outs, i)
      && p.max.y == b.max.y + YOffset(outs, i)
      && Width(p) == Width(b)
      && (align == Start ==> p.min.x == big.min.x)
      && (align == End ==> p.max.x == big.max.x)
      && (align == Center ==> Geo.Center(p).x == Geo.Center(big).x)
  {
    var m := outs[i].value;
    var t := Translations(outs, align, Largest(outs))[i].value;
    BoundsTranslate(m, t);
  }

  /**
   * Children whose boxes start at height 0 (as `Column::new` arranges)
   * are stacked without overlap: each placed child ends above or at the
   * top of every later one.
   */
  lemma Stacked(outs: seq<Option<MultiPolygon>>, align: Align, i: nat, j: nat)
    requires i < j < |outs|
    requires outs[i].Some? && Bounds(outs[i].value).Some? && outs[j].Some? && Bounds(outs[j].value).Some?
    requires BoundsOr(outs[i].value).min.y == 0.0 && BoundsOr(outs[j].value).min.y == 0.0
    ensures PlacedBounds(outs, align, i).max.y <= PlacedBounds(outs, align, j).min.y
  {
    PlacedHeight(outs, align, i);
    PlacedHeight(outs, align, j);
    forall n | 0 <= n < |outs| ensures StackHeight(outs[n]) >= 0.0 {
      StackHeightNonNegative(outs[n]);
    }
    YOffsetMonotone(outs, i + 1, j);
    assert YOffset(outs, i + 1) == YOffset(outs, i) + Height(BoundsOr(outs[i].value));
  }

  /** The vertical extent of a placed child: its own box moved down by the children before it. */
  lemma PlacedHeight(outs: seq<Option<MultiPolygon>>, align: Align, i: nat)
    requires i < |outs| && outs[i].Some? && Bounds(outs[i].value).Some?
    ensures var b, p := BoundsOr(outs[i].value), PlacedBounds(outs, align, i);
      p.min.y == b.min.y + YOffset(outs, i) && p.max.y == b.max.y + YOffset(outs, i)
  {
    PlacedBox(outs, align, i);
  }

  // Outline presence and translation.

  /** `Column::edge_union` is `None` exactly when no child has an outline. */
  lemma OutlineNone(k: Kernel, outs: seq<Option<MultiPolygon>>, align: Align, bbox: bool)
    ensures Outline(k, outs, align, bbox).None? <==> forall i :: 0 <= i < |outs| ==> outs[i].None?
  {
    var ps := Placed(outs, align);
    U.FoldUnionNone(k, ps);
    assert forall i :: 0 <= i < |outs| ==> (ps[i].None? <==> outs[i].None?);
  }

  /** In bounding-box mode the outline is the rectangle of the placed union's box. */
  lemma OutlineIsBox(k: Kernel, outs: seq<Option<MultiPolygon>>, align: Align)
    requires BoundsLaws(k)
    requires forall i :: 0 <= i < |outs| ==> U.Solid(outs[i])
    requires exists i :: 0 <= i < |outs| && outs[i].Some?
    ensures var u := U.FoldUnion(k, Placed(outs, align));
      && u.Some? && Bounds(u.value).Some?
      && Outline(k, outs, align, true) == Some([RectPolygon(Bounds(u.value).value)])
      && Bounds(Outline(k, outs, align, true).value) == Bounds(u.value)
  {
    var ps := Placed(outs, align);
    PlacedSolid(outs, align);
    U.FoldUnionSolid(k, ps);
    OutlineNone(k, outs, align, true);
    var u := U.FoldUnion(k, ps);
    BoundsNormal(u.value);
    BoundsRectPolygon(Bounds(u.value).value);
  }

  /** Moving every child moves the widest box by the same amount, when every child has a box. */
  lemma LargestMotion(outs: seq<Option<MultiPolygon>>, v: Point)
    requires |outs| > 0
    requires forall i :: 0 <= i < |outs| ==> outs[i].Some? && Bounds(outs[i].value).Some?
    ensures Largest(U.TranslateAllOutlines(outs, v)) == TranslateRect(Largest(outs), v)
  {
    var moved := U.TranslateAllOutlines(outs, v);
    var bs, bs' := AllBounds(outs), AllBounds(moved);
    forall i | 0 <= i < |outs| ensures bs'[i] == TranslateRect(bs[i], v) {
      BoundsOrTranslate(outs[i].value, v);
    }
    WidestIndexMotion(bs, bs', v);
  }

  lemma {:induction false} WidestIndexMotion(bs: seq<Rect>, bs': seq<Rect>, v: Point)
    requires |bs| == |bs'| > 0
    requires forall i :: 0 <= i < |bs| ==> bs'[i] == TranslateRect(bs[i], v)
    ensures WidestIndex(bs') == WidestIndex(bs)
    decreases |bs|
  {
    if |bs| > 1 {
      WidestIndexMotion(bs[..|bs| - 1], bs'[..|bs| - 1], v);
    }
  }

  lemma {:induction false} YOffsetMotion(outs: seq<Option<MultiPolygon>>, v: Point, i: nat)
    requires i <= |outs|
    requires forall n :: 0 <= n < |outs| ==> outs[n].Some? && Bounds(outs[n].value).Some?
    ensures YOffset(U.TranslateAllOutlines(outs, v), i) == YOffset(outs, i)
    decreases i
  {
    if i > 0 {
      YOffsetMotion(outs, v, i - 1);
      BoundsOrTranslate(outs[i - 1].value, v);
    }
  }

  /** Aligning a moved box with a moved widest box takes the same horizontal move. */
  lemma AlignXMotion(align: Align, largest: Rect, b: Rect, v: Point)
    ensures AlignX(align, TranslateRect(largest, v), TranslateRect(b, v)) == AlignX(align, largest, b)
  {
    match align
    case Start =>
    case End =>
    case Center =>
      var l', b' := TranslateRect(largest, v), TranslateRect(b, v);
      assert Geo.Center(l').x == Geo.Center(largest).x + v.x;
      assert Geo.Center(b').x == Geo.Center(b).x + v.x;
  }

  /** Moving every child leaves every translation unchanged. */
  lemma TranslationsMotion(outs: seq<Option<MultiPolygon>>, align: Align, v: Point)
    requires |outs| > 0
    requires forall i :: 0 <= i < |outs| ==> outs[i].Some? && Bounds(outs[i].value).Some?
    ensures var moved := U.TranslateAllOutlines(outs, v);
      Translations(moved, align, Largest(moved)) == Translations(outs, align, Largest(outs))
  {
    var moved := U.TranslateAllOutlines(outs, v);
    var l := Largest(outs);
    LargestMotion(outs, v);
    var ts, ts' := Translations(outs, align, l), Translations(moved, align, Largest(moved));
    forall i | 0 <= i < |outs| ensures ts'[i] == ts[i] {
      var b := BoundsOr(outs[i].value);
      BoundsOrTranslate(outs[i].value, v);
      assert moved[i] == Some(TranslateMulti(outs[i].value, v));
      assert BoundsOr(moved[i].value) == TranslateRect(b, v);
      AlignXMotion(align, l, b, v);
      YOffsetMotion(outs, v, i);
    }
  }

  /** Moving every child moves every placed child by the same amount. */
  lemma PlacedMotion(outs: seq<Option<MultiPolygon>>, align: Align, v: Point)
    requires |outs| > 0
    requires forall i :: 0 <= i < |outs| ==> outs[i].Some? && Bounds(outs[i].value).Some?
    ensures Placed(U.TranslateAllOutlines(outs, v), align) == U.TranslateAllOutlines(Placed(outs, align), v)
  {
    var moved := U.TranslateAllOutlines(outs, v);
    var ts := Translations(outs, align, Largest(outs));
    TranslationsMotion(outs, align, v);
    var ps, ps' := Placed(outs, align), Placed(moved, align);
    forall i | 0 <= i < |outs| ensures ps'[i] == TranslateOutline(ps[i], v) {
      TranslateMultiTwice(outs[i].value, v, ts[i].value);
      TranslateMultiTwice(outs[i].value, ts[i].value, v);
      assert Add(v, ts[i].value) == Add(ts[i].value, v);
    }
  }

  /** Placed children keep their bounding boxes. */
  lemma PlacedSolid(outs: seq<Option<MultiPolygon>>, align: Align)
    requires forall i :: 0 <= i < |outs| ==> U.Solid(outs[i])
    ensures forall i :: 0 <= i < |outs| ==> U.Solid(Placed(outs, align)[i])
  {
    var ts := Translations(outs, align, Largest(outs));
    forall i | 0 <= i < |outs| ensures U.Solid(Placed(outs, align)[i]) {
      if outs[i].Some? {
        BoundsTranslate(outs[i].value, ts[i].value);
      }
    }
  }

  /** Moving every child moves the column's outline by the same amount. */
  lemma OutlineMotion(k: Kernel, outs: seq<Option<MultiPolygon>>, align: Align, bbox: bool, v: Point)
    requires MotionLaws(k) && BoundsLaws(k)
    requires |outs| > 0
    requires forall i :: 0 <= i < |outs| ==> outs[i].Some? && Bounds(outs[i].value).Some?
    ensures Outline(k, U.TranslateAllOutlines(outs, v), align, bbox) == TranslateOutline(Outline(k, outs, align, bbox), v)
  {
    var ps := Placed(outs, align);
    PlacedMotion(outs, align, v);
    U.FoldUnionMotion(k, ps, v);
    var u := U.FoldUnion(k, ps);
    if bbox && u.Some? {
      PlacedSolid(outs, align);
      U.FoldUnionSolid(k, ps);
      BoundsOrTranslate(u.value, v);
      RectPolygonTranslate(BoundsOr(u.value), v);
    }
  }

  lemma {:induction false} InteriorFromMotion(atoms: seq<seq<A.InnerAtom>>, ts: seq<Option<Point>>, v: Point)
    requires |atoms| == |ts|
    requires forall i :: 0 <= i < |ts| ==> ts[i].Some?
    ensures InteriorFrom(seq(|atoms|, i requires 0 <= i < |atoms| => A.TranslateAll(atoms[i], v)), ts)
         == A.TranslateAll(InteriorFrom(atoms, ts), v)
    decreases |atoms|
  {
    if |atoms| > 0 {
      var moved := seq(|atoms|, i requires 0 <= i < |atoms| => A.TranslateAll(atoms[i], v));
      var rest := seq(|atoms| - 1, i requires 0 <= i < |atoms| - 1 => A.TranslateAll(atoms[1..][i], v));
      assert moved[1..] == rest;
      InteriorFromMotion(atoms[1..], ts[1..], v);
      var t := ts[0].value;
      A.TranslateAllTwice(atoms[0], v, t);
      A.TranslateAllTwice(atoms[0], t, v);
      assert Add(v, t) == Add(t, v);
      A.TranslateAllAppend(A.TranslateAll(atoms[0], t), InteriorFrom(atoms[1..], ts[1..]), v);
    }
  }

  /** Moving every child (outline and atoms) moves every atom of the column. */
  lemma InteriorMotion(outs: seq<Option<MultiPolygon>>, atoms: seq<seq<A.InnerAtom>>, align: Align, v: Point)
    requires |outs| == |atoms| > 0
    requires forall i :: 0 <= i < |outs| ==> outs[i].Some? && Bounds(outs[i].value).Some?
    ensures Interior(U.TranslateAllOutlines(outs, v), seq(|atoms|, i requires 0 <= i < |atoms| => A.TranslateAll(atoms[i], v)), align)
         == A.TranslateAll(Interior(outs, atoms, align), v)
  {
    TranslationsMotion(outs, align, v);
    InteriorFromMotion(atoms, Translations(outs, align, Largest(outs)), v);
  }
}
