/**
 * `AtPos` (features/pos.rs): a primary feature with secondary features
 * placed around its bounding box. This module works on the already
 * lowered parts: the primary's outline and atoms, and per secondary its
 * outline, its atoms and its `Positioning`.
 */
module Pos {
  import opened Wrappers
  import opened Geo
  import opened Common
  import A = Atoms

  /**
   * Where a secondary goes: on which side of the primary, shifted along
   * that side by `centerlineAdjustment` times the primary's extent. The
   * parser also records an alignment, which placement does not read.
   */
  datatype Positioning = Positioning(side: Direction, centerlineAdjustment: real, align: Align)

  /** `Positioning::compute_translation`: the move that puts the centre of `feature` on the chosen side of `bounds`. */
  function ComputeTranslation(p: Positioning, bounds: Rect, feature: Rect): Point
  {
    var b, f := Geo.Center(bounds), Geo.Center(feature);
    match p.side
    case Left => Point(bounds.min.x - f.x, b.y - f.y + p.centerlineAdjustment * Height(bounds))
    case Right => Point(bounds.max.x - f.x, b.y - f.y + p.centerlineAdjustment * Height(bounds))
    case Up => Point(b.x - f.x + p.centerlineAdjustment * Width(bounds), bounds.min.y - f.y)
    case Down => Point(b.x - f.x + p.centerlineAdjustment * Width(bounds), bounds.max.y - f.y)
  }

  /** The point of `bounds` a secondary's centre is put on: the middle of the chosen side, moved along it. */
  function Anchor(p: Positioning, bounds: Rect): Point
  {
    var b := Geo.Center(bounds);
    match p.side
    case Left => Point(bounds.min.x, b.y + p.centerlineAdjustment * Height(bounds))
    case Right => Point(bounds.max.x, b.y + p.centerlineAdjustment * Height(bounds))
    case Up => Point(b.x + p.centerlineAdjustment * Width(bounds), bounds.min.y)
    case Down => Point(b.x + p.centerlineAdjustment * Width(bounds), bounds.max.y)
  }

  /** After the computed move, the secondary is centred on the anchor of its side. */
  lemma TranslationLands(p: Positioning, bounds: Rect, feature: Rect)
    ensures Geo.Center(TranslateRect(feature, ComputeTranslation(p, bounds, feature))) == Anchor(p, bounds)
  {
  }

  /** Moving the primary moves each computed translation by the same amount. */
  lemma TranslationMotion(p: Positioning, bounds: Rect, feature: Rect, v: Point)
    ensures ComputeTranslation(p, TranslateRect(bounds, v), feature) == Add(ComputeTranslation(p, bounds, feature), v)
  {
  }

  /** The primary's outline, or the empty multi-polygon when it has none. */
  function PrimaryOutline(primary: Option<MultiPolygon>): MultiPolygon
  {
    match primary
    case Some(m) => m
    case None => []
  }

  /** One step of the placement loop: a secondary with an outline is moved into place and unioned on. */
  function PlaceOne(k: Kernel, bounds: Rect, out: MultiPolygon, g: Option<MultiPolygon>, p: Positioning): MultiPolygon
  {
    match g
    case None => out
    case Some(m) => k.union(out, TranslateMulti(m, ComputeTranslation(p, bounds, BoundsOr(m))))
  }

  function Place(k: Kernel, bounds: Rect, out: MultiPolygon, outs: seq<Option<MultiPolygon>>, poss: seq<Positioning>): MultiPolygon
    requires |outs| == |poss|
    decreases |outs|
  {
    if |outs| == 0 then out else Place(k, bounds, PlaceOne(k, bounds, out, outs[0], poss[0]), outs[1..], poss[1..])
  }

  /** `AtPos::edge_union`: the placed union, or `None` when it has no polygons. */
  function Outline(k: Kernel, primary: Option<MultiPolygon>, outs: seq<Option<MultiPolygon>>, poss: seq<Positioning>): Option<MultiPolygon>
    requires |outs| == |poss|
  {
    var out := PrimaryOutline(primary);
    var res := Place(k, BoundsOr(out), out, outs, poss);
    if |res| > 0 then Some(res) else None
  }

  /** The loop of `AtPos::edge_union`, which reassigns the accumulated union once per secondary. */
  method OutlineLoop(k: Kernel, primary: Option<MultiPolygon>, outs: seq<Option<MultiPolygon>>, poss: seq<Positioning>)
    returns (r: Option<MultiPolygon>)
    requires |outs| == |poss|
    ensures r == Outline(k, primary, outs, poss)
  {
    var out := PrimaryOutline(primary);
    var bounds := BoundsOr(out);
    ghost var out0 := out;
    var i := 0;
    while i < |outs|
      invariant 0 <= i <= |outs|
      invariant Place(k, bounds, out, outs[i..], poss[i..]) == Place(k, bounds, out0, outs, poss)
      decreases |outs| - i
    {
      assert outs[i..][1..] == outs[i + 1..] && poss[i..][1..] == poss[i + 1..];
      if outs[i].Some? {
        var geo := outs[i].value;
        var t := ComputeTranslation(poss[i], bounds, BoundsOr(geo));
        out := k.union(out, TranslateMulti(geo, t));
      }
      i := i + 1;
    }
    r := if |out| > 0 then Some(out) else None;
  }

  /** The atoms of one secondary, moved by the same translation as its outline; none when it has no outline. */
  function PlacedAtoms(bounds: Rect, g: Option<MultiPolygon>, atoms: seq<A.InnerAtom>, p: Positioning): seq<A.InnerAtom>
  {
    match g
    case None => []
    case Some(m) => A.TranslateAll(atoms, ComputeTranslation(p, bounds, BoundsOr(m)))
  }

  /** A secondary with an outline has its atoms moved by the translation that places its box. */
  lemma PlacedSome(bounds: Rect, g: Option<MultiPolygon>, atoms: seq<A.InnerAtom>, p: Positioning)
    requires g.Some?
    ensures PlacedAtoms(bounds, g, atoms, p) == A.TranslateAll(atoms, ComputeTranslation(p, bounds, BoundsOr(g.value)))
  {
  }

  function PlaceAtoms(bounds: Rect, outs: seq<Option<MultiPolygon>>, atoms: seq<seq<A.InnerAtom>>, poss: seq<Positioning>): seq<A.InnerAtom>
    requires |outs| == |atoms| == |poss|
    decreases |outs|
  {
    if |outs| == 0 then []
    else PlacedAtoms(bounds, outs[0], atoms[0], poss[0]) + PlaceAtoms(bounds, outs[1..], atoms[1..], poss[1..])
  }

  /** `AtPos::interior`: the primary's atoms, then each secondary's atoms moved into place. */
  function Interior(primary: Option<MultiPolygon>, primaryAtoms: seq<A.InnerAtom>,
                    outs: seq<Option<MultiPolygon>>, atoms: seq<seq<A.InnerAtom>>, poss: seq<Positioning>): seq<A.InnerAtom>
    requires |outs| == |atoms| == |poss|
  {
    primaryAtoms + PlaceAtoms(BoundsOr(PrimaryOutline(primary)), outs, atoms, poss)
  }

  // Properties of placement.

  lemma {:induction false} PlaceEmpty(k: Kernel, bounds: Rect, out: MultiPolygon, outs: seq<Option<MultiPolygon>>, poss: seq<Positioning>)
    requires BoundsLaws(k) && |outs| == |poss|
    ensures |Place(k, bounds, out, outs, poss)| == 0 <==> |out| == 0 && forall i :: 0 <= i < |outs| ==> outs[i].None? || |outs[i].value| == 0
    decreases |outs|
  {
    if |outs| > 0 {
      PlaceEmpty(k, bounds, PlaceOne(k, bounds, out, outs[0], poss[0]), outs[1..], poss[1..]);
      assert forall i :: 1 <= i < |outs| ==> outs[i] == outs[1..][i - 1];
    }
  }

  /**
   * `AtPos::edge_union` is `None` exactly when neither the primary nor any
   * secondary contributes a polygon.
   */
  lemma OutlineNone(k: Kernel, primary: Option<MultiPolygon>, outs: seq<Option<MultiPolygon>>, poss: seq<Positioning>)
    requires BoundsLaws(k) && |outs| == |poss|
    ensures Outline(k, primary, outs, poss).None?
        <==> (primary.None? || |primary.value| == 0) && forall i :: 0 <= i < |outs| ==> outs[i].None? || |outs[i].value| == 0
  {
    var out := PrimaryOutline(primary);
    PlaceEmpty(k, BoundsOr(out), out, outs, poss);
  }

  /** A polygon set that is empty or has a bounding box. */
  predicate Boxed(m: MultiPolygon) { |m| == 0 || Bounds(m).Some? }

  /** Unions keep the property of being empty or having a bounding box, as the bounding-box laws imply. */
  ghost predicate UnionKeepsBoxed(k: Kernel)
  {
    forall a, b :: Boxed(a) && Boxed(b) ==> Boxed(k.union(a, b))
  }

  lemma UnionBoxed(k: Kernel)
    requires BoundsLaws(k)
    ensures UnionKeepsBoxed(k)
  {
    forall a, b | Boxed(a) && Boxed(b) ensures Boxed(k.union(a, b)) {
      assert Bounds(k.union(a, b)) == JoinOpt(Bounds(a), Bounds(b));
      assert |k.union(a, b)| == 0 <==> |a| == 0 && |b| == 0;
    }
  }

  lemma {:induction false} PlaceBoxed(k: Kernel, bounds: Rect, out: MultiPolygon, outs: seq<Option<MultiPolygon>>, poss: seq<Positioning>)
    requires UnionKeepsBoxed(k) && |outs| == |poss|
    requires Boxed(out) && forall i :: 0 <= i < |outs| ==> outs[i].None? || Boxed(outs[i].value)
    ensures Boxed(Place(k, bounds, out, outs, poss))
    decreases |outs|
  {
    if |outs| > 0 {
      var next := PlaceOne(k, bounds, out, outs[0], poss[0]);
      if outs[0].Some? {
        var m := outs[0].value;
        var t := ComputeTranslation(poss[0], bounds, BoundsOr(m));
        BoundsTranslate(m, t);
        assert Boxed(TranslateMulti(m, t));
      }
      assert forall i :: 1 <= i < |outs| ==> outs[i] == outs[1..][i - 1];
      PlaceBoxed(k, bounds, next, outs[1..], poss[1..]);
    }
  }

  /** A placed union that has polygons has a bounding box, when every part that has polygons has one. */
  lemma OutlineSolid(k: Kernel, primary: Option<MultiPolygon>, outs: seq<Option<MultiPolygon>>, poss: seq<Positioning>)
    requires BoundsLaws(k) && |outs| == |poss|
    requires primary.None? || Boxed(primary.value)
    requires forall i :: 0 <= i < |outs| ==> outs[i].None? || Boxed(outs[i].value)
    ensures var r := Outline(k, primary, outs, poss); r.Some? ==> Bounds(r.value).Some?
  {
    var out := PrimaryOutline(primary);
    UnionBoxed(k);
    PlaceBoxed(k, BoundsOr(out), out, outs, poss);
  }

  lemma {:induction false} PlaceMotion(k: Kernel, bounds: Rect, out: MultiPolygon, outs: seq<Option<MultiPolygon>>, poss: seq<Positioning>, v: Point)
    requires MotionLaws(k) && |outs| == |poss|
    requires forall i :: 0 <= i < |outs| ==> outs[i].None? || Bounds(outs[i].value).Some?
    ensures Place(k, TranslateRect(bounds, v), TranslateMulti(out, v), outs, poss) == TranslateMulti(Place(k, bounds, out, outs, poss), v)
    decreases |outs|
  {
    if |outs| > 0 {
      var next := PlaceOne(k, bounds, out, outs[0], poss[0]);
      if outs[0].Some? {
        var m := outs[0].value;
        var t := ComputeTranslation(poss[0], bounds, BoundsOr(m));
        TranslationMotion(poss[0], bounds, BoundsOr(m), v);
        TranslateMultiTwice(m, t, v);
      }
      assert PlaceOne(k, TranslateRect(bounds, v), TranslateMulti(out, v), outs[0], poss[0]) == TranslateMulti(next, v);
      assert forall i :: 1 <= i < |outs| ==> outs[i] == outs[1..][i - 1];
      PlaceMotion(k, bounds, next, outs[1..], poss[1..], v);
    }
  }

  /**
   * Moving the primary moves the whole placed outline: the secondaries
   * follow because they are placed relative to the primary's box.
   */
  lemma OutlineMotion(k: Kernel, primary: MultiPolygon, outs: seq<Option<MultiPolygon>>, poss: seq<Positioning>, v: Point)
    requires MotionLaws(k) && |outs| == |poss|
    requires Bounds(primary).Some?
    requires forall i :: 0 <= i < |outs| ==> outs[i].None? || Bounds(outs[i].value).Some?
    ensures Outline(k, Some(TranslateMulti(primary, v)), outs, poss) == TranslateOutline(Outline(k, Some(primary), outs, poss), v)
  {
    BoundsOrTranslate(primary, v);
    PlaceMotion(k, BoundsOr(primary), primary, outs, poss, v);
  }

  lemma {:induction false} PlaceAtomsMotion(bounds: Rect, outs: seq<Option<MultiPolygon>>, atoms: seq<seq<A.InnerAtom>>, poss: seq<Positioning>, v: Point)
    requires |outs| == |atoms| == |poss|
    ensures PlaceAtoms(TranslateRect(bounds, v), outs, atoms, poss) == A.TranslateAll(PlaceAtoms(bounds, outs, atoms, poss), v)
    decreases |outs|
  {
    if |outs| > 0 {
      if outs[0].Some? {
        var m := outs[0].value;
        TranslationMotion(poss[0], bounds, BoundsOr(m), v);
        A.TranslateAllTwice(atoms[0], ComputeTranslation(poss[0], bounds, BoundsOr(m)), v);
      }
      PlaceAtomsMotion(bounds, outs[1..], atoms[1..], poss[1..], v);
      A.TranslateAllAppend(PlacedAtoms(bounds, outs[0], atoms[0], poss[0]), PlaceAtoms(bounds, outs[1..], atoms[1..], poss[1..]), v);
    }
  }

  /** Moving the primary (outline and atoms) moves every interior atom, including the secondaries'. */
  lemma InteriorMotion(primary: MultiPolygon, primaryAtoms: seq<A.InnerAtom>,
                       outs: seq<Option<MultiPolygon>>, atoms: seq<seq<A.InnerAtom>>, poss: seq<Positioning>, v: Point)
    requires |outs| == |atoms| == |poss|
    requires Bounds(primary).Some?
    ensures Interior(Some(TranslateMulti(primary, v)), A.TranslateAll(primaryAtoms, v), outs, atoms, poss)
         == A.TranslateAll(Interior(Some(primary), primaryAtoms, outs, atoms, poss), v)
  {
    BoundsOrTranslate(primary, v);
    PlaceAtomsMotion(BoundsOr(primary), outs, atoms, poss, v);
    A.TranslateAllAppend(primaryAtoms, PlaceAtoms(BoundsOr(primary), outs, atoms, poss), v);
  }

  /** The placed atoms split at secondary j: those of the secondaries before it, then its own, then those after it. */
  lemma {:induction false} PlaceAtomsSplit(bounds: Rect, outs: seq<Option<MultiPolygon>>, atoms: seq<seq<A.InnerAtom>>, poss: seq<Positioning>, j: nat)
    requires |outs| == |atoms| == |poss| && j < |outs|
    ensures PlaceAtoms(bounds, outs, atoms, poss)
         == PlaceAtoms(bounds, outs[..j], atoms[..j], poss[..j])
          + PlacedAtoms(bounds, outs[j], atoms[j], poss[j])
          + PlaceAtoms(bounds, outs[j + 1..], atoms[j + 1..], poss[j + 1..])
    decreases |outs|
  {
    if j == 0 {
      assert outs[1..] == outs[j + 1..] && atoms[1..] == atoms[j + 1..] && poss[1..] == poss[j + 1..];
    } else {
      var o, a, q := outs[1..], atoms[1..], poss[1..];
      var head := PlacedAtoms(bounds, outs[0], atoms[0], poss[0]);
      var mid := PlacedAtoms(bounds, outs[j], atoms[j], poss[j]);
      var post := PlaceAtoms(bounds, outs[j + 1..], atoms[j + 1..], poss[j + 1..]);
      var rest := PlaceAtoms(bounds, o[..j - 1], a[..j - 1], q[..j - 1]);
      PlaceAtomsSplit(bounds, o, a, q, j - 1);
      assert o[j - 1] == outs[j] && a[j - 1] == atoms[j] && q[j - 1] == poss[j];
      assert o[j..] == outs[j + 1..] && a[j..] == atoms[j + 1..] && q[j..] == poss[j + 1..];
      assert PlaceAtoms(bounds, o, a, q) == rest + mid + post;
      assert PlaceAtoms(bounds, outs, atoms, poss) == head + PlaceAtoms(bounds, o, a, q);
      var o', a', q' := outs[..j], atoms[..j], poss[..j];
      assert o'[1..] == o[..j - 1] && a'[1..] == a[..j - 1] && q'[1..] == q[..j - 1];
      assert o'[0] == outs[0] && a'[0] == atoms[0] && q'[0] == poss[0];
      assert PlaceAtoms(bounds, o', a', q') == head + rest;
    }
  }

  /**
   * A secondary with an outline contributes all its atoms, moved by the
   * translation that places its box, right after the atoms of the
   * secondaries before it.
   */
  lemma PlaceAtomsAt(bounds: Rect, outs: seq<Option<MultiPolygon>>, atoms: seq<seq<A.InnerAtom>>, poss: seq<Positioning>, j: nat)
    requires |outs| == |atoms| == |poss| && j < |outs|
    requires outs[j].Some?
    ensures var s := |PlaceAtoms(bounds, outs[..j], atoms[..j], poss[..j])|;
      && s + |atoms[j]| <= |PlaceAtoms(bounds, outs, atoms, poss)|
      && PlaceAtoms(bounds, outs, atoms, poss)[s..s + |atoms[j]|]
         == A.TranslateAll(atoms[j], ComputeTranslation(poss[j], bounds, BoundsOr(outs[j].value)))
  {
    var pre := PlaceAtoms(bounds, outs[..j], atoms[..j], poss[..j]);
    var mid := PlacedAtoms(bounds, outs[j], atoms[j], poss[j]);
    var post := PlaceAtoms(bounds, outs[j + 1..], atoms[j + 1..], poss[j + 1..]);
    PlaceAtomsSplit(bounds, outs, atoms, poss, j);
    PlacedSome(bounds, outs[j], atoms[j], poss[j]);
    assert |mid| == |atoms[j]|;
    assert (pre + mid + post)[|pre|..|pre| + |mid|] == mid;
  }
}
