/** The smallest interior geometries (`InnerAtom`) and named bounds (`NamedInfo`), features.rs. */
module Atoms {
  import opened Wrappers
  import G = Geo
  import opened Common
  import Strings

  datatype InnerAtom =
    | Drill(center: G.Point, radius: real, plated: bool)
    | Circle(center: G.Point, radius: real, layer: Layer)
    | Rect(rect: G.Rect, layer: Layer)
    | VScoreH(y: real)
    | VScoreV(x: real)

  /** `InnerAtom::bounds`: the square around a drill or circle, the rectangle itself, nothing for a score line. */
  function Bounds(a: InnerAtom): Option<G.Rect>
  {
    match a
    case Drill(c, r, _) => Some(G.RectNew(G.Point(c.x - r, c.y - r), G.Point(c.x + r, c.y + r)))
    case Circle(c, r, _) => Some(G.RectNew(G.Point(c.x - r, c.y - r), G.Point(c.x + r, c.y + r)))
    case Rect(r, _) => Some(r)
    case VScoreH(_) => None
    case VScoreV(_) => None
  }

  /** `InnerAtom::translate`: a horizontal score line only moves vertically and a vertical one only horizontally. */
  function Translate(a: InnerAtom, v: G.Point): InnerAtom
  {
    match a
    case Drill(c, r, p) => Drill(G.Add(c, v), r, p)
    case Circle(c, r, l) => Circle(G.Add(c, v), r, l)
    case Rect(r, l) => Rect(G.TranslateRect(r, v), l)
    case VScoreH(y) => VScoreH(y + v.y)
    case VScoreV(x) => VScoreV(x + v.x)
  }

  function TranslateAll(atoms: seq<InnerAtom>, v: G.Point): (r: seq<InnerAtom>)
    ensures |r| == |atoms|
  {
    seq(|atoms|, i requires 0 <= i < |atoms| => Translate(atoms[i], v))
  }

  /** The bounding rectangle of all atoms that have bounds (`geo::GeometryCollection::bounding_rect`). */
  function AllBounds(atoms: seq<InnerAtom>): Option<G.Rect>
  {
    if |atoms| == 0 then None else G.JoinOpt(Bounds(atoms[0]), AllBounds(atoms[1..]))
  }

  /** The bounds of a named piece of geometry. */
  datatype NamedInfo = NamedInfo(name: string, bounds: G.Rect)

  /** `NamedInfo::translate` moves the bounds and keeps the name. */
  function TranslateInfo(n: NamedInfo, v: G.Point): NamedInfo
  {
    NamedInfo(n.name, G.TranslateRect(n.bounds, v))
  }

  /** `NamedInfo::name_index`: the decimal index appended to the name. */
  function NameIndex(n: NamedInfo, idx: nat): NamedInfo
  {
    NamedInfo(n.name + Strings.NatToString(idx), n.bounds)
  }

  /** Translating an atom translates its bounds. */
  lemma TranslateBounds(a: InnerAtom, v: G.Point)
    ensures Bounds(Translate(a, v)) == G.TranslateRectOpt(Bounds(a), v)
  {
  }

  /** Two translations in a row are one translation by their sum. */
  lemma TranslateTwice(a: InnerAtom, u: G.Point, v: G.Point)
    ensures Translate(Translate(a, u), v) == Translate(a, G.Add(u, v))
  {
  }

  lemma TranslateAllTwice(atoms: seq<InnerAtom>, u: G.Point, v: G.Point)
    ensures TranslateAll(TranslateAll(atoms, u), v) == TranslateAll(atoms, G.Add(u, v))
  {
    forall i | 0 <= i < |atoms| ensures TranslateAll(TranslateAll(atoms, u), v)[i] == TranslateAll(atoms, G.Add(u, v))[i] {
      TranslateTwice(atoms[i], u, v);
    }
  }

  lemma TranslateAllAppend(a: seq<InnerAtom>, b: seq<InnerAtom>, v: G.Point)
    ensures TranslateAll(a + b, v) == TranslateAll(a, v) + TranslateAll(b, v)
  {
  }

  /** `name_index` renders the index in decimal after the old name, so distinct indices give distinct names. */
  lemma {:induction false} NameIndexDistinct(n: NamedInfo, i: nat, j: nat)
    requires i != j
    ensures NameIndex(n, i).name != NameIndex(n, j).name
    ensures NameIndex(n, i).name[..|n.name|] == n.name && NameIndex(n, i).bounds == n.bounds
  {
    var si, sj := Strings.NatToString(i), Strings.NatToString(j);
    if n.name + si == n.name + sj {
      assert si == (n.name + si)[|n.name|..];
      Strings.NatToStringInjective(i, j);
    }
    assert (n.name + si)[..|n.name|] == n.name;
  }

  /** The joint bounding box of moved atoms is their joint bounding box moved. */
  lemma {:induction false} AllBoundsTranslate(atoms: seq<InnerAtom>, v: G.Point)
    ensures AllBounds(TranslateAll(atoms, v)) == G.TranslateRectOpt(AllBounds(atoms), v)
    decreases |atoms|
  {
    if |atoms| > 0 {
      assert TranslateAll(atoms, v)[1..] == TranslateAll(atoms[1..], v);
      AllBoundsTranslate(atoms[1..], v);
      TranslateBounds(atoms[0], v);
      G.JoinOptTranslate(Bounds(atoms[0]), AllBounds(atoms[1..]), v);
    }
  }
}
