/**
 * The inner features a shape can carry: a screw hole, a smiley, a
 * mechanical solder point, or nothing (`Unit`). Each is a value with a
 * centre that translation moves, and lowers to a list of atoms.
 */
module Inner {
  import G = Geo
  import opened Common
  import A = Atoms

  datatype InnerFeature =
    | Unit
    | ScrewHole(center: G.Point, drillRadius: real, annularRingRadius: real)
    | Smiley(center: G.Point)
    | MechanicalSolderPoint(center: G.Point, size: (real, real), drillRadius: real)

  /** `ScrewHole::default`: a 1.5 drill radius with a 1.8 ring at the origin. */
  function ScrewHoleDefault(): InnerFeature { ScrewHole(G.Origin, 1.5, 1.8) }

  /** `ScrewHole::with_diameter`: drill radius half the diameter, ring 0.3 wider. */
  function ScrewHoleWithDiameter(dia: real): InnerFeature { ScrewHole(G.Origin, dia / 2.0, dia / 2.0 + 0.3) }

  function SmileyDefault(): InnerFeature { Smiley(G.Origin) }

  /** `MechanicalSolderPoint::default`: a 1.175 by 1.45 pad with a 0.15 drill radius at the origin. */
  function MspDefault(): InnerFeature { MechanicalSolderPoint(G.Origin, (1.175, 1.45), 0.15) }

  /** `MechanicalSolderPoint::with_size`: the default with another pad size. */
  function MspWithSize(size: (real, real)): InnerFeature { MechanicalSolderPoint(G.Origin, size, 0.15) }

  /** The pad rectangle of a solder point: its centre plus and minus half the size. */
  function MspRect(center: G.Point, size: (real, real)): G.Rect
  {
    G.RectNew(G.Add(center, G.Point(-size.0 / 2.0, -size.1 / 2.0)), G.Add(center, G.Point(size.0 / 2.0, size.1 / 2.0)))
  }

  /** `InnerFeature::translate`: the centre moves, nothing else changes. */
  function Translate(f: InnerFeature, v: G.Point): InnerFeature
  {
    match f
    case Unit => Unit
    case ScrewHole(c, d, r) => ScrewHole(G.Add(c, v), d, r)
    case Smiley(c) => Smiley(G.Add(c, v))
    case MechanicalSolderPoint(c, s, d) => MechanicalSolderPoint(G.Add(c, v), s, d)
  }

  const SmileyLeftEye := G.Point(-0.6, -0.6)
  const SmileyRightEye := G.Point(0.6, -0.6)

  /** The three mouth strokes of a smiley, as pairs of opposite corners relative to its centre. */
  const SmileyMouth: seq<(G.Point, G.Point)> := [
    (G.Point(-1.4, 0.15), G.Point(-1.0, 0.9)),
    (G.Point(-1.0, 0.6), G.Point(1.0, 0.9)),
    (G.Point(1.0, 0.9), G.Point(1.4, 0.15))]

  /** The four copper and mask layers a pad or ring is repeated on, in emission order. */
  const PadLayers: seq<Layer> := [BackCopper, BackMask, FrontCopper, FrontMask]

  /**
   * `InnerFeature::atoms`. The screw hole's drill is written in the
   * source without its `plated` field; `screwHolePlated` stands for it.
   */
  function Atoms(f: InnerFeature, screwHolePlated: bool): seq<A.InnerAtom>
  {
    match f
    case Unit => []
    case ScrewHole(c, d, r) =>
      seq(4, i requires 0 <= i < 4 => A.Circle(c, r, PadLayers[i])) + [A.Drill(c, d, screwHolePlated)]
    case Smiley(c) =>
      [A.Circle(G.Add(c, SmileyLeftEye), 0.4, FrontLegend), A.Circle(G.Add(c, SmileyRightEye), 0.4, FrontLegend)]
      + seq(3, i requires 0 <= i < 3 => A.Rect(G.RectNew(G.Add(c, SmileyMouth[i].0), G.Add(c, SmileyMouth[i].1)), FrontLegend))
    case MechanicalSolderPoint(c, s, d) =>
      seq(4, i requires 0 <= i < 4 => A.Rect(MspRect(c, s), PadLayers[i])) + [A.Drill(c, d, true)]
  }

  lemma RectNewTranslate(a: G.Point, b: G.Point, v: G.Point)
    ensures G.RectNew(G.Add(a, v), G.Add(b, v)) == G.TranslateRect(G.RectNew(a, b), v)
  {
  }

  /** Lowering commutes with translation: the atoms of a moved inner feature are its atoms moved. */
  lemma {:induction false} AtomsTranslate(f: InnerFeature, plated: bool, v: G.Point)
    ensures Atoms(Translate(f, v), plated) == A.TranslateAll(Atoms(f, plated), v)
  {
    match f
    case Unit =>
    case ScrewHole(c, d, r) =>
    case Smiley(c) => SmileyTranslate(c, plated, v);
    case MechanicalSolderPoint(c, s, d) => MspTranslate(c, s, d, plated, v);
  }

  lemma SmileyTranslate(c: G.Point, plated: bool, v: G.Point)
    ensures Atoms(Translate(Smiley(c), v), plated) == A.TranslateAll(Atoms(Smiley(c), plated), v)
  {
    forall i | 0 <= i < 3
      ensures G.RectNew(G.Add(G.Add(c, v), SmileyMouth[i].0), G.Add(G.Add(c, v), SmileyMouth[i].1))
           == G.TranslateRect(G.RectNew(G.Add(c, SmileyMouth[i].0), G.Add(c, SmileyMouth[i].1)), v)
    {
      assert G.Add(G.Add(c, v), SmileyMouth[i].0) == G.Add(G.Add(c, SmileyMouth[i].0), v);
      assert G.Add(G.Add(c, v), SmileyMouth[i].1) == G.Add(G.Add(c, SmileyMouth[i].1), v);
      RectNewTranslate(G.Add(c, SmileyMouth[i].0), G.Add(c, SmileyMouth[i].1), v);
    }
  }

  lemma MspTranslate(c: G.Point, s: (real, real), d: real, plated: bool, v: G.Point)
    ensures Atoms(Translate(MechanicalSolderPoint(c, s, d), v), plated) == A.TranslateAll(Atoms(MechanicalSolderPoint(c, s, d), plated), v)
  {
    var f := MechanicalSolderPoint(c, s, d);
    RectNewTranslate(G.Add(c, G.Point(-s.0 / 2.0, -s.1 / 2.0)), G.Add(c, G.Point(s.0 / 2.0, s.1 / 2.0)), v);
    assert MspRect(G.Add(c, v), s) == G.TranslateRect(MspRect(c, s), v);
    var moved := Atoms(Translate(f, v), plated);
    var expected := A.TranslateAll(Atoms(f, plated), v);
    assert |moved| == |expected| == 5;
    forall i | 0 <= i < 5 ensures moved[i] == expected[i] {
    }
  }

  /**
   * A screw hole of diameter `dia` emits a ring of radius `dia/2 + 0.3` on
   * each copper and mask layer, then one drill of radius `dia/2`, all at
   * its centre; the drill stays inside the ring.
   */
  lemma ScrewHoleAtoms(dia: real, plated: bool)
    ensures var atoms := Atoms(ScrewHoleWithDiameter(dia), plated);
      && |atoms| == 5
      && (forall i :: 0 <= i < 4 ==> atoms[i] == A.Circle(G.Origin, dia / 2.0 + 0.3, PadLayers[i]))
      && atoms[4] == A.Drill(G.Origin, dia / 2.0, plated)
      && atoms[4].radius < atoms[0].radius
  {
  }

  /**
   * A smiley is drawn on the front legend: two eyes of radius 0.4 up and to
   * either side of its centre, then three mouth strokes (left corner,
   * lower lip, right corner) as normalised rectangles.
   */
  lemma SmileyAtoms(c: G.Point, plated: bool)
    ensures var atoms := Atoms(Smiley(c), plated);
      && |atoms| == 5
      && (forall i :: 0 <= i < 5 ==> !atoms[i].Drill? && !atoms[i].VScoreH? && !atoms[i].VScoreV? && atoms[i].layer == FrontLegend)
      && atoms[0] == A.Circle(G.Point(c.x - 0.6, c.y - 0.6), 0.4, FrontLegend)
      && atoms[1] == A.Circle(G.Point(c.x + 0.6, c.y - 0.6), 0.4, FrontLegend)
      && atoms[2] == A.Rect(G.Rect(G.Point(c.x - 1.4, c.y + 0.15), G.Point(c.x - 1.0, c.y + 0.9)), FrontLegend)
      && atoms[3] == A.Rect(G.Rect(G.Point(c.x - 1.0, c.y + 0.6), G.Point(c.x + 1.0, c.y + 0.9)), FrontLegend)
      && atoms[4] == A.Rect(G.Rect(G.Point(c.x + 1.0, c.y + 0.15), G.Point(c.x + 1.4, c.y + 0.9)), FrontLegend)
  {
  }

  /** A solder point emits four copies of one pad of its size centred on it, then a plated drill at its centre. */
  lemma MspAtoms(f: InnerFeature, plated: bool)
    requires f.MechanicalSolderPoint? && f.size.0 >= 0.0 && f.size.1 >= 0.0
    ensures var atoms := Atoms(f, plated);
      && |atoms| == 5
      && (forall i :: 0 <= i < 4 ==> atoms[i].Rect? && atoms[i].rect == atoms[0].rect && atoms[i].layer == PadLayers[i])
      && G.Center(atoms[0].rect) == f.center
      && G.Width(atoms[0].rect) == f.size.0 && G.Height(atoms[0].rect) == f.size.1
      && atoms[4] == A.Drill(f.center, f.drillRadius, true)
  {
    var r := MspRect(f.center, f.size);
    assert r.min == G.Point(f.center.x - f.size.0 / 2.0, f.center.y - f.size.1 / 2.0);
    assert r.max == G.Point(f.center.x + f.size.0 / 2.0, f.center.y + f.size.1 / 2.0);
    assert Atoms(f, plated)[0].rect == r;
  }
}
