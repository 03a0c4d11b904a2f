/**
 * The repetition arithmetic of `Tile` (features/repeating.rs): `amt`
 * copies of an inner feature, each one step of `Direction::offset` of
 * the inner bounding box further along, optionally with a score line
 * between neighbouring copies.
 */
module Repeating {
  import opened Wrappers
  import opened Geo
  import opened Common
  import A = Atoms

  /** The offset of copy `i`: `i` steps of `step`. */
  function CopyOffset(step: Point, i: nat): Point { Scale(i as real, step) }

  /**
   * The loop of `Tile::edge_union` and `Tile::edge_subtract`: starting
   * from `g`, copy `i` (for `i` from 0 below `n`) is unioned onto the
   * accumulated outline. Copy 0 is `g` itself.
   */
  function Repeat(k: Kernel, g: MultiPolygon, step: Point, n: nat): MultiPolygon
  {
    if n == 0 then g else k.union(Repeat(k, g, step, n - 1), TranslateMulti(g, CopyOffset(step, n - 1)))
  }

  method RepeatLoop(k: Kernel, g: MultiPolygon, step: Point, amt: nat) returns (out: MultiPolygon)
    ensures out == Repeat(k, g, step, amt)
  {
    out := g;
    var i := 0;
    while i < amt
      invariant 0 <= i <= amt
      invariant out == Repeat(k, g, step, i)
      decreases amt - i
    {
      var next := TranslateMulti(g, Scale(i as real, step));
      out := k.union(out, next);
      i := i + 1;
    }
  }

  /** `Tile::edge_union`: the inner outline repeated by its own box; none without an inner outline. */
  function Outline(k: Kernel, inner: Option<MultiPolygon>, d: Direction, amt: nat): Option<MultiPolygon>
  {
    match inner
    case None => None
    case Some(g) => Some(Repeat(k, g, Offset(d, BoundsOr(g)), amt))
  }

  /**
   * `Tile::edge_subtract`: the inner subtract geometry repeated, stepping
   * by the inner outline's box, or by the subtract geometry's own box when
   * there is no inner outline.
   */
  function Subtract(k: Kernel, innerUnion: Option<MultiPolygon>, innerSub: Option<MultiPolygon>, d: Direction, amt: nat): Option<MultiPolygon>
  {
    match innerSub
    case None => None
    case Some(s) =>
      var bounds := match innerUnion case Some(e) => BoundsOr(e) case None => BoundsOr(s);
      Some(Repeat(k, s, Offset(d, bounds), amt))
  }

  /**
   * The box `Tile::interior` steps by: the inner outline's, or else the
   * joint box of the inner atoms. The source panics when neither exists;
   * the model then steps by the zero rectangle.
   */
  function TileBounds(inner: Option<MultiPolygon>, atoms: seq<A.InnerAtom>): Rect
  {
    match inner
    case Some(g) => BoundsOr(g)
    case None => match A.AllBounds(atoms) case Some(r) => r case None => ZeroRect
  }

  /**
   * The score line the source writes after copy `i`: half the box beyond
   * the copy's offset, measured from the origin rather than from the box.
   */
  function ScoreAsWritten(d: Direction, b: Rect, i: nat): A.InnerAtom
  {
    var o := CopyOffset(Offset(d, b), i);
    match d
    case Left => A.VScoreV(o.x + Width(b) / 2.0)
    case Right => A.VScoreV(o.x + Width(b) / 2.0)
    case Down => A.VScoreH(o.y + Height(b) / 2.0)
    case Up => A.VScoreH(o.y + Height(b) / 2.0)
  }

  /** The score line between copy `i` and copy `i + 1`: half a step beyond the centre of copy `i`. */
  function Score(d: Direction, b: Rect, i: nat): A.InnerAtom
  {
    var c := Add(Geo.Center(b), Scale(i as real + 0.5, Offset(d, b)));
    match d
    case Left => A.VScoreV(c.x)
    case Right => A.VScoreV(c.x)
    case Down => A.VScoreH(c.y)
    case Up => A.VScoreH(c.y)
  }

  /** The score lines follow every copy but the last. */
  predicate Scored(vScore: bool, amt: nat, i: nat) { vScore && i + 1 < amt }

  /** A tile draws score lines at all: scoring is on and there are at least two copies. */
  predicate HasScores(vScore: bool, amt: nat) { vScore && amt >= 2 }

  /** The score line after copy `i`: the one the source writes, or, when `corrected`, the one on the shared edge. */
  function ScoreLine(corrected: bool, d: Direction, b: Rect, i: nat): A.InnerAtom
  {
    if corrected then Score(d, b, i) else ScoreAsWritten(d, b, i)
  }

  /** The atoms copy `i` contributes: the inner atoms moved by its offset, then its score line if it has one. */
  function CopyAtoms(atoms: seq<A.InnerAtom>, b: Rect, d: Direction, amt: nat, vScore: bool, corrected: bool, i: nat): seq<A.InnerAtom>
  {
    A.TranslateAll(atoms, CopyOffset(Offset(d, b), i)) + (if Scored(vScore, amt, i) then [ScoreLine(corrected, d, b, i)] else [])
  }

  function Copies(atoms: seq<A.InnerAtom>, b: Rect, d: Direction, amt: nat, vScore: bool, corrected: bool, n: nat): seq<A.InnerAtom>
  {
    if n == 0 then [] else Copies(atoms, b, d, amt, vScore, corrected, n - 1) + CopyAtoms(atoms, b, d, amt, vScore, corrected, n - 1)
  }

  /** `Tile::interior`, with the score lines where the source writes them. */
  function Interior(inner: Option<MultiPolygon>, atoms: seq<A.InnerAtom>, d: Direction, amt: nat, vScore: bool): seq<A.InnerAtom>
  {
    Copies(atoms, TileBounds(inner, atoms), d, amt, vScore, false, amt)
  }

  /** The interior with every score line on the edge its two copies share. */
  function CorrectedInterior(inner: Option<MultiPolygon>, atoms: seq<A.InnerAtom>, d: Direction, amt: nat, vScore: bool): seq<A.InnerAtom>
  {
    Copies(atoms, TileBounds(inner, atoms), d, amt, vScore, true, amt)
  }

  /** The loops of `Tile::interior`: one pass per copy, pushing each moved atom and then the score line. */
  method InteriorLoop(inner: Option<MultiPolygon>, atoms: seq<A.InnerAtom>, d: Direction, amt: nat, vScore: bool)
    returns (out: seq<A.InnerAtom>)
    ensures out == Interior(inner, atoms, d, amt, vScore)
  {
    var bounds := TileBounds(inner, atoms);
    out := [];
    var i := 0;
    while i < amt
      invariant 0 <= i <= amt
      invariant out == Copies(atoms, bounds, d, amt, vScore, false, i)
      decreases amt - i
    {
      out := PushMoved(atoms, CopyOffset(Offset(d, bounds), i), out);
      if vScore && i < amt - 1 {
        out := out + [ScoreAsWritten(d, bounds, i)];
      }
      i := i + 1;
    }
  }

  /** The inner loop of `Tile::interior`: a moved clone of every atom pushed after `out`, in order. */
  method PushMoved(atoms: seq<A.InnerAtom>, v: Point, out: seq<A.InnerAtom>) returns (out': seq<A.InnerAtom>)
    ensures out' == out + A.TranslateAll(atoms, v)
  {
    out' := out;
    var j := 0;
    while j < |atoms|
      invariant 0 <= j <= |atoms|
      invariant out' == out + A.TranslateAll(atoms, v)[..j]
      decreases |atoms| - j
    {
      out' := out' + [A.Translate(atoms[j], v)];
      j := j + 1;
    }
    assert A.TranslateAll(atoms, v)[..j] == A.TranslateAll(atoms, v);
  }

  // Counting and placement.

  /** The number of score lines among the first `n` copies. */
  function ScoresBefore(vScore: bool, amt: nat, n: nat): nat
  {
    if !vScore || n == 0 || amt == 0 then 0 else if n < amt then n else amt - 1
  }

  /** The number of atoms: every copy's atoms, plus one score line between each pair of neighbours. */
  lemma {:induction false} CopiesCount(atoms: seq<A.InnerAtom>, b: Rect, d: Direction, amt: nat, vScore: bool, corrected: bool, n: nat)
    requires n <= amt
    ensures |Copies(atoms, b, d, amt, vScore, corrected, n)| == n * |atoms| + ScoresBefore(vScore, amt, n)
  {
    if n > 0 {
      CopiesCount(atoms, b, d, amt, vScore, corrected, n - 1);
      assert |CopyAtoms(atoms, b, d, amt, vScore, corrected, n - 1)| == |atoms| + (if Scored(vScore, amt, n - 1) then 1 else 0);
      assert n * |atoms| == (n - 1) * |atoms| + |atoms|;
    }
  }

  /** `Tile::interior` has `amt·|atoms|` atoms plus `amt − 1` score lines when scoring. */
  lemma InteriorCount(inner: Option<MultiPolygon>, atoms: seq<A.InnerAtom>, d: Direction, amt: nat, vScore: bool)
    ensures |Interior(inner, atoms, d, amt, vScore)| == amt * |atoms| + (if vScore && amt > 0 then amt - 1 else 0)
  {
    CopiesCount(atoms, TileBounds(inner, atoms), d, amt, vScore, false, amt);
    assert ScoresBefore(vScore, amt, amt) == (if vScore && amt > 0 then amt - 1 else 0);
  }

  /** The stride between the starts of copies: the inner atoms, and a score line when scoring. */
  function Stride(atoms: seq<A.InnerAtom>, vScore: bool): nat { |atoms| + if vScore then 1 else 0 }

  lemma {:induction false} CopiesPrefix(atoms: seq<A.InnerAtom>, b: Rect, d: Direction, amt: nat, vScore: bool, corrected: bool, m: nat, n: nat)
    requires m <= n <= amt
    ensures Copies(atoms, b, d, amt, vScore, corrected, m) <= Copies(atoms, b, d, amt, vScore, corrected, n)
    decreases n
  {
    if m < n {
      CopiesPrefix(atoms, b, d, amt, vScore, corrected, m, n - 1);
    }
  }

  /**
   * Copy `i` starts after `i` full strides: its atoms are the inner atoms
   * moved by `i` steps, followed, except after the last copy, by the score
   * line between it and the next one.
   */
  lemma CopyAt(inner: Option<MultiPolygon>, atoms: seq<A.InnerAtom>, d: Direction, amt: nat, vScore: bool, i: nat)
    requires i < amt
    ensures var out := Interior(inner, atoms, d, amt, vScore);
      var b := TileBounds(inner, atoms);
      var start := i * Stride(atoms, vScore);
      && start + |CopyAtoms(atoms, b, d, amt, vScore, false, i)| <= |out|
      && out[start..start + |CopyAtoms(atoms, b, d, amt, vScore, false, i)|] == CopyAtoms(atoms, b, d, amt, vScore, false, i)
  {
    CopiesAt(atoms, TileBounds(inner, atoms), d, amt, vScore, false, i);
  }

  lemma CopiesAt(atoms: seq<A.InnerAtom>, b: Rect, d: Direction, amt: nat, vScore: bool, corrected: bool, i: nat)
    requires i < amt
    ensures var out := Copies(atoms, b, d, amt, vScore, corrected, amt);
      var start := i * Stride(atoms, vScore);
      && start + |CopyAtoms(atoms, b, d, amt, vScore, corrected, i)| <= |out|
      && out[start..start + |CopyAtoms(atoms, b, d, amt, vScore, corrected, i)|] == CopyAtoms(atoms, b, d, amt, vScore, corrected, i)
  {
    var before := Copies(atoms, b, d, amt, vScore, corrected, i);
    var here := CopyAtoms(atoms, b, d, amt, vScore, corrected, i);
    CopiesStart(atoms, b, d, amt, vScore, corrected, i);
    CopiesPrefix(atoms, b, d, amt, vScore, corrected, i + 1, amt);
    assert Copies(atoms, b, d, amt, vScore, corrected, i + 1) == before + here;
    PrefixSlice(Copies(atoms, b, d, amt, vScore, corrected, amt), before, here, i * Stride(atoms, vScore));
  }

  /** Copy `i` starts `i` strides in. */
  lemma CopiesStart(atoms: seq<A.InnerAtom>, b: Rect, d: Direction, amt: nat, vScore: bool, corrected: bool, i: nat)
    requires i < amt
    ensures |Copies(atoms, b, d, amt, vScore, corrected, i)| == i * Stride(atoms, vScore)
  {
    CopiesCount(atoms, b, d, amt, vScore, corrected, i);
    StrideStart(|atoms|, vScore, amt, i);
  }

  /** A sequence that begins with `before + here` holds `here` right after `before`. */
  lemma PrefixSlice(out: seq<A.InnerAtom>, before: seq<A.InnerAtom>, here: seq<A.InnerAtom>, start: nat)
    requires before + here <= out && start == |before|
    ensures start + |here| <= |out| && out[start..start + |here|] == here
  {
    assert (before + here)[start..start + |here|] == here;
  }

  lemma StrideStart(n: nat, vScore: bool, amt: nat, i: nat)
    requires i < amt
    ensures i * n + ScoresBefore(vScore, amt, i) == i * (n + if vScore then 1 else 0)
  {
    if vScore {
      assert i * (n + 1) == i * n + i;
    }
  }

  /** Each atom of copy `i` is the matching inner atom moved `i` steps of the tile box along the direction. */
  lemma CopyAtomAt(inner: Option<MultiPolygon>, atoms: seq<A.InnerAtom>, d: Direction, amt: nat, vScore: bool, i: nat, j: nat)
    requires i < amt && j < |atoms|
    ensures var out := Interior(inner, atoms, d, amt, vScore);
      i * Stride(atoms, vScore) + j < |out|
      && out[i * Stride(atoms, vScore) + j] == A.Translate(atoms[j], CopyOffset(Offset(d, TileBounds(inner, atoms)), i))
  {
    CopyAt(inner, atoms, d, amt, vScore, i);
  }

  /**
   * A score line sits on the edge copy `i` shares with copy `i + 1`: a
   * vertical line at the x where one box ends and the next begins for
   * Left and Right, a horizontal one for Up and Down.
   */
  lemma ScoreOnSharedEdge(d: Direction, b: Rect, i: nat)
    ensures var here := TranslateRect(b, CopyOffset(Offset(d, b), i));
      var next := TranslateRect(b, CopyOffset(Offset(d, b), i + 1));
      match d
      case Right => Score(d, b, i) == A.VScoreV(here.max.x) && here.max.x == next.min.x
      case Left => Score(d, b, i) == A.VScoreV(here.min.x) && here.min.x == next.max.x
      case Down => Score(d, b, i) == A.VScoreH(here.max.y) && here.max.y == next.min.y
      case Up => Score(d, b, i) == A.VScoreH(here.min.y) && here.min.y == next.max.y
  {
  }

  /** After copy `i`, for every copy but the last, `Tile::interior` holds the score line as the source writes it. */
  lemma ScoreAt(inner: Option<MultiPolygon>, atoms: seq<A.InnerAtom>, d: Direction, amt: nat, vScore: bool, i: nat)
    requires vScore && i + 1 < amt
    ensures var out := Interior(inner, atoms, d, amt, vScore);
      i * Stride(atoms, vScore) + |atoms| < |out|
      && out[i * Stride(atoms, vScore) + |atoms|] == ScoreAsWritten(d, TileBounds(inner, atoms), i)
  {
    CopyAt(inner, atoms, d, amt, vScore, i);
  }

  /** In the corrected interior the line after copy `i` is the one on the edge copy `i` shares with copy `i + 1`. */
  lemma CorrectedScoreAt(inner: Option<MultiPolygon>, atoms: seq<A.InnerAtom>, d: Direction, amt: nat, vScore: bool, i: nat)
    requires vScore && i + 1 < amt
    ensures var out := CorrectedInterior(inner, atoms, d, amt, vScore);
      i * Stride(atoms, vScore) + |atoms| < |out|
      && out[i * Stride(atoms, vScore) + |atoms|] == Score(d, TileBounds(inner, atoms), i)
  {
    CopiesAt(atoms, TileBounds(inner, atoms), d, amt, vScore, true, i);
  }

  /**
   * The source's score line misses the shared edge: two 2×2 squares
   * centred on the origin tiled to the left share the edge x = −1, but the
   * score is written at x = 1, the far edge of the first square.
   */
  lemma ScoreAsWrittenMissesEdge()
    ensures ScoreAsWritten(Left, Rect(Point(-1.0, -1.0), Point(1.0, 1.0)), 0) == A.VScoreV(1.0)
  {
  }

  /** The corrected score line of that tiling is the shared edge. */
  lemma ScoreOnEdgeOfExample()
    ensures Score(Left, Rect(Point(-1.0, -1.0), Point(1.0, 1.0)), 0) == A.VScoreV(-1.0)
  {
  }

  /** The two squares of that tiling meet at x = −1. */
  lemma SharedEdgeOfExample()
    ensures Offset(Left, Rect(Point(-1.0, -1.0), Point(1.0, 1.0))) == Point(-2.0, 0.0)
    ensures TranslateRect(Rect(Point(-1.0, -1.0), Point(1.0, 1.0)), CopyOffset(Point(-2.0, 0.0), 1)).max.x == -1.0
  {
  }

  /** Away from the origin the source's score line does not follow the tile either: it lands mid-copy. */
  lemma ScoreAsWrittenIgnoresPosition()
    ensures ScoreAsWritten(Right, Rect(Point(0.0, 0.0), Point(2.0, 2.0)), 0) == A.VScoreV(1.0)
  {
  }

  /** The corrected score line of that tiling is at x = 2, where the copies meet. */
  lemma ScoreFollowsPosition()
    ensures Score(Right, Rect(Point(0.0, 0.0), Point(2.0, 2.0)), 0) == A.VScoreV(2.0)
  {
  }

  // Outlines.

  /** With no repetitions the tiled outline is the inner outline; it is absent exactly when that is. */
  lemma OutlineBasics(k: Kernel, inner: Option<MultiPolygon>, d: Direction, amt: nat)
    ensures Outline(k, inner, d, 0) == inner
    ensures Outline(k, inner, d, amt).None? <==> inner.None?
  {
  }

  lemma {:induction false} RepeatMotion(k: Kernel, g: MultiPolygon, step: Point, n: nat, v: Point)
    requires MotionLaws(k)
    ensures Repeat(k, TranslateMulti(g, v), step, n) == TranslateMulti(Repeat(k, g, step, n), v)
  {
    if n > 0 {
      RepeatMotion(k, g, step, n - 1, v);
      var o := CopyOffset(step, n - 1);
      TranslateMultiTwice(g, v, o);
      TranslateMultiTwice(g, o, v);
      assert Add(v, o) == Add(o, v);
    }
  }

  /** Moving the inner outline moves the tiled outline; the step only depends on the box's size. */
  lemma OutlineMotion(k: Kernel, inner: Option<MultiPolygon>, d: Direction, amt: nat, v: Point)
    requires MotionLaws(k)
    requires inner.Some? ==> Bounds(inner.value).Some?
    ensures Outline(k, TranslateOutline(inner, v), d, amt) == TranslateOutline(Outline(k, inner, d, amt), v)
  {
    if inner.Some? {
      BoundsOrTranslate(inner.value, v);
      RepeatMotion(k, inner.value, Offset(d, BoundsOr(inner.value)), amt, v);
    }
  }

  lemma SubtractMotion(k: Kernel, innerUnion: Option<MultiPolygon>, innerSub: Option<MultiPolygon>, d: Direction, amt: nat, v: Point)
    requires MotionLaws(k)
    requires innerUnion.Some? ==> Bounds(innerUnion.value).Some?
    requires innerSub.Some? ==> Bounds(innerSub.value).Some?
    ensures Subtract(k, TranslateOutline(innerUnion, v), TranslateOutline(innerSub, v), d, amt)
         == TranslateOutline(Subtract(k, innerUnion, innerSub, d, amt), v)
  {
    if innerSub.Some? {
      var s := innerSub.value;
      BoundsOrTranslate(s, v);
      if innerUnion.Some? {
        BoundsOrTranslate(innerUnion.value, v);
      }
      var bounds := match innerUnion case Some(e) => BoundsOr(e) case None => BoundsOr(s);
      RepeatMotion(k, s, Offset(d, bounds), amt, v);
    }
  }

  /** The repeats of a box with a bounding box keep one. */
  lemma {:induction false} RepeatSolid(k: Kernel, g: MultiPolygon, step: Point, n: nat)
    requires BoundsLaws(k) && Bounds(g).Some?
    ensures Bounds(Repeat(k, g, step, n)).Some?
  {
    if n > 0 {
      RepeatSolid(k, g, step, n - 1);
    }
  }

  /** Stepping whole boxes along the direction: the running extremes are the first and the latest copy. */
  lemma JoinStep(b: Rect, step: Point, n: nat)
    requires Normal(b) && n >= 1
    ensures Join(Join(b, TranslateRect(b, CopyOffset(step, n - 1))), TranslateRect(b, CopyOffset(step, n)))
         == Join(b, TranslateRect(b, CopyOffset(step, n)))
  {
    var s := n as real;
    assert (s - 1.0) * step.x == s * step.x - step.x;
    assert (s - 1.0) * step.y == s * step.y - step.y;
    if step.x >= 0.0 {
      assert 0.0 <= (s - 1.0) * step.x <= s * step.x;
    } else {
      assert s * step.x <= (s - 1.0) * step.x <= 0.0;
    }
    if step.y >= 0.0 {
      assert 0.0 <= (s - 1.0) * step.y <= s * step.y;
    } else {
      assert s * step.y <= (s - 1.0) * step.y <= 0.0;
    }
  }

  /** One more copy joins the box so far with the box of the copy. */
  lemma RepeatStepBounds(k: Kernel, g: MultiPolygon, step: Point, n: nat)
    requires UnionBoundsLaw(k) && n >= 1
    ensures Bounds(Repeat(k, g, step, n))
         == JoinOpt(Bounds(Repeat(k, g, step, n - 1)), Bounds(TranslateMulti(g, CopyOffset(step, n - 1))))
  {
    var prev, moved := Repeat(k, g, step, n - 1), TranslateMulti(g, CopyOffset(step, n - 1));
    assert Repeat(k, g, step, n) == k.union(prev, moved);
  }

  /** A single copy keeps the box of the original. */
  lemma RepeatOnceBounds(k: Kernel, g: MultiPolygon, step: Point)
    requires UnionBoundsLaw(k) && Bounds(g).Some?
    ensures Bounds(Repeat(k, g, step, 1)) == Some(Join(Bounds(g).value, TranslateRect(Bounds(g).value, CopyOffset(step, 0))))
  {
    var b := Bounds(g).value;
    BoundsNormal(g);
    BoundsTranslate(g, CopyOffset(step, 0));
    RepeatStepBounds(k, g, step, 1);
    assert Repeat(k, g, step, 0) == g;
    assert CopyOffset(step, 0) == Origin;
    assert TranslateRect(b, Origin) == b;
    assert Join(b, b) == b;
  }

  /** Joining the box of the first `n` copies with the box of copy `n`. */
  lemma JoinLast(sofar: Option<Rect>, moved: Option<Rect>, b: Rect, step: Point, n: nat)
    requires Normal(b) && n >= 1
    requires sofar == Some(Join(b, TranslateRect(b, CopyOffset(step, n - 1))))
    requires moved == Some(TranslateRect(b, CopyOffset(step, n)))
    ensures JoinOpt(sofar, moved) == Some(Join(b, TranslateRect(b, CopyOffset(step, n))))
  {
    JoinStep(b, step, n);
  }

  /** The box of `n ≥ 1` copies spans from the first copy to the last. */
  lemma {:induction false} RepeatBounds(k: Kernel, g: MultiPolygon, step: Point, n: nat)
    requires UnionBoundsLaw(k) && Bounds(g).Some? && n >= 1
    ensures Bounds(Repeat(k, g, step, n)) == Some(Join(Bounds(g).value, TranslateRect(Bounds(g).value, CopyOffset(step, n - 1))))
  {
    var b := Bounds(g).value;
    if n == 1 {
      RepeatOnceBounds(k, g, step);
    } else {
      BoundsNormal(g);
      BoundsTranslate(g, CopyOffset(step, n - 1));
      RepeatStepBounds(k, g, step, n);
      RepeatBounds(k, g, step, n - 1);
      JoinLast(Bounds(Repeat(k, g, step, n - 1)), Bounds(TranslateMulti(g, CopyOffset(step, n - 1))), b, step, n - 1);
    }
  }

  /**
   * Tiling `amt ≥ 1` copies to the left or right gives a box `amt` times
   * as wide as the inner box and just as high; up or down, `amt` times as
   * high and just as wide.
   */
  lemma OutlineExtent(k: Kernel, inner: MultiPolygon, d: Direction, amt: nat)
    requires BoundsLaws(k) && Bounds(inner).Some? && amt >= 1
    ensures var t := Bounds(Outline(k, Some(inner), d, amt).value);
      t.Some? && Extent(t.value, Bounds(inner).value, d, amt)
  {
    var b := Bounds(inner).value;
    assert BoundsOr(inner) == b;
    assert Outline(k, Some(inner), d, amt).value == Repeat(k, inner, Offset(d, b), amt);
    BoundsNormal(inner);
    RepeatBounds(k, inner, Offset(d, b), amt);
    JoinExtent(b, d, amt);
  }

  /** `t` is `n` boxes `b` laid side by side along `d`. */
  predicate Extent(t: Rect, b: Rect, d: Direction, n: nat)
  {
    && (d.Left? || d.Right? ==> Width(t) == (n as real) * Width(b) && Height(t) == Height(b))
    && (d.Up? || d.Down? ==> Height(t) == (n as real) * Height(b) && Width(t) == Width(b))
  }

  /** The box spanning a box and its copy `n − 1` along `d`. */
  lemma JoinExtent(b: Rect, d: Direction, n: nat)
    requires Normal(b) && n >= 1
    ensures Extent(Join(b, TranslateRect(b, CopyOffset(Offset(d, b), n - 1))), b, d, n)
  {
    var s := (n - 1) as real;
    assert n as real == s + 1.0;
    assert s * Width(b) >= 0.0 && s * (-Width(b)) == -(s * Width(b)) && (s + 1.0) * Width(b) == s * Width(b) + Width(b);
    assert s * Height(b) >= 0.0 && s * (-Height(b)) == -(s * Height(b)) && (s + 1.0) * Height(b) == s * Height(b) + Height(b);
  }

  // Interior and translation.

  lemma ScoreMotion(d: Direction, b: Rect, i: nat, v: Point)
    ensures Score(d, TranslateRect(b, v), i) == A.Translate(Score(d, b, i), v)
  {
  }

  /** The source's score line depends only on the size of the box, so moving the box leaves it where it was. */
  lemma ScoreAsWrittenFixed(d: Direction, b: Rect, i: nat, v: Point)
    ensures ScoreAsWritten(d, TranslateRect(b, v), i) == ScoreAsWritten(d, b, i)
  {
    assert Offset(d, TranslateRect(b, v)) == Offset(d, b);
  }

  /**
   * Moving the atoms and the box moves every copy and every score line,
   * provided the score lines are the corrected ones or there are none.
   */
  lemma {:induction false} CopiesMotion(atoms: seq<A.InnerAtom>, b: Rect, d: Direction, amt: nat, vScore: bool, corrected: bool, n: nat, v: Point)
    requires corrected || !HasScores(vScore, amt)
    ensures Copies(A.TranslateAll(atoms, v), TranslateRect(b, v), d, amt, vScore, corrected, n)
         == A.TranslateAll(Copies(atoms, b, d, amt, vScore, corrected, n), v)
  {
    if n > 0 {
      CopiesMotion(atoms, b, d, amt, vScore, corrected, n - 1, v);
      CopyAtomsMotion(atoms, b, d, amt, vScore, corrected, n - 1, v);
      A.TranslateAllAppend(Copies(atoms, b, d, amt, vScore, corrected, n - 1), CopyAtoms(atoms, b, d, amt, vScore, corrected, n - 1), v);
    }
  }

  /** Moving the atoms and the box moves copy `i` by the same amount, unless it carries an uncorrected score line. */
  lemma CopyAtomsMotion(atoms: seq<A.InnerAtom>, b: Rect, d: Direction, amt: nat, vScore: bool, corrected: bool, i: nat, v: Point)
    requires corrected || !Scored(vScore, amt, i)
    ensures CopyAtoms(A.TranslateAll(atoms, v), TranslateRect(b, v), d, amt, vScore, corrected, i)
         == A.TranslateAll(CopyAtoms(atoms, b, d, amt, vScore, corrected, i), v)
  {
    var o := CopyOffset(Offset(d, b), i);
    assert Offset(d, TranslateRect(b, v)) == Offset(d, b);
    A.TranslateAllTwice(atoms, v, o);
    A.TranslateAllTwice(atoms, o, v);
    assert Add(v, o) == Add(o, v);
    ScoreMotion(d, b, i, v);
    var tail := if Scored(vScore, amt, i) then [ScoreLine(corrected, d, b, i)] else [];
    A.TranslateAllAppend(A.TranslateAll(atoms, o), tail, v);
  }

  /** The tile's stepping box exists: from the inner outline, or else from the inner atoms. */
  predicate Stepped(inner: Option<MultiPolygon>, atoms: seq<A.InnerAtom>)
  {
    match inner
    case Some(g) => Bounds(g).Some?
    case None => A.AllBounds(atoms).Some?
  }

  /** Moving the inner feature moves the box the tile steps by. */
  lemma TileBoundsMotion(inner: Option<MultiPolygon>, atoms: seq<A.InnerAtom>, v: Point)
    requires Stepped(inner, atoms)
    ensures TileBounds(TranslateOutline(inner, v), A.TranslateAll(atoms, v)) == TranslateRect(TileBounds(inner, atoms), v)
  {
    A.AllBoundsTranslate(atoms, v);
    if inner.Some? {
      BoundsOrTranslate(inner.value, v);
    }
  }

  /** Moving the inner feature (outline and atoms) of a tile without score lines moves every atom of the tile. */
  lemma InteriorMotion(inner: Option<MultiPolygon>, atoms: seq<A.InnerAtom>, d: Direction, amt: nat, vScore: bool, v: Point)
    requires Stepped(inner, atoms) && !HasScores(vScore, amt)
    ensures Interior(TranslateOutline(inner, v), A.TranslateAll(atoms, v), d, amt, vScore)
         == A.TranslateAll(Interior(inner, atoms, d, amt, vScore), v)
  {
    TileBoundsMotion(inner, atoms, v);
    CopiesMotion(atoms, TileBounds(inner, atoms), d, amt, vScore, false, amt, v);
  }

  /** With the corrected score lines, moving the inner feature moves every atom of the tile, score lines included. */
  lemma CorrectedInteriorMotion(inner: Option<MultiPolygon>, atoms: seq<A.InnerAtom>, d: Direction, amt: nat, vScore: bool, v: Point)
    requires Stepped(inner, atoms)
    ensures CorrectedInterior(TranslateOutline(inner, v), A.TranslateAll(atoms, v), d, amt, vScore)
         == A.TranslateAll(CorrectedInterior(inner, atoms, d, amt, vScore), v)
  {
    TileBoundsMotion(inner, atoms, v);
    CopiesMotion(atoms, TileBounds(inner, atoms), d, amt, vScore, true, amt, v);
  }

  /**
   * How a scored tile's interior moves as the source writes it: moving the
   * inner feature moves atom `j` of every copy by the same vector ...
   */
  lemma MovedCopyAtomAt(inner: Option<MultiPolygon>, atoms: seq<A.InnerAtom>, d: Direction, amt: nat, vScore: bool, v: Point, i: nat, j: nat)
    requires Stepped(inner, atoms) && i < amt && j < |atoms|
    ensures var out := Interior(inner, atoms, d, amt, vScore);
      var out' := Interior(TranslateOutline(inner, v), A.TranslateAll(atoms, v), d, amt, vScore);
      var p := i * Stride(atoms, vScore) + j;
      p < |out| && p < |out'| && out'[p] == A.Translate(out[p], v)
  {
    var moved := A.TranslateAll(atoms, v);
    var b := TileBounds(inner, atoms);
    TileBoundsMotion(inner, atoms, v);
    assert Offset(d, TranslateRect(b, v)) == Offset(d, b);
    CopyAtomAt(inner, atoms, d, amt, vScore, i, j);
    CopyAtomAt(TranslateOutline(inner, v), moved, d, amt, vScore, i, j);
    var o := CopyOffset(Offset(d, b), i);
    A.TranslateTwice(atoms[j], v, o);
    A.TranslateTwice(atoms[j], o, v);
    assert Add(v, o) == Add(o, v);
  }

  /** ... while every score line stays exactly where it was. */
  lemma MovedScoreStaysPut(inner: Option<MultiPolygon>, atoms: seq<A.InnerAtom>, d: Direction, amt: nat, vScore: bool, v: Point, i: nat)
    requires Stepped(inner, atoms) && vScore && i + 1 < amt
    ensures var out := Interior(inner, atoms, d, amt, vScore);
      var out' := Interior(TranslateOutline(inner, v), A.TranslateAll(atoms, v), d, amt, vScore);
      var p := i * Stride(atoms, vScore) + |atoms|;
      p < |out| && p < |out'| && out'[p] == out[p]
  {
    var b := TileBounds(inner, atoms);
    TileBoundsMotion(inner, atoms, v);
    ScoreAt(inner, atoms, d, amt, vScore, i);
    ScoreAt(TranslateOutline(inner, v), A.TranslateAll(atoms, v), d, amt, vScore, i);
    ScoreAsWrittenFixed(d, b, i, v);
  }

  /** The source's score line stays put when the tile moves sideways, so its interior does not follow the tile. */
  lemma ScoreAsWrittenStaysPut()
    ensures var b := Rect(Point(-1.0, -1.0), Point(1.0, 1.0));
      var v := Point(4.0, 0.0);
      ScoreAsWritten(Right, TranslateRect(b, v), 0) != A.Translate(ScoreAsWritten(Right, b, 0), v)
  {
  }
}
