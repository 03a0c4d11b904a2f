/**
 * What the grammar of parser.rs promises beyond termination: how the
 * fragments of a detail block combine, which shape errors are fatal for the
 * whole spec, and what the inner-feature forms denote.
 */
module ParserFacts {
  import opened Wrappers
  import opened Common
  import opened Parser

  // The detail fold, against a reference that reads the fragments from the end.

  function CoordOf(f: Fragment): Option<(real, real)> { if f.Coord? then Some((f.x, f.y)) else None }

  function SizeOf(f: Fragment): Option<(real, real)> { if f.Size? then Some((f.w, f.h)) else None }

  function RadiusOf(f: Fragment): Option<real> { if f.Radius? then Some(f.radius) else None }

  function RoundingOf(f: Fragment): Option<real> { if f.Rounding? then Some(f.rounding) else None }

  /** The value `pick` finds in the last fragment that has one, or `dflt` when none has. */
  function Last<T>(frs: seq<Fragment>, pick: Fragment -> Option<T>, dflt: Option<T>): Option<T>
    decreases |frs|
  {
    if |frs| == 0 then dflt
    else if pick(frs[|frs| - 1]).Some? then pick(frs[|frs| - 1])
    else Last(frs[..|frs| - 1], pick, dflt)
  }

  function ExtraOf(f: Fragment): seq<real> { if f.Extra? then [f.n] else [] }

  /** The bare numbers among the fragments, in order. */
  function Extras(frs: seq<Fragment>): seq<real>
    decreases |frs|
  {
    if |frs| == 0 then [] else ExtraOf(frs[0]) + Extras(frs[1..])
  }

  lemma {:induction false} AbsorbAllSnoc(d: Details, frs: seq<Fragment>, f: Fragment)
    ensures AbsorbAll(d, frs + [f]) == Absorb(AbsorbAll(d, frs), f)
    decreases |frs|
  {
    if |frs| == 0 {
      assert AbsorbAll(d, [f]) == AbsorbAll(Absorb(d, f), []);
    } else {
      assert (frs + [f])[1..] == frs[1..] + [f];
      AbsorbAllSnoc(Absorb(d, frs[0]), frs[1..], f);
    }
  }

  lemma {:induction false} ExtrasSnoc(frs: seq<Fragment>, f: Fragment)
    ensures Extras(frs + [f]) == Extras(frs) + ExtraOf(f)
    decreases |frs|
  {
    if |frs| == 0 {
      assert Extras([f]) == ExtraOf(f) + Extras([]);
    } else {
      var g := frs + [f];
      assert g[0] == frs[0] && g[1..] == frs[1..] + [f];
      ExtrasSnoc(frs[1..], f);
      var a, b, c := ExtraOf(frs[0]), Extras(frs[1..]), ExtraOf(f);
      assert Extras(g) == a + (b + c);
      assert a + (b + c) == (a + b) + c;
    }
  }

  /**
   * Folding fragments into details: the position, size, radius and rounding
   * are those of the last fragment naming them (earlier ones are
   * overwritten), the bare numbers are appended in order, and the inner
   * feature is never touched.
   */
  lemma {:induction false} FoldFields(d: Details, frs: seq<Fragment>)
    ensures var e := AbsorbAll(d, frs);
      && e.coords == Last(frs, CoordOf, d.coords)
      && e.size == Last(frs, SizeOf, d.size)
      && e.radius == Last(frs, RadiusOf, d.radius)
      && e.rounded == Last(frs, RoundingOf, d.rounded)
      && e.extra == d.extra + Extras(frs)
      && e.inner == d.inner
    decreases |frs|
  {
    if |frs| > 0 {
      var p, f := frs[..|frs| - 1], frs[|frs| - 1];
      assert frs == p + [f];
      AbsorbAllSnoc(d, p, f);
      ExtrasSnoc(p, f);
      FoldFields(d, p);
      AbsorbFields(AbsorbAll(d, p), f);
      var e := AbsorbAll(d, frs);
      assert e.extra == d.extra + Extras(p) + ExtraOf(f) by {
        assert e.extra == AbsorbAll(d, p).extra + ExtraOf(f);
      }
    }
  }

  /** What one fragment does to each field. */
  lemma AbsorbFields(e: Details, f: Fragment)
    ensures var a := Absorb(e, f);
      && a.coords == (if CoordOf(f).Some? then CoordOf(f) else e.coords)
      && a.size == (if SizeOf(f).Some? then SizeOf(f) else e.size)
      && a.radius == (if RadiusOf(f).Some? then RadiusOf(f) else e.radius)
      && a.rounded == (if RoundingOf(f).Some? then RoundingOf(f) else e.rounded)
      && a.extra == e.extra + ExtraOf(f)
      && a.inner == e.inner
  {
  }

  /**
   * The size a rectangle or solder point gets from a detail block: its last
   * `size =`, else its two bare numbers, else its one bare number twice.
   */
  lemma DetailSize(frs: seq<Fragment>)
    ensures var size := SizeRule(AbsorbAll(NoDetails, frs)); var xs := Extras(frs);
      size == if Last(frs, SizeOf, None).Some? then Last(frs, SizeOf, None)
              else if |xs| == 2 then Some((xs[0], xs[1]))
              else if |xs| == 1 then Some((xs[0], xs[0]))
              else None
  {
    FoldFields(NoDetails, frs);
  }

  /** The radius a circle gets from a detail block: its last `r =`, else its one bare number. */
  lemma DetailRadius(frs: seq<Fragment>)
    ensures var radius := RadiusRule(AbsorbAll(NoDetails, frs)); var xs := Extras(frs);
      radius == if Last(frs, RadiusOf, None).Some? then Last(frs, RadiusOf, None)
                else if |xs| == 1 then Some(xs[0])
                else None
  {
    FoldFields(NoDetails, frs);
  }

  // Fatal shape errors.

  lemma WsIdempotent(i: string)
    ensures Ws(Ws(i)) == Ws(i)
  {
    var j := Ws(i);
    if |j| > 0 {
      assert TakeWhile(IsSpace, j) == ([], j);
    }
  }

  lemma WsNoSpace(i: string)
    requires |i| > 0 && !IsSpace(i[0])
    ensures Ws(i) == i
  {
    assert TakeWhile(IsSpace, i) == ([], i);
  }

  /** No item beginning with the letter `c` is an assignment, an array or a rectangle. */
  lemma NotEarlierItems(num: Numbers, i: string, c: char)
    requires var j := Ws(i); |j| > 0 && LowerChar(j[0]) == c && c != 'l' && c != 'r' && c != '['
    ensures AssignP(num, i).Error? && ArrayP(num, i).Error? && RectP(num, i).Error?
  {
    var j := Ws(i);
    WsIdempotent(i);
    assert Tag("let", j).Error? by { assert j[0] != 'l'; }
    assert Tag("[", j).Error? by { assert j[0] != '['; }
    assert TagNoCase("R", j).Error?;
  }

  /**
   * Once the items tried before it fail recoverably, a fatal failure of a
   * circle, a triangle or a mount cut is fatal for the item and rejects the
   * whole spec.
   */
  lemma GeoFatal(num: Numbers, i: string)
    requires AssignP(num, i).Error? && ArrayP(num, i).Error? && RectP(num, i).Error?
    requires CircleP(num, i).Failure? || (CircleP(num, i).Error? && (TriangleP(num, i).Failure? || (TriangleP(num, i).Error? && RMountP(num, i).Failure?)))
    ensures GeoP(num, i).Failure? && Spec(num, i).Failure?
  {
  }

  /**
   * A circle whose detail block has neither a radius nor exactly one bare
   * number is a fatal error, and the whole spec is rejected; so is a circle
   * whose detail block fails fatally.
   */
  lemma CircleNeedsRadius(num: Numbers, i: string)
    requires var j := Ws(i); |j| > 0 && LowerChar(j[0]) == 'c'
    requires var m := DetailsP(num, Ws(i)[1..]); m.Failure? || (m.Done? && RadiusRule(m.value).None?)
    ensures GeoP(num, i) == Failure && Spec(num, i).Failure?
  {
    NotEarlierItems(num, i, 'c');
    CircleFails(num, i);
    GeoFatal(num, i);
  }

  lemma CircleFails(num: Numbers, i: string)
    requires var j := Ws(i); |j| > 0 && LowerChar(j[0]) == 'c'
    requires var m := DetailsP(num, Ws(i)[1..]); m.Failure? || (m.Done? && RadiusRule(m.value).None?)
    ensures CircleP(num, i) == Failure
  {
    LetterTag('C', Ws(i));
  }

  /**
   * After the `T` of a triangle, the detail block is required and must give
   * a size: without one the whole spec is rejected.
   */
  lemma TriangleNeedsSize(num: Numbers, i: string)
    requires var j := Ws(i); |j| > 0 && LowerChar(j[0]) == 't'
    requires var m := DetailsP(num, Ws(i)[1..]); !m.Done? || SizeRule(m.value).None?
    ensures GeoP(num, i) == Failure && Spec(num, i).Failure?
  {
    NotEarlierItems(num, i, 't');
    TriangleFails(num, i);
    GeoFatal(num, i);
  }

  lemma TriangleFails(num: Numbers, i: string)
    requires var j := Ws(i); |j| > 0 && LowerChar(j[0]) == 't'
    requires var m := DetailsP(num, Ws(i)[1..]); !m.Done? || SizeRule(m.value).None?
    ensures CircleP(num, i).Error? && TriangleP(num, i) == Failure
  {
    var j := Ws(i);
    LetterTag('C', j);
    LetterTag('T', j);
  }

  /**
   * A detail block needs at least one fragment, and the fragments are cut:
   * `R<>` is a fatal parse failure, and the spec holding it is rejected.
   */
  lemma EmptyRectFails(num: Numbers)
    ensures RectP(num, "R<>") == Failure && Spec(num, "R<>").Failure?
  {
    WsNoSpace("R<>");
    LetterTag('R', "R<>");
    assert "R<>"[1..] == "<>";
    WsNoSpace("<>");
    assert Tag("<", "<>") == Done(">", ());
    WsNoSpace(">");
    assert FragmentP(num, ">") == Error;
    assert Tag("let", "R<>").Error? && Tag("[", "R<>").Error?;
  }

  /** A one-letter `tag_no_case` reads the first character exactly when it is that letter up to case. */
  lemma LetterTag(c: char, j: string)
    requires |j| > 0
    ensures TagNoCase([c], j) == if LowerChar(j[0]) == LowerChar(c) then Done(j[1..], ()) else Error
  {
    if LowerChar(j[0]) == LowerChar(c) {
      assert StartsNoCase([c], j);
    }
  }

  /** A mount cut whose detail block does not hold exactly one bare number, its depth, rejects the whole spec. */
  lemma MountNeedsDepth(num: Numbers, i: string)
    requires MountKeyword(Ws(i)).Done?
    requires var m := DetailsP(num, MountKeyword(Ws(i)).rest); !m.Done? || |m.value.extra| != 1
    ensures GeoP(num, i) == Failure && Spec(num, i).Failure?
  {
    NotEarlierItems(num, i, 'm');
    MountFails(num, i);
    GeoFatal(num, i);
  }

  lemma MountFails(num: Numbers, i: string)
    requires MountKeyword(Ws(i)).Done?
    requires var m := DetailsP(num, MountKeyword(Ws(i)).rest); !m.Done? || |m.value.extra| != 1
    ensures CircleP(num, i).Error? && TriangleP(num, i).Error? && RMountP(num, i) == Failure
  {
    LetterTag('C', Ws(i));
    LetterTag('T', Ws(i));
  }

  // Inner features.

  /** The steps of `parse_inner` once the branch taken after the bracket is known. */
  lemma InnerSteps(num: Numbers, i: string, w: string, x: InnerAst, u: string)
    requires |i| >= 2 && i[0] == '(' && !IsSpace(i[1])
    requires InnerForm(num, i[1..]) == Done(w, x)
    requires Ws(w) == ")" + u
    ensures InnerP(num, i) == Done(u, x)
  {
    InnerBrackets(i, w, u);
    InnerPOf(num, i, i[1..], w, x, u);
  }

  /** The brackets around an inner feature that starts right after `(`. */
  lemma InnerBrackets(i: string, w: string, u: string)
    requires |i| >= 2 && i[0] == '(' && !IsSpace(i[1])
    requires Ws(w) == ")" + u
    ensures Tag("(", Ws(i)) == Done(i[1..], ()) && Ws(i[1..]) == i[1..] && Tag(")", Ws(w)) == Done(u, ())
  {
    WsNoSpace(i);
    WsNoSpace(i[1..]);
    TagChar('(', i);
    TagChar(')', Ws(w));
    assert (")" + u)[1..] == u;
  }

  /** A one-character tag reads that character. */
  lemma TagChar(c: char, i: string)
    requires |i| > 0 && i[0] == c
    ensures Tag([c], i) == Done(i[1..], ())
  {
  }

  /** `parse_inner` reads the bracket, the inner form and the closing bracket. */
  lemma InnerPOf(num: Numbers, i: string, j: string, w: string, x: InnerAst, u: string)
    requires Tag("(", Ws(i)) == Done(j, ())
    requires InnerForm(num, Ws(j)) == Done(w, x)
    requires Tag(")", Ws(w)) == Done(u, ())
    ensures InnerP(num, i) == Done(u, x)
  {
  }

  /** `(h)` is a screw hole of the default diameter 3.1. */
  lemma InnerDefaultHole(num: Numbers, i: string, u: string)
    requires |i| >= 2 && i[..2] == "(h" && Ws(i[2..]) == ")" + u
    ensures InnerP(num, i) == Done(u, ScrewHole(3.1))
  {
    assert i[0] == '(' && i[1] == 'h' by { assert i[0] == i[..2][0] && i[1] == i[..2][1]; }
    var t := i[2..];
    assert i[1..][1..] == t;
    assert Tag("h", i[1..]) == Done(t, ());
    assert Float(num, t).Error? by {
      assert TakeWhile(IsFloatChar, Ws(t)) == ([], Ws(t));
    }
    assert SizedHole(num, i[1..]).Error?;
    InnerSteps(num, i, t, ScrewHole(3.1), u);
  }

  /** `(h<d>)` is a screw hole of diameter `d`. */
  lemma InnerSizedHole(num: Numbers, i: string, v: string, d: real, u: string)
    requires |i| >= 2 && i[..2] == "(h" && Float(num, i[2..]) == Done(v, d) && Ws(v) == ")" + u
    ensures InnerP(num, i) == Done(u, ScrewHole(d))
  {
    assert i[0] == '(' && i[1] == 'h' by { assert i[0] == i[..2][0] && i[1] == i[..2][1]; }
    assert i[1..][1..] == i[2..];
    assert Tag("h", i[1..]) == Done(i[2..], ());
    assert SizedHole(num, i[1..]) == Done(v, ScrewHole(d));
    InnerSteps(num, i, v, ScrewHole(d), u);
  }

  /** `(smiley)` is a smiley. */
  lemma InnerSmiley(num: Numbers, i: string, u: string)
    requires |i| >= 7 && i[..7] == "(smiley" && Ws(i[7..]) == ")" + u
    ensures InnerP(num, i) == Done(u, Smiley)
  {
    assert i[0] == '(' && i[1] == 's' by { assert i[0] == i[..7][0] && i[1] == i[..7][1]; }
    var j := i[1..];
    assert Tag("h", j).Error?;
    assert SizedHole(num, j).Error?;
    assert "smiley" <= j by { assert j[..6] == i[..7][1..]; }
    assert j[6..] == i[7..];
    assert Tag("smiley", j) == Done(i[7..], ());
    InnerSteps(num, i, i[7..], Smiley, u);
  }

  /** `msp` not followed by a detail block is a solder point of the default size, and nothing more is read. */
  lemma PlainMsp(num: Numbers, i: string)
    requires |i| >= 3 && i[..3] == "msp" && !("<" <= Ws(i[3..]))
    ensures MspP(num, i) == Done(i[3..], MechanicalSolderPoint(None))
  {
    assert StartsNoCase("msp", i);
    assert TagNoCase("msp", i) == Done(i[3..], ());
    assert DetailsP(num, i[3..]).Error?;
  }

  /** `(msp)` is a solder point of the default size. */
  lemma InnerPlainMsp(num: Numbers, i: string, u: string)
    requires |i| >= 4 && i[..4] == "(msp" && Ws(i[4..]) == ")" + u
    ensures InnerP(num, i) == Done(u, MechanicalSolderPoint(None))
  {
    assert i[0] == '(' && i[1] == 'm' by { assert i[0] == i[..4][0] && i[1] == i[..4][1]; }
    var j := i[1..];
    assert Tag("h", j).Error?;
    assert SizedHole(num, j).Error?;
    assert Tag("smiley", j).Error?;
    assert j[..3] == i[..4][1..] && j[3..] == i[4..];
    PlainMsp(num, j);
    InnerSteps(num, i, i[4..], MechanicalSolderPoint(None), u);
  }
}
