/**
 * What the resolver of parser.rs guarantees: every feature it builds is
 * free of the feature algebra's panics and has an outline; lists are
 * lowered in order and the first failure wins; a tuple is a chain of its
 * items, each to the right of the ones before; definitions take effect in
 * order and a later `let` replaces an earlier one.
 */
module ResolverFacts {
  import opened Wrappers
  import opened Common
  import G = Geo
  import I = Inner
  import P = Pos
  import U = Unions
  import C = Columns
  import R = Repeating
  import F = Features
  import L = FeatureLaws
  import opened Parser
  import opened Resolver

  // Lists.

  /** `collect` lowers every item, in order, and stops at the first item that fails, with its failure. */
  lemma LowerAllSpec(k: G.Kernel, defs: map<string, Ast>, visiting: set<string>, xs: seq<Ast>)
    ensures LowerAll(k, defs, visiting, xs).Built? <==> forall i :: 0 <= i < |xs| ==> Lower(k, defs, visiting, xs[i]).Built?
    ensures LowerAll(k, defs, visiting, xs).Built? ==>
      var fs := LowerAll(k, defs, visiting, xs).value;
      |fs| == |xs| && forall i :: 0 <= i < |xs| ==> fs[i] == Lower(k, defs, visiting, xs[i]).value
    ensures !LowerAll(k, defs, visiting, xs).Built? ==>
      exists i :: 0 <= i < |xs| && (forall j :: 0 <= j < i ==> Lower(k, defs, visiting, xs[j]).Built?)
        && !Lower(k, defs, visiting, xs[i]).Built? && LowerAll(k, defs, visiting, xs) == Lower(k, defs, visiting, xs[i]).PropagateFailure()
  {
    LowerAllValues(k, defs, visiting, xs);
    LowerAllFailure(k, defs, visiting, xs);
  }

  lemma {:induction false} LowerAllValues(k: G.Kernel, defs: map<string, Ast>, visiting: set<string>, xs: seq<Ast>)
    ensures LowerAll(k, defs, visiting, xs).Built? <==> forall i :: 0 <= i < |xs| ==> Lower(k, defs, visiting, xs[i]).Built?
    ensures LowerAll(k, defs, visiting, xs).Built? ==>
      var fs := LowerAll(k, defs, visiting, xs).value;
      |fs| == |xs| && forall i :: 0 <= i < |xs| ==> fs[i] == Lower(k, defs, visiting, xs[i]).value
    decreases |xs|
  {
    if |xs| > 0 {
      LowerAllValues(k, defs, visiting, xs[1..]);
      LowerAllStep(k, defs, visiting, xs);
      assert forall i :: 1 <= i < |xs| ==> xs[1..][i - 1] == xs[i];
    }
  }

  lemma {:induction false} LowerAllFailure(k: G.Kernel, defs: map<string, Ast>, visiting: set<string>, xs: seq<Ast>)
    ensures !LowerAll(k, defs, visiting, xs).Built? ==>
      exists i :: 0 <= i < |xs| && (forall j :: 0 <= j < i ==> Lower(k, defs, visiting, xs[j]).Built?)
        && !Lower(k, defs, visiting, xs[i]).Built? && LowerAll(k, defs, visiting, xs) == Lower(k, defs, visiting, xs[i]).PropagateFailure()
    decreases |xs|
  {
    if |xs| > 0 {
      LowerAllFailure(k, defs, visiting, xs[1..]);
      LowerAllStep(k, defs, visiting, xs);
      var o := LowerAll(k, defs, visiting, xs[1..]);
      if Lower(k, defs, visiting, xs[0]).Built? && !o.Built? {
        var i :| 0 <= i < |xs[1..]| && (forall j :: 0 <= j < i ==> Lower(k, defs, visiting, xs[1..][j]).Built?)
          && !Lower(k, defs, visiting, xs[1..][i]).Built? && o == Lower(k, defs, visiting, xs[1..][i]).PropagateFailure();
        assert xs[i + 1] == xs[1..][i];
        forall j | 0 <= j < i + 1 ensures Lower(k, defs, visiting, xs[j]).Built? {
          if j > 0 {
            assert xs[j] == xs[1..][j - 1];
          }
        }
      }
    }
  }

  /** `collect` lowers the first item; its feature goes ahead of the rest, or its failure is the result. */
  lemma LowerAllStep(k: G.Kernel, defs: map<string, Ast>, visiting: set<string>, xs: seq<Ast>)
    requires |xs| > 0
    ensures var f := Lower(k, defs, visiting, xs[0]);
      LowerAll(k, defs, visiting, xs) == if f.Built? then After([f.value], LowerAll(k, defs, visiting, xs[1..])) else f.PropagateFailure()
  {
  }

  // Tuples.

  /** A tuple of features as the source links them: each item to the right of the chain before it. */
  function Chain(fs: seq<F.Feature>): F.Feature
    requires |fs| > 0
    decreases |fs|
  {
    if |fs| == 1 then fs[0]
    else F.AtPos(Chain(fs[..|fs| - 1]), [F.Element(fs[|fs| - 1], TupleLink)])
  }

  /** The items of a chain with `n` links, read back from its nesting. */
  function Spine(f: F.Feature, n: nat): seq<F.Feature>
    decreases n
  {
    if n == 0 then [f]
    else match f
      case AtPos(p, els) => if |els| == 1 then Spine(p, n - 1) + [els[0].feature] else [f]
      case _ => [f]
  }

  /** A chain loses nothing and keeps the order: its items can be read back from it. */
  lemma {:induction false} ChainSpine(fs: seq<F.Feature>)
    requires |fs| > 0
    ensures Spine(Chain(fs), |fs| - 1) == fs
    decreases |fs|
  {
    if |fs| > 1 {
      ChainSpine(fs[..|fs| - 1]);
      assert fs[..|fs| - 1] + [fs[|fs| - 1]] == fs;
    }
  }

  /** The features a tuple's loop holds after `fs`, from the accumulator `out`. */
  function LinkAll(out: Option<F.Feature>, fs: seq<F.Feature>): Option<F.Feature>
    decreases |fs|
  {
    if |fs| == 0 then out else LinkAll(Some(Link(out, fs[0])), fs[1..])
  }

  lemma {:induction false} LinkAllChain(pre: seq<F.Feature>, fs: seq<F.Feature>)
    requires |pre| > 0
    ensures LinkAll(Some(Chain(pre)), fs) == Some(Chain(pre + fs))
    decreases |fs|
  {
    if |fs| == 0 {
      assert pre + fs == pre;
    } else {
      var next := pre + [fs[0]];
      assert next[..|next| - 1] == pre;
      assert Link(Some(Chain(pre)), fs[0]) == Chain(next);
      LinkAllChain(next, fs[1..]);
      assert next + fs[1..] == pre + fs;
    }
  }

  lemma {:induction false} LowerTupleSteps(k: G.Kernel, defs: map<string, Ast>, visiting: set<string>, out: Option<F.Feature>, xs: seq<Ast>)
    ensures var o := LowerAll(k, defs, visiting, xs);
      LowerTuple(k, defs, visiting, out, xs) == if o.Built? then Built(LinkAll(out, o.value)) else o.PropagateFailure()
    decreases |xs|
  {
    if |xs| > 0 {
      var f := Lower(k, defs, visiting, xs[0]);
      if f.Built? {
        LowerTupleSteps(k, defs, visiting, Some(Link(out, f.value)), xs[1..]);
        var o := LowerAll(k, defs, visiting, xs[1..]);
        if o.Built? {
          assert ([f.value] + o.value)[1..] == o.value;
        }
      }
    }
  }

  /**
   * A tuple lowers to the chain of its lowered items, fails as the first
   * item that fails, and panics when it is empty.
   */
  lemma TupleIsChain(k: G.Kernel, defs: map<string, Ast>, visiting: set<string>, xs: seq<Ast>)
    ensures var o := LowerAll(k, defs, visiting, xs);
      Lower(k, defs, visiting, Tuple(xs)) ==
        if !o.Built? then o.PropagateFailure()
        else if |xs| == 0 then Panicked(EmptyTuple)
        else Built(Chain(o.value))
  {
    LowerTupleSteps(k, defs, visiting, None, xs);
    LowerAllSpec(k, defs, visiting, xs);
    var o := LowerAll(k, defs, visiting, xs);
    if o.Built? && |xs| > 0 {
      var fs := o.value;
      assert LinkAll(None, fs) == LinkAll(Some(Chain(fs[..1])), fs[1..]);
      LinkAllChain(fs[..1], fs[1..]);
      assert fs[..1] + fs[1..] == fs;
    }
  }

  // Wraps.

  lemma {:induction false} LowerWrapSteps(k: G.Kernel, defs: map<string, Ast>, visiting: set<string>, acc: F.Feature, els: seq<(P.Positioning, Ast)>)
    requires acc.AtPos?
    ensures var r := LowerWrap(k, defs, visiting, acc, els);
      && (r.Built? <==> forall i :: 0 <= i < |els| ==> Lower(k, defs, visiting, els[i].1).Built?)
      && (r.Built? ==>
            && r.value.AtPos? && r.value.primary == acc.primary
            && |r.value.elements| == |acc.elements| + |els|
            && r.value.elements[..|acc.elements|] == acc.elements
            && forall i :: 0 <= i < |els| ==>
                 r.value.elements[|acc.elements| + i] == F.Element(Lower(k, defs, visiting, els[i].1).value, els[i].0))
    decreases |els|
  {
    if |els| > 0 {
      var g := Lower(k, defs, visiting, els[0].1);
      assert forall i :: 1 <= i < |els| ==> els[1..][i - 1] == els[i];
      if g.Built? {
        var acc' := F.AtPosPush(acc, g.value, els[0].0);
        LowerWrapSteps(k, defs, visiting, acc', els[1..]);
        var r := LowerWrap(k, defs, visiting, acc, els);
        assert r == LowerWrap(k, defs, visiting, acc', els[1..]);
        if r.Built? {
          assert r.value.elements[..|acc'.elements|] == acc'.elements;
          assert r.value.elements[..|acc.elements|] == acc'.elements[..|acc.elements|];
          forall i | 0 <= i < |els|
            ensures r.value.elements[|acc.elements| + i] == F.Element(Lower(k, defs, visiting, els[i].1).value, els[i].0)
          {
            if i == 0 {
              assert r.value.elements[|acc.elements|] == acc'.elements[|acc.elements|];
            } else {
              assert els[i] == els[1..][i - 1];
              assert |acc.elements| + i == |acc'.elements| + (i - 1);
            }
          }
        }
      }
    }
  }

  /**
   * A wrap lowers to its lowered primary with every element, lowered, at
   * its position, in the order written; it is built exactly when the
   * primary and every element are.
   */
  lemma WrapLowering(k: G.Kernel, defs: map<string, Ast>, visiting: set<string>, primary: Ast, els: seq<(P.Positioning, Ast)>)
    ensures var r := Lower(k, defs, visiting, Wrap(primary, els));
      && (r.Built? <==> Lower(k, defs, visiting, primary).Built? && forall i :: 0 <= i < |els| ==> Lower(k, defs, visiting, els[i].1).Built?)
      && (r.Built? ==>
            && r.value.AtPos? && r.value.primary == Lower(k, defs, visiting, primary).value
            && |r.value.elements| == |els|
            && forall i :: 0 <= i < |els| ==> r.value.elements[i] == F.Element(Lower(k, defs, visiting, els[i].1).value, els[i].0))
  {
    var p := Lower(k, defs, visiting, primary);
    if p.Built? {
      LowerWrapSteps(k, defs, visiting, F.AtPosNew(p.value), els);
    }
  }

  // Shapes.

  /**
   * A rectangle without an inner feature is centred on its position (the
   * origin without one, but (−1, −1) when neither position nor size is
   * given) and is as wide and high as its size (2 by 2 by default),
   * mirrored where a size is negative.
   */
  lemma RectLowering(coords: Option<(real, real)>, size: Option<(real, real)>)
    ensures var f := LowerRect(coords, size, None);
      var wh := match size case Some(s) => s case None => (2.0, 2.0);
      && f.Rect? && f.inner == I.Unit
      && G.Center(f.rect) == (match coords case Some(c) => ToPoint(c) case None => if size.Some? then G.Origin else G.Point(-1.0, -1.0))
      && G.Width(f.rect) == (if wh.0 < 0.0 then -wh.0 else wh.0)
      && G.Height(f.rect) == (if wh.1 < 0.0 then -wh.1 else wh.1)
  {
  }

  /**
   * A rectangle whose detail block gives neither a position nor a size, such
   * as `R<1, 2, 3>` (three bare numbers give no size), is the 2 by 2 square
   * centred on (−1, −1).
   */
  lemma BareRectSquare()
    ensures LowerRect(None, None, None) == F.Rect(G.Rect(G.Point(-2.0, -2.0), G.Origin), I.Unit)
  {
  }

  // Definitions.

  /** The definitions after the items `xs` have been read. */
  function DefsAfter(defs: map<string, Ast>, xs: seq<Ast>): map<string, Ast>
    decreases |xs|
  {
    if |xs| == 0 then defs
    else DefsAfter(match xs[0] case Assign(n, v) => defs[n := v] case _ => defs, xs[1..])
  }

  /** The items that yield a feature: all but assignments and comments. */
  function FeatureItems(xs: seq<Ast>): seq<Ast>
    decreases |xs|
  {
    if |xs| == 0 then [] else (if xs[0].Assign? || xs[0].Comment? then [] else [xs[0]]) + FeatureItems(xs[1..])
  }

  /**
   * `build` over two runs of items is `build` over the first, then over
   * the second with the definitions the first made: lowering follows the
   * order of the spec, and a variable is seen only after its `let`.
   */
  lemma {:induction false} BuildFromAppend(k: G.Kernel, defs: map<string, Ast>, xs: seq<Ast>, ys: seq<Ast>)
    ensures var a := BuildFrom(k, defs, xs);
      BuildFrom(k, defs, xs + ys) == if a.Built? then After(a.value, BuildFrom(k, DefsAfter(defs, xs), ys)) else a
    decreases |xs|
  {
    if |xs| == 0 {
      assert xs + ys == ys;
      var b := BuildFrom(k, defs, ys);
      if b.Built? {
        assert [] + b.value == b.value;
      }
    } else {
      assert (xs + ys)[0] == xs[0];
      assert (xs + ys)[1..] == xs[1..] + ys;
      if xs[0].Assign? {
        BuildFromAppend(k, defs[xs[0].name := xs[0].value], xs[1..], ys);
      } else if xs[0].Comment? {
        BuildFromAppend(k, defs, xs[1..], ys);
      } else {
        BuildFromAppend(k, defs, xs[1..], ys);
        BuildFromStep(k, defs, xs);
        BuildFromStep(k, defs, xs + ys);
        assert DefsAfter(defs, xs) == DefsAfter(defs, xs[1..]);
        var f := Lower(k, defs, {}, xs[0]);
        var b := BuildFrom(k, defs, xs[1..]);
        if f.Built? && b.Built? {
          AfterAfter([f.value], b.value, BuildFrom(k, DefsAfter(defs, xs), ys));
        }
      }
    }
  }

  /** `build` yields one feature per item that is neither an assignment nor a comment. */
  lemma {:induction false} BuildCount(k: G.Kernel, defs: map<string, Ast>, xs: seq<Ast>)
    ensures BuildFrom(k, defs, xs).Built? ==> |BuildFrom(k, defs, xs).value| == |FeatureItems(xs)|
    decreases |xs|
  {
    if |xs| > 0 {
      if xs[0].Assign? {
        BuildCount(k, defs[xs[0].name := xs[0].value], xs[1..]);
      } else if xs[0].Comment? {
        BuildCount(k, defs, xs[1..]);
      } else {
        BuildCount(k, defs, xs[1..]);
        BuildFromCons(k, defs, xs);
        assert FeatureItems(xs) == [xs[0]] + FeatureItems(xs[1..]);
      }
    }
  }

  /** A second `let` of the same name replaces the first. */
  lemma LetReplaces(k: G.Kernel, defs: map<string, Ast>, n: string, v: Ast, w: Ast, rest: seq<Ast>)
    ensures BuildFrom(k, defs, [Assign(n, v), Assign(n, w)] + rest) == BuildFrom(k, defs, [Assign(n, w)] + rest)
  {
    var xs := [Assign(n, v), Assign(n, w)] + rest;
    assert xs[1..] == [Assign(n, w)] + rest;
    assert ([Assign(n, w)] + rest)[1..] == rest;
    assert xs[1..][1..] == rest;
    assert defs[n := v][n := w] == defs[n := w];
  }

  /** `let a = $a; $a`: a variable defined by itself recurses without end. */
  lemma SelfReference(k: G.Kernel, n: string)
    ensures BuildFrom(k, map[], [Assign(n, VarRef(n)), VarRef(n)]) == Panicked(Recursion)
  {
    var xs := [Assign(n, VarRef(n)), VarRef(n)];
    assert xs[1..] == [VarRef(n)];
    assert [VarRef(n)][1..] == [];
    var defs := map[n := VarRef(n)];
    assert Lower(k, defs, {}, VarRef(n)) == Lower(k, defs, {n}, VarRef(n));
  }

  /** A reference before any `let` of its name stops `build` with `UndefinedVariable` of that name. */
  lemma UndefinedReference(k: G.Kernel, n: string, rest: seq<Ast>)
    ensures BuildFrom(k, map[], [VarRef(n)] + rest) == Refused(UndefinedVariable(n))
  {
    assert ([VarRef(n)] + rest)[0] == VarRef(n);
  }

  /**
   * A reference lowers the stored description afresh each time it is
   * used: a tuple of two references to one definition holds two links
   * built from the same description.
   */
  lemma ReferenceRelowers(k: G.Kernel, n: string, v: Ast)
    requires v.Rect? || v.Circle? || v.Triangle? || v.RMount?
    ensures var f := Lower(k, map[n := v], {}, v).value;
      BuildFrom(k, map[], [Assign(n, v), Tuple([VarRef(n), VarRef(n)])]) == Built([Link(Some(f), f)])
  {
    var defs := map[n := v];
    var xs := [Assign(n, v), Tuple([VarRef(n), VarRef(n)])];
    assert xs[1..] == [Tuple([VarRef(n), VarRef(n)])];
    assert [Tuple([VarRef(n), VarRef(n)])][1..] == [];
    var f := Lower(k, defs, {}, v);
    assert Lower(k, defs, {}, VarRef(n)) == Lower(k, defs, {n}, v) == f;
    assert [VarRef(n), VarRef(n)][1..] == [VarRef(n)];
    assert [VarRef(n)][1..] == [];
    assert f.Built?;
    assert LowerTuple(k, defs, {}, Some(f.value), [VarRef(n)]) == Built(Some(Link(Some(f.value), f.value)));
    assert LowerTuple(k, defs, {}, None, [VarRef(n), VarRef(n)]) == Built(Some(Link(Some(f.value), f.value)));
    assert Lower(k, defs, {}, Tuple([VarRef(n), VarRef(n)])) == Built(Link(Some(f.value), f.value));
    assert [Link(Some(f.value), f.value)] + [] == [Link(Some(f.value), f.value)];
    assert BuildFrom(k, defs, [Tuple([VarRef(n), VarRef(n)])]) == Built([Link(Some(f.value), f.value)]);
    assert map[][n := v] == defs;
    assert BuildFrom(k, map[], xs) == BuildFrom(k, defs, xs[1..]);
  }

  /** An assignment or a comment nested inside another item is the source's `unreachable!()` panic. */
  lemma NestedItemPanics(k: G.Kernel, defs: map<string, Ast>, d: Direction, num: nat, a: Ast, vs: bool)
    requires a.Assign? || a.Comment?
    ensures Lower(k, defs, {}, Array(d, num, a, vs)) == Panicked(Unreachable)
    ensures Lower(k, defs, {}, Tuple([a])) == Panicked(Unreachable)
  {
    assert [a][1..] == [];
  }

  // No `BadType`.

  predicate NotBadType<T>(o: Outcome<T>) { !(o.Refused? && o.error.BadType?) }

  /** Every variable holds a feature description, so the resolver never reports a variable of the wrong type. */
  lemma {:induction false} LowerNotBadType(k: G.Kernel, defs: map<string, Ast>, visiting: set<string>, a: Ast)
    ensures NotBadType(Lower(k, defs, visiting, a))
    decreases |defs.Keys - visiting|, a, 0
  {
    match a {
      case Array(d, n, body, vs) =>
        LowerNotBadType(k, defs, visiting, body);
        ArrayCase(k, defs, visiting, d, n, body, vs);
      case ColumnLayout(c, al, inners) =>
        AllNotBadType(k, defs, visiting, inners);
        ColumnCase(k, defs, visiting, c, al, inners);
      case Wrap(primary, els) =>
        LowerNotBadType(k, defs, visiting, primary);
        var p := Lower(k, defs, visiting, primary);
        if p.Built? {
          WrapNotBadType(k, defs, visiting, F.AtPosNew(p.value), els);
        }
        WrapCase(k, defs, visiting, primary, els);
      case Tuple(inners) =>
        TupleNotBadType(k, defs, visiting, None, inners);
        TupleCase(k, defs, visiting, inners);
      case VarRef(name) =>
        if name in defs && name !in visiting {
          assert defs.Keys - visiting == (defs.Keys - (visiting + {name})) + {name};
          LowerNotBadType(k, defs, visiting + {name}, defs[name]);
        }
        VarCase(k, defs, visiting, name);
      case _ => ShapeCase(k, defs, visiting, a);
    }
  }

  lemma ColumnCase(k: G.Kernel, defs: map<string, Ast>, visiting: set<string>, coords: Option<(real, real)>, align: Align, inners: seq<Ast>)
    requires NotBadType(LowerAll(k, defs, visiting, inners))
    ensures NotBadType(Lower(k, defs, visiting, ColumnLayout(coords, align, inners)))
  {
  }

  lemma ShapeCase(k: G.Kernel, defs: map<string, Ast>, visiting: set<string>, a: Ast)
    requires a.Rect? || a.Circle? || a.Triangle? || a.RMount? || a.Assign? || a.Comment?
    ensures NotBadType(Lower(k, defs, visiting, a))
  {
  }

  lemma ArrayCase(k: G.Kernel, defs: map<string, Ast>, visiting: set<string>, d: Direction, n: nat, body: Ast, vs: bool)
    requires NotBadType(Lower(k, defs, visiting, body))
    ensures NotBadType(Lower(k, defs, visiting, Array(d, n, body, vs)))
  {
  }

  lemma WrapCase(k: G.Kernel, defs: map<string, Ast>, visiting: set<string>, primary: Ast, els: seq<(P.Positioning, Ast)>)
    requires NotBadType(Lower(k, defs, visiting, primary))
    requires Lower(k, defs, visiting, primary).Built? ==> NotBadType(LowerWrap(k, defs, visiting, F.AtPosNew(Lower(k, defs, visiting, primary).value), els))
    ensures NotBadType(Lower(k, defs, visiting, Wrap(primary, els)))
  {
  }

  lemma TupleCase(k: G.Kernel, defs: map<string, Ast>, visiting: set<string>, inners: seq<Ast>)
    requires NotBadType(LowerTuple(k, defs, visiting, None, inners))
    ensures NotBadType(Lower(k, defs, visiting, Tuple(inners)))
  {
  }

  lemma VarCase(k: G.Kernel, defs: map<string, Ast>, visiting: set<string>, name: string)
    requires name in defs && name !in visiting ==> NotBadType(Lower(k, defs, visiting + {name}, defs[name]))
    ensures NotBadType(Lower(k, defs, visiting, VarRef(name)))
  {
  }

  lemma {:induction false} AllNotBadType(k: G.Kernel, defs: map<string, Ast>, visiting: set<string>, xs: seq<Ast>)
    ensures NotBadType(LowerAll(k, defs, visiting, xs))
    decreases |defs.Keys - visiting|, xs, 1
  {
    if |xs| > 0 {
      LowerNotBadType(k, defs, visiting, xs[0]);
      AllNotBadType(k, defs, visiting, xs[1..]);
    }
  }

  lemma {:induction false} TupleNotBadType(k: G.Kernel, defs: map<string, Ast>, visiting: set<string>, out: Option<F.Feature>, xs: seq<Ast>)
    ensures NotBadType(LowerTuple(k, defs, visiting, out, xs))
    decreases |defs.Keys - visiting|, xs, 1
  {
    if |xs| > 0 {
      LowerNotBadType(k, defs, visiting, xs[0]);
      var f := Lower(k, defs, visiting, xs[0]);
      if f.Built? {
        TupleNotBadType(k, defs, visiting, Some(Link(out, f.value)), xs[1..]);
      }
    }
  }

  lemma {:induction false} ElementNotBadType(k: G.Kernel, defs: map<string, Ast>, visiting: set<string>, e: (P.Positioning, Ast))
    ensures NotBadType(LowerElement(k, defs, visiting, e))
    decreases |defs.Keys - visiting|, e, 1
  {
    LowerNotBadType(k, defs, visiting, e.1);
  }

  lemma {:induction false} WrapNotBadType(k: G.Kernel, defs: map<string, Ast>, visiting: set<string>, acc: F.Feature, els: seq<(P.Positioning, Ast)>)
    requires acc.AtPos?
    ensures NotBadType(LowerWrap(k, defs, visiting, acc, els))
    decreases |defs.Keys - visiting|, els, 2
  {
    if |els| > 0 {
      ElementNotBadType(k, defs, visiting, els[0]);
      var g := LowerElement(k, defs, visiting, els[0]);
      if g.Built? {
        WrapNotBadType(k, defs, visiting, F.AtPosPush(acc, g.value, els[0].0), els[1..]);
      }
    }
  }

  // Built features are regular.

  /** A feature the source places, lays out and repeats without panicking, and which has a board outline. */
  predicate Sound(k: G.Kernel, f: F.Feature) { L.Regular(k, f) && F.EdgeUnion(k, f).Some? }

  predicate SoundOutcome(k: G.Kernel, o: Outcome<F.Feature>) { o.Built? ==> Sound(k, o.value) }

  /** Every definition is a description the grammar can produce. */
  predicate DefsWellFormed(defs: map<string, Ast>) { forall n :: n in defs ==> WellFormed(defs[n]) }

  lemma AtPosSound(k: G.Kernel, f: F.Feature)
    requires G.BoundsLaws(k) && f.AtPos?
    requires Sound(k, f.primary) && L.RegularElements(k, f)
    ensures Sound(k, f)
  {
    L.Solid(k, f.primary);
    P.OutlineNone(k, F.EdgeUnion(k, f.primary), F.ElementOutlines(k, f), F.Positions(f.elements));
  }

  lemma PushSound(k: G.Kernel, acc: F.Feature, g: F.Feature, pos: P.Positioning)
    requires G.BoundsLaws(k) && acc.AtPos? && Sound(k, acc) && L.Regular(k, g)
    ensures Sound(k, F.AtPosPush(acc, g, pos))
  {
    var f := F.AtPosPush(acc, g, pos);
    assert L.RegularElements(k, acc);
    PushRegular(k, acc, g, pos);
    AtPosSound(k, f);
  }

  /** Pushing a regular feature onto an `AtPos` with regular secondaries keeps every secondary regular. */
  lemma PushRegular(k: G.Kernel, acc: F.Feature, g: F.Feature, pos: P.Positioning)
    requires acc.AtPos? && L.RegularElements(k, acc) && L.Regular(k, g)
    ensures F.AtPosPush(acc, g, pos).primary == acc.primary
    ensures L.RegularElements(k, F.AtPosPush(acc, g, pos))
  {
    var f := F.AtPosPush(acc, g, pos);
    assert forall i :: 0 <= i < |acc.elements| ==> f.elements[i] == acc.elements[i];
    assert f.elements[|acc.elements|].feature == g;
  }

  lemma LinkSound(k: G.Kernel, out: Option<F.Feature>, f: F.Feature)
    requires G.BoundsLaws(k) && (out.Some? ==> Sound(k, out.value)) && Sound(k, f)
    ensures Sound(k, Link(out, f))
  {
    if out.Some? {
      AtPosSound(k, F.AtPosNew(out.value));
      PushSound(k, F.AtPosNew(out.value), f, TupleLink);
    }
  }

  lemma TranslateSound(k: G.Kernel, f: F.Feature, v: G.Point)
    requires G.BoundsLaws(k) && G.MotionLaws(k) && Sound(k, f)
    ensures Sound(k, F.Translate(f, v))
  {
    L.RegularTranslate(k, f, v);
    L.TranslateMoves(k, f, v);
  }

  lemma NormalizedSound(k: G.Kernel, fs: seq<F.Feature>)
    requires G.BoundsLaws(k) && G.MotionLaws(k)
    requires forall i :: 0 <= i < |fs| ==> Sound(k, fs[i])
    ensures forall i :: 0 <= i < |fs| ==> Sound(k, F.Normalized(k, fs)[i])
  {
    forall i | 0 <= i < |fs| ensures Sound(k, F.Normalized(k, fs)[i]) {
      var m := F.EdgeUnion(k, fs[i]).value;
      TranslateSound(k, fs[i], G.Neg(G.BoundsOr(m).min));
    }
  }

  lemma ColumnRegular(k: G.Kernel, ns: seq<F.Feature>, align: Align)
    requires |ns| > 0 && forall i :: 0 <= i < |ns| ==> Sound(k, ns[i])
    ensures L.Regular(k, F.Column(ns, align, true))
  {
    assert L.RegularAll(k, ns);
  }

  lemma ColumnOutlined(k: G.Kernel, ns: seq<F.Feature>, align: Align)
    requires |ns| > 0 && F.EdgeUnion(k, ns[0]).Some?
    ensures F.EdgeUnion(k, F.Column(ns, align, true)).Some?
  {
    var outs := F.Outlines(k, ns);
    C.OutlineNone(k, outs, align, true);
    assert outs[0].Some?;
  }

  lemma ColumnNewSound(k: G.Kernel, fs: seq<F.Feature>, align: Align)
    requires G.BoundsLaws(k) && G.MotionLaws(k) && |fs| > 0
    requires forall i :: 0 <= i < |fs| ==> Sound(k, fs[i])
    ensures Sound(k, F.ColumnNew(k, fs, align))
  {
    var ns := F.Normalized(k, fs);
    NormalizedSound(k, fs);
    ColumnRegular(k, ns, align);
    ColumnOutlined(k, ns, align);
  }

  lemma ShapeSound(k: G.Kernel, defs: map<string, Ast>, visiting: set<string>, a: Ast)
    requires a.Rect? || a.Circle? || a.Triangle? || a.RMount?
    ensures Lower(k, defs, visiting, a).Built? && Sound(k, Lower(k, defs, visiting, a).value)
  {
  }

  lemma TileSound(k: G.Kernel, t: F.Feature, d: Direction, n: nat, vs: bool)
    requires G.BoundsLaws(k) && Sound(k, t)
    ensures Sound(k, F.TileVScore(F.TileNew(t, d, n), vs))
  {
    L.Solid(k, t);
    R.OutlineBasics(k, F.EdgeUnion(k, t), d, n);
  }

  lemma ArraySound(k: G.Kernel, defs: map<string, Ast>, visiting: set<string>, d: Direction, n: nat, body: Ast, vs: bool)
    requires G.BoundsLaws(k) && SoundOutcome(k, Lower(k, defs, visiting, body))
    ensures SoundOutcome(k, Lower(k, defs, visiting, Array(d, n, body, vs)))
  {
    var t := Lower(k, defs, visiting, body);
    var r := Lower(k, defs, visiting, Array(d, n, body, vs));
    if t.Built? {
      TileSound(k, t.value, d, n, vs);
      assert r == Built(F.TileVScore(F.TileNew(t.value, d, n), vs));
    } else {
      assert !r.Built?;
    }
  }

  /** Items that each lower soundly lower together to sound features, one per item. */
  lemma LowerAllSound(k: G.Kernel, defs: map<string, Ast>, visiting: set<string>, inners: seq<Ast>)
    requires forall i :: 0 <= i < |inners| ==> SoundOutcome(k, Lower(k, defs, visiting, inners[i]))
    requires LowerAll(k, defs, visiting, inners).Built?
    ensures var fs := LowerAll(k, defs, visiting, inners).value;
      |fs| == |inners| && forall i :: 0 <= i < |fs| ==> Sound(k, fs[i])
  {
    LowerAllSpec(k, defs, visiting, inners);
  }

  lemma ColumnSound(k: G.Kernel, defs: map<string, Ast>, visiting: set<string>, c: Option<(real, real)>, align: Align, inners: seq<Ast>)
    requires G.BoundsLaws(k) && G.MotionLaws(k) && |inners| > 0
    requires forall i :: 0 <= i < |inners| ==> SoundOutcome(k, Lower(k, defs, visiting, inners[i]))
    ensures SoundOutcome(k, Lower(k, defs, visiting, ColumnLayout(c, align, inners)))
  {
    var o := LowerAll(k, defs, visiting, inners);
    ColumnStep(k, defs, visiting, c, align, inners);
    if o.Built? {
      LowerAllSound(k, defs, visiting, inners);
      var layout := F.ColumnNew(k, o.value, align);
      ColumnNewSound(k, o.value, align);
      if c.Some? {
        TranslateSound(k, layout, ToPoint(c.value));
      }
    }
  }

  /** The `Column` arm: the items are lowered, laid out, and the layout is moved to the coordinates if any. */
  lemma ColumnStep(k: G.Kernel, defs: map<string, Ast>, visiting: set<string>, c: Option<(real, real)>, align: Align, inners: seq<Ast>)
    ensures var o := LowerAll(k, defs, visiting, inners);
      var r := Lower(k, defs, visiting, ColumnLayout(c, align, inners));
      && (!o.Built? ==> !r.Built?)
      && (o.Built? && c.Some? ==> r == Built(F.Translate(F.ColumnNew(k, o.value, align), ToPoint(c.value))))
      && (o.Built? && c.None? ==> r == Built(F.ColumnNew(k, o.value, align)))
  {
  }

  lemma WrapSound(k: G.Kernel, defs: map<string, Ast>, visiting: set<string>, primary: Ast, els: seq<(P.Positioning, Ast)>)
    requires G.BoundsLaws(k) && SoundOutcome(k, Lower(k, defs, visiting, primary))
    requires Lower(k, defs, visiting, primary).Built? ==> SoundOutcome(k, LowerWrap(k, defs, visiting, F.AtPosNew(Lower(k, defs, visiting, primary).value), els))
    ensures SoundOutcome(k, Lower(k, defs, visiting, Wrap(primary, els)))
  {
  }

  lemma TupleSound(k: G.Kernel, defs: map<string, Ast>, visiting: set<string>, inners: seq<Ast>)
    requires var o := LowerTuple(k, defs, visiting, None, inners); o.Built? && o.value.Some? ==> Sound(k, o.value.value)
    ensures SoundOutcome(k, Lower(k, defs, visiting, Tuple(inners)))
  {
  }

  lemma VarSound(k: G.Kernel, defs: map<string, Ast>, visiting: set<string>, name: string)
    requires name in defs && name !in visiting ==> SoundOutcome(k, Lower(k, defs, visiting + {name}, defs[name]))
    ensures SoundOutcome(k, Lower(k, defs, visiting, VarRef(name)))
  {
  }

  /**
   * Every feature the resolver builds from a description the grammar
   * accepts is regular and has an outline: no layout, placement or
   * repetition inside it reaches one of the source's `unwrap` panics.
   */
  lemma {:induction false} BuiltSound(k: G.Kernel, defs: map<string, Ast>, visiting: set<string>, a: Ast)
    requires G.BoundsLaws(k) && G.MotionLaws(k) && DefsWellFormed(defs) && WellFormed(a)
    ensures SoundOutcome(k, Lower(k, defs, visiting, a))
    decreases |defs.Keys - visiting|, a, 2
  {
    match a {
      case Array(d, n, body, vs) => ArrayCaseSound(k, defs, visiting, a);
      case ColumnLayout(c, align, inners) => ColumnCaseSound(k, defs, visiting, a);
      case Wrap(primary, els) => WrapCaseSound(k, defs, visiting, a);
      case Tuple(inners) =>
        TupleBuiltSound(k, defs, visiting, None, inners);
        TupleSound(k, defs, visiting, inners);
      case VarRef(name) => VarCaseSound(k, defs, visiting, name);
      case Assign(_, _) =>
      case Comment(_) =>
      case _ => ShapeSound(k, defs, visiting, a);
    }
  }

  lemma {:induction false} ArrayCaseSound(k: G.Kernel, defs: map<string, Ast>, visiting: set<string>, a: Ast)
    requires G.BoundsLaws(k) && G.MotionLaws(k) && DefsWellFormed(defs) && WellFormed(a) && a.Array?
    ensures SoundOutcome(k, Lower(k, defs, visiting, a))
    decreases |defs.Keys - visiting|, a, 1
  {
    BuiltSound(k, defs, visiting, a.body);
    ArraySound(k, defs, visiting, a.dir, a.num, a.body, a.vscore);
  }

  lemma {:induction false} ColumnCaseSound(k: G.Kernel, defs: map<string, Ast>, visiting: set<string>, a: Ast)
    requires G.BoundsLaws(k) && G.MotionLaws(k) && DefsWellFormed(defs) && WellFormed(a) && a.ColumnLayout?
    ensures SoundOutcome(k, Lower(k, defs, visiting, a))
    decreases |defs.Keys - visiting|, a, 1
  {
    var inners := a.inners;
    forall i | 0 <= i < |inners| ensures SoundOutcome(k, Lower(k, defs, visiting, inners[i])) {
      BuiltSound(k, defs, visiting, inners[i]);
    }
    ColumnSound(k, defs, visiting, a.coords, a.align, inners);
  }

  lemma {:induction false} WrapCaseSound(k: G.Kernel, defs: map<string, Ast>, visiting: set<string>, a: Ast)
    requires G.BoundsLaws(k) && G.MotionLaws(k) && DefsWellFormed(defs) && WellFormed(a) && a.Wrap?
    ensures SoundOutcome(k, Lower(k, defs, visiting, a))
    decreases |defs.Keys - visiting|, a, 1
  {
    BuiltSound(k, defs, visiting, a.primary);
    var p := Lower(k, defs, visiting, a.primary);
    if p.Built? {
      AtPosSound(k, F.AtPosNew(p.value));
      WrapBuiltSound(k, defs, visiting, F.AtPosNew(p.value), a.features);
    }
    WrapSound(k, defs, visiting, a.primary, a.features);
  }

  lemma {:induction false} VarCaseSound(k: G.Kernel, defs: map<string, Ast>, visiting: set<string>, name: string)
    requires G.BoundsLaws(k) && G.MotionLaws(k) && DefsWellFormed(defs)
    ensures SoundOutcome(k, Lower(k, defs, visiting, VarRef(name)))
    decreases |defs.Keys - visiting|, VarRef(name), 1
  {
    if name in defs && name !in visiting {
      assert defs.Keys - visiting == (defs.Keys - (visiting + {name})) + {name};
      BuiltSound(k, defs, visiting + {name}, defs[name]);
    }
    VarSound(k, defs, visiting, name);
  }

  lemma {:induction false} WrapBuiltSound(k: G.Kernel, defs: map<string, Ast>, visiting: set<string>, acc: F.Feature, els: seq<(P.Positioning, Ast)>)
    requires G.BoundsLaws(k) && G.MotionLaws(k) && DefsWellFormed(defs)
    requires forall j :: 0 <= j < |els| ==> WellFormed(els[j].1)
    requires acc.AtPos? && Sound(k, acc)
    ensures SoundOutcome(k, LowerWrap(k, defs, visiting, acc, els))
    decreases |defs.Keys - visiting|, els, 2
  {
    if |els| > 0 {
      ElementSound(k, defs, visiting, els[0]);
      var g := LowerElement(k, defs, visiting, els[0]);
      if g.Built? {
        PushSound(k, acc, g.value, els[0].0);
        WrapBuiltSound(k, defs, visiting, F.AtPosPush(acc, g.value, els[0].0), els[1..]);
      }
    }
  }

  lemma {:induction false} ElementSound(k: G.Kernel, defs: map<string, Ast>, visiting: set<string>, e: (P.Positioning, Ast))
    requires G.BoundsLaws(k) && G.MotionLaws(k) && DefsWellFormed(defs) && WellFormed(e.1)
    ensures SoundOutcome(k, LowerElement(k, defs, visiting, e))
    decreases |defs.Keys - visiting|, e, 1
  {
    BuiltSound(k, defs, visiting, e.1);
  }

  lemma {:induction false} TupleBuiltSound(k: G.Kernel, defs: map<string, Ast>, visiting: set<string>, out: Option<F.Feature>, xs: seq<Ast>)
    requires G.BoundsLaws(k) && G.MotionLaws(k) && DefsWellFormed(defs)
    requires forall j :: 0 <= j < |xs| ==> WellFormed(xs[j])
    requires out.Some? ==> Sound(k, out.value)
    ensures var o := LowerTuple(k, defs, visiting, out, xs); o.Built? && o.value.Some? ==> Sound(k, o.value.value)
    decreases |defs.Keys - visiting|, xs, 1
  {
    if |xs| > 0 {
      BuiltSound(k, defs, visiting, xs[0]);
      var f := Lower(k, defs, visiting, xs[0]);
      if f.Built? {
        LinkSound(k, out, f.value);
        TupleBuiltSound(k, defs, visiting, Some(Link(out, f.value)), xs[1..]);
      }
    }
  }

  /** An item other than a `let` or a comment is lowered first; its feature goes ahead of the rest, or its failure ends the build. */
  lemma BuildFromStep(k: G.Kernel, defs: map<string, Ast>, items: seq<Ast>)
    requires |items| > 0 && !items[0].Assign? && !items[0].Comment?
    ensures var f := Lower(k, defs, {}, items[0]);
      BuildFrom(k, defs, items) == if f.Built? then After([f.value], BuildFrom(k, defs, items[1..])) else f.PropagateFailure()
  {
  }

  /** An item other than a `let` or a comment contributes its feature ahead of the rest. */
  lemma BuildFromCons(k: G.Kernel, defs: map<string, Ast>, items: seq<Ast>)
    requires |items| > 0 && !items[0].Assign? && !items[0].Comment?
    ensures var o, f, rest := BuildFrom(k, defs, items), Lower(k, defs, {}, items[0]), BuildFrom(k, defs, items[1..]);
      (o.Built? <==> f.Built? && rest.Built?) && (o.Built? ==> o.value == [f.value] + rest.value)
  {
  }

  /** The features of a list of items are all sound when every item and every definition is well formed. */
  lemma {:induction false} BuildFromSound(k: G.Kernel, defs: map<string, Ast>, items: seq<Ast>)
    requires G.BoundsLaws(k) && G.MotionLaws(k) && DefsWellFormed(defs)
    requires forall j :: 0 <= j < |items| ==> WellFormed(items[j])
    ensures var o := BuildFrom(k, defs, items); o.Built? ==> forall i :: 0 <= i < |o.value| ==> Sound(k, o.value[i])
    decreases |items|
  {
    if |items| > 0 {
      var tail := items[1..];
      assert forall j :: 0 <= j < |tail| ==> WellFormed(tail[j]) by {
        assert forall j :: 0 <= j < |tail| ==> tail[j] == items[j + 1];
      }
      var o := BuildFrom(k, defs, items);
      if items[0].Assign? {
        var defs' := defs[items[0].name := items[0].value];
        assert WellFormed(items[0]);
        assert DefsWellFormed(defs');
        assert o == BuildFrom(k, defs', tail);
        BuildFromSound(k, defs', tail);
      } else if items[0].Comment? {
        assert o == BuildFrom(k, defs, tail);
        BuildFromSound(k, defs, tail);
      } else {
        BuiltSound(k, defs, {}, items[0]);
        BuildFromSound(k, defs, tail);
        BuildFromCons(k, defs, items);
        ConsSound(k, o, Lower(k, defs, {}, items[0]), BuildFrom(k, defs, tail));
      }
    }
  }

  /** A list built from a sound head and a list of sound features is sound throughout. */
  lemma ConsSound(k: G.Kernel, o: Outcome<seq<F.Feature>>, f: Outcome<F.Feature>, rest: Outcome<seq<F.Feature>>)
    requires (o.Built? <==> f.Built? && rest.Built?) && (o.Built? ==> o.value == [f.value] + rest.value)
    requires SoundOutcome(k, f)
    requires rest.Built? ==> forall i :: 0 <= i < |rest.value| ==> Sound(k, rest.value[i])
    ensures o.Built? ==> forall i :: 0 <= i < |o.value| ==> Sound(k, o.value[i])
  {
    if o.Built? {
      var xs := o.value;
      forall i | 0 <= i < |xs| ensures Sound(k, xs[i]) {
        if i == 0 {
          assert xs[i] == f.value;
        } else {
          assert xs[i] == rest.value[i - 1];
        }
      }
    }
  }

  /**
   * `parser::build` on any text yields, when it succeeds, only sound
   * features: each one is regular and has an outline.
   */
  lemma BuildSound(k: G.Kernel, num: Numbers, spec: string)
    requires G.BoundsLaws(k) && G.MotionLaws(k)
    ensures var o := Build(k, num, spec); o.Built? ==> forall i :: 0 <= i < |o.value| ==> Sound(k, o.value[i])
  {
    var p := Spec(num, spec);
    if p.Done? {
      BuildFromSound(k, map[], p.value);
    }
  }
}
