/**
 * The resolver of parser.rs: `AST::into_feature`, which lowers a parsed
 * item to a feature, looking variables up in the definitions made so far,
 * and `build`, which parses a whole spec and lowers its items in order,
 * recording each `let` as it goes.
 *
 * Where the source panics (`unreachable!()` on an assignment or comment
 * nested inside another item, `unwrap()` on an empty tuple, and the
 * unbounded recursion of a variable whose definition refers back to
 * itself) the model yields `Panicked` with the reason.
 */
module Resolver {
  import opened Wrappers
  import opened Common
  import G = Geo
  import I = Inner
  import P = Pos
  import U = Unions
  import C = Columns
  import R = Repeating
  import F = Features
  import L = FeatureLaws
  import opened Parser

  /** `parser::Err`; the message of a parse error is not modelled. */
  datatype BuildError = ParseError | UndefinedVariable(name: string) | BadType(name: string)

  /** Why the source panics. */
  datatype Panic = Unreachable | EmptyTuple | Recursion

  datatype Outcome<T> = Built(value: T) | Refused(error: BuildError) | Panicked(panic: Panic)
  {
    predicate IsFailure() { !Built? }

    function PropagateFailure<U>(): Outcome<U>
      requires IsFailure()
    {
      if Refused? then Refused(error) else Panicked(panic)
    }

    function Extract(): T
      requires Built?
    {
      value
    }
  }

  /** `InnerAST::into_inner_feature`. */
  function LowerInner(i: InnerAst): (r: I.InnerFeature)
    ensures i.ScrewHole? ==> r == I.ScrewHoleWithDiameter(i.dia)
    ensures i.Smiley? ==> r == I.SmileyDefault()
    ensures i.MechanicalSolderPoint? ==> r == (match i.size case Some(s) => I.MspWithSize(s) case None => I.MspDefault())
  {
    match i
    case ScrewHole(dia) => I.ScrewHoleWithDiameter(dia)
    case Smiley => I.SmileyDefault()
    case MechanicalSolderPoint(size) =>
      match size
      case Some(s) => I.MspWithSize(s)
      case None => I.MspDefault()
  }

  function ToPoint(c: (real, real)): G.Point { G.Point(c.0, c.1) }

  /** The positioning of every link of a tuple: to the right, flush with the end, no adjustment. */
  const TupleLink := P.Positioning(Right, 0.0, End)

  /** The `Rect` arm: with an inner feature, `Rect::with_inner(..).dimensions(..)`; without, `Rect::with_center`. */
  function LowerRect(coords: Option<(real, real)>, size: Option<(real, real)>, inner: Option<InnerAst>): F.Feature
  {
    match inner
    case Some(i) =>
      var wh := match size case Some(s) => s case None => (2.0, 2.0);
      var c := match coords case Some(c) => ToPoint(c) case None => G.Origin;
      F.RectDimensions(F.RectWithInner(LowerInner(i)), c, wh.0, wh.1)
    case None =>
      match (coords, size)
      case (Some(c), Some(s)) => F.RectWithCenter(ToPoint(c), s.0, s.1)
      case (None, Some(s)) => F.RectWithCenter(G.Origin, s.0, s.1)
      case (Some(c), None) => F.RectWithCenter(ToPoint(c), 2.0, 2.0)
      case (None, None) => F.RectWithCenter(G.Point(-1.0, -1.0), 2.0, 2.0)
  }

  /** The `Circle` arm. */
  function LowerCircle(coords: Option<(real, real)>, radius: real, inner: Option<InnerAst>): F.Feature
  {
    match (inner, coords)
    case (Some(i), Some(c)) => F.CircleWithInner(LowerInner(i), ToPoint(c), radius)
    case (Some(i), None) => F.CircleWrapWithRadius(LowerInner(i), radius)
    case (None, Some(c)) => F.CircleNew(ToPoint(c), radius)
    case (None, None) => F.CircleWithRadius(radius)
  }

  /** The `Triangle` arm. */
  function LowerTriangle(sides: (real, real), inner: Option<InnerAst>): F.Feature
  {
    match inner
    case Some(i) => F.TriangleDimensions(F.TriangleWithInner(LowerInner(i)), G.Origin, sides.0, sides.1)
    case None => F.TriangleRightAngle(sides.0, sides.1)
  }

  /**
   * `AST::into_feature` with the definitions `defs`; `visiting` holds the
   * variables whose definitions are being lowered further up.
   */
  function Lower(k: G.Kernel, defs: map<string, Ast>, visiting: set<string>, a: Ast): Outcome<F.Feature>
    decreases |defs.Keys - visiting|, a, 0
  {
    match a
    case Rect(coords, size, inner, _) => Built(LowerRect(coords, size, inner))
    case Circle(coords, radius, inner) => Built(LowerCircle(coords, radius, inner))
    case Triangle(sides, inner) => Built(LowerTriangle(sides, inner))
    case RMount(depth, dir) => Built(F.RMountDirection(F.RMountNew(depth), dir))
    case Array(dir, num, body, vscore) =>
      var t :- Lower(k, defs, visiting, body);
      Built(F.TileVScore(F.TileNew(t, dir, num), vscore))
    case ColumnLayout(coords, align, inners) =>
      var fs :- LowerAll(k, defs, visiting, inners);
      var layout := F.ColumnNew(k, fs, align);
      Built(match coords case Some(c) => F.Translate(layout, ToPoint(c)) case None => layout)
    case Wrap(primary, features) =>
      var p :- Lower(k, defs, visiting, primary);
      LowerWrap(k, defs, visiting, F.AtPosNew(p), features)
    case Tuple(inners) =>
      var out :- LowerTuple(k, defs, visiting, None, inners);
      if out.None? then Panicked(EmptyTuple) else Built(out.value)
    case Assign(_, _) => Panicked(Unreachable)
    case Comment(_) => Panicked(Unreachable)
    case VarRef(name) =>
      if name !in defs then Refused(UndefinedVariable(name))
      else if name in visiting then Panicked(Recursion)
      else
        assert defs.Keys - visiting == (defs.Keys - (visiting + {name})) + {name};
        Lower(k, defs, visiting + {name}, defs[name])
  }

  /** `collect::<Result<Vec<_>, Err>>()` over the lowered items: the first failure wins. */
  function LowerAll(k: G.Kernel, defs: map<string, Ast>, visiting: set<string>, xs: seq<Ast>): Outcome<seq<F.Feature>>
    decreases |defs.Keys - visiting|, xs, 1
  {
    if |xs| == 0 then Built([])
    else
      var f :- Lower(k, defs, visiting, xs[0]);
      var rest :- LowerAll(k, defs, visiting, xs[1..]);
      Built([f] + rest)
  }

  /** The loop of the `Wrap` arm: each element is lowered and pushed onto the `AtPos` with its position. */
  function LowerWrap(k: G.Kernel, defs: map<string, Ast>, visiting: set<string>, acc: F.Feature, els: seq<(P.Positioning, Ast)>): Outcome<F.Feature>
    requires acc.AtPos?
    decreases |defs.Keys - visiting|, els, 2
  {
    if |els| == 0 then Built(acc)
    else
      var g :- LowerElement(k, defs, visiting, els[0]);
      LowerWrap(k, defs, visiting, F.AtPosPush(acc, g, els[0].0), els[1..])
  }

  /** The feature of one `position => feature` element of a wrap. */
  function LowerElement(k: G.Kernel, defs: map<string, Ast>, visiting: set<string>, e: (P.Positioning, Ast)): Outcome<F.Feature>
    decreases |defs.Keys - visiting|, e, 1
  {
    Lower(k, defs, visiting, e.1)
  }

  /** One step of the loop of the `Tuple` arm: the first item is kept, later ones are put to the right of what came before. */
  function Link(out: Option<F.Feature>, f: F.Feature): F.Feature
  {
    match out
    case None => f
    case Some(left) => F.AtPosPush(F.AtPosNew(left), f, TupleLink)
  }

  /** The loop of the `Tuple` arm, from the accumulator `out`. */
  function LowerTuple(k: G.Kernel, defs: map<string, Ast>, visiting: set<string>, out: Option<F.Feature>, xs: seq<Ast>): Outcome<Option<F.Feature>>
    decreases |defs.Keys - visiting|, xs, 1
  {
    if |xs| == 0 then Built(out)
    else
      var f :- Lower(k, defs, visiting, xs[0]);
      LowerTuple(k, defs, visiting, Some(Link(out, f)), xs[1..])
  }

  /** The `Wrap` arm: `AtPos::new` of the lowered primary, then the loop pushing each element. */
  method WrapLoop(k: G.Kernel, defs: map<string, Ast>, visiting: set<string>, primary: Ast, els: seq<(P.Positioning, Ast)>) returns (r: Outcome<F.Feature>)
    ensures r == Lower(k, defs, visiting, Wrap(primary, els))
  {
    ghost var want := Lower(k, defs, visiting, Wrap(primary, els));
    var p := Lower(k, defs, visiting, primary);
    if !p.Built? {
      return p;
    }
    var pos := F.AtPosNew(p.value);
    var i := 0;
    assert els[0..] == els;
    while i < |els|
      invariant 0 <= i <= |els| && pos.AtPos?
      invariant want == LowerWrap(k, defs, visiting, pos, els[i..])
      decreases |els| - i
    {
      WrapStep(k, defs, visiting, pos, els, i);
      var (position, feature) := els[i];
      var g := Lower(k, defs, visiting, feature);
      if !g.Built? {
        return g;
      }
      pos := F.AtPosPush(pos, g.value, position);
      i := i + 1;
    }
    assert els[i..] == [];
    return Built(pos);
  }

  /** One pass of the loop of the `Wrap` arm: a failing element ends the loop with its failure, else it is pushed. */
  lemma WrapStep(k: G.Kernel, defs: map<string, Ast>, visiting: set<string>, acc: F.Feature, els: seq<(P.Positioning, Ast)>, i: nat)
    requires acc.AtPos? && i < |els|
    ensures var g := Lower(k, defs, visiting, els[i].1);
      LowerWrap(k, defs, visiting, acc, els[i..])
      == if g.Built? then LowerWrap(k, defs, visiting, F.AtPosPush(acc, g.value, els[i].0), els[i + 1..]) else g
  {
    assert els[i..][0] == els[i] && els[i..][1..] == els[i + 1..];
  }

  /** The loop of the `Tuple` arm and its final `out.unwrap()`. */
  method TupleLoop(k: G.Kernel, defs: map<string, Ast>, visiting: set<string>, inners: seq<Ast>) returns (r: Outcome<F.Feature>)
    ensures r == Lower(k, defs, visiting, Tuple(inners))
  {
    var out: Option<F.Feature> := None;
    var i := 0;
    while i < |inners|
      invariant 0 <= i <= |inners|
      invariant LowerTuple(k, defs, visiting, None, inners) == LowerTuple(k, defs, visiting, out, inners[i..])
      decreases |inners| - i
    {
      assert inners[i..][1..] == inners[i + 1..];
      var f := Lower(k, defs, visiting, inners[i]);
      if !f.Built? {
        return f.PropagateFailure();
      }
      out := Some(Link(out, f.value));
      i := i + 1;
    }
    if out.None? {
      return Panicked(EmptyTuple);
    }
    return Built(out.value);
  }

  /** The variables defined while `build` runs. */
  class ResolverContext {
    var definitions: map<string, Ast>

    /** `ResolverContext::default()`. */
    constructor Default()
      ensures definitions == map[]
    {
      definitions := map[];
    }

    /** `ResolverContext::handle_assignment`: a later `let` of the same name replaces the earlier one. */
    method HandleAssignment(name: string, value: Ast)
      modifies this
      ensures definitions == old(definitions)[name := value]
    {
      definitions := definitions[name := value];
    }
  }

  /** `build` after parsing: assignments are recorded, comments skipped, every other item lowered in order. */
  function BuildFrom(k: G.Kernel, defs: map<string, Ast>, items: seq<Ast>): Outcome<seq<F.Feature>>
    decreases |items|
  {
    if |items| == 0 then Built([])
    else match items[0]
      case Assign(name, value) => BuildFrom(k, defs[name := value], items[1..])
      case Comment(_) => BuildFrom(k, defs, items[1..])
      case _ =>
        var f :- Lower(k, defs, {}, items[0]);
        var rest :- BuildFrom(k, defs, items[1..]);
        Built([f] + rest)
  }

  /** `parser::build`: a spec that does not parse entirely is a parse error. */
  function Build(k: G.Kernel, num: Numbers, spec: string): Outcome<seq<F.Feature>>
  {
    match Spec(num, spec)
    case Done(_, items) => BuildFrom(k, map[], items)
    case _ => Refused(ParseError)
  }

  /** `out` followed by the features of `o`, if it has any. */
  function After(out: seq<F.Feature>, o: Outcome<seq<F.Feature>>): Outcome<seq<F.Feature>>
  {
    match o
    case Built(fs) => Built(out + fs)
    case Refused(e) => Refused(e)
    case Panicked(p) => Panicked(p)
  }

  lemma AfterAfter(a: seq<F.Feature>, b: seq<F.Feature>, o: Outcome<seq<F.Feature>>)
    ensures After(a, After(b, o)) == After(a + b, o)
  {
    if o.Built? {
      assert a + (b + o.value) == (a + b) + o.value;
    }
  }

  /** The iterator chain of `build`, as the loop it runs, with the context it updates. */
  method BuildLoop(k: G.Kernel, items: seq<Ast>) returns (r: Outcome<seq<F.Feature>>)
    ensures r == BuildFrom(k, map[], items)
  {
    var ctx := new ResolverContext.Default();
    var out: seq<F.Feature> := [];
    var i := 0;
    assert items[i..] == items;
    assert After(out, BuildFrom(k, ctx.definitions, items)) == BuildFrom(k, map[], items) by {
      var o := BuildFrom(k, map[], items);
      if o.Built? {
        assert [] + o.value == o.value;
      }
    }
    while i < |items|
      invariant 0 <= i <= |items|
      invariant BuildFrom(k, map[], items) == After(out, BuildFrom(k, ctx.definitions, items[i..]))
      decreases |items| - i
    {
      assert items[i..][1..] == items[i + 1..];
      var item := items[i];
      match item {
        case Assign(name, value) =>
          ctx.HandleAssignment(name, value);
        case Comment(_) =>
        case _ =>
          var f := Lower(k, ctx.definitions, {}, item);
          if !f.Built? {
            return f.PropagateFailure();
          }
          AfterAfter(out, [f.value], BuildFrom(k, ctx.definitions, items[i + 1..]));
          out := out + [f.value];
      }
      i := i + 1;
    }
    assert out + [] == out;
    return Built(out);
  }

  /** `parser::build` as the source runs it: parse, then the loop. */
  method BuildSpec(k: G.Kernel, num: Numbers, spec: string) returns (r: Outcome<seq<F.Feature>>)
    ensures r == Build(k, num, spec)
  {
    var parsed := Spec(num, spec);
    if !parsed.Done? {
      return Refused(ParseError);
    }
    r := BuildLoop(k, parsed.value);
  }
}
