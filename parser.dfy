/**
 * The panel-spec grammar of parser.rs: nom combinators over the input
 * text, producing the `AST` the resolver lowers. A parser either succeeds
 * with the unread rest of the input and a value, or fails recoverably
 * (`Error`: an `alt` tries its next branch, an `opt` yields nothing) or
 * fatally (`Failure`, what `cut` turns an error into, and what the shape
 * checks of circles, triangles and mounts raise). Every parser that
 * succeeds has read at least one character, which is what makes the
 * recursive descent, `many0` and `fold_many1` terminate.
 */
module Parser {
  import opened Wrappers
  import opened Common
  import P = Pos

  datatype IResult<T> = Done(rest: string, value: T) | Error | Failure
  {
    predicate IsFailure() { !Done? }

    function PropagateFailure<U>(): IResult<U>
      requires IsFailure()
    {
      if Error? then Error else Failure
    }

    function Extract(): (string, T)
      requires Done?
    {
      (rest, value)
    }
  }

  /**
   * `str::parse` for the two number types the grammar reads (`f64` and
   * `usize`), left abstract. The empty lexeme never converts, as in Rust.
   */
  datatype Numbers = Numbers(float: string -> Option<real>, uint: string -> Option<nat>)

  function Convert<T>(conv: string -> Option<T>, lexeme: string): Option<T>
  {
    if |lexeme| == 0 then None else conv(lexeme)
  }

  // The AST.

  datatype InnerAst = ScrewHole(dia: real) | Smiley | MechanicalSolderPoint(size: Option<(real, real)>)

  datatype Ast =
    | Assign(name: string, value: Ast)
    | VarRef(name: string)
    | Comment(text: string)
    | Rect(coords: Option<(real, real)>, size: Option<(real, real)>, inner: Option<InnerAst>, rounded: Option<real>)
    | Circle(coords: Option<(real, real)>, radius: real, inner: Option<InnerAst>)
    | Triangle(sides: (real, real), inner: Option<InnerAst>)
    | RMount(depth: real, dir: Direction)
    | Array(dir: Direction, num: nat, body: Ast, vscore: bool)
    | ColumnLayout(coords: Option<(real, real)>, align: Align, inners: seq<Ast>)
    | Wrap(primary: Ast, features: seq<(P.Positioning, Ast)>)
    | Tuple(inners: seq<Ast>)

  /** What `fold_many1` guarantees of every parsed list: columns, tuples and wraps are never empty. */
  predicate WellFormed(a: Ast)
  {
    match a
    case Assign(_, v) => WellFormed(v)
    case Array(_, _, b, _) => WellFormed(b)
    case ColumnLayout(_, _, inners) => |inners| > 0 && forall j :: 0 <= j < |inners| ==> WellFormed(inners[j])
    case Wrap(p, fs) => WellFormed(p) && |fs| > 0 && forall j :: 0 <= j < |fs| ==> WellFormed(fs[j].1)
    case Tuple(inners) => |inners| > 0 && forall j :: 0 <= j < |inners| ==> WellFormed(inners[j])
    case _ => true
  }

  /** Every feature of a list is well formed, stated one element at a time from the end. */
  predicate AllWellFormed(s: seq<Ast>)
    decreases |s|
  {
    |s| == 0 || (AllWellFormed(s[..|s| - 1]) && WellFormed(s[|s| - 1]))
  }

  lemma {:induction false} AllWellFormedAt(s: seq<Ast>)
    requires AllWellFormed(s)
    ensures forall j :: 0 <= j < |s| ==> WellFormed(s[j])
    decreases |s|
  {
    if |s| > 0 {
      var front := s[..|s| - 1];
      AllWellFormedAt(front);
      assert forall j :: 0 <= j < |front| ==> front[j] == s[j];
    }
  }

  /** Every feature of a wrap's list is well formed, from the end. */
  predicate WrapsWellFormed(s: seq<(P.Positioning, Ast)>)
    decreases |s|
  {
    |s| == 0 || (WrapsWellFormed(s[..|s| - 1]) && WellFormed(s[|s| - 1].1))
  }

  lemma {:induction false} WrapsWellFormedAt(s: seq<(P.Positioning, Ast)>)
    requires WrapsWellFormed(s)
    ensures forall j :: 0 <= j < |s| ==> WellFormed(s[j].1)
    decreases |s|
  {
    if |s| > 0 {
      var front := s[..|s| - 1];
      WrapsWellFormedAt(front);
      assert forall j :: 0 <= j < |front| ==> front[j] == s[j];
    }
  }

  // Character-level combinators.

  predicate IsSpace(c: char) { c == ' ' || c == '\t' || c == '\n' || c == '\r' }

  predicate IsIdentChar(c: char) { c == '_' || ('0' <= c <= '9') || ('a' <= c <= 'z') || ('A' <= c <= 'Z') }

  predicate IsUintChar(c: char) { c == '-' || ('0' <= c <= '9') }

  predicate IsFloatChar(c: char) { c == '.' || c == '+' || c == '-' || ('0' <= c <= '9') }

  predicate NotNewline(c: char) { c != '\n' }

  /** `take_while`: the longest prefix whose characters all satisfy `p`, and the rest. */
  function TakeWhile(p: char -> bool, i: string): (r: (string, string))
    ensures r.0 + r.1 == i
    ensures forall j :: 0 <= j < |r.0| ==> p(r.0[j])
    ensures |r.1| > 0 ==> !p(r.1[0])
  {
    if |i| > 0 && p(i[0]) then
      var t := TakeWhile(p, i[1..]);
      ConsRun(p, i, t.0, t.1);
      ([i[0]] + t.0, t.1)
    else ([], i)
  }

  /** Putting back the first character of `i` in front of a run of the rest still satisfies `p` and still splits `i`. */
  lemma ConsRun(p: char -> bool, i: string, run: string, rest: string)
    requires |i| > 0 && p(i[0]) && run + rest == i[1..]
    requires forall j :: 0 <= j < |run| ==> p(run[j])
    ensures [i[0]] + run + rest == i
    ensures forall j :: 0 <= j < |[i[0]] + run| ==> p(([i[0]] + run)[j])
  {
    assert [i[0]] + run + rest == [i[0]] + (run + rest);
    assert [i[0]] + i[1..] == i;
    forall j | 0 <= j < |[i[0]] + run|
      ensures p(([i[0]] + run)[j])
    {
      if j > 0 {
        assert ([i[0]] + run)[j] == run[j - 1];
      }
    }
  }

  /** `multispace0`: skips blanks, tabs and line breaks. */
  function Ws(i: string): (r: string)
    ensures |r| <= |i|
    ensures |r| > 0 ==> !IsSpace(r[0])
  {
    TakeWhile(IsSpace, i).1
  }

  /** `tag`: the exact text `t`. */
  function Tag(t: string, i: string): (r: IResult<()>)
    ensures r.Done? <==> t <= i
    ensures r.Done? ==> |r.rest| == |i| - |t| && r.rest == i[|t|..]
  {
    if t <= i then Done(i[|t|..], ()) else Error
  }

  function LowerChar(c: char): char { if 'A' <= c <= 'Z' then (c as int + 32) as char else c }

  /** `i` starts with `t`, letters compared without regard to case. */
  predicate StartsNoCase(t: string, i: string)
  {
    |t| <= |i| && forall k :: 0 <= k < |t| ==> LowerChar(i[k]) == LowerChar(t[k])
  }

  /** `tag_no_case`: the text `t` in any mix of upper and lower case letters. */
  function TagNoCase(t: string, i: string): (r: IResult<()>)
    ensures r.Done? <==> StartsNoCase(t, i)
    ensures r.Done? ==> |r.rest| == |i| - |t| && r.rest == i[|t|..]
  {
    if StartsNoCase(t, i) then Done(i[|t|..], ())
    else Error
  }

  /** `opt(tag(t))`, where the tag can only fail recoverably. */
  function SkipTag(t: string, i: string): (r: string)
    ensures |r| <= |i|
  {
    if t <= i then i[|t|..] else i
  }

  /** `opt`: a recoverable failure yields `None` and leaves the input `i` unread. */
  function Opt<T>(r: IResult<T>, i: string): IResult<Option<T>>
  {
    match r
    case Done(rest, v) => Done(rest, Some(v))
    case Error => Done(i, None)
    case Failure => Failure
  }

  /** `opt` over a parser that can only fail recoverably: the unread input and what was read, if anything. */
  function Maybe<T>(r: IResult<T>, i: string): (string, Option<T>)
    requires !r.Failure?
  {
    if r.Done? then (r.rest, Some(r.value)) else (i, None)
  }

  /** `cut`: a recoverable failure becomes fatal. */
  function Cut<T>(r: IResult<T>): IResult<T>
  {
    if r.Error? then Failure else r
  }

  /** Two branches of `alt`: the second is tried only after a recoverable failure of the first. */
  function Or<T>(a: IResult<T>, b: IResult<T>): IResult<T>
  {
    if a.Error? then b else a
  }

  /** `map(p, |_| v)`. */
  function Yield<T, U>(r: IResult<T>, v: U): IResult<U>
  {
    match r
    case Done(rest, _) => Done(rest, v)
    case Error => Error
    case Failure => Failure
  }

  // Words and numbers.

  /** `parse_ident`: a possibly empty run of letters, digits and underscores. */
  function Ident(i: string): (r: IResult<string>)
    ensures r.Done? && |r.rest| <= |i|
    ensures forall j :: 0 <= j < |r.value| ==> IsIdentChar(r.value[j])
  {
    var t := TakeWhile(IsIdentChar, Ws(i));
    Done(t.1, t.0)
  }

  /** `parse_uint`: the run of digits and minus signs, converted; a recoverable failure when it does not convert. */
  function Uint(num: Numbers, i: string): (r: IResult<nat>)
    ensures !r.Failure?
    ensures r.Done? ==> |r.rest| < |i|
    ensures r.Done? ==> var t := TakeWhile(IsUintChar, Ws(i)); r.rest == t.1 && Some(r.value) == Convert(num.uint, t.0)
  {
    var t := TakeWhile(IsUintChar, Ws(i));
    match Convert(num.uint, t.0)
    case Some(n) => Done(t.1, n)
    case None => Error
  }

  /** `parse_float`: the run of digits, signs and points, converted; a recoverable failure when it does not convert. */
  function Float(num: Numbers, i: string): (r: IResult<real>)
    ensures !r.Failure?
    ensures r.Done? ==> |r.rest| < |i|
    ensures r.Done? ==> var t := TakeWhile(IsFloatChar, Ws(i)); r.rest == t.1 && Some(r.value) == Convert(num.float, t.0)
  {
    var t := TakeWhile(IsFloatChar, Ws(i));
    match Convert(num.float, t.0)
    case Some(x) => Done(t.1, x)
    case None => Error
  }

  /** `parse_coords`: `(x, y)`. */
  function Coords(num: Numbers, i: string): (r: IResult<(real, real)>)
    ensures !r.Failure?
    ensures r.Done? ==> |r.rest| < |i|
  {
    var a :- Tag("(", Ws(i));
    var x :- Float(num, a.0);
    var b :- Tag(",", Ws(x.0));
    var y :- Float(num, b.0);
    var c :- Tag(")", Ws(y.0));
    Done(c.0, (x.1, y.1))
  }

  // The detail block `<...>`.

  datatype Fragment = Coord(x: real, y: real) | Size(w: real, h: real) | Radius(radius: real) | Rounding(rounding: real) | Extra(n: real)

  datatype Details = Details(coords: Option<(real, real)>, size: Option<(real, real)>, radius: Option<real>,
                             extra: seq<real>, inner: Option<InnerAst>, rounded: Option<real>)

  const NoDetails := Details(None, None, None, [], None, None)

  /** The fold closure of `parse_details`: named fragments overwrite, bare numbers are appended. */
  function Absorb(d: Details, f: Fragment): Details
  {
    match f
    case Coord(x, y) => d.(coords := Some((x, y)))
    case Size(w, h) => d.(size := Some((w, h)))
    case Radius(r) => d.(radius := Some(r))
    case Rounding(r) => d.(rounded := Some(r))
    case Extra(n) => d.(extra := d.extra + [n])
  }

  /** `Details::parse_pos`: `@(x, y)`; after the `@`, the coordinates are required. */
  function PosFragment(num: Numbers, i: string): (r: IResult<Fragment>)
    ensures r.Done? ==> |r.rest| < |i|
  {
    var a :- Tag("@", Ws(i));
    var c :- Cut(Coords(num, a.0));
    Done(c.0, Coord(c.1.0, c.1.1))
  }

  /** `Details::parse_size`: `size = (w, h)` or `s = (w, h)`. */
  function SizeFragment(num: Numbers, i: string): (r: IResult<Fragment>)
    ensures r.Done? ==> |r.rest| < |i|
  {
    var j := Ws(i);
    var a :- Or(TagNoCase("size", j), TagNoCase("s", j));
    var b :- Tag("=", Ws(a.0));
    var c :- Cut(Coords(num, Ws(b.0)));
    Done(c.0, Size(c.1.0, c.1.1))
  }

  /** `Details::parse_radius`: `radius = x` or `r = x`. */
  function RadiusFragment(num: Numbers, i: string): (r: IResult<Fragment>)
    ensures r.Done? ==> |r.rest| < |i|
  {
    var j := Ws(i);
    var a :- Or(TagNoCase("radius", j), TagNoCase("r", j));
    var b :- Tag("=", Ws(a.0));
    var x :- Cut(Float(num, Ws(b.0)));
    Done(x.0, Radius(x.1))
  }

  /** `Details::parse_rounding`: `round = x` (an `r = x` has already been taken as a radius). */
  function RoundingFragment(num: Numbers, i: string): (r: IResult<Fragment>)
    ensures r.Done? ==> |r.rest| < |i|
  {
    var j := Ws(i);
    var a :- Or(TagNoCase("round", j), TagNoCase("r", j));
    var b :- Tag("=", Ws(a.0));
    var x :- Cut(Float(num, Ws(b.0)));
    Done(x.0, Rounding(x.1))
  }

  /** `Details::parse_extra`: a bare number. */
  function ExtraFragment(num: Numbers, i: string): (r: IResult<Fragment>)
    ensures !r.Failure?
    ensures r.Done? ==> |r.rest| < |i|
  {
    var x :- Float(num, i);
    Done(x.0, Extra(x.1))
  }

  /** One fragment of a detail block: position, size, radius, rounding or a bare number, tried in that order. */
  function FragmentForm(num: Numbers, i: string): (r: IResult<Fragment>)
    ensures r.Done? ==> |r.rest| < |i|
  {
    Or(PosFragment(num, i), Or(SizeFragment(num, i), Or(RadiusFragment(num, i), Or(RoundingFragment(num, i), ExtraFragment(num, i)))))
  }

  /** A fragment followed by `multispace0, opt(tag(","))`. */
  function FragmentP(num: Numbers, i: string): (r: IResult<Fragment>)
    ensures r.Done? ==> |r.rest| < |i|
  {
    match FragmentForm(num, i)
    case Done(rest, f) => Done(SkipTag(",", Ws(rest)), f)
    case Error => Error
    case Failure => Failure
  }

  /** `fold_many1`'s left fold of `Absorb` over the fragments, in the order they were read. */
  function AbsorbAll(d: Details, frs: seq<Fragment>): Details
    decreases |frs|
  {
    if |frs| == 0 then d else AbsorbAll(Absorb(d, frs[0]), frs[1..])
  }

  /** The repeating part of `fold_many1`: reads fragments until one fails to parse recoverably. */
  function MoreFragments(num: Numbers, i: string, acc: seq<Fragment>): (r: IResult<seq<Fragment>>)
    ensures !r.Error?
    ensures r.Done? ==> |r.rest| <= |i| && |r.value| >= |acc|
    decreases |i|
  {
    match FragmentP(num, i)
    case Error => Done(i, acc)
    case Failure => Failure
    case Done(rest, f) => MoreFragments(num, rest, acc + [f])
  }

  /** `fold_many1` over the fragments: at least one is required, and they are absorbed from `Details::default()`. */
  function Fragments(num: Numbers, i: string): (r: IResult<Details>)
    ensures r.Done? ==> |r.rest| < |i|
  {
    match FragmentP(num, i)
    case Error => Error
    case Failure => Failure
    case Done(rest, f) =>
      var frs :- MoreFragments(num, rest, [f]);
      Done(frs.0, AbsorbAll(NoDetails, frs.1))
  }

  /** `parse_details`: `<fragments>` followed by an optional inner feature in parentheses. */
  function DetailsP(num: Numbers, i: string): (r: IResult<Details>)
    ensures r.Done? ==> |r.rest| < |i|
    decreases |i|, 0
  {
    var a :- Tag("<", Ws(i));
    var d :- Cut(Fragments(num, Ws(a.0)));
    var b :- Tag(">", d.0);
    DetailsTail(num, d.1, Ws(b.0))
  }

  /** After the `>` of a detail block: the optional inner feature, which is all that changes in `d`. */
  function DetailsTail(num: Numbers, d: Details, j: string): (r: IResult<Details>)
    ensures r.Done? ==> |r.rest| <= |j| && r.value == d.(inner := r.value.inner)
    decreases |j|, 1
  {
    var inner :- Opt(InnerP(num, j), j);
    Done(inner.0, d.(inner := inner.1))
  }

  /** The size rule of rectangles and solder points: an explicit size, else two bare numbers, else one used twice. */
  function SizeRule(d: Details): Option<(real, real)>
  {
    if d.size.Some? then d.size
    else if |d.extra| == 2 then Some((d.extra[0], d.extra[1]))
    else if |d.extra| == 1 then Some((d.extra[0], d.extra[0]))
    else None
  }

  /** The radius rule of circles: an explicit radius, else exactly one bare number. */
  function RadiusRule(d: Details): Option<real>
  {
    if d.radius.Some? then d.radius
    else if |d.extra| == 1 then Some(d.extra[0])
    else None
  }

  // Inner features `(h)`, `(h3)`, `(smiley)`, `(msp)`, `(msp<...>)`.

  /** A screw hole with a diameter, `h<number>`. */
  function SizedHole(num: Numbers, i: string): (r: IResult<InnerAst>)
    ensures r.Done? ==> |r.rest| < |i|
  {
    var a :- Tag("h", i);
    var x :- Float(num, a.0);
    Done(x.0, ScrewHole(x.1))
  }

  /** `parse_inner_msp`: `msp`, optionally with a detail block; a detail block that does not parse is left unread. */
  function MspP(num: Numbers, i: string): (r: IResult<InnerAst>)
    ensures r.Done? ==> |r.rest| < |i|
    decreases |i|, 0
  {
    var a :- TagNoCase("msp", i);
    match DetailsP(num, a.0)
    case Done(rest, d) => Done(rest, MechanicalSolderPoint(SizeRule(d)))
    case _ => Done(a.0, MechanicalSolderPoint(None))
  }

  /** The `alt` inside the brackets of `parse_inner`: `h<number>`, `h` (diameter 3.1), `smiley` or `msp…`, in that order. */
  function InnerForm(num: Numbers, j: string): (r: IResult<InnerAst>)
    ensures r.Done? ==> |r.rest| < |j|
    decreases |j|, 1
  {
    Or(SizedHole(num, j), Or(Yield(Tag("h", j), ScrewHole(3.1)), Or(Yield(Tag("smiley", j), Smiley), MspP(num, j))))
  }

  /** `parse_inner`. */
  function InnerP(num: Numbers, i: string): (r: IResult<InnerAst>)
    ensures r.Done? ==> |r.rest| < |i|
    decreases |i|, 0
  {
    var a :- Tag("(", Ws(i));
    var j := Ws(a.0);
    var v :- InnerForm(num, j);
    var c :- Tag(")", Ws(v.0));
    Done(c.0, v.1)
  }

  // Shapes.

  /** `parse_rect`: `R<...>`. */
  function RectP(num: Numbers, i: string): (r: IResult<Ast>)
    ensures r.Done? ==> |r.rest| < |i| && r.value.Rect?
  {
    var a :- TagNoCase("R", Ws(i));
    var d :- DetailsP(num, a.0);
    Done(d.0, Rect(d.1.coords, SizeRule(d.1), d.1.inner, d.1.rounded))
  }

  /** `parse_circle`: `C<...>`; a fatal failure without a radius. */
  function CircleP(num: Numbers, i: string): (r: IResult<Ast>)
    ensures r.Done? ==> |r.rest| < |i| && r.value.Circle?
  {
    var a :- TagNoCase("C", Ws(i));
    var d :- DetailsP(num, a.0);
    match RadiusRule(d.1)
    case Some(radius) => Done(d.0, Circle(d.1.coords, radius, d.1.inner))
    case None => Failure
  }

  /** `parse_triangle`: `T<...>`; after the `T` the details are required, and a size too. */
  function TriangleP(num: Numbers, i: string): (r: IResult<Ast>)
    ensures r.Done? ==> |r.rest| < |i| && r.value.Triangle?
  {
    var a :- TagNoCase("T", Ws(i));
    var d :- Cut(DetailsP(num, a.0));
    match SizeRule(d.1)
    case Some(sides) => Done(d.0, Triangle(sides, d.1.inner))
    case None => Failure
  }

  /** The keyword of a mount cut, longest first, and the direction it names. */
  function MountKeyword(j: string): (r: IResult<Direction>)
    ensures r.Done? ==> |r.rest| < |j| && LowerChar(j[0]) == 'm' && r.value != Down
  {
    Or(Yield(TagNoCase("mount_cut_left", j), Left),
    Or(Yield(TagNoCase("mount_cut_right", j), Right),
       Yield(TagNoCase("mount_cut", j), Up)))
  }

  /**
   * `parse_rmount`: `mount_cut_left`, `mount_cut_right` or `mount_cut`,
   * then details holding exactly one bare number, the depth. The source
   * maps the matched keyword to a direction; the keyword of each branch
   * gives Left, Right and Up (its arm for `mount_cut_down` matches no
   * branch).
   */
  function RMountP(num: Numbers, i: string): (r: IResult<Ast>)
    ensures r.Done? ==> |r.rest| < |i| && r.value.RMount? && r.value.dir != Down
  {
    var dir :- MountKeyword(Ws(i));
    var d :- Cut(DetailsP(num, dir.0));
    if |d.1.extra| == 1 then Done(d.0, RMount(d.1.extra[0], dir.1)) else Failure
  }

  // Arrays.

  /** The letters `one_of("UDRL")` accepts, as directions. */
  function DirectionLetter(c: char): Option<Direction>
  {
    if c == 'L' then Some(Left)
    else if c == 'R' then Some(Right)
    else if c == 'U' then Some(Up)
    else if c == 'D' then Some(Down)
    else None
  }

  /** `; <letter>` after the count of an array. */
  function DirectionSuffix(i: string): (r: IResult<char>)
    ensures !r.Failure?
    ensures r.Done? ==> |r.rest| < |i| && DirectionLetter(r.value).Some?
  {
    var a :- Tag(";", Ws(i));
    var j := Ws(a.0);
    if |j| > 0 && DirectionLetter(j[0]).Some? then Done(j[1..], j[0]) else Error
  }

  /** `; vscore` or `; v-score` after the count and direction of an array. */
  function VScoreSuffix(i: string): (r: IResult<()>)
    ensures !r.Failure?
    ensures r.Done? ==> |r.rest| < |i|
  {
    var a :- Tag(";", Ws(i));
    var j := Ws(a.0);
    Or(TagNoCase("vscore", j), TagNoCase("v-score", j))
  }

  /** The bracketed prefix `[count; direction; vscore]` with its optional parts. */
  function ArrayParams(num: Numbers, i: string): (r: IResult<(nat, Option<char>, bool)>)
    ensures r.Done? ==> |r.rest| < |i|
  {
    var n :- Uint(num, i);
    var d := Maybe(DirectionSuffix(n.0), n.0);
    var v := Maybe(VScoreSuffix(d.0), d.0);
    Done(v.0, (n.1, d.1, v.1.Some?))
  }

  // The recursive part of the grammar.

  /** `parse_array`: `[...]` followed by the repeated feature; direction Right unless a letter is given. */
  function ArrayP(num: Numbers, i: string): (r: IResult<Ast>)
    ensures r.Done? ==> |r.rest| < |i| && WellFormed(r.value) && r.value.Array?
    decreases |i|, 0
  {
    var a :- Tag("[", Ws(i));
    var p :- Cut(ArrayParams(num, Ws(a.0)));
    var b :- Tag("]", p.0);
    ArrayBody(num, p.1, Ws(b.0))
  }

  /** The repeated feature after the bracketed prefix of an array, and the array it makes. */
  function ArrayBody(num: Numbers, p: (nat, Option<char>, bool), j: string): (r: IResult<Ast>)
    ensures r.Done? ==> |r.rest| < |j| && WellFormed(r.value) && r.value.Array?
    decreases |j|, 2
  {
    var g :- GeoP(num, j);
    match p.1
    case None => Done(g.0, Array(Right, p.0, g.1, p.2))
    case Some(c) =>
      match DirectionLetter(c)
      case Some(dir) => Done(g.0, Array(dir, p.0, g.1, p.2))
      case None => Failure
  }

  /** `@(x, y)` after the alignment of a column. */
  function AtCoords(num: Numbers, i: string): (r: IResult<(real, real)>)
    ensures !r.Failure?
    ensures r.Done? ==> |r.rest| < |i|
  {
    var a :- Tag("@", i);
    Coords(num, a.0)
  }

  /** The alignment keyword of a column: `left`, `center` or `right`, giving Start, Center and End. */
  function ColumnAlign(j: string): (r: IResult<Align>)
    ensures r.Done? ==> |r.rest| < |j|
  {
    Or(Yield(TagNoCase("left", j), Start), Or(Yield(TagNoCase("center", j), Center), Yield(TagNoCase("right", j), End)))
  }

  /** The head of a column, `column left|center|right [@(x, y)] {`. */
  function ColumnHead(num: Numbers, i: string): (r: IResult<(Align, Option<(real, real)>)>)
    ensures r.Done? ==> |r.rest| < |i|
  {
    var a :- TagNoCase("column", Ws(i));
    var align :- ColumnAlign(Ws(a.0));
    ColumnHeadTail(num, align.1, Ws(align.0))
  }

  /** The rest of a column's head once its alignment is read: `[@(x, y)] {`. */
  function ColumnHeadTail(num: Numbers, align: Align, k: string): (r: IResult<(Align, Option<(real, real)>)>)
    ensures r.Done? ==> |r.rest| < |k| && r.value.0 == align
  {
    var at := Maybe(AtCoords(num, k), k);
    var b :- Tag("{", Ws(at.0));
    Done(b.0, (align, at.1))
  }

  /** `parse_column_layout`: the head, the features, and `}`. */
  function ColumnP(num: Numbers, i: string): (r: IResult<Ast>)
    ensures r.Done? ==> |r.rest| < |i| && WellFormed(r.value) && r.value.ColumnLayout?
    decreases |i|, 0
  {
    var h :- ColumnHead(num, i);
    var items :- GeoItems(num, h.0, false);
    AllWellFormedAt(items.1);
    var e :- Tag("}", items.0);
    Done(Ws(e.0), ColumnLayout(h.1.1, h.1.0, items.1))
  }

  /** `align center|exterior|interior` in a position spec: Center, End and Start. */
  function AlignClause(i: string): (r: IResult<Align>)
    ensures !r.Failure?
    ensures r.Done? ==> |r.rest| < |i|
  {
    var a :- TagNoCase("align", Ws(i));
    var j := Ws(a.0);
    var al :- Or(Yield(TagNoCase("center", j), Center), Or(Yield(TagNoCase("exterior", j), End), Yield(TagNoCase("interior", j), Start)));
    Done(Ws(al.0), al.1)
  }

  /** The side keyword of a position spec; `top` is a synonym of `up` and `bottom` of `down`. */
  function Side(j: string): (r: IResult<Direction>)
    ensures r.Done? ==> |r.rest| < |j|
  {
    Or(Yield(TagNoCase("left", j), Left),
    Or(Yield(TagNoCase("right", j), Right),
    Or(Yield(TagNoCase("up", j), Up),
    Or(Yield(TagNoCase("down", j), Down),
    Or(Yield(TagNoCase("top", j), Up),
       Yield(TagNoCase("bottom", j), Down))))))
  }

  /** `parse_pos_spec`: `side [offset] [align ...] =>`. */
  function PosSpecP(num: Numbers, i: string): (r: IResult<P.Positioning>)
    ensures r.Done? ==> |r.rest| < |i|
  {
    var side :- Side(Ws(i));
    var k := Ws(side.0);
    var off := Maybe(Float(num, k), k);
    PosSpecTail(side.1, match off.1 case Some(x) => x case None => 0.0, Ws(off.0))
  }

  /** The rest of a position spec once the side and the offset are read: `[align ...] =>`. */
  function PosSpecTail(side: Direction, offset: real, m: string): (r: IResult<P.Positioning>)
    ensures r.Done? ==> |r.rest| < |m| && r.value.side == side && r.value.centerlineAdjustment == offset
  {
    var al := Maybe(AlignClause(m), m);
    var e :- Tag("=>", al.0);
    Done(e.0, P.Positioning(side, offset, match al.1 case Some(x) => x case None => Center))
  }

  /** `parse_wrap`: `wrap (feature) with { spec => feature, ... }`. */
  function WrapP(num: Numbers, i: string): (r: IResult<Ast>)
    ensures r.Done? ==> |r.rest| < |i| && WellFormed(r.value) && r.value.Wrap?
    decreases |i|, 0
  {
    var a :- TagNoCase("wrap", Ws(i));
    var b :- Tag("(", Ws(a.0));
    var g :- GeoP(num, b.0);
    var c :- Tag(")", Ws(g.0));
    WrapBody(num, g.1, Ws(c.0))
  }

  /** The part of a wrap after its bracketed feature: `with { spec => feature, ... }`. */
  function WrapBody(num: Numbers, primary: Ast, j: string): (r: IResult<Ast>)
    requires WellFormed(primary)
    ensures r.Done? ==> |r.rest| < |j| && WellFormed(r.value) && r.value.Wrap?
    decreases |j|, 0
  {
    var d :- TagNoCase("with", Ws(j));
    var e :- Tag("{", Ws(d.0));
    var items :- WrapItems(num, e.0);
    var f :- Tag("}", Ws(items.0));
    WrapsWellFormedAt(items.1);
    Done(Ws(f.0), Wrap(primary, items.1))
  }

  /** One `spec => feature` element of a wrap, with its trailing comma. */
  function WrapItem(num: Numbers, i: string): (r: IResult<(P.Positioning, Ast)>)
    ensures r.Done? ==> |r.rest| < |i| && WellFormed(r.value.1)
    decreases |i|, 2
  {
    var p :- PosSpecP(num, i);
    var g :- GeoP(num, Ws(p.0));
    Done(SkipTag(",", Ws(g.0)), (p.1, g.1))
  }

  /** `fold_many1` over the elements of a wrap. */
  function WrapItems(num: Numbers, i: string): (r: IResult<seq<(P.Positioning, Ast)>>)
    ensures r.Done? ==> |r.rest| < |i| && |r.value| > 0 && WrapsWellFormed(r.value)
    decreases |i|, 3
  {
    match WrapItem(num, i)
    case Error => Error
    case Failure => Failure
    case Done(rest, e) =>
      assert [e][..0] == [];
      MoreWrapItems(num, rest, [e])
  }

  function MoreWrapItems(num: Numbers, i: string, acc: seq<(P.Positioning, Ast)>): (r: IResult<seq<(P.Positioning, Ast)>>)
    requires WrapsWellFormed(acc)
    ensures r.Done? ==> |r.rest| <= |i| && |r.value| >= |acc|
    ensures r.Done? ==> WrapsWellFormed(r.value)
    decreases |i|, 3
  {
    match WrapItem(num, i)
    case Error => Done(i, acc)
    case Failure => Failure
    case Done(rest, e) =>
      assert (acc + [e])[..|acc|] == acc;
      MoreWrapItems(num, rest, acc + [e])
  }

  /** `parse_assign`: `let name = feature`, optionally followed by `;`. */
  function AssignP(num: Numbers, i: string): (r: IResult<Ast>)
    ensures r.Done? ==> |r.rest| < |i| && WellFormed(r.value) && r.value.Assign?
    ensures r.Done? ==> forall j :: 0 <= j < |r.value.name| ==> IsIdentChar(r.value.name[j])
    decreases |i|, 0
  {
    var a :- Tag("let", Ws(i));
    var n := Ident(Ws(a.0));
    var e :- Tag("=", Ws(n.rest));
    var g :- GeoP(num, e.0);
    Done(SkipTag(";", Ws(g.0)), Assign(n.value, g.1))
  }

  /** `parse_var`: `$name`. */
  function VarP(i: string): (r: IResult<Ast>)
    ensures r.Done? ==> |r.rest| < |i| && r.value.VarRef?
    ensures r.Done? ==> forall j :: 0 <= j < |r.value.name| ==> IsIdentChar(r.value.name[j])
  {
    var a :- Tag("$", Ws(i));
    var n := Ident(a.0);
    Done(n.rest, VarRef(n.value))
  }

  /** `parse_comment`: `#` up to the end of the line. */
  function CommentP(i: string): (r: IResult<Ast>)
    ensures r.Done? ==> |r.rest| < |i| && r.value.Comment?
    ensures r.Done? ==> (forall j :: 0 <= j < |r.value.text| ==> r.value.text[j] != '\n') && (|r.rest| > 0 ==> r.rest[0] == '\n')
  {
    var a :- Tag("#", Ws(i));
    var t := TakeWhile(NotNewline, a.0);
    Done(t.1, Comment(t.0))
  }

  /** `parse_tuple`: `(feature, feature, ...)`. */
  function TupleP(num: Numbers, i: string): (r: IResult<Ast>)
    ensures r.Done? ==> |r.rest| < |i| && WellFormed(r.value) && r.value.Tuple?
    decreases |i|, 0
  {
    var a :- Tag("(", Ws(i));
    var items :- GeoItems(num, a.0, true);
    AllWellFormedAt(items.1);
    var e :- Tag(")", Ws(items.0));
    Done(Ws(e.0), Tuple(items.1))
  }

  /** `fold_many1` over the features of a column (`lead` false) or a tuple (`lead` true, blanks skipped first). */
  function GeoItems(num: Numbers, i: string, lead: bool): (r: IResult<seq<Ast>>)
    ensures r.Done? ==> |r.rest| < |i| && |r.value| > 0 && AllWellFormed(r.value)
    decreases |i|, 2
  {
    var j := if lead then Ws(i) else i;
    match GeoP(num, j)
    case Error => Error
    case Failure => Failure
    case Done(rest, g) =>
      assert [g][..0] == [];
      MoreGeoItems(num, SkipTag(",", Ws(rest)), [g], lead)
  }

  function MoreGeoItems(num: Numbers, i: string, acc: seq<Ast>, lead: bool): (r: IResult<seq<Ast>>)
    requires AllWellFormed(acc)
    ensures r.Done? ==> |r.rest| <= |i| && |r.value| >= |acc|
    ensures r.Done? ==> AllWellFormed(r.value)
    decreases |i|, 2
  {
    var j := if lead then Ws(i) else i;
    match GeoP(num, j)
    case Error => Done(i, acc)
    case Failure => Failure
    case Done(rest, g) =>
      assert (acc + [g])[..|acc|] == acc;
      MoreGeoItems(num, SkipTag(",", Ws(rest)), acc + [g], lead)
  }

  /** `parse_geo`: the eleven kinds of item, tried in order. */
  function GeoP(num: Numbers, i: string): (r: IResult<Ast>)
    ensures r.Done? ==> |r.rest| < |i| && WellFormed(r.value)
    decreases |i|, 1
  {
    Or(AssignP(num, i),
    Or(ArrayP(num, i),
    Or(RectP(num, i),
    Or(CircleP(num, i),
    Or(TriangleP(num, i),
    Or(RMountP(num, i),
    Or(WrapP(num, i),
    Or(ColumnP(num, i),
    Or(VarP(i),
    Or(TupleP(num, i),
       CommentP(i)))))))))))
  }

  /** `many0(parse_geo)`: items until one fails recoverably. */
  function Items(num: Numbers, i: string, acc: seq<Ast>): (r: IResult<seq<Ast>>)
    requires AllWellFormed(acc)
    ensures !r.Error?
    ensures r.Done? ==> |r.rest| <= |i| && AllWellFormed(r.value)
    decreases |i|, 2
  {
    match GeoP(num, i)
    case Error => Done(i, acc)
    case Failure => Failure
    case Done(rest, g) =>
      assert (acc + [g])[..|acc|] == acc;
      Items(num, rest, acc + [g])
  }

  /** `all_consuming(tuple((many0(parse_geo), multispace0)))`: the whole spec, or a parse error. */
  function Spec(num: Numbers, i: string): (r: IResult<seq<Ast>>)
    ensures r.Done? ==> r.rest == [] && forall j :: 0 <= j < |r.value| ==> WellFormed(r.value[j])
  {
    var g :- Items(num, i, []);
    AllWellFormedAt(g.1);
    if |Ws(g.0)| == 0 then Done([], g.1) else Error
  }
}
