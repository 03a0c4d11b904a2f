/**
 * drill.rs: an Excellon drill file for the drills of one plating kind.
 * The file is modelled as its sequence of lines. The `{:.4}` decimal
 * formatter is a parameter, and the order in which the diameter table is
 * enumerated (a hash-map key order in the program) is chosen freely.
 */
module Drill {
  import opened Wrappers
  import G = Geo
  import A = Atoms
  import S = Strings

  /** The `{:.4}` rendering of a number. */
  type Format = real -> string

  /** A line of the file: fixed text, a tool definition `T{k}C{d}`, a tool select `T{k}`, or a hole `X{x}Y{y}`. */
  datatype Line =
    | Text(s: string)
    | ToolDef(tool: nat, dia: string)
    | Select(tool: nat)
    | Hole(x: string, y: string)

  /** The text of a line, without its newline. */
  function Render(l: Line): string
  {
    match l
    case Text(s) => s
    case ToolDef(t, d) => "T" + S.NatToString(t) + "C" + d
    case Select(t) => "T" + S.NatToString(t)
    case Hole(x, y) => "X" + x + "Y" + y
  }

  /** Two select lines read alike only when they name the same tool. */
  lemma SelectRenderInjective(t: nat, u: nat)
    requires Render(Select(t)) == Render(Select(u))
    ensures t == u
  {
    assert Render(Select(t))[1..] == S.NatToString(t);
    assert Render(Select(u))[1..] == S.NatToString(u);
    S.NatToStringInjective(t, u);
  }

  /** M48 starts the header; format 2 commands; inches with trailing zeros kept. */
  const Header: seq<Line> := [
    Text("M48"),
    Text(";DRILL file {KiCad 5.0.2 compatible}"),
    Text(";FORMAT={-:-/ absolute / inch / decimal}"),
    Text("FMAT,2"),
    Text("INCH,TZ")]

  /** `%` rewinds (the end of the header), `G90` selects absolute mode and `G05` drill mode. */
  const Preamble: seq<Line> := [Text("%"), Text("G90"), Text("G05")]

  /** `T0` unloads the tool and `M30` ends the file. */
  const Trailer: seq<Line> := [Text("T0"), Text("M30")]

  /** The atoms this file is about: drills whose plating is the one asked for. */
  predicate Wanted(a: A.InnerAtom, wantPlated: bool)
  {
    a.Drill? && a.plated == wantPlated
  }

  /** The table key of a drill: its diameter in inches, formatted. */
  function DiaKey(fmt: Format, a: A.InnerAtom): string
    requires a.Drill?
  {
    fmt(a.radius * 2.0 / 25.4)
  }

  /** The hole line of a drill: its centre in inches, formatted. */
  function HoleLine(fmt: Format, a: A.InnerAtom): Line
    requires a.Drill?
  {
    Hole(fmt(a.center.x / 25.4), fmt(a.center.y / 25.4))
  }

  /** The distinct diameters of the wanted drills. */
  function Diameters(fmt: Format, fs: seq<A.InnerAtom>, want: bool): set<string>
  {
    if |fs| == 0 then {}
    else
      var last := fs[|fs| - 1];
      Diameters(fmt, fs[..|fs| - 1], want) + (if Wanted(last, want) then {DiaKey(fmt, last)} else {})
  }

  /** A diameter is in the table exactly when some wanted drill has it. */
  lemma {:induction false} DiametersMembers(fmt: Format, fs: seq<A.InnerAtom>, want: bool, d: string)
    ensures d in Diameters(fmt, fs, want) <==> exists i :: 0 <= i < |fs| && Wanted(fs[i], want) && DiaKey(fmt, fs[i]) == d
    decreases |fs|
  {
    if |fs| > 0 {
      var front := fs[..|fs| - 1];
      DiametersMembers(fmt, front, want, d);
      if d in Diameters(fmt, front, want) {
        var i :| 0 <= i < |front| && Wanted(front[i], want) && DiaKey(fmt, front[i]) == d;
        assert fs[i] == front[i];
      }
      if exists i :: 0 <= i < |fs| && Wanted(fs[i], want) && DiaKey(fmt, fs[i]) == d {
        var i :| 0 <= i < |fs| && Wanted(fs[i], want) && DiaKey(fmt, fs[i]) == d;
        if i < |front| {
          assert front[i] == fs[i];
        }
      }
    }
  }

  /** `tools` lists each element of `keys` exactly once. */
  ghost predicate Enumerates(tools: seq<string>, keys: set<string>)
  {
    (forall i, j :: 0 <= i < j < |tools| ==> tools[i] != tools[j])
    && (forall d :: d in keys <==> d in tools)
  }

  /** Every wanted drill has its diameter in the table. */
  predicate Covers(fmt: Format, tools: seq<string>, fs: seq<A.InnerAtom>, want: bool)
  {
    forall i :: 0 <= i < |fs| && Wanted(fs[i], want) ==> DiaKey(fmt, fs[i]) in tools
  }

  /** Dropping the first atom keeps the table covering. */
  lemma {:induction false} CoversRest(fmt: Format, tools: seq<string>, fs: seq<A.InnerAtom>, want: bool)
    requires |fs| > 0 && Covers(fmt, tools, fs, want)
    ensures Covers(fmt, tools, fs[1..], want)
  {
    forall i | 0 <= i < |fs[1..]| && Wanted(fs[1..][i], want)
      ensures DiaKey(fmt, fs[1..][i]) in tools
    {
      assert fs[1..][i] == fs[i + 1];
    }
  }

  /** The first position of `d` in `tools`. */
  function IndexOf(tools: seq<string>, d: string): (r: nat)
    requires d in tools
    ensures r < |tools| && tools[r] == d
    ensures forall j :: 0 <= j < r ==> tools[j] != d
  {
    if tools[0] == d then 0 else 1 + IndexOf(tools[1..], d)
  }

  /** The tool number (counted from 1) a wanted drill is drilled with. */
  function ToolOf(fmt: Format, tools: seq<string>, a: A.InnerAtom): nat
    requires a.Drill? && DiaKey(fmt, a) in tools
  {
    IndexOf(tools, DiaKey(fmt, a)) + 1
  }

  /** The tool table: tool `i + 1` is the `i`-th diameter. */
  function ToolTable(tools: seq<string>): (r: seq<Line>)
    ensures |r| == |tools|
    ensures forall i :: 0 <= i < |r| ==> r[i] == ToolDef(i + 1, tools[i])
  {
    seq(|tools|, i requires 0 <= i < |tools| => ToolDef(i + 1, tools[i]))
  }

  /**
   * The drilling part, from the first drill of `fs` on, when tool `cur`
   * is loaded: a select line whenever a drill needs another tool than the
   * loaded one, then its hole line.
   */
  function Body(fmt: Format, tools: seq<string>, fs: seq<A.InnerAtom>, want: bool, cur: Option<nat>): seq<Line>
    requires Covers(fmt, tools, fs, want)
    decreases |fs|
  {
    if |fs| == 0 then []
    else
      CoversRest(fmt, tools, fs, want);
      if Wanted(fs[0], want) then
        var t := ToolOf(fmt, tools, fs[0]);
        (if cur != Some(t) then [Select(t)] else []) + [HoleLine(fmt, fs[0])] + Body(fmt, tools, fs[1..], want, Some(t))
      else Body(fmt, tools, fs[1..], want, cur)
  }

  /** The whole file for the wanted drills of `fs`, with the diameters enumerated as `tools`. */
  function Output(fmt: Format, tools: seq<string>, fs: seq<A.InnerAtom>, want: bool): seq<Line>
    requires Covers(fmt, tools, fs, want)
  {
    Header + ToolTable(tools) + Preamble + Body(fmt, tools, fs, want, None) + Trailer
  }

  // The program.

  /** The first loop of `serialize`: the diameters of the wanted drills, as the keys of a map. */
  method CollectDiameters(fmt: Format, fs: seq<A.InnerAtom>, want: bool) returns (dias: map<string, ()>)
    ensures dias.Keys == Diameters(fmt, fs, want)
  {
    dias := map[];
    var i := 0;
    while i < |fs|
      invariant 0 <= i <= |fs|
      invariant dias.Keys == Diameters(fmt, fs[..i], want)
    {
      assert fs[..i + 1][..i] == fs[..i];
      if fs[i].Drill? && fs[i].plated == want {
        var diaInches := fmt(fs[i].radius * 2.0 / 25.4);
        dias := dias[diaInches := ()];
      }
      i := i + 1;
    }
    assert fs[..i] == fs;
  }

  /** `circle_dia.keys().enumerate()`: the keys in some order, each once. */
  method EnumerateKeys(dias: map<string, ()>) returns (tools: seq<string>)
    ensures Enumerates(tools, dias.Keys)
  {
    tools := [];
    var rest := dias.Keys;
    while rest != {}
      invariant rest !! (set d | d in tools)
      invariant forall d :: d in dias.Keys <==> d in rest || d in tools
      invariant forall i, j :: 0 <= i < j < |tools| ==> tools[i] != tools[j]
      decreases rest
    {
      var d :| d in rest;
      tools := tools + [d];
      rest := rest - {d};
    }
  }

  /** The tool lookup of the second loop: the position of the drill's diameter in the table. */
  method FindTool(tools: seq<string>, d: string) returns (idx: nat)
    requires d in tools
    ensures idx == IndexOf(tools, d)
  {
    idx := 0;
    while tools[idx] != d
      invariant idx < |tools| && d in tools[idx..]
      invariant IndexOf(tools, d) == idx + IndexOf(tools[idx..], d)
      decreases |tools| - idx
    {
      assert tools[idx..][1..] == tools[idx + 1..];
      idx := idx + 1;
    }
  }

  /** `serialize`: the header, the tool table, the drilling part and the trailer. */
  method Serialize(fmt: Format, fs: seq<A.InnerAtom>, want: bool) returns (lines: seq<Line>, ghost tools: seq<string>)
    ensures Enumerates(tools, Diameters(fmt, fs, want))
    ensures Covers(fmt, tools, fs, want)
    ensures lines == Output(fmt, tools, fs, want)
  {
    lines := Header;
    var dias := CollectDiameters(fmt, fs, want);
    var circleTools := EnumerateKeys(dias);
    tools := circleTools;
    TableCovers(fmt, circleTools, fs, want);
    var i := 0;
    while i < |circleTools|
      invariant 0 <= i <= |circleTools|
      invariant lines == Header + ToolTable(circleTools)[..i]
    {
      assert ToolTable(circleTools)[..i + 1] == ToolTable(circleTools)[..i] + [ToolDef(i + 1, circleTools[i])];
      lines := lines + [ToolDef(i + 1, circleTools[i])];
      i := i + 1;
    }
    assert ToolTable(circleTools)[..i] == ToolTable(circleTools);
    lines := lines + Preamble;
    var body := DrillHoles(fmt, circleTools, fs, want);
    lines := lines + body + Trailer;
  }

  /** The second loop of `serialize`, with `current_tool` tracking the loaded tool. */
  method DrillHoles(fmt: Format, tools: seq<string>, fs: seq<A.InnerAtom>, want: bool) returns (body: seq<Line>)
    requires Covers(fmt, tools, fs, want)
    ensures body == Body(fmt, tools, fs, want, None)
  {
    body := [];
    var currentTool: Option<nat> := None;
    var i := 0;
    while i < |fs|
      invariant 0 <= i <= |fs|
      invariant Covers(fmt, tools, fs[i..], want)
      invariant body + Body(fmt, tools, fs[i..], want, currentTool) == Body(fmt, tools, fs, want, None)
    {
      BodyAt(fmt, tools, fs, want, i, currentTool);
      ghost var before, loaded := body, currentTool;
      if fs[i].Drill? && fs[i].plated == want {
        var idx := FindTool(tools, fmt(fs[i].radius * 2.0 / 25.4));
        if currentTool != Some(idx + 1) {
          body := body + [Select(idx + 1)];
          currentTool := Some(idx + 1);
        }
        body := body + [Hole(fmt(fs[i].center.x / 25.4), fmt(fs[i].center.y / 25.4))];
        LinesAssoc(before, if loaded != Some(idx + 1) then [Select(idx + 1)] else [], [HoleLine(fmt, fs[i])],
          Body(fmt, tools, fs[i + 1..], want, Some(idx + 1)));
      }
      i := i + 1;
    }
  }

  /** One step of the drilling part: the lines drill `i` contributes, then the rest. */
  lemma BodyAt(fmt: Format, tools: seq<string>, fs: seq<A.InnerAtom>, want: bool, i: nat, cur: Option<nat>)
    requires i < |fs| && Covers(fmt, tools, fs[i..], want)
    ensures Covers(fmt, tools, fs[i + 1..], want)
    ensures Wanted(fs[i], want) ==>
      && DiaKey(fmt, fs[i]) in tools
      && Body(fmt, tools, fs[i..], want, cur)
         == (if cur != Some(ToolOf(fmt, tools, fs[i])) then [Select(ToolOf(fmt, tools, fs[i]))] else [])
            + [HoleLine(fmt, fs[i])] + Body(fmt, tools, fs[i + 1..], want, Some(ToolOf(fmt, tools, fs[i])))
    ensures !Wanted(fs[i], want) ==> Body(fmt, tools, fs[i..], want, cur) == Body(fmt, tools, fs[i + 1..], want, cur)
  {
    assert fs[i..][0] == fs[i] && fs[i..][1..] == fs[i + 1..];
    CoversRest(fmt, tools, fs[i..], want);
  }

  lemma LinesAssoc(a: seq<Line>, b: seq<Line>, c: seq<Line>, d: seq<Line>)
    ensures a + b + c + d == a + (b + c + d)
  {
  }

  /** A table that enumerates the diameters has a tool for every wanted drill. */
  lemma TableCovers(fmt: Format, tools: seq<string>, fs: seq<A.InnerAtom>, want: bool)
    requires Enumerates(tools, Diameters(fmt, fs, want))
    ensures Covers(fmt, tools, fs, want)
  {
    forall i | 0 <= i < |fs| && Wanted(fs[i], want)
      ensures DiaKey(fmt, fs[i]) in tools
    {
      DiametersMembers(fmt, fs, want, DiaKey(fmt, fs[i]));
    }
  }

  // What a machine reading the file does.

  /** The tool loaded after reading `lines` with `cur` loaded before. */
  function Loaded(lines: seq<Line>, cur: Option<nat>): Option<nat>
  {
    if |lines| == 0 then cur
    else Loaded(lines[1..], if lines[0].Select? then Some(lines[0].tool) else cur)
  }

  /** The holes drilled when reading `lines`, each with the tool loaded at that point. */
  function Replay(lines: seq<Line>, cur: Option<nat>): seq<(Option<nat>, Line)>
  {
    if |lines| == 0 then []
    else if lines[0].Select? then Replay(lines[1..], Some(lines[0].tool))
    else if lines[0].Hole? then [(cur, lines[0])] + Replay(lines[1..], cur)
    else Replay(lines[1..], cur)
  }

  /** The tool loaded after reading two pieces one after the other. */
  lemma {:induction false} LoadedAppend(a: seq<Line>, b: seq<Line>, cur: Option<nat>)
    ensures Loaded(a + b, cur) == Loaded(b, Loaded(a, cur))
    decreases |a|
  {
    if |a| > 0 {
      assert (a + b)[0] == a[0] && (a + b)[1..] == a[1..] + b;
      LoadedAppend(a[1..], b, if a[0].Select? then Some(a[0].tool) else cur);
    } else {
      assert a + b == b;
    }
  }

  /** Reading two pieces one after the other. */
  lemma {:induction false} ReplayAppend(a: seq<Line>, b: seq<Line>, cur: Option<nat>)
    ensures Replay(a + b, cur) == Replay(a, cur) + Replay(b, Loaded(a, cur))
    ensures Loaded(a + b, cur) == Loaded(b, Loaded(a, cur))
    decreases |a|
  {
    LoadedAppend(a, b, cur);
    if |a| > 0 {
      var next := if a[0].Select? then Some(a[0].tool) else cur;
      assert (a + b)[0] == a[0] && (a + b)[1..] == a[1..] + b;
      assert Loaded(a, cur) == Loaded(a[1..], next);
      ReplayAppend(a[1..], b, next);
      var r1, r2 := Replay(a[1..], next), Replay(b, Loaded(a, cur));
      if a[0].Hole? {
        HoleAssoc((cur, a[0]), r1, r2);
      }
    } else {
      assert a + b == b;
    }
  }

  lemma HoleAssoc(h: (Option<nat>, Line), r1: seq<(Option<nat>, Line)>, r2: seq<(Option<nat>, Line)>)
    ensures [h] + (r1 + r2) == ([h] + r1) + r2
  {
  }

  /** Lines that neither select a tool nor drill leave the machine as it was. */
  lemma {:induction false} ReplayInert(lines: seq<Line>, cur: Option<nat>)
    requires forall i :: 0 <= i < |lines| ==> !lines[i].Select? && !lines[i].Hole?
    ensures Replay(lines, cur) == [] && Loaded(lines, cur) == cur
    decreases |lines|
  {
    if |lines| > 0 {
      ReplayInert(lines[1..], cur);
    }
  }

  /** The wanted drills of `fs`, each with the tool it needs and its hole line, in input order. */
  function Holes(fmt: Format, tools: seq<string>, fs: seq<A.InnerAtom>, want: bool): seq<(Option<nat>, Line)>
    requires Covers(fmt, tools, fs, want)
    decreases |fs|
  {
    if |fs| == 0 then []
    else
      CoversRest(fmt, tools, fs, want);
      (if Wanted(fs[0], want) then [(Some(ToolOf(fmt, tools, fs[0])), HoleLine(fmt, fs[0]))] else [])
        + Holes(fmt, tools, fs[1..], want)
  }

  /** The drilling part drills every wanted drill, in order, with the tool of its diameter. */
  lemma {:induction false} BodyReplay(fmt: Format, tools: seq<string>, fs: seq<A.InnerAtom>, want: bool, cur: Option<nat>)
    requires Covers(fmt, tools, fs, want)
    ensures Replay(Body(fmt, tools, fs, want, cur), cur) == Holes(fmt, tools, fs, want)
    decreases |fs|
  {
    if |fs| > 0 {
      var rest := Body(fmt, tools, fs[1..], want, if Wanted(fs[0], want) then Some(ToolOf(fmt, tools, fs[0])) else cur);
      if Wanted(fs[0], want) {
        var t := ToolOf(fmt, tools, fs[0]);
        var sel: seq<Line> := if cur != Some(t) then [Select(t)] else [];
        var h := [HoleLine(fmt, fs[0])];
        BodyReplay(fmt, tools, fs[1..], want, Some(t));
        ReplayAppend(sel + h, rest, cur);
        ReplayAppend(sel, h, cur);
        ReplayAppend(h, [], Loaded(sel, cur));
        assert Loaded(sel, cur) == Some(t) by {
          if cur != Some(t) {
            ReplayAppend(sel, [], cur);
          }
        }
        assert Replay(sel, cur) == [] by {
          if cur != Some(t) {
            ReplayAppend(sel, [], cur);
          }
        }
      } else {
        BodyReplay(fmt, tools, fs[1..], want, cur);
      }
    }
  }

  /**
   * Reading the whole file drills exactly the wanted drills, in input
   * order, each after a select of the tool whose table line carries its
   * diameter; the first hole is preceded by a select because no tool is
   * loaded at the start.
   */
  lemma DrillsInOrder(fmt: Format, tools: seq<string>, fs: seq<A.InnerAtom>, want: bool)
    requires Covers(fmt, tools, fs, want)
    ensures Replay(Output(fmt, tools, fs, want), None) == Holes(fmt, tools, fs, want)
  {
    var head := Header + ToolTable(tools) + Preamble;
    var body := Body(fmt, tools, fs, want, None);
    assert Output(fmt, tools, fs, want) == head + body + Trailer;
    ReplayInert(head, None);
    ReplayInert(Trailer, Loaded(body, None));
    ReplayAppend(head, body, None);
    ReplayAppend(head + body, Trailer, None);
    BodyReplay(fmt, tools, fs, want, None);
  }

  /** There is one hole per wanted drill. */
  lemma {:induction false} HolesLength(fmt: Format, tools: seq<string>, fs: seq<A.InnerAtom>, want: bool)
    requires Covers(fmt, tools, fs, want)
    ensures |Holes(fmt, tools, fs, want)| == |WantedOnly(fs, want)|
    decreases |fs|
  {
    if |fs| > 0 {
      CoversRest(fmt, tools, fs, want);
      HolesLength(fmt, tools, fs[1..], want);
    }
  }

  /**
   * Hole `h` drills atom `a`: `a` is a wanted drill whose diameter is in
   * the table, and `h` is its hole line under the tool whose table line
   * carries that diameter.
   */
  predicate DrilledAs(fmt: Format, tools: seq<string>, want: bool, a: A.InnerAtom, h: (Option<nat>, Line))
  {
    && Wanted(a, want) && DiaKey(fmt, a) in tools
    && h == (Some(ToolOf(fmt, tools, a)), HoleLine(fmt, a))
    && 1 <= ToolOf(fmt, tools, a) <= |tools|
    && ToolTable(tools)[ToolOf(fmt, tools, a) - 1] == ToolDef(ToolOf(fmt, tools, a), DiaKey(fmt, a))
  }

  /** A wanted drill, once covered by the table, is drilled as its hole line with its own tool. */
  lemma WantedDrilled(fmt: Format, tools: seq<string>, a: A.InnerAtom, want: bool)
    requires Wanted(a, want) && DiaKey(fmt, a) in tools
    ensures DrilledAs(fmt, tools, want, a, (Some(ToolOf(fmt, tools, a)), HoleLine(fmt, a)))
  {
  }

  /** Hole `k` is the `k`-th wanted drill, drilled with the tool whose table line carries that drill's diameter. */
  lemma {:induction false} HoleIsWantedDrill(fmt: Format, tools: seq<string>, fs: seq<A.InnerAtom>, want: bool, k: nat)
    requires Covers(fmt, tools, fs, want) && k < |WantedOnly(fs, want)|
    ensures k < |Holes(fmt, tools, fs, want)|
    ensures DrilledAs(fmt, tools, want, WantedOnly(fs, want)[k], Holes(fmt, tools, fs, want)[k])
    decreases |fs|
  {
    HolesLength(fmt, tools, fs, want);
    CoversRest(fmt, tools, fs, want);
    var w, wr := WantedOnly(fs, want), WantedOnly(fs[1..], want);
    var hs, hr := Holes(fmt, tools, fs, want), Holes(fmt, tools, fs[1..], want);
    if Wanted(fs[0], want) {
      assert w == [fs[0]] + wr;
      assert hs == [(Some(ToolOf(fmt, tools, fs[0])), HoleLine(fmt, fs[0]))] + hr;
      if k > 0 {
        HoleIsWantedDrill(fmt, tools, fs[1..], want, k - 1);
        assert w[k] == wr[k - 1] && hs[k] == hr[k - 1];
      } else {
        WantedDrilled(fmt, tools, fs[0], want);
      }
    } else {
      assert w == wr && hs == hr;
      HoleIsWantedDrill(fmt, tools, fs[1..], want, k);
    }
  }

  /** No select line names the tool that is already loaded. */
  predicate NoRedundantSelect(lines: seq<Line>, cur: Option<nat>)
    decreases |lines|
  {
    |lines| == 0
    || ((!lines[0].Select? || cur != Some(lines[0].tool))
        && NoRedundantSelect(lines[1..], if lines[0].Select? then Some(lines[0].tool) else cur))
  }

  lemma {:induction false} NoRedundantSelectAppend(a: seq<Line>, b: seq<Line>, cur: Option<nat>)
    requires NoRedundantSelect(a, cur) && NoRedundantSelect(b, Loaded(a, cur))
    ensures NoRedundantSelect(a + b, cur)
    decreases |a|
  {
    if |a| > 0 {
      assert (a + b)[0] == a[0] && (a + b)[1..] == a[1..] + b;
      NoRedundantSelectAppend(a[1..], b, if a[0].Select? then Some(a[0].tool) else cur);
    } else {
      assert a + b == b;
    }
  }

  /** A tool is selected only when the next hole needs another tool than the loaded one. */
  lemma {:induction false} SelectsOnlyOnChange(fmt: Format, tools: seq<string>, fs: seq<A.InnerAtom>, want: bool, cur: Option<nat>)
    requires Covers(fmt, tools, fs, want)
    ensures NoRedundantSelect(Body(fmt, tools, fs, want, cur), cur)
    decreases |fs|
  {
    if |fs| > 0 {
      if Wanted(fs[0], want) {
        var t := ToolOf(fmt, tools, fs[0]);
        var sel: seq<Line> := if cur != Some(t) then [Select(t)] else [];
        var h := [HoleLine(fmt, fs[0])];
        var rest := Body(fmt, tools, fs[1..], want, Some(t));
        SelectsOnlyOnChange(fmt, tools, fs[1..], want, Some(t));
        assert Loaded(sel + h, cur) == Some(t) by {
          ReplayAppend(sel, h, cur);
          if cur != Some(t) {
            ReplayAppend(sel, [], cur);
          }
          ReplayAppend(h, [], Loaded(sel, cur));
        }
        assert NoRedundantSelect(sel + h, cur) by {
          assert NoRedundantSelect([], Some(t));
          assert NoRedundantSelect(h, Some(t));
          if cur != Some(t) {
            assert sel + h == [Select(t), HoleLine(fmt, fs[0])];
            assert (sel + h)[1..] == h;
          }
        }
        NoRedundantSelectAppend(sel + h, rest, cur);
      } else {
        SelectsOnlyOnChange(fmt, tools, fs[1..], want, cur);
      }
    }
  }

  /** The file's fixed frame: the header, tool `i + 1` defined as the `i`-th diameter, the preamble, and the trailer last. */
  lemma OutputFrame(fmt: Format, tools: seq<string>, fs: seq<A.InnerAtom>, want: bool)
    requires Covers(fmt, tools, fs, want)
    ensures |Output(fmt, tools, fs, want)| >= 10 + |tools|
    ensures Output(fmt, tools, fs, want)[..5] == Header
    ensures forall i :: 0 <= i < |tools| ==> Output(fmt, tools, fs, want)[5 + i] == ToolDef(i + 1, tools[i])
    ensures Output(fmt, tools, fs, want)[5 + |tools|..8 + |tools|] == Preamble
    ensures Output(fmt, tools, fs, want)[|Output(fmt, tools, fs, want)| - 2..] == Trailer
  {
    var t := ToolTable(tools);
    var head := Header + t + Preamble;
    var body := Body(fmt, tools, fs, want, None);
    var out := head + body + Trailer;
    assert Output(fmt, tools, fs, want) == out;
    PrefixOfConcat(head + body, Trailer);
    PrefixOfConcat(head, body);
    PrefixOfConcat(Header + t, Preamble);
    PrefixOfConcat(Header, t);
    assert out[..5] == head[..5] == Header;
    forall i | 0 <= i < |tools|
      ensures out[5 + i] == ToolDef(i + 1, tools[i])
    {
      assert out[5 + i] == (Header + t)[5 + i] == t[i];
    }
    assert out[5 + |tools|..8 + |tools|] == head[5 + |tools|..8 + |tools|];
  }

  lemma PrefixOfConcat(a: seq<Line>, b: seq<Line>)
    ensures (a + b)[..|a|] == a && (a + b)[|a|..] == b
    ensures forall i, j :: 0 <= i <= j <= |a| ==> (a + b)[i..j] == a[i..j]
  {
  }

  // Only the wanted drills matter.

  /** The wanted drills of `fs`, in order. */
  function WantedOnly(fs: seq<A.InnerAtom>, want: bool): seq<A.InnerAtom>
    decreases |fs|
  {
    if |fs| == 0 then []
    else (if Wanted(fs[0], want) then [fs[0]] else []) + WantedOnly(fs[1..], want)
  }

  lemma {:induction false} WantedOnlyMembers(fs: seq<A.InnerAtom>, want: bool, a: A.InnerAtom)
    ensures a in WantedOnly(fs, want) <==> a in fs && Wanted(a, want)
    decreases |fs|
  {
    if |fs| > 0 {
      WantedOnlyMembers(fs[1..], want, a);
      assert fs == [fs[0]] + fs[1..];
    }
  }

  /** The file is the same when the atoms it ignores are removed first. */
  lemma {:induction false} OnlyWantedDrillsMatter(fmt: Format, tools: seq<string>, fs: seq<A.InnerAtom>, want: bool, cur: Option<nat>)
    requires Covers(fmt, tools, fs, want)
    ensures Covers(fmt, tools, WantedOnly(fs, want), want)
    ensures Body(fmt, tools, WantedOnly(fs, want), want, cur) == Body(fmt, tools, fs, want, cur)
    decreases |fs|
  {
    if |fs| > 0 {
      CoversRest(fmt, tools, fs, want);
      var w := WantedOnly(fs, want);
      var wr := WantedOnly(fs[1..], want);
      if Wanted(fs[0], want) {
        var t := ToolOf(fmt, tools, fs[0]);
        OnlyWantedDrillsMatter(fmt, tools, fs[1..], want, Some(t));
        assert w == [fs[0]] + wr;
        assert w[0] == fs[0] && w[1..] == wr;
      } else {
        OnlyWantedDrillsMatter(fmt, tools, fs[1..], want, cur);
        assert w == wr;
      }
    }
  }

  /** The diameter table is the same when the atoms it ignores are removed first. */
  lemma OnlyWantedDiameters(fmt: Format, fs: seq<A.InnerAtom>, want: bool)
    ensures Diameters(fmt, WantedOnly(fs, want), want) == Diameters(fmt, fs, want)
  {
    var w := WantedOnly(fs, want);
    forall d
      ensures d in Diameters(fmt, w, want) <==> d in Diameters(fmt, fs, want)
    {
      DiametersMembers(fmt, w, want, d);
      DiametersMembers(fmt, fs, want, d);
      if d in Diameters(fmt, w, want) {
        var i :| 0 <= i < |w| && Wanted(w[i], want) && DiaKey(fmt, w[i]) == d;
        WantedOnlyMembers(fs, want, w[i]);
        var j :| 0 <= j < |fs| && fs[j] == w[i];
      }
      if d in Diameters(fmt, fs, want) {
        var i :| 0 <= i < |fs| && Wanted(fs[i], want) && DiaKey(fmt, fs[i]) == d;
        WantedOnlyMembers(fs, want, fs[i]);
        var j :| 0 <= j < |w| && w[j] == fs[i];
      }
    }
  }
}
