/**
 * `tessellate_3d` of tessellate.rs: a flat triangulation (vertices and a
 * `u16` index buffer) extruded into a closed solid. The vertices are
 * copied to a bottom face and a top face; the indices are the bottom
 * triangles, the top triangles with their winding reversed, and two side
 * triangles for every boundary edge, the edges that belong to exactly one
 * triangle. `normals_from_tessellation` gives one face normal per triangle.
 */
module Tessellate {
  import G = Geo

  /** `u16`. */
  type U16 = x: int | 0 <= x < 0x1_0000

  /** `u16` addition, wrapping as a release build does. */
  function Add16(a: U16, b: U16): (r: U16)
    ensures a + b < 0x1_0000 ==> r == a + b
    ensures a + b >= 0x1_0000 ==> r == a + b - 0x1_0000
  {
    (a + b) % 0x1_0000
  }

  /** `v as u16`: the low sixteen bits. */
  function ToU16(v: nat): U16 { v % 0x1_0000 }

  datatype Vertex = Vertex(x: real, y: real, z: real)

  /** One sighting of an edge: its position in the index buffer and whether it ran from the lower index to the higher. */
  datatype Occurrence = Occurrence(pos: nat, ordered: bool)

  /** An entry of `boundary_lines`: the edge's two indices, lower first, and its one sighting. */
  datatype Line = Line(low: U16, high: U16, occ: Occurrence)

  // The edges of the index buffer.

  /** Edge positions: three per complete triangle (`chunks_exact(3)` drops a partial one). */
  function EdgeCount(idx: seq<U16>): nat { 3 * (|idx| / 3) }

  /** The corner after corner `p` within its triangle. */
  function Next(idx: seq<U16>, p: nat): U16
    requires p < EdgeCount(idx)
  {
    idx[3 * (p / 3) + (p % 3 + 1) % 3]
  }

  /** The undirected key of the edge at position `p`: (min, max). */
  function Key(idx: seq<U16>, p: nat): (U16, U16)
    requires p < EdgeCount(idx)
  {
    var a := idx[p];
    var b := Next(idx, p);
    if a <= b then (a, b) else (b, a)
  }

  function Ordered(idx: seq<U16>, p: nat): bool
    requires p < EdgeCount(idx)
  {
    idx[p] < Next(idx, p)
  }

  function OccurrenceAt(idx: seq<U16>, p: nat): Occurrence
    requires p < EdgeCount(idx)
  {
    Occurrence(p, Ordered(idx, p))
  }

  /** The sightings of `key` among the first `m` edge positions, in order. */
  function Occurrences(idx: seq<U16>, m: nat, key: (U16, U16)): seq<Occurrence>
    requires m <= EdgeCount(idx)
  {
    if m == 0 then []
    else Occurrences(idx, m - 1, key) + (if Key(idx, m - 1) == key then [OccurrenceAt(idx, m - 1)] else [])
  }

  /** The `lines` table after the first `m` edge insertions. */
  function LinesUpTo(idx: seq<U16>, m: nat): map<(U16, U16), seq<Occurrence>>
    requires m <= EdgeCount(idx)
  {
    if m == 0 then map[]
    else
      var ls := LinesUpTo(idx, m - 1);
      var key := Key(idx, m - 1);
      ls[key := if key in ls then ls[key] + [OccurrenceAt(idx, m - 1)] else [OccurrenceAt(idx, m - 1)]]
  }

  /** A boundary edge is one seen exactly once in the whole buffer. */
  predicate IsBoundary(idx: seq<U16>, p: nat)
    requires p < EdgeCount(idx)
  {
    |Occurrences(idx, EdgeCount(idx), Key(idx, p))| == 1
  }

  /** The boundary edges among the first `m` positions, in the order they were seen. */
  function BoundaryUpTo(idx: seq<U16>, m: nat): seq<Line>
    requires m <= EdgeCount(idx)
  {
    if m == 0 then []
    else
      var key := Key(idx, m - 1);
      BoundaryUpTo(idx, m - 1) + (if IsBoundary(idx, m - 1) then [Line(key.0, key.1, OccurrenceAt(idx, m - 1))] else [])
  }

  /** `boundary_lines` after the sort by position. */
  function Boundary(idx: seq<U16>): seq<Line> { BoundaryUpTo(idx, EdgeCount(idx)) }

  // The output index buffer.

  /** The top face: triangle `t` with its corners reversed and moved up by `c`, for the first `t` triangles. */
  function Back(idx: seq<U16>, c: U16, t: nat): seq<U16>
    requires 3 * t <= |idx|
  {
    if t == 0 then []
    else Back(idx, c, t - 1) + [Add16(idx[3 * t - 1], c), Add16(idx[3 * t - 2], c), Add16(idx[3 * t - 3], c)]
  }

  /** The two side triangles of boundary edge `l`, wound by the direction it was seen in. */
  function Side(c: U16, l: Line): seq<U16>
  {
    if !l.occ.ordered then [l.low, l.high, Add16(l.low, c), l.high, Add16(l.high, c), Add16(l.low, c)]
    else [l.high, l.low, Add16(l.high, c), l.low, Add16(l.low, c), Add16(l.high, c)]
  }

  function Sides(c: U16, ls: seq<Line>): seq<U16>
  {
    if |ls| == 0 then [] else Sides(c, ls[..|ls| - 1]) + Side(c, ls[|ls| - 1])
  }

  /** The index buffer `tessellate_3d` returns for `n` vertices. */
  function Indices(n: nat, idx: seq<U16>): seq<U16>
  {
    idx + Back(idx, ToU16(n), |idx| / 3) + Sides(ToU16(n), Boundary(idx))
  }

  /** The vertex buffer: the bottom face at z = -0.8, then the top face at z = 0.8. */
  predicate Extruded(vs: seq<G.Point>, verts: seq<Vertex>)
  {
    && |verts| == 2 * |vs|
    && forall i :: 0 <= i < |vs| ==> verts[i] == Vertex(vs[i].x, vs[i].y, -0.8) && verts[|vs| + i] == Vertex(vs[i].x, vs[i].y, 0.8)
  }

  /** `tessellate_3d`. */
  method Tessellate3D(vs: seq<G.Point>, idx: seq<U16>) returns (verts: seq<Vertex>, out: seq<U16>)
    ensures Extruded(vs, verts)
    ensures out == Indices(|vs|, idx)
  {
    var lines := EdgeTable(idx);
    var boundary := BoundaryLines(idx, lines);
    verts := ExtrudeVertices(vs);
    var c := ToU16(|vs|);
    out := FacesLoop(idx, c);
    out := SidesLoop(c, boundary, out);
  }

  /** The first loop of `tessellate_3d`: every edge of every complete triangle, keyed by its ends. */
  method EdgeTable(idx: seq<U16>) returns (lines: map<(U16, U16), seq<Occurrence>>)
    ensures lines == LinesUpTo(idx, EdgeCount(idx))
  {
    lines := map[];
    var t := 0;
    while t < |idx| / 3
      invariant 0 <= t <= |idx| / 3
      invariant lines == LinesUpTo(idx, 3 * t)
    {
      lines := RecordTriangle(idx, t, lines);
      t := t + 1;
    }
  }

  /** One pass of the outer loop: the three edges of triangle `t`, in corner order. */
  method RecordTriangle(idx: seq<U16>, t: nat, lines: map<(U16, U16), seq<Occurrence>>) returns (lines': map<(U16, U16), seq<Occurrence>>)
    requires t < |idx| / 3 && lines == LinesUpTo(idx, 3 * t)
    ensures 3 * t + 3 <= EdgeCount(idx) && lines' == LinesUpTo(idx, 3 * t + 3)
  {
    lines' := lines;
    var j := 0;
    var p := 3 * t;
    while j < 3
      invariant 0 <= j <= 3 && p == 3 * t + j && 3 * t + 3 <= EdgeCount(idx)
      invariant lines' == LinesUpTo(idx, p)
    {
      lines' := RecordEdge(idx, t, j, p, lines');
      j, p := j + 1, p + 1;
    }
  }

  /** One pass of the inner loop: the edge from corner `j` of triangle `t` to the next corner is recorded under its key. */
  method RecordEdge(idx: seq<U16>, t: nat, j: nat, p: nat, lines: map<(U16, U16), seq<Occurrence>>) returns (lines': map<(U16, U16), seq<Occurrence>>)
    requires t < |idx| / 3 && j < 3 && p == 3 * t + j
    requires lines == LinesUpTo(idx, p)
    ensures p < EdgeCount(idx) && lines' == LinesUpTo(idx, p + 1)
  {
    CornerStep(idx, t, j);
    var a := idx[p];
    var b := idx[3 * t + (j + 1) % 3];
    var key := if a <= b then (a, b) else (b, a);
    var o := Occurrence(p, a < b);
    if key in lines {
      lines' := lines[key := lines[key] + [o]];
    } else {
      lines' := lines[key := [o]];
    }
  }

  /**
   * `boundary_lines`: the entries of the table with one sighting, sorted
   * by position. Positions are distinct, so scanning them in order yields
   * the sorted list directly.
   */
  method BoundaryLines(idx: seq<U16>, lines: map<(U16, U16), seq<Occurrence>>) returns (boundary: seq<Line>)
    requires lines == LinesUpTo(idx, EdgeCount(idx))
    ensures boundary == Boundary(idx)
  {
    boundary := [];
    var p := 0;
    while p < EdgeCount(idx)
      invariant 0 <= p <= EdgeCount(idx)
      invariant boundary == BoundaryUpTo(idx, p)
    {
      var key := Key(idx, p);
      EntryAt(idx, lines, p);
      if |lines[key]| == 1 {
        boundary := boundary + [Line(key.0, key.1, lines[key][0])];
      }
      p := p + 1;
    }
  }

  /** The table entry for the edge at position `p`: present, one sighting exactly when the edge is on the boundary, and then that sighting is the edge's own. */
  lemma EntryAt(idx: seq<U16>, lines: map<(U16, U16), seq<Occurrence>>, p: nat)
    requires lines == LinesUpTo(idx, EdgeCount(idx)) && p < EdgeCount(idx)
    ensures Key(idx, p) in lines
    ensures |lines[Key(idx, p)]| == 1 <==> IsBoundary(idx, p)
    ensures IsBoundary(idx, p) ==> lines[Key(idx, p)][0] == OccurrenceAt(idx, p)
  {
    LinesUpToOccurrences(idx, EdgeCount(idx));
    OccursAt(idx, p, EdgeCount(idx));
    if IsBoundary(idx, p) {
      SoleOccurrence(idx, p);
    }
  }

  /** The two vertex loops: the bottom copies, then the top copies. */
  method ExtrudeVertices(vs: seq<G.Point>) returns (verts: seq<Vertex>)
    ensures Extruded(vs, verts)
  {
    verts := [];
    var i := 0;
    while i < |vs|
      invariant 0 <= i <= |vs| && |verts| == i
      invariant forall q :: 0 <= q < i ==> verts[q] == Vertex(vs[q].x, vs[q].y, -0.8)
    {
      verts := verts + [Vertex(vs[i].x, vs[i].y, -0.8)];
      i := i + 1;
    }
    i := 0;
    while i < |vs|
      invariant 0 <= i <= |vs| && |verts| == |vs| + i
      invariant forall q :: 0 <= q < |vs| ==> verts[q] == Vertex(vs[q].x, vs[q].y, -0.8)
      invariant forall q :: 0 <= q < i ==> verts[|vs| + q] == Vertex(vs[q].x, vs[q].y, 0.8)
    {
      verts := verts + [Vertex(vs[i].x, vs[i].y, 0.8)];
      i := i + 1;
    }
  }

  /** The front and back loops: the input indices, then each triangle reversed and lifted by `c`. */
  method FacesLoop(idx: seq<U16>, c: U16) returns (out: seq<U16>)
    ensures out == idx + Back(idx, c, |idx| / 3)
  {
    out := [];
    var i := 0;
    while i < |idx|
      invariant 0 <= i <= |idx| && out == idx[..i]
    {
      out := out + [idx[i]];
      i := i + 1;
    }
    assert idx[..|idx|] == idx;
    var t := 0;
    while t < |idx| / 3
      invariant 0 <= t <= |idx| / 3
      invariant out == idx + Back(idx, c, t)
    {
      out := out + [Add16(idx[3 * t + 2], c), Add16(idx[3 * t + 1], c), Add16(idx[3 * t], c)];
      t := t + 1;
    }
  }

  /** The sides loop: two triangles per boundary edge, appended to `front`. */
  method SidesLoop(c: U16, boundary: seq<Line>, front: seq<U16>) returns (out: seq<U16>)
    ensures out == front + Sides(c, boundary)
  {
    out := front;
    var k := 0;
    while k < |boundary|
      invariant 0 <= k <= |boundary|
      invariant out == front + Sides(c, boundary[..k])
    {
      SidesSnoc(c, boundary, k, front);
      out := out + Side(c, boundary[k]);
      k := k + 1;
    }
    assert boundary[..|boundary|] == boundary;
  }

  /** One pass of the sides loop: the two triangles of edge `k` follow those of the edges before it. */
  lemma SidesSnoc(c: U16, ls: seq<Line>, k: nat, front: seq<U16>)
    requires k < |ls|
    ensures front + Sides(c, ls[..k + 1]) == front + Sides(c, ls[..k]) + Side(c, ls[k])
  {
    assert ls[..k + 1][..k] == ls[..k];
    var a, b := Sides(c, ls[..k]), Side(c, ls[k]);
    assert Sides(c, ls[..k + 1]) == a + b;
    assert front + (a + b) == front + a + b;
  }

  // The edge table.

  /** Corner `j` of triangle `t` is edge position `3t + j`, and the table grows by that edge. */
  lemma CornerStep(idx: seq<U16>, t: nat, j: nat)
    requires t < |idx| / 3 && j < 3
    ensures 3 * t + j < EdgeCount(idx) && 3 * t + (j + 1) % 3 < |idx|
    ensures Next(idx, 3 * t + j) == idx[3 * t + (j + 1) % 3]
    ensures var p := 3 * t + j; var a := idx[p]; var b := idx[3 * t + (j + 1) % 3];
      && Key(idx, p) == (if a <= b then (a, b) else (b, a))
      && OccurrenceAt(idx, p) == Occurrence(p, a < b)
  {
    assert (3 * t + j) / 3 == t && (3 * t + j) % 3 == j;
  }

  /** The table holds, for every key seen, its sightings in order, and nothing else. */
  lemma {:induction false} LinesUpToOccurrences(idx: seq<U16>, m: nat)
    requires m <= EdgeCount(idx)
    ensures forall key :: key in LinesUpTo(idx, m) <==> |Occurrences(idx, m, key)| > 0
    ensures forall key :: key in LinesUpTo(idx, m) ==> LinesUpTo(idx, m)[key] == Occurrences(idx, m, key)
  {
    if m > 0 {
      LinesUpToOccurrences(idx, m - 1);
    }
  }

  /** The edge at position `p` is among the sightings of its key. */
  lemma {:induction false} OccursAt(idx: seq<U16>, p: nat, m: nat)
    requires p < m <= EdgeCount(idx)
    ensures OccurrenceAt(idx, p) in Occurrences(idx, m, Key(idx, p))
  {
    if p < m - 1 {
      OccursAt(idx, p, m - 1);
    }
  }

  /** Sightings are recorded at their own positions, in increasing order. */
  lemma {:induction false} OccurrencesAreSightings(idx: seq<U16>, m: nat, key: (U16, U16))
    requires m <= EdgeCount(idx)
    ensures forall q :: 0 <= q < |Occurrences(idx, m, key)| ==>
      var o := Occurrences(idx, m, key)[q]; o.pos < m && Key(idx, o.pos) == key && o == OccurrenceAt(idx, o.pos)
  {
    if m > 0 {
      OccurrencesAreSightings(idx, m - 1, key);
    }
  }

  /** A boundary edge's one sighting is the one at its own position. */
  lemma SoleOccurrence(idx: seq<U16>, p: nat)
    requires p < EdgeCount(idx) && IsBoundary(idx, p)
    ensures Occurrences(idx, EdgeCount(idx), Key(idx, p)) == [OccurrenceAt(idx, p)]
  {
    OccursAt(idx, p, EdgeCount(idx));
  }

  // The boundary.

  lemma {:induction false} BoundaryUpToFacts(idx: seq<U16>, m: nat)
    requires m <= EdgeCount(idx)
    ensures forall b :: 0 <= b < |BoundaryUpTo(idx, m)| ==>
      var l := BoundaryUpTo(idx, m)[b];
      && l.occ.pos < m && IsBoundary(idx, l.occ.pos)
      && (l.low, l.high) == Key(idx, l.occ.pos) && l.occ == OccurrenceAt(idx, l.occ.pos)
    ensures forall b, b' :: 0 <= b < b' < |BoundaryUpTo(idx, m)| ==> BoundaryUpTo(idx, m)[b].occ.pos < BoundaryUpTo(idx, m)[b'].occ.pos
    ensures forall p :: 0 <= p < m && IsBoundary(idx, p) ==> exists b :: 0 <= b < |BoundaryUpTo(idx, m)| && BoundaryUpTo(idx, m)[b].occ.pos == p
  {
    if m > 0 {
      BoundaryUpToFacts(idx, m - 1);
      var prev := BoundaryUpTo(idx, m - 1);
      var cur := BoundaryUpTo(idx, m);
      assert forall b :: 0 <= b < |prev| ==> cur[b] == prev[b];
      if IsBoundary(idx, m - 1) {
        assert cur[|prev|].occ.pos == m - 1;
      }
    }
  }

  /**
   * `boundary_lines` holds exactly the edges seen once, each with its
   * lower index first and the direction it was seen in, ordered by the
   * position where it was seen.
   */
  lemma BoundaryIsOnceSeenEdges(idx: seq<U16>)
    ensures forall b :: 0 <= b < |Boundary(idx)| ==>
      var l := Boundary(idx)[b];
      && l.occ.pos < EdgeCount(idx)
      && Occurrences(idx, EdgeCount(idx), (l.low, l.high)) == [l.occ]
      && l.low <= l.high
      && l.occ.ordered == (idx[l.occ.pos] < Next(idx, l.occ.pos))
      && {l.low, l.high} == {idx[l.occ.pos], Next(idx, l.occ.pos)}
    ensures forall b, b' :: 0 <= b < b' < |Boundary(idx)| ==> Boundary(idx)[b].occ.pos < Boundary(idx)[b'].occ.pos
    ensures forall p :: 0 <= p < EdgeCount(idx) && IsBoundary(idx, p) ==> exists b :: 0 <= b < |Boundary(idx)| && Boundary(idx)[b].occ.pos == p
  {
    BoundaryUpToFacts(idx, EdgeCount(idx));
    assert Boundary(idx) == BoundaryUpTo(idx, EdgeCount(idx));
    forall b | 0 <= b < |Boundary(idx)|
      ensures Occurrences(idx, EdgeCount(idx), (Boundary(idx)[b].low, Boundary(idx)[b].high)) == [Boundary(idx)[b].occ]
    {
      SoleOccurrence(idx, Boundary(idx)[b].occ.pos);
    }
  }

  // The layout of the output.

  lemma {:induction false} BackLayout(idx: seq<U16>, c: U16, t: nat)
    requires 3 * t <= |idx|
    ensures |Back(idx, c, t)| == 3 * t
    ensures forall s :: 0 <= s < t ==> Back(idx, c, t)[3 * s..3 * s + 3] == [Add16(idx[3 * s + 2], c), Add16(idx[3 * s + 1], c), Add16(idx[3 * s], c)]
  {
    if t > 0 {
      BackLayout(idx, c, t - 1);
      var prev := Back(idx, c, t - 1);
      forall s | 0 <= s < t
        ensures Back(idx, c, t)[3 * s..3 * s + 3] == [Add16(idx[3 * s + 2], c), Add16(idx[3 * s + 1], c), Add16(idx[3 * s], c)]
      {
        if s < t - 1 {
          assert Back(idx, c, t)[3 * s..3 * s + 3] == prev[3 * s..3 * s + 3];
        }
      }
    }
  }

  lemma {:induction false} SidesLayout(c: U16, ls: seq<Line>)
    ensures |Sides(c, ls)| == 6 * |ls|
    ensures forall b :: 0 <= b < |ls| ==> Sides(c, ls)[6 * b..6 * b + 6] == Side(c, ls[b])
    decreases |ls|
  {
    if |ls| > 0 {
      var init := ls[..|ls| - 1];
      SidesLayout(c, init);
      var pre, last := Sides(c, init), Side(c, ls[|ls| - 1]);
      assert Sides(c, ls) == pre + last;
      forall b | 0 <= b < |ls|
        ensures Sides(c, ls)[6 * b..6 * b + 6] == Side(c, ls[b])
      {
        ConcatSlice(pre, last, 6 * b, 6 * b + 6);
        if b < |ls| - 1 {
          assert init[b] == ls[b];
        }
      }
    }
  }

  /** A slice of a concatenation that lies within one part is a slice of that part. */
  lemma ConcatSlice(a: seq<U16>, b: seq<U16>, i: nat, j: nat)
    requires i <= j <= |a| + |b|
    ensures j <= |a| ==> (a + b)[i..j] == a[i..j]
    ensures |a| <= i ==> (a + b)[i..j] == b[i - |a|..j - |a|]
  {
  }

  /**
   * The index buffer is the input verbatim, then each input triangle
   * reversed and lifted by the vertex count, then six indices per boundary
   * edge; with a whole number of triangles that is 2·|indices| + 6·|boundary|.
   */
  lemma IndicesLayout(n: nat, idx: seq<U16>)
    ensures |Indices(n, idx)| == |idx| + 3 * (|idx| / 3) + 6 * |Boundary(idx)|
    ensures |idx| % 3 == 0 ==> |Indices(n, idx)| == 2 * |idx| + 6 * |Boundary(idx)|
    ensures Indices(n, idx)[..|idx|] == idx
    ensures forall s :: 0 <= s < |idx| / 3 ==>
      Indices(n, idx)[|idx| + 3 * s..|idx| + 3 * s + 3] == [Add16(idx[3 * s + 2], ToU16(n)), Add16(idx[3 * s + 1], ToU16(n)), Add16(idx[3 * s], ToU16(n))]
    ensures forall b :: 0 <= b < |Boundary(idx)| ==>
      Indices(n, idx)[|idx| + 3 * (|idx| / 3) + 6 * b..|idx| + 3 * (|idx| / 3) + 6 * b + 6] == Side(ToU16(n), Boundary(idx)[b])
  {
    var T := |idx| / 3;
    var c := ToU16(n);
    var ls := Boundary(idx);
    assert Indices(n, idx) == idx + Back(idx, c, T) + Sides(c, ls);
    WholeTriangles(|idx|);
    BackLayout(idx, c, T);
    SidesLayout(c, ls);
    ConcatLayout(idx, Back(idx, c, T), Sides(c, ls), T, c, ls);
  }

  lemma WholeTriangles(m: nat)
    ensures 3 * (m / 3) <= m
    ensures m % 3 == 0 ==> 3 * (m / 3) == m
  {
  }

  lemma ConcatLayout(idx: seq<U16>, back: seq<U16>, sides: seq<U16>, T: nat, c: U16, ls: seq<Line>)
    requires 3 * T <= |idx|
    requires |back| == 3 * T && |sides| == 6 * |ls|
    requires forall s :: 0 <= s < T ==> back[3 * s..3 * s + 3] == [Add16(idx[3 * s + 2], c), Add16(idx[3 * s + 1], c), Add16(idx[3 * s], c)]
    requires forall b :: 0 <= b < |ls| ==> sides[6 * b..6 * b + 6] == Side(c, ls[b])
    ensures var out := idx + back + sides;
      && |out| == |idx| + 3 * T + 6 * |ls|
      && out[..|idx|] == idx
      && (forall s :: 0 <= s < T ==> out[|idx| + 3 * s..|idx| + 3 * s + 3] == [Add16(idx[3 * s + 2], c), Add16(idx[3 * s + 1], c), Add16(idx[3 * s], c)])
      && (forall b :: 0 <= b < |ls| ==> out[|idx| + 3 * T + 6 * b..|idx| + 3 * T + 6 * b + 6] == Side(c, ls[b]))
  {
    var out := idx + back + sides;
    forall s | 0 <= s < T
      ensures out[|idx| + 3 * s..|idx| + 3 * s + 3] == [Add16(idx[3 * s + 2], c), Add16(idx[3 * s + 1], c), Add16(idx[3 * s], c)]
    {
      assert out[|idx| + 3 * s..|idx| + 3 * s + 3] == back[3 * s..3 * s + 3];
    }
    forall b | 0 <= b < |ls|
      ensures out[|idx| + 3 * T + 6 * b..|idx| + 3 * T + 6 * b + 6] == Side(c, ls[b])
    {
      assert out[|idx| + 3 * T + 6 * b..|idx| + 3 * T + 6 * b + 6] == sides[6 * b..6 * b + 6];
    }
  }

  /**
   * With at most 32768 vertices, so that the doubled count fits in a
   * `u16`, and an input buffer that only names existing vertices, every
   * output index names one of the 2n output vertices: a bottom index i
   * keeps i and its top twin is i + n.
   */
  lemma IndicesInRange(n: nat, idx: seq<U16>)
    requires 2 * n <= 0x1_0000
    requires forall i :: 0 <= i < |idx| ==> idx[i] < n
    ensures forall i :: 0 <= i < |Indices(n, idx)| ==> Indices(n, idx)[i] < 2 * n
  {
    var T := |idx| / 3;
    var c := ToU16(n);
    BackInRange(idx, n, T);
    BoundaryIsOnceSeenEdges(idx);
    forall b | 0 <= b < |Boundary(idx)| ensures Boundary(idx)[b].low < n && Boundary(idx)[b].high < n {
      var l := Boundary(idx)[b];
      assert l.low in {idx[l.occ.pos], Next(idx, l.occ.pos)};
      assert l.high in {idx[l.occ.pos], Next(idx, l.occ.pos)};
    }
    SidesInRange(n, Boundary(idx));
  }

  lemma {:induction false} BackInRange(idx: seq<U16>, n: nat, t: nat)
    requires 2 * n <= 0x1_0000 && 3 * t <= |idx|
    requires forall i :: 0 <= i < |idx| ==> idx[i] < n
    ensures forall i :: 0 <= i < |Back(idx, ToU16(n), t)| ==> n <= Back(idx, ToU16(n), t)[i] < 2 * n
  {
    if t > 0 {
      BackInRange(idx, n, t - 1);
    }
  }

  lemma {:induction false} SidesInRange(n: nat, ls: seq<Line>)
    requires 2 * n <= 0x1_0000
    requires forall b :: 0 <= b < |ls| ==> ls[b].low < n && ls[b].high < n
    ensures forall i :: 0 <= i < |Sides(ToU16(n), ls)| ==> Sides(ToU16(n), ls)[i] < 2 * n
    decreases |ls|
  {
    if |ls| > 0 {
      SidesInRange(n, ls[..|ls| - 1]);
    }
  }

  // Face normals.

  function Sub(a: Vertex, b: Vertex): Vertex { Vertex(a.x - b.x, a.y - b.y, a.z - b.z) }

  function Dot(a: Vertex, b: Vertex): real { a.x * b.x + a.y * b.y + a.z * b.z }

  /** The cross product the source writes out by hand. */
  function Cross(u: Vertex, v: Vertex): Vertex
  {
    Vertex(u.y * v.z - u.z * v.y, u.z * v.x - u.x * v.z, u.x * v.y - u.y * v.x)
  }

  /** The normal of the face with corners `a`, `b`, `c`. */
  function FaceNormal(a: Vertex, b: Vertex, c: Vertex): Vertex { Cross(Sub(b, a), Sub(c, a)) }

  /** `normals_from_tessellation`: one normal per complete triple of indices, in order. */
  function Normals(verts: seq<Vertex>, inds: seq<U16>): (r: seq<Vertex>)
    requires forall i :: 0 <= i < |inds| / 3 * 3 ==> inds[i] < |verts|
    ensures |r| == |inds| / 3
    ensures forall t :: 0 <= t < |r| ==> r[t] == FaceNormal(verts[inds[3 * t]], verts[inds[3 * t + 1]], verts[inds[3 * t + 2]])
  {
    seq(|inds| / 3, t requires 0 <= t < |inds| / 3 => FaceNormal(verts[inds[3 * t]], verts[inds[3 * t + 1]], verts[inds[3 * t + 2]]))
  }

  /** The hand-written cross product is perpendicular to both edges of the face. */
  lemma CrossPerpendicular(u: Vertex, v: Vertex)
    ensures Dot(Cross(u, v), u) == 0.0 && Dot(Cross(u, v), v) == 0.0
  {
    assert Dot(Cross(u, v), u) == u.y * v.z * u.x - u.z * v.y * u.x + u.z * v.x * u.y - u.x * v.z * u.y + u.x * v.y * u.z - u.y * v.x * u.z;
    assert Dot(Cross(u, v), v) == u.y * v.z * v.x - u.z * v.y * v.x + u.z * v.x * v.y - u.x * v.z * v.y + u.x * v.y * v.z - u.y * v.x * v.z;
  }

  /** Each normal is perpendicular to the two edges leaving the face's first corner. */
  lemma NormalsPerpendicular(verts: seq<Vertex>, inds: seq<U16>, t: nat)
    requires forall i :: 0 <= i < |inds| / 3 * 3 ==> inds[i] < |verts|
    requires t < |inds| / 3
    ensures var a := verts[inds[3 * t]];
      && Dot(Normals(verts, inds)[t], Sub(verts[inds[3 * t + 1]], a)) == 0.0
      && Dot(Normals(verts, inds)[t], Sub(verts[inds[3 * t + 2]], a)) == 0.0
  {
    var a := verts[inds[3 * t]];
    CrossPerpendicular(Sub(verts[inds[3 * t + 1]], a), Sub(verts[inds[3 * t + 2]], a));
  }

  /** The extruded solid has one normal per output triangle: two per input triangle and two per boundary edge. */
  lemma ExtrudedNormalCount(n: nat, idx: seq<U16>)
    requires |idx| % 3 == 0
    ensures |Indices(n, idx)| / 3 == 2 * (|idx| / 3) + 2 * |Boundary(idx)|
  {
    IndicesLayout(n, idx);
  }
}
