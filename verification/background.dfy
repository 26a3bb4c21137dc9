/**
 * The background assembler (make_square): one textured unit quad per
 * background entry with a non-negative tile, in the grid space where one
 * unit is one cell. A vertex is 7 floats: position x, y, z and the four uv
 * channels u, v, 0, 0.
 */
module Background {
  import opened Grid
  import opened Buffers

  /** Width of one tile in the background texture strip (ts). */
  const TileWidth: real := 0.25
  /** Floats per vertex: 3 for the position, 4 for the uv channels. */
  const VertexFloats: nat := 7
  /** Two triangles of three vertices each. */
  const QuadVertices: nat := 6
  /** Floats per quad (6 vertices of 7 floats). */
  const QuadFloats: nat := 42

  /** A quad corner: its position and its texture coordinates (u, v). */
  datatype TexVertex = TexVertex(pos: Point, u: real, v: real)

  /** The 7 floats make_square pushes for one vertex: position (x, y, 0), uv (u, v, 0, 0). */
  function Emit(t: TexVertex): (r: seq<real>)
    ensures |r| == VertexFloats
  {
    [t.pos.x, t.pos.y, 0.0, t.u, t.v, 0.0, 0.0]
  }

  /**
   * The six corners of the quad of cell (i, j) with tile t, in push order:
   * triangle (i, j+1), (i+1, j+1), (i, j), then triangle (i, j), (i+1, j+1), (i+1, j).
   */
  function QuadCorners(e: BackgroundEntry): (r: seq<TexVertex>)
    ensures |r| == QuadVertices
    ensures forall k :: 0 <= k < |r| ==>
      var i, j, t := e.cell.col as real, e.cell.row as real, r[k];
      (t.pos.x == i || t.pos.x == i + 1.0) && (t.pos.y == j || t.pos.y == j + 1.0) &&
      t.u == e.tile as real * TileWidth + (t.pos.x - i) * TileWidth && t.v == t.pos.y - j
  {
    var i, j := e.cell.col as real, e.cell.row as real;
    var u := e.tile as real * TileWidth;
    [TexVertex(Point(i, j + 1.0), u, 1.0), TexVertex(Point(i + 1.0, j + 1.0), u + TileWidth, 1.0),
     TexVertex(Point(i, j), u, 0.0),
     TexVertex(Point(i, j), u, 0.0), TexVertex(Point(i + 1.0, j + 1.0), u + TileWidth, 1.0),
     TexVertex(Point(i + 1.0, j), u + TileWidth, 0.0)]
  }

  /** The 42 floats make_square pushes for one entry with a tile. */
  function Quad(e: BackgroundEntry): (q: seq<real>)
    ensures |q| == QuadFloats
  {
    BlocksLength(Emit, VertexFloats, QuadCorners(e));
    Blocks(Emit, QuadCorners(e))
  }

  /** The k-th vertex of a buffer of 7-float vertices. */
  function VertexAt(q: seq<real>, k: nat): seq<real>
    requires VertexFloats * k + VertexFloats <= |q|
  {
    q[VertexFloats * k..VertexFloats * k + VertexFloats]
  }

  /**
   * A vertex of cell (i, j) with tile t: it sits on a corner of the cell in
   * the plane z = 0, and its texture coordinates follow its position: u moves
   * from t * ts to t * ts + ts as x moves from i to i + 1, and v from 0 to 1
   * as y moves from j to j + 1. The two spare uv channels are 0.
   */
  predicate CellVertex(e: BackgroundEntry, v: seq<real>)
  {
    var i, j := e.cell.col as real, e.cell.row as real;
    |v| == VertexFloats &&
    (v[0] == i || v[0] == i + 1.0) &&
    (v[1] == j || v[1] == j + 1.0) &&
    v[2] == 0.0 &&
    v[3] == e.tile as real * TileWidth + (v[0] - i) * TileWidth &&
    v[4] == v[1] - j &&
    v[5] == 0.0 && v[6] == 0.0
  }

  /** Every one of the six vertices of a quad is a corner of its cell with matching uv. */
  lemma QuadVertex(e: BackgroundEntry, k: nat)
    requires k < QuadVertices
    ensures CellVertex(e, VertexAt(Quad(e), k))
    ensures VertexAt(Quad(e), k)[3] in {e.tile as real * TileWidth, e.tile as real * TileWidth + TileWidth}
    ensures VertexAt(Quad(e), k)[4] in {0.0, 1.0}
  {
    BlocksAt(Emit, VertexFloats, QuadCorners(e), k);
  }

  /** The position of vertex k of a quad. */
  function Corner(q: seq<real>, k: nat): Point
    requires VertexFloats * k + VertexFloats <= |q|
  {
    Point(q[VertexFloats * k], q[VertexFloats * k + 1])
  }

  /** Corner k of a quad is the position of its k-th corner record. */
  lemma CornerOfQuad(e: BackgroundEntry, k: nat)
    requires k < QuadVertices
    ensures Corner(Quad(e), k) == QuadCorners(e)[k].pos
  {
    BlocksAt(Emit, VertexFloats, QuadCorners(e), k);
    assert Corner(Quad(e), k) == Point(VertexAt(Quad(e), k)[0], VertexAt(Quad(e), k)[1]);
  }

  /** Twice the signed area of triangle abc (positive when counter-clockwise). */
  function Cross(a: Point, b: Point, c: Point): real
  {
    (b.x - a.x) * (c.y - a.y) - (b.y - a.y) * (c.x - a.x)
  }

  /** p lies in the closed triangle abc (on the inner side of all three edges). */
  predicate InTriangle(p: Point, a: Point, b: Point, c: Point)
  {
    (Cross(a, b, p) >= 0.0 && Cross(b, c, p) >= 0.0 && Cross(c, a, p) >= 0.0) ||
    (Cross(a, b, p) <= 0.0 && Cross(b, c, p) <= 0.0 && Cross(c, a, p) <= 0.0)
  }

  /** p lies in triangle 0 (vertices 0-2) or triangle 1 (vertices 3-5) of quad q. */
  predicate InQuad(q: seq<real>, p: Point)
    requires |q| == QuadFloats
  {
    InTriangle(p, Corner(q, 0), Corner(q, 1), Corner(q, 2)) ||
    InTriangle(p, Corner(q, 3), Corner(q, 4), Corner(q, 5))
  }

  /** p lies in the closed unit square of cell c. */
  predicate InCell(c: Cell, p: Point)
  {
    c.col as real <= p.x <= c.col as real + 1.0 && c.row as real <= p.y <= c.row as real + 1.0
  }

  /**
   * The two triangles are (i, j+1), (i+1, j+1), (i, j) and (i, j), (i+1, j+1),
   * (i+1, j): both wound the same way (clockwise), each of area 1/2, so
   * together they have the area of one cell.
   */
  lemma QuadTriangles(e: BackgroundEntry)
    ensures var q, i, j := Quad(e), e.cell.col as real, e.cell.row as real;
      Corner(q, 0) == Point(i, j + 1.0) && Corner(q, 1) == Point(i + 1.0, j + 1.0) &&
      Corner(q, 2) == Point(i, j) && Corner(q, 3) == Point(i, j) &&
      Corner(q, 4) == Point(i + 1.0, j + 1.0) && Corner(q, 5) == Point(i + 1.0, j) &&
      Cross(Corner(q, 0), Corner(q, 1), Corner(q, 2)) == -1.0 &&
      Cross(Corner(q, 3), Corner(q, 4), Corner(q, 5)) == -1.0
  {
    CornerOfQuad(e, 0);
    CornerOfQuad(e, 1);
    CornerOfQuad(e, 2);
    CornerOfQuad(e, 3);
    CornerOfQuad(e, 4);
    CornerOfQuad(e, 5);
  }

  /** The quad covers exactly the unit square of its cell: no gap and nothing outside. */
  lemma QuadCoversCell(e: BackgroundEntry, p: Point)
    ensures InQuad(Quad(e), p) <==> InCell(e.cell, p)
  {
    QuadTriangles(e);
    var q := Quad(e);
    var i, j := e.cell.col as real, e.cell.row as real;
    var dx, dy := p.x - i, p.y - j;
    assert Cross(Corner(q, 0), Corner(q, 1), p) == dy - 1.0;
    assert Cross(Corner(q, 1), Corner(q, 2), p) == dx - dy;
    assert Cross(Corner(q, 2), Corner(q, 0), p) == -dx;
    assert Cross(Corner(q, 3), Corner(q, 4), p) == dy - dx;
    assert Cross(Corner(q, 4), Corner(q, 5), p) == dx - 1.0;
    assert Cross(Corner(q, 5), Corner(q, 3), p) == -dy;
  }

  /** The entries make_square draws: those with a non-negative tile, in iteration order. */
  function Drawn(bg: seq<BackgroundEntry>): (r: seq<BackgroundEntry>)
    ensures forall e :: e in r <==> e in bg && e.tile >= 0
    ensures |r| == Total(QuadCount, bg)
  {
    if bg == [] then []
    else
      var last := bg[|bg| - 1];
      Drawn(bg[..|bg| - 1]) + (if last.tile >= 0 then [last] else [])
  }

  lemma DrawnStep(bg: seq<BackgroundEntry>, p: nat)
    requires p < |bg|
    ensures bg[p].tile >= 0 ==> Drawn(bg[..p + 1]) == Drawn(bg[..p]) + [bg[p]]
    ensures bg[p].tile < 0 ==> Drawn(bg[..p + 1]) == Drawn(bg[..p])
  {
    assert bg[..p + 1][..p] == bg[..p];
  }

  /** Quads one entry contributes: one when its tile is non-negative. */
  function QuadCount(e: BackgroundEntry): nat
  {
    if e.tile >= 0 then 1 else 0
  }

  /** The cells that get a background quad. */
  function ShownCells(bg: seq<BackgroundEntry>): set<Cell>
  {
    set e | e in bg && e.tile >= 0 :: e.cell
  }

  /**
   * make_square: push the quad of every entry with a non-negative tile onto
   * a growing float vector.
   */
  method MakeSquare(background: seq<BackgroundEntry>) returns (m: seq<real>)
    ensures m == Blocks(Quad, Drawn(background))
    ensures |m| == QuadFloats * Total(QuadCount, background)
  {
    m := [];
    for p := 0 to |background|
      invariant m == Blocks(Quad, Drawn(background[..p]))
    {
      var e := background[p];
      ghost var before := Drawn(background[..p]);
      DrawnStep(background, p);
      if e.tile >= 0 {
        assert Drawn(background[..p + 1]) == before + [e];
        BlocksAppend(Quad, before, e);
        m := m + Quad(e);
      } else {
        assert Drawn(background[..p + 1]) == before;
      }
    }
    assert background[..|background|] == background;
    BlocksLength(Quad, QuadFloats, Drawn(background));
  }

  /**
   * Over a map snapshot, the number of quads is the number of distinct cells
   * with a non-negative tile, whatever the iteration order.
   */
  lemma {:induction false} QuadCountIsShownCells(bg: seq<BackgroundEntry>)
    requires DistinctBackgroundCells(bg)
    ensures Total(QuadCount, bg) == |ShownCells(bg)|
  {
    if bg != [] {
      var init, last := bg[..|bg| - 1], bg[|bg| - 1];
      assert DistinctBackgroundCells(init);
      QuadCountIsShownCells(init);
      LastCellIsNew(bg);
      ShownCellsStep(bg);
    }
  }

  /** In a map snapshot the last entry's cell is not among the cells shown before it. */
  lemma LastCellIsNew(bg: seq<BackgroundEntry>)
    requires bg != [] && DistinctBackgroundCells(bg)
    ensures bg[|bg| - 1].cell !in ShownCells(bg[..|bg| - 1])
  {
    var init, last := bg[..|bg| - 1], bg[|bg| - 1];
    forall e | e in init
      ensures e.cell != last.cell
    {
      var p :| 0 <= p < |init| && init[p] == e;
      assert bg[p] == e;
    }
  }

  lemma ShownCellsStep(bg: seq<BackgroundEntry>)
    requires bg != []
    ensures var init, last := bg[..|bg| - 1], bg[|bg| - 1];
      ShownCells(bg) == ShownCells(init) + (if last.tile >= 0 then {last.cell} else {})
  {
    var init, last := bg[..|bg| - 1], bg[|bg| - 1];
    assert bg == init + [last];
    assert forall e :: e in bg <==> e in init || e == last;
  }

  /** Block k of make_square's output is the quad of the k-th drawn entry. */
  lemma SquareBlockAt(background: seq<BackgroundEntry>, k: nat)
    requires k < Total(QuadCount, background)
    ensures var m, e := Blocks(Quad, Drawn(background)), Drawn(background)[k];
      QuadFloats * k + QuadFloats <= |m| &&
      m[QuadFloats * k..QuadFloats * k + QuadFloats] == Quad(e) &&
      e in background && e.tile >= 0
  {
    BlocksAt(Quad, QuadFloats, Drawn(background), k);
  }
}
