/**
 * The screen transform render sets up and its inverse, clicked_at. Both are
 * computed from one set of parameters: the cell scale 4 / columns, the
 * aspect correction height / width and the screen-area fraction 0.6. Over
 * exact reals the hit test is the exact inverse of where render draws.
 */
module Projection {
  import opened Grid
  import Background

  /** Fraction of the viewport the grid spans. */
  const ScreenArea: real := 0.6

  /** A 4-component vector (the shader's vec4). */
  datatype Vec4 = Vec4(x: real, y: real, z: real, w: real)

  /** A 4x4 matrix given by its columns, as `m.col(k) << ...` fills it. */
  datatype Mat4 = Mat4(c0: Vec4, c1: Vec4, c2: Vec4, c3: Vec4)

  /** The window size in pixels and the grid's size in cells. */
  datatype View = View(width: int, height: int, columns: int, rows: int)

  /** The sizes the transform divides by are positive. */
  predicate ValidView(v: View)
  {
    v.width > 0 && v.height > 0 && v.columns > 0
  }

  /** The cell scale: the grid is 4 units wide whatever its number of columns. */
  function Scale(v: View): (s: real)
    requires ValidView(v)
    ensures s > 0.0
  {
    4.0 / v.columns as real
  }

  /** The aspect correction height / width. */
  function XScale(v: View): (a: real)
    requires ValidView(v)
    ensures a > 0.0
  {
    v.height as real / v.width as real
  }

  /**
   * The matrix render sets: diagonal (scale * 0.6 * xscale, scale * 0.6, 1, 1).
   * The grid is 1.2 times the window height wide in pixels whatever the
   * number of columns, and a cell is as many pixels wide as it is high.
   */
  function RenderMatrix(v: View): (m: Mat4)
    requires ValidView(v)
    ensures m.c0 == Vec4(m.c0.x, 0.0, 0.0, 0.0) && m.c1 == Vec4(0.0, m.c1.y, 0.0, 0.0)
    ensures m.c2 == Vec4(0.0, 0.0, 1.0, 0.0) && m.c3 == Vec4(0.0, 0.0, 0.0, 1.0)
    ensures m.c1.y * v.columns as real == 4.0 * ScreenArea
    ensures m.c0.x * v.width as real == m.c1.y * v.height as real
    ensures (m.c0.x * v.columns as real) * v.width as real / 2.0 == 1.2 * v.height as real
  {
    var w, h, c := v.width as real, v.height as real, v.columns as real;
    assert Scale(v) * c == 4.0;
    assert XScale(v) * w == h;
    Mat4(Vec4(Scale(v) * ScreenArea * XScale(v), 0.0, 0.0, 0.0),
         Vec4(0.0, Scale(v) * ScreenArea, 0.0, 0.0),
         Vec4(0.0, 0.0, 1.0, 0.0),
         Vec4(0.0, 0.0, 0.0, 1.0))
  }

  /**
   * The offset render sets: (-2 * xscale * 0.6, -1, 0, 0). It puts row 0 on
   * the bottom edge of the window and centres the grid's columns horizontally.
   */
  function RenderOffset(v: View): (o: Vec4)
    requires ValidView(v)
    ensures o.y == -1.0 && o.z == 0.0 && o.w == 0.0
    ensures o.x == -(RenderMatrix(v).c0.x * v.columns as real) / 2.0
  {
    assert Scale(v) * v.columns as real == 4.0;
    Vec4(-2.0 * XScale(v) * ScreenArea, -1.0, 0.0, 0.0)
  }

  function Dot(a: Vec4, b: Vec4): real
  {
    a.x * b.x + a.y * b.y + a.z * b.z + a.w * b.w
  }

  /** The vertex shader's placement: vec4(position, 1.0) * matrix + offset (a row vector times the matrix). */
  function Place(p: Vec4, m: Mat4, off: Vec4): Vec4
  {
    Vec4(Dot(p, m.c0) + off.x, Dot(p, m.c1) + off.y, Dot(p, m.c2) + off.z, Dot(p, m.c3) + off.w)
  }

  /** Where render draws grid-space point (gx, gy, 0), in normalised device coordinates. */
  function GridToDevice(v: View, g: Point): (d: Point)
    requires ValidView(v)
    ensures d.x == RenderMatrix(v).c0.x * (g.x - v.columns as real / 2.0)
    ensures d.y == RenderMatrix(v).c1.y * g.y - 1.0
  {
    var p := Place(Vec4(g.x, g.y, 0.0, 1.0), RenderMatrix(v), RenderOffset(v));
    Point(p.x, p.y)
  }

  /** The window mapping: device coordinates (-1..1, y up) to pixels (origin top-left, y down). */
  function DeviceToPixel(v: View, d: Point): Point
    requires ValidView(v)
  {
    Point((d.x + 1.0) / 2.0 * v.width as real,
                     v.height as real - (d.y + 1.0) / 2.0 * v.height as real)
  }

  /** For a positive k, a lies in [0, k] exactly when a / k lies in [0, 1]. */
  lemma UnitFraction(a: real, k: real)
    requires k > 0.0
    ensures 0.0 <= a <= k <==> 0.0 <= a / k <= 1.0
  {
    var q := a / k;
    assert a == q * k;
    if q < 0.0 {
      assert q * k < 0.0;
    } else if q > 1.0 {
      assert q * k > 1.0 * k;
    }
  }

  /** clicked_at's first step: pixel to device coordinates, with y inverted. */
  function PixelToDevice(v: View, x: real, y: real): (d: Point)
    requires ValidView(v)
    ensures 0.0 <= x <= v.width as real <==> -1.0 <= d.x <= 1.0
    ensures 0.0 <= y <= v.height as real <==> -1.0 <= d.y <= 1.0
    ensures y == 0.0 ==> d.y == 1.0
  {
    var w, h := v.width as real, v.height as real;
    UnitFraction(x, w);
    UnitFraction(h - y, h);
    Point((x / v.width as real) * 2.0 - 1.0,
                     ((v.height as real - y) / v.height as real) * 2.0 - 1.0)
  }

  /** clicked_at's second step: device coordinates to the inventory position (ix, iy). */
  function DeviceToGrid(v: View, d: Point): (g: Point)
    requires ValidView(v)
    ensures g.x >= 0.0 <==> d.x >= RenderOffset(v).x
    ensures g.y >= 0.0 <==> d.y >= -1.0
  {
    var kx, ky := Scale(v) * XScale(v) * ScreenArea, Scale(v) * ScreenArea;
    assert kx > 0.0 && ky > 0.0;
    assert ((d.x + 2.0 * XScale(v) * ScreenArea) / kx) * kx == d.x + 2.0 * XScale(v) * ScreenArea;
    assert ((d.y + 1.0) / ky) * ky == d.y + 1.0;
    Point((d.x + 2.0 * XScale(v) * ScreenArea) / (Scale(v) * XScale(v) * ScreenArea),
                     (d.y + 1.0) / (Scale(v) * ScreenArea))
  }

  /** The pixel at which render draws grid-space point g. */
  function ScreenPixel(v: View, g: Point): Point
    requires ValidView(v)
  {
    DeviceToPixel(v, GridToDevice(v, g))
  }

  /** The inventory position clicked_at computes for pixel (x, y). */
  function PixelToGrid(v: View, x: real, y: real): Point
    requires ValidView(v)
  {
    DeviceToGrid(v, PixelToDevice(v, x, y))
  }

  /** C++'s (int) conversion: truncation toward zero. */
  function Trunc(r: real): (t: int)
    ensures r >= 0.0 ==> t as real <= r < t as real + 1.0
    ensures r < 0.0 ==> t as real - 1.0 < r <= t as real
  {
    if r >= 0.0 then r.Floor else -((-r).Floor)
  }

  /** A position inside the grid's rectangle [0, columns) x [0, rows). */
  predicate InGrid(v: View, g: Point)
  {
    0.0 <= g.x < v.columns as real && 0.0 <= g.y < v.rows as real
  }

  /**
   * clicked_at: the cell under pixel (x, y), or nothing when the pixel is
   * outside the grid. A returned cell is inside the grid and is the cell
   * whose unit square holds the pixel's inventory position.
   */
  function ClickedAt(v: View, x: real, y: real): (r: Option<Cell>)
    requires ValidView(v)
    ensures r.Some? <==> InGrid(v, PixelToGrid(v, x, y))
    ensures r.Some? ==> 0 <= r.value.col < v.columns && 0 <= r.value.row < v.rows
    ensures r.Some? ==>
      var g := PixelToGrid(v, x, y);
      r.value.col as real <= g.x < r.value.col as real + 1.0 &&
      r.value.row as real <= g.y < r.value.row as real + 1.0
  {
    var g := PixelToGrid(v, x, y);
    if g.x >= 0.0 && g.x < v.columns as real && g.y >= 0.0 && g.y < v.rows as real then
      Some(Cell(Trunc(g.x), Trunc(g.y)))
    else
      None
  }

  lemma DivCancel(a: real, k: real)
    requires k != 0.0
    ensures (a * k) / k == a
  {
  }

  /** Pixel and device coordinates convert into each other without loss, both ways. */
  lemma PixelDeviceInverse(v: View, d: Point, x: real, y: real)
    requires ValidView(v)
    ensures var p := DeviceToPixel(v, d); PixelToDevice(v, p.x, p.y) == d
    ensures DeviceToPixel(v, PixelToDevice(v, x, y)) == Point(x, y)
  {
    var w, h := v.width as real, v.height as real;
    var p := DeviceToPixel(v, d);
    DivCancel((d.x + 1.0) / 2.0, w);
    assert h - p.y == (d.y + 1.0) / 2.0 * h;
    DivCancel((d.y + 1.0) / 2.0, h);
    var q := PixelToDevice(v, x, y);
    assert (q.x + 1.0) / 2.0 == x / w;
    assert (q.y + 1.0) / 2.0 == (h - y) / h;
  }

  /** The hit test's grid step undoes render's placement, and conversely. */
  lemma GridDeviceInverse(v: View, g: Point, d: Point)
    requires ValidView(v)
    ensures DeviceToGrid(v, GridToDevice(v, g)) == g
    ensures GridToDevice(v, DeviceToGrid(v, d)) == d
  {
    var s, a := Scale(v), XScale(v);
    var kx, ky := s * ScreenArea * a, s * ScreenArea;
    assert kx > 0.0 && ky > 0.0;
    var dev := GridToDevice(v, g);
    assert dev.x == g.x * kx - 2.0 * a * ScreenArea;
    assert dev.y == g.y * ky - 1.0;
    assert s * a * ScreenArea == kx;
    DivCancel(g.x, kx);
    DivCancel(g.y, ky);
    var back := DeviceToGrid(v, d);
    assert back.x == (d.x + 2.0 * a * ScreenArea) / kx;
    assert back.y == (d.y + 1.0) / ky;
    assert back.x * kx == d.x + 2.0 * a * ScreenArea;
    assert back.y * ky == d.y + 1.0;
  }

  /**
   * clicked_at is the left and right inverse of render's transform: the
   * pixel where a grid point is drawn maps back to that grid point, and the
   * grid position of any pixel is drawn at that pixel.
   */
  lemma ScreenRoundTrip(v: View, g: Point, x: real, y: real)
    requires ValidView(v)
    ensures var p := ScreenPixel(v, g); PixelToGrid(v, p.x, p.y) == g
    ensures ScreenPixel(v, PixelToGrid(v, x, y)) == Point(x, y)
  {
    PixelDeviceInverse(v, GridToDevice(v, g), x, y);
    GridDeviceInverse(v, g, PixelToDevice(v, x, y));
  }

  /**
   * Clicking anywhere render draws the half-open square [col, col + 1) x
   * [row, row + 1) of a cell inside the grid returns that cell.
   */
  lemma ClickHitsDrawnCell(v: View, c: Cell, g: Point)
    requires ValidView(v)
    requires 0 <= c.col < v.columns && 0 <= c.row < v.rows
    requires c.col as real <= g.x < c.col as real + 1.0 && c.row as real <= g.y < c.row as real + 1.0
    ensures var p := ScreenPixel(v, g); ClickedAt(v, p.x, p.y) == Some(c)
  {
    var p := ScreenPixel(v, g);
    ScreenRoundTrip(v, g, 0.0, 0.0);
    assert PixelToGrid(v, p.x, p.y) == g;
    assert Trunc(g.x) == c.col && Trunc(g.y) == c.row;
  }

  /** The centre of every cell of the grid is hit as that cell. */
  lemma ClickCentre(v: View, c: Cell)
    requires ValidView(v)
    requires 0 <= c.col < v.columns && 0 <= c.row < v.rows
    ensures var p := ScreenPixel(v, Point(c.col as real + 0.5, c.row as real + 0.5));
      ClickedAt(v, p.x, p.y) == Some(c)
  {
    ClickHitsDrawnCell(v, c, Point(c.col as real + 0.5, c.row as real + 0.5));
  }

  /** Pixels where render draws nothing of the grid's rectangle give no cell. */
  lemma ClickOutsideGrid(v: View, g: Point)
    requires ValidView(v)
    requires !InGrid(v, g)
    ensures var p := ScreenPixel(v, g); ClickedAt(v, p.x, p.y) == None
  {
    ScreenRoundTrip(v, g, 0.0, 0.0);
  }

  /**
   * A click that returns cell c lands on c's background quad: the pixel's
   * grid position lies in one of the two triangles make_square emits for c.
   */
  lemma ClickLandsOnQuad(v: View, x: real, y: real, tile: int)
    requires ValidView(v)
    requires ClickedAt(v, x, y).Some?
    ensures var e := BackgroundEntry(ClickedAt(v, x, y).value, tile);
      Background.InQuad(Background.Quad(e), PixelToGrid(v, x, y))
  {
    var e := BackgroundEntry(ClickedAt(v, x, y).value, tile);
    Background.QuadCoversCell(e, PixelToGrid(v, x, y));
  }
}
