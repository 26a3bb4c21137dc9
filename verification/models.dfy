/**
 * The three vertex models render draws. Each is built once per frame from a
 * snapshot and keeps the buffer it uploads and its vertex count (the value
 * its vertices() accessor returns). Buffer names and attribute bindings are
 * graphics-driver state and are not part of this model.
 */
module Models {
  import opened Grid
  import opened Buffers
  import opened Background
  import opened ItemStacks
  import opened Amounts

  /** The background model: one quad per entry with a non-negative tile. */
  class HudModel {
    /** The floats uploaded to the vertex buffer. */
    const data: seq<real>
    /** The vertex count, data.size() / 7. */
    const verts: nat

    constructor (background: seq<BackgroundEntry>)
      ensures data == Blocks(Quad, Drawn(background))
      ensures verts == QuadVertices * Total(QuadCount, background)
      ensures |data| == VertexFloats * verts
    {
      var m := MakeSquare(background);
      data := m;
      verts := |m| / VertexFloats;
    }
  }

  /** The item model: one cube per stack, whatever its amount. */
  class ItemStackModel {
    /** The floats uploaded to the vertex buffer (stacks.size() * 10 * 6 * 6). */
    const data: seq<real>
    /** The vertex count, stacks.size() * 6 * 6. */
    const verts: nat

    constructor (stacks: seq<StackEntry>, cube: CubeCall -> seq<real>)
      requires forall c :: |cube(c)| == CubeFloats
      ensures data == Blocks(cube, CubeCalls(stacks))
      ensures verts == CubeVertices * |stacks|
      ensures |data| == CubeStride * verts
    {
      var d := MakeStacks(stacks, cube);
      data := d[..];
      verts := |stacks| * 6 * 6;
    }
  }

  /**
   * The amount model: one glyph per digit of every non-zero amount. The
   * unnamed constructor sizes the buffer by the digit-exact count
   * (CountGlyphs). AsWritten sizes it by the count as written
   * (CountTextLength), which is too small once an amount reaches 100, so it
   * is only defined while every amount is below 100.
   */
  class AmountModel {
    /** The floats uploaded to the vertex buffer (total * 7 * 6). */
    const data: seq<real>
    /** The vertex count, total * 6. */
    const verts: nat

    constructor (stacks: seq<StackEntry>, glyph: GlyphCall -> seq<real>)
      requires forall g :: |glyph(g)| == GlyphFloats
      ensures data == Blocks(glyph, GlyphCalls(stacks))
      ensures verts == GlyphVertices * Total(GlyphWidth, stacks)
      ensures |data| == GlyphStride * verts
    {
      var total := CountGlyphs(stacks);
      var d := MakeStackAmounts(stacks, total, glyph);
      assert d[..] == d[..GlyphFloats * total];
      data := d[..];
      verts := total * 6;
    }

    constructor AsWritten(stacks: seq<StackEntry>, glyph: GlyphCall -> seq<real>)
      requires forall g :: |glyph(g)| == GlyphFloats
      requires AmountsBelow100(stacks)
      ensures data == Blocks(glyph, GlyphCalls(stacks))
      ensures verts == GlyphVertices * Total(LegacyWidth, stacks)
      ensures verts == GlyphVertices * Total(GlyphWidth, stacks)
      ensures |data| == GlyphStride * verts
    {
      var total := CountTextLength(stacks);
      LegacyTotalFits(stacks);
      var d := MakeStackAmounts(stacks, total, glyph);
      assert d[..] == d[..GlyphFloats * total];
      data := d[..];
      verts := total * 6;
    }
  }
}
