/**
 * The item-cube assembler (make_stacks): one cube per stack entry, written
 * into a buffer allocated for exactly one 360-float cube per entry. The cube
 * builder itself (make_cube) is not part of this model; it is the parameter
 * `cube`, of which only the block size is known, and the model records the
 * arguments each stack passes to it.
 */
module ItemStacks {
  import opened Grid
  import opened Buffers

  /** Floats per cube vertex: 3 for the position, 3 for the normal, 4 for the uv channels. */
  const CubeStride: nat := 10
  /** Vertices per cube: 6 faces of 2 triangles of 3 vertices. */
  const CubeVertices: nat := 36
  /** Floats per cube (10 * 6 * 6). */
  const CubeFloats: nat := 360
  /** The cube size make_stacks asks for. */
  const CubeSize: real := 0.35

  /**
   * The arguments of one make_cube call: the ambient-occlusion and light value
   * used for every corner of every face, whether all six faces are drawn, the
   * centre (x, y, z), the size and the item type that selects the face textures.
   */
  datatype CubeCall = CubeCall(ao: real, light: real, allFaces: bool,
                               x: real, y: real, z: real, size: real, itemType: int)

  /**
   * The cube make_stacks requests for one stack: centred in its cell, in the
   * plane z = 0, with the stack's item type. Even reaching `size` to every side
   * of its centre, the cube stays strictly inside its cell.
   */
  function CubeCallOf(e: StackEntry): (r: CubeCall)
    ensures r.itemType == e.stack.itemType && r.z == 0.0 && r.allFaces
    ensures e.cell.col as real < r.x - r.size && r.x + r.size < e.cell.col as real + 1.0
    ensures e.cell.row as real < r.y - r.size && r.y + r.size < e.cell.row as real + 1.0
  {
    CubeCall(0.0, 0.5, true, e.cell.col as real + 0.5, e.cell.row as real + 0.5, 0.0,
             CubeSize, e.stack.itemType)
  }

  /** The make_cube calls of a snapshot, one per entry and in iteration order. */
  function CubeCalls(stacks: seq<StackEntry>): (r: seq<CubeCall>)
    ensures |r| == |stacks|
  {
    seq(|stacks|, k requires 0 <= k < |stacks| => CubeCallOf(stacks[k]))
  }

  /** Writing stack i's cube extends the buffer for the first i stacks by one cube. */
  lemma CubeStep(stacks: seq<StackEntry>, cube: CubeCall -> seq<real>, i: nat)
    requires i < |stacks|
    ensures Blocks(cube, CubeCalls(stacks[..i])) + cube(CubeCallOf(stacks[i])) ==
            Blocks(cube, CubeCalls(stacks[..i + 1]))
  {
    assert CubeCalls(stacks[..i + 1]) == CubeCalls(stacks[..i]) + [CubeCallOf(stacks[i])];
    BlocksAppend(cube, CubeCalls(stacks[..i]), CubeCallOf(stacks[i]));
  }

  /**
   * make_stacks: allocate |stacks| * 360 floats and let make_cube fill the
   * k-th 360-float block for the k-th stack.
   */
  method MakeStacks(stacks: seq<StackEntry>, cube: CubeCall -> seq<real>) returns (d: array<real>)
    requires forall c :: |cube(c)| == CubeFloats
    ensures fresh(d)
    ensures d.Length == CubeFloats * |stacks|
    ensures d[..] == Blocks(cube, CubeCalls(stacks))
  {
    d := new real[CubeFloats * |stacks|];
    var i := 0;
    while i < |stacks|
      invariant 0 <= i <= |stacks|
      invariant d.Length == CubeFloats * |stacks|
      invariant d[..CubeFloats * i] == Blocks(cube, CubeCalls(stacks[..i]))
    {
      CubeStep(stacks, cube, i);
      WriteBlock(d, CubeFloats * i, cube(CubeCallOf(stacks[i])));
      i := i + 1;
    }
    assert stacks[..i] == stacks;
    assert d[..] == d[..CubeFloats * i];
  }

  /**
   * The k-th cube sits at offset 360 * k: it is centred at (col + 0.5, row + 0.5, 0),
   * has size 0.35 and the stack's item type, whatever the stack's amount.
   */
  lemma StackCubeAt(stacks: seq<StackEntry>, cube: CubeCall -> seq<real>, k: nat)
    requires forall c :: |cube(c)| == CubeFloats
    requires k < |stacks|
    ensures var d, e := Blocks(cube, CubeCalls(stacks)), stacks[k];
      |d| == CubeFloats * |stacks| &&
      d[CubeFloats * k..CubeFloats * k + CubeFloats] ==
        cube(CubeCall(0.0, 0.5, true, e.cell.col as real + 0.5, e.cell.row as real + 0.5, 0.0,
                      0.35, e.stack.itemType))
  {
    BlocksLength(cube, CubeFloats, CubeCalls(stacks));
    BlocksAt(cube, CubeFloats, CubeCalls(stacks), k);
  }

  /** The cells of the stack map's keys. */
  function StackCells(stacks: seq<StackEntry>): set<Cell>
  {
    set e | e in stacks :: e.cell
  }

  /**
   * Over a map snapshot, the number of cubes is the number of distinct stack
   * cells: one cube per key of the stack map.
   */
  lemma {:induction false} CubeCountIsStackCells(stacks: seq<StackEntry>)
    requires DistinctStackCells(stacks)
    ensures |CubeCalls(stacks)| == |StackCells(stacks)|
  {
    if stacks != [] {
      var init, last := stacks[..|stacks| - 1], stacks[|stacks| - 1];
      assert DistinctStackCells(init);
      CubeCountIsStackCells(init);
      LastStackCellIsNew(stacks);
      assert stacks == init + [last];
      assert StackCells(stacks) == StackCells(init) + {last.cell} by {
        assert forall e :: e in stacks <==> e in init || e == last;
      }
    }
  }

  /** In a map snapshot the last entry's cell is not among the cells before it. */
  lemma LastStackCellIsNew(stacks: seq<StackEntry>)
    requires stacks != [] && DistinctStackCells(stacks)
    ensures stacks[|stacks| - 1].cell !in StackCells(stacks[..|stacks| - 1])
  {
    var init, last := stacks[..|stacks| - 1], stacks[|stacks| - 1];
    forall e | e in init
      ensures e.cell != last.cell
    {
      var p :| 0 <= p < |init| && init[p] == e;
      assert stacks[p] == e;
    }
  }
}
