# HUD geometry and hit test

A model of the inventory overlay ("HUD") core of a voxel-game client, `src/hud_shader.cpp`. The overlay is a grid of
`columns × rows` cells. A cell may hold a background tile and an item stack (an item type and an amount). Each frame,
three assemblers turn the sparse grid into flat float buffers for the GPU:

- `make_square` emits one textured unit quad for every background entry whose tile is non-negative. A quad is 6
  vertices of 7 floats.
- `make_stacks` writes one 360-float cube block for every stack.
- The counting loop of `AmountModel`'s constructor sizes the count-glyph buffer. `make_stack_amounts` then writes one
  42-float glyph for every decimal digit of every non-zero amount, right-anchored in the cell.

The model also covers `render`'s transform uniforms and their inverse, `clicked_at`. That function maps a mouse
pixel back to the grid cell drawn under it.

Modules:

- `Grid`: cells, entries and `Total`. A snapshot of an `unordered_map` is a sequence of entries with distinct cells.
  `Total` is the sum over such a snapshot, with a proof that it does not depend on the iteration order.
- `Decimal`: `std::to_string` of a non-negative amount, with its round trip and length bounds.
- `Buffers`: buffers made of fixed-size blocks laid end to end (`Blocks`), and the block writer every assembler uses.
- `Background`: `make_square`, its quad geometry and its texture coordinates.
- `ItemStacks`: `make_stacks`.
- `Amounts`: the counting pass, `make_stack_amounts` and the glyph layout.
- `Models`: the three vertex-model classes and their vertex counts.
- `Projection`: `render`'s matrix and offset, the pixel mapping, and `clicked_at`.

`Models.AmountModel` has two constructors. `AsWritten` follows `AmountModel::AmountModel` line by line, with its
own count of 2 glyphs for any amount above 9; it is defined only while every amount is below 100. The unnamed
constructor sizes the buffer by one glyph per digit, the count the writer needs (see Findings).

## Model

| member | source | states |
|---|---|---|
| Grid.TotalPermutation | src/hud_shader.cpp:54-64 | A per-entry count summed over a map snapshot is the same for every iteration order of the same entries |
| Grid.TotalPrefix | src/hud_shader.cpp:263-273 | The count over any prefix of the iteration never exceeds the count over the whole snapshot, so a running index stays below the total |
| Decimal.Digits | src/hud_shader.cpp:267 | `to_string` of an amount is a non-empty string of the characters '0'..'9' |
| Decimal.DigitsRoundTrip | src/hud_shader.cpp:267 | Reading the decimal string of n back gives n |
| Decimal.DigitsNoLeadingZero | src/hud_shader.cpp:267 | The string starts with '0' exactly when the amount is 0 |
| Decimal.DigitsLength | src/hud_shader.cpp:267 | n has at most k digits if and only if n < 10^k |
| Decimal.DigitsRange | src/hud_shader.cpp:267 | A positive amount of r digits lies in [10^(r−1), 10^r) |
| Decimal.DigitsWidth | src/hud_shader.cpp:59-63 | One digit below 10, two from 10 to 99, at least three from 100 on |
| Buffers.BlocksLength | src/hud_shader.cpp:246 | A buffer of n-float blocks holds exactly n floats per argument |
| Buffers.BlocksAt | src/hud_shader.cpp:248 | Block k starts at offset n·k and is the builder's output for argument k |
| Buffers.BlocksConcat | src/hud_shader.cpp:263-273 | The blocks for two runs of arguments are the blocks of the first followed by those of the second |
| Buffers.WriteBlock | src/hud_shader.cpp:248-251 | Writing a block at `d + off` sets exactly those floats and leaves the rest of the buffer unchanged |
| Background.Emit | src/hud_shader.cpp:210-212 | One vertex is 7 floats |
| Background.QuadCorners | src/hud_shader.cpp:210-227 | The six corners of a quad each sit on a corner of the cell, with u = t·0.25 + (x−i)·0.25 and v = y−j |
| Background.Quad | src/hud_shader.cpp:210-227 | One drawn entry contributes exactly 42 floats |
| Background.QuadVertex | src/hud_shader.cpp:204-227 | Each of the 6 vertices of cell (i,j) has x ∈ {i,i+1}, y ∈ {j,j+1} and z = 0. Its u is t·0.25 + (x−i)·0.25, so u ∈ {t·ts, t·ts+ts}. Its v is y−j ∈ {0,1}, and its last two channels are 0 |
| Background.CornerOfQuad | src/hud_shader.cpp:210-227 | The position of vertex k is the k-th corner in push order |
| Background.QuadTriangles | src/hud_shader.cpp:210-227 | The triangles are (i,j+1),(i+1,j+1),(i,j) and (i,j),(i+1,j+1),(i+1,j). Both have the same winding and area 1/2 |
| Background.QuadCoversCell | src/hud_shader.cpp:210-227 | A point lies in one of the quad's two triangles if and only if it lies in the cell's closed unit square |
| Background.Drawn | src/hud_shader.cpp:205-209 | An entry is drawn if and only if it is in the snapshot with tile ≥ 0. There is one drawn entry per tile ≥ 0 |
| Background.DrawnStep | src/hud_shader.cpp:209 | A loop step appends the entry when tile ≥ 0 and leaves the drawn list unchanged otherwise |
| Background.MakeSquare | src/hud_shader.cpp:202-231 | The vector is the quads of the drawn entries in iteration order: 42 floats per entry with tile ≥ 0 and none for tile < 0 |
| Background.QuadCountIsShownCells | src/hud_shader.cpp:205-209 | Over a map snapshot, the number of quads is the number of distinct cells with a non-negative tile |
| Background.SquareBlockAt | src/hud_shader.cpp:205-228 | Block k of the vector is the quad of a snapshot entry with tile ≥ 0 |
| ItemStacks.CubeCalls | src/hud_shader.cpp:247-253 | There is one make_cube call per stack entry |
| ItemStacks.CubeCallOf | src/hud_shader.cpp:248-251 | A stack's cube has the stack's item type, all faces, z = 0, and lies strictly inside its cell even reaching its size to every side of its centre |
| ItemStacks.CubeStep | src/hud_shader.cpp:248-252 | Writing stack i's cube extends the buffer for the first i stacks by that cube |
| ItemStacks.MakeStacks | src/hud_shader.cpp:233-255 | The buffer has 360·size floats, and they are exactly the cubes of the stacks in iteration order |
| ItemStacks.StackCubeAt | src/hud_shader.cpp:245-253 | The cube at offset 360·k is centred at (col+0.5, row+0.5, 0) with size 0.35, ao 0, light 0.5, all faces, and the stack's item type. This holds whatever the amount |
| ItemStacks.CubeCountIsStackCells | src/hud_shader.cpp:246-253 | Over a map snapshot, the number of cubes is the number of distinct stack cells: one cube per key of the stack map |
| Amounts.CountTextLength | src/hud_shader.cpp:54-64 | The loop as written sums 0 for amount 0, 2 above 9 and 1 otherwise |
| Amounts.CountGlyphs | src/hud_shader.cpp:54-64 | The corrected loop sums the digit count of every non-zero amount |
| Amounts.LegacyWidth | src/hud_shader.cpp:56-63 | The count as written gives at most 2 glyphs per stack, and 0 exactly for amount 0 |
| Amounts.GlyphWidth | src/hud_shader.cpp:264-268 | The writer emits no glyph exactly for amount 0; an amount of r ≥ 1 glyphs lies in [10^(r−1), 10^r) |
| Amounts.LegacyWidthAgrees | src/hud_shader.cpp:59-63 | For one stack, the count as written never exceeds the digits written, and equals them if and only if the amount is below 100 |
| Amounts.LegacyTotalFits | src/hud_shader.cpp:59-63 | The writes fit the buffer sized by the count as written if and only if every amount is below 100 |
| Amounts.LegacyOverflowExample | src/hud_shader.cpp:59-63 | One stack of 100 items gets 2 glyphs reserved, but 3 glyphs are written |
| Amounts.DigitGlyphs | src/hud_shader.cpp:268-271 | One make_character call per character of the amount's string |
| Amounts.DigitGlyphsLayout | src/hud_shader.cpp:268-271 | The glyphs of one amount spell its string on y = row+0.25. They run left to right exactly 0.3 apart, and the last one is at col+0.75 |
| Amounts.GlyphCalls | src/hud_shader.cpp:263-273 | There is one make_character call per digit of every non-zero amount |
| Amounts.EntryGlyphs | src/hud_shader.cpp:264-272 | A stack gets one glyph per digit, none for amount 0; the glyphs spell its decimal string on y = row+0.25 |
| Amounts.GlyphCallsStep | src/hud_shader.cpp:263-267 | Stack p's glyphs follow those of the stacks before it |
| Amounts.GlyphTextIsAmounts | src/hud_shader.cpp:263-273 | The glyph characters, in order, are the decimal strings of the non-zero amounts, in iteration order |
| Amounts.GlyphOwner | src/hud_shader.cpp:263-271 | Every glyph lies on the row of some stack with a non-zero amount, between that stack's first digit place and col+0.75 |
| Amounts.GlyphCallsConcat | src/hud_shader.cpp:263-273 | The glyphs of two runs of stacks are those of the first followed by those of the second |
| Amounts.EntryGlyphsAt | src/hud_shader.cpp:263-273 | Stack p's glyphs are its own digit glyphs, at the glyph index where the stacks before it end |
| Amounts.WriteDigits | src/hud_shader.cpp:268-272 | The inner loop appends one glyph per character at the running index, advances the index by the string length, and leaves the buffer past the new glyphs unchanged |
| Amounts.MakeStackAmounts | src/hud_shader.cpp:257-275 | The buffer holds 42·total floats. When total covers every digit, its prefix is exactly the glyphs of all non-zero amounts in iteration order |
| Models.HudModel.constructor | src/hud_shader.cpp:90-102 | The data is make_square's vector, and verts = data.size()/7 = 6·(entries with tile ≥ 0) |
| Models.ItemStackModel.constructor | src/hud_shader.cpp:20-34 | The data is make_stacks' buffer of 10·verts floats, and verts = 36·stacks.size() |
| Models.AmountModel.constructor | src/hud_shader.cpp:50-74 | With the corrected count: the data is the glyphs of all digits, and verts = 6·(total digits) |
| Models.AmountModel.AsWritten | src/hud_shader.cpp:50-74 | With the count as written and every amount below 100: verts = 6·(0 / 2 / 1 per stack), which equals 6·(total digits), and the data is the glyphs of all digits |
| Projection.Scale | src/hud_shader.cpp:162 | The cell scale 4/columns is positive |
| Projection.XScale | src/hud_shader.cpp:163 | The aspect correction height/width is positive |
| Projection.RenderMatrix | src/hud_shader.cpp:181-188 | The matrix is diagonal with 1, 1 in z and w. The grid is 1.2 × the window height wide in pixels, whatever the number of columns, and a cell is as many pixels wide as high |
| Projection.RenderOffset | src/hud_shader.cpp:189 | Row 0 sits on the bottom edge of the window and the columns are centred horizontally |
| Projection.GridToDevice | src/hud_shader.cpp:181-189 | Where render draws a grid point: x is scaled about the grid's horizontal centre columns/2, y is scaled up from −1 |
| Projection.PixelToDevice | src/hud_shader.cpp:159-160 | Pixels inside the window map into [−1, 1] on each axis and no others; the top row of pixels maps to y = 1 |
| Projection.DeviceToGrid | src/hud_shader.cpp:162-167 | The inventory position is non-negative exactly right of the grid's left edge and above the window's bottom edge |
| Projection.Trunc | src/hud_shader.cpp:171 | (int) truncates toward zero: the floor for non-negative values, the ceiling for negative ones |
| Projection.ClickedAt | src/hud_shader.cpp:156-175 | A cell is returned if and only if 0 ≤ ix < columns and 0 ≤ iy < rows. The cell is in bounds, and its unit square contains (ix, iy) |
| Projection.PixelDeviceInverse | src/hud_shader.cpp:159-160 | The pixel-to-device step and the window mapping are inverse to each other, both ways |
| Projection.GridDeviceInverse | src/hud_shader.cpp:166-167 | The inventory-position step inverts render's matrix and offset (lines 182-189), and conversely |
| Projection.ScreenRoundTrip | src/hud_shader.cpp:159-167 | The hit test's position is the left and right inverse of where render draws a grid point |
| Projection.ClickHitsDrawnCell | src/hud_shader.cpp:166-171 | Clicking any drawn point of an in-bounds cell's half-open square [col, col+1) × [row, row+1) returns that cell |
| Projection.ClickCentre | src/hud_shader.cpp:166-171 | The pixel of the centre (c+0.5, r+0.5) of an in-bounds cell maps back to (c, r) |
| Projection.ClickOutsideGrid | src/hud_shader.cpp:170-174 | A pixel drawn outside the grid rectangle returns nothing |
| Projection.ClickLandsOnQuad | src/hud_shader.cpp:170-171 | A click that returns a cell lands inside that cell's background quad |

## Left out

- OpenGL work is graphics I/O and is left out: buffer generation and upload, `bind`, the attribute pointers, `Context`
  and the draw order in `render`. The shader's `vec4(position, 1.0) * matrix + offset` is modelled as
  `Projection.Place`; the GLSL text itself is not.
- `make_cube` and `make_character` live in `cube.h`, which is not part of this model. They are function parameters.
  Only their block size (360 or 42 floats) is assumed, and the model records the arguments each call receives.
- Integer widths: counts, indices and buffer sizes are unbounded integers. The source's `int` arithmetic (lines 54-72,
  245-261) would wrap past 2^31 and is not modelled, nor is the 10-digit limit of a 32-bit amount.
- Float and double rounding: all geometry and the transform are over exact reals. `(int)` is truncation toward zero
  (`Projection.Trunc`).
- Projection.ClickedAt: requires width, height and columns to be positive. The code divides by them unchecked, and
  the infinities or NaN that IEEE division would then produce are not modelled.
- The window mapping from device coordinates to pixels (`Projection.DeviceToPixel`) is the usual viewport mapping with
  y measured from the top. The driver applies it; the source does not show it.
- An item amount is a non-negative integer. `item.h` is not part of this model; a negative amount would give
  `to_string` a leading '-'.
- The `Hud` store (`hud.h`), its held stack and `isActiveAt` are not part of this model. The assemblers take snapshots
  of its two maps.
- `matrix.h` (matrix routines and `matrix_hash`) is not part of this model. The iteration order it induces is
  arbitrary: a snapshot is any order of the entries, and `Grid.TotalPermutation` shows that the counts do not depend
  on it.
- Models.AmountModel.AsWritten: requires every amount to be below 100. For larger amounts the source writes past
  the end of its buffer (see Findings), which the model does not represent.
- Amounts.MakeStackAmounts: states nothing about the part of the buffer past the written glyphs. `new float[]` leaves
  it uninitialised, and with the corrected count it is empty.
- Background.MakeSquare: the vector is modelled as a value that grows by one 42-float quad per drawn entry, rather
  than 42 separate `push_back` calls.
- The `vertices()` accessors return the `verts` field of each model class.

## Findings

| source | as written | input that shows it | evidently intended | confidence | as-written member | corrected member |
|---|---|---|---|---|---|---|
| src/hud_shader.cpp:59-63 | The counting loop reserves 2 glyphs for every amount above 9. `make_stack_amounts` (lines 267-271) writes one glyph per character of `to_string(amount)`, into a buffer of `total * 7 * 6` floats | One stack with amount 100: 2 glyphs (84 floats) are reserved and 3 glyphs (126 floats) are written, past the end of the buffer | Reserve one glyph per decimal digit of every non-zero amount | not executed | Amounts.CountTextLength, Amounts.LegacyOverflowExample | Amounts.CountGlyphs |
