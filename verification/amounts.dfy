/**
 * The count-glyph assembler: a counting pass that sizes the buffer
 * (AmountModel's constructor) and make_stack_amounts, which writes one
 * glyph per decimal digit of every non-zero amount, right-anchored in the
 * stack's cell. The glyph builder (make_character) is not part of this
 * model; it is the parameter `glyph`, of which only the block size is known.
 *
 * The counting pass as written reserves two glyphs for every amount above 9,
 * while the writer emits one glyph per digit of std::to_string(amount); the
 * buffer is large enough exactly when every amount is below 100. The model
 * keeps the pass as written (CountTextLength) with the lemmas that show the
 * mismatch, and sizes the buffer with the digit-exact pass (CountGlyphs).
 */
module Amounts {
  import opened Grid
  import opened Decimal
  import opened Buffers

  /** Vertices per glyph quad. */
  const GlyphVertices: nat := 6
  /** Floats per glyph vertex: 3 for the position, 4 for the uv channels. */
  const GlyphStride: nat := 7
  /** Floats per glyph (7 * 6). */
  const GlyphFloats: nat := 42
  /** Horizontal distance between two digits of one amount. */
  const GlyphAdvance: real := 0.3

  /**
   * The arguments of one make_character call: the glyph's centre (x, y), its
   * half width and half height, the character drawn and the depth z.
   */
  datatype GlyphCall = GlyphCall(x: real, y: real, halfWidth: real, halfHeight: real, character: char, depth: real)

  /** Glyphs the counting pass as written reserves for one stack: 0 for amount 0, 2 above 9, else 1. */
  function LegacyWidth(e: StackEntry): (r: nat)
    ensures r <= 2
    ensures r == 0 <==> e.stack.amount == 0
  {
    if e.stack.amount == 0 then 0 else if e.stack.amount > 9 then 2 else 1
  }

  /**
   * Glyphs make_stack_amounts writes for one stack: one per decimal digit,
   * none for amount 0. A non-zero amount of r digits lies in [10^(r-1), 10^r).
   */
  function GlyphWidth(e: StackEntry): (r: nat)
    ensures r == 0 <==> e.stack.amount == 0
    ensures e.stack.amount > 0 ==> r >= 1 && Pow10(r - 1) <= e.stack.amount < Pow10(r)
  {
    if e.stack.amount == 0 then 0
    else
      DigitsRange(e.stack.amount);
      |Digits(e.stack.amount)|
  }

  /** Every amount in the snapshot has at most two digits. */
  predicate AmountsBelow100(stacks: seq<StackEntry>)
  {
    forall k :: 0 <= k < |stacks| ==> stacks[k].stack.amount < 100
  }

  /** The counting loop of AmountModel's constructor, as written. */
  method CountTextLength(stacks: seq<StackEntry>) returns (total: nat)
    ensures total == Total(LegacyWidth, stacks)
  {
    total := 0;
    for p := 0 to |stacks|
      invariant total == Total(LegacyWidth, stacks[..p])
    {
      assert stacks[..p + 1][..p] == stacks[..p];
      var amount := stacks[p].stack.amount;
      if amount == 0 {
        continue;
      }
      if amount > 9 {
        total := total + 2;
      } else {
        total := total + 1;
      }
    }
    assert stacks[..|stacks|] == stacks;
  }

  /** The counting loop sized by the writer's own rule: the number of digits of each non-zero amount. */
  method CountGlyphs(stacks: seq<StackEntry>) returns (total: nat)
    ensures total == Total(GlyphWidth, stacks)
  {
    total := 0;
    for p := 0 to |stacks|
      invariant total == Total(GlyphWidth, stacks[..p])
    {
      assert stacks[..p + 1][..p] == stacks[..p];
      var amount := stacks[p].stack.amount;
      if amount == 0 {
        continue;
      }
      total := total + |Digits(amount)|;
    }
    assert stacks[..|stacks|] == stacks;
  }

  /** For one stack the legacy count never exceeds the digit count, and equals it exactly below 100. */
  lemma LegacyWidthAgrees(e: StackEntry)
    ensures LegacyWidth(e) <= GlyphWidth(e)
    ensures LegacyWidth(e) == GlyphWidth(e) <==> e.stack.amount < 100
  {
    DigitsWidth(e.stack.amount);
  }

  /**
   * Over a whole snapshot the legacy total never exceeds the glyphs written,
   * and the writes fit the legacy buffer if and only if every amount is below 100.
   */
  lemma {:induction false} LegacyTotalFits(stacks: seq<StackEntry>)
    ensures Total(LegacyWidth, stacks) <= Total(GlyphWidth, stacks)
    ensures GlyphFloats * Total(GlyphWidth, stacks) <= GlyphFloats * Total(LegacyWidth, stacks)
            <==> AmountsBelow100(stacks)
  {
    if stacks != [] {
      var init, last := stacks[..|stacks| - 1], stacks[|stacks| - 1];
      LegacyTotalFits(init);
      LegacyWidthAgrees(last);
      assert AmountsBelow100(stacks) <==> AmountsBelow100(init) && last.stack.amount < 100 by {
        if AmountsBelow100(init) && last.stack.amount < 100 {
          forall k | 0 <= k < |stacks|
            ensures stacks[k].stack.amount < 100
          {
            if k < |init| {
              assert stacks[k] == init[k];
            }
          }
        }
        if AmountsBelow100(stacks) {
          forall k | 0 <= k < |init|
            ensures init[k].stack.amount < 100
          {
            assert init[k] == stacks[k];
          }
        }
      }
    }
  }

  /** One stack of 100 items: the legacy pass reserves 2 glyphs, the writer emits 3. */
  lemma LegacyOverflowExample()
    ensures var stacks := [StackEntry(Cell(0, 0), ItemStack(1, 100))];
      Total(LegacyWidth, stacks) == 2 && Total(GlyphWidth, stacks) == 3 &&
      GlyphFloats * Total(GlyphWidth, stacks) > GlyphFloats * Total(LegacyWidth, stacks)
  {
    var stacks := [StackEntry(Cell(0, 0), ItemStack(1, 100))];
    assert stacks[..0] == [];
    assert Digits(100) == Digits(10) + [DigitChar(0)];
    assert Digits(10) == Digits(1) + [DigitChar(0)];
  }

  /**
   * The glyphs of one amount's digit string `text` in cell c: digit k is at
   * x = col + 0.75 - (|text| - k - 1) * 0.3, y = row + 0.25, so the digits
   * run left to right 0.3 apart and the last one sits at col + 0.75.
   */
  function DigitGlyphs(c: Cell, text: string): (r: seq<GlyphCall>)
    ensures |r| == |text|
  {
    seq(|text|, k requires 0 <= k < |text| =>
      GlyphCall(c.col as real - (|text| - k - 1) as real * GlyphAdvance + 0.75, c.row as real + 0.25,
                0.15, 0.2, text[k], 0.0))
  }

  /**
   * The layout of one amount: the glyphs spell `text` on the row's baseline
   * row + 0.25, run left to right exactly 0.3 apart, and the last one sits at
   * col + 0.75 whatever the number of digits.
   */
  lemma DigitGlyphsLayout(c: Cell, text: string)
    ensures var r := DigitGlyphs(c, text);
      Chars(r) == text &&
      (forall k :: 0 <= k < |r| ==> r[k].y == c.row as real + 0.25) &&
      (|r| > 0 ==> r[|r| - 1].x == c.col as real + 0.75) &&
      (forall k, l :: 0 <= k < l < |r| ==> r[l].x - r[k].x == (l - k) as real * GlyphAdvance)
  {
  }

  /**
   * The glyphs one stack gets: none for amount 0, else one per digit of the
   * amount, spelling its decimal string on the cell's baseline.
   */
  function EntryGlyphs(e: StackEntry): (r: seq<GlyphCall>)
    ensures |r| == GlyphWidth(e)
    ensures e.stack.amount > 0 ==> Chars(r) == Digits(e.stack.amount)
    ensures forall k :: 0 <= k < |r| ==> r[k].y == e.cell.row as real + 0.25
  {
    if e.stack.amount == 0 then []
    else
      DigitGlyphsLayout(e.cell, Digits(e.stack.amount));
      DigitGlyphs(e.cell, Digits(e.stack.amount))
  }

  /** The make_character calls of a snapshot, in iteration order. */
  function GlyphCalls(stacks: seq<StackEntry>): (r: seq<GlyphCall>)
    ensures |r| == Total(GlyphWidth, stacks)
  {
    if stacks == [] then []
    else GlyphCalls(stacks[..|stacks| - 1]) + EntryGlyphs(stacks[|stacks| - 1])
  }

  lemma GlyphCallsStep(stacks: seq<StackEntry>, p: nat)
    requires p < |stacks|
    ensures GlyphCalls(stacks[..p + 1]) == GlyphCalls(stacks[..p]) + EntryGlyphs(stacks[p])
  {
    assert stacks[..p + 1][..p] == stacks[..p];
  }

  lemma {:induction false} GlyphCallsConcat(a: seq<StackEntry>, b: seq<StackEntry>)
    ensures GlyphCalls(a + b) == GlyphCalls(a) + GlyphCalls(b)
    decreases |b|
  {
    if b == [] {
      assert a + b == a;
    } else {
      var b', last := b[..|b| - 1], b[|b| - 1];
      assert (a + b)[..|a + b| - 1] == a + b';
      assert (a + b)[|a + b| - 1] == last;
      assert GlyphCalls(a + b) == GlyphCalls(a + b') + EntryGlyphs(last);
      assert GlyphCalls(b) == GlyphCalls(b') + EntryGlyphs(last);
      GlyphCallsConcat(a, b');
    }
  }

  /**
   * The converse of GlyphOwner: the glyphs of stack p are exactly its own
   * digit glyphs, placed right after the glyphs of the stacks before it.
   */
  lemma EntryGlyphsAt(stacks: seq<StackEntry>, p: nat)
    requires p < |stacks|
    ensures var s, w := Total(GlyphWidth, stacks[..p]), GlyphWidth(stacks[p]);
      s + w <= |GlyphCalls(stacks)| && GlyphCalls(stacks)[s..s + w] == EntryGlyphs(stacks[p])
  {
    assert stacks == stacks[..p + 1] + stacks[p + 1..];
    GlyphCallsConcat(stacks[..p + 1], stacks[p + 1..]);
    GlyphCallsStep(stacks, p);
  }

  /** The characters of a run of glyphs, in order. */
  function Chars(gs: seq<GlyphCall>): (r: string)
  {
    seq(|gs|, k requires 0 <= k < |gs| => gs[k].character)
  }

  /** The decimal strings of the non-zero amounts, concatenated in iteration order. */
  function AmountText(stacks: seq<StackEntry>): string
  {
    if stacks == [] then []
    else
      var last := stacks[|stacks| - 1];
      AmountText(stacks[..|stacks| - 1]) + (if last.stack.amount == 0 then [] else Digits(last.stack.amount))
  }

  lemma CharsConcat(a: seq<GlyphCall>, b: seq<GlyphCall>)
    ensures Chars(a + b) == Chars(a) + Chars(b)
  {
  }

  /** The glyph characters spell the decimal amounts, digits in left-to-right order. */
  lemma {:induction false} GlyphTextIsAmounts(stacks: seq<StackEntry>)
    ensures Chars(GlyphCalls(stacks)) == AmountText(stacks)
  {
    if stacks != [] {
      var init, last := stacks[..|stacks| - 1], stacks[|stacks| - 1];
      GlyphTextIsAmounts(init);
      CharsConcat(GlyphCalls(init), EntryGlyphs(last));
      if last.stack.amount != 0 {
        DigitGlyphsLayout(last.cell, Digits(last.stack.amount));
      }
    }
  }

  /**
   * Glyph g is one of the digits of stack e: e has a non-zero amount, and g
   * is on e's row, between the place of e's first digit and col + 0.75.
   */
  predicate OwnedBy(g: GlyphCall, e: StackEntry)
  {
    var c, len := e.cell, |Digits(e.stack.amount)|;
    e.stack.amount > 0 &&
    g.y == c.row as real + 0.25 &&
    c.col as real + 0.75 - (len - 1) as real * GlyphAdvance <= g.x <= c.col as real + 0.75
  }

  /** Every glyph belongs to a stack of the snapshot with a non-zero amount. */
  lemma {:induction false} GlyphOwner(stacks: seq<StackEntry>, k: nat)
    requires k < |GlyphCalls(stacks)|
    ensures exists p :: 0 <= p < |stacks| && OwnedBy(GlyphCalls(stacks)[k], stacks[p])
  {
    assert stacks != [];
    var init, last := stacks[..|stacks| - 1], stacks[|stacks| - 1];
    var front := GlyphCalls(init);
    assert GlyphCalls(stacks) == front + EntryGlyphs(last);
    var g := GlyphCalls(stacks)[k];
    if k < |front| {
      GlyphOwner(init, k);
      var p :| 0 <= p < |init| && OwnedBy(front[k], init[p]);
      assert stacks[p] == init[p];
      assert g == front[k];
    } else {
      var text := Digits(last.stack.amount);
      var j := k - |front|;
      assert last.stack.amount != 0;
      assert g == DigitGlyphs(last.cell, text)[j];
      assert OwnedBy(g, stacks[|stacks| - 1]);
    }
  }

  lemma DigitGlyphAt(c: Cell, text: string, index: nat)
    requires index < |text|
    ensures DigitGlyphs(c, text)[index] ==
      GlyphCall(c.col as real - (|text| - index - 1) as real * GlyphAdvance + 0.75,
                c.row as real + 0.25, 0.15, 0.2, text[index], 0.0)
  {
  }

  /** Appending the next glyph's block extends the written prefix by one glyph. */
  lemma GlyphStep(glyph: GlyphCall -> seq<real>, front: seq<real>, row: seq<GlyphCall>, index: nat, g: GlyphCall)
    requires index < |row| && row[index] == g
    ensures (front + Blocks(glyph, row[..index])) + glyph(g) == front + Blocks(glyph, row[..index + 1])
  {
    assert row[..index + 1] == row[..index] + [g];
    BlocksAppend(glyph, row[..index], g);
  }

  /**
   * The inner loop of make_stack_amounts: one glyph per character of `text`,
   * written at the running glyph index.
   */
  method WriteDigits(d: array<real>, start: nat, c: Cell, text: string, glyph: GlyphCall -> seq<real>,
                     ghost done: seq<GlyphCall>) returns (i: nat)
    requires forall g :: |glyph(g)| == GlyphFloats
    requires GlyphFloats * (start + |text|) <= d.Length
    requires d[..GlyphFloats * start] == Blocks(glyph, done)
    modifies d
    ensures i == start + |text|
    ensures d[..GlyphFloats * i] == Blocks(glyph, done + DigitGlyphs(c, text))
    ensures d[GlyphFloats * i..] == old(d[GlyphFloats * i..])
  {
    ghost var row := DigitGlyphs(c, text);
    ghost var front := Blocks(glyph, done);
    i := start;
    assert row[..0] == [];
    for index := 0 to |text|
      invariant i == start + index
      invariant d[..GlyphFloats * i] == front + Blocks(glyph, row[..index])
      invariant d[GlyphFloats * (start + |text|)..] == old(d[GlyphFloats * (start + |text|)..])
    {
      var offset := |text| - index - 1;
      var g := GlyphCall(c.col as real - offset as real * GlyphAdvance + 0.75,
                         c.row as real + 0.25, 0.15, 0.2, text[index], 0.0);
      DigitGlyphAt(c, text, index);
      var off := GlyphFloats * i;
      GlyphStep(glyph, front, row, index, g);
      WriteBlock(d, off, glyph(g));
      i := i + 1;
    }
    assert row[..|text|] == row;
    BlocksConcat(glyph, done, row);
  }

  /**
   * make_stack_amounts: allocate `total` glyphs and, for every stack with a
   * non-zero amount, write one glyph per digit of its decimal string through
   * a running glyph index. The writes stay inside the buffer exactly when
   * `total` covers every digit to be drawn.
   */
  method MakeStackAmounts(stacks: seq<StackEntry>, total: nat, glyph: GlyphCall -> seq<real>)
    returns (d: array<real>)
    requires forall g :: |glyph(g)| == GlyphFloats
    requires Total(GlyphWidth, stacks) <= total
    ensures fresh(d)
    ensures d.Length == GlyphFloats * total
    ensures d[..GlyphFloats * Total(GlyphWidth, stacks)] == Blocks(glyph, GlyphCalls(stacks))
  {
    d := new real[GlyphFloats * total];
    var i := 0;
    for p := 0 to |stacks|
      invariant d.Length == GlyphFloats * total
      invariant i == |GlyphCalls(stacks[..p])| <= total
      invariant d[..GlyphFloats * i] == Blocks(glyph, GlyphCalls(stacks[..p]))
    {
      GlyphCallsStep(stacks, p);
      TotalPrefix(GlyphWidth, stacks, p + 1);
      var e := stacks[p];
      if e.stack.amount == 0 {
        assert GlyphCalls(stacks[..p + 1]) == GlyphCalls(stacks[..p]);
        continue;
      }
      var text := Digits(e.stack.amount);
      i := WriteDigits(d, i, e.cell, text, glyph, GlyphCalls(stacks[..p]));
    }
    assert stacks[..|stacks|] == stacks;
  }
}
