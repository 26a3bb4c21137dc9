/**
 * The HUD's grid data as the geometry assemblers see it: a snapshot of the
 * background map (cell -> tile index) and of the stack map (cell -> item
 * stack). The source's unordered maps are iterated in an unspecified order,
 * so a snapshot is a sequence of entries with distinct cells, and every count
 * below is shown not to depend on that order.
 */
module Grid {

  /** An inventory cell: column and row (the source's Vector2i key). */
  datatype Cell = Cell(col: int, row: int)

  /** An item stack: the item's type and how many of it the cell holds. */
  datatype ItemStack = ItemStack(itemType: int, amount: nat)

  /** One entry of the background map; a negative tile means "draw nothing". */
  datatype BackgroundEntry = BackgroundEntry(cell: Cell, tile: int)

  /** One entry of the stack map. */
  datatype StackEntry = StackEntry(cell: Cell, stack: ItemStack)

  /** A point of the grid plane, where one unit is one cell. */
  datatype Point = Point(x: real, y: real)

  /** An optional value (the source's std::optional). */
  datatype Option<+T> = None | Some(value: T)

  /** A background snapshot comes from a map: no cell occurs twice. */
  predicate DistinctBackgroundCells(bg: seq<BackgroundEntry>)
  {
    forall p, q :: 0 <= p < q < |bg| ==> bg[p].cell != bg[q].cell
  }

  /** A stack snapshot comes from a map: no cell occurs twice. */
  predicate DistinctStackCells(stacks: seq<StackEntry>)
  {
    forall p, q :: 0 <= p < q < |stacks| ==> stacks[p].cell != stacks[q].cell
  }

  /** The sum of `f` over the entries of `s`, taken in iteration order. */
  function Total<E>(f: E -> nat, s: seq<E>): nat
  {
    if s == [] then 0 else Total(f, s[..|s| - 1]) + f(s[|s| - 1])
  }

  lemma {:induction false} TotalConcat<E>(f: E -> nat, a: seq<E>, b: seq<E>)
    ensures Total(f, a + b) == Total(f, a) + Total(f, b)
    decreases |b|
  {
    if b == [] {
      assert a + b == a;
    } else {
      var b' := b[..|b| - 1];
      assert (a + b)[..|a + b| - 1] == a + b';
      TotalConcat(f, a, b');
    }
  }

  /** A prefix never sums to more than the whole snapshot. */
  lemma TotalPrefix<E>(f: E -> nat, s: seq<E>, p: nat)
    requires p <= |s|
    ensures Total(f, s[..p]) <= Total(f, s)
  {
    assert s == s[..p] + s[p..];
    TotalConcat(f, s[..p], s[p..]);
  }

  /**
   * Order independence: two snapshots holding the same entries, in whatever
   * order a map hands them out, have the same total.
   */
  lemma {:induction false} TotalPermutation<E>(f: E -> nat, s: seq<E>, t: seq<E>)
    requires multiset(s) == multiset(t)
    ensures Total(f, s) == Total(f, t)
    decreases |s|
  {
    if s == [] {
      assert |t| == |multiset(t)| == 0;
    } else {
      var x := s[|s| - 1];
      var s' := s[..|s| - 1];
      assert s == s' + [x];
      assert x in multiset(t);
      var j :| 0 <= j < |t| && t[j] == x;
      var t' := t[..j] + t[j + 1..];
      assert t == t[..j] + [x] + t[j + 1..];
      calc {
        multiset(t');
        multiset(t[..j]) + multiset(t[j + 1..]);
        multiset(t) - multiset{x};
        multiset(s) - multiset{x};
        multiset(s');
      }
      TotalPermutation(f, s', t');
      assert [x][..0] == [];
      TotalConcat(f, t[..j], t[j + 1..]);
      TotalConcat(f, t[..j] + [x], t[j + 1..]);
      TotalConcat(f, t[..j], [x]);
    }
  }
}
