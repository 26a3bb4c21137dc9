/**
 * Flat float buffers built from fixed-size blocks: each assembler calls a
 * primitive builder once per entry and lays the results end to end.
 */
module Buffers {

  /** The blocks `f(args[0]), f(args[1]), ...` laid end to end. */
  function Blocks<A>(f: A -> seq<real>, args: seq<A>): seq<real>
  {
    if args == [] then [] else Blocks(f, args[..|args| - 1]) + f(args[|args| - 1])
  }

  lemma BlocksAppend<A>(f: A -> seq<real>, args: seq<A>, a: A)
    ensures Blocks(f, args + [a]) == Blocks(f, args) + f(a)
  {
    assert (args + [a])[..|args|] == args;
  }

  lemma {:induction false} BlocksConcat<A>(f: A -> seq<real>, a: seq<A>, b: seq<A>)
    ensures Blocks(f, a + b) == Blocks(f, a) + Blocks(f, b)
    decreases |b|
  {
    if b == [] {
      assert a + b == a;
    } else {
      var b' := b[..|b| - 1];
      assert a + b == (a + b') + [b[|b| - 1]];
      BlocksAppend(f, a + b', b[|b| - 1]);
      BlocksConcat(f, a, b');
    }
  }

  /** With blocks of n floats, the buffer holds exactly n floats per argument. */
  lemma {:induction false} BlocksLength<A>(f: A -> seq<real>, n: nat, args: seq<A>)
    requires forall a :: |f(a)| == n
    ensures |Blocks(f, args)| == n * |args|
  {
    if args != [] {
      BlocksLength(f, n, args[..|args| - 1]);
      assert n * |args| == n * (|args| - 1) + n;
    }
  }

  /** Block k of the buffer starts at offset n * k and is f(args[k]). */
  lemma {:induction false} BlocksAt<A>(f: A -> seq<real>, n: nat, args: seq<A>, k: nat)
    requires forall a :: |f(a)| == n
    requires k < |args|
    ensures n * k + n <= |Blocks(f, args)|
    ensures Blocks(f, args)[n * k..n * k + n] == f(args[k])
  {
    var init := args[..|args| - 1];
    BlocksLength(f, n, init);
    BlocksLength(f, n, args);
    var front := Blocks(f, init);
    assert Blocks(f, args) == front + f(args[|args| - 1]);
    if k == |args| - 1 {
      assert n * k == |front|;
    } else {
      BlocksAt(f, n, init, k);
      assert n * k + n <= |front|;
    }
  }

  /**
   * A primitive builder writing its block at `d + off`; everything outside
   * the block is left as it was.
   */
  method WriteBlock(d: array<real>, off: nat, block: seq<real>)
    requires off + |block| <= d.Length
    modifies d
    ensures d[..off] == old(d[..off])
    ensures d[off..off + |block|] == block
    ensures d[off + |block|..] == old(d[off + |block|..])
    ensures d[..off + |block|] == old(d[..off]) + block
  {
    for k := 0 to |block|
      invariant d[..off] == old(d[..off])
      invariant d[off..off + k] == block[..k]
      invariant d[off + |block|..] == old(d[off + |block|..])
    {
      d[off + k] := block[k];
    }
    assert d[..off + |block|] == d[..off] + d[off..off + |block|];
  }
}
