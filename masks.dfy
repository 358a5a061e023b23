/**
 * Boolean-mask selection: the source's `a[:, mask]` and `sum(mask)` on numpy
 * arrays, which keep the columns whose flag is set, in their original order.
 */
module Masks {

  /** The number of set flags (`sum(mask)`). */
  function CountTrue(flags: seq<bool>): (n: nat)
    ensures n <= |flags|
    ensures n == 0 <==> forall j :: 0 <= j < |flags| ==> !flags[j]
  {
    if flags == [] then 0
    else (if flags[0] then 1 else 0) + CountTrue(flags[1..])
  }

  /** The elements of `xs` whose flag is set, in order (`xs[mask]`). */
  function Mask<T>(xs: seq<T>, flags: seq<bool>): (r: seq<T>)
    requires |xs| == |flags|
    ensures |r| == CountTrue(flags)
  {
    if xs == [] then []
    else (if flags[0] then [xs[0]] else []) + Mask(xs[1..], flags[1..])
  }

  /** Exactly the flagged elements are kept. */
  lemma {:induction false} MaskMembers<T>(xs: seq<T>, flags: seq<bool>, x: T)
    requires |xs| == |flags|
    ensures x in Mask(xs, flags) <==> exists j :: 0 <= j < |xs| && flags[j] && xs[j] == x
  {
    if xs != [] {
      MaskMembers(xs[1..], flags[1..], x);
      if x in Mask(xs[1..], flags[1..]) {
        var j :| 0 <= j < |xs[1..]| && flags[1..][j] && xs[1..][j] == x;
        assert flags[j + 1] && xs[j + 1] == x;
      }
      if exists j :: 0 <= j < |xs| && flags[j] && xs[j] == x {
        var j :| 0 <= j < |xs| && flags[j] && xs[j] == x;
        if j > 0 {
          assert flags[1..][j - 1] && xs[1..][j - 1] == x;
        }
      }
    }
  }

  /** With a single flag set, the selection is that one element. */
  lemma {:induction false} MaskSingle<T>(xs: seq<T>, flags: seq<bool>, j: nat)
    requires |xs| == |flags| && j < |xs|
    requires flags[j] && CountTrue(flags) == 1
    ensures Mask(xs, flags) == [xs[j]]
  {
    if j == 0 {
      assert CountTrue(flags[1..]) == 0;
    } else {
      assert !flags[0] by {
        assert flags[1..][j - 1];
      }
      MaskSingle(xs[1..], flags[1..], j - 1);
    }
  }

  /** Selection distributes over concatenation: order is preserved. */
  lemma {:induction false} MaskAppend<T>(xs: seq<T>, f: seq<bool>, ys: seq<T>, g: seq<bool>)
    requires |xs| == |f| && |ys| == |g|
    ensures Mask(xs + ys, f + g) == Mask(xs, f) + Mask(ys, g)
  {
    if xs != [] {
      assert (xs + ys)[1..] == xs[1..] + ys;
      assert (f + g)[1..] == f[1..] + g;
      MaskAppend(xs[1..], f[1..], ys, g);
    } else {
      assert xs + ys == ys && f + g == g;
    }
  }

  /** A mask that sets a subset of another's flags counts no more of them. */
  lemma {:induction false} CountTrueMonotone(f: seq<bool>, g: seq<bool>)
    requires |f| == |g|
    requires forall j :: 0 <= j < |f| && f[j] ==> g[j]
    ensures CountTrue(f) <= CountTrue(g)
  {
    if f != [] {
      CountTrueMonotone(f[1..], g[1..]);
    }
  }
}
