/**
  Machine words and sums that stop at the largest. `u64` and `usize` have the same width here, and
  every charge and counter of the source that saturates does so at this one maximum.
  */
module Saturation {
  const U64_MAX: nat := 0xFFFF_FFFF_FFFF_FFFF

  type U64 = n: nat | n <= U64_MAX

  const I64_MIN: int := -0x8000_0000_0000_0000
  const I64_MAX: int := 0x7FFF_FFFF_FFFF_FFFF

  /** The largest word stands for every larger sum. */
  function Capped(n: nat): (r: nat) {
    if n <= U64_MAX then n else U64_MAX
  }

  function Add(left: nat, right: nat): (r: nat) {
    Capped(left + right)
  }

  function Mul(left: nat, right: nat): (r: nat) {
    Capped(left * right)
  }

  /** Saturated sums are the exact sums, capped: saturation does not depend on the order of summation. */
  lemma AddIsExact(a: nat, b: nat)
    ensures Add(Capped(a), Capped(b)) == Capped(a + b)
    ensures Add(Capped(a), b) == Capped(a + b)
  {
  }

  lemma AddThreeIsExact(a: nat, b: nat, c: nat, d: nat)
    ensures Add(Add(Add(Capped(a), b), c), d) == Capped(a + b + c + d)
  {
    hide Add, Capped;
    AddIsExact(a, b);
    AddIsExact(a + b, c);
    AddIsExact(a + b + c, d);
  }

  // ----- Charges accumulated from a list of prices -----

  /** One saturating addition after the other. */
  function Accumulated(prices: seq<nat>): (charge: nat) {
    if prices == [] then 0 else Add(Accumulated(prices[..|prices| - 1]), prices[|prices| - 1])
  }

  function Sum(prices: seq<nat>): (n: nat) {
    if prices == [] then 0 else Sum(prices[..|prices| - 1]) + prices[|prices| - 1]
  }

  /** However many prices there are, saturating after every addition is capping the exact sum once. */
  lemma {:induction false} AccumulatedIsExact(prices: seq<nat>)
    ensures Accumulated(prices) == Capped(Sum(prices))
  {
    hide Capped, Add;
    if prices == [] {
      NothingCapped();
    } else {
      AccumulatedIsExact(prices[..|prices| - 1]);
      AddIsExact(Sum(prices[..|prices| - 1]), prices[|prices| - 1]);
    }
  }

  lemma NothingCapped()
    ensures Capped(0) == 0
  {
  }

  lemma {:induction false} SumWithout(prices: seq<nat>, k: nat)
    requires k < |prices|
    ensures Sum(prices) == Sum(prices[..k] + prices[k + 1..]) + prices[k]
    decreases |prices|
  {
    var n := |prices| - 1;
    var front := prices[..n];
    if k < n {
      SumWithout(front, k);
      var rest := prices[..k] + prices[k + 1..];
      assert rest[..|rest| - 1] == front[..k] + front[k + 1..];
      assert rest[|rest| - 1] == prices[n];
    } else {
      assert prices[..k] + prices[k + 1..] == front;
    }
  }

  /** The order of the prices does not matter to the charge. */
  lemma {:induction false} OrderDoesNotMatter(a: seq<nat>, b: seq<nat>)
    requires multiset(a) == multiset(b)
    ensures Sum(a) == Sum(b) && Accumulated(a) == Accumulated(b)
    decreases |a|
  {
    AccumulatedIsExact(a);
    AccumulatedIsExact(b);
    assert |a| == |multiset(a)| == |multiset(b)| == |b|;
    if a != [] {
      var n := |a| - 1;
      var x := a[n];
      assert x in multiset(a);
      assert x in b;
      var k :| 0 <= k < |b| && b[k] == x;
      var rest := b[..k] + b[k + 1..];
      assert a == a[..n] + [x];
      assert b == b[..k] + [x] + b[k + 1..];
      assert multiset(a[..n]) == multiset(a) - multiset{x};
      assert multiset(rest) == multiset(b) - multiset{x};
      OrderDoesNotMatter(a[..n], rest);
      SumWithout(b, k);
    }
  }

  // ----- Evaluating sums -----

  lemma {:induction false} SumSplits(a: seq<nat>, b: seq<nat>)
    ensures Sum(a + b) == Sum(a) + Sum(b)
    decreases |b|
  {
    if b == [] {
      assert a + b == a;
    } else {
      var n := |b| - 1;
      SumSplits(a, b[..n]);
      assert (a + b)[..|a| + n] == a + b[..n];
    }
  }

  lemma SumOfFour(a: nat, b: nat, c: nat, d: nat)
    ensures Sum([a]) == a && Sum([a, b]) == a + b && Sum([a, b, c]) == a + b + c && Sum([a, b, c, d]) == a + b + c + d
  {
    assert [a][..0] == [] && [a, b][..1] == [a] && [a, b, c][..2] == [a, b] && [a, b, c, d][..3] == [a, b, c];
  }

  lemma SumOfEight(a: nat, b: nat, c: nat, d: nat, e: nat, f: nat, g: nat, h: nat)
    ensures Sum([a, b, c, d, e]) == a + b + c + d + e
    ensures Sum([a, b, c, d, e, f]) == a + b + c + d + e + f
    ensures Sum([a, b, c, d, e, f, g]) == a + b + c + d + e + f + g
    ensures Sum([a, b, c, d, e, f, g, h]) == a + b + c + d + e + f + g + h
  {
    hide Sum;
    SumOfFour(a, b, c, d);
    SumOfFour(e, f, g, h);
    SumSplits([a, b, c, d], [e]);
    SumSplits([a, b, c, d], [e, f]);
    SumSplits([a, b, c, d], [e, f, g]);
    SumSplits([a, b, c, d], [e, f, g, h]);
    assert [a, b, c, d] + [e] == [a, b, c, d, e] && [a, b, c, d] + [e, f] == [a, b, c, d, e, f];
    assert [a, b, c, d] + [e, f, g] == [a, b, c, d, e, f, g] && [a, b, c, d] + [e, f, g, h] == [a, b, c, d, e, f, g, h];
  }

  /** A sum that a word holds is what accumulates. */
  lemma AccumulatedSum(prices: seq<nat>, total: nat)
    requires Sum(prices) == total <= U64_MAX
    ensures Accumulated(prices) == total
  {
    hide Sum, Accumulated;
    AccumulatedIsExact(prices);
  }
}
