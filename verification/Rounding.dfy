/** Quantities in thousandths: half-even rounding, the 0..100 clamp, and sums of rounded terms. */
module Rounding {
  import opened Basics
  import opened Ordering

  // Thousandths of a point.
  type Milli = int

  const HUNDRED: Milli := 100000

  /** `Decimal.quantize(Decimal("0.001"))` of x thousandths: to the nearest, ties to the even one. */
  function RoundHalfEven(x: real): (r: Milli)
    ensures -0.5 <= r as real - x <= 0.5
    ensures r as real - x == 0.5 || r as real - x == -0.5 ==> r % 2 == 0
  {
    var f := x.Floor;
    var d := x - f as real;
    if d < 0.5 then f else if d > 0.5 then f + 1 else if f % 2 == 0 then f else f + 1
  }

  function Scaled(x: Milli, c: real): real {
    x as real * c
  }

  // (x * c).quantize(...)
  function Times(x: Milli, c: real): Milli {
    RoundHalfEven(Scaled(x, c))
  }

  // The context keeps 28 significant digits; quantize raises InvalidOperation beyond them.
  const QUANTIZE_LIMIT: Milli := 10000000000000000000000000000

  function Quantized(x: Milli, c: real): Option<Milli> {
    if -QUANTIZE_LIMIT < Times(x, c) < QUANTIZE_LIMIT then Some(Times(x, c)) else None
  }

  lemma TimesMonotone(x: Milli, y: Milli, b: real, c: real)
    requires (x <= y && b == c && c >= 0.0) || (x == y && x >= 0 && b <= c)
    ensures Times(x, b) <= Times(y, c)
  {
    ScaledMonotone(x, y, b, c);
    hide Scaled;
    RoundMonotone(Scaled(x, b), Scaled(y, c));
  }

  lemma ScaledMonotone(x: Milli, y: Milli, b: real, c: real)
    requires (x <= y && b == c && c >= 0.0) || (x == y && x >= 0 && b <= c)
    ensures Scaled(x, b) <= Scaled(y, c)
  {
    if b == c {
      assert (y - x) as real * c >= 0.0;
    } else {
      assert x as real * (c - b) >= 0.0;
    }
  }

  function Clamp(x: Milli): (r: Milli)
    ensures 0 <= r <= HUNDRED
    ensures r == x <==> 0 <= x <= HUNDRED
    ensures (x < 0 ==> r == 0) && (x > HUNDRED ==> r == HUNDRED)
  {
    Min(HUNDRED, Max(0, x))
  }

  function ClampReal(x: real): real {
    if x < 0.0 then 0.0 else if x > HUNDRED as real then HUNDRED as real else x
  }

  // Nothing nearer, and of two equally near thousandths the even one.
  lemma RoundIsNearest(x: real, n: Milli)
    ensures var r := RoundHalfEven(x); Distance(x, r) <= Distance(x, n)
    ensures var r := RoundHalfEven(x); Distance(x, r) == Distance(x, n) && n != r ==> r % 2 == 0 && n % 2 == 1
  {
    var r := RoundHalfEven(x);
    if n > r {
      assert n >= r + 1;
    } else if n < r {
      assert n <= r - 1;
    }
  }

  function Distance(x: real, n: Milli): real {
    if n as real >= x then n as real - x else x - n as real
  }

  lemma RoundMonotone(x: real, y: real)
    requires x <= y
    ensures RoundHalfEven(x) <= RoundHalfEven(y)
  {
    assert x.Floor <= y.Floor;
  }

  lemma ClampMonotone(x: Milli, y: Milli)
    requires x <= y
    ensures Clamp(x) <= Clamp(y)
  {
  }

  // Clamping brings two numbers no further apart.
  lemma ClampIsClose(x: Milli, y: real, e: real)
    requires -e <= x as real - y <= e
    ensures -e <= Clamp(x) as real - ClampReal(y) <= e
  {
  }

  function Sum(xs: seq<Milli>): Milli {
    if xs == [] then 0 else xs[0] + Sum(xs[1..])
  }

  lemma {:induction false} SumAppend(xs: seq<Milli>, ys: seq<Milli>)
    ensures Sum(xs + ys) == Sum(xs) + Sum(ys)
  {
    if xs == [] {
      assert xs + ys == ys;
    } else {
      assert (xs + ys)[1..] == xs[1..] + ys;
      SumAppend(xs[1..], ys);
    }
  }

  lemma SumLast(xs: seq<Milli>, x: Milli)
    ensures Sum(xs + [x]) == Sum(xs) + x
  {
    SumAppend(xs, [x]);
    assert [x][1..] == [];
  }

  /** A sum does not depend on the order of its terms. */
  lemma {:induction false} SumPermute(xs: seq<Milli>, ys: seq<Milli>)
    requires multiset(xs) == multiset(ys)
    ensures Sum(xs) == Sum(ys)
  {
    if xs == [] {
      assert ys == [] by { SameMembers(xs, ys); }
    } else {
      var k := IndexIn(xs[0], xs, ys);
      DropBoth(xs, ys, k);
      SumPermute(xs[1..], ys[..k] + ys[k + 1..]);
      assert ys == ys[..k] + ([ys[k]] + ys[k + 1..]);
      SumAppend(ys[..k], [ys[k]] + ys[k + 1..]);
      SumAppend(ys[..k], ys[k + 1..]);
      assert ([ys[k]] + ys[k + 1..])[1..] == ys[k + 1..];
    }
  }
}
