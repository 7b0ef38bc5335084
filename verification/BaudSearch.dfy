/**
 The baud rate search of the i.MX serial driver: ser_stty tries all allowed reference dividers, with
 rounded integer arithmetic, and keeps the best.
 */
module BaudSearch {
  import opened Arith

  const UINT := 0x1_0000_0000
  const MIN_DIV := 1
  const MAX_DIV := 7

  /** DIVIDE_AND_ROUND; it rounds up. */
  function DivideAndRound(a: nat, b: nat): nat
    requires b > 0
  {
    (a + (b - 1)) / b
  }

  lemma DivideAndRoundUp(a: nat, b: nat)
    requires b > 0
    ensures var q := DivideAndRound(a, b); a <= q * b < a + b
  {
    var q := (a + (b - 1)) / b;
    assert a + (b - 1) == q * b + (a + (b - 1)) % b;
  }

  lemma QuotientAtMost(n: nat, k: nat)
    requires k > 0
    ensures n / k <= n
  {
    MulLe(1, k, n / k);
  }

  /** The highest divider that is tried. */
  function Highest(clk: nat, baud: nat): (h: nat)
    requires baud > 0 && clk > 0
    ensures MIN_DIV <= h <= MAX_DIV && h <= clk
  {
    QuotientAtMost(clk, baud * 16);
    var d := clk / (baud * 16);
    if d > MAX_DIV then MAX_DIV else if d < MIN_DIV then MIN_DIV else d
  }

  /** The dividers from 1 to 7 that leave 16 times the rate, and divider 1 at any rate */
  predicate Allowed(clk: nat, baud: nat, i: nat): (allowed: bool)
    requires baud > 0 && clk > 0
    ensures allowed ==> 0 < i <= clk
  {
    MulLe(1, 16 * baud, i);
    i == 1 || (1 < i <= 7 && i * (16 * baud) <= clk)
  }

  /** Those are the ones that are tried. */
  lemma TriedIff(clk: nat, baud: nat, i: nat)
    requires baud > 0 && clk > 0
    ensures MIN_DIV <= i <= Highest(clk, baud) <==> Allowed(clk, baud, i)
  {
    var unit, d := baud * 16, clk / (baud * 16);
    assert clk == d * unit + clk % unit;
    if i <= d {
      MulLe(i, d, unit);
    } else {
      MulLe(d + 1, i, unit);
      assert (d + 1) * unit == d * unit + unit;
    }
  }

  /** UBIR + 1 for a divider, with UBMR + 1 fixed at 10000 */
  function Bir(clk: nat, baud: nat, i: nat): (r: nat)
    requires baud > 0 && i > 0 && clk >= i
    ensures r >= 1
  {
    ClockNonzero(clk, i);
    DivideAndRoundUp(baud * 16, DivideAndRound(clk / i, 10000));
    DivideAndRound(baud * 16, DivideAndRound(clk / i, 10000))
  }

  lemma ClockNonzero(clk: nat, i: nat)
    requires i > 0 && clk >= i
    ensures clk / i >= 1 && DivideAndRound(clk / i, 10000) >= 1
  {
    DivMonotone(i, clk, i);
    DivUnique(i, i, 1, 0);
    DivideAndRoundUp(clk / i, 10000);
  }

  lemma QuotientSmaller(a: nat, b: nat)
    requires b > 0
    ensures DivideAndRound(a, b) <= a
  {
    var q := DivideAndRound(a, b);
    DivideAndRoundUp(a, b);
    if q > a {
      MulLe(a + 1, q, b);
      assert (a + 1) * b == a * b + b;
      MulLe(1, b, a);
    }
  }

  /** What the quotient of 10^9 and bir is, rounded up */
  lemma QuotientBound(bir: nat)
    requires bir > 0
    ensures var x := DivideAndRound(1000000000, bir);
            && 1 <= x <= 1000000000 && 1000000000 <= x * bir
            && (bir == 1 ==> x == 1000000000) && (bir == 2 ==> x == 500000000) && (bir == 3 ==> x == 333333334)
            && (bir >= 4 ==> x <= 250000000)
  {
    DivideAndRoundUp(1000000000, bir);
    QuotientSmaller(1000000000, bir);
    var x := DivideAndRound(1000000000, bir);
    if bir >= 4 {
      MulLe(4, bir, 250000000);
      if x > 250000000 {
        MulLe(250000001, x, bir);
      }
    }
  }

  /** 16 times the rounded quotient, in 32 bits */
  function Denominator(bir: nat): (r: nat)
    requires bir > 0
    ensures r > 0 && (bir >= 4 ==> r == 16 * DivideAndRound(1000000000, bir))
  {
    QuotientBound(bir);
    16 * DivideAndRound(1000000000, bir) % UINT
  }

  /** The rate that a divider gives, as the code computes it */
  function Current(clk: nat, baud: nat, i: nat): nat
    requires baud > 0 && i > 0 && clk >= i
  {
    DivideAndRound(clk / i * 100000, Denominator(Bir(clk, baud, i)))
  }

  function Distance(a: nat, b: nat): nat { if a > b then a - b else b - a }

  /** The difference is kept in an unsigned int. */
  function Diff(clk: nat, baud: nat, i: nat): nat
    requires baud > 0 && i > 0 && clk >= i
  {
    Distance(Current(clk, baud, i), baud) % UINT
  }

  /** i is the best of the dividers from low to high: the largest of those with the least difference. */
  predicate Best(clk: nat, baud: nat, i: nat, low: nat, high: nat)
    requires baud > 0 && 0 < low && clk >= high
  {
    && low <= i <= high
    && (forall j :: low <= j <= high ==> Diff(clk, baud, i) <= Diff(clk, baud, j))
    && (forall j :: i < j <= high ==> Diff(clk, baud, i) < Diff(clk, baud, j))
  }

  lemma BestIsUnique(clk: nat, baud: nat, i: nat, i': nat, low: nat, high: nat)
    requires baud > 0 && 0 < low && clk >= high
    requires Best(clk, baud, i, low, high) && Best(clk, baud, i', low, high)
    ensures i == i'
  {
    assert Diff(clk, baud, i) == Diff(clk, baud, i');
  }

  /** So far, from high down to low, the search has nothing or the best. */
  predicate SearchedTo(clk: nat, baud: nat, low: nat, high: nat, rfdiv: nat, bestDiff: nat, bestBaud: nat, bestBir: nat)
    requires baud > 0 && 0 < low && clk >= high
  {
    if bestBir == 0
    then rfdiv == high && bestDiff == UINT - 1 && forall j :: low <= j <= high ==> Diff(clk, baud, j) == UINT - 1
    else Best(clk, baud, rfdiv, low, high) && bestDiff == Diff(clk, baud, rfdiv) < UINT - 1
         && bestBaud == Current(clk, baud, rfdiv) % UINT && bestBir == Bir(clk, baud, rfdiv)
  }

  /** One more divider, better than those before or not. */
  lemma SearchedOneMore(clk: nat, baud: nat, i: nat, high: nat, rfdiv: nat, bestDiff: nat, bestBaud: nat, bestBir: nat)
    requires baud > 0 && 0 < i <= high <= clk
    requires SearchedTo(clk, baud, i + 1, high, rfdiv, bestDiff, bestBaud, bestBir)
    ensures if Diff(clk, baud, i) < bestDiff
            then SearchedTo(clk, baud, i, high, i, Diff(clk, baud, i), Current(clk, baud, i) % UINT, Bir(clk, baud, i))
            else SearchedTo(clk, baud, i, high, rfdiv, bestDiff, bestBaud, bestBir)
  {
  }

  lemma ExactHasNoDiff(clk: nat, baud: nat, i: nat)
    requires baud > 0 && 0 < i <= clk && Current(clk, baud, i) == baud
    ensures Diff(clk, baud, i) == 0
  {
  }

  /** A difference of 0 ends the search early, for nothing can be better. */
  lemma ExactIsBest(clk: nat, baud: nat, low: nat, high: nat, rfdiv: nat, bestDiff: nat, bestBaud: nat, bestBir: nat)
    requires baud > 0 && 0 < low <= high <= clk && Current(clk, baud, low) == baud
    requires SearchedTo(clk, baud, low, high, rfdiv, bestDiff, bestBaud, bestBir)
    ensures SearchedTo(clk, baud, MIN_DIV, high, rfdiv, bestDiff, bestBaud, bestBir)
  {
    ExactHasNoDiff(clk, baud, low);
  }

  /** The loop of ser_stty; the register values come from rfdiv and bestBir. */
  method Search(clk: nat, baud: nat) returns (rfdiv: nat, bestDiff: nat, bestBaud: nat, bestBir: nat)
    requires baud > 0 && clk > 0
    ensures SearchedTo(clk, baud, MIN_DIV, Highest(clk, baud), rfdiv, bestDiff, bestBaud, bestBir)
  {
    var high := Highest(clk, baud);
    rfdiv := high;
    bestDiff := UINT - 1;
    bestBaud, bestBir := 0, 0;
    var i := high;
    while i >= MIN_DIV
      invariant 0 <= i <= high
      invariant SearchedTo(clk, baud, i + 1, high, rfdiv, bestDiff, bestBaud, bestBir)
    {
      var bir := Bir(clk, baud, i);
      var currentBaud := Current(clk, baud, i);
      var currentDiff := Distance(currentBaud, baud) % UINT;
      SearchedOneMore(clk, baud, i, high, rfdiv, bestDiff, bestBaud, bestBir);
      if currentDiff < bestDiff {
        bestBaud, bestDiff, bestBir, rfdiv := currentBaud % UINT, currentDiff, bir, i;
      }
      if currentBaud == baud {
        ExactIsBest(clk, baud, i, high, rfdiv, bestDiff, bestBaud, bestBir);
        return;
      }
      i := i - 1;
    }
  }

  // ---------------------------------------------------------------- how good the result is

  /** With a clock fast enough for the rate, UBIR + 1 fits its register. */
  lemma BirInRange(clk: nat, baud: nat, i: nat)
    requires baud > 0 && clk >= 16 * baud && MIN_DIV <= i <= Highest(clk, baud)
    ensures 1 <= Bir(clk, baud, i) <= 10000
  {
    var unit := baud * 16;
    var d := clk / unit;
    assert clk == d * unit + clk % unit;
    DivMonotone(unit, clk, unit);
    DivUnique(unit, unit, 1, 0);
    MulLe(i, d, unit);
    assert i * unit <= clk;
    var ref := clk / i;
    DivMonotone(unit * i, clk, i);
    DivMul(unit, i);
    assert ref >= unit;
    var c := DivideAndRound(ref, 10000);
    DivideAndRoundUp(ref, 10000);
    var bir := Bir(clk, baud, i);
    DivideAndRoundUp(unit, c);
    if bir > 10000 {
      MulLe(10001, bir, c);
    }
  }

  /** Where the product does not wrap, the rate computed is above the one asked for by less than
      1 + ref / 160000. */
  lemma CurrentBound(clk: nat, baud: nat, i: nat)
    requires baud > 0 && i > 0 && clk >= i && Bir(clk, baud, i) >= 4
    ensures Current(clk, baud, i) * 160000 < (baud + 1) * 160000 + clk / i
  {
    var ref, bir, current := clk / i, Bir(clk, baud, i), Current(clk, baud, i);
    var c, x := DivideAndRound(ref, 10000), DivideAndRound(1000000000, bir);
    ClockNonzero(clk, i);
    DivideAndRoundUp(ref, 10000);
    DivideAndRoundUp(baud * 16, c);
    QuotientBound(bir);
    DivideAndRoundUp(ref * 100000, 16 * x);
    RateBelow(ref, bir, current, x);
    RatioBelow(ref, bir, c, baud);
  }

  /** From current < ref 100000 / 16 x + 1 and x >= 10^9 / bir: (current - 1) 160000 < ref bir. */
  lemma RateBelow(ref: nat, bir: nat, current: nat, x: nat)
    requires bir >= 1 && ref >= 1 && 1000000000 <= x * bir && current * (16 * x) < ref * 100000 + 16 * x
    ensures (current - 1) * 160000 < ref * bir
  {
    if current > 1 {
      var k: nat := current - 1;
      assert k * (16 * x) == current * (16 * x) - 16 * x;
      assert k * (16 * x) + 1 <= ref * 100000;
      MulLe(k * (16 * x) + 1, ref * 100000, bir);
      assert (k * (16 * x) + 1) * bir == k * (16 * x) * bir + bir;
      assert k * (16 * x) * bir == 16 * k * (x * bir) by { Reorder(k, x, bir); }
      MulLe(1000000000, x * bir, 16 * k);
      assert ref * 100000 * bir == 100000 * (ref * bir);
    } else {
      MulLe(1, ref, bir);
    }
  }

  lemma Reorder(k: nat, x: nat, bir: nat)
    ensures k * (16 * x) * bir == 16 * k * (x * bir)
  {
    assert k * (16 * x) == 16 * (k * x);
    assert 16 * (k * x) * bir == 16 * (k * x * bir);
    assert k * x * bir == k * (x * bir);
    assert 16 * k * (x * bir) == 16 * (k * (x * bir));
  }

  /** From bir < 16 baud / c + 1 and c >= ref / 10000: ref bir < baud 160000 + ref + 1. */
  lemma RatioBelow(ref: nat, bir: nat, c: nat, baud: nat)
    requires bir >= 1 && baud > 0 && ref <= c * 10000 && bir * c < baud * 16 + c
    ensures ref * bir <= baud * 160000 + ref
  {
    var k: nat := bir - 1;
    assert k * c == bir * c - c;
    MulLe(ref, c * 10000, k);
    assert c * 10000 * k == 10000 * (k * c);
    assert ref * bir == ref * k + ref;
  }

  /** UBIR + 1 is the multiple that brings ref bir / 160000, the rate of a divider, next to the one asked for. */
  lemma BirIsNext(clk: nat, baud: nat, i: nat)
    requires baud > 0 && i > 0 && clk >= i
    ensures var ref, bir := clk / i, Bir(clk, baud, i);
            baud * 160000 <= bir * (ref + 9999) && ref * bir <= baud * 160000 + ref
  {
    var ref, bir := clk / i, Bir(clk, baud, i);
    var c := DivideAndRound(ref, 10000);
    ClockNonzero(clk, i);
    DivideAndRoundUp(ref, 10000);
    DivideAndRoundUp(baud * 16, c);
    RatioBelow(ref, bir, c, baud);
    MulLe(c * 10000, ref + 9999, bir);
    assert c * 10000 * bir == 10000 * (bir * c);
    assert (ref + 9999) * bir == bir * (ref + 9999);
  }

  /** And where the product does not wrap, the rate that is computed is the rate of the divider, rounded up, but
      for one part in bir / 10^9. */
  lemma CurrentIsRate(clk: nat, baud: nat, i: nat)
    requires baud > 0 && i > 0 && clk >= i && Bir(clk, baud, i) >= 4
    ensures var ref, bir, current := clk / i, Bir(clk, baud, i), Current(clk, baud, i);
            (current - 1) * 160000 < ref * bir && ref * bir * 100000 <= current * 16 * (1000000000 + bir)
  {
    var ref, bir, current := clk / i, Bir(clk, baud, i), Current(clk, baud, i);
    var x := DivideAndRound(1000000000, bir);
    ClockNonzero(clk, i);
    QuotientBound(bir);
    DivideAndRoundUp(1000000000, bir);
    DivideAndRoundUp(ref * 100000, 16 * x);
    RateBelow(ref, bir, current, x);
    RateAbove(ref, bir, current, x);
  }

  lemma RateAbove(ref: nat, bir: nat, current: nat, x: nat)
    requires ref * 100000 <= current * (16 * x) && x * bir <= 1000000000 + bir
    ensures ref * bir * 100000 <= current * 16 * (1000000000 + bir)
  {
    MulLe(ref * 100000, current * (16 * x), bir);
    MulLe(x * bir, 1000000000 + bir, current * 16);
    Reorder(current, x, bir);
    assert ref * 100000 * bir == ref * bir * 100000;
    assert x * bir * (current * 16) == 16 * current * (x * bir);
    assert (1000000000 + bir) * (current * 16) == current * 16 * (1000000000 + bir);
  }

  // ---------------------------------------------------------------- the search as a whole

  /** The product that the rate is divided by wraps exactly below a UBIR + 1 of 4. */
  lemma WrapsIff(bir: nat)
    requires bir > 0
    ensures Denominator(bir) != 16 * DivideAndRound(1000000000, bir) <==> bir < 4
  {
    QuotientBound(bir);
  }

  /** Then the rate that comes out is small, as the clock is below 2^32. */
  lemma WrappedIsSmall(clk: nat, baud: nat, i: nat)
    requires 0 < baud && clk < UINT && 0 < i <= clk && Bir(clk, baud, i) < 4
    ensures Current(clk, baud, i) < 1000000
  {
    var ref, current, d := clk / i, Current(clk, baud, i), Denominator(Bir(clk, baud, i));
    QuotientAtMost(clk, i);
    QuotientBound(Bir(clk, baud, i));
    assert d in {3115098112, 3705032704, 1038366048};
    DivideAndRoundUp(ref * 100000, d);
    if current >= 1000000 {
      MulLe(1000000, current, d);
    }
  }

  /** Where it does not wrap, it is not much above the rate asked for, so below 2^32 too. */
  lemma UnwrappedIsSmall(clk: nat, baud: nat, i: nat)
    requires 0 < baud < UINT / 2 && clk < UINT && 0 < i <= clk && Bir(clk, baud, i) >= 4
    ensures Current(clk, baud, i) < UINT - 1
  {
    CurrentBound(clk, baud, i);
    QuotientAtMost(clk, i);
  }

  lemma DiffIsDistance(clk: nat, baud: nat, i: nat)
    requires 0 < baud < UINT / 2 && clk < UINT && 0 < i <= clk
    ensures Diff(clk, baud, i) == Distance(Current(clk, baud, i), baud) < UINT - 1
    ensures Current(clk, baud, i) % UINT == Current(clk, baud, i)
  {
    if Bir(clk, baud, i) >= 4 {
      UnwrappedIsSmall(clk, baud, i);
    } else {
      WrappedIsSmall(clk, baud, i);
    }
    SmallDiff(Current(clk, baud, i), baud);
  }

  lemma SmallDiff(current: nat, baud: nat)
    requires current < UINT - 1 && baud < UINT / 2
    ensures Distance(current, baud) < UINT - 1 && Distance(current, baud) % UINT == Distance(current, baud)
    ensures current % UINT == current
  {
  }

  /** What the search promises: for rates far below 2^32, the divider chosen has the least distance from the
      rate asked for among all that are allowed; and where its product does not wrap, its rate is in bounds. */
  lemma ChosenIsNearest(clk: nat, baud: nat, rfdiv: nat, bestDiff: nat, bestBaud: nat, bestBir: nat, j: nat)
    requires 0 < baud < UINT / 2 && 0 < clk < UINT
    requires SearchedTo(clk, baud, MIN_DIV, Highest(clk, baud), rfdiv, bestDiff, bestBaud, bestBir)
    requires Allowed(clk, baud, j)
    ensures Allowed(clk, baud, rfdiv)
    ensures bestBaud == Current(clk, baud, rfdiv) && bestBir == Bir(clk, baud, rfdiv)
    ensures Distance(Current(clk, baud, rfdiv), baud) <= Distance(Current(clk, baud, j), baud)
    ensures bestBir >= 4 ==> bestBaud * 160000 < (baud + 1) * 160000 + clk / rfdiv
  {
    TriedIff(clk, baud, j);
    TriedIff(clk, baud, rfdiv);
    DiffIsDistance(clk, baud, j);
    if bestBir == 0 {
      assert false;
    } else {
      DiffIsDistance(clk, baud, rfdiv);
      if bestBir >= 4 {
        CurrentBound(clk, baud, rfdiv);
      }
    }
  }

  /** Where the product wraps, the rates that are compared are not those of the divider: at 50 baud and a
      clock of 66.5 MHz, divider 7 gives 59 baud, but the code takes it for 305. */
  lemma WrappedProduct()
    ensures Highest(66500000, 50) == 7 && Bir(66500000, 50, 7) == 1
    ensures Current(66500000, 50, 7) == 305 && (66500000 / 7) * Bir(66500000, 50, 7) / 160000 == 59
  {
    assert DivideAndRound(9500000, 10000) == 950;
    assert Bir(66500000, 50, 7) == DivideAndRound(800, 950) == 1;
    assert Denominator(1) == 16000000000 % UINT == 3115098112;
  }
}
