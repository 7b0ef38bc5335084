/**
 The touchscreen filter of the input library: raw coordinates become screen coordinates, by four cached
 extents that several control events update, or by a scale computed from the screen size.
 */
module TouchTransform {
  import opened Arith

  // ---------------------------------------------------------------- C arithmetic

  /** Division that truncates toward zero */
  function CDiv(a: int, b: int): int
    requires b != 0
  {
    if a >= 0 then (if b > 0 then a / b else -(a / -b))
    else (if b > 0 then -(-a / b) else -a / -b)
  }

  /** q is the quotient of n and d, rounded toward zero. */
  predicate TowardZero(q: int, n: int, d: int) {
    if n >= 0 then 0 <= q * d <= n < q * d + Abs(d) else q * d - Abs(d) < n <= q * d <= 0
  }

  function Abs(n: int): nat { if n >= 0 then n else -n }

  lemma CDivTowardZero(n: int, d: int)
    requires d != 0
    ensures TowardZero(CDiv(n, d), n, d)
  {
    var q: int := Abs(n) / Abs(d);
    QuotientTimes(Abs(n), Abs(d));
    SignedQuotient(CDiv(n, d), q, n, d);
  }

  lemma SignedQuotient(c: int, q: int, n: int, d: int)
    requires d != 0 && q >= 0 && q * Abs(d) <= Abs(n) < (q + 1) * Abs(d)
    requires c == if (n >= 0) == (d > 0) then q else -q
    ensures TowardZero(c, n, d)
  {
    var k: int := Abs(d);
    Signs(q, k);
    assert c * d == if n >= 0 then q * k else -(q * k);
  }

  lemma Signs(q: int, d: int)
    ensures q * -d == -(q * d) && -q * d == -(q * d) && -q * -d == q * d && (q + 1) * d == q * d + d
    ensures q >= 0 && d >= 0 ==> q * d >= 0
  {
  }

  const LONG_MAX := 0x7FFF_FFFF

  /** A product in a 32-bit long */
  function AsLong(n: int): int {
    (n + 0x8000_0000) % 0x1_0000_0000 - 0x8000_0000
  }

  lemma LongFits(n: int)
    requires -LONG_MAX <= n <= LONG_MAX
    ensures AsLong(n) == n
  {
  }

  // ---------------------------------------------------------------- one axis of the four-point transform

  /** Raw range, screen range and the cached extents of one axis */
  datatype Axis = Axis(rl: int, rh: int, sl: int, sh: int, rd: int, sd: int)
  {
    /** The extents are those of the ranges. */
    predicate Matches() { rd == rh - rl && sd == sh - sl }

    /** The product of the extents fits a long. */
    predicate Fits() { -LONG_MAX <= rd * sd <= LONG_MAX }
  }

  function Clamped(a: Axis, t: int): int {
    if a.rd > 0 then (if t < a.rl then a.rl else if t > a.rh then a.rh else t)
    else (if t > a.rl then a.rl else if t < a.rh then a.rh else t)
  }

  function Scaled(a: Axis, t: int): int {
    if a.rd == 0 then a.sl
    else CDiv(AsLong(a.sd * (Clamped(a, t) - a.rl)), a.rd) + a.sl
  }

  /** The distance from the raw range's start, counted in the range's direction */
  function Along(a: Axis, t: int): int {
    if a.rd > 0 then Clamped(a, t) - a.rl else a.rl - Clamped(a, t)
  }

  function Length(a: Axis): int {
    if a.rd > 0 then a.rd else -a.rd
  }

  lemma ForwardIsFraction(a: Axis, t: int)
    requires a.Matches() && a.Fits() && a.rd > 0 && a.sd >= 0
    ensures 0 <= Along(a, t) <= a.rd
    ensures Scaled(a, t) == a.sl + a.sd * Along(a, t) / a.rd
  {
    MulLe(0, Along(a, t), a.sd);
    MulLe(Along(a, t), a.rd, a.sd);
    LongFits(a.sd * Along(a, t));
  }

  lemma BackwardIsFraction(a: Axis, t: int)
    requires a.Matches() && a.Fits() && a.rd < 0 && a.sd >= 0
    ensures 0 <= Along(a, t) <= -a.rd
    ensures Scaled(a, t) == a.sl + a.sd * Along(a, t) / -a.rd
  {
    var p := Along(a, t);
    MulLe(0, p, a.sd);
    MulLe(p, -a.rd, a.sd);
    assert -a.rd * a.sd == -(a.rd * a.sd);
    assert a.sd * (Clamped(a, t) - a.rl) == -(a.sd * p) by { Negated(a.sd, p); }
    LongFits(-(a.sd * p));
    assert a.sd * p >= 0;
    NegatedQuotient(a.sd * p, a.rd);
  }

  lemma Negated(a: int, b: int)
    ensures a * -b == -(a * b)
  {
  }

  lemma NegatedQuotient(n: int, d: int)
    requires n >= 0 && d < 0
    ensures CDiv(-n, d) == n / -d
  {
    ZeroOver(-d);
  }

  lemma ZeroOver(k: nat)
    requires k > 0
    ensures 0 / k == 0
  {
    DivUnique(0, k, 0, 0);
  }

  /** In either orientation, what is computed is the fraction of the way along, rounded down. */
  lemma ScaledIsFraction(a: Axis, t: int)
    requires a.Matches() && a.Fits() && a.rd != 0 && a.sd >= 0
    ensures 0 <= Along(a, t) <= Length(a)
    ensures Scaled(a, t) == a.sl + a.sd * Along(a, t) / Length(a)
  {
    if a.rd > 0 {
      ForwardIsFraction(a, t);
    } else {
      BackwardIsFraction(a, t);
    }
  }

  lemma FractionInRange(n: nat, len: nat, s: nat)
    requires len > 0 && n <= s * len
    ensures 0 <= n / len <= s
  {
    DivMonotone(n, s * len, len);
    DivMul(s, len);
  }

  /** Outputs stay on the screen. */
  lemma ScaledInRange(a: Axis, t: int)
    requires a.Matches() && a.Fits() && a.sl <= a.sh
    ensures a.sl <= Scaled(a, t) <= a.sh
  {
    if a.rd != 0 {
      ScaledIsFraction(a, t);
      MulLe(Along(a, t), Length(a), a.sd);
      FractionInRange(a.sd * Along(a, t), Length(a), a.sd);
    }
  }

  /** The ends of the raw range map to the ends of the screen. */
  lemma ScaledEndpoints(a: Axis)
    requires a.Matches() && a.Fits() && a.sl <= a.sh && a.rd != 0
    ensures Scaled(a, a.rl) == a.sl && Scaled(a, a.rh) == a.sh
  {
    ScaledIsFraction(a, a.rl);
    ScaledIsFraction(a, a.rh);
    DivMul(a.sd, Length(a));
    DivUnique(0, Length(a), 0, 0);
  }

  /** The map goes with the raw range's direction. */
  lemma ScaledMonotone(a: Axis, t: int, t': int)
    requires a.Matches() && a.Fits() && a.sl <= a.sh && t <= t'
    ensures a.rd >= 0 ==> Scaled(a, t) <= Scaled(a, t')
    ensures a.rd <= 0 ==> Scaled(a, t) >= Scaled(a, t')
  {
    if a.rd != 0 {
      ScaledIsFraction(a, t);
      ScaledIsFraction(a, t');
      var near, far := if a.rd > 0 then Along(a, t) else Along(a, t'), if a.rd > 0 then Along(a, t') else Along(a, t);
      MulLe(near, far, a.sd);
      DivMonotone(a.sd * near, a.sd * far, Length(a));
    }
  }

  // ---------------------------------------------------------------- the calibration-free path

  const UINT := 0x1_0000_0000

  /** pts_per_pixel: the shift is one of 32 bits. */
  function PointsPerPixel(screen: nat, matrix: nat): nat
    requires matrix > 0
  {
    (screen * 0x1_0000 % UINT) / matrix
  }

  function Unscaled(x: nat, points: nat): nat {
    x * points / 0x1_0000
  }

  lemma QuotientTimes(n: nat, d: nat)
    requires d > 0
    ensures n / d * d <= n < (n / d + 1) * d
  {
    assert n == n / d * d + n % d;
  }

  lemma AtMost(y: nat, n: nat, d: nat)
    requires d > 0 && y * d <= n
    ensures y <= n / d
  {
    DivMonotone(y * d, n, d);
    DivMul(y, d);
  }

  /** points <= screen 2^16 / matrix, so that nothing gets larger. */
  lemma UnscaledAtMost(x: nat, screen: nat, matrix: nat, points: nat)
    requires matrix > 0 && points * matrix <= screen * 0x1_0000
    ensures Unscaled(x, points) <= x * screen / matrix
  {
    var y := Unscaled(x, points);
    QuotientTimes(x * points, 0x1_0000);
    MulLe(y * 0x1_0000, x * points, matrix);
    MulLe(points * matrix, screen * 0x1_0000, x);
    assert x * points * matrix == points * matrix * x by { Rotate(x, points, matrix); }
    assert y * 0x1_0000 * matrix == y * matrix * 0x1_0000 by { Rotate(y, 0x1_0000, matrix); }
    assert screen * 0x1_0000 * x == x * screen * 0x1_0000 by { Rotate(x, screen, 0x1_0000); }
    AtMost(y, x * screen, matrix);
  }

  lemma Rotate(a: nat, b: nat, c: nat)
    ensures a * b * c == b * c * a == a * c * b
  {
    assert b * c * a == a * (b * c) == a * b * c;
    assert a * c * b == a * (c * b) == a * (b * c);
  }

  /** points + 1 > screen 2^16 / matrix, so that less than a pixel is lost. */
  lemma UnscaledAtLeast(x: nat, screen: nat, matrix: nat, points: nat)
    requires x <= matrix && 0 < matrix <= 0x1_0000 && screen * 0x1_0000 < (points + 1) * matrix
    ensures x * screen / matrix - 1 <= Unscaled(x, points)
  {
    var e := x * screen / matrix;
    if e > 0 {
      QuotientTimes(x * screen, matrix);
      MulLe(screen * 0x1_0000, (points + 1) * matrix, x);
      assert screen * 0x1_0000 * x == x * screen * 0x1_0000 by { Rotate(x, screen, 0x1_0000); }
      assert (points + 1) * matrix * x == x * (points + 1) * matrix by { Rotate(x, points + 1, matrix); }
      assert e * matrix * 0x1_0000 <= x * (points + 1) * matrix;
      Cancel(e * 0x1_0000, x * (points + 1), matrix);
      assert x * (points + 1) == x * points + x;
      AtMost(e - 1, x * points, 0x1_0000);
    }
  }

  lemma Cancel(a: nat, b: nat, k: nat)
    requires k > 0 && a * k <= b * k
    ensures a <= b
  {
    if a > b {
      MulLe(b + 1, a, k);
    }
  }

  /** Within one pixel of exact scaling, and on the screen. */
  lemma UnscaledIsClose(x: nat, screen: nat, matrix: nat)
    requires x <= matrix && 0 < matrix <= 0x1_0000 && screen < 0x1_0000
    ensures var y := Unscaled(x, PointsPerPixel(screen, matrix));
            x * screen / matrix - 1 <= y <= x * screen / matrix <= screen
  {
    var scaled := screen * 0x1_0000;
    var points := scaled / matrix;
    assert PointsPerPixel(screen, matrix) == points;
    QuotientTimes(scaled, matrix);
    UnscaledAtMost(x, screen, matrix, points);
    UnscaledAtLeast(x, screen, matrix, points);
    MulLe(x, matrix, screen);
    FractionInRange(x * screen, matrix, screen);
  }

  // ---------------------------------------------------------------- any scale on any screen

  lemma UnscaledMonotone(x: nat, x': nat, points: nat)
    requires x <= x'
    ensures Unscaled(x, points) <= Unscaled(x', points)
  {
    MulLe(x, x', points);
    DivMonotone(x * points, x' * points, 0x1_0000);
  }

  /** On the screen, and within a pixel of exact scaling */
  predicate Close(x: nat, points: nat, screen: nat, matrix: nat)
    requires matrix > 0
  {
    Unscaled(x, points) <= screen && x * screen / matrix - 1 <= Unscaled(x, points) <= x * screen / matrix + 1
  }

  /** At most a pixel too small: (screen - 1) 2^16 <= matrix points. */
  lemma CloseBelow(x: nat, points: nat, screen: nat, matrix: nat)
    requires 0 < matrix && x <= matrix && screen - 1 <= Unscaled(matrix, points)
    ensures x * screen / matrix - 1 <= Unscaled(x, points)
  {
    var e := x * screen / matrix;
    if e > 1 {
      QuotientTimes(x * screen, matrix);
      QuotientTimes(matrix * points, 0x1_0000);
      MulLe(screen - 1, Unscaled(matrix, points), 0x1_0000);
      MulLe((screen - 1) * 0x1_0000, matrix * points, x);
      assert (e - 1) * matrix <= x * (screen - 1) by { Less(x, screen, e, matrix); }
      MulLe((e - 1) * matrix, x * (screen - 1), 0x1_0000);
      assert (screen - 1) * 0x1_0000 * x == x * (screen - 1) * 0x1_0000 by { Rotate(x, screen - 1, 0x1_0000); }
      assert (e - 1) * matrix * 0x1_0000 == (e - 1) * 0x1_0000 * matrix by { Rotate(e - 1, matrix, 0x1_0000); }
      assert matrix * points * x == x * points * matrix by { Rotate(matrix, points, x); Rotate(x, points, matrix); }
      Cancel((e - 1) * 0x1_0000, x * points, matrix);
      AtMost(e - 1, x * points, 0x1_0000);
    }
  }

  lemma Less(x: nat, screen: nat, e: nat, matrix: nat)
    requires x <= matrix && 1 <= screen && e * matrix <= x * screen
    ensures (e - 1) * matrix <= x * (screen - 1)
  {
    assert (e - 1) * matrix == e * matrix - matrix && x * (screen - 1) == x * screen - x;
  }

  /** y 2^16 <= x points and matrix points <= (screen + 1) 2^16: y matrix <= x (screen + 1). */
  lemma CrossMultiplied(x: nat, points: nat, screen: nat, matrix: nat, y: nat)
    requires y * 0x1_0000 <= x * points && matrix * points <= (screen + 1) * 0x1_0000
    ensures y * matrix <= x * (screen + 1)
  {
    MulLe(matrix * points, (screen + 1) * 0x1_0000, x);
    MulLe(y * 0x1_0000, x * points, matrix);
    Rotate(matrix, points, x);
    Rotate(x, points, matrix);
    Rotate(x, screen + 1, 0x1_0000);
    Rotate(y, 0x1_0000, matrix);
    Cancel(y * matrix, x * (screen + 1), 0x1_0000);
  }

  lemma OneMore(x: nat, screen: nat, matrix: nat, y: nat)
    requires x <= matrix && 0 < y && y * matrix <= x * (screen + 1)
    ensures (y - 1) * matrix <= x * screen
  {
    assert (y - 1) * matrix == y * matrix - matrix && x * (screen + 1) == x * screen + x;
  }

  /** At most a pixel too large: matrix points < (screen + 1) 2^16. */
  lemma CloseAbove(x: nat, points: nat, screen: nat, matrix: nat)
    requires 0 < matrix && x <= matrix && Unscaled(matrix, points) <= screen
    ensures Unscaled(x, points) <= x * screen / matrix + 1
  {
    var y := Unscaled(x, points);
    if y > 1 {
      QuotientTimes(x * points, 0x1_0000);
      QuotientTimes(matrix * points, 0x1_0000);
      MulLe(Unscaled(matrix, points) + 1, screen + 1, 0x1_0000);
      CrossMultiplied(x, points, screen, matrix, y);
      OneMore(x, screen, matrix, y);
      AtMost(y - 1, x * screen, matrix);
    }
  }

  /** What a scale does with each of the positions on an axis */
  function StaysOn(points: nat, screen: nat): nat -> bool { (x: nat) => Unscaled(x, points) <= screen }

  function StaysClose(points: nat, screen: nat, matrix: nat): nat -> bool
    requires matrix > 0
  {
    (x: nat) => Close(x, points, screen, matrix)
  }

  ghost predicate Everywhere(matrix: nat, good: nat -> bool) {
    forall x: nat :: x <= matrix ==> good(x)
  }

  /** A scale keeps an axis on the screen exactly if it does so with its far end. */
  lemma ScaleOnScreenIff(points: nat, screen: nat, matrix: nat)
    ensures Everywhere(matrix, StaysOn(points, screen)) <==> Unscaled(matrix, points) <= screen
  {
    forall x: nat | x <= matrix ensures Unscaled(x, points) <= Unscaled(matrix, points) {
      UnscaledMonotone(x, matrix, points);
    }
    if Everywhere(matrix, StaysOn(points, screen)) {
      assert StaysOn(points, screen)(matrix);
    }
  }

  lemma WholeFraction(matrix: nat, screen: nat)
    requires matrix > 0
    ensures matrix * screen / matrix == screen
  {
    DivMul(screen, matrix);
    assert matrix * screen == screen * matrix;
  }

  /** And within a pixel exactly if its far end is. */
  lemma ScaleCloseIff(points: nat, screen: nat, matrix: nat)
    requires matrix > 0
    ensures Everywhere(matrix, StaysClose(points, screen, matrix)) <==> screen - 1 <= Unscaled(matrix, points) <= screen
  {
    if screen - 1 <= Unscaled(matrix, points) <= screen {
      forall x: nat | x <= matrix ensures StaysClose(points, screen, matrix)(x) {
        UnscaledMonotone(x, matrix, points);
        CloseBelow(x, points, screen, matrix);
        CloseAbove(x, points, screen, matrix);
      }
    } else {
      WholeFraction(matrix, screen);
      assert !StaysClose(points, screen, matrix)(matrix);
    }
  }
}
