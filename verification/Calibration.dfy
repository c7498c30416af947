/**
 `PiKVMScreenshotCalibration.map_point` in exact rationals: clamping, scaling to
 0..65535 and rounding half to even.
 */
module Calibration {

  const ABSOLUTE_MAX: nat := 65535

  /** `round(n / d)`: nearest integer, ties to even. */
  function RoundHalfEven(n: nat, d: nat): nat
    requires d > 0
  {
    var (q, r) := (n / d, n % d);
    if 2 * r < d then q else if 2 * r > d then q + 1 else if q % 2 == 0 then q else q + 1
  }

  function Clamp(x: int, width: nat): (c: nat)
    requires width > 1
    ensures c <= width - 1
  {
    var low := if x < 0 then 0 else x;
    if low > width - 1 then width - 1 else low
  }

  /** One coordinate of `map_point`. */
  function MapCoordinate(x: int, width: nat): nat
    requires width > 1
  {
    RoundHalfEven(Clamp(x, width) * ABSOLUTE_MAX, width - 1)
  }

  // ---------------------------------------------------------------- rounding

  /** m is a nearest integer to n / d, and even if two are equally near. */
  predicate Nearest(m: nat, n: nat, d: nat)
  {
    2 * n - d <= 2 * (d * m) <= 2 * n + d && (2 * (d * m) == 2 * n - d || 2 * (d * m) == 2 * n + d ==> m % 2 == 0)
  }

  lemma RoundIsNearest(n: nat, d: nat)
    requires d > 0
    ensures Nearest(RoundHalfEven(n, d), n, d)
  {
    var (q, r) := (n / d, n % d);
    assert n == d * q + r;
    assert d * (q + 1) == d * q + d;
  }

  /** Rounding never reverses an order; in particular nearest integers are unique. */
  lemma NearestMonotone(m: nat, n: nat, m': nat, n': nat, d: nat)
    requires d > 0 && n <= n' && Nearest(m, n, d) && Nearest(m', n', d)
    ensures m <= m'
  {
    if m > m' {
      assert 2 * (d * m) - 2 * (d * m') <= 2 * d;
      assert d * m - d * m' == d * (m - m');
      assert m - m' == 1 by {
        if m - m' >= 2 { TwoSteps(d, m - m'); }
      }
    }
  }

  lemma TwoSteps(d: nat, k: nat)
    requires d > 0 && k >= 2
    ensures d * k >= 2 * d
  {
  }

  // ------------------------------------------------------------- main results

  /** The rounded value is the nearest integer, in range, and exact at both ends. */
  lemma MapRange(x: int, width: nat)
    requires width > 1
    ensures 0 <= x < width ==> Nearest(MapCoordinate(x, width), x * 65535, width - 1)
    ensures MapCoordinate(x, width) <= 65535
    ensures x <= 0 ==> MapCoordinate(x, width) == 0
    ensures x >= width - 1 ==> MapCoordinate(x, width) == 65535
  {
    var d := width - 1;
    var n := Clamp(x, width) * ABSOLUTE_MAX;
    RoundIsNearest(n, d);
    assert Nearest(ABSOLUTE_MAX, d * ABSOLUTE_MAX, d);
    assert Nearest(0, 0, d);
    NearestMonotone(MapCoordinate(x, width), n, ABSOLUTE_MAX, d * ABSOLUTE_MAX, d);
    if x <= 0 { NearestMonotone(MapCoordinate(x, width), 0, 0, 0, d); }
    if x >= width - 1 { NearestMonotone(ABSOLUTE_MAX, d * ABSOLUTE_MAX, MapCoordinate(x, width), n, d); }
  }

  /** A pixel further right or down never maps to a smaller coordinate. */
  lemma MapMonotone(x: int, y: int, width: nat)
    requires width > 1 && x <= y
    ensures MapCoordinate(x, width) <= MapCoordinate(y, width)
  {
    var d := width - 1;
    RoundIsNearest(Clamp(x, width) * ABSOLUTE_MAX, d);
    RoundIsNearest(Clamp(y, width) * ABSOLUTE_MAX, d);
    NearestMonotone(MapCoordinate(x, width), Clamp(x, width) * ABSOLUTE_MAX,
                    MapCoordinate(y, width), Clamp(y, width) * ABSOLUTE_MAX, d);
  }

  /** With at most 65536 pixels, neighbouring pixels are told apart. */
  lemma NeighboursApart(x: nat, width: nat)
    requires 1 < width <= ABSOLUTE_MAX + 1 && x < width - 1
    ensures MapCoordinate(x, width) < MapCoordinate(x + 1, width)
  {
    var d := width - 1;
    var (n, n') := (x * ABSOLUTE_MAX, (x + 1) * ABSOLUTE_MAX);
    var (m, m') := (MapCoordinate(x, width), MapCoordinate(x + 1, width));
    RoundIsNearest(n, d);
    RoundIsNearest(n', d);
    if d == ABSOLUTE_MAX {
      NearestMonotone(m, n, x, n, d);
      NearestMonotone(x + 1, n', m', n', d);
    } else {
      StepApart(m, n, m', n', d);
    }
  }

  lemma StepApart(m: nat, n: nat, m': nat, n': nat, d: nat)
    requires d > 0 && n' - n > d && Nearest(m, n, d) && Nearest(m', n', d)
    ensures m < m'
  {
    if m >= m' { ScaleMonotone(d, m', m); }
  }

  lemma ScaleMonotone(d: nat, a: nat, b: nat)
    requires a <= b
    ensures d * a <= d * b
  {
  }

  lemma {:induction false} StrictlyIncreasing(x: nat, y: nat, width: nat)
    requires 1 < width <= ABSOLUTE_MAX + 1 && x < y < width
    ensures MapCoordinate(x, width) < MapCoordinate(y, width)
    decreases y
  {
    NeighboursApart(y - 1, width);
    if x < y - 1 { StrictlyIncreasing(x, y - 1, width); }
  }

  ghost predicate TellsApart(width: nat)
    requires width > 1
  {
    forall x, y :: 0 <= x < y < width ==> MapCoordinate(x, width) != MapCoordinate(y, width)
  }

  lemma {:induction false} InjectiveGrows(x: nat, width: nat)
    requires 1 < width && x < width && TellsApart(width)
    ensures MapCoordinate(x, width) >= x
  {
    if x > 0 {
      InjectiveGrows(x - 1, width);
      MapMonotone(x - 1, x, width);
    }
  }

  /** All in-range pixels are told apart exactly when there are at most 65536 of them. */
  lemma InjectiveExactly(width: nat)
    requires width > 1
    ensures TellsApart(width) <==> width <= 65536
  {
    if width <= ABSOLUTE_MAX + 1 {
      forall x, y | 0 <= x < y < width ensures MapCoordinate(x, width) != MapCoordinate(y, width) {
        StrictlyIncreasing(x, y, width);
      }
    }
    if TellsApart(width) {
      InjectiveGrows(width - 1, width);
      MapRange(width - 1, width);
    }
  }
}
