/**
 Decimal.quantize(..., rounding=ROUND_HALF_UP) over exact reals: the nearest multiple of a quantum,
 ties away from zero.
 */
module Rounding {

  function Multiple(n: int, q: real): real {
    n as real * q
  }

  ghost predicate OnGrid(x: real, q: real) {
    exists n: int :: x == Multiple(n, q)
  }

  function Nearest(x: real, q: real): real
    requires q > 0.0
  {
    Multiple((x / q + 0.5).Floor, q)
  }

  function RoundHalfUp(x: real, q: real): real
    requires q > 0.0
  {
    if x < 0.0 then -Nearest(-x, q) else Nearest(x, q)
  }

  lemma MultipleOrder(m: int, n: int, q: real)
    requires q > 0.0 && m < n
    ensures Multiple(m, q) + q <= Multiple(n, q)
  {
    assert Multiple(n, q) - Multiple(m, q) == (n - m) as real * q;
    assert (n - m) as real >= 1.0;
  }

  lemma ScaleOrder(a: real, b: real, q: real)
    requires q > 0.0 && a <= b
    ensures a * q <= b * q
    ensures a < b ==> a * q < b * q
  {
  }

  lemma NearestWithin(x: real, q: real)
    requires q > 0.0
    ensures OnGrid(Nearest(x, q), q)
    ensures Nearest(x, q) - q / 2.0 <= x < Nearest(x, q) + q / 2.0
  {
    var y := x / q;
    var n := (y + 0.5).Floor;
    assert n as real <= y + 0.5 < n as real + 1.0;
    assert y * q == x;
    assert (n as real - 0.5) * q == Multiple(n, q) - q / 2.0;
    assert (n as real + 0.5) * q == Multiple(n, q) + q / 2.0;
    ScaleOrder(n as real - 0.5, y, q);
    ScaleOrder(y, n as real + 0.5, q);
    var half := q / 2.0;
    assert x < Multiple(n, q) + half;
  }

  /** Two multiples less than a quantum apart are equal. */
  lemma GridGap(a: real, b: real, q: real)
    requires q > 0.0 && OnGrid(a, q) && OnGrid(b, q)
    requires -q < a - b < q
    ensures a == b
  {
    var m: int :| a == Multiple(m, q);
    var n: int :| b == Multiple(n, q);
    if m < n {
      MultipleOrder(m, n, q);
    } else if n < m {
      MultipleOrder(n, m, q);
    }
  }

  lemma GridSum(a: real, b: real, q: real)
    requires OnGrid(a, q) && OnGrid(b, q)
    ensures OnGrid(a + b, q) && OnGrid(a - b, q) && OnGrid(-a, q) && OnGrid(0.0, q)
  {
    var m: int :| a == Multiple(m, q);
    var n: int :| b == Multiple(n, q);
    assert a + b == Multiple(m + n, q);
    assert a - b == Multiple(m - n, q);
    assert -a == Multiple(-m, q);
    assert 0.0 == Multiple(0, q);
  }

  /** What ROUND_HALF_UP means on amounts: the only multiple r with r - q/2 <= x < r + q/2. */
  lemma HalfUpIff(x: real, q: real, r: real)
    requires q > 0.0 && x >= 0.0
    ensures r == RoundHalfUp(x, q) <==> OnGrid(r, q) && r - q / 2.0 <= x < r + q / 2.0
  {
    NearestWithin(x, q);
    if OnGrid(r, q) && r - q / 2.0 <= x < r + q / 2.0 {
      GridGap(r, Nearest(x, q), q);
    }
  }

  /** Rounding lands on the grid, moves by at most half a quantum and keeps the sign. */
  lemma RoundWithin(x: real, q: real)
    requires q > 0.0
    ensures OnGrid(RoundHalfUp(x, q), q)
    ensures -q / 2.0 <= RoundHalfUp(x, q) - x <= q / 2.0
    ensures x >= 0.0 ==> RoundHalfUp(x, q) >= 0.0
    ensures x <= 0.0 ==> RoundHalfUp(x, q) <= 0.0
  {
    hide Nearest, OnGrid;
    var y := if x < 0.0 then -x else x;
    NearestWithin(y, q);
    GridSum(Nearest(y, q), Nearest(y, q), q);
    if Nearest(y, q) < 0.0 || y == 0.0 {
      GridGap(Nearest(y, q), 0.0, q);
    }
  }

  lemma RoundOnGrid(x: real, q: real)
    requires q > 0.0 && OnGrid(x, q)
    ensures RoundHalfUp(x, q) == x
  {
    RoundWithin(x, q);
    GridGap(RoundHalfUp(x, q), x, q);
  }

  /** Taking a whole number of quanta off commutes with rounding, as long as nothing goes negative. */
  lemma RoundShift(x: real, g: real, q: real)
    requires q > 0.0 && OnGrid(g, q) && x >= 0.0 && x - g >= 0.0
    ensures RoundHalfUp(x - g, q) == RoundHalfUp(x, q) - g
  {
    var r := RoundHalfUp(x, q);
    HalfUpIff(x, q, r);
    GridSum(r, g, q);
    HalfUpIff(x - g, q, r - g);
  }

  /** Exactly halfway between two multiples. */
  ghost predicate Tie(x: real, q: real) {
    OnGrid(x + q / 2.0, q)
  }

  lemma RoundOdd(x: real, q: real)
    requires q > 0.0
    ensures RoundHalfUp(-x, q) == -RoundHalfUp(x, q)
  {
    if x == 0.0 {
      assert 0.0 == Multiple(0, q);
      RoundOnGrid(0.0, q);
    }
  }

  lemma ShiftBelow(x: real, g: real, q: real)
    requires q > 0.0 && OnGrid(g, q) && x >= 0.0 && x - g < 0.0
    ensures RoundHalfUp(x - g, q) == RoundHalfUp(x, q) - g <==> !Tie(x, q)
  {
    var r, y := RoundHalfUp(x, q), g - x;
    HalfUpIff(x, q, r);
    GridSum(g, r, q);
    HalfUpIff(y, q, g - r);
    RoundOdd(y, q);
    assert OnGrid(q, q) by {
      assert q == Multiple(1, q);
    }
    GridSum(r, q, q);
    if Tie(x, q) {
      GridGap(x + q / 2.0, r, q);
    }
  }

  /** Taking a whole number of quanta off commutes with rounding unless it carries a tie across zero. */
  lemma RoundShiftIff(x: real, g: real, q: real)
    requires q > 0.0 && OnGrid(g, q)
    ensures RoundHalfUp(x - g, q) == RoundHalfUp(x, q) - g <==> !Tie(x, q) || (x >= 0.0 <==> x - g >= 0.0)
  {
    GridSum(g, g, q);
    if x >= 0.0 {
      if x - g >= 0.0 {
        RoundShift(x, g, q);
      } else {
        ShiftBelow(x, g, q);
      }
    } else {
      RoundOdd(x, q);
      RoundOdd(x - g, q);
      TieOdd(x, q);
      if x - g < 0.0 {
        RoundShift(-x, -g, q);
      } else if x - g == 0.0 {
        RoundOnGrid(x, q);
        RoundOnGrid(0.0, q);
        NoTieOnGrid(x, q);
      } else {
        ShiftBelow(-x, -g, q);
      }
    }
  }

  lemma TieOdd(x: real, q: real)
    requires q > 0.0
    ensures Tie(-x, q) <==> Tie(x, q)
  {
    assert q == Multiple(1, q);
    if Tie(x, q) {
      GridSum(q, x + q / 2.0, q);
      assert q - (x + q / 2.0) == -x + q / 2.0;
    }
    if Tie(-x, q) {
      GridSum(q, -x + q / 2.0, q);
      assert q - (-x + q / 2.0) == x + q / 2.0;
    }
  }

  lemma NoTieOnGrid(x: real, q: real)
    requires q > 0.0 && OnGrid(x, q)
    ensures !Tie(x, q)
  {
    if Tie(x, q) {
      GridGap(x + q / 2.0, x, q);
    }
  }

  lemma RoundNonNegative(x: real, q: real)
    requires q > 0.0
    ensures RoundHalfUp(x, q) >= 0.0 <==> x > -q / 2.0
  {
    assert 0.0 == Multiple(0, q);
    RoundWithin(x, q);
    if x < 0.0 {
      RoundOdd(x, q);
      HalfUpIff(-x, q, 0.0);
    }
  }
}
