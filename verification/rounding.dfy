/** Python's `round`: to the nearest integer, ties to the even one, and to `d` decimals through a scale. */
module Rounding {
  function Round(x: real): int {
    var down := x.Floor;
    var rest := x - down as real;
    if rest < 0.5 then down
    else if rest > 0.5 then down + 1
    else if down % 2 == 0 then down else down + 1
  }

  lemma RoundIsNearest(x: real)
    ensures -0.5 <= Round(x) as real - x <= 0.5
    ensures x == x.Floor as real ==> Round(x) == x.Floor
  {
  }

  lemma RoundIsMonotone(x: real, y: real)
    requires x <= y
    ensures Round(x) <= Round(y)
  {
    assert x.Floor <= y.Floor;
  }

  /** `round(x, 1)`. */
  function RoundTo1(x: real): real {
    Round(x * 10.0) as real / 10.0
  }

  /** `round(x, 4)`. */
  function RoundTo4(x: real): real {
    Round(x * 10000.0) as real / 10000.0
  }

  lemma RoundBetween(x: real, lo: int, hi: int)
    requires lo as real <= x <= hi as real
    ensures lo <= Round(x) <= hi
  {
    RoundIsMonotone(lo as real, x);
    RoundIsMonotone(x, hi as real);
    RoundIsNearest(lo as real);
    RoundIsNearest(hi as real);
  }

  lemma RoundTo1Between(x: real, lo: int, hi: int)
    requires lo as real <= x <= hi as real
    ensures lo as real <= RoundTo1(x) <= hi as real
  {
    RoundBetween(x * 10.0, lo * 10, hi * 10);
  }

  lemma RoundTo4Between(x: real, lo: int, hi: int)
    requires lo as real <= x <= hi as real
    ensures lo as real <= RoundTo4(x) <= hi as real
  {
    RoundBetween(x * 10000.0, lo * 10000, hi * 10000);
  }

  lemma RoundTo1IsMonotone(x: real, y: real)
    requires x <= y
    ensures RoundTo1(x) <= RoundTo1(y)
  {
    RoundIsMonotone(x * 10.0, y * 10.0);
  }
}
