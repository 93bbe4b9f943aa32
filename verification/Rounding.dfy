/** `round(x, 3)`: to three decimals, ties to the even neighbour. */
module Rounding {

  function HalfEven(y: real): int {
    var f := y.Floor;
    var rest := y - f as real;
    if rest < 0.5 || (rest == 0.5 && f % 2 == 0) then f else f + 1
  }

  function Round3(x: real): real { HalfEven(x * 1000.0) as real / 1000.0 }

  lemma RoundMonotone(x: real, y: real)
    requires x <= y
    ensures Round3(x) <= Round3(y)
  {
    var a, b := x * 1000.0, y * 1000.0;
    if a.Floor < b.Floor && HalfEven(a) > b.Floor { assert false; }
  }

  /** Rounding before the `< 0.6` comparison lowers the effective threshold to 0.5995. */
  lemma GateThreshold(kappa: real)
    ensures Round3(kappa) < 0.6 <==> kappa < 0.5995
  {
    var y := kappa * 1000.0;
    assert Round3(kappa) < 0.6 <==> HalfEven(y) < 600;
    assert kappa < 0.5995 <==> y < 599.5;
  }
}
