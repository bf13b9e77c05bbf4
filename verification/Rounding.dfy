// Python's round() on exact numbers: to the nearest step, halves to the even one.
module Rounding {

  function Abs(x: real): real {
    if x < 0.0 then -x else x
  }

  function RoundHalfEven(x: real): int {
    var below := x.Floor;
    var rest := x - below as real;
    if rest < 0.5 || (rest == 0.5 && below % 2 == 0) then below else below + 1
  }

  // round(x, 4) and round(x, 6)
  function Round4(x: real): real {
    RoundHalfEven(x * 10000.0) as real / 10000.0
  }

  function Round6(x: real): real {
    RoundHalfEven(x * 1000000.0) as real / 1000000.0
  }

  lemma RoundHalfEvenIsNearest(x: real)
    ensures Abs(RoundHalfEven(x) as real - x) <= 0.5
    ensures Abs(RoundHalfEven(x) as real - x) == 0.5 ==> RoundHalfEven(x) % 2 == 0
  {
  }

  lemma RoundingError(x: real)
    ensures Abs(Round4(x) - x) <= 0.00005
    ensures Abs(Round6(x) - x) <= 0.0000005
  {
    RoundHalfEvenIsNearest(x * 10000.0);
    RoundHalfEvenIsNearest(x * 1000000.0);
  }
}
