/** Products of reals behind a name, with the laws the proofs need, so that a proof about sums of
    products does not make the solver multiply. */
module RealProducts {

  function Times(x: real, y: real): real {
    x * y
  }

  function Over(x: real, y: real): real
    requires y != 0.0
  {
    x / y
  }

  lemma Commutes(x: real, y: real)
    ensures Times(x, y) == Times(y, x)
  {
  }

  lemma Associates(x: real, y: real, z: real)
    ensures Times(Times(x, y), z) == Times(x, Times(y, z))
  {
  }

  lemma Distributes(x: real, y: real, z: real)
    ensures Times(x, y + z) == Times(x, y) + Times(x, z)
    ensures Times(y + z, x) == Times(y, x) + Times(z, x)
    ensures Times(x, y - z) == Times(x, y) - Times(x, z)
    ensures Times(y - z, x) == Times(y, x) - Times(z, x)
  {
  }

  lemma Units(x: real)
    ensures Times(1.0, x) == x && Times(x, 1.0) == x && Times(0.0, x) == 0.0 && Times(x, 0.0) == 0.0
    ensures Times(-1.0, x) == -x
  {
  }

  lemma SumTimesSum(a: real, b: real, c: real, d: real)
    ensures Times(a + b, c + d) == Times(a, c) + Times(a, d) + Times(b, c) + Times(b, d)
  {
    hide Times;
    Distributes(a + b, c, d);
    Distributes(c, a, b);
    Distributes(d, a, b);
  }

  lemma DifferenceTimesDifference(a: real, b: real, c: real, d: real)
    ensures Times(a - b, c - d) == Times(a, c) - Times(a, d) - Times(b, c) + Times(b, d)
  {
    hide Times;
    Distributes(a - b, c, d);
    Distributes(c, a, b);
    Distributes(d, a, b);
  }

  lemma SquareOfNegation(x: real)
    ensures Times(x, x) == Times(-x, -x)
  {
  }

  lemma SquareNonNegative(x: real)
    ensures Times(x, x) >= 0.0
    ensures x != 0.0 ==> Times(x, x) > 0.0
  {
    hide Times;
    ProductSign(x, x);
    ProductSign(-x, -x);
    SquareOfNegation(x);
  }

  lemma ProductSign(x: real, y: real)
    ensures x >= 0.0 && y >= 0.0 ==> Times(x, y) >= 0.0
    ensures x > 0.0 && y > 0.0 ==> Times(x, y) > 0.0
    ensures x > 0.0 && Times(x, y) >= 0.0 ==> y >= 0.0
  {
  }

  lemma OverTimes(x: real, y: real)
    requires y != 0.0
    ensures Times(Over(x, y), y) == x
  {
  }
}
