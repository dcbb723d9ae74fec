/** Facts about squares of reals, stated over named functions so that the
    solver keeps them in the form later proofs use. */
module RealArith {

  function Sq(x: real): real {
    x * x
  }

  function Prod(a: real, b: real): real {
    a * b
  }

  lemma ProdPositive(a: real, b: real)
    requires a > 0.0 && b > 0.0
    ensures Prod(a, b) > 0.0
  {
  }

  lemma SqOfPositive(y: real)
    requires y > 0.0
    ensures Sq(y) > 0.0
  {
    ProdPositive(y, y);
  }

  lemma SqOfNegation(x: real)
    ensures Sq(x) == Sq(-x)
  {
  }

  lemma SqPositive(x: real)
    requires x != 0.0
    ensures Sq(x) > 0.0
  {
    if x > 0.0 {
      SqOfPositive(x);
    } else {
      SqOfPositive(-x);
      SqOfNegation(x);
    }
  }

  lemma SqNonNegative(x: real)
    ensures Sq(x) >= 0.0
  {
    if x != 0.0 {
      SqPositive(x);
    }
  }

  /** Multiplication distributes over a difference ... */
  lemma SubTimes(a: real, b: real, c: real)
    ensures (a - b) * c == a * c - b * c
  {
  }

  /** ... and over a sum of three. */
  lemma SumTimes(t: real, a: real, b: real, c: real, d: real)
    requires t == a + b + c
    ensures t * d == a * d + b * d + c * d
  {
  }

  /** A product of three factors in any order. */
  lemma Reorder(a: real, b: real, c: real)
    ensures (a * b) * c == (a * c) * b == (b * a) * c == (b * c) * a == (c * a) * b == (c * b) * a
  {
  }
}
