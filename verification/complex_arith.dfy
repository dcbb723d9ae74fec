/** Complex numbers as pairs of reals: the values numpy keeps in its
    `complex` arrays, with the operations the Fourier engine applies to them. */
module ComplexArith {

  import opened RealArith

  datatype Complex = Complex(re: real, im: real)

  const Zero: Complex := Complex(0.0, 0.0)
  const One: Complex := Complex(1.0, 0.0)

  function Add(u: Complex, v: Complex): Complex {
    Complex(u.re + v.re, u.im + v.im)
  }

  function Sub(u: Complex, v: Complex): Complex {
    Complex(u.re - v.re, u.im - v.im)
  }

  function Mul(u: Complex, v: Complex): Complex {
    Complex(u.re * v.re - u.im * v.im, u.re * v.im + u.im * v.re)
  }

  function Conj(u: Complex): Complex {
    Complex(u.re, -u.im)
  }

  /** A complex value times a real scalar (`temp_array * ff`). */
  function Scale(u: Complex, k: real): Complex {
    Complex(u.re * k, u.im * k)
  }

  /** `np.real(F * np.conj(F))`. */
  function Intensity(u: Complex): real {
    Sq(u.re) + Sq(u.im)
  }

  lemma IntensityNonNegative(u: Complex)
    ensures Intensity(u) >= 0.0
  {
    SqNonNegative(u.re);
    SqNonNegative(u.im);
  }

  /** A non-zero amplitude has a positive intensity. */
  lemma IntensityPositive(u: Complex)
    requires u != Zero
    ensures Intensity(u) > 0.0
  {
    if u.re != 0.0 {
      SqPositive(u.re);
      SqNonNegative(u.im);
    } else {
      SqPositive(u.im);
      SqNonNegative(u.re);
    }
  }

  /** The imaginary part that `np.real` discards is zero in exact arithmetic. */
  lemma SquaredModulusIsReal(u: Complex)
    ensures Mul(u, Conj(u)) == Complex(Intensity(u), 0.0)
  {
  }

  /** Only the zero amplitude has zero intensity. */
  lemma IntensityZero(u: Complex)
    requires Intensity(u) == 0.0
    ensures u == Zero
  {
    if u != Zero {
      IntensityPositive(u);
    }
  }

  lemma AddAssociates(a: Complex, b: Complex, c: Complex)
    ensures Add(Add(a, b), c) == Add(a, Add(b, c))
  {
  }
}
