/** Exact complex arithmetic over `real`, standing in for numpy's complex128. */
module Complexes {
  datatype Complex = Complex(re: real, im: real)

  const Zero: Complex := Complex(0.0, 0.0)
  const One: Complex := Complex(1.0, 0.0)
  /** The imaginary unit, Python's `1j`. */
  const I: Complex := Complex(0.0, 1.0)

  function FromReal(x: real): Complex {
    Complex(x, 0.0)
  }

  function Add(a: Complex, b: Complex): Complex {
    Complex(a.re + b.re, a.im + b.im)
  }

  function Sub(a: Complex, b: Complex): Complex {
    Complex(a.re - b.re, a.im - b.im)
  }

  function Mul(a: Complex, b: Complex): Complex {
    Complex(a.re * b.re - a.im * b.im, a.re * b.im + a.im * b.re)
  }

  /** Multiplication by a real scalar. */
  function Scale(k: real, a: Complex): Complex {
    Complex(k * a.re, k * a.im)
  }

  /** `1j * omega`: the purely imaginary number with imaginary part `w`. */
  function JOmega(w: real): Complex {
    Complex(0.0, w)
  }

  /** The squared modulus. */
  function NormSq(z: Complex): real {
    z.re * z.re + z.im * z.im
  }

  /** The squared modulus is never negative and vanishes only at the origin. */
  lemma NormSqPositive(z: Complex)
    ensures NormSq(z) >= 0.0
    ensures z != Zero ==> NormSq(z) > 0.0
  {
    SquareNonNegative(z.re);
    SquareNonNegative(z.im);
    if z.re != 0.0 {
      SquarePositive(z.re);
      calc {
        NormSq(z);
      == z.re * z.re + z.im * z.im;
      >= z.re * z.re;
      > 0.0;
      }
    } else if z.im != 0.0 {
      SquarePositive(z.im);
      calc {
        NormSq(z);
      == z.re * z.re + z.im * z.im;
      >= z.im * z.im;
      > 0.0;
      }
    } else {
      calc {
        NormSq(z);
      == z.re * z.re + z.im * z.im;
      >= 0.0;
      }
    }
  }

  lemma SquareNonNegative(x: real)
    ensures x * x >= 0.0
  {
    if x < 0.0 {
      assert x * x == (-x) * (-x);
    }
  }

  lemma SquarePositive(x: real)
    requires x != 0.0
    ensures x * x > 0.0
  {
    if x < 0.0 {
      assert x * x == (-x) * (-x);
    }
  }

  /** Complex division; the quotient times the divisor gives back the dividend. */
  function Div(a: Complex, b: Complex): (q: Complex)
    requires b != Zero
    ensures Mul(q, b) == a
  {
    NormSqPositive(b);
    var d := NormSq(b);
    var q := Complex((a.re * b.re + a.im * b.im) / d, (a.im * b.re - a.re * b.im) / d);
    DivCancels(a, b, d);
    q
  }

  lemma DivCancels(a: Complex, b: Complex, d: real)
    requires d == b.re * b.re + b.im * b.im && d != 0.0
    ensures Mul(Complex((a.re * b.re + a.im * b.im) / d, (a.im * b.re - a.re * b.im) / d), b) == a
  {
    var x := (a.re * b.re + a.im * b.im) / d;
    var y := (a.im * b.re - a.re * b.im) / d;
    assert x * d == a.re * b.re + a.im * b.im;
    assert y * d == a.im * b.re - a.re * b.im;
    calc {
      (x * b.re - y * b.im) * d;
      (x * d) * b.re - (y * d) * b.im;
      (a.re * b.re + a.im * b.im) * b.re - (a.im * b.re - a.re * b.im) * b.im;
      a.re * d;
    }
    calc {
      (x * b.im + y * b.re) * d;
      (x * d) * b.im + (y * d) * b.re;
      (a.re * b.re + a.im * b.im) * b.im + (a.im * b.re - a.re * b.im) * b.re;
      a.im * d;
    }
  }

  /** Complex multiplication is associative. */
  lemma MulAssociates(a: Complex, b: Complex, c: Complex)
    ensures Mul(Mul(a, b), c) == Mul(a, Mul(b, c))
  {
    calc {
      (a.re * b.re - a.im * b.im) * c.re - (a.re * b.im + a.im * b.re) * c.im;
      a.re * (b.re * c.re - b.im * c.im) - a.im * (b.re * c.im + b.im * c.re);
    }
    calc {
      (a.re * b.re - a.im * b.im) * c.im + (a.re * b.im + a.im * b.re) * c.re;
      a.re * (b.re * c.im + b.im * c.re) + a.im * (b.re * c.re - b.im * c.im);
    }
  }

  /** Multiplying twice by `1j * omega` scales by `-omega**2`. */
  lemma TimesJOmegaTwice(z: Complex, w: real)
    ensures Mul(Mul(z, JOmega(w)), JOmega(w)) == Scale(-(w * w), z)
  {
    calc {
      Mul(Mul(z, JOmega(w)), JOmega(w));
      Mul(Complex(-(z.im * w), z.re * w), JOmega(w));
      Complex(-((z.re * w) * w), -(z.im * w) * w);
      Scale(-(w * w), z);
    }
  }
}
