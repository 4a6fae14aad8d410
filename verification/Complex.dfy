/** Exact complex arithmetic.  An IQ sample (include/ocudu_gpu_channel/iq.h) and
    an entry of a correlation matrix are both a pair of reals here; rounding is
    not modelled. */
module Complex {

  datatype Cx = Cx(re: real, im: real) {
    function Add(other: Cx): Cx { Cx(re + other.re, im + other.im) }

    function Sub(other: Cx): Cx { Cx(re - other.re, im - other.im) }

    function Neg(): Cx { Cx(-re, -im) }

    function Mul(other: Cx): Cx { Cx(re * other.re - im * other.im, re * other.im + im * other.re) }

    function Scale(k: real): Cx { Cx(k * re, k * im) }

    function Conj(): Cx { Cx(re, -im) }

    /** The squared magnitude. */
    function Norm2(): real { re * re + im * im }
  }

  type IqSample = Cx

  const ZERO := Cx(0.0, 0.0)
  const ONE := Cx(1.0, 0.0)
}
