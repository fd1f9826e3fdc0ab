/** Radiance values. Mitsuba's `Spectrum` is a fixed-size vector of
    floating-point channels; here it is three real channels (the RGB build),
    with only the operations the two estimators use. */
module Spectra {

  datatype Spectrum = Spectrum(r: real, g: real, b: real)

  /** `Spectrum(x)`: every channel set to `x`. */
  function Uniform(x: real): Spectrum
  {
    Spectrum(x, x, x)
  }

  /** `fromLinearRGB(r, g, b)` in the RGB build. */
  function FromLinearRGB(r: real, g: real, b: real): Spectrum
  {
    Spectrum(r, g, b)
  }

  /** `Spectrum(0.0f)`: no radiance. */
  function Black(): Spectrum { Uniform(0.0) }

  /** `fromLinearRGB(1, 1, 1)`: the mask colour. */
  function White(): Spectrum { FromLinearRGB(1.0, 1.0, 1.0) }

  /** Channel-wise sum (`+=`). */
  function Add(a: Spectrum, b: Spectrum): Spectrum
  {
    Spectrum(a.r + b.r, a.g + b.g, a.b + b.b)
  }

  /** Channel-wise product (`*`). */
  function Mul(a: Spectrum, b: Spectrum): Spectrum
  {
    Spectrum(a.r * b.r, a.g * b.g, a.b * b.b)
  }

  /** `isZero()`: every channel is zero. */
  predicate IsZero(s: Spectrum)
  {
    s.r == 0.0 && s.g == 0.0 && s.b == 0.0
  }

  /** Black is the neutral element of `+=`, and a unit throughput leaves
      a value unchanged under `*`. */
  lemma AddMulUnit(v: Spectrum)
    ensures Add(Black(), Mul(Uniform(1.0), v)) == v
    ensures Mul(Uniform(1.0), v) == v
  {
  }
}
