/** Records the measuring stages hand to each other. */
module Models {
  import opened PhasorMath

  datatype Phasor = Phasor(re: real, im: real, magnitude: real, angle: real, freqHz: real)

  function AsComplex(p: Phasor): Complex { Complex(p.re, p.im) }

  datatype ImpedancePoint = ImpedancePoint(timestampNs: nat, resistance: real, reactance: real,
                                           magnitude: real, phase: real, seqNo: nat)

  /** Voltage times the conjugate of the current: the parts the impedance and the energy are built on. */
  function InPhase(v: Phasor, i: Phasor): real { v.re * i.re + v.im * i.im }

  function Quadrature(v: Phasor, i: Phasor): real { v.im * i.re - v.re * i.im }

  function CurrentSq(i: Phasor): real { i.re * i.re + i.im * i.im }

  /** Below this squared current nothing is measured. */
  const MIN_CURRENT_SQ := 0.000_000_000_001

  /** The two-square identity for a voltage and a current. */
  lemma ApparentSq(v: Phasor, i: Phasor)
    ensures InPhase(v, i) * InPhase(v, i) + Quadrature(v, i) * Quadrature(v, i) ==
            NormSq(AsComplex(v)) * NormSq(AsComplex(i))
  {
    TwoSquares(v.re, v.im, i.re, -i.im);
    Negated(v.re, v.im, i.re, i.im);
  }

  lemma Negated(a: real, b: real, c: real, d: real)
    ensures a * c - b * (-d) == a * c + b * d
    ensures (a * (-d) + b * c) == b * c - a * d
    ensures (-d) * (-d) == d * d
  {
  }
}
