/** Complex arithmetic over the reals, powers of a rotation, and the roots and angles the source
    takes from its mathematics library. No trigonometry: cos and sin of an angle are the parts of
    a unit vector. */
module PhasorMath {

  datatype Complex = Complex(re: real, im: real)

  const ZERO := Complex(0.0, 0.0)
  const ONE := Complex(1.0, 0.0)

  function Add(a: Complex, b: Complex): Complex { Complex(a.re + b.re, a.im + b.im) }

  function Mul(a: Complex, b: Complex): Complex {
    Complex(a.re * b.re - a.im * b.im, a.re * b.im + a.im * b.re)
  }

  function Scale(x: real, a: Complex): Complex { Complex(x * a.re, x * a.im) }

  function Conj(a: Complex): Complex { Complex(a.re, -a.im) }

  function NormSq(a: Complex): real { a.re * a.re + a.im * a.im }

  predicate Unit(w: Complex) { NormSq(w) == 1.0 }

  function Pow(w: Complex, n: nat): Complex {
    if n == 0 then ONE else Mul(w, Pow(w, n - 1))
  }

  function PowR(x: real, n: nat): real {
    if n == 0 then 1.0 else x * PowR(x, n - 1)
  }

  /** The rotations by k/n of a turn, e^{2 pi i k / n}, that the source takes from `cos` and `sin`. */
  type Turns = (int, nat) -> Complex

  /** They are unit vectors and powers of the first, which is not one from two parts up; the n-th power
      is one; and those of the first half of the turn lie in the upper half plane. */
  ghost predicate IsTurn(turn: Turns, k: int, n: nat) {
    && Unit(turn(k, n)) && Pow(turn(k, n), n) == ONE
    && (k >= 0 ==> turn(k, n) == Pow(turn(1, n), k))
    && (n >= 2 ==> turn(1, n) != ONE)
    && (0 <= 2 * k <= n ==> turn(k, n).im >= 0.0)
  }

  ghost predicate AreTurns(turn: Turns) {
    forall k: int, n: nat {:trigger IsTurn(turn, k, n)} :: n > 0 ==> IsTurn(turn, k, n)
  }

  /** `math.Round`: to the nearest integer, halves away from zero. */
  function Round(x: real): int { if x >= 0.0 then (x + 0.5).Floor else -(0.5 - x).Floor }

  lemma RoundNearest(x: real)
    ensures -0.5 <= Round(x) as real - x <= 0.5
    ensures x - x.Floor as real == 0.5 ==> Round(x) == if x >= 0.0 then x.Floor + 1 else x.Floor
  {
  }

  /** The library functions the source calls; `atan2` is only ever passed along. */
  datatype Libm = Libm(sqrt: real -> real, atan2: (real, real) -> real)

  /** `sqrt` is the nonnegative root. */
  ghost predicate IsSqrt(m: Libm) {
    forall x: real {:trigger m.sqrt(x)} :: x >= 0.0 ==> m.sqrt(x) >= 0.0 && m.sqrt(x) * m.sqrt(x) == x
  }

  lemma MulAssoc(a: Complex, b: Complex, c: Complex)
    ensures Mul(Mul(a, b), c) == Mul(a, Mul(b, c))
  {
    MulAssocParts(a.re, a.im, b.re, b.im, c.re, c.im);
  }

  lemma MulAssocParts(ar: real, ai: real, br: real, bi: real, cr: real, ci: real)
    ensures (ar * br - ai * bi) * cr - (ar * bi + ai * br) * ci == ar * (br * cr - bi * ci) - ai * (br * ci + bi * cr)
    ensures (ar * br - ai * bi) * ci + (ar * bi + ai * br) * cr == ar * (br * ci + bi * cr) + ai * (br * cr - bi * ci)
  {
  }

  lemma MulAdd(a: Complex, b: Complex, c: Complex)
    ensures Mul(a, Add(b, c)) == Add(Mul(a, b), Mul(a, c))
  {
  }

  lemma MulScale(x: real, a: Complex, b: Complex)
    ensures Mul(a, Scale(x, b)) == Scale(x, Mul(a, b))
  {
    ScaleParts(x, a.re, a.im, b.re, b.im);
  }

  lemma ScaleParts(x: real, ar: real, ai: real, br: real, bi: real)
    ensures ar * (x * br) - ai * (x * bi) == x * (ar * br - ai * bi)
    ensures ar * (x * bi) + ai * (x * br) == x * (ar * bi + ai * br)
  {
  }

  lemma NormSqMul(a: Complex, b: Complex)
    ensures NormSq(Mul(a, b)) == NormSq(a) * NormSq(b)
  {
    TwoSquares(a.re, a.im, b.re, b.im);
  }

  /** The two-square identity. */
  lemma TwoSquares(a: real, b: real, c: real, d: real)
    ensures (a * c - b * d) * (a * c - b * d) + (a * d + b * c) * (a * d + b * c) == (a * a + b * b) * (c * c + d * d)
  {
    var ac, bd, ad, bc := a * c, b * d, a * d, b * c;
    assert ac * bd == ad * bc;
    assert (ac - bd) * (ac - bd) == ac * ac - 2.0 * (ac * bd) + bd * bd;
    assert (ad + bc) * (ad + bc) == ad * ad + 2.0 * (ad * bc) + bc * bc;
    assert ac * ac == (a * a) * (c * c) && bd * bd == (b * b) * (d * d);
    assert ad * ad == (a * a) * (d * d) && bc * bc == (b * b) * (c * c);
  }

  lemma {:induction false} PowUnit(w: Complex, n: nat)
    requires Unit(w)
    ensures Unit(Pow(w, n))
  {
    if n > 0 {
      PowUnit(w, n - 1);
      NormSqMul(w, Pow(w, n - 1));
    }
  }

  lemma {:induction false} PowConj(w: Complex, n: nat)
    ensures Pow(Conj(w), n) == Conj(Pow(w, n))
  {
    if n > 0 {
      PowConj(w, n - 1);
      ConjMul(w, Pow(w, n - 1));
    }
  }

  lemma ConjMul(a: Complex, b: Complex)
    ensures Mul(Conj(a), Conj(b)) == Conj(Mul(a, b))
  {
    assert a.re * (-b.im) == -(a.re * b.im);
    assert (-a.im) * b.re == -(a.im * b.re);
    assert (-a.im) * (-b.im) == a.im * b.im;
  }

  lemma MulConj(a: Complex)
    ensures Mul(a, Conj(a)) == Complex(NormSq(a), 0.0)
  {
    assert a.im * (-a.im) == -(a.im * a.im);
    assert a.re * (-a.im) == -(a.im * a.re);
  }

  /** A unit power times the conjugate power is one. */
  lemma PowCancel(w: Complex, n: nat)
    requires Unit(w)
    ensures Mul(Pow(w, n), Pow(Conj(w), n)) == ONE
  {
    PowUnit(w, n);
    PowConj(w, n);
    MulConj(Pow(w, n));
  }

  lemma RootUnique(a: real, b: real)
    requires a >= 0.0 && b >= 0.0 && a * a == b * b
    ensures a == b
  {
    assert (a - b) * (a + b) == 0.0;
    if a + b != 0.0 { ZeroProduct(a - b, a + b); }
  }

  lemma ZeroProduct(x: real, y: real)
    requires x * y == 0.0 && y != 0.0
    ensures x == 0.0
  {
  }

  function Abs(x: real): real { if x >= 0.0 then x else -x }

  /** Square roots of squares are absolute values. */
  lemma SqrtOfSquare(m: Libm, x: real, s: real)
    requires IsSqrt(m) && x == s * s
    ensures m.sqrt(x) == Abs(s)
  {
    Square(s);
    RootUnique(m.sqrt(x), Abs(s));
  }

  lemma Square(s: real)
    ensures s * s >= 0.0 && Abs(s) * Abs(s) == s * s
  {
  }

  lemma PositiveSum(x: real, y: real, xx: real, yy: real)
    requires (x != 0.0 || y != 0.0) && xx == x * x && yy == y * y
    ensures xx + yy > 0.0
  {
    PositiveSquare(x, xx);
    PositiveSquare(y, yy);
  }

  lemma PositiveSquare(x: real, xx: real)
    requires xx == x * x
    ensures xx >= 0.0 && (x != 0.0 ==> xx > 0.0)
  {
    Square(x);
    if x != 0.0 && xx == 0.0 { ZeroProduct(x, x); }
  }

  lemma OneTimes(x: real, y: real)
    requires x == 1.0
    ensures x * y == y
  {
  }

  /** A unit factor does not change the magnitude. */
  lemma UnitMulNorm(p: Complex, d: Complex)
    requires Unit(p)
    ensures NormSq(Mul(p, d)) == NormSq(d)
  {
    NormSqMul(p, d);
    OneTimes(NormSq(p), NormSq(d));
  }
}
