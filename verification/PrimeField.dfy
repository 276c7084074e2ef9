/** The scalars of the curve as a prime field. Any prime is admitted as the order of the field. */
module PrimeField {

  ghost predicate IsPrime(p: nat) {
    p >= 2 && forall d :: 2 <= d < p ==> p % d != 0
  }

  type Prime = p: nat | IsPrime(p) witness 2

  /** The order of the field. Nothing is known about it but that it is prime. */
  const P: Prime

  type FieldElement = x: nat | x < P witness 0

  const ZERO: FieldElement := 0
  const ONE: FieldElement := 1

  function FromNat(n: nat): FieldElement {
    n % P
  }

  function Add(a: FieldElement, b: FieldElement): FieldElement {
    if a + b < P then a + b else a + b - P
  }

  function Sub(a: FieldElement, b: FieldElement): FieldElement {
    if a >= b then a - b else a + P - b
  }

  function Mul(a: FieldElement, b: FieldElement): FieldElement {
    (a * b) % P
  }

  /** The inverse by Euclid's algorithm. Zero is its own inverse, as in the program. */
  function Inv(a: FieldElement): FieldElement
    decreases a
  {
    if a <= 1 then a else
    Smaller(a);
    Mul(Sub(ZERO, P / a), Inv(P % a))
  }

  function Power(x: FieldElement, n: nat): FieldElement {
    if n == 0 then ONE else Mul(Power(x, n - 1), x)
  }

  // ---------------------------------------------------------------------------------------------
  // Remainders

  lemma Smaller(a: nat)
    requires 2 <= a
    ensures P / a < P && P % a < a && (a < P ==> P / a > 0)
  {
    DivMod(P, a);
    if P / a >= P {
      assert a * (P / a) >= 2 * (P / a) by { Scales(2, a, P / a); }
      assert false;
    }
  }

  lemma DivMod(x: int, d: nat)
    requires d > 0
    ensures x == d * (x / d) + x % d
  {
  }

  lemma Scales(a: int, b: int, c: int)
    requires a <= b && 0 <= c
    ensures a * c <= b * c
  {
  }

  /** A number that differs from a remainder by a multiple of the modulus has that remainder. */
  lemma RemainderIs(x: int, k: int, r: FieldElement)
    requires x == P * k + r
    ensures x % P == r
  {
    DivMod(x, P);
    var d := x / P - k;
    assert P * d == r - x % P by { assert P * d == P * (x / P) - P * k; }
    if d >= 1 {
      Scales(1, d, P);
      assert false;
    } else if d <= -1 {
      Scales(d, -1, P);
      assert false;
    }
  }

  lemma SameRemainder(x: int, k: int)
    ensures (x + P * k) % P == x % P
  {
    DivMod(x, P);
    assert x + P * k == P * (x / P + k) + x % P;
    RemainderIs(x + P * k, x / P + k, x % P);
  }

  /** Reducing a factor first changes nothing. */
  lemma ReduceFactor(x: int, y: int)
    ensures ((x % P) * y) % P == (x * y) % P
  {
    DivMod(x, P);
    assert x * y == (x % P) * y + P * ((x / P) * y) by {
      assert x * y == (P * (x / P) + x % P) * y;
    }
    SameRemainder((x % P) * y, (x / P) * y);
  }

  // ---------------------------------------------------------------------------------------------
  // Laws of a field

  lemma MulLaws(a: FieldElement, b: FieldElement, c: FieldElement)
    ensures Mul(a, b) == Mul(b, a)
    ensures Mul(Mul(a, b), c) == Mul(a, Mul(b, c))
    ensures Mul(a, ONE) == a && Mul(a, ZERO) == ZERO
  {
    calc {
      Mul(Mul(a, b), c);
      { ReduceFactor(a * b, c); }
      (a * b * c) % P;
      { assert a * b * c == (b * c) * a; }
      ((b * c) * a) % P;
      { ReduceFactor(b * c, a); }
      Mul(Mul(b, c), a);
      { Commutes(Mul(b, c), a); }
      Mul(a, Mul(b, c));
    }
    Commutes(a, b);
    RemainderIs(a, 0, a);
    RemainderIs(0, 0, 0);
  }

  lemma Commutes(a: FieldElement, b: FieldElement)
    ensures Mul(a, b) == Mul(b, a)
  {
    assert a * b == b * a;
  }

  lemma AddLaws(a: FieldElement, b: FieldElement, c: FieldElement)
    ensures Add(a, b) == Add(b, a) && Add(a, ZERO) == a
    ensures Add(Add(a, b), c) == Add(a, Add(b, c))
    ensures Sub(a, b) == Add(a, Sub(ZERO, b)) && Sub(a, a) == ZERO && Add(Sub(a, b), b) == a
  {
  }

  /** Reducing the summands first changes nothing. */
  lemma ReduceSummands(x: int, y: int)
    ensures Add(x % P, y % P) == (x + y) % P
  {
    DivMod(x, P);
    DivMod(y, P);
    var k := x / P + y / P;
    assert P * k == P * (x / P) + P * (y / P);
    if x % P + y % P < P {
      RemainderIs(x + y, k, x % P + y % P);
    } else {
      assert P * (k + 1) == P * k + P;
      RemainderIs(x + y, k + 1, x % P + y % P - P);
    }
  }

  lemma Distributes(a: FieldElement, b: FieldElement, c: FieldElement)
    ensures Mul(a, Add(b, c)) == Add(Mul(a, b), Mul(a, c))
  {
    RemainderIs(b, 0, b);
    RemainderIs(c, 0, c);
    ReduceSummands(b, c);
    Commutes(a, Add(b, c));
    ReduceFactor(b + c, a);
    assert (b + c) * a == a * b + a * c;
    ReduceSummands(a * b, a * c);
  }

  /** Every element but zero has an inverse. */
  lemma {:induction false} Inverse(a: FieldElement)
    requires a != ZERO
    ensures Mul(a, Inv(a)) == ONE
    decreases a
  {
    if a == 1 {
      RemainderIs(1, 0, 1);
    } else {
      Smaller(a);
      assert P % a != 0 by { assert IsPrime(P); }
      Inverse(P % a);
      InverseByQuotient(a);
    }
  }

  lemma InverseByQuotient(a: FieldElement)
    requires 2 <= a && P % a < P && Mul(P % a, Inv(P % a)) == ONE
    ensures Mul(a, Inv(a)) == ONE
  {
    Smaller(a);
    var q, r: FieldElement := P / a, P % a;
    NegatedQuotient(a);
    assert Inv(a) == Mul(Sub(ZERO, q), Inv(r));
    hide Mul, Sub, Inv;
    MulLaws(a, Sub(ZERO, q), Inv(r));
  }

  lemma NegatedQuotient(a: FieldElement)
    requires 2 <= a && P / a < P
    ensures Mul(a, Sub(ZERO, P / a)) == P % a
  {
    DivMod(P, a);
    var q, r := P / a, P % a;
    assert a * (P - q) == P * (a - 1) + r by {
      assert a * (P - q) == a * P - a * q;
      assert P * (a - 1) == a * P - P;
    }
    RemainderIs(a * (P - q), a - 1, r);
  }

  /** Inverses are unique, so any way to compute them gives the same. */
  lemma InverseIsUnique(a: FieldElement, b: FieldElement)
    requires Mul(a, b) == ONE
    ensures b == Inv(a)
  {
    assert a != ZERO by { MulLaws(b, a, a); }
    Inverse(a);
    hide Mul, Inv;
    MulLaws(b, a, Inv(a));
    MulLaws(Inv(a), b, b);
  }
}
