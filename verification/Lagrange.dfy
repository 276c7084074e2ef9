/** Lagrange coefficients at zero and the interpolation law they serve. */
module Lagrange {
  import opened PrimeField

  /** The coefficients of a polynomial, that of the lowest power first. */
  type Polynomial = seq<FieldElement>

  function Evaluate(f: Polynomial, x: FieldElement): FieldElement {
    if f == [] then ZERO else
    var n := |f| - 1;
    Add(Evaluate(f[..n], x), Mul(f[n], Power(x, n)))
  }

  /** All points but one. */
  function Others(xs: seq<FieldElement>, i: nat): (r: seq<FieldElement>)
    requires i < |xs|
    ensures |r| == |xs| - 1
  {
    xs[..i] + xs[i + 1..]
  }

  /** The product of value / (x - id) over pairs of ids and values. */
  function Product(x: FieldElement, ids: seq<FieldElement>, values: seq<FieldElement>): FieldElement
    requires |ids| == |values|
  {
    if ids == [] then ONE else
    var n := |ids| - 1;
    Mul(Product(x, ids[..n], values[..n]), Mul(values[n], Inv(Sub(x, ids[n]))))
  }

  /** The direct form of the coefficient of a party. */
  function Coefficient(xs: seq<FieldElement>, i: nat): FieldElement
    requires i < |xs|
  {
    Product(xs[i], Others(xs, i), Others(xs, i))
  }

  function Coefficients(xs: seq<FieldElement>): seq<FieldElement> {
    seq(|xs|, i requires 0 <= i < |xs| => Coefficient(xs, i))
  }

  function Sum(t: seq<FieldElement>): FieldElement {
    if t == [] then ZERO else Add(Sum(t[..|t| - 1]), t[|t| - 1])
  }

  function Times(t: seq<FieldElement>, u: seq<FieldElement>): seq<FieldElement>
    requires |t| == |u|
  {
    seq(|t|, i requires 0 <= i < |t| => Mul(t[i], u[i]))
  }

  function Plus(t: seq<FieldElement>, u: seq<FieldElement>): seq<FieldElement>
    requires |t| == |u|
  {
    seq(|t|, i requires 0 <= i < |t| => Add(t[i], u[i]))
  }

  function Scaled(c: FieldElement, t: seq<FieldElement>): seq<FieldElement> {
    seq(|t|, i requires 0 <= i < |t| => Mul(c, t[i]))
  }

  function Shares(f: Polynomial, xs: seq<FieldElement>): seq<FieldElement> {
    seq(|xs|, i requires 0 <= i < |xs| => Evaluate(f, xs[i]))
  }

  /** The distances of all points from one. */
  function Distances(xs: seq<FieldElement>, r: FieldElement): seq<FieldElement> {
    seq(|xs|, i requires 0 <= i < |xs| => Sub(xs[i], r))
  }

  ghost predicate Distinct(xs: seq<FieldElement>) {
    forall i, j :: 0 <= i < j < |xs| ==> xs[i] != xs[j]
  }

  /** A value with the sign that k points give it. */
  function Signed(k: nat, y: FieldElement): FieldElement {
    if k % 2 == 1 then y else Sub(ZERO, y)
  }

  // ---------------------------------------------------------------------------------------------
  // Derived laws

  lemma MulSub(a: FieldElement, b: FieldElement, c: FieldElement)
    ensures Mul(a, Sub(b, c)) == Sub(Mul(a, b), Mul(a, c))
  {
    hide Mul;
    Distributes(a, Sub(b, c), c);
  }

  lemma AddPairs(a: FieldElement, b: FieldElement, c: FieldElement, d: FieldElement)
    ensures Add(Add(a, b), Add(c, d)) == Add(Add(a, c), Add(b, d))
  {
  }

  lemma Cancel(d: FieldElement, a: FieldElement, b: FieldElement)
    requires d != ZERO && Mul(d, a) == Mul(d, b)
    ensures a == b
  {
    hide Mul, Inv;
    Inverse(d);
    forall x | x == a || x == b ensures Mul(Inv(d), Mul(d, x)) == x {
      MulLaws(Inv(d), d, x);
      MulLaws(d, Inv(d), x);
      MulLaws(x, ONE, x);
    }
  }

  /** A factor divided by a distance is undone by the distance. */
  lemma Undo(a: FieldElement, r: FieldElement, d: FieldElement, v: FieldElement)
    requires d != ZERO
    ensures Mul(Mul(a, Mul(r, Inv(d))), Mul(v, d)) == Mul(r, Mul(a, v))
  {
    hide Mul, Inv;
    var e := Inv(d);
    calc {
      Mul(Mul(a, Mul(r, e)), Mul(v, d));
      { MulLaws(a, r, e); MulLaws(a, r, a); MulLaws(r, a, e); }
      Mul(Mul(r, Mul(a, e)), Mul(v, d));
      { MulLaws(r, Mul(a, e), Mul(v, d)); }
      Mul(r, Mul(Mul(a, e), Mul(v, d)));
      { MulLaws(a, e, Mul(v, d)); MulLaws(v, d, v); MulLaws(e, d, v); }
      Mul(r, Mul(a, Mul(Mul(e, d), v)));
      { Inverse(d); MulLaws(d, e, d); MulLaws(v, ONE, v); MulLaws(ONE, v, v); }
      Mul(r, Mul(a, v));
    }
  }

  // ---------------------------------------------------------------------------------------------
  // Sums and products

  lemma {:induction false} SumScaled(c: FieldElement, t: seq<FieldElement>)
    ensures Sum(Scaled(c, t)) == Mul(c, Sum(t))
  {
    hide Mul, Add;
    if t == [] {
      MulLaws(c, c, c);
    } else {
      var n := |t| - 1;
      assert Scaled(c, t)[..n] == Scaled(c, t[..n]);
      SumScaled(c, t[..n]);
      Distributes(c, Sum(t[..n]), t[n]);
    }
  }

  lemma {:induction false} SumPlus(t: seq<FieldElement>, u: seq<FieldElement>)
    requires |t| == |u|
    ensures Sum(Plus(t, u)) == Add(Sum(t), Sum(u))
  {
    if t != [] {
      var n := |t| - 1;
      assert Plus(t, u)[..n] == Plus(t[..n], u[..n]);
      SumPlus(t[..n], u[..n]);
      AddPairs(Sum(t[..n]), Sum(u[..n]), t[n], u[n]);
      hide Add;
    }
  }

  lemma {:induction false} SumFirst(a: FieldElement, t: seq<FieldElement>)
    ensures Sum([a] + t) == Add(a, Sum(t))
  {
    if t == [] {
      assert [a] + t == [a];
      assert [a][..0] == [];
    } else {
      var n := |t| - 1;
      assert ([a] + t)[..n + 1] == [a] + t[..n];
      SumFirst(a, t[..n]);
    }
  }

  lemma {:induction false} ProductFirst(x: FieldElement, y: FieldElement, ys: seq<FieldElement>)
    ensures Product(x, [y] + ys, [y] + ys) == Mul(Product(x, ys, ys), Mul(y, Inv(Sub(x, y))))
  {
    hide Mul, Inv, Sub;
    var e := Mul(y, Inv(Sub(x, y)));
    var all := [y] + ys;
    if ys == [] {
      assert all[..0] == [] && all[0] == y;
    } else {
      var n := |ys| - 1;
      var g := Mul(ys[n], Inv(Sub(x, ys[n])));
      var p := Product(x, ys[..n], ys[..n]);
      assert all[..n + 1] == [y] + ys[..n] && all[n + 1] == ys[n];
      ProductFirst(x, y, ys[..n]);
      assert Product(x, all, all) == Mul(Mul(p, e), g);
      MulLaws(p, e, g);
      MulLaws(e, g, e);
      MulLaws(p, g, e);
    }
  }

  // ---------------------------------------------------------------------------------------------
  // Polynomials

  /** Evaluation by Horner's rule. */
  lemma {:induction false} Horner(c: FieldElement, f: Polynomial, x: FieldElement)
    ensures Evaluate([c] + f, x) == Add(c, Mul(Evaluate(f, x), x))
  {
    hide Mul;
    var all := [c] + f;
    if f == [] {
      assert all[..0] == [] && all[0] == c;
      MulLaws(c, c, c);
      MulLaws(x, ZERO, x);
    } else {
      var n := |f| - 1;
      assert all[..n + 1] == [c] + f[..n] && all[n + 1] == f[n];
      Horner(c, f[..n], x);
      var low, top := Evaluate(f[..n], x), Mul(f[n], Power(x, n));
      MulLaws(f[n], Power(x, n), x);
      assert Mul(f[n], Power(x, n + 1)) == Mul(top, x);
      assert Evaluate(all, x) == Add(Add(c, Mul(low, x)), Mul(top, x));
      MulLaws(x, low, x);
      MulLaws(x, top, x);
      MulLaws(x, Add(low, top), x);
      Distributes(x, low, top);
    }
  }

  /** The quotient of a polynomial and (X - r). */
  function Quotient(f: Polynomial, r: FieldElement): (q: Polynomial)
    ensures |q| == if f == [] then 0 else |f| - 1
  {
    if |f| <= 1 then [] else [Evaluate(f[1..], r)] + Quotient(f[1..], r)
  }

  /** Division with remainder. */
  lemma {:induction false} Division(f: Polynomial, r: FieldElement, x: FieldElement)
    ensures Evaluate(f, x) == Add(Evaluate(f, r), Mul(Evaluate(Quotient(f, r), x), Sub(x, r)))
  {
    if f == [] {
      MulLaws(Sub(x, r), Sub(x, r), ZERO);
      MulLaws(ZERO, Sub(x, r), ZERO);
    } else {
      var g := f[1..];
      assert f == [f[0]] + g;
      Horner(f[0], g, x);
      Horner(f[0], g, r);
      if g == [] {
        MulLaws(x, ZERO, x);
        MulLaws(r, ZERO, x);
        MulLaws(Sub(x, r), ZERO, x);
      } else {
        Division(g, r, x);
        Horner(Evaluate(g, r), Quotient(g, r), x);
        DivisionStep(Evaluate(g, x), Evaluate(g, r), Evaluate(Quotient(g, r), x), x, r);
      }
    }
  }

  /** If u is v + q (x - r), then u x is v r + (v + q x) (x - r). */
  lemma DivisionStep(u: FieldElement, v: FieldElement, q: FieldElement, x: FieldElement, r: FieldElement)
    requires u == Add(v, Mul(q, Sub(x, r)))
    ensures Mul(u, x) == Add(Mul(v, r), Mul(Add(v, Mul(q, x)), Sub(x, r)))
  {
    hide Mul;
    var d := Sub(x, r);
    assert Mul(u, x) == Add(Mul(v, x), Mul(Mul(q, d), x)) by {
      Distributes(x, v, Mul(q, d));
      MulLaws(x, u, x);
      MulLaws(x, v, x);
      MulLaws(x, Mul(q, d), x);
    }
    assert Mul(Add(v, Mul(q, x)), d) == Add(Mul(v, d), Mul(Mul(q, x), d)) by {
      Distributes(d, v, Mul(q, x));
      MulLaws(d, Add(v, Mul(q, x)), d);
      MulLaws(d, v, d);
      MulLaws(d, Mul(q, x), d);
    }
    assert Mul(Mul(q, d), x) == Mul(Mul(q, x), d) by {
      MulLaws(q, d, x);
      MulLaws(d, x, d);
      MulLaws(q, x, d);
    }
    MulSub(v, x, r);
  }

  // ---------------------------------------------------------------------------------------------
  // Interpolation

  /** Distances from the last point take that point out of the sum. */
  lemma DropLast(xs: seq<FieldElement>, v: seq<FieldElement>)
    requires xs != [] && |v| == |xs| && Distinct(xs)
    ensures var n := |xs| - 1;
            Sum(Times(Coefficients(xs), Times(v, Distances(xs, xs[n]))))
            == Mul(xs[n], Sum(Times(Coefficients(xs[..n]), v[..n])))
  {
    hide Mul, Inv, Add, Sub, Product;
    var n := |xs| - 1;
    var r, rest, all := xs[n], xs[..n], Times(Coefficients(xs), Times(v, Distances(xs, xs[n])));
    forall i | 0 <= i < n ensures all[i] == Scaled(r, Times(Coefficients(rest), v[..n]))[i] {
      CoefficientDropLast(xs, i);
      DistinctDistance(xs[i], r);
      Undo(Coefficient(rest, i), r, Sub(xs[i], r), v[i]);
    }
    assert all[n] == ZERO by {
      AddLaws(r, r, r);
      MulLaws(v[n], ZERO, ZERO);
      MulLaws(Coefficient(xs, n), ZERO, ZERO);
    }
    assert all[..n] == Scaled(r, Times(Coefficients(rest), v[..n]));
    SumScaled(r, Times(Coefficients(rest), v[..n]));
    AddLaws(Sum(all[..n]), ZERO, ZERO);
  }

  lemma CoefficientDropLast(xs: seq<FieldElement>, i: nat)
    requires i < |xs| - 1
    ensures var n := |xs| - 1;
            Coefficient(xs, i) == Mul(Coefficient(xs[..n], i), Mul(xs[n], Inv(Sub(xs[i], xs[n]))))
  {
    hide Mul, Inv, Sub;
    var n := |xs| - 1;
    var others := Others(xs, i);
    assert others[..n - 1] == Others(xs[..n], i) && others[n - 1] == xs[n];
  }

  lemma CoefficientDropFirst(xs: seq<FieldElement>, i: nat)
    requires 0 < i < |xs|
    ensures Coefficient(xs, i) == Mul(Coefficient(xs[1..], i - 1), Mul(xs[0], Inv(Sub(xs[i], xs[0]))))
  {
    hide Mul, Inv, Sub, Product;
    assert Others(xs, i) == [xs[0]] + Others(xs[1..], i - 1);
    ProductFirst(xs[i], xs[0], Others(xs[1..], i - 1));
  }

  lemma DistinctDistance(a: FieldElement, b: FieldElement)
    requires a != b
    ensures Sub(a, b) != ZERO
  {
  }

  /** Distances from the first point take that point out of the sum. */
  lemma DropFirst(xs: seq<FieldElement>)
    requires xs != [] && Distinct(xs)
    ensures Sum(Times(Coefficients(xs), Distances(xs, xs[0]))) == Mul(xs[0], Sum(Coefficients(xs[1..])))
  {
    hide Mul, Inv, Add, Sub, Product;
    var n := |xs| - 1;
    var s, rest, all := xs[0], xs[1..], Times(Coefficients(xs), Distances(xs, xs[0]));
    forall i | 0 < i <= n ensures all[i] == Scaled(s, Coefficients(rest))[i - 1] {
      CoefficientDropFirst(xs, i);
      DistinctDistance(xs[i], s);
      UndoOnce(Coefficient(rest, i - 1), s, Sub(xs[i], s));
    }
    assert all[0] == ZERO by {
      AddLaws(s, s, s);
      MulLaws(Coefficient(xs, 0), ZERO, ZERO);
    }
    assert all == [ZERO] + Scaled(s, Coefficients(rest));
    SumFirst(ZERO, Scaled(s, Coefficients(rest)));
    SumScaled(s, Coefficients(rest));
    AddLaws(ZERO, Sum(all[1..]), ZERO);
    AddLaws(Mul(s, Sum(Coefficients(rest))), ZERO, ZERO);
  }

  lemma UndoOnce(a: FieldElement, r: FieldElement, d: FieldElement)
    requires d != ZERO
    ensures Mul(Mul(a, Mul(r, Inv(d))), d) == Mul(r, a)
  {
    hide Mul, Inv;
    Undo(a, r, d, ONE);
    MulLaws(d, ONE, d);
    MulLaws(a, ONE, a);
  }

  lemma DropLastOnce(xs: seq<FieldElement>)
    requires xs != [] && Distinct(xs)
    ensures var n := |xs| - 1;
            Sum(Times(Coefficients(xs), Distances(xs, xs[n]))) == Mul(xs[n], Sum(Coefficients(xs[..n])))
  {
    hide Mul, Inv, Add, Sub, Product, Coefficient;
    var n := |xs| - 1;
    var ones := seq(|xs|, i => ONE);
    DropLast(xs, ones);
    TimesOnes(Distances(xs, xs[n]));
    TimesOnes(Coefficients(xs[..n]));
    assert ones[..n] == seq(n, i => ONE);
  }

  lemma TimesOnes(t: seq<FieldElement>)
    ensures var ones := seq(|t|, i => ONE); Times(t, ones) == t && Times(ones, t) == t
  {
    hide Mul;
    forall i | 0 <= i < |t| ensures Mul(t[i], ONE) == t[i] == Mul(ONE, t[i]) {
      MulLaws(t[i], ONE, ONE);
      MulLaws(ONE, t[i], ONE);
    }
    var ones := seq(|t|, i => ONE);
    assert Times(t, ones) == t;
    assert Times(ones, t) == t;
  }

  /** The coefficients of k points add up to one, with the sign for k points. */
  lemma {:induction false} SumOfCoefficients(xs: seq<FieldElement>)
    requires xs != [] && Distinct(xs)
    ensures Sum(Coefficients(xs)) == Signed(|xs|, ONE)
    decreases |xs|
  {
    hide Mul, Inv, Add, Sub;
    var n := |xs| - 1;
    var r, s := xs[n], xs[0];
    if n == 0 {
      assert Coefficients(xs) == [ONE];
      AddLaws(ONE, ZERO, ZERO);
      AddLaws(ZERO, ONE, ZERO);
    } else {
      DropLastOnce(xs);
      DropFirst(xs);
      SumOfCoefficients(xs[..n]);
      SumOfCoefficients(xs[1..]);
      DistanceDifference(xs, r, s);
      DistinctDistance(s, r);
      SumFromTwo(r, s, Signed(n, ONE), Sum(Coefficients(xs)));
      SignedNext(n, ONE);
    }
  }

  lemma SignedNext(n: nat, y: FieldElement)
    ensures Signed(n + 1, y) == Sub(ZERO, Signed(n, y))
  {
  }

  lemma SumFromTwo(r: FieldElement, s: FieldElement, c: FieldElement, total: FieldElement)
    requires Sub(s, r) != ZERO
    requires Mul(r, c) == Add(Mul(s, c), Mul(Sub(s, r), total))
    ensures total == Sub(ZERO, c)
  {
    hide Mul;
    var d := Sub(s, r);
    MulSub(d, ZERO, c);
    MulLaws(d, ZERO, d);
    MulLaws(c, d, c);
    MulSub(c, s, r);
    MulLaws(c, s, c);
    MulLaws(c, r, c);
    assert Mul(d, Sub(ZERO, c)) == Mul(d, total);
    Cancel(d, total, Sub(ZERO, c));
  }

  /** Distances from two points differ by the distance of the two. */
  lemma DistanceDifference(xs: seq<FieldElement>, r: FieldElement, s: FieldElement)
    ensures Sum(Times(Coefficients(xs), Distances(xs, r)))
            == Add(Sum(Times(Coefficients(xs), Distances(xs, s))), Mul(Sub(s, r), Sum(Coefficients(xs))))
  {
    hide Mul, Add, Sub, Coefficient, Sum;
    var cs, d := Coefficients(xs), Sub(s, r);
    var t, u := Times(cs, Distances(xs, s)), Scaled(d, cs);
    forall i | 0 <= i < |xs| ensures Mul(cs[i], Sub(xs[i], r)) == Add(t[i], u[i]) {
      Between(xs[i], s, r);
      Distributes(cs[i], Sub(xs[i], s), d);
      MulLaws(cs[i], d, d);
    }
    assert Times(cs, Distances(xs, r)) == Plus(t, u);
    SumPlus(t, u);
    SumScaled(d, cs);
  }

  lemma Between(x: FieldElement, s: FieldElement, r: FieldElement)
    ensures Sub(x, r) == Add(Sub(x, s), Sub(s, r))
  {
  }

  /** The remainder and the quotient contribute to the sum separately. */
  lemma SplitShares(f: Polynomial, xs: seq<FieldElement>, r: FieldElement)
    ensures Sum(Times(Coefficients(xs), Shares(f, xs)))
            == Add(Mul(Evaluate(f, r), Sum(Coefficients(xs))),
                   Sum(Times(Coefficients(xs), Times(Shares(Quotient(f, r), xs), Distances(xs, r)))))
  {
    hide Mul, Add, Sub, Coefficient, Sum, Evaluate, Quotient;
    var cs, q := Coefficients(xs), Quotient(f, r);
    var t, u := Scaled(Evaluate(f, r), cs), Times(cs, Times(Shares(q, xs), Distances(xs, r)));
    forall i | 0 <= i < |xs| ensures Mul(cs[i], Evaluate(f, xs[i])) == Add(t[i], u[i]) {
      Division(f, r, xs[i]);
      Distributes(cs[i], Evaluate(f, r), Mul(Evaluate(q, xs[i]), Sub(xs[i], r)));
      MulLaws(cs[i], Evaluate(f, r), ZERO);
    }
    assert Times(cs, Shares(f, xs)) == Plus(t, u);
    SumPlus(t, u);
    SumScaled(Evaluate(f, r), cs);
  }

  lemma NoPoints()
    ensures Sum(Times(Coefficients([]), Shares([], []))) == ZERO == Signed(0, Evaluate([], ZERO))
  {
  }

  lemma InterpolationStep(n: nat, r: FieldElement, fr: FieldElement, q0: FieldElement, f0: FieldElement,
                          rest: FieldElement)
    requires f0 == Add(fr, Mul(q0, Sub(ZERO, r))) && rest == Signed(n, q0)
    ensures Add(Mul(fr, Signed(n + 1, ONE)), Mul(r, rest)) == Signed(n + 1, f0)
  {
    hide Mul;
    MulLaws(fr, ONE, ONE);
    MulSub(fr, ZERO, ONE);
    MulSub(q0, ZERO, r);
    MulLaws(q0, r, r);
    MulSub(r, ZERO, q0);
    MulLaws(r, ZERO, r);
  }

  /**
   * Interpolation: the coefficients of k distinct points recover from the shares of a polynomial
   * with at most k coefficients its value at zero, up to the sign for k points.
   */
  lemma {:induction false} Interpolation(f: Polynomial, xs: seq<FieldElement>)
    requires xs != [] && Distinct(xs) && |f| <= |xs|
    ensures Sum(Times(Coefficients(xs), Shares(f, xs))) == Signed(|xs|, Evaluate(f, ZERO))
    decreases |xs|
  {
    hide Mul, Inv, Add, Sub, Product, Sum, Evaluate, Coefficient;
    var n := |xs| - 1;
    var r, q := xs[n], Quotient(f, xs[n]);
    SplitShares(f, xs, r);
    SumOfCoefficients(xs);
    DropLast(xs, Shares(q, xs));
    assert Shares(q, xs)[..n] == Shares(q, xs[..n]);
    Division(f, r, ZERO);
    var rest := Sum(Times(Coefficients(xs[..n]), Shares(q, xs[..n])));
    if n == 0 {
      NoPoints();
    } else {
      Interpolation(q, xs[..n]);
    }
    InterpolationStep(n, r, Evaluate(f, r), Evaluate(q, ZERO), Evaluate(f, ZERO), rest);
  }

  /** The sum is the value at zero itself exactly for an odd number of points, unless the sign does not matter. */
  lemma RecoversExactlyWhenOdd(f: Polynomial, xs: seq<FieldElement>)
    requires xs != [] && Distinct(xs) && |f| <= |xs|
    ensures Sum(Times(Coefficients(xs), Shares(f, xs))) == Evaluate(f, ZERO)
            <==> |xs| % 2 == 1 || Evaluate(f, ZERO) == ZERO || P == 2
  {
    hide Sum, Times, Coefficients, Shares, Evaluate;
    Interpolation(f, xs);
    var y := Evaluate(f, ZERO);
    if Sub(ZERO, y) == y && y != ZERO {
      var half: nat := y;
      assert P == 2 * half;
      assert P % half == 0 by { RemainderOfDouble(half); }
      assert IsPrime(P);
    }
  }

  lemma RemainderOfDouble(y: nat)
    requires y > 0
    ensures (2 * y) % y == 0
  {
  }

  // ---------------------------------------------------------------------------------------------
  // The form that divides by distances of positions

  function Positions(n: nat): seq<FieldElement> {
    seq(n, i requires 0 <= i < n => FromNat(i))
  }

  /** The coefficient that takes the distance of two parties to be that of their positions in the list. */
  function PositionCoefficient(xs: seq<FieldElement>, i: nat): FieldElement
    requires i < |xs|
  {
    Product(FromNat(i), Others(Positions(|xs|), i), Others(xs, i))
  }

  function PositionCoefficients(xs: seq<FieldElement>): seq<FieldElement> {
    seq(|xs|, i requires 0 <= i < |xs| => PositionCoefficient(xs, i))
  }

  ghost predicate Consecutive(xs: seq<FieldElement>) {
    forall i :: 0 <= i < |xs| ==> xs[i] == Add(xs[0], FromNat(i))
  }

  lemma {:induction false} SameDistances(x: FieldElement, ids: seq<FieldElement>, x': FieldElement,
                                         ids': seq<FieldElement>, values: seq<FieldElement>)
    requires |ids| == |ids'| == |values|
    requires forall j :: 0 <= j < |ids| ==> Sub(x, ids[j]) == Sub(x', ids'[j])
    ensures Product(x, ids, values) == Product(x', ids', values)
    decreases |ids|
  {
    hide Mul, Inv, Sub;
    if ids != [] {
      var n := |ids| - 1;
      SameDistances(x, ids[..n], x', ids'[..n], values[..n]);
    }
  }

  /** For parties with consecutive ids both forms agree. */
  lemma PositionsEqualDirect(xs: seq<FieldElement>)
    requires Consecutive(xs)
    ensures PositionCoefficients(xs) == Coefficients(xs)
  {
    hide Product, FromNat;
    forall i | 0 <= i < |xs| ensures PositionCoefficient(xs, i) == Coefficient(xs, i) {
      var ids, ids' := Others(Positions(|xs|), i), Others(xs, i);
      forall j | 0 <= j < |ids| ensures Sub(FromNat(i), ids[j]) == Sub(xs[i], ids'[j]) {
        var k := if j < i then j else j + 1;
        assert ids[j] == FromNat(k) && ids'[j] == xs[k];
        SameShift(xs[0], FromNat(i), FromNat(k));
      }
      SameDistances(FromNat(i), ids, xs[i], ids', ids');
    }
  }

  lemma SameShift(x: FieldElement, a: FieldElement, b: FieldElement)
    ensures Sub(Add(x, a), Add(x, b)) == Sub(a, b)
  {
  }

  lemma ConsecutiveIsDistinct(xs: seq<FieldElement>)
    requires Consecutive(xs) && |xs| <= P
    ensures Distinct(xs)
  {
    forall i | 0 <= i < |xs| ensures xs[i] == Add(xs[0], i) {
      RemainderIs(i, 0, i);
    }
  }

  /** The interpolation law for consecutive ids and distances of positions. */
  lemma PositionInterpolation(f: Polynomial, xs: seq<FieldElement>)
    requires xs != [] && Consecutive(xs) && |f| <= |xs| <= P
    ensures Sum(Times(PositionCoefficients(xs), Shares(f, xs))) == Signed(|xs|, Evaluate(f, ZERO))
  {
    hide Product, Sum, Evaluate, Add;
    PositionsEqualDirect(xs);
    ConsecutiveIsDistinct(xs);
    Interpolation(f, xs);
  }

  // ---------------------------------------------------------------------------------------------
  // Exactly when the two forms agree

  /** The product of the distances of a point from others. */
  function Span(x: FieldElement, ids: seq<FieldElement>): FieldElement {
    if ids == [] then ONE else Mul(Span(x, ids[..|ids| - 1]), Sub(x, ids[|ids| - 1]))
  }

  function Total(values: seq<FieldElement>): FieldElement {
    if values == [] then ONE else Mul(Total(values[..|values| - 1]), values[|values| - 1])
  }

  /** Each party's distances from all others have the same product by position as by id. */
  ghost predicate SameSpans(xs: seq<FieldElement>) {
    forall i :: 0 <= i < |xs| ==> Span(FromNat(i), Others(Positions(|xs|), i)) == Span(xs[i], Others(xs, i))
  }

  lemma NoZeroDivisors(a: FieldElement, b: FieldElement)
    requires a != ZERO && b != ZERO
    ensures Mul(a, b) != ZERO
  {
    if Mul(a, b) == ZERO {
      MulLaws(a, ZERO, a);
      Cancel(a, b, ZERO);
      assert false;
    }
  }

  lemma {:induction false} TotalNotZero(values: seq<FieldElement>)
    requires ZERO !in values
    ensures Total(values) != ZERO
  {
    hide Mul;
    if values == [] {
      assert ONE != ZERO;
    } else {
      TotalNotZero(values[..|values| - 1]);
      NoZeroDivisors(Total(values[..|values| - 1]), values[|values| - 1]);
    }
  }

  /** Moving a value and its distance past a product and a span. */
  lemma SpanStep(p: FieldElement, v: FieldElement, d: FieldElement, q: FieldElement)
    requires d != ZERO
    ensures Mul(Mul(p, Mul(v, Inv(d))), Mul(q, d)) == Mul(Mul(p, q), v)
  {
    hide Mul, Inv;
    Undo(p, v, d, q);
    MulLaws(v, Mul(p, q), v);
  }

  /** A coefficient times the span is the product of the other ids. */
  lemma {:induction false} ProductTimesSpan(x: FieldElement, ids: seq<FieldElement>, values: seq<FieldElement>)
    requires |ids| == |values| && x !in ids
    ensures Mul(Product(x, ids, values), Span(x, ids)) == Total(values)
    decreases |ids|
  {
    hide Mul, Inv, Sub;
    if ids == [] {
      MulLaws(ONE, ONE, ONE);
    } else {
      var n := |ids| - 1;
      assert x != ids[n];
      ProductTimesSpan(x, ids[..n], values[..n]);
      DistinctDistance(x, ids[n]);
      SpanStep(Product(x, ids[..n], values[..n]), values[n], Sub(x, ids[n]), Span(x, ids[..n]));
    }
  }

  lemma NotAmongOthers(xs: seq<FieldElement>, i: nat)
    requires Distinct(xs) && i < |xs|
    ensures xs[i] !in Others(xs, i)
  {
  }

  lemma PositionsDistinct(n: nat)
    requires n <= P
    ensures Distinct(Positions(n))
  {
    forall i | 0 <= i < n ensures Positions(n)[i] == i {
      RemainderIs(i, 0, i);
    }
  }

  /** Of two pairs of factors with the same product other than zero, the first agree exactly when the second do. */
  lemma SameProduct(a: FieldElement, s: FieldElement, b: FieldElement, t: FieldElement)
    requires Mul(a, s) == Mul(b, t) && Mul(a, s) != ZERO
    ensures a == b <==> s == t
  {
    hide Mul;
    MulLaws(a, s, a);
    MulLaws(s, a, a);
    MulLaws(b, t, a);
    MulLaws(t, b, a);
    if a == b {
      Cancel(a, s, t);
    } else if s == t {
      Cancel(s, a, b);
    }
  }

  /** For parties with distinct ids other than zero, both forms agree exactly when the spans do. */
  lemma FormsAgreeExactlyWhenSpansDo(xs: seq<FieldElement>)
    requires Distinct(xs) && ZERO !in xs && |xs| <= P
    ensures PositionCoefficients(xs) == Coefficients(xs) <==> SameSpans(xs)
  {
    hide Product, Span, Total, Mul, FromNat;
    PositionsDistinct(|xs|);
    forall i | 0 <= i < |xs|
      ensures PositionCoefficient(xs, i) == Coefficient(xs, i) <==>
              Span(FromNat(i), Others(Positions(|xs|), i)) == Span(xs[i], Others(xs, i))
    {
      var ids, values := Others(Positions(|xs|), i), Others(xs, i);
      NotAmongOthers(xs, i);
      NotAmongOthers(Positions(|xs|), i);
      assert Positions(|xs|)[i] == FromNat(i);
      ProductTimesSpan(FromNat(i), ids, values);
      ProductTimesSpan(xs[i], values, values);
      TotalNotZero(values);
      SameProduct(PositionCoefficient(xs, i), Span(FromNat(i), ids), Coefficient(xs, i), Span(xs[i], values));
    }
    assert PositionCoefficients(xs) == Coefficients(xs) <==>
           forall i :: 0 <= i < |xs| ==> PositionCoefficient(xs, i) == Coefficient(xs, i) by {
      forall i | 0 <= i < |xs| ensures PositionCoefficients(xs)[i] == PositionCoefficient(xs, i)
                                && Coefficients(xs)[i] == Coefficient(xs, i) {
      }
    }
  }

  /** Ids of two parties have to be consecutive for the forms to agree. */
  lemma PairsAgreeExactlyWhenConsecutive(a: FieldElement, b: FieldElement)
    requires a != ZERO && b != ZERO
    ensures PositionCoefficients([a, b]) == Coefficients([a, b]) <==> b == Add(a, ONE)
  {
    var xs := [a, b];
    assert FromNat(0) == ZERO && FromNat(1) == ONE by {
      RemainderIs(0, 0, 0);
      RemainderIs(1, 0, 1);
    }
    if b == Add(a, ONE) {
      assert Consecutive(xs);
      PositionsEqualDirect(xs);
    }
    if PositionCoefficients(xs) == Coefficients(xs) {
      assert PositionCoefficients(xs)[0] == Coefficients(xs)[0];
      hide Mul, Inv, Sub, Add;
      assert Others(xs, 0) == [b] && Others(Positions(2), 0) == [ONE];
      OneFactor(a, b, b);
      OneFactor(ZERO, ONE, b);
      Cancel(b, Inv(Sub(a, b)), Inv(Sub(ZERO, ONE)));
      InverseIsInjective(Sub(a, b), Sub(ZERO, ONE));
      OneApart(a, b);
    }
  }

  lemma OneApart(a: FieldElement, b: FieldElement)
    requires Sub(a, b) == Sub(ZERO, ONE)
    ensures b == Add(a, ONE)
  {
  }

  lemma OneFactor(x: FieldElement, id: FieldElement, value: FieldElement)
    ensures Product(x, [id], [value]) == Mul(value, Inv(Sub(x, id)))
  {
    hide Mul, Inv, Sub;
    var f := Mul(value, Inv(Sub(x, id)));
    assert [id][..0] == [] && [value][..0] == [];
    MulLaws(f, ONE, f);
  }

  lemma InverseIsInjective(a: FieldElement, b: FieldElement)
    requires Inv(a) == Inv(b)
    ensures a == b
  {
    forall x | (x == a || x == b) && x != ZERO ensures Mul(Inv(x), x) == ONE && Inv(x) != ZERO {
      Inverse(x);
      MulLaws(x, Inv(x), x);
    }
    if a != ZERO && b != ZERO {
      InverseIsUnique(Inv(a), a);
      InverseIsUnique(Inv(a), b);
    }
  }
}
