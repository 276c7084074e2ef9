/** The program's computation of Lagrange coefficients, with and without tables of inverses. */
module LagrangeTables {
  import opened PrimeField
  import opened Lagrange

  /** The table of inverses for the distances up to n - 1, upwards or downwards. */
  function Inverses(n: nat, upwards: bool): seq<FieldElement> {
    [ZERO] + seq(if n == 0 then 0 else n - 1, d requires d >= 0 => InverseOf(d + 1, upwards))
  }

  function InverseOf(d: nat, upwards: bool): FieldElement {
    Inv(if upwards then FromNat(d) else Sub(ZERO, FromNat(d)))
  }

  /** The points among the first j that are not the i-th. */
  function Seen(xs: seq<FieldElement>, i: nat, j: nat): (r: seq<FieldElement>)
    requires i < |xs| && j <= |xs|
    ensures |r| == if i < j then j - 1 else j
  {
    if i < j then Others(xs[..j], i) else xs[..j]
  }

  lemma SeenNext(xs: seq<FieldElement>, i: nat, j: nat)
    requires i < |xs| && j < |xs|
    ensures Seen(xs, i, j + 1) == if i == j then Seen(xs, i, j) else Seen(xs, i, j) + [xs[j]]
  {
    assert xs[..j + 1] == xs[..j] + [xs[j]];
    if i < j {
      assert xs[..j + 1][i + 1..] == xs[..j][i + 1..] + [xs[j]];
    }
  }

  lemma ProductNext(x: FieldElement, ids: seq<FieldElement>, values: seq<FieldElement>, id: FieldElement, value: FieldElement)
    requires |ids| == |values|
    ensures Product(x, ids + [id], values + [value])
            == Mul(Product(x, ids, values), Mul(value, Inv(Sub(x, id))))
  {
    hide Mul, Inv, Sub;
    assert (ids + [id])[..|ids|] == ids && (values + [value])[..|ids|] == values;
  }

  lemma PositionDistance(i: nat, j: nat)
    ensures Sub(FromNat(i), FromNat(j)) == if i >= j then FromNat(i - j) else Sub(ZERO, FromNat(j - i))
  {
    if i >= j {
      ReduceSummands(j, i - j);
    } else {
      ReduceSummands(i, j - i);
    }
  }

  class LagrangeCoefficients {
    var positivePrecomputedInverse: seq<FieldElement>
    var negativePrecomputedInverse: seq<FieldElement>
    var optimized: bool

    constructor ()
      ensures positivePrecomputedInverse == [] && negativePrecomputedInverse == [] && !optimized
    {
      positivePrecomputedInverse := [];
      negativePrecomputedInverse := [];
      optimized := false;
    }

    /** The tables have entries for all distances in a list of n parties. */
    ghost predicate Covers(n: nat)
      reads this
    {
      n <= 1 || (n <= |positivePrecomputedInverse| && n <= |negativePrecomputedInverse|)
    }

    /** The tables hold the inverses of all distances in a list of n parties. */
    ghost predicate Tabled(n: nat)
      reads this
    {
      Covers(n) && forall d :: 1 <= d < n ==>
        && positivePrecomputedInverse[d] == InverseOf(d, true)
        && negativePrecomputedInverse[d] == InverseOf(d, false)
    }

    method CalculateLagrangeCoefficients(partySet: seq<FieldElement>) returns (r: seq<FieldElement>)
      requires optimized ==> Covers(|partySet|)
      ensures !optimized ==> r == Coefficients(partySet)
      ensures optimized && Tabled(|partySet|) ==> r == PositionCoefficients(partySet)
      ensures optimized && Tabled(|partySet|) && Consecutive(partySet) ==> r == Coefficients(partySet)
    {
      if optimized {
        r := Optimized(partySet);
        if Consecutive(partySet) {
          PositionsEqualDirect(partySet);
        }
      } else {
        r := Unoptimized(partySet);
      }
    }

    method Unoptimized(partySet: seq<FieldElement>) returns (r: seq<FieldElement>)
      ensures r == Coefficients(partySet)
    {
      hide Mul, Sub, Inv, Product, Seen;
      r := [];
      for i := 0 to |partySet|
        invariant |r| == i && forall k :: 0 <= k < i ==> r[k] == Coefficient(partySet, k)
      {
        var coefficient := ONE;
        StartOfProduct(partySet, i);
        for j := 0 to |partySet|
          invariant coefficient == Product(partySet[i], Seen(partySet, i, j), Seen(partySet, i, j))
        {
          SeenNext(partySet, i, j);
          if j == i {
            continue;
          }
          var factor := Mul(partySet[j], Inv(Sub(partySet[i], partySet[j])));
          ProductNext(partySet[i], Seen(partySet, i, j), Seen(partySet, i, j), partySet[j], partySet[j]);
          coefficient := Mul(coefficient, factor);
        }
        EndOfProduct(partySet, i);
        r := r + [coefficient];
      }
    }

    method Optimized(partySet: seq<FieldElement>) returns (r: seq<FieldElement>)
      requires Covers(|partySet|)
      ensures |r| == |partySet|
      ensures Tabled(|partySet|) ==> r == PositionCoefficients(partySet)
    {
      hide Mul, Sub, Inv, Product, Seen, FromNat;
      var n := |partySet|;
      ghost var ids := Positions(n);
      r := [];
      for i := 0 to n
        invariant |r| == i
        invariant Tabled(n) ==> forall k :: 0 <= k < i ==> r[k] == PositionCoefficient(partySet, k)
      {
        var coefficient := ONE;
        StartOfProduct(partySet, i);
        StartOfProduct(ids, i);
        for j := 0 to n
          invariant Tabled(n) ==> coefficient == Product(FromNat(i), Seen(ids, i, j), Seen(partySet, i, j))
        {
          SeenNext(partySet, i, j);
          SeenNext(ids, i, j);
          if j == i {
            continue;
          }
          var denominator := i - j;
          var inverse := if denominator < 0 then negativePrecomputedInverse[-denominator]
                         else positivePrecomputedInverse[denominator];
          PositionDistance(i, j);
          ProductNext(FromNat(i), Seen(ids, i, j), Seen(partySet, i, j), ids[j], partySet[j]);
          coefficient := Mul(coefficient, Mul(partySet[j], inverse));
        }
        EndOfProduct(partySet, i);
        EndOfProduct(ids, i);
        r := r + [coefficient];
      }
    }

    method PrecomputeInverse(numberOfParties: nat)
      modifies this
      ensures positivePrecomputedInverse == old(positivePrecomputedInverse) + Inverses(numberOfParties, true)
      ensures negativePrecomputedInverse == old(negativePrecomputedInverse) + Inverses(numberOfParties, false)
      ensures optimized
      ensures old(positivePrecomputedInverse) == [] && old(negativePrecomputedInverse) == [] ==> Tabled(numberOfParties)
    {
      hide Sub, Inv, FromNat;
      negativePrecomputedInverse := negativePrecomputedInverse + [ZERO];
      positivePrecomputedInverse := positivePrecomputedInverse + [ZERO];
      var i := 1;
      while i < numberOfParties
        invariant 1 <= i && (i <= numberOfParties || i == 1)
        invariant positivePrecomputedInverse == old(positivePrecomputedInverse) + Inverses(i, true)
        invariant negativePrecomputedInverse == old(negativePrecomputedInverse) + Inverses(i, false)
      {
        positivePrecomputedInverse := positivePrecomputedInverse + [Inv(FromNat(i))];
        negativePrecomputedInverse := negativePrecomputedInverse + [Inv(Sub(ZERO, FromNat(i)))];
        InversesNext(i, true);
        InversesNext(i, false);
        i := i + 1;
      }
      optimized := true;
    }
  }

  lemma StartOfProduct(xs: seq<FieldElement>, i: nat)
    requires i < |xs|
    ensures Seen(xs, i, 0) == [] && forall x :: Product(x, [], []) == ONE
  {
  }

  lemma EndOfProduct(xs: seq<FieldElement>, i: nat)
    requires i < |xs|
    ensures Seen(xs, i, |xs|) == Others(xs, i)
  {
    assert xs[..|xs|] == xs;
  }

  lemma InversesNext(i: nat, upwards: bool)
    requires i >= 1
    ensures Inverses(i + 1, upwards) == Inverses(i, upwards) + [InverseOf(i, upwards)]
  {
  }
}
