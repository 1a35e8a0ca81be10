/** Fee/size pairs and their orderings.

    A `FeeFrac` is compared by cross-multiplication.  `Higher` and `Lower` compare the
    feerate alone; `Better` additionally prefers the smaller size among equal feerates. */
module FeeFracs {

  datatype FeeFrac = FeeFrac(fee: int, size: int) {
    predicate IsEmpty() { size == 0 }

    /** A size of zero is allowed only together with a fee of zero. */
    predicate Valid() { size > 0 || (size == 0 && fee == 0) }

    function Add(o: FeeFrac): FeeFrac { FeeFrac(fee + o.fee, size + o.size) }

    function Sub(o: FeeFrac): FeeFrac { FeeFrac(fee - o.fee, size - o.size) }

    function Negate(): FeeFrac { FeeFrac(-fee, size) }
  }

  const EMPTY := FeeFrac(0, 0)

  /** By how much `a` exceeds what `a.size` would pay at the feerate of `rate`
      (scaled by the size of `rate`). */
  function Excess(rate: FeeFrac, a: FeeFrac): int {
    a.fee * rate.size - rate.fee * a.size
  }

  /** Operator `>>`: strictly higher feerate. */
  predicate Higher(a: FeeFrac, b: FeeFrac) { a.fee * b.size > b.fee * a.size }

  /** Operator `<<`: strictly lower feerate. */
  predicate Lower(a: FeeFrac, b: FeeFrac) { a.fee * b.size < b.fee * a.size }

  /** Operator `>`: higher feerate, or the same feerate at a smaller size. */
  predicate Better(a: FeeFrac, b: FeeFrac) {
    var crossA, crossB := a.fee * b.size, b.fee * a.size;
    if crossA == crossB then a.size < b.size else crossA > crossB
  }

  /** Operator `>=`. */
  predicate AtLeast(a: FeeFrac, b: FeeFrac) { !Better(b, a) }

  lemma {:induction false} AddLaws(a: FeeFrac, b: FeeFrac, c: FeeFrac)
    ensures a.Add(b).Add(c) == a.Add(b.Add(c)) && a.Add(b) == b.Add(a)
    ensures EMPTY.Add(a) == a.Add(EMPTY) == a
  {
  }

  lemma {:induction false} ExcessAdd(rate: FeeFrac, a: FeeFrac, b: FeeFrac)
    ensures Excess(rate, a.Add(b)) == Excess(rate, a) + Excess(rate, b)
  {
    assert (a.fee + b.fee) * rate.size == a.fee * rate.size + b.fee * rate.size;
    assert rate.fee * (a.size + b.size) == rate.fee * a.size + rate.fee * b.size;
  }

  lemma {:induction false} ExcessSelf(rate: FeeFrac)
    ensures Excess(rate, rate) == 0
  {
  }

  /** The order by feerate is transitive through a rate of positive size; the conclusion is strict
      as soon as one of the two comparisons is. */
  lemma {:induction false} ExcessTrans(low: FeeFrac, mid: FeeFrac, a: FeeFrac)
    requires low.size > 0 && mid.size > 0 && a.Valid()
    requires Excess(mid, a) >= 0 && Excess(low, mid) >= 0
    ensures Excess(low, a) >= 0
    ensures Excess(mid, a) > 0 ==> Excess(low, a) > 0
    ensures Excess(low, mid) > 0 && a.size > 0 ==> Excess(low, a) > 0
  {
    var e1, e2 := Excess(mid, a), Excess(low, mid);
    ScaleIdentity(low, mid, a);
    assert e1 * low.size >= 0 && e2 * a.size >= 0 by { ProductSign(e1, low.size); ProductSign(e2, a.size); }
    if e1 > 0 { ProductSign(e1, low.size); }
    if e2 > 0 && a.size > 0 { ProductSign(e2, a.size); }
    QuotientSign(Excess(low, a), mid.size);
  }

  lemma {:induction false} ScaleIdentity(low: FeeFrac, mid: FeeFrac, a: FeeFrac)
    ensures Excess(low, a) * mid.size == Excess(mid, a) * low.size + Excess(low, mid) * a.size
  {
    calc {
      Excess(mid, a) * low.size + Excess(low, mid) * a.size;
      (a.fee * mid.size - mid.fee * a.size) * low.size + (mid.fee * low.size - low.fee * mid.size) * a.size;
      a.fee * mid.size * low.size - mid.fee * a.size * low.size
        + mid.fee * low.size * a.size - low.fee * mid.size * a.size;
      (a.fee * low.size - low.fee * a.size) * mid.size;
    }
  }

  lemma {:induction false} ProductSign(x: int, y: int)
    requires x >= 0 && y >= 0
    ensures x * y >= 0
    ensures x > 0 && y > 0 ==> x * y > 0
  {
  }

  lemma {:induction false} QuotientSign(x: int, y: int)
    requires y > 0
    ensures x * y >= 0 ==> x >= 0
    ensures x * y > 0 ==> x > 0
  {
    if x < 0 { assert x * y < 0; }
  }

  /** Dual form of `ExcessTrans`: going down from `a` through `mid` to `low`. */
  lemma {:induction false} ExcessTransDown(high: FeeFrac, mid: FeeFrac, a: FeeFrac)
    requires high.size > 0 && mid.size > 0 && a.Valid()
    requires Excess(mid, a) <= 0 && Excess(high, mid) <= 0
    ensures Excess(high, a) <= 0
    ensures Excess(mid, a) < 0 ==> Excess(high, a) < 0
    ensures Excess(high, mid) < 0 && a.size > 0 ==> Excess(high, a) < 0
  {
    ExcessNegate(mid, a); ExcessNegate(high, mid); ExcessNegate(high, a);
    ExcessTrans(high.Negate(), mid.Negate(), a.Negate());
  }

  lemma {:induction false} ExcessNegate(rate: FeeFrac, a: FeeFrac)
    ensures Excess(rate.Negate(), a.Negate()) == -Excess(rate, a)
  {
    assert (-a.fee) * rate.size == -(a.fee * rate.size);
    assert (-rate.fee) * a.size == -(rate.fee * a.size);
  }

  lemma {:induction false} HigherIsExcess(a: FeeFrac, b: FeeFrac)
    ensures Higher(a, b) <==> Excess(b, a) > 0
    ensures Lower(a, b) <==> Excess(b, a) < 0
    ensures Higher(a, b) <==> Lower(b, a)
    ensures Excess(a, b) == -Excess(b, a)
  {
  }

  /** The combined feerate of two parts lies strictly between their feerates. */
  lemma {:induction false} Mediant(a: FeeFrac, b: FeeFrac)
    requires Higher(b, a)
    ensures Excess(a.Add(b), a) < 0 < Excess(a.Add(b), b)
  {
    ExcessAdd(a, a, b); ExcessAdd(b, a, b); ExcessSelf(a); ExcessSelf(b);
    HigherIsExcess(a.Add(b), a); HigherIsExcess(a.Add(b), b);
    HigherIsExcess(a, b);
  }

  /** `Better` is irreflexive, and transitive on feerates of positive size. */
  lemma {:induction false} BetterOrder(a: FeeFrac, b: FeeFrac, c: FeeFrac)
    ensures !Better(a, a)
    ensures a.size > 0 && b.size > 0 && c.size > 0 && Better(b, c) && (a == b || !Better(a, c)) ==> !Better(a, b)
  {
    if a.size > 0 && b.size > 0 && c.size > 0 && Better(b, c) && a != b && !Better(a, c) {
      HigherIsExcess(b, c); HigherIsExcess(a, c); HigherIsExcess(a, b);
      assert Excess(c, b) >= 0 && Excess(c, a) <= 0;
      ExcessTransDown(b, c, a);
      if Excess(b, a) == 0 {
        assert Excess(c, b) == 0 && Excess(c, a) == 0;
      }
    }
  }

  /** Of two parts, one has at least the feerate of the whole. */
  lemma {:induction false} GoodPart(a: FeeFrac, b: FeeFrac)
    requires a.Valid() && b.Valid() && a.Add(b).size > 0
    ensures (a.size > 0 && !Higher(a.Add(b), a)) || (b.size > 0 && !Higher(a.Add(b), b))
  {
    var m := a.Add(b);
    ExcessAdd(m, a, b); ExcessSelf(m);
    HigherIsExcess(m, a); HigherIsExcess(m, b);
    if a.size == 0 { AddLaws(b, EMPTY, EMPTY); }
  }

  /** `>>` composed with "not lower". */
  lemma {:induction false} HigherTrans(a: FeeFrac, b: FeeFrac, c: FeeFrac)
    requires a.size > 0 && b.size > 0 && c.size > 0
    ensures !Higher(b, a) && Higher(b, c) ==> Higher(a, c)
    ensures Higher(a, b) && !Higher(c, b) ==> Higher(a, c)
    ensures !Higher(a, b) && !Higher(b, c) ==> !Higher(a, c)
  {
    HigherIsExcess(a, b); HigherIsExcess(b, c); HigherIsExcess(a, c);
    if !Higher(b, a) && Higher(b, c) { ExcessTrans(c, b, a); }
    if Higher(a, b) && !Higher(c, b) { ExcessTrans(c, b, a); }
    if !Higher(a, b) && !Higher(b, c) { ExcessTransDown(c, b, a); }
  }

  lemma {:induction false} BetterIsNotLower(a: FeeFrac, b: FeeFrac)
    ensures Better(a, b) ==> !Higher(b, a)
    ensures !Better(a, b) ==> !Higher(a, b)
    ensures Better(a, b) ==> !Better(b, a)
  {
  }

  lemma {:induction false} AtLeastTrans(a: FeeFrac, b: FeeFrac, c: FeeFrac)
    requires a.size > 0 && b.size > 0 && c.size > 0 && AtLeast(a, b) && AtLeast(b, c)
    ensures AtLeast(a, c)
  {
    HigherIsExcess(a, b); HigherIsExcess(b, c); HigherIsExcess(a, c);
    assert Excess(b, a) >= 0 && Excess(c, b) >= 0;
    ExcessTrans(c, b, a);
    if Excess(c, a) == 0 {
      assert Excess(b, a) == 0 && Excess(c, b) == 0;
    }
  }
}
