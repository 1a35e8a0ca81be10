/** What the checksum of Bech32 is: the remainder of a polynomial over GF(32) modulo the generator. */
module Bech32Code {
  import opened Bech32
  import opened Options

  // ---------------------------------------------------------------- the field GF(32)

  function Plus(x: Symbol, y: Symbol): Symbol { x ^ y }

  /** Multiply by a, modulo a^5 + a^3 + 1. */
  function TimesA(x: Symbol): Symbol { (x << 1) ^ (if x & 16 != 0 then 9 else 0) }

  /** `x` if the bit `m` of `y` is set. */
  function Part(y: Symbol, m: Symbol, x: Symbol): Symbol { if y & m != 0 then x else 0 }

  function Sum(a: Symbol, b: Symbol, c: Symbol, d: Symbol, e: Symbol): Symbol {
    Plus(Plus(Plus(Plus(a, b), c), d), e)
  }

  /** The product: the bits of `y` stand for 1, a, a^2, a^3 and a^4. */
  function Mul(x: Symbol, y: Symbol): Symbol {
    var x1 := TimesA(x);
    var x2 := TimesA(x1);
    var x3 := TimesA(x2);
    var x4 := TimesA(x3);
    Sum(Part(y, 1, x), Part(y, 2, x1), Part(y, 4, x2), Part(y, 8, x3), Part(y, 16, x4))
  }

  lemma {:induction false} PlusZero(x: Symbol)
    ensures Plus(x, 0) == x && Plus(0, x) == x && Plus(x, x) == 0
  {
  }

  lemma {:induction false} PlusPairs(a: Symbol, b: Symbol, c: Symbol, d: Symbol)
    ensures Plus(Plus(a, b), Plus(c, d)) == Plus(Plus(a, c), Plus(b, d))
  {
  }

  lemma {:induction false} SumPairs(a: Symbol, b: Symbol, c: Symbol, d: Symbol, e: Symbol, a': Symbol, b': Symbol,
                                    c': Symbol, d': Symbol, e': Symbol)
    ensures Sum(Plus(a, a'), Plus(b, b'), Plus(c, c'), Plus(d, d'), Plus(e, e')) ==
      Plus(Sum(a, b, c, d, e), Sum(a', b', c', d', e'))
  {
    hide Plus;
    var s2, t2 := Plus(a, b), Plus(a', b');
    var s3, t3 := Plus(s2, c), Plus(t2, c');
    PlusPairs(a, a', b, b');
    PlusPairs(s2, t2, c, c');
    PlusPairs(s3, t3, d, d');
    PlusPairs(Plus(s3, d), Plus(t3, d'), e, e');
  }

  lemma {:induction false} TimesALinear(x: Symbol, y: Symbol)
    ensures TimesA(Plus(x, y)) == Plus(TimesA(x), TimesA(y))
  {
  }

  lemma {:induction false} PartPlus(a: Symbol, b: Symbol, m: Symbol, x: Symbol)
    requires m == 1 || m == 2 || m == 4 || m == 8 || m == 16
    ensures Part(Plus(a, b), m, x) == Plus(Part(a, m, x), Part(b, m, x))
  {
    BitLinear(a, b, m);
    PlusZero(x);
    PlusZero(0);
  }

  lemma {:induction false} PartTimes(y: Symbol, m: Symbol, x: Symbol)
    ensures TimesA(Part(y, m, x)) == Part(y, m, TimesA(x))
  {
  }

  lemma {:induction false} MulOne(x: Symbol)
    ensures Mul(x, 1) == x && Mul(1, x) == x && Mul(x, 0) == 0 && Mul(0, x) == 0
  {
  }

  lemma {:induction false} MulCommutes(x: Symbol, y: Symbol)
    ensures Mul(x, y) == Mul(y, x)
  {
  }

  lemma {:induction false} MulDistributes(x: Symbol, y: Symbol, z: Symbol)
    ensures Mul(z, Plus(x, y)) == Plus(Mul(z, x), Mul(z, y)) && Mul(Plus(x, y), z) == Plus(Mul(x, z), Mul(y, z))
  {
    DistributesRight(x, y, z);
    hide Mul, Plus;
    MulCommutes(Plus(x, y), z); MulCommutes(x, z); MulCommutes(y, z);
  }

  lemma {:induction false} DistributesRight(x: Symbol, y: Symbol, z: Symbol)
    ensures Mul(z, Plus(x, y)) == Plus(Mul(z, x), Mul(z, y))
  {
    hide TimesA, Part, Sum, Plus;
    var z1 := TimesA(z);
    var z2 := TimesA(z1);
    var z3 := TimesA(z2);
    var z4 := TimesA(z3);
    PartPlus(x, y, 1, z); PartPlus(x, y, 2, z1); PartPlus(x, y, 4, z2); PartPlus(x, y, 8, z3); PartPlus(x, y, 16, z4);
    SumPairs(Part(x, 1, z), Part(x, 2, z1), Part(x, 4, z2), Part(x, 8, z3), Part(x, 16, z4),
      Part(y, 1, z), Part(y, 2, z1), Part(y, 4, z2), Part(y, 8, z3), Part(y, 16, z4));
  }

  lemma {:induction false} SumTimes(a: Symbol, b: Symbol, c: Symbol, d: Symbol, e: Symbol)
    ensures TimesA(Sum(a, b, c, d, e)) == Sum(TimesA(a), TimesA(b), TimesA(c), TimesA(d), TimesA(e))
  {
    hide TimesA, Plus;
    var s2 := Plus(a, b);
    var s3 := Plus(s2, c);
    TimesALinear(a, b); TimesALinear(s2, c); TimesALinear(s3, d); TimesALinear(Plus(s3, d), e);
  }

  /** A factor a may stand anywhere. */
  lemma {:induction false} MulTimes(x: Symbol, y: Symbol)
    ensures Mul(TimesA(x), y) == TimesA(Mul(x, y)) == Mul(x, TimesA(y))
  {
    hide TimesA, Mul;
    TimesFirst(x, y);
    TimesFirst(y, x);
    MulCommutes(TimesA(y), x); MulCommutes(x, y);
  }

  lemma {:induction false} TimesFirst(x: Symbol, y: Symbol)
    ensures Mul(TimesA(x), y) == TimesA(Mul(x, y))
  {
    hide TimesA, Part, Sum;
    var x1 := TimesA(x);
    var x2 := TimesA(x1);
    var x3 := TimesA(x2);
    var x4 := TimesA(x3);
    PartTimes(y, 1, x); PartTimes(y, 2, x1); PartTimes(y, 4, x2); PartTimes(y, 8, x3); PartTimes(y, 16, x4);
    SumTimes(Part(y, 1, x), Part(y, 2, x1), Part(y, 4, x2), Part(y, 8, x3), Part(y, 16, x4));
  }

  lemma {:induction false} MulPart(x: Symbol, z: Symbol, m: Symbol, y: Symbol)
    ensures Mul(x, Part(z, m, y)) == Part(z, m, Mul(x, y))
  {
    hide Mul;
    MulOne(x);
  }

  lemma {:induction false} MulSum(x: Symbol, a: Symbol, b: Symbol, c: Symbol, d: Symbol, e: Symbol)
    ensures Mul(x, Sum(a, b, c, d, e)) == Sum(Mul(x, a), Mul(x, b), Mul(x, c), Mul(x, d), Mul(x, e))
  {
    hide Mul, Plus;
    var s2 := Plus(a, b);
    var s3 := Plus(s2, c);
    DistributesRight(a, b, x); DistributesRight(s2, c, x); DistributesRight(s3, d, x);
    DistributesRight(Plus(s3, d), e, x);
  }

  lemma {:induction false} MulIs(x: Symbol, y: Symbol)
    ensures var x1 := TimesA(x); var x2 := TimesA(x1); var x3 := TimesA(x2); var x4 := TimesA(x3);
            Mul(x, y) == Sum(Part(y, 1, x), Part(y, 2, x1), Part(y, 4, x2), Part(y, 8, x3), Part(y, 16, x4))
  {
    hide TimesA, Part, Sum;
  }

  lemma {:induction false} MulAssociates(x: Symbol, y: Symbol, z: Symbol)
    ensures Mul(Mul(x, y), z) == Mul(x, Mul(y, z))
  {
    hide TimesA, Part, Sum, Mul;
    MulIs(Mul(x, y), z); MulIs(y, z);
    var y1 := TimesA(y);
    var y2 := TimesA(y1);
    var y3 := TimesA(y2);
    var y4 := TimesA(y3);
    MulTimes(x, y); MulTimes(x, y1); MulTimes(x, y2); MulTimes(x, y3);
    MulPart(x, z, 1, y); MulPart(x, z, 2, y1); MulPart(x, z, 4, y2); MulPart(x, z, 8, y3); MulPart(x, z, 16, y4);
    MulSum(x, Part(z, 1, y), Part(z, 2, y1), Part(z, 4, y2), Part(z, 8, y3), Part(z, 16, y4));
  }

  /** There are no divisors of zero. */
  lemma {:induction false} MulNonZero(x: Symbol, y: Symbol)
    ensures Mul(x, y) == 0 <==> x == 0 || y == 0
  {
  }

  // ---------------------------------------------------------------- one step

  /** g(x) = x^6 + 29x^5 + 22x^4 + 20x^3 + 21x^2 + 29x + 18. */
  const GENERATOR: seq<Symbol> := [1, 29, 22, 20, 21, 29, 18]

  /** A coefficient of a remainder, highest first. */
  function Rest(r: Poly, j: int): Symbol {
    match j
    case 0 => r.c0
    case 1 => r.c1
    case 2 => r.c2
    case 3 => r.c3
    case 4 => r.c4
    case 5 => r.c5
    case _ => 0
  }

  /** A step takes c(x) to the remainder of c(x) * x + v: that is c0 * g(x) plus the result, at every power. */
  lemma {:induction false} StepRemainder(c: Poly, v: Symbol, i: nat)
    requires i < 7
    ensures (if i < 6 then Rest(c, i) else v) == Plus(Mul(c.c0, GENERATOR[i]), Rest(Step(c, v), i - 1))
  {
    hide Mul, Step, Feedback, Plus;
    MulOne(c.c0);
    PlusZero(c.c0);
    StepIs(c, v);
    var s := Poly(c.c1, c.c2, c.c3, c.c4, c.c5, v);
    FeedbackAt(c.c0);
    PlusBack(s.c0, Mul(c.c0, 29)); PlusBack(s.c1, Mul(c.c0, 22)); PlusBack(s.c2, Mul(c.c0, 20));
    PlusBack(s.c3, Mul(c.c0, 21)); PlusBack(s.c4, Mul(c.c0, 29)); PlusBack(s.c5, Mul(c.c0, 18));
  }

  lemma {:induction false} PlusBack(x: Symbol, y: Symbol)
    ensures Plus(y, Plus(x, y)) == x && Plus(x, Plus(x, y)) == y && Plus(x, y) == Plus(y, x)
  {
  }

  /** What a leading coefficient adds to the rest. */
  function Feedback(c0: Symbol): Poly {
    Tap(c0, 1, GEN0).Xor(Tap(c0, 2, GEN1)).Xor(Tap(c0, 4, GEN2)).Xor(Tap(c0, 8, GEN3)).Xor(Tap(c0, 16, GEN4))
  }

  lemma {:induction false} XorAt(a: Poly, b: Poly)
    ensures a.Xor(b) ==
      Poly(Plus(a.c0, b.c0), Plus(a.c1, b.c1), Plus(a.c2, b.c2), Plus(a.c3, b.c3), Plus(a.c4, b.c4), Plus(a.c5, b.c5))
  {
  }

  lemma {:induction false} StepIs(c: Poly, v: Symbol)
    ensures var s, f := Poly(c.c1, c.c2, c.c3, c.c4, c.c5, v), Feedback(c.c0);
            Step(c, v) ==
              Poly(Plus(s.c0, f.c0), Plus(s.c1, f.c1), Plus(s.c2, f.c2), Plus(s.c3, f.c3), Plus(s.c4, f.c4),
                Plus(s.c5, f.c5))
  {
    hide Tap, Plus, Poly.Xor;
    var s := Poly(c.c1, c.c2, c.c3, c.c4, c.c5, v);
    var t0, t1, t2, t3, t4 := Tap(c.c0, 1, GEN0), Tap(c.c0, 2, GEN1), Tap(c.c0, 4, GEN2), Tap(c.c0, 8, GEN3),
      Tap(c.c0, 16, GEN4);
    XorMoves(s, t0, t1); XorMoves(s, t0.Xor(t1), t2); XorMoves(s, t0.Xor(t1).Xor(t2), t3);
    XorMoves(s, t0.Xor(t1).Xor(t2).Xor(t3), t4);
    XorAt(s, Feedback(c.c0));
  }

  lemma {:induction false} XorMoves(a: Poly, b: Poly, c: Poly)
    ensures a.Xor(b).Xor(c) == a.Xor(b.Xor(c))
  {
    hide Poly.Xor;
    XorPairs(a, b, ZERO, c);
    XorZero(a); XorZero(c);
  }

  /** Every generator constant of the code is a times the one before it. */
  lemma {:induction false} GeneratorsDouble()
    ensures GEN1 == TimesEach(GEN0) && GEN2 == TimesEach(GEN1) && GEN3 == TimesEach(GEN2) && GEN4 == TimesEach(GEN3)
  {
  }

  function TimesEach(p: Poly): Poly {
    Poly(TimesA(p.c0), TimesA(p.c1), TimesA(p.c2), TimesA(p.c3), TimesA(p.c4), TimesA(p.c5))
  }

  lemma {:induction false} TapAt(c0: Symbol, m: Symbol, k: Poly)
    ensures Tap(c0, m, k) ==
      Poly(Part(c0, m, k.c0), Part(c0, m, k.c1), Part(c0, m, k.c2), Part(c0, m, k.c3), Part(c0, m, k.c4),
        Part(c0, m, k.c5))
  {
  }

  lemma {:induction false} ProductOf(c0: Symbol, k0: Symbol, k1: Symbol, k2: Symbol, k3: Symbol, k4: Symbol)
    requires k1 == TimesA(k0) && k2 == TimesA(k1) && k3 == TimesA(k2) && k4 == TimesA(k3)
    ensures Sum(Part(c0, 1, k0), Part(c0, 2, k1), Part(c0, 4, k2), Part(c0, 8, k3), Part(c0, 16, k4)) == Mul(c0, k0)
  {
    hide TimesA, Part, Sum, Mul;
    MulIs(k0, c0);
    MulCommutes(k0, c0);
  }

  /** It is c0 * (x^6 mod g(x)). */
  lemma {:induction false} FeedbackAt(c0: Symbol)
    ensures Feedback(c0) == Poly(Mul(c0, 29), Mul(c0, 22), Mul(c0, 20), Mul(c0, 21), Mul(c0, 29), Mul(c0, 18))
  {
    hide Tap, Part, Mul, Poly.Xor, Plus, TimesA;
    GeneratorsDouble();
    TapAt(c0, 1, GEN0); TapAt(c0, 2, GEN1); TapAt(c0, 4, GEN2); TapAt(c0, 8, GEN3); TapAt(c0, 16, GEN4);
    var s1 := Tap(c0, 1, GEN0).Xor(Tap(c0, 2, GEN1));
    XorAt(Tap(c0, 1, GEN0), Tap(c0, 2, GEN1));
    var s2 := s1.Xor(Tap(c0, 4, GEN2));
    XorAt(s1, Tap(c0, 4, GEN2));
    XorAt(s2, Tap(c0, 8, GEN3));
    XorAt(s2.Xor(Tap(c0, 8, GEN3)), Tap(c0, 16, GEN4));
    ProductOf(c0, GEN0.c0, GEN1.c0, GEN2.c0, GEN3.c0, GEN4.c0);
    ProductOf(c0, GEN0.c1, GEN1.c1, GEN2.c1, GEN3.c1, GEN4.c1);
    ProductOf(c0, GEN0.c2, GEN1.c2, GEN2.c2, GEN3.c2, GEN4.c2);
    ProductOf(c0, GEN0.c3, GEN1.c3, GEN2.c3, GEN3.c3, GEN4.c3);
    ProductOf(c0, GEN0.c4, GEN1.c4, GEN2.c4, GEN3.c4, GEN4.c4);
    ProductOf(c0, GEN0.c5, GEN1.c5, GEN2.c5, GEN3.c5, GEN4.c5);
  }

  /** A step is linear over GF(32). */
  lemma {:induction false} StepScales(c: Poly, v: Symbol, k: Symbol)
    ensures Step(Scaled(c, k), Mul(v, k)) == Scaled(Step(c, v), k)
  {
    hide Mul, Step, Feedback, Plus;
    StepIs(c, v);
    StepIs(Scaled(c, k), Mul(v, k));
    FeedbackAt(c.c0);
    FeedbackAt(Mul(c.c0, k));
    ScaledSum(c.c1, c.c0, 29, k); ScaledSum(c.c2, c.c0, 22, k); ScaledSum(c.c3, c.c0, 20, k);
    ScaledSum(c.c4, c.c0, 21, k); ScaledSum(c.c5, c.c0, 29, k); ScaledSum(v, c.c0, 18, k);
  }

  function Scaled(c: Poly, k: Symbol): Poly {
    Poly(Mul(c.c0, k), Mul(c.c1, k), Mul(c.c2, k), Mul(c.c3, k), Mul(c.c4, k), Mul(c.c5, k))
  }

  lemma {:induction false} ScaledSum(x: Symbol, c0: Symbol, g: Symbol, k: Symbol)
    ensures Plus(Mul(x, k), Mul(Mul(c0, k), g)) == Mul(Plus(x, Mul(c0, g)), k)
  {
    hide Mul, Plus;
    MulDistributes(x, Mul(c0, g), k);
    MulAssociates(c0, k, g);
    MulCommutes(k, g);
    MulAssociates(c0, g, k);
  }

  // ---------------------------------------------------------------- the whole message

  /** The coefficients that `PolyMod` works on, highest first: an implicit one in front of the values. */
  function Message(v: seq<Symbol>): seq<Symbol> { [0, 0, 0, 0, 0, 1] + v }

  function At(q: seq<Symbol>, i: int): Symbol { if 0 <= i < |q| then q[i] else 0 }

  /** The terms from `j` on of coefficient `i` of q(x) * g(x). */
  function Product(q: seq<Symbol>, i: nat, j: nat): Symbol
    requires j <= 7
    decreases 7 - j
  {
    if j == 7 then 0 else Plus(Mul(At(q, i - j), GENERATOR[j]), Product(q, i, j + 1))
  }

  /** The message is q(x) * g(x) + r(x). */
  ghost predicate Divides(v: seq<Symbol>, q: seq<Symbol>, r: Poly) {
    |q| == |v| && forall i: nat :: i < |v| + 6 ==> Message(v)[i] == Plus(Product(q, i, 0), Rest(r, i - |v|))
  }

  /** What one more coefficient of the quotient adds to the product. */
  function Added(c: Symbol, n: nat, i: nat, j: nat): Symbol {
    if n + j <= i <= n + 6 then Mul(c, GENERATOR[i - n]) else 0
  }

  lemma {:induction false} ProductNext(q: seq<Symbol>, c: Symbol, i: nat, j: nat)
    requires j <= 7
    ensures Product(q + [c], i, j) == Plus(Product(q, i, j), Added(c, |q|, i, j))
    decreases 7 - j
  {
    hide Mul, Plus;
    PlusZero(0);
    if j < 7 {
      ProductNext(q, c, i, j + 1);
      var x, y := At(q, i - j), Product(q, i, j + 1);
      assert At(q + [c], i - j) == if i - j == |q| then c else x;
      if i - j == |q| {
        MulOne(GENERATOR[j]);
        PlusZero(Mul(c, GENERATOR[j])); PlusZero(y);
        PlusBack(y, Mul(c, GENERATOR[j]));
      } else {
        PlusMoves(Mul(x, GENERATOR[j]), y, Added(c, |q|, i, j + 1));
      }
    }
  }

  lemma {:induction false} PlusMoves(x: Symbol, y: Symbol, z: Symbol)
    ensures Plus(x, Plus(y, z)) == Plus(Plus(x, y), z)
  {
  }

  /** No term of the product reaches beyond the quotient by more than the degree of g(x). */
  lemma {:induction false} ProductEnds(q: seq<Symbol>, i: nat, j: nat)
    requires j <= 7 && i >= |q| + 6
    ensures Product(q, i, j) == 0
    decreases 7 - j
  {
    hide Mul, Plus;
    PlusZero(0);
    if j < 7 {
      ProductEnds(q, i, j + 1);
      MulOne(GENERATOR[j]);
    }
  }

  /** One more value: the next coefficient of the quotient is the leading one of the remainder, and the
      remainder makes a step. */
  lemma {:induction false} DividesNext(v: seq<Symbol>, x: Symbol, q: seq<Symbol>, r: Poly)
    requires Divides(v, q, r)
    ensures Divides(v + [x], q + [r.c0], Step(r, x))
  {
    hide Mul, Plus, Product, Step, Rest;
    var n := |v|;
    forall i: nat | i < n + 7
      ensures Message(v + [x])[i] == Plus(Product(q + [r.c0], i, 0), Rest(Step(r, x), i - n - 1))
    {
      ProductNext(q, r.c0, i, 0);
      NextCoefficient(v, x, q, r, i);
    }
  }

  lemma {:induction false} NextCoefficient(v: seq<Symbol>, x: Symbol, q: seq<Symbol>, r: Poly, i: nat)
    requires Divides(v, q, r) && i < |v| + 7
    ensures Message(v + [x])[i] == Plus(Plus(Product(q, i, 0), Added(r.c0, |v|, i, 0)), Rest(Step(r, x), i - |v| - 1))
  {
    hide Mul, Plus, Product, Step;
    var n, p := |v|, Product(q, i, 0);
    PlusZero(p);
    if i < n {
      assert Message(v + [x])[i] == Message(v)[i];
    } else {
      StepRemainder(r, x, i - n);
      var f, s := Mul(r.c0, GENERATOR[i - n]), Rest(Step(r, x), i - n - 1);
      PlusMoves(p, f, s);
      if i < n + 6 {
        assert Message(v + [x])[i] == Message(v)[i];
      } else {
        ProductEnds(q, i, 0);
        PlusZero(x);
      }
    }
  }

  lemma {:induction false} FoldLast(v: seq<Symbol>)
    requires v != []
    ensures Fold(ONE, v) == Step(Fold(ONE, v[..|v| - 1]), v[|v| - 1])
  {
    hide Step;
    var w, x := v[..|v| - 1], v[|v| - 1];
    assert v == w + [x];
    FoldConcat(ONE, w, [x]);
    var none: seq<Symbol> := [];
    assert [x][1..] == none;
  }

  /** `PolyMod` is the remainder of the message modulo g(x). */
  lemma {:induction false} PolyModDivides(v: seq<Symbol>) returns (q: seq<Symbol>)
    ensures Divides(v, q, Fold(ONE, v))
  {
    hide Fold, Divides;
    if v == [] {
      q := [];
      NothingDivided(ONE);
      assert Fold(ONE, v) == ONE by { FoldNothing(ONE); }
    } else {
      var n := |v| - 1;
      q := PolyModDivides(v[..n]);
      FoldLast(v);
      assert v == v[..n] + [v[n]];
      DividesNext(v[..n], v[n], q, Fold(ONE, v[..n]));
      q := q + [Fold(ONE, v[..n]).c0];
    }
  }

  lemma {:induction false} FoldNothing(c: Poly)
    ensures Fold(c, []) == c
  {
  }

  lemma {:induction false} NothingDivided(r: Poly)
    ensures Divides([], [], r) <==> r == ONE
  {
    hide Mul, Plus;
    forall i: nat | i < 6 ensures Plus(Product([], i, 0), Rest(r, i)) == Rest(r, i) {
      NoProduct(i, 0);
      PlusZero(Rest(r, i));
    }
    if Divides([], [], r) {
      assert Message([])[0] == Rest(r, 0) && Message([])[1] == Rest(r, 1) && Message([])[2] == Rest(r, 2);
      assert Message([])[3] == Rest(r, 3) && Message([])[4] == Rest(r, 4) && Message([])[5] == Rest(r, 5);
    }
  }

  lemma {:induction false} NoProduct(i: nat, j: nat)
    requires j <= 7
    ensures Product([], i, j) == 0
    decreases 7 - j
  {
    hide Mul, Plus;
    PlusZero(0);
    if j < 7 {
      NoProduct(i, j + 1);
      MulOne(GENERATOR[j]);
    }
  }

  /** And there is no other. */
  lemma {:induction false} RemainderUnique(v: seq<Symbol>, q: seq<Symbol>, r: Poly)
    requires Divides(v, q, r)
    ensures r == Fold(ONE, v)
    decreases |v|
  {
    hide Divides, Fold, Step;
    DividesSize(v, q, r);
    if v == [] {
      NothingDivided(r);
      FoldNothing(ONE);
    } else {
      var n := |v| - 1;
      var w, p := v[..n], q[..n];
      assert v == w + [v[n]] && q == p + [q[n]];
      var r0 := Residue(w, p);
      ResidueDivides(w, v[n], p, q[n], r);
      RemainderUnique(w, p, r0);
      DividesNext(w, v[n], p, r0);
      SameQuotient(w, v[n], p, q[n], r0.c0, r, Step(r0, v[n]));
      FoldLast(v);
    }
  }

  lemma {:induction false} DividesSize(v: seq<Symbol>, q: seq<Symbol>, r: Poly)
    requires Divides(v, q, r)
    ensures |q| == |v|
  {
  }

  /** What is left of the message below the quotient. */
  function Residue(v: seq<Symbol>, q: seq<Symbol>): Poly {
    Poly(LeftAt(v, q, 0), LeftAt(v, q, 1), LeftAt(v, q, 2), LeftAt(v, q, 3), LeftAt(v, q, 4), LeftAt(v, q, 5))
  }

  function LeftAt(v: seq<Symbol>, q: seq<Symbol>, j: nat): Symbol
    requires j < 6
  {
    Plus(Product(q, |v| + j, 0), Message(v)[|v| + j])
  }

  lemma {:induction false} ResidueDivides(v: seq<Symbol>, x: Symbol, q: seq<Symbol>, c: Symbol, r: Poly)
    requires Divides(v + [x], q + [c], r)
    ensures Divides(v, q, Residue(v, q))
  {
    hide Mul, Plus, Product;
    var n := |v|;
    forall i: nat | i < n + 6 ensures Message(v)[i] == Plus(Product(q, i, 0), Rest(Residue(v, q), i - n)) {
      PlusZero(Product(q, i, 0));
      if i < n {
        assert Message(v + [x])[i] == Message(v)[i];
        ProductNext(q, c, i, 0);
      } else {
        PlusBack(Product(q, i, 0), Message(v)[i]);
        assert Rest(Residue(v, q), i - n) == LeftAt(v, q, i - n);
      }
    }
  }

  lemma {:induction false} SameQuotient(v: seq<Symbol>, x: Symbol, q: seq<Symbol>, c: Symbol, c': Symbol, r: Poly,
                                        r': Poly)
    requires Divides(v + [x], q + [c], r) && Divides(v + [x], q + [c'], r')
    ensures c == c' && r == r'
  {
    hide Mul, Plus, Product;
    var n, m := |v|, Message(v + [x]);
    ProductNext(q, c, n, 0); ProductNext(q, c', n, 0);
    MulOne(c); MulOne(c');
    PlusZero(Product(q + [c], n, 0)); PlusZero(Product(q + [c'], n, 0));
    assert m[n] == Product(q + [c], n, 0) == Product(q + [c'], n, 0);
    PlusBack(Product(q, n, 0), c); PlusBack(Product(q, n, 0), c');
    forall j: nat | j < 6 ensures Rest(r, j) == Rest(r', j) {
      var i := n + 1 + j;
      assert m[i] == Plus(Product(q + [c], i, 0), Rest(r, j)) == Plus(Product(q + [c], i, 0), Rest(r', j));
      PlusBack(Product(q + [c], i, 0), Rest(r, j)); PlusBack(Product(q + [c], i, 0), Rest(r', j));
    }
    assert Rest(r, 0) == Rest(r', 0) && Rest(r, 1) == Rest(r', 1) && Rest(r, 2) == Rest(r', 2);
    assert Rest(r, 3) == Rest(r', 3) && Rest(r, 4) == Rest(r', 4) && Rest(r, 5) == Rest(r', 5);
  }

  /** A string verifies as an encoding if and only if its message leaves the constant of that encoding. */
  lemma {:induction false} VerifyDivides(hrp: string, values: seq<Symbol>, e: Encoding)
    ensures VerifyChecksum(hrp, values) == Some(e) <==>
      exists q :: Divides(ExpandHrp(hrp) + values, q, EncodingConstant(e))
  {
    hide Fold, Divides, ExpandHrp, VerifyChecksum, EncodingConstant;
    var v := ExpandHrp(hrp) + values;
    VerifyMeans(hrp, values, e);
    var q := PolyModDivides(v);
    if q' :| Divides(v, q', EncodingConstant(e)) { RemainderUnique(v, q', EncodingConstant(e)); }
  }

  /** The character set, in order. */
  lemma {:induction false} CharsetIs(d: Symbol)
    ensures CharsetChar(d) == "qpzry9x8gf2tvdw0s3jn54khce6mua7l"[d as int]
  {
  }

  /** The shortest strings of both encodings. */
  lemma {:induction false} ShortestStrings()
    ensures Encode(BECH32, "a", []) == "a12uel5l" && Encode(BECH32M, "a", []) == "a1lqfn3a"
  {
    hide Fold, CharsetChar, CreateChecksum, Chars;
    var none: seq<Symbol> := [];
    ShortChecksums();
    var c, m := CreateChecksum(BECH32, "a", none), CreateChecksum(BECH32M, "a", none);
    assert none + c == c && none + m == m;
    ShortChars(c, m);
    assert "a" + [SEPARATOR] + "2uel5l" == "a12uel5l" && "a" + [SEPARATOR] + "lqfn3a" == "a1lqfn3a";
  }

  lemma {:induction false} ShortChars(c: seq<Symbol>, m: seq<Symbol>)
    requires c == [10, 28, 25, 31, 20, 31] && m == [31, 0, 9, 19, 17, 29]
    ensures Chars(c) == "2uel5l" && Chars(m) == "lqfn3a"
  {
  }

  lemma {:induction false} ShortChecksums()
    ensures CreateChecksum(BECH32, "a", []) == [10, 28, 25, 31, 20, 31]
    ensures CreateChecksum(BECH32M, "a", []) == [31, 0, 9, 19, 17, 29]
  {
    hide Fold;
    var none: seq<Symbol> := [];
    var v: seq<Symbol> := [3, 0, 1, 0, 0, 0, 0, 0, 0];
    assert ExpandHrp("a") + none + Zeros(6) == v;
    FoldShortest(v);
  }

  lemma {:induction false} FoldShortest(v: seq<Symbol>)
    requires v == [3, 0, 1, 0, 0, 0, 0, 0, 0]
    ensures Fold(ONE, v) == Poly(10, 28, 25, 31, 20, 30)
  {
    hide Fold, Step;
    var p1, p2, p3 := Poly(0, 0, 0, 0, 1, 3), Poly(0, 0, 0, 1, 3, 0), Poly(0, 0, 1, 3, 0, 1);
    var p4, p5, p6 := Poly(0, 1, 3, 0, 1, 0), Poly(1, 3, 0, 1, 0, 0), Poly(30, 22, 21, 21, 29, 18);
    var p7, p8 := Poly(1, 15, 26, 12, 5, 25), Poly(18, 12, 24, 16, 4, 18);
    ShiftOnly(ONE, 3); ShiftOnly(p1, 0); ShiftOnly(p2, 1); ShiftOnly(p3, 0); ShiftOnly(p4, 0);
    FirstSteps();
    LastSteps();
    FoldNext(ONE, v, 0); FoldNext(p1, v, 1); FoldNext(p2, v, 2); FoldNext(p3, v, 3); FoldNext(p4, v, 4);
    FoldNext(p5, v, 5); FoldNext(p6, v, 6); FoldNext(p7, v, 7); FoldNext(p8, v, 8);
    assert v[0..] == v && v[9..] == [];
    FoldNothing(Poly(10, 28, 25, 31, 20, 30));
  }

  lemma {:induction false} FirstSteps()
    ensures Step(Poly(1, 3, 0, 1, 0, 0), 0) == Poly(30, 22, 21, 21, 29, 18)
    ensures Step(Poly(30, 22, 21, 21, 29, 18), 0) == Poly(1, 15, 26, 12, 5, 25)
  {
  }

  lemma {:induction false} LastSteps()
    ensures Step(Poly(1, 15, 26, 12, 5, 25), 0) == Poly(18, 12, 24, 16, 4, 18)
    ensures Step(Poly(18, 12, 24, 16, 4, 18), 0) == Poly(10, 28, 25, 31, 20, 30)
  {
  }
}
